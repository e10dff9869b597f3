/**
 * The two records the controller keeps: attendees (the presence directory's values and
 * the members of a room) and rooms. Their constructors copy the fields they are given.
 */
module Entities {
  import opened Wrappers
  import opened Seqs

  /** A connection (socket) id; it keys the presence directory. */
  type Id = string

  type RoomId = string

  /**
   * An attendee. A field the JavaScript object leaves `undefined` is `None`: the
   * placeholder made when a connection opens has no id, and a record rebuilt for a
   * connection the directory no longer knows has nothing but `isSpeaker`.
   */
  datatype Attendee = Attendee(
    id: Option<Id>,
    username: Option<string>,
    img: Option<string>,
    roomId: Option<RoomId>,
    isSpeaker: bool)

  /**
   * A room. `users` is the member set in insertion order; the last three fields are
   * derived from it every time the room is stored.
   */
  datatype Room = Room(
    id: RoomId,
    topic: Option<string>,
    owner: Attendee,
    users: seq<Attendee>,
    attendeesCount: nat,
    speakersCount: nat,
    featuredAttendees: seq<Attendee>)

  /** How many members a room advertises in the lobby. */
  const FeaturedLimit: nat := 3

  /** Members are matched by `id` with `===`, so a record without an id matches no connection. */
  predicate HasId(a: Attendee, x: Id) {
    a.id == Some(x)
  }

  ghost predicate IsMember(users: seq<Attendee>, x: Id) {
    exists i :: 0 <= i < |users| && HasId(users[i], x)
  }

  /** The owner's id is that of one of the members. */
  ghost predicate OwnerIsMember(room: Room) {
    exists i :: 0 <= i < |room.users| && room.users[i].id == room.owner.id
  }

  /** For an owner with an id, being a member is being owned by a member. */
  lemma OwnerMembership(room: Room)
    requires room.owner.id.Some?
    ensures OwnerIsMember(room) <==> IsMember(room.users, room.owner.id.value)
  {
    if IsMember(room.users, room.owner.id.value) {
      var i :| 0 <= i < |room.users| && HasId(room.users[i], room.owner.id.value);
      assert room.users[i].id == room.owner.id;
    }
  }

  /** No two members carry the same id. */
  ghost predicate DistinctIds(users: seq<Attendee>) {
    forall i, j :: 0 <= i < j < |users| ==> users[i].id != users[j].id
  }

  /** Positions of the members that are speakers: the reference count of speakers. */
  ghost function SpeakerPositions(users: seq<Attendee>): set<nat> {
    set i: nat | i < |users| && users[i].isSpeaker
  }

  /** How many members are speakers, counted over the members in order. */
  function CountSpeakers(users: seq<Attendee>): (n: nat)
    ensures n <= |users|
  {
    if |users| == 0 then 0
    else CountSpeakers(users[..|users| - 1]) + (if users[|users| - 1].isSpeaker then 1 else 0)
  }

  lemma {:induction false} CountSpeakersIsPositions(users: seq<Attendee>)
    ensures CountSpeakers(users) == |SpeakerPositions(users)|
    decreases |users|
  {
    if |users| > 0 {
      var n := |users| - 1;
      var init := users[..n];
      CountSpeakersIsPositions(init);
      var last := if users[n].isSpeaker then {n} else {};
      assert SpeakerPositions(users) == SpeakerPositions(init) + last by {
        forall i: nat | i in SpeakerPositions(users)
          ensures i in SpeakerPositions(init) + last
        {
          if i < n {
            assert init[i] == users[i];
          }
        }
        forall i: nat | i in SpeakerPositions(init)
          ensures i in SpeakerPositions(users)
        {
          assert init[i] == users[i];
        }
      }
      assert n !in SpeakerPositions(init);
    }
  }

  /**
   * The derived fields of a room agree with its members: `attendeesCount` is the number
   * of members, `speakersCount` the number of speaking members, and `featuredAttendees`
   * the first (up to) three members in order.
   */
  ghost predicate Consistent(room: Room) {
    && room.attendeesCount == |room.users|
    && room.speakersCount == |SpeakerPositions(room.users)|
    && |room.featuredAttendees| == Min(FeaturedLimit, |room.users|)
    && forall i :: 0 <= i < |room.featuredAttendees| ==> room.featuredAttendees[i] == room.users[i]
  }

  /** The members without the first one whose id is `x` (`find` then `Set.prototype.delete`). */
  function WithoutMember(users: seq<Attendee>, x: Id): (r: seq<Attendee>)
    ensures IsMember(users, x) ==> |r| == |users| - 1
    ensures !IsMember(users, x) ==> r == users
  {
    match FirstIndex(users, (a: Attendee) => HasId(a, x))
    case None => users
    case Some(i) => RemoveAt(users, i)
  }

  /** The position `WithoutMember` removes, when `x` is a member. */
  function MemberIndex(users: seq<Attendee>, x: Id): (i: nat)
    requires IsMember(users, x)
    ensures i < |users| && HasId(users[i], x)
    ensures forall j :: 0 <= j < i ==> !HasId(users[j], x)
    ensures WithoutMember(users, x) == RemoveAt(users, i)
  {
    FirstIndex(users, (a: Attendee) => HasId(a, x)).value
  }

  /** Removing one position keeps every member whose id differs from the removed one's. */
  lemma RemoveAtKeepsMembers(users: seq<Attendee>, i: nat, y: Id)
    requires i < |users| && IsMember(users, y) && !HasId(users[i], y)
    ensures IsMember(RemoveAt(users, i), y)
  {
    var r := RemoveAt(users, i);
    var j :| 0 <= j < |users| && HasId(users[j], y);
    if j < i {
      assert HasId(r[j], y);
    } else {
      assert HasId(r[j - 1], y);
    }
  }

  lemma RemoveAtKeepsDistinct(users: seq<Attendee>, i: nat)
    requires i < |users| && DistinctIds(users)
    ensures DistinctIds(RemoveAt(users, i))
  {
    var r := RemoveAt(users, i);
    forall a, b | 0 <= a < b < |r|
      ensures r[a].id != r[b].id
    {
      var a' := if a < i then a else a + 1;
      var b' := if b < i then b else b + 1;
      assert r[a] == users[a'] && r[b] == users[b'];
    }
  }

  /** With distinct ids, the removed member was the only one with its id. */
  lemma RemoveAtRemovesId(users: seq<Attendee>, i: nat)
    requires i < |users| && DistinctIds(users)
    ensures forall j :: 0 <= j < |users| - 1 ==> RemoveAt(users, i)[j].id != users[i].id
  {
    var r := RemoveAt(users, i);
    forall j | 0 <= j < |r|
      ensures r[j].id != users[i].id
    {
      if j < i {
        assert r[j] == users[j];
      } else {
        assert r[j] == users[j + 1];
      }
    }
  }
}
