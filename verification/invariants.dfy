/**
 * The consistency the controller keeps between the presence directory and the room
 * registry, and its preservation by every handler on well-formed input.
 */
module Invariants {
  import opened Wrappers
  import opened Seqs
  import opened Entities
  import opened Notifications
  import opened RoomsController

  /** A room's copy of a member is the directory's record for that member's id. */
  ghost predicate Synced(directory: map<Id, Attendee>, m: Attendee) {
    m.id.Some? && m.id.value in directory && directory[m.id.value] == m
  }

  /**
   * A stored room: keyed by its id, derived fields up to date, never empty, owned by
   * one of its members, no id twice, and every member is a live connection whose
   * directory record is the member's record and names this room.
   */
  ghost predicate RoomWellFormed(s: State, key: RoomId)
    requires key in s.rooms
  {
    var room := s.rooms[key];
    && room.id == key
    && Consistent(room)
    && |room.users| > 0
    && room.owner.id.Some? && OwnerIsMember(room)
    && DistinctIds(room.users)
    && forall i :: 0 <= i < |room.users| ==> room.users[i].roomId == Some(key) && Synced(s.users, room.users[i])
  }

  /** A connection is either in no room or a member of the stored room its record names. */
  ghost predicate Placed(s: State, x: Id)
    requires x in s.users
  {
    var a := s.users[x];
    || a.roomId == Some(NoRoom)
    || (a.roomId.Some? && a.roomId.value in s.rooms && IsMember(s.rooms[a.roomId.value].users, x))
  }

  ghost predicate Inv(s: State) {
    && NoRoom !in s.rooms
    && (forall k :: k in s.rooms ==> RoomWellFormed(s, k))
    && (forall x :: x in s.users ==> Placed(s, x))
  }

  /** Under the invariant, a member of a stored room is a connection whose record names that room. */
  lemma MemberIsPlacedThere(s: State, k: RoomId, x: Id)
    requires Inv(s) && k in s.rooms && IsMember(s.rooms[k].users, x)
    ensures x in s.users && s.users[x].roomId == Some(k)
  {
    assert RoomWellFormed(s, k);
    var i :| 0 <= i < |s.rooms[k].users| && HasId(s.rooms[k].users[i], x);
    assert Synced(s.users, s.rooms[k].users[i]);
  }

  /** A stored room whose members' directory records did not change is still well formed. */
  lemma UntouchedRoom(s: State, t: State, k: RoomId)
    requires Inv(s) && k in s.rooms && k in t.rooms && t.rooms[k] == s.rooms[k]
    requires forall y :: y in s.users && s.users[y].roomId == Some(k) ==> y in t.users && t.users[y] == s.users[y]
    ensures RoomWellFormed(t, k)
  {
    assert RoomWellFormed(s, k);
    var users := s.rooms[k].users;
    forall i | 0 <= i < |users|
      ensures Synced(t.users, users[i])
    {
      assert Synced(s.users, users[i]);
    }
  }

  lemma InitSatisfiesInv()
    ensures Inv(Init)
  {
  }

  /** A fresh connection keeps the invariant. */
  lemma OnNewConnectionKeepsInv(s: State, c: Id)
    requires Inv(s) && c !in s.users
    ensures Inv(OnNewConnection(s, c).state)
  {
    var t := OnNewConnection(s, c).state;
    forall k | k in t.rooms
      ensures RoomWellFormed(t, k)
    {
      UntouchedRoom(s, t, k);
    }
    forall x | x in t.users
      ensures Placed(t, x)
    {
      if x != c {
        assert Placed(s, x);
      }
    }
  }

  /** No member of any stored room carries the id of a connection outside every room. */
  lemma OutsideIsNoMember(s: State, c: Id, k: RoomId)
    requires Inv(s) && !InKnownRoom(s, c) && k in s.rooms
    ensures !IsMember(s.rooms[k].users, c)
  {
    if IsMember(s.rooms[k].users, c) {
      MemberIsPlacedThere(s, k, c);
    }
  }

  /** The room a connection joins, when it was stored before, stays well formed. */
  lemma JoinedRoomWellFormed(s: State, t: State, c: Id, key: RoomId)
    requires Inv(s) && !InKnownRoom(s, c) && key in s.rooms && key in t.rooms
    requires c in t.users && t.users[c].id == Some(c) && t.users[c].roomId == Some(key)
    requires forall y :: y in s.users && y != c ==> y in t.users && t.users[y] == s.users[y]
    requires t.rooms[key].id == key && Consistent(t.rooms[key])
    requires t.rooms[key].owner == s.rooms[key].owner
    requires t.rooms[key].users == s.rooms[key].users + [t.users[c]]
    ensures RoomWellFormed(t, key)
  {
    var prior := s.rooms[key].users;
    var users := t.rooms[key].users;
    assert RoomWellFormed(s, key);
    OutsideIsNoMember(s, c, key);
    var ownerId := s.rooms[key].owner.id.value;
    var w :| 0 <= w < |prior| && HasId(prior[w], ownerId);
    assert HasId(users[w], ownerId);
    forall i | 0 <= i < |users|
      ensures users[i].roomId == Some(key) && Synced(t.users, users[i])
    {
      if i < |prior| {
        assert users[i] == prior[i];
        assert Synced(s.users, prior[i]);
        assert !HasId(prior[i], c);
      }
    }
    forall i, j | 0 <= i < j < |users|
      ensures users[i].id != users[j].id
    {
      assert users[i] == prior[i];
      if j < |prior| {
        assert users[j] == prior[j];
      } else {
        assert Synced(s.users, prior[i]);
        assert !HasId(prior[i], c);
      }
    }
  }

  /** After a join, every connection is still placed. */
  lemma JoinedPlaced(s: State, t: State, c: Id, key: RoomId)
    requires Inv(s) && key in t.rooms && t.rooms.Keys == s.rooms.Keys + {key}
    requires forall k :: k in s.rooms && k != key ==> t.rooms[k] == s.rooms[k]
    requires t.users.Keys == s.users.Keys + {c}
    requires forall y :: y in s.users && y != c ==> t.users[y] == s.users[y]
    requires t.users[c].roomId == Some(key)
    requires key in s.rooms ==> t.rooms[key].users == s.rooms[key].users + [t.users[c]]
    requires key !in s.rooms ==> t.rooms[key].users == [t.users[c]]
    requires t.users[c].id == Some(c)
    ensures forall x :: x in t.users ==> Placed(t, x)
  {
    var users := t.rooms[key].users;
    forall x | x in t.users
      ensures Placed(t, x)
    {
      if x == c {
        assert HasId(users[|users| - 1], c);
      } else {
        assert Placed(s, x);
        if s.users[x].roomId == Some(key) && key in s.rooms {
          var prior := s.rooms[key].users;
          var w :| 0 <= w < |prior| && HasId(prior[w], x);
          assert HasId(users[w], x);
        }
      }
    }
  }

  /** Joining keeps the invariant when the connection is in no room and names a real room id. */
  lemma JoinRoomKeepsInv(s: State, c: Id, data: UserData, info: RoomInfo)
    requires Inv(s) && !InKnownRoom(s, c) && info.id != NoRoom
    ensures Inv(JoinRoom(s, c, data, info).state)
  {
    var t := JoinRoom(s, c, data, info).state;
    forall k | k in t.rooms && k != info.id
      ensures RoomWellFormed(t, k)
    {
      UntouchedRoom(s, t, k);
    }
    if info.id in s.rooms {
      JoinedRoomWellFormed(s, t, c, info.id);
    } else {
      assert HasId(t.rooms[info.id].users[0], c);
    }
    JoinedPlaced(s, t, c, info.id);
  }

  /** The answer names a connection that is a member of the stored room the answer names. */
  predicate AnswerTargetsMember(s: State, target: Target) {
    target.id in s.users && s.users[target.id].roomId == Some(target.roomId) && target.roomId in s.rooms
  }

  /** The members left once `c` is removed from room `key`: distinct, in sync, and all but `c`. */
  ghost predicate Remains(s: State, c: Id, key: RoomId)
    requires key in s.rooms
  {
    var rest := WithoutMember(s.rooms[key].users, c);
    && DistinctIds(rest)
    && (forall j :: 0 <= j < |rest| ==>
          !HasId(rest[j], c) && rest[j].roomId == Some(key) && Synced(s.users, rest[j]))
    && (forall y :: IsMember(s.rooms[key].users, y) && y != c ==> IsMember(rest, y))
  }

  /** What is left of a room once a member leaves it. */
  lemma DepartureFacts(s: State, c: Id, key: RoomId)
    requires Inv(s) && c in s.users && s.users[c].roomId == Some(key) && key in s.rooms
    ensures RoomWellFormed(s, key) && IsMember(s.rooms[key].users, c) && HasId(s.users[c], c)
    ensures Remains(s, c, key)
  {
    assert RoomWellFormed(s, key);
    assert Placed(s, c);
    MemberLeaves(s, c, key);
  }

  /** Removing a member of a well-formed room leaves the rest distinct, in sync and complete. */
  lemma MemberLeaves(s: State, c: Id, key: RoomId)
    requires key in s.rooms && RoomWellFormed(s, key) && IsMember(s.rooms[key].users, c)
    ensures c in s.users && HasId(s.users[c], c)
    ensures Remains(s, c, key)
  {
    var users := s.rooms[key].users;
    var i0 := MemberIndex(users, c);
    assert Synced(s.users, users[i0]);
    var rest := RemoveAt(users, i0);
    RemoveAtKeepsDistinct(users, i0);
    RemoveAtRemovesId(users, i0);
    forall j | 0 <= j < |rest|
      ensures rest[j].roomId == Some(key) && Synced(s.users, rest[j])
    {
      var j' := if j < i0 then j else j + 1;
      assert rest[j] == users[j'];
    }
    forall y | IsMember(users, y) && y != c
      ensures IsMember(rest, y)
    {
      RemoveAtKeepsMembers(users, i0, y);
    }
  }

  /** Rooms other than `key` stay well formed when the records of their members do not change. */
  lemma OtherRoomsKeep(s: State, t: State, key: RoomId)
    requires Inv(s)
    requires forall r :: r in t.rooms && r != key ==> r in s.rooms && t.rooms[r] == s.rooms[r]
    requires forall y :: (y in s.users && s.users[y].roomId.Some? && s.users[y].roomId.value in s.rooms
      && s.users[y].roomId != Some(key)) ==> y in t.users && t.users[y] == s.users[y]
    ensures forall r :: r in t.rooms && r != key ==> RoomWellFormed(t, r)
  {
    forall r | r in t.rooms && r != key
      ensures RoomWellFormed(t, r)
    {
      UntouchedRoom(s, t, r);
    }
  }

  /** Moving a member's updated record to the end of its room keeps the room well formed. */
  lemma AnsweredRoomWellFormed(s: State, t: State, x: Id, key: RoomId, updated: Attendee)
    requires key in s.rooms && key in t.rooms && x in s.users
    requires RoomWellFormed(s, key) && Remains(s, x, key) && HasId(s.users[x], x)
    requires s.users[x].roomId == Some(key)
    requires updated == s.users[x].(isSpeaker := updated.isSpeaker)
    requires t.users == s.users[x := updated]
    requires t.rooms[key].id == key && Consistent(t.rooms[key])
    requires t.rooms[key].owner == s.rooms[key].owner
    requires t.rooms[key].users == WithoutMember(s.rooms[key].users, x) + [updated]
    ensures RoomWellFormed(t, key)
    ensures forall y :: IsMember(s.rooms[key].users, y) ==> IsMember(t.rooms[key].users, y)
  {
    var users := s.rooms[key].users;
    var after := t.rooms[key].users;
    var rest := WithoutMember(users, x);
    forall y | IsMember(users, y)
      ensures IsMember(after, y)
    {
      if y == x {
        assert HasId(after[|after| - 1], y);
      } else {
        var w :| 0 <= w < |rest| && HasId(rest[w], y);
        assert HasId(after[w], y);
      }
    }
    OwnerMembership(s.rooms[key]);
    OwnerMembership(t.rooms[key]);
    forall i | 0 <= i < |after|
      ensures after[i].roomId == Some(key) && Synced(t.users, after[i])
    {
      if i < |rest| {
        assert after[i] == rest[i];
        assert Synced(s.users, rest[i]);
      }
    }
    forall i, j | 0 <= i < j < |after|
      ensures after[i].id != after[j].id
    {
      assert after[i] == rest[i];
      if j < |rest| {
        assert after[j] == rest[j];
      }
    }
  }

  /** A speak answer keeps the invariant when it targets a member of the room it names. */
  lemma SpeakAnswerKeepsInv(s: State, c: Id, answer: bool, target: Target)
    requires Inv(s) && AnswerTargetsMember(s, target)
    ensures Inv(After(SpeakAnswer(s, c, answer, target)))
  {
    var t := After(SpeakAnswer(s, c, answer, target));
    var key := target.roomId;
    DepartureFacts(s, target.id, key);
    AnsweredRoomWellFormed(s, t, target.id, key, t.users[target.id]);
    OtherRoomsKeep(s, t, key);
    AnsweredPlaced(s, t, target.id, key);
  }

  /** Every connection is still placed once a member's record is replaced in place. */
  lemma AnsweredPlaced(s: State, t: State, x: Id, key: RoomId)
    requires key in s.rooms && key in t.rooms && x in s.users && s.users[x].roomId == Some(key)
    requires forall y :: y in s.users ==> Placed(s, y)
    requires t.users.Keys == s.users.Keys && t.users[x].roomId == Some(key)
    requires forall y :: y in s.users && y != x ==> t.users[y] == s.users[y]
    requires t.rooms.Keys == s.rooms.Keys
    requires forall k :: k in s.rooms && k != key ==> t.rooms[k] == s.rooms[k]
    requires forall y :: IsMember(s.rooms[key].users, y) ==> IsMember(t.rooms[key].users, y)
    ensures forall y :: y in t.users ==> Placed(t, y)
  {
    forall y | y in t.users
      ensures Placed(t, y)
    {
      assert Placed(s, y);
    }
  }

  /** The last member leaving deletes the room and keeps the invariant. */
  lemma LastLeaveKeepsInv(s: State, t: State, c: Id, key: RoomId)
    requires Inv(s) && c in s.users && s.users[c].roomId == Some(key) && key in s.rooms
    requires LastMemberLeaving(s.rooms[key], c)
    requires t == State(s.users - {c}, s.rooms - {key})
    ensures Inv(t)
  {
    DepartureFacts(s, c, key);
    OtherRoomsKeep(s, t, key);
    forall y | y in t.users
      ensures Placed(t, y)
    {
      assert Placed(s, y);
      assert s.users[y].roomId != Some(key);
    }
  }

  /** A member other than the owner leaving, with two or more remaining, keeps the invariant. */
  lemma PlainLeaveKeepsInv(s: State, t: State, c: Id, key: RoomId)
    requires Inv(s) && c in s.users && s.users[c].roomId == Some(key) && key in s.rooms
    requires !LastMemberLeaving(s.rooms[key], c) && !Succeeds(s.rooms[key], c)
    requires t.users == s.users - {c}
    requires t.rooms.Keys == s.rooms.Keys
    requires forall k :: k in s.rooms && k != key ==> t.rooms[k] == s.rooms[k]
    requires t.rooms[key].id == key && Consistent(t.rooms[key])
    requires t.rooms[key].users == WithoutMember(s.rooms[key].users, c)
    requires t.rooms[key].owner == s.rooms[key].owner
    ensures Inv(t)
  {
    DepartureFacts(s, c, key);
    PlainLeftRoomWellFormed(s, t, c, key);
    OtherRoomsKeep(s, t, key);
    PlainLeftPlaced(s, t, c, key);
  }

  /** The room a non-owner left, with its owner and the remaining members, stays well formed. */
  lemma PlainLeftRoomWellFormed(s: State, t: State, c: Id, key: RoomId)
    requires key in s.rooms && key in t.rooms && RoomWellFormed(s, key) && Remains(s, c, key)
    requires !Succeeds(s.rooms[key], c)
    requires t.users == s.users - {c}
    requires t.rooms[key].id == key && Consistent(t.rooms[key])
    requires t.rooms[key].users == WithoutMember(s.rooms[key].users, c)
    requires t.rooms[key].owner == s.rooms[key].owner
    ensures RoomWellFormed(t, key)
  {
    var rest := t.rooms[key].users;
    OwnerMembership(s.rooms[key]);
    OwnerMembership(t.rooms[key]);
    assert IsMember(rest, s.rooms[key].owner.id.value);
    forall j | 0 <= j < |rest|
      ensures Synced(t.users, rest[j])
    {
      assert Synced(s.users, rest[j]);
    }
  }

  /** After a departure that keeps every room, each remaining connection is still placed. */
  lemma PlainLeftPlaced(s: State, t: State, c: Id, key: RoomId)
    requires key in s.rooms && Remains(s, c, key)
    requires forall y :: y in s.users ==> Placed(s, y)
    requires t.users == s.users - {c}
    requires t.rooms.Keys == s.rooms.Keys
    requires forall k :: k in s.rooms && k != key ==> t.rooms[k] == s.rooms[k]
    requires t.rooms[key].users == WithoutMember(s.rooms[key].users, c)
    ensures forall y :: y in t.users ==> Placed(t, y)
  {
    forall y | y in t.users
      ensures Placed(t, y)
    {
      assert Placed(s, y);
    }
  }

  /** The facts a succession establishes, as `LeaveRoom` states them. */
  ghost predicate SucceededTo(s: State, t: State, c: Id, key: RoomId, k: nat)
    requires key in s.rooms
  {
    var rest := WithoutMember(s.rooms[key].users, c);
    && k < |rest|
    && key in t.rooms
    && var owner := rest[k].(isSpeaker := true);
    && t.rooms[key].users == rest[k := owner]
    && t.rooms[key].owner == owner
    && (owner.id.Some? ==> t.users == (s.users - {c})[owner.id.value := owner])
    && t.rooms.Keys == s.rooms.Keys
    && (forall r :: r in s.rooms && r != key ==> t.rooms[r] == s.rooms[r])
    && t.rooms[key].id == key && Consistent(t.rooms[key])
  }

  /** The room that ran a succession is well formed afterwards. */
  lemma SucceededRoomWellFormed(s: State, t: State, c: Id, key: RoomId, k: nat)
    requires key in s.rooms && Remains(s, c, key)
    requires SucceededTo(s, t, c, key, k)
    ensures RoomWellFormed(t, key)
  {
    var rest := WithoutMember(s.rooms[key].users, c);
    var after := t.rooms[key].users;
    assert Synced(s.users, rest[k]);
    var y := rest[k].id.value;
    assert HasId(after[k], y);
    forall j | 0 <= j < |after|
      ensures after[j].roomId == Some(key) && Synced(t.users, after[j])
    {
      assert Synced(s.users, rest[j]);
    }
    forall i, j | 0 <= i < j < |after|
      ensures after[i].id != after[j].id
    {
      assert after[i].id == rest[i].id && after[j].id == rest[j].id;
    }
  }

  /** Every connection is still placed after a succession. */
  lemma SucceededPlaced(s: State, t: State, c: Id, key: RoomId, k: nat)
    requires c in s.users && key in s.rooms && key != NoRoom && Remains(s, c, key)
    requires forall x :: x in s.users ==> Placed(s, x)
    requires SucceededTo(s, t, c, key, k)
    ensures forall x :: x in t.users ==> Placed(t, x)
  {
    var rest := WithoutMember(s.rooms[key].users, c);
    var after := t.rooms[key].users;
    assert Synced(s.users, rest[k]);
    var y := rest[k].id.value;
    forall x | x in t.users
      ensures Placed(t, x)
    {
      if x == y {
        assert HasId(after[k], y);
      } else {
        assert Placed(s, x);
        if s.users[x].roomId == Some(key) {
          assert x != c && IsMember(s.rooms[key].users, x);
          var w :| 0 <= w < |rest| && HasId(rest[w], x);
          assert HasId(after[w], x);
        }
      }
    }
  }

  /** Succession after a departure keeps the invariant. */
  lemma SuccessionKeepsInv(s: State, t: State, c: Id, key: RoomId, k: nat)
    requires Inv(s) && c in s.users && s.users[c].roomId == Some(key) && key in s.rooms
    requires SucceededTo(s, t, c, key, k)
    ensures Inv(t)
  {
    DepartureFacts(s, c, key);
    var rest := WithoutMember(s.rooms[key].users, c);
    assert Synced(s.users, rest[k]);
    SucceededRoomWellFormed(s, t, c, key, k);
    OtherRoomsKeep(s, t, key);
    SucceededPlaced(s, t, c, key, k);
  }

  /** Disconnecting keeps the invariant; an unknown connection throws before changing anything. */
  lemma DisconnectKeepsInv(s: State, c: Id)
    requires Inv(s)
    ensures Inv(After(Disconnect(s, c)))
  {
    var o := Disconnect(s, c);
    if o.Done? {
      var t := o.step.state;
      if !InKnownRoom(s, c) {
        forall k | k in t.rooms
          ensures RoomWellFormed(t, k)
        {
          UntouchedRoom(s, t, k);
        }
        forall y | y in t.users
          ensures Placed(t, y)
        {
          assert Placed(s, y);
        }
      } else {
        var key := s.users[c].roomId.value;
        var room := s.rooms[key];
        var s1 := State(s.users - {c}, s.rooms);
        assert o.step == LeaveRoom(s1, key, c, s.users[c]);
        if LastMemberLeaving(room, c) {
          LastLeaveKeepsInv(s, t, c, key);
        } else if !Succeeds(room, c) {
          PlainLeaveKeepsInv(s, t, c, key);
        } else {
          DepartureFacts(s, c, key);
          var rest := WithoutMember(room.users, c);
          var k := SuccessorIndex(rest);
          assert Synced(s.users, rest[k]);
          SuccessionKeepsInv(s, t, c, key, k);
        }
      }
    }
  }

  /** The input each handler needs for the invariant to survive it. */
  ghost predicate WellFormedEvent(s: State, ev: Inbound) {
    match ev
    case NewConnection(c) => c !in s.users
    case Join(c, _, info) => !InKnownRoom(s, c) && info.id != NoRoom
    case RequestSpeak(_) => true
    case AnswerSpeak(_, _, target) => AnswerTargetsMember(s, target)
    case Leave(_) => true
  }

  lemma HandleKeepsInv(s: State, ev: Inbound)
    requires Inv(s) && WellFormedEvent(s, ev)
    ensures Inv(After(Handle(s, ev)))
  {
    match ev
    case NewConnection(c) => OnNewConnectionKeepsInv(s, c);
    case Join(c, data, info) => JoinRoomKeepsInv(s, c, data, info);
    case RequestSpeak(c) =>
    case AnswerSpeak(c, answer, target) => SpeakAnswerKeepsInv(s, c, answer, target);
    case Leave(c) => DisconnectKeepsInv(s, c);
  }

  /** Every event of the run is well formed in the state it arrives in. */
  ghost predicate WellFormedRun(s: State, evs: seq<Inbound>)
    decreases |evs|
  {
    |evs| > 0 ==> WellFormedEvent(s, evs[0]) && WellFormedRun(After(Handle(s, evs[0])), evs[1..])
  }

  /** Every state reached from the start by well-formed events satisfies the invariant. */
  lemma {:induction false} RunKeepsInv(s: State, evs: seq<Inbound>)
    requires Inv(s) && WellFormedRun(s, evs)
    ensures Inv(Run(s, evs))
    decreases |evs|
  {
    if |evs| > 0 {
      HandleKeepsInv(s, evs[0]);
      RunKeepsInv(After(Handle(s, evs[0])), evs[1..]);
    }
  }

  lemma ReachableSatisfiesInv(evs: seq<Inbound>)
    requires WellFormedRun(Init, evs)
    ensures Inv(Run(Init, evs))
  {
    InitSatisfiesInv();
    RunKeepsInv(Init, evs);
  }
}
