/**
 * The room and presence controller: one pure function per inbound event, from the
 * current state to the next state and the notifications the event causes.
 */
module RoomsController {
  import opened Wrappers
  import opened Seqs
  import opened Entities
  import opened Notifications

  /** The client's `user` payload; when joining, `id` has already been set to the socket id. */
  datatype UserData = UserData(id: Option<Id>, username: Option<string>, img: Option<string>)

  /** The client's `room` payload; a `null` topic is `None`. */
  datatype RoomInfo = RoomInfo(id: RoomId, topic: Option<string>)

  /** The `user` of a speak answer: whose permission changes, and the room it names. */
  datatype Target = Target(id: Id, roomId: RoomId)

  /** The presence directory (`#users`) and the room registry (`rooms`). */
  datatype State = State(users: map<Id, Attendee>, rooms: map<RoomId, Room>)

  datatype Step = Step(state: State, out: seq<Notification>)

  /** The `TypeError` a handler raises when it dereferences `undefined`. */
  datatype Fault = NoSuchAttendee(id: Id) | NoSuchRoom(roomId: Option<RoomId>)

  /** A handler either completes, or throws and leaves the state as it was at the throw. */
  datatype Outcome = Done(step: Step) | Threw(fault: Fault, at: State)

  /** The registry after `rooms.set` and the lobby notification it fires. */
  datatype Stored = Stored(rooms: map<RoomId, Room>, notice: Notification)

  /** The result of a succession: the members, the new owner, the directory and the promotion notice. */
  datatype Succession = Succession(users: seq<Attendee>, owner: Attendee, directory: map<Id, Attendee>, notice: Notification)

  const Init: State := State(map[], map[])

  /** The default `userData = {}` of `#updateGlobalUserData`. */
  const NoUserData: UserData := UserData(None, None, None)

  /** The room id `#updateGlobalUserData` uses when none is given. */
  const NoRoom: RoomId := ""

  function Lookup(users: map<Id, Attendee>, x: Id): Option<Attendee> {
    if x in users then Some(users[x]) else None
  }

  /** One field of `{...base, ...over}`: `over` wins when it has the field. */
  function Spread<T>(over: Option<T>, base: Option<T>): Option<T> {
    if over.Some? then over else base
  }

  /** The merged record `{...previous, ...data, roomId, isSpeaker}` keeps every display field the data leaves out. */
  ghost predicate MergedOnto(prev: Option<Attendee>, data: UserData, a: Attendee) {
    && a.id == (if data.id.Some? then data.id else if prev.Some? then prev.value.id else None)
    && a.username == (if data.username.Some? then data.username else if prev.Some? then prev.value.username else None)
    && a.img == (if data.img.Some? then data.img else if prev.Some? then prev.value.img else None)
  }

  /** The connection is in the directory and its record names a stored room. */
  predicate InKnownRoom(s: State, c: Id) {
    c in s.users && s.users[c].roomId.Some? && s.users[c].roomId.value in s.rooms
  }

  /** Removing `c` leaves the room without members. */
  predicate LastMemberLeaving(room: Room, c: Id) {
    |WithoutMember(room.users, c)| == 0
  }

  /** Succession runs when the departing connection owned the room or exactly one member remains. */
  predicate Succeeds(room: Room, c: Id) {
    room.owner.id == Some(c) || |WithoutMember(room.users, c)| == 1
  }

  /** `#mapRoom`: recompute the derived fields of a room from its members. */
  function MapRoom(room: Room): (r: Room)
    ensures Consistent(r)
    ensures r.id == room.id && r.topic == room.topic && r.owner == room.owner && r.users == room.users
  {
    CountSpeakersIsPositions(room.users);
    room.(attendeesCount := |room.users|,
          speakersCount := CountSpeakers(room.users),
          featuredAttendees := room.users[..Min(FeaturedLimit, |room.users|)])
  }

  /** A room whose derived fields already agree with its members is left as it is by `#mapRoom`. */
  lemma MapRoomFixesConsistent(room: Room)
    requires Consistent(room)
    ensures MapRoom(room) == room
  {
    CountSpeakersIsPositions(room.users);
    assert room.featuredAttendees == room.users[..Min(FeaturedLimit, |room.users|)];
  }

  /** `rooms.set(key, room)`: store the mapped room, then hand every stored room to the lobby. */
  function SetRoom(rooms: map<RoomId, Room>, key: RoomId, room: Room): (r: Stored)
    ensures r.rooms.Keys == rooms.Keys + {key}
    ensures r.rooms[key] == MapRoom(room)
    ensures forall k :: k in rooms && k != key ==> r.rooms[k] == rooms[k]
    ensures r.notice == Notification(Lobby, LobbyUpdated(r.rooms))
  {
    var rs := rooms[key := MapRoom(room)];
    Stored(rs, Notification(Lobby, LobbyUpdated(rs)))
  }

  /**
   * `#updateGlobalUserData`: merge `data` onto the connection's record (or onto an empty
   * one), set its room, and make it a speaker exactly when that room is not stored yet.
   */
  function UpdateGlobalUserData(s: State, userId: Id, data: UserData, roomId: RoomId): (r: State)
    ensures r.rooms == s.rooms
    ensures r.users.Keys == s.users.Keys + {userId}
    ensures forall x :: x in s.users && x != userId ==> r.users[x] == s.users[x]
    ensures MergedOnto(Lookup(s.users, userId), data, r.users[userId])
    ensures r.users[userId].roomId == Some(roomId)
    ensures r.users[userId].isSpeaker <==> roomId !in s.rooms
  {
    var prev := Lookup(s.users, userId);
    var a := Attendee(
      Spread(data.id, if prev.Some? then prev.value.id else None),
      Spread(data.username, if prev.Some? then prev.value.username else None),
      Spread(data.img, if prev.Some? then prev.value.img else None),
      Some(roomId),
      roomId !in s.rooms);
    s.(users := s.users[userId := a])
  }

  /** `onNewConnection`: a placeholder record with no room; nothing is announced. */
  function OnNewConnection(s: State, c: Id): (r: Step)
    ensures r.out == [] && r.state.rooms == s.rooms
    ensures r.state.users.Keys == s.users.Keys + {c}
    ensures forall x :: x in s.users && x != c ==> r.state.users[x] == s.users[x]
    ensures c !in s.users ==> r.state.users[c] == Attendee(None, None, None, Some(NoRoom), NoRoom !in s.rooms)
    ensures c in s.users ==> r.state.users[c] == s.users[c].(roomId := Some(NoRoom), isSpeaker := NoRoom !in s.rooms)
  {
    Step(UpdateGlobalUserData(s, c, NoUserData, NoRoom), [])
  }

  /**
   * `#joinUserRoom`: the room gets a copy of the joiner appended to its members; an
   * unknown room is created with the joiner as its owner.
   */
  function JoinUserRoom(rooms: map<RoomId, Room>, user: Attendee, info: RoomInfo): (r: Stored)
    ensures r.rooms.Keys == rooms.Keys + {info.id}
    ensures forall k :: k in rooms && k != info.id ==> r.rooms[k] == rooms[k]
    ensures info.id in rooms ==>
      var room := r.rooms[info.id];
      && room.owner == rooms[info.id].owner
      && room.users == rooms[info.id].users + [user.(roomId := Some(info.id))]
    ensures info.id !in rooms ==>
      var room := r.rooms[info.id];
      && room.owner == user.(roomId := Some(info.id))
      && room.users == [user.(roomId := Some(info.id))]
    ensures r.rooms[info.id].id == info.id && r.rooms[info.id].topic == info.topic
    ensures Consistent(r.rooms[info.id])
    ensures r.notice == Notification(Lobby, LobbyUpdated(r.rooms))
  {
    var current := user.(roomId := Some(info.id));
    var room :=
      if info.id in rooms then
        var existing := rooms[info.id];
        existing.(id := info.id, topic := info.topic, users := existing.users + [current])
      else
        Room(info.id, info.topic, current, [current], 0, 0, []);
    SetRoom(rooms, info.id, MapRoom(room))
  }

  /**
   * `joinRoom`: record the joiner in the directory, add it to the room, tell the room's
   * other members, and reply to the joiner with the room's members.
   */
  function JoinRoom(s: State, c: Id, data: UserData, info: RoomInfo): (r: Step)
    ensures r.state.users.Keys == s.users.Keys + {c}
    ensures forall x :: x in s.users && x != c ==> r.state.users[x] == s.users[x]
    ensures MergedOnto(Lookup(s.users, c), data.(id := Some(c)), r.state.users[c])
    ensures r.state.users[c].id == Some(c) && r.state.users[c].roomId == Some(info.id)
    ensures r.state.users[c].isSpeaker <==> info.id !in s.rooms
    ensures r.state.rooms.Keys == s.rooms.Keys + {info.id}
    ensures forall k :: k in s.rooms && k != info.id ==> r.state.rooms[k] == s.rooms[k]
    ensures Consistent(r.state.rooms[info.id]) && r.state.rooms[info.id].topic == info.topic
    ensures info.id !in s.rooms ==>
      && r.state.rooms[info.id].owner == r.state.users[c]
      && r.state.rooms[info.id].users == [r.state.users[c]]
    ensures info.id in s.rooms ==>
      && r.state.rooms[info.id].owner == s.rooms[info.id].owner
      && r.state.rooms[info.id].users == s.rooms[info.id].users + [r.state.users[c]]
    ensures r.out == [
      Notification(Lobby, LobbyUpdated(r.state.rooms)),
      Notification(Peers(Some(info.id), c), UserConnected(r.state.users[c])),
      Notification(Sender(c), ActiveUsers(r.state.rooms[info.id].users))]
  {
    var s1 := UpdateGlobalUserData(s, c, data.(id := Some(c)), info.id);
    var user := s1.users[c];
    var stored := JoinUserRoom(s1.rooms, user, info);
    Step(
      State(s1.users, stored.rooms),
      [stored.notice,
       Notification(Peers(Some(info.id), c), UserConnected(user)),
       Notification(Sender(c), ActiveUsers(stored.rooms[info.id].users))])
  }

  /** `speakRequest`: forward the requester's record to the owner of its room; no state changes. */
  function SpeakRequestHandler(s: State, c: Id): (o: Outcome)
    ensures o.Threw? ==> o.at == s
    ensures c !in s.users ==> o == Threw(NoSuchAttendee(c), s)
    ensures c in s.users && !InKnownRoom(s, c) ==> o == Threw(NoSuchRoom(s.users[c].roomId), s)
    ensures o.Done? <==> InKnownRoom(s, c)
    ensures o.Done? ==>
      && o.step.state == s
      && o.step.out == [Notification(Peers(s.rooms[s.users[c].roomId.value].owner.id, c), SpeakRequest(s.users[c]))]
  {
    if c !in s.users then Threw(NoSuchAttendee(c), s)
    else
      var user := s.users[c];
      if user.roomId.None? || user.roomId.value !in s.rooms then Threw(NoSuchRoom(user.roomId), s)
      else
        var owner := s.rooms[user.roomId.value].owner;
        Done(Step(s, [Notification(Peers(owner.id, c), SpeakRequest(user))]))
  }

  /** The record `speakAnswer` stores: the target's record with `isSpeaker` replaced. */
  function AnsweredRecord(s: State, x: Id, answer: bool): (a: Attendee)
    ensures a.isSpeaker == answer
    ensures x in s.users ==> a.(isSpeaker := s.users[x].isSpeaker) == s.users[x]
    ensures x !in s.users ==> a.id.None? && a.roomId.None? && a.username.None? && a.img.None?
  {
    if x in s.users then s.users[x].(isSpeaker := answer) else Attendee(None, None, None, None, answer)
  }

  /**
   * `speakAnswer`: set the target's `isSpeaker` in the directory, then move its record to
   * the end of the room's members with the new value, and announce the change.
   */
  function SpeakAnswer(s: State, c: Id, answer: bool, target: Target): (o: Outcome)
    ensures o.Threw? <==> target.roomId !in s.rooms
    ensures o.Threw? ==>
      && o.fault == NoSuchRoom(Some(target.roomId))
      && o.at == State(s.users[target.id := AnsweredRecord(s, target.id, answer)], s.rooms)
    ensures o.Done? ==>
      var t := o.step.state;
      var room := s.rooms[target.roomId];
      && target.roomId in t.rooms
      && var after := t.rooms[target.roomId];
      && t.users.Keys == s.users.Keys + {target.id}
      && (forall x :: x in s.users && x != target.id ==> t.users[x] == s.users[x])
      && t.users[target.id] == AnsweredRecord(s, target.id, answer)
      && t.rooms.Keys == s.rooms.Keys
      && (forall k :: k in s.rooms && k != target.roomId ==> t.rooms[k] == s.rooms[k])
      && after.id == room.id && after.topic == room.topic && after.owner == room.owner
      && after.users == WithoutMember(room.users, target.id) + [t.users[target.id]]
      && (IsMember(room.users, target.id) ==> |after.users| == |room.users|)
      && Consistent(after)
      && o.step.out == [
        Notification(Lobby, LobbyUpdated(t.rooms)),
        Notification(Sender(c), UpgradeUserPermission(t.users[target.id])),
        Notification(Peers(Some(target.roomId), c), UpgradeUserPermission(t.users[target.id]))]
  {
    var updated := AnsweredRecord(s, target.id, answer);
    var users := s.users[target.id := updated];
    if target.roomId !in s.rooms then Threw(NoSuchRoom(Some(target.roomId)), State(users, s.rooms))
    else
      var room := s.rooms[target.roomId];
      var stored := SetRoom(s.rooms, target.roomId, room.(users := WithoutMember(room.users, target.id) + [updated]));
      Done(Step(
        State(users, stored.rooms),
        [stored.notice,
         Notification(Sender(c), UpgradeUserPermission(updated)),
         Notification(Peers(Some(target.roomId), c), UpgradeUserPermission(updated))]))
  }

  /** The member that takes over a room: the first speaking member, or else the first member. */
  function SuccessorIndex(users: seq<Attendee>): (k: nat)
    requires |users| > 0
    ensures k < |users|
    ensures (exists j :: 0 <= j < |users| && users[j].isSpeaker) ==>
      users[k].isSpeaker && forall j :: 0 <= j < k ==> !users[j].isSpeaker
    ensures (forall j :: 0 <= j < |users| ==> !users[j].isSpeaker) ==> k == 0
  {
    match FirstIndex(users, (a: Attendee) => a.isSpeaker)
    case Some(k) => k
    case None => 0
  }

  /**
   * `#getNewRoomOwner`: promote the successor to speaker where it stands in the member
   * list, copy it into the directory, and announce the promotion to the room.
   */
  function GetNewRoomOwner(directory: map<Id, Attendee>, room: Room, c: Id): (r: Succession)
    requires |room.users| > 0
    ensures var k := SuccessorIndex(room.users);
      && r.users == room.users[k := room.users[k].(isSpeaker := true)]
      && r.owner == r.users[k]
    ensures r.owner.isSpeaker
    ensures r.owner.id.Some? ==> r.directory == directory[r.owner.id.value := r.owner]
    ensures r.owner.id.None? ==> r.directory == directory
    ensures r.notice == Notification(Peers(Some(room.id), c), UpgradeUserPermission(r.owner))
  {
    var k := SuccessorIndex(room.users);
    var owner := room.users[k].(isSpeaker := true);
    var directory' := if owner.id.Some? then directory[owner.id.value := owner] else directory;
    Succession(room.users[k := owner], owner, directory', Notification(Peers(Some(room.id), c), UpgradeUserPermission(owner)))
  }

  /**
   * The part of `#logoutUser` after the directory entry is gone, for a stored room:
   * remove the member, delete an emptied room, else run succession when it is due,
   * store the room and tell the remaining members.
   */
  function LeaveRoom(s: State, roomId: RoomId, c: Id, user: Attendee): (r: Step)
    requires roomId in s.rooms
    ensures var room := s.rooms[roomId];
      LastMemberLeaving(room, c) ==> r == Step(State(s.users, s.rooms - {roomId}), [])
    ensures var room := s.rooms[roomId];
      var rest := WithoutMember(room.users, c);
      !LastMemberLeaving(room, c) ==>
        && r.state.rooms.Keys == s.rooms.Keys
        && |r.out| >= 2
        && var after := r.state.rooms[roomId];
        && (forall k :: k in s.rooms && k != roomId ==> r.state.rooms[k] == s.rooms[k])
        && after.id == room.id && after.topic == room.topic && Consistent(after)
        && r.out[|r.out| - 1] == Notification(Peers(Some(roomId), c), UserDisconnected(user))
        && r.out[|r.out| - 2] == Notification(Lobby, LobbyUpdated(r.state.rooms))
        && (!Succeeds(room, c) ==>
              && after.users == rest && after.owner == room.owner
              && r.state.users == s.users && |r.out| == 2)
        && (Succeeds(room, c) ==>
              var k := SuccessorIndex(rest);
              && after.users == rest[k := rest[k].(isSpeaker := true)]
              && after.owner == after.users[k]
              && (after.owner.id.Some? ==> r.state.users == s.users[after.owner.id.value := after.owner])
              && (after.owner.id.None? ==> r.state.users == s.users)
              && |r.out| == 3
              && r.out[0] == Notification(Peers(Some(room.id), c), UpgradeUserPermission(after.owner)))
  {
    var room := s.rooms[roomId];
    var rest := WithoutMember(room.users, c);
    if |rest| == 0 then
      Step(State(s.users, s.rooms - {roomId}), [])
    else if room.owner.id == Some(c) || |rest| == 1 then
      var n := GetNewRoomOwner(s.users, room.(users := rest), c);
      var stored := SetRoom(s.rooms, roomId, room.(users := n.users, owner := n.owner));
      Step(
        State(n.directory, stored.rooms),
        [n.notice, stored.notice, Notification(Peers(Some(roomId), c), UserDisconnected(user))])
    else
      var stored := SetRoom(s.rooms, roomId, room.(users := rest));
      Step(State(s.users, stored.rooms), [stored.notice, Notification(Peers(Some(roomId), c), UserDisconnected(user))])
  }

  /**
   * `disconnect` (`#logoutUser`): throws for a connection the directory does not know;
   * otherwise drops its directory entry and, when its room is stored, leaves that room.
   */
  function Disconnect(s: State, c: Id): (o: Outcome)
    ensures o.Threw? <==> c !in s.users
    ensures o.Threw? ==> o == Threw(NoSuchAttendee(c), s)
    ensures o.Done? && !InKnownRoom(s, c) ==> o.step == Step(State(s.users - {c}, s.rooms), [])
    ensures o.Done? && InKnownRoom(s, c) ==>
      o.step == LeaveRoom(State(s.users - {c}, s.rooms), s.users[c].roomId.value, c, s.users[c])
  {
    if c !in s.users then Threw(NoSuchAttendee(c), s)
    else
      var user := s.users[c];
      var users := s.users - {c};
      if user.roomId.None? || user.roomId.value !in s.rooms then Done(Step(State(users, s.rooms), []))
      else Done(LeaveRoom(State(users, s.rooms), user.roomId.value, c, user))
  }

  /** An inbound event, named by the handler it is dispatched to. */
  datatype Inbound =
    | NewConnection(conn: Id)
    | Join(conn: Id, data: UserData, info: RoomInfo)
    | RequestSpeak(conn: Id)
    | AnswerSpeak(conn: Id, answer: bool, target: Target)
    | Leave(conn: Id)

  /** Dispatch one inbound event to its handler. */
  function Handle(s: State, ev: Inbound): Outcome {
    match ev
    case NewConnection(c) => Done(OnNewConnection(s, c))
    case Join(c, data, info) => Done(JoinRoom(s, c, data, info))
    case RequestSpeak(c) => SpeakRequestHandler(s, c)
    case AnswerSpeak(c, answer, target) => SpeakAnswer(s, c, answer, target)
    case Leave(c) => Disconnect(s, c)
  }

  /** The state a handler leaves behind, whether it completed or threw. */
  function After(o: Outcome): State {
    match o
    case Done(step) => step.state
    case Threw(_, at) => at
  }

  /** The state after the events are handled one at a time, in arrival order. */
  function Run(s: State, evs: seq<Inbound>): State
    decreases |evs|
  {
    if |evs| == 0 then s else Run(After(Handle(s, evs[0])), evs[1..])
  }
}
