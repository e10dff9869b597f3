# Room and presence state machine

A Dafny model of the server-side room controller of a Clubhouse-style audio-room
application (`RoomsController`). The controller keeps two in-memory maps:

- the **presence directory** (`#users`): connection id to attendee record
  `{id, username, img, roomId, isSpeaker}`;
- the **room registry** (`rooms`): room id to room
  `{id, topic, owner, users, attendeesCount, speakersCount, featuredAttendees}`.
  Storing a room recomputes its derived fields and announces every room to the lobby.

Each inbound event is modelled as a pure function from the state (both maps) to the
next state and the list of notifications it causes. Handlers that can throw a
`TypeError` return `Threw(fault, state-at-throw)` instead.

Modelling choices:

- A room's members are a `seq<Attendee>` in insertion order, as a JavaScript `Set`
  iterates them. Order decides `featuredAttendees` and the successor. `speakAnswer`
  moves the updated member to the end. Succession promotes the new owner in place.
  Joining appends a new copy, so a connection that joins twice is in the room twice.
- Fields that a JavaScript object leaves `undefined` are `Option`s. The placeholder
  made on connection has no `id`. A speak answer for a connection the directory no
  longer knows builds a record holding only `isSpeaker`.
- Members and owners are compared by `id`. A room's `owner` is a copy of the owning
  member's record at the time it became owner. It goes stale when a later speak
  answer replaces that member.
- Notifications name their audience: the lobby, the sending connection, or a
  channel except the sender (`socket.to(channel)`).

Files: `wrappers.dfy` (Option), `seqs.dfy` (first-match search, removal at a
position), `entities.dfy` (attendee and room records, speaker counting, member
removal), `notifications.dfy`, `rooms_controller.dfy` (the handlers),
`invariants.dfy` (the directory/registry invariant and its preservation),
`properties.dfy` (multi-call properties), `scenarios.dfy` (worked examples).

## Behaviour worth knowing

These follow from the code as written:

- Disconnecting a connection the directory does not know throws: line 73 reads
  `user.roomId` of `undefined`. Under `Invariants.Inv`, where a connection is in its
  room at most once, a disconnect removes the directory entry, so a second disconnect
  of the same connection throws (`Properties.DisconnectTwiceThrows`).
- Joining adds the joiner's record to the room's `Set` at line 165 without looking for
  its id. Rejoining the same room therefore leaves two entries with the same id
  (`Properties.RejoinDuplicatesMember`). Joining a second room leaves the connection
  in the first room too.
- A connection that is in its room twice leaves one copy behind when it disconnects.
  Line 84 removes only the first copy. What happens next depends on the successor.
  - When the remaining copy is chosen as successor, line 120 writes it back into the
    directory under the departed id. This happens, for example, when the two copies
    are the only members. The room survives, and a second disconnect completes
    instead of throwing (`Scenarios.RejoinedConnectionSurvivesDisconnect`).
  - Otherwise the copy stays in the room as a member with no directory record. This
    happens when another member takes over, or when no succession runs. A second
    disconnect then throws at line 73 (`Scenarios.DanglingCopyAfterDisconnect`).
- A room's owner need not be a speaker. `speakAnswer` with `answer` false for the
  owner (lines 26-36) clears the flag on the owner's member record and leaves
  `room.owner` in place (`Properties.RevokedOwnerIsNoSpeaker`).
- `speakAnswer` sends its personal `UPGRADE_USER_PERMISSION` to the answering
  connection (line 39), not to the target. The target hears it through the room
  broadcast at line 42.
- Every join overwrites the room's topic with the joiner's topic (line 163).
- The connection placeholder is a speaker unless a room with the empty id exists
  (lines 188-199).
- `speakAnswer` updates the directory at line 30, before it looks up the room. When
  the room is missing, line 34 throws, and the update has already been made.
- An answer that arrives after its target disconnected puts the departed id back in
  the directory. The new record holds only `isSpeaker` (lines 25-30). The answer also
  appends a member with no id to the room. No state reached this way satisfies the
  invariant (`Properties.LateAnswerBreaksInv`).

The invariant (`Invariants.Inv`) is proved for well-formed input. Under it, each
stored room:

- is keyed by its id, has up-to-date derived fields and is non-empty;
- is owned by one of its members and has distinct member ids;
- holds, for each member, exactly the directory's record of that member.

Every connection is either in no room or a member of the room its record names.
Well-formed input (`Invariants.WellFormedEvent`) means:

- connection ids are fresh;
- a connection joins only when it is in no room, and never the empty room id;
- a speak answer names a member of the room it names.

## Model

| member | source | states |
|---|---|---|
| Seqs.FirstIndex | server/src/controllers/roomsController.js:109 | the result is the first position whose element satisfies the predicate, and is None exactly when no element does (`Array.prototype.find`) |
| Entities.CountSpeakers | server/src/controllers/roomsController.js:177 | the speaker count never exceeds the number of members |
| Entities.CountSpeakersIsPositions | server/src/controllers/roomsController.js:177 | the filtered speaker count equals the number of member positions holding a speaker |
| Entities.WithoutMember | server/src/controllers/roomsController.js:82-84 | deleting the first member with the id shortens the list by one when the id is present and changes nothing otherwise; which entry goes is stated by `Entities.MemberIndex` |
| Entities.MemberIndex | server/src/controllers/roomsController.js:82-84 | the removed entry is the first member carrying the id, and the result is the list with exactly that position deleted, the rest in order |
| Entities.RemoveAtKeepsMembers | server/src/controllers/roomsController.js:82-84 | deleting one member keeps every member with a different id |
| RoomsController.MapRoom | server/src/controllers/roomsController.js:175-187 | the mapped room keeps id, topic, owner and members; attendeesCount is the member count, speakersCount the number of speaking members, featuredAttendees the first min(3, n) members in order |
| RoomsController.MapRoomFixesConsistent | server/src/controllers/roomsController.js:161-168 | mapping a room whose derived fields already agree changes nothing, so the second mapping by `rooms.set` is harmless |
| RoomsController.SetRoom | server/src/controllers/roomsController.js:11-21 | storing a room inserts or replaces only that key with the mapped room and fires one lobby notification carrying the whole registry |
| RoomsController.UpdateGlobalUserData | server/src/controllers/roomsController.js:188-202 | the record merges the given fields onto the previous one (or an empty one), sets the room, is a speaker exactly when that room is not stored, and no other record changes |
| RoomsController.OnNewConnection | server/src/controllers/roomsController.js:59-63 | a placeholder with room "" (keeping any earlier display fields) is stored for the connection; rooms and other connections are unchanged; nothing is announced |
| RoomsController.JoinUserRoom | server/src/controllers/roomsController.js:148-173 | an unknown room is created owned by the joiner with the joiner as only member; a known room keeps its owner and members and gets the joiner appended; other rooms unchanged |
| RoomsController.JoinRoom | server/src/controllers/roomsController.js:127-146 | the joiner's directory record has its id and the room id, and is a speaker iff the room was new; the room's copy equals that record; the lobby, the room's other members and the joiner (full member list) are notified in that order |
| RoomsController.SpeakRequestHandler | server/src/controllers/roomsController.js:45-52 | no state changes; exactly one SPEAK_REQUEST carrying the requester's record goes to the owner of its room; an unknown requester or room throws |
| RoomsController.AnsweredRecord | server/src/controllers/roomsController.js:24-29 | the stored record is the target's record with only isSpeaker replaced, or a record with nothing but isSpeaker when the target is unknown |
| RoomsController.SpeakAnswer | server/src/controllers/roomsController.js:23-43 | the target's directory record becomes its previous record with only isSpeaker replaced (or a record holding only isSpeaker), every other record is kept, and the target moves to the end of its room with the new value; member count unchanged when present; owner, topic, other members and other rooms untouched; a missing room throws after the directory update |
| RoomsController.SuccessorIndex | server/src/controllers/roomsController.js:107-111 | the successor is the first speaking member, or the first member when nobody speaks |
| RoomsController.GetNewRoomOwner | server/src/controllers/roomsController.js:107-125 | the successor is made a speaker in place, becomes owner, is copied into the directory, and its promotion is announced to the room |
| RoomsController.LeaveRoom | server/src/controllers/roomsController.js:81-101 | the last member leaving deletes the room silently; otherwise succession runs iff the leaver owned the room or one member remains, else owner and remaining members are kept; the room is stored and the others told of the departure |
| RoomsController.Disconnect | server/src/controllers/roomsController.js:65-81 | throws iff the connection is not in the directory; otherwise deletes its entry first; when its room is not stored nothing else changes and nothing is announced; a stored room is handed to `LeaveRoom` with the entry already gone (succession can write it back, see `Scenarios.RejoinedConnectionSurvivesDisconnect`) |
| Invariants.MemberIsPlacedThere | server/src/controllers/roomsController.js:148-168 | under the invariant a member of a stored room is a connection whose record names that room |
| Invariants.OnNewConnectionKeepsInv | server/src/controllers/roomsController.js:59-63 | a fresh connection keeps the invariant |
| Invariants.JoinRoomKeepsInv | server/src/controllers/roomsController.js:127-173 | joining keeps the invariant when the joiner is in no room and the room id is not "" |
| Invariants.SpeakAnswerKeepsInv | server/src/controllers/roomsController.js:23-43 | a speak answer to a member of the room it names keeps the invariant |
| Invariants.SuccessionKeepsInv | server/src/controllers/roomsController.js:91-125 | after succession the owner is a member and the directory holds the promoted record |
| Invariants.DisconnectKeepsInv | server/src/controllers/roomsController.js:70-101 | every disconnect keeps the invariant: an emptied room is gone, the owner stays a member, the directory stays in sync |
| Invariants.HandleKeepsInv | server/src/controllers/roomsController.js:23-201 | every well-formed inbound event keeps the invariant |
| Invariants.RunKeepsInv | server/src/controllers/roomsController.js:23-201 | a sequence of well-formed events, handled one at a time, keeps the invariant |
| Invariants.ReachableSatisfiesInv | server/src/controllers/roomsController.js:7-14 | every state reached from the empty maps by well-formed events satisfies the invariant |
| Properties.SpeakersBounded | server/src/controllers/roomsController.js:175-187 | a stored room never counts more speakers than attendees |
| Properties.DisconnectKeepsOwnerMember | server/src/controllers/roomsController.js:91-96 | for any state, if the owner was a member before a departure, the owner of the surviving room is a member after it |
| Properties.DisconnectDropsEntry | server/src/controllers/roomsController.js:70-75 | under the invariant a disconnect completes and the connection's directory entry is gone afterwards |
| Properties.DisconnectTwiceThrows | server/src/controllers/roomsController.js:70-73 | under the invariant, a second disconnect of the same connection throws at line 73, because the first removed its entry |
| Properties.AnswerToMember | server/src/controllers/roomsController.js:23-37 | an answer to a member of its room completes, sets isSpeaker in the directory and moves the member to the end, keeping the owner |
| Properties.LateAnswerBreaksInv | server/src/controllers/roomsController.js:23-37 | an answer to a departed connection completes, stores a record holding only isSpeaker under its id, appends a member with no id, and leaves a state outside the invariant |
| Properties.SpeakerRoundTrip | server/src/controllers/roomsController.js:23-37 | granting then revoking speech for a non-speaker restores the directory exactly and leaves the member, unchanged, at the end of the room |
| Properties.RevokedOwnerIsNoSpeaker | server/src/controllers/roomsController.js:23-37 | revoking the owner's speech leaves the room owned by a member that is not a speaker |
| Properties.RejoinDuplicatesMember | server/src/controllers/roomsController.js:157-166 | rejoining the same room appends a second entry with the same id |
| Scenarios.SuccessionPrefersSpeaker | server/src/controllers/roomsController.js:107-112 | with members a (owner), b (speaker), c, disconnecting a makes b the owner |
| Scenarios.SuccessionFallsBackToFirst | server/src/controllers/roomsController.js:107-124 | with no other speaker, the first remaining member becomes owner and a speaker in room and directory |
| Scenarios.RejoinedConnectionSurvivesDisconnect | server/src/controllers/roomsController.js:82-120 | a connection that joined its room twice is written back into the directory by succession when it disconnects; the room survives and a second disconnect completes, leaving both maps empty |
| Scenarios.DanglingCopyAfterDisconnect | server/src/controllers/roomsController.js:70-111 | when another member takes over, a connection's second copy stays in the room without a directory record, and a second disconnect of that connection throws |
| Scenarios.LastMemberRemovesRoom | server/src/controllers/roomsController.js:84-89 | the only member disconnecting removes the room with no notification |
| Scenarios.JoinReply | server/src/controllers/roomsController.js:127-146 | after a creates R1 and b joins, b's reply lists exactly a then b, the room hears b connected, and the lobby sees 1 then 2 attendees |

## Left out

- Transport: `socket.join`, delivery of `socket.emit`, `socket.to(...).emit` and `roomsPubSub.emit`. They are reduced to notification records.
- `console.log` calls (lines 61 and 66): no effect on state.
- `getEvents`: reflection over the class prototype to build the dispatch table. `RoomsController.Handle` stands in for it.
- `CustomMap`, `Attendee` and `Room` are not part of this model. They are taken to copy the fields named above. An `Attendee` is taken to carry all five fields as its own properties, even when a field is `undefined`. Under that reading, `{...outdatedUser, ...newOwner}` at lines 115-118 is `newOwner` itself, which is what the model writes. If the constructor instead left `undefined` fields off the object, a field missing from `newOwner` would keep its value from `outdatedUser`, as `Spread` does for a join. `rooms.delete` is taken to fire no lobby notification.
- Payload fields other than `username`, `img` and the forced `id`, and a room payload without a `topic` key (a `null` topic is `None`).
- What happens after a throw: the model returns the state at the throw. The process-level effect of an uncaught `TypeError` is outside the model.
- Concurrency: handlers run one at a time to completion on one event loop. The model treats each as an atomic step.
- Browser bootstrapping pages and WebRTC media.
- RoomsController.GetNewRoomOwner: when the successor has no id, the source writes the directory under the key `undefined`. The model skips that write, because directory keys are connection ids. Such a successor comes from a speak answer whose target has no id in the directory: a departed connection, or a connection that connected but never joined, whose placeholder has no id (line 62).
- RoomsController.GetNewRoomOwner: object aliasing is not modelled. Lines 30 and 36 store the same `updatedUser` object in the directory and in the room. When that member is promoted, `newOwner.isSpeaker = true` at line 112 also sets `isSpeaker` on the aliased directory record. For a successor with an id, line 120 writes the same value anyway. For an id-less successor, the model leaves the aliased directory record unchanged, while the source flips its `isSpeaker` to true. The model has value semantics and cannot tell one object from an equal copy.
- RoomsController.SetRoom: the lobby notification carries the registry as a map, not in the insertion order of a JavaScript `Map`.
- A room id of `null`: the room page sends `urlParams.get("id")` (app/pages/room/src/index.js:9-11), which is `null` when the URL has no `id`, and the controller would key a room by `null`. `RoomInfo.id` is a string.
- A `null` `username` or `img` in a join payload: in JavaScript it overrides the stored value, while the model reads `None` as an absent key and keeps the stored value.
- A speak answer whose `user` payload has no `id` or no `roomId`: `Target` carries both as strings, so the lookups of `undefined` at lines 24-33 are not modelled.
