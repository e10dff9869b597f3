/** Worked examples of the controller on small concrete states. */
module Scenarios {
  import opened Wrappers
  import opened Entities
  import opened Notifications
  import opened RoomsController

  const Topic: Option<string> := Some("T")

  function Member(id: Id, speaker: bool): Attendee {
    Attendee(Some(id), None, None, Some("R1"), speaker)
  }

  /** Room "R1" owned by "a", with members "a", "b", "c" in that order. */
  function ThreeMembers(bSpeaks: bool): State {
    var a := Member("a", true);
    var b := Member("b", bSpeaks);
    var c := Member("c", false);
    State(
      map["a" := a, "b" := b, "c" := c],
      map["R1" := MapRoom(Room("R1", Topic, a, [a, b, c], 0, 0, []))])
  }

  /** The owner leaves; the remaining speaker "b" is preferred over "c". */
  lemma SuccessionPrefersSpeaker()
    ensures var t := After(Disconnect(ThreeMembers(true), "a"));
      && "R1" in t.rooms
      && t.rooms["R1"].owner == Member("b", true)
      && t.rooms["R1"].users == [Member("b", true), Member("c", false)]
      && t.rooms["R1"].speakersCount == 1
      && "a" !in t.users
  {
    var s := ThreeMembers(true);
    assert WithoutMember(s.rooms["R1"].users, "a") == [Member("b", true), Member("c", false)] by {
      assert HasId(s.rooms["R1"].users[0], "a");
      assert MemberIndex(s.rooms["R1"].users, "a") == 0;
    }
  }

  /** The owner leaves and nobody else speaks; the first remaining member takes over and speaks. */
  lemma SuccessionFallsBackToFirst()
    ensures var t := After(Disconnect(ThreeMembers(false), "a"));
      && "R1" in t.rooms
      && t.rooms["R1"].owner == Member("b", true)
      && t.rooms["R1"].users == [Member("b", true), Member("c", false)]
      && t.users["b"] == Member("b", true)
  {
    var s := ThreeMembers(false);
    assert WithoutMember(s.rooms["R1"].users, "a") == [Member("b", false), Member("c", false)] by {
      assert HasId(s.rooms["R1"].users[0], "a");
      assert MemberIndex(s.rooms["R1"].users, "a") == 0;
    }
  }

  /** A room's only member disconnects and the room is gone, with nothing announced. */
  lemma LastMemberRemovesRoom()
    ensures var s := Run(Init, [NewConnection("a"), Join("a", UserData(None, Some("A"), None), RoomInfo("R1", Topic))]);
      && "R1" in s.rooms
      && Disconnect(s, "a") == Done(Step(State(map[], s.rooms - {"R1"}), []))
      && "R1" !in After(Disconnect(s, "a")).rooms
  {
    var join := Join("a", UserData(None, Some("A"), None), RoomInfo("R1", Topic));
    var s1 := OnNewConnection(Init, "a").state;
    var s := JoinRoom(s1, "a", UserData(None, Some("A"), None), RoomInfo("R1", Topic)).state;
    assert [NewConnection("a"), join][1..] == [join];
    assert [join][1..] == [];
    assert Run(s, []) == s;
    assert Run(s1, [join]) == s;
    assert Run(Init, [NewConnection("a"), join]) == s;
    assert HasId(s.rooms["R1"].users[0], "a");
    assert WithoutMember(s.rooms["R1"].users, "a") == [];
    assert s.users - {"a"} == map[];
  }

  /**
   * "a" creates room "R1" and "b" joins it: "b" is told the members are exactly "a" then
   * "b", the room's other members hear that "b" connected, and the lobby sees one
   * attendee and then two.
   */
  lemma JoinReply()
    ensures var s0 := Run(Init, [NewConnection("a"), NewConnection("b")]);
      var first := JoinRoom(s0, "a", UserData(None, Some("A"), None), RoomInfo("R1", Topic));
      var second := JoinRoom(first.state, "b", UserData(None, Some("B"), None), RoomInfo("R1", Topic));
      var a := Attendee(Some("a"), Some("A"), None, Some("R1"), true);
      var b := Attendee(Some("b"), Some("B"), None, Some("R1"), false);
      && first.out[0].event.rooms["R1"].attendeesCount == 1
      && second.out[0].event.rooms["R1"].attendeesCount == 2
      && second.out[1] == Notification(Peers(Some("R1"), "b"), UserConnected(b))
      && second.out[2] == Notification(Sender("b"), ActiveUsers([a, b]))
      && second.state.rooms["R1"].owner == a
  {
    assert [NewConnection("a"), NewConnection("b")][1..] == [NewConnection("b")];
    assert [NewConnection("b")][1..] == [];
    var s0 := Run(Init, [NewConnection("a"), NewConnection("b")]);
    var s1 := OnNewConnection(Init, "a").state;
    var s2 := OnNewConnection(s1, "b").state;
    assert Run(s2, []) == s2;
    assert Run(s1, [NewConnection("b")]) == s2;
    assert s0 == s2;
    assert "R1" !in s0.rooms;
    var first := JoinRoom(s0, "a", UserData(None, Some("A"), None), RoomInfo("R1", Topic));
    assert first.state.users["a"] == Attendee(Some("a"), Some("A"), None, Some("R1"), true);
    var second := JoinRoom(first.state, "b", UserData(None, Some("B"), None), RoomInfo("R1", Topic));
    var a := Attendee(Some("a"), Some("A"), None, Some("R1"), true);
    var b := Attendee(Some("b"), Some("B"), None, Some("R1"), false);
    assert first.state.rooms["R1"].users == [a];
    assert second.state.users["b"] == b;
    assert second.state.rooms["R1"].users == [a, b];
    assert first.out[0].event.rooms["R1"].attendeesCount == 1;
    assert second.out[0].event.rooms["R1"].attendeesCount == 2;
  }

  /** The record "a" has after its first join of "R1", and the copy its second join adds. */
  const Joined: Attendee := Attendee(Some("a"), None, None, Some("R1"), true)
  const Rejoined: Attendee := Joined.(isSpeaker := false)

  /** After a fresh "a" joins "R1" twice, the room holds both copies and is owned by the first. */
  lemma JoinedTwice(s3: State)
    requires s3 == JoinRoom(JoinRoom(OnNewConnection(Init, "a").state, "a", NoUserData, RoomInfo("R1", None)).state,
                            "a", NoUserData, RoomInfo("R1", None)).state
    ensures s3.users == map["a" := Rejoined] && s3.rooms.Keys == {"R1"}
    ensures s3.rooms["R1"].users == [Joined, Rejoined] && s3.rooms["R1"].owner == Joined
  {
    var s1 := OnNewConnection(Init, "a").state;
    var s2 := JoinRoom(s1, "a", NoUserData, RoomInfo("R1", None)).state;
    assert s2.users["a"] == Joined;
    assert s2.rooms["R1"].users == [Joined];
  }

  /** "a" leaves a room holding it twice: the remaining copy takes over and is written back. */
  lemma LeaveOneCopy(s3: State)
    requires s3.users == map["a" := Rejoined] && s3.rooms.Keys == {"R1"}
    requires s3.rooms["R1"].users == [Joined, Rejoined] && s3.rooms["R1"].owner == Joined
    ensures var first := Disconnect(s3, "a");
      && first.Done?
      && first.step.state.users == map["a" := Joined] && first.step.state.rooms.Keys == {"R1"}
      && first.step.state.rooms["R1"].users == [Joined]
  {
    assert WithoutMember(s3.rooms["R1"].users, "a") == [Rejoined] by {
      assert HasId(s3.rooms["R1"].users[0], "a");
      assert MemberIndex(s3.rooms["R1"].users, "a") == 0;
    }
    assert (s3.users - {"a"})["a" := Joined] == map["a" := Joined];
  }

  /** "a" leaves a room it is the only member of: both maps end empty. */
  lemma LeaveLastCopy(t: State)
    requires t.users == map["a" := Joined] && t.rooms.Keys == {"R1"}
    requires t.rooms["R1"].users == [Joined]
    ensures Disconnect(t, "a").Done? && After(Disconnect(t, "a")) == State(map[], map[])
  {
    assert WithoutMember(t.rooms["R1"].users, "a") == [] by {
      assert HasId(t.rooms["R1"].users[0], "a");
    }
    assert t.rooms - {"R1"} == map[];
    assert t.users - {"a"} == map[];
  }

  /**
   * "a" joins room "R1" twice, so the room holds two copies of it. Its disconnect
   * removes one copy, and succession writes the other back into the directory under
   * "a". The room survives, and only a second disconnect clears both maps.
   */
  lemma RejoinedConnectionSurvivesDisconnect()
    ensures var s1 := OnNewConnection(Init, "a").state;
      var s2 := JoinRoom(s1, "a", NoUserData, RoomInfo("R1", None)).state;
      var s3 := JoinRoom(s2, "a", NoUserData, RoomInfo("R1", None)).state;
      var first := Disconnect(s3, "a");
      && first.Done?
      && "a" in first.step.state.users
      && "R1" in first.step.state.rooms
      && first.step.state.rooms["R1"].users == [first.step.state.users["a"]]
      && Disconnect(first.step.state, "a").Done?
      && After(Disconnect(first.step.state, "a")) == State(map[], map[])
  {
    var s3 := JoinRoom(JoinRoom(OnNewConnection(Init, "a").state, "a", NoUserData, RoomInfo("R1", None)).state,
                       "a", NoUserData, RoomInfo("R1", None)).state;
    JoinedTwice(s3);
    LeaveOneCopy(s3);
    LeaveLastCopy(Disconnect(s3, "a").step.state);
  }

  /**
   * "a" is in room "R1" twice, behind "b": [a (owner, speaker), b, a]. Its disconnect
   * removes the first copy, and succession picks "b", the first remaining member, since
   * nobody else speaks. The second copy of "a" stays in the room with no directory
   * record, and a second disconnect of "a" throws.
   */
  lemma DanglingCopyAfterDisconnect()
    ensures var a1 := Member("a", true);
      var b := Member("b", false);
      var a2 := Member("a", false);
      var s := State(map["a" := a2, "b" := b], map["R1" := MapRoom(Room("R1", Topic, a1, [a1, b, a2], 0, 0, []))]);
      var t := After(Disconnect(s, "a"));
      && "a" !in t.users
      && "R1" in t.rooms
      && t.rooms["R1"].users == [Member("b", true), a2]
      && t.rooms["R1"].owner == Member("b", true)
      && Disconnect(t, "a") == Threw(NoSuchAttendee("a"), t)
  {
    var a1 := Member("a", true);
    var b := Member("b", false);
    var a2 := Member("a", false);
    var room := MapRoom(Room("R1", Topic, a1, [a1, b, a2], 0, 0, []));
    assert WithoutMember(room.users, "a") == [b, a2] by {
      assert HasId(room.users[0], "a");
      assert MemberIndex(room.users, "a") == 0;
    }
  }
}
