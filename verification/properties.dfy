/**
 * Properties that relate several handler calls, including behaviour of the code that a
 * caller could easily not expect.
 */
module Properties {
  import opened Wrappers
  import opened Seqs
  import opened Entities
  import opened Notifications
  import opened RoomsController
  import opened Invariants

  /** The stored counts of a consistent room never claim more speakers than attendees. */
  lemma SpeakersBounded(room: Room)
    requires Consistent(room)
    ensures room.speakersCount <= room.attendeesCount
  {
    CountSpeakersIsPositions(room.users);
  }

  /**
   * Whatever the state, a departure leaves the room owned by a member whenever it was
   * before: the owner is kept only when it is not the one leaving, and a successor is
   * always taken from the remaining members.
   */
  lemma DisconnectKeepsOwnerMember(s: State, c: Id)
    requires InKnownRoom(s, c)
    requires OwnerIsMember(s.rooms[s.users[c].roomId.value])
    ensures var key := s.users[c].roomId.value;
      var t := After(Disconnect(s, c));
      key in t.rooms ==> OwnerIsMember(t.rooms[key])
  {
    var key := s.users[c].roomId.value;
    var room := s.rooms[key];
    var t := After(Disconnect(s, c));
    var rest := WithoutMember(room.users, c);
    if key in t.rooms {
      assert !LastMemberLeaving(room, c);
      var after := t.rooms[key];
      if Succeeds(room, c) {
        var k := SuccessorIndex(rest);
        assert after.users[k].id == after.owner.id;
      } else {
        var w :| 0 <= w < |room.users| && room.users[w].id == room.owner.id;
        assert room.owner.id != Some(c);
        if IsMember(room.users, c) {
          var i0 := MemberIndex(room.users, c);
          assert rest == RemoveAt(room.users, i0);
          assert w != i0;
          var w' := if w < i0 then w else w - 1;
          assert after.users[w'] == room.users[w];
        } else {
          assert after.users[w] == room.users[w];
        }
      }
    }
  }

  /** Under the invariant, a disconnect always completes and drops the directory entry. */
  lemma DisconnectDropsEntry(s: State, c: Id)
    requires Inv(s) && c in s.users
    ensures Disconnect(s, c).Done?
    ensures c !in After(Disconnect(s, c)).users
  {
    var o := Disconnect(s, c);
    if InKnownRoom(s, c) {
      var key := s.users[c].roomId.value;
      var room := s.rooms[key];
      if !LastMemberLeaving(room, c) && Succeeds(room, c) {
        DepartureFacts(s, c, key);
        var rest := WithoutMember(room.users, c);
        var k := SuccessorIndex(rest);
        assert !HasId(rest[k], c);
      }
    }
  }

  /**
   * Under the invariant, a second disconnect of the same connection throws: the code
   * reads `user.roomId` of a record that the first disconnect removed.
   */
  lemma DisconnectTwiceThrows(s: State, c: Id)
    requires Inv(s) && c in s.users
    ensures Disconnect(After(Disconnect(s, c)), c) == Threw(NoSuchAttendee(c), After(Disconnect(s, c)))
  {
    DisconnectDropsEntry(s, c);
  }

  /** Appending a record with id `x` to members without `x` is undone by removing `x`. */
  lemma WithoutAppended(rest: seq<Attendee>, u: Attendee, x: Id)
    requires HasId(u, x) && forall j :: 0 <= j < |rest| ==> !HasId(rest[j], x)
    ensures WithoutMember(rest + [u], x) == rest
  {
    assert HasId((rest + [u])[|rest|], x);
    assert (rest + [u])[..|rest|] == rest;
  }

  /** One answer to a member of the room it names, under the invariant. */
  lemma AnswerToMember(s: State, c: Id, answer: bool, x: Id, key: RoomId)
    requires Inv(s) && AnswerTargetsMember(s, Target(x, key))
    ensures var o := SpeakAnswer(s, c, answer, Target(x, key));
      && o.Done?
      && var t := o.step.state;
      && AnswerTargetsMember(t, Target(x, key))
      && t.users == s.users[x := s.users[x].(isSpeaker := answer)]
      && t.rooms[key].owner == s.rooms[key].owner
      && t.rooms[key].users == WithoutMember(s.rooms[key].users, x) + [t.users[x]]
      && HasId(t.users[x], x)
      && (forall j :: 0 <= j < |WithoutMember(s.rooms[key].users, x)| ==> !HasId(WithoutMember(s.rooms[key].users, x)[j], x))
  {
    DepartureFacts(s, x, key);
    MemberIsPlacedThere(s, key, x);
    assert RoomWellFormed(s, key);
    var i := MemberIndex(s.rooms[key].users, x);
    assert Synced(s.users, s.rooms[key].users[i]);
  }

  /** An answer to a member that was moved to the end of its room by the previous answer. */
  lemma AnswerToLastMember(s: State, c: Id, answer: bool, x: Id, key: RoomId, rest: seq<Attendee>)
    requires key in s.rooms && x in s.users && HasId(s.users[x], x)
    requires s.rooms[key].users == rest + [s.users[x]]
    requires forall j :: 0 <= j < |rest| ==> !HasId(rest[j], x)
    ensures var o := SpeakAnswer(s, c, answer, Target(x, key));
      && o.Done?
      && o.step.state.users == s.users[x := s.users[x].(isSpeaker := answer)]
      && o.step.state.rooms[key].users == rest + [s.users[x].(isSpeaker := answer)]
      && o.step.state.rooms[key].owner == s.rooms[key].owner
  {
    WithoutAppended(rest, s.users[x], x);
  }

  /**
   * Granting and then revoking the right to speak restores the directory and moves the
   * member, unchanged, to the end of its room.
   */
  lemma SpeakerRoundTrip(s: State, c: Id, x: Id, key: RoomId)
    requires Inv(s) && AnswerTargetsMember(s, Target(x, key)) && !s.users[x].isSpeaker
    ensures var granted := SpeakAnswer(s, c, true, Target(x, key));
      && granted.Done?
      && granted.step.state.users[x].isSpeaker
      && var revoked := SpeakAnswer(granted.step.state, c, false, Target(x, key));
      && revoked.Done?
      && revoked.step.state.users == s.users
      && revoked.step.state.rooms[key].users == WithoutMember(s.rooms[key].users, x) + [s.users[x]]
      && revoked.step.state.rooms[key].owner == s.rooms[key].owner
  {
    AnswerToMember(s, c, true, x, key);
    var granted := SpeakAnswer(s, c, true, Target(x, key));
    RevokeAfterGrant(s, granted.step.state, c, x, key);
  }

  /** The revoke step of `SpeakerRoundTrip`, from the state the grant left. */
  lemma RevokeAfterGrant(s: State, s1: State, c: Id, x: Id, key: RoomId)
    requires key in s.rooms && x in s.users && !s.users[x].isSpeaker
    requires key in s1.rooms && x in s1.users && HasId(s1.users[x], x)
    requires s1.users == s.users[x := s.users[x].(isSpeaker := true)]
    requires s1.rooms[key].owner == s.rooms[key].owner
    requires s1.rooms[key].users == WithoutMember(s.rooms[key].users, x) + [s1.users[x]]
    requires forall j :: 0 <= j < |WithoutMember(s.rooms[key].users, x)| ==> !HasId(WithoutMember(s.rooms[key].users, x)[j], x)
    ensures var revoked := SpeakAnswer(s1, c, false, Target(x, key));
      && revoked.Done?
      && revoked.step.state.users == s.users
      && revoked.step.state.rooms[key].users == WithoutMember(s.rooms[key].users, x) + [s.users[x]]
      && revoked.step.state.rooms[key].owner == s.rooms[key].owner
  {
    AnswerToLastMember(s1, c, false, x, key, WithoutMember(s.rooms[key].users, x));
    SpeakerFlagRestored(s.users, s1.users, x);
  }

  /** Setting a flag that was clear, then clearing it again, gives back the directory. */
  lemma SpeakerFlagRestored(m: map<Id, Attendee>, m1: map<Id, Attendee>, x: Id)
    requires x in m && !m[x].isSpeaker && m1 == m[x := m[x].(isSpeaker := true)]
    ensures m1[x].(isSpeaker := false) == m[x]
    ensures m1[x := m1[x].(isSpeaker := false)] == m
  {
  }

  /**
   * Revoking the owner's right to speak leaves the room owned by a member that is not a
   * speaker: nothing in the code keeps the owner's speaker flag set.
   */
  lemma RevokedOwnerIsNoSpeaker(s: State, c: Id, key: RoomId)
    requires Inv(s) && key in s.rooms
    ensures var x := s.rooms[key].owner.id.value;
      var o := SpeakAnswer(s, c, false, Target(x, key));
      && o.Done?
      && var after := o.step.state.rooms[key];
      && after.owner.id == Some(x)
      && HasId(after.users[|after.users| - 1], x)
      && !after.users[|after.users| - 1].isSpeaker
  {
    assert RoomWellFormed(s, key);
    var x := s.rooms[key].owner.id.value;
    MemberIsPlacedThere(s, key, x);
    DepartureFacts(s, x, key);
  }

  /**
   * Joining the room a connection is already in appends a second copy of it: members
   * are told apart by object identity, not by id, so the room ends up with two entries
   * carrying the same id.
   */
  lemma RejoinDuplicatesMember(s: State, c: Id, data: UserData, key: RoomId, topic: Option<string>)
    requires key in s.rooms && IsMember(s.rooms[key].users, c)
    ensures var room := JoinRoom(s, c, data, RoomInfo(key, topic)).state.rooms[key];
      && |room.users| == |s.rooms[key].users| + 1
      && !DistinctIds(room.users)
  {
    var room := JoinRoom(s, c, data, RoomInfo(key, topic)).state.rooms[key];
    var prior := s.rooms[key].users;
    var w :| 0 <= w < |prior| && HasId(prior[w], c);
    assert room.users[w] == prior[w];
    assert HasId(room.users[|prior|], c);
  }

  /**
   * An answer that arrives after its target has left puts the departed id back in the
   * directory with a record holding only `isSpeaker` and no room. It also appends a
   * member with no id to the room. No state reached this way satisfies the invariant.
   */
  lemma LateAnswerBreaksInv(s: State, c: Id, answer: bool, x: Id, key: RoomId)
    requires x !in s.users && key in s.rooms
    ensures var o := SpeakAnswer(s, c, answer, Target(x, key));
      && o.Done?
      && var t := o.step.state;
      && t.users[x] == Attendee(None, None, None, None, answer)
      && |t.rooms[key].users| > 0
      && t.rooms[key].users[|t.rooms[key].users| - 1].id.None?
      && !Inv(t)
  {
    var t := After(SpeakAnswer(s, c, answer, Target(x, key)));
    assert !Placed(t, x);
  }
}
