/** What the coordinator's handlers keep and what sequences of them do. Several of
    these record where the code, as written, departs from the intended policy of a
    single winner, a start time set once, and a player either in the lobby or in a room. */
module SessionLaws {
  import opened Optional
  import opened Seqs
  import opened Session

  // ---------------------------------------------------------------------------
  // Every handler keeps the table invariant

  lemma RegisterKeepsInv(t: Tables, sid: Id, name: string)
    requires Inv(t)
    ensures Inv(Register(t, sid, name).tables)
  {
  }

  lemma ChallengeKeepsInv(t: Tables, sid: Id, targetId: Id, difficulty: string)
    requires Inv(t)
    ensures Inv(ChallengeStep(t, sid, targetId, difficulty).tables)
  {
  }

  lemma AcceptKeepsInv(t: Tables, sid: Id, challengerId: Id, records: ActorPair)
    requires Inv(t)
    ensures Inv(Accept(t, sid, challengerId, records).tables)
  {
    AcceptKeepsRegistryInv(t, sid, challengerId, records);
    AcceptKeepsRoomsInv(t, sid, challengerId, records);
  }

  lemma AcceptKeepsRegistryInv(t: Tables, sid: Id, challengerId: Id, records: ActorPair)
    requires Inv(t)
    ensures RegistryInv(Accept(t, sid, challengerId, records).tables)
  {
    if challengerId in t.players && sid in t.players {
      assert t.players[challengerId].id == challengerId && t.players[sid].id == sid;
    }
  }

  lemma AcceptKeepsRoomsInv(t: Tables, sid: Id, challengerId: Id, records: ActorPair)
    requires Inv(t)
    ensures RoomsInv(Accept(t, sid, challengerId, records).tables)
  {
    if challengerId in t.players && sid in t.players {
      var c, a := t.players[challengerId], t.players[sid];
      assert c.id == challengerId && a.id == sid;
      var rid := RoomId(c.id, a.id);
      var members := map[c.id := c][a.id := a];
      assert forall m :: m in members ==> members[m].id == m;
      assert c.id in members;
      var room := GameRoom(rid, members, None, RoomDifficulty(FindPending(t.pending, challengerId, sid)));
      RoomUpdateKeepsRoomsInv(t, rid, room, Accept(t, sid, challengerId, records).tables);
    }
  }

  /** Putting a well-formed room under its own id keeps the rooms well-formed. */
  lemma RoomUpdateKeepsRoomsInv(t: Tables, rid: Id, room: GameRoom, s: Tables)
    requires RoomsInv(t)
    requires room.roomId == rid && room.members != map[]
    requires forall m :: m in room.members ==> room.members[m].id == m
    requires s.rooms == t.rooms[rid := room] && s.pending == t.pending
    ensures RoomsInv(s)
  {
  }

  lemma StartGameKeepsInv(t: Tables, sid: Id, now: int)
    requires Inv(t)
    ensures Inv(StartGame(t, sid, now).tables)
  {
    assert RegistryInv(StartGame(t, sid, now).tables);
  }

  lemma WinGameKeepsInv(t: Tables, sid: Id, now: int)
    requires Inv(t)
    ensures Inv(WinGame(t, sid, now).tables)
  {
    WinGameKeepsRegistryInv(t, sid, now);
    WinGameKeepsRoomsInv(t, sid, now);
  }

  lemma WinGameKeepsRegistryInv(t: Tables, sid: Id, now: int)
    requires RegistryInv(t)
    ensures RegistryInv(WinGame(t, sid, now).tables)
  {
  }

  lemma WinGameKeepsRoomsInv(t: Tables, sid: Id, now: int)
    requires RoomsInv(t)
    ensures RoomsInv(WinGame(t, sid, now).tables)
  {
  }

  lemma ReturnToLobbyKeepsInv(t: Tables, sid: Id)
    requires Inv(t)
    ensures Inv(ReturnToLobby(t, sid).tables)
  {
  }

  lemma DisconnectKeepsInv(t: Tables, sid: Id)
    requires Inv(t)
    ensures Inv(Disconnect(t, sid).tables)
  {
  }

  // ---------------------------------------------------------------------------
  // Sequences of handlers

  /** Two `winGame` calls in one room: the second caller overwrites the first winner, and
      both registry scores go up, where the intended policy makes the second call a no-op. */
  lemma {:induction false} SecondWinOverwritesWinner(t: Tables, x: Id, y: Id, rid: Id, t1: int, t2: int)
    requires Inv(t)
    requires x != y && x in t.players && y in t.players
    requires t.players[x].room == Some(rid) && t.players[y].room == Some(rid)
    requires rid in t.rooms && x in t.rooms[rid].members && y in t.rooms[rid].members
    ensures var s1 := WinGame(t, x, t1).tables;
            var s2 := WinGame(s1, y, t2).tables;
            && rid in s1.rooms && rid in s2.rooms && x in s2.players && y in s2.players
            && s1.rooms[rid].winner == Some(t.players[x].name)
            && s2.rooms[rid].winner == Some(t.players[y].name)
            && s2.players[x].score == t.players[x].score + 1
            && s2.players[y].score == t.players[y].score + 1
  {
    var s1 := WinGame(t, x, t1).tables;
    assert s1.players[y] == t.players[y];
    assert s1.rooms[rid].members.Keys == t.rooms[rid].members.Keys;
  }

  /** The room copy of the winner keeps its old score, so the `gameOver` list it feeds
      does not show the point just won. */
  lemma {:induction false} WinnerStandingNotUpdated(t: Tables, sid: Id, rid: Id, now: int)
    requires sid in t.players && t.players[sid].room == Some(rid)
    requires rid in t.rooms && sid in t.rooms[rid].members
    requires t.rooms[rid].members[sid].score == t.players[sid].score
    ensures var s := WinGame(t, sid, now);
            && s.tables.players[sid].score == t.players[sid].score + 1
            && s.emitted[0].GameOver?
            && s.emitted[0].standings[sid].score == t.players[sid].score
            && s.emitted[0].standings[sid].score != s.tables.players[sid].score
  {
    var members := t.rooms[rid].members[sid := t.rooms[rid].members[sid].(finishTime := Some(now))];
    assert WinGame(t, sid, now).emitted[0].standings == Standings(members);
  }

  /** A second `startGame` replaces the first start time, in the registry and in the
      room, where the intended policy keeps the first one. */
  lemma {:induction false} SecondStartOverwrites(t: Tables, sid: Id, rid: Id, t1: int, t2: int)
    requires sid in t.players && t.players[sid].room == Some(rid) && rid in t.rooms
    ensures var s := StartGame(StartGame(t, sid, t1).tables, sid, t2).tables;
            && s.players[sid].startTime == Some(t2)
            && (sid in t.rooms[rid].members ==> s.rooms[rid].members[sid].startTime == Some(t2))
  {
    var s1 := StartGame(t, sid, t1).tables;
    assert s1.players[sid].room == Some(rid) && rid in s1.rooms;
    assert sid in t.rooms[rid].members ==> sid in s1.rooms[rid].members;
  }

  /** Challenging the same target twice leaves only the second challenge for
      `acceptChallenge` to find, and the room then takes the second difficulty. */
  lemma {:induction false} ChallengeLastWriterWins(t: Tables, x: Id, y: Id, target: Id,
                                                   d1: string, d2: string, records: ActorPair)
    requires x != y
    ensures var s := ChallengeStep(ChallengeStep(t, x, target, d1).tables, y, target, d2).tables;
            && FindPending(s.pending, x, target) == None
            && FindPending(s.pending, y, target) == Some(Challenge(y, target, d2))
            && (y in s.players && target in s.players && d2 != "" ==>
                  var c, a := s.players[y], s.players[target];
                  var room := Accept(s, target, y, records).tables.rooms[RoomId(c.id, a.id)];
                  room.difficulty == d2)
  {
    var s := ChallengeStep(ChallengeStep(t, x, target, d1).tables, y, target, d2).tables;
    assert s.pending[target] == Challenge(y, target, d2);
  }

  /** Accepting needs no pending challenge: without one the room is "easy". */
  lemma AcceptWithoutChallenge(t: Tables, sid: Id, challengerId: Id, records: ActorPair)
    requires challengerId in t.players && sid in t.players
    requires FindPending(t.pending, challengerId, sid) == None
    ensures var c, a := t.players[challengerId], t.players[sid];
            var s := Accept(t, sid, challengerId, records).tables;
            RoomId(c.id, a.id) in s.rooms && s.rooms[RoomId(c.id, a.id)].difficulty == "easy"
  {
  }

  /** X challenges Y with "hard" and Y accepts: both leave the lobby for one room of
      difficulty "hard" that holds exactly the two of them, and the challenge stays pending. */
  lemma {:induction false} ChallengeThenAccept(t: Tables, x: Id, y: Id, records: ActorPair)
    requires Inv(t)
    requires x != y && x in t.players && y in t.players
    ensures var s1 := ChallengeStep(t, x, y, "hard");
            var s2 := Accept(s1.tables, y, x, records);
            var rid := RoomId(x, y);
            && s1.emitted == [ChallengeRequest(y, x, t.players[x].name, "hard")]
            && rid in s2.tables.rooms
            && s2.tables.rooms[rid].difficulty == "hard"
            && s2.tables.rooms[rid].members.Keys == {x, y}
            && x !in s2.tables.lobby && y !in s2.tables.lobby
            && s2.tables.players[x].room == Some(rid) && s2.tables.players[y].room == Some(rid)
            && y in s2.tables.pending
            && s2.emitted[0].GameStart?
  {
    var s1 := ChallengeStep(t, x, y, "hard").tables;
    assert t.players[x].id == x && t.players[y].id == y;
    assert FindPending(s1.pending, x, y) == Some(Challenge(x, y, "hard"));
  }

  /** X leaves mid-race by disconnecting: Y is told, the room keeps Y alone, and X is gone
      from the registry and the lobby. When Y then returns to the lobby the room is deleted. */
  lemma {:induction false} DisconnectMidRace(t: Tables, x: Id, y: Id, rid: Id)
    requires Inv(t)
    requires x != y && x in t.players && y in t.players
    requires t.players[x].room == Some(rid) && t.players[y].room == Some(rid)
    requires rid in t.rooms && t.rooms[rid].members.Keys == {x, y}
    ensures var s1 := Disconnect(t, x);
            var s2 := ReturnToLobby(s1.tables, y);
            && s1.emitted[0] == PlayerLeft(rid, t.players[x].name)
            && rid in s1.tables.rooms && s1.tables.rooms[rid].members.Keys == {y}
            && x !in s1.tables.players && x !in s1.tables.lobby
            && rid !in s2.tables.rooms
            && y in s2.tables.lobby && s2.tables.players[y].score == t.players[y].score
  {
    var s1 := Disconnect(t, x).tables;
    assert x in t.rooms[rid].members;
    assert (t.rooms[rid].members - {x}).Keys == {y};
    assert s1.players[y] == t.players[y];
    assert (s1.rooms[rid].members - {y}).Keys == {};
  }

  /** A member of room `r1` who accepts a challenge into another room keeps its entry in
      `r1`, and still has it after returning to the lobby. */
  lemma {:induction false} SecondAcceptLeavesStaleEntry(t: Tables, a: Id, c: Id, r1: Id, records: ActorPair)
    requires Inv(t)
    requires a in t.players && c in t.players
    requires r1 in t.rooms && a in t.rooms[r1].members
    requires RoomId(c, a) != r1
    ensures var t4 := ReturnToLobby(Accept(t, a, c, records).tables, a).tables;
            && Inv(t4) && a in t4.lobby && r1 in t4.rooms && a in t4.rooms[r1].members
  {
    var t3 := Accept(t, a, c, records).tables;
    assert t.players[a].id == a && t.players[c].id == c;
    AcceptKeepsInv(t, a, c, records);
    assert t3.rooms[r1] == t.rooms[r1];
    assert t3.players[a].room == Some(RoomId(c, a));
    ReturnToLobbyKeepsInv(t3, a);
  }

  /** After a successful accept, both players are members of the new room, and nobody
      left the registry. */
  lemma AcceptJoinsRoom(t: Tables, a: Id, c: Id, records: ActorPair)
    requires Inv(t)
    requires a in t.players && c in t.players
    ensures var t2 := Accept(t, a, c, records).tables;
            && Inv(t2) && t2.players.Keys == t.players.Keys
            && RoomId(c, a) in t2.rooms && a in t2.rooms[RoomId(c, a)].members
  {
    assert t.players[a].id == a && t.players[c].id == c;
    AcceptKeepsInv(t, a, c, records);
  }

  /** B accepts A's challenge, then A accepts C's into another room and returns to the
      lobby: A is in the lobby and still a member of the first room. */
  lemma {:induction false} AcceptTwiceThenReturn(t: Tables, a: Id, b: Id, c: Id, records: ActorPair)
    requires Inv(t)
    requires a in t.players && b in t.players && c in t.players
    requires RoomId(c, a) != RoomId(a, b)
    ensures var t2 := Accept(t, b, a, records).tables;
            var t4 := ReturnToLobby(Accept(t2, a, c, records).tables, a).tables;
            && Inv(t4)
            && a in t4.lobby
            && RoomId(a, b) in t4.rooms && a in t4.rooms[RoomId(a, b)].members
  {
    var t2 := Accept(t, b, a, records).tables;
    AcceptJoinsRoom(t, b, a, records);
    SecondAcceptLeavesStaleEntry(t2, a, c, RoomId(a, b), records);
  }

  /** The intended invariant "every player is in the lobby or in a room, never both"
      does not hold: B accepts A's challenge, then A accepts C's challenge and returns to
      the lobby; A is now in the lobby and still a member of room `game-A-B`. */
  lemma StaleRoomMembership(t: Tables, records: ActorPair)
    requires Inv(t)
    requires "A" in t.players && "B" in t.players && "C" in t.players
    ensures var t2 := Accept(t, "B", "A", records).tables;
            var t4 := ReturnToLobby(Accept(t2, "A", "C", records).tables, "A").tables;
            && Inv(t4)
            && "A" in t4.lobby
            && RoomId("A", "B") in t4.rooms && "A" in t4.rooms[RoomId("A", "B")].members
  {
    assert RoomId("A", "B")[5] == 'A' && RoomId("C", "A")[5] == 'C';
    AcceptTwiceThenReturn(t, "A", "B", "C", records);
  }
}
