/** The session coordinator's four in-memory tables and, for every socket handler,
    the transition it makes on them together with the events it emits.
    The class in module Coordinator performs the same transitions in place. */
module Session {
  import opened Optional
  import opened Seqs

  /** A transport-assigned connection id. */
  type Id = string

  /** A registry record. `room`, `startTime` and `finishTime` are the optional fields. */
  datatype Player = Player(
    id: Id,
    name: string,
    score: nat,
    room: Option<Id>,
    startTime: Option<int>,
    finishTime: Option<int>)

  /** A race room. `members` holds copies of the two Player records taken when the room
      was created; they are not the registry records and drift apart from them. */
  datatype GameRoom = GameRoom(
    roomId: Id,
    members: map<Id, Player>,
    winner: Option<string>,
    difficulty: string)

  /** A pending challenge, stored under the id of its target. */
  datatype Challenge = Challenge(from: Id, to: Id, difficulty: string)

  /** The start/end actor pair the graph database supplies for a new room. */
  datatype Actor = Actor(id: string, name: string)
  datatype ActorPair = ActorPair(actor1: Actor, actor2: Actor)

  /** One line of the `gameOver` player list. */
  datatype Standing = Standing(name: string, score: nat)

  /** An outbound message. The first field of the room-addressed ones names the room. */
  datatype Event =
    | LobbyUpdate(lobbyPlayers: seq<Player>)
    | ChallengeRequest(target: Id, fromId: Id, fromName: string, challengeDifficulty: string)
    | GameStart(startRoom: Id, roomDifficulty: string, records: ActorPair, players: seq<Player>)
    | PlayerStarted(startedRoom: Id, playerId: Id, startedName: string)
    | GameOver(overRoom: Id, winnerName: string, finalTime: int, standings: map<Id, Standing>)
    | PlayerLeft(leftRoom: Id, leftName: string)

  /** `players` (a Map), `waitingRoom` (a Set, kept in insertion order), `gameRooms`
      and `pendingChallenges`. */
  datatype Tables = Tables(
    players: map<Id, Player>,
    lobby: seq<Id>,
    rooms: map<Id, GameRoom>,
    pending: map<Id, Challenge>)

  /** The tables after a handler, and what it emitted, in order. */
  datatype Step = Step(tables: Tables, emitted: seq<Event>)

  const Empty := Tables(map[], [], map[], map[])

  /** What every handler keeps true of the tables. */
  ghost predicate Inv(t: Tables) {
    RegistryInv(t) && RoomsInv(t)
  }

  /** The registry and the lobby agree. */
  ghost predicate RegistryInv(t: Tables) {
    && NoDup(t.lobby)
    && (forall id :: id in t.lobby ==> id in t.players)
    && (forall id :: id in t.players ==> t.players[id].id == id)
    // a registered player waits in the lobby exactly when it has no room
    && (forall id :: id in t.players ==> (id in t.lobby <==> t.players[id].room.None?))
  }

  /** Pending challenges and rooms are stored under their own keys, and no room is empty. */
  ghost predicate RoomsInv(t: Tables) {
    && (forall k :: k in t.pending ==> t.pending[k].to == k)
    && (forall r :: r in t.rooms ==> t.rooms[r].roomId == r && t.rooms[r].members != map[])
    && (forall r, m :: r in t.rooms && m in t.rooms[r].members ==> t.rooms[r].members[m].id == m)
  }

  lemma EmptyInv()
    ensures Inv(Empty)
  {
  }

  // ---------------------------------------------------------------------------
  // The lobby Set

  /** `Set.add`: appends `x` unless it is already present. */
  function SetAdd(s: seq<Id>, x: Id): (r: seq<Id>)
    ensures x in r
    ensures forall y :: y in r <==> y in s || y == x
    // the old members keep their order and a new member goes last
    ensures |s| <= |r| <= |s| + 1 && r[..|s|] == s
    ensures NoDup(s) ==> NoDup(r)
  {
    if x in s then s else s + [x]
  }

  /** `Set.delete`: removes `x`, keeping the order of the others. */
  function SetDelete(s: seq<Id>, x: Id): (r: seq<Id>)
    ensures forall y :: y in r <==> y in s && y != x
    ensures NoDup(s) ==> NoDup(r)
    ensures Subseq(r, s)
    decreases |s|
  {
    if s == [] then []
    else
      var rest := SetDelete(s[..|s| - 1], x);
      assert s == s[..|s| - 1] + [s[|s| - 1]];
      SubseqAppendRight(rest, s[..|s| - 1], s[|s| - 1]);
      if s[|s| - 1] == x then rest
      else
        assert NoDup(s) ==> s[|s| - 1] !in s[..|s| - 1];
        SubseqAppendBoth(rest, s[..|s| - 1], s[|s| - 1]);
        rest + [s[|s| - 1]]
  }

  /** `getLobbyPlayers`: the lobby ids in order, mapped to their records, ids without a
      record skipped. */
  function LobbyPlayersOf(lobby: seq<Id>, players: map<Id, Player>): (r: seq<Player>)
    ensures |r| <= |lobby|
    ensures forall p :: p in r ==> exists id :: id in lobby && id in players && players[id] == p
    decreases |lobby|
  {
    if lobby == [] then []
    else
      var rest := LobbyPlayersOf(lobby[..|lobby| - 1], players);
      var id := lobby[|lobby| - 1];
      assert forall x :: x in lobby[..|lobby| - 1] ==> x in lobby;
      if id in players then
        assert forall p :: p in rest + [players[id]] ==> p in rest || p == players[id];
        assert id in lobby;
        rest + [players[id]]
      else rest
  }

  /** When every lobby id is registered, which the invariant guarantees, nothing is
      skipped: the snapshot lists the lobby's records one for one, in lobby order. */
  lemma {:induction false} LobbyPlayersComplete(lobby: seq<Id>, players: map<Id, Player>)
    ensures (forall id :: id in lobby ==> id in players) ==>
      && |LobbyPlayersOf(lobby, players)| == |lobby|
      && forall i :: 0 <= i < |lobby| ==> LobbyPlayersOf(lobby, players)[i] == players[lobby[i]]
    decreases |lobby|
  {
    if lobby != [] && forall id :: id in lobby ==> id in players {
      var init := lobby[..|lobby| - 1];
      assert forall x :: x in init ==> x in lobby;
      LobbyPlayersComplete(init, players);
    }
  }

  // ---------------------------------------------------------------------------
  // Helpers of the handlers

  /** The room id `game-<challenger>-<accepter>`. */
  function RoomId(challenger: Id, accepter: Id): string {
    "game-" + challenger + "-" + accepter
  }

  /** The position of the first dash in `s` at or after `i`, or `|s|` when there is none. */
  function DashFrom(s: string, i: nat): nat
    requires i <= |s|
    decreases |s| - i
  {
    if i == |s| || s[i] == '-' then i else DashFrom(s, i + 1)
  }

  /** In a room id whose challenger has no dash, the first dash after `game-` ends the challenger. */
  lemma {:induction false} DashEndsChallenger(c: Id, a: Id, i: nat)
    requires '-' !in c && i <= |c|
    ensures DashFrom(RoomId(c, a), 5 + i) == 5 + |c|
    decreases |c| - i
  {
    var s := RoomId(c, a);
    assert s == "game-" + c + "-" + a;
    if i < |c| {
      assert s[5 + i] == c[i];
      DashEndsChallenger(c, a, i + 1);
    } else {
      assert s[5 + i] == '-';
    }
  }

  /** Room ids are collision-free only for challenger ids without a dash. */
  lemma RoomIdInjective(c1: Id, a1: Id, c2: Id, a2: Id)
    requires '-' !in c1 && '-' !in c2
    requires RoomId(c1, a1) == RoomId(c2, a2)
    ensures c1 == c2 && a1 == a2
  {
    var s := RoomId(c1, a1);
    DashEndsChallenger(c1, a1, 0);
    DashEndsChallenger(c2, a2, 0);
    assert |c1| == |c2|;
    assert s == "game-" + c1 + "-" + a1;
    assert s == "game-" + c2 + "-" + a2;
    assert c1 == s[5..5 + |c1|] == c2;
    assert a1 == s[6 + |c1|..] == a2;
  }

  /** Socket ids may contain a dash, and then two different pairs share a room id. */
  lemma RoomIdCollision()
    ensures RoomId("a-b", "c") == RoomId("a", "b-c")
  {
  }

  /** The pending challenge that `acceptChallenge` finds: the one whose `from` is the
      challenger and whose `to` is the accepter. */
  function FindPending(pending: map<Id, Challenge>, from: Id, to: Id): Option<Challenge> {
    if to in pending && pending[to].from == from && pending[to].to == to
    then Some(pending[to]) else None
  }

  /** The search `Object.values(pendingChallenges).find(...)` over all entries finds the
      same challenge as the keyed lookup, because every entry is stored under its `to`. */
  lemma FindPendingIsSearch(pending: map<Id, Challenge>, from: Id, to: Id)
    requires forall k :: k in pending ==> pending[k].to == k
    ensures FindPending(pending, from, to).Some?
      <==> exists k :: k in pending && pending[k].from == from && pending[k].to == to
    ensures forall k :: (k in pending && pending[k].from == from && pending[k].to == to
      ==> FindPending(pending, from, to) == Some(pending[k]))
  {
  }

  /** `pending?.difficulty || "easy"`: a missing challenge and an empty difficulty
      string both fall back to "easy". */
  function RoomDifficulty(found: Option<Challenge>): (d: string)
    ensures d != ""
    ensures found.Some? && found.value.difficulty != "" ==> d == found.value.difficulty
    ensures found.None? ==> d == "easy"
  {
    if found.Some? && found.value.difficulty != "" then found.value.difficulty else "easy"
  }

  /** `player.startTime || 0`. */
  function StartOrZero(start: Option<int>): int {
    if start.Some? then start.value else 0
  }

  /** The `gameOver` player list, one line per room member, from the member copies. */
  function Standings(members: map<Id, Player>): (r: map<Id, Standing>)
    ensures r.Keys == members.Keys
    ensures forall m :: m in members ==> r[m] == Standing(members[m].name, members[m].score)
  {
    map m | m in members :: Standing(members[m].name, members[m].score)
  }

  /** Removes `sid` from the member map of room `rid`, and the room itself once the
      member map is empty. */
  function LeaveRoom(rooms: map<Id, GameRoom>, rid: Id, sid: Id): (r: map<Id, GameRoom>)
    requires rid in rooms
    ensures rid in r <==> rooms[rid].members - {sid} != map[]
    ensures rid in r ==> r[rid] == rooms[rid].(members := rooms[rid].members - {sid})
    ensures forall q :: q != rid ==> (q in r <==> q in rooms) && (q in r ==> r[q] == rooms[q])
  {
    var left := rooms[rid].(members := rooms[rid].members - {sid});
    var r1 := rooms[rid := left];
    if left.members == map[] then r1 - {rid} else r1
  }

  // ---------------------------------------------------------------------------
  // The handlers

  /** `registerPlayer`: a fresh record with score 0, no room and no timestamps, under the
      caller's id (overwriting any earlier one); the id joins the lobby. */
  function Register(t: Tables, sid: Id, name: string): (s: Step)
    ensures s.tables.players == t.players[sid := Player(sid, name, 0, None, None, None)]
    ensures sid in s.tables.lobby && forall id :: id in t.lobby ==> id in s.tables.lobby
    ensures s.tables.lobby == SetAdd(t.lobby, sid)
    ensures s.tables.rooms == t.rooms && s.tables.pending == t.pending
    ensures s.emitted == [LobbyUpdate(LobbyPlayersOf(s.tables.lobby, s.tables.players))]
  {
    var players := t.players[sid := Player(sid, name, 0, None, None, None)];
    var lobby := SetAdd(t.lobby, sid);
    Step(t.(players := players, lobby := lobby), [LobbyUpdate(LobbyPlayersOf(lobby, players))])
  }

  /** `challenge`: always records the challenge under the target's id, replacing any
      earlier one; notifies the target only when both players are registered. */
  function ChallengeStep(t: Tables, sid: Id, targetId: Id, difficulty: string): (s: Step)
    ensures s.tables == t.(pending := t.pending[targetId := Challenge(sid, targetId, difficulty)])
    ensures s.emitted != [] <==> sid in t.players && targetId in t.players
    ensures s.emitted != [] ==>
      s.emitted == [ChallengeRequest(targetId, t.players[sid].id, t.players[sid].name, difficulty)]
  {
    var pending := t.pending[targetId := Challenge(sid, targetId, difficulty)];
    var emitted :=
      if sid !in t.players || targetId !in t.players then []
      else [ChallengeRequest(targetId, t.players[sid].id, t.players[sid].name, difficulty)];
    Step(t.(pending := pending), emitted)
  }

  /** `acceptChallenge`, handled by `sid` for a challenge from `challengerId`, with the
      actor pair the database returned. */
  function Accept(t: Tables, sid: Id, challengerId: Id, records: ActorPair): (s: Step)
    // an unknown challenger or accepter changes nothing
    ensures challengerId !in t.players || sid !in t.players ==> s == Step(t, [])
    ensures challengerId in t.players && sid in t.players ==>
      var c, a := t.players[challengerId], t.players[sid];
      var rid := RoomId(c.id, a.id);
      && s.tables.rooms == t.rooms[rid := GameRoom(rid, map[c.id := c][a.id := a], None,
                                                    RoomDifficulty(FindPending(t.pending, challengerId, sid)))]
      && s.tables.players.Keys == t.players.Keys
      && s.tables.players[challengerId] == t.players[challengerId].(room := Some(rid))
      && s.tables.players[sid] == t.players[sid].(room := Some(rid))
      && (forall id :: id in t.players && id != challengerId && id != sid ==>
            s.tables.players[id] == t.players[id])
      && (forall id :: id in s.tables.lobby <==> id in t.lobby && id != c.id && id != a.id)
      && s.tables.lobby == SetDelete(SetDelete(t.lobby, c.id), a.id)
      && s.tables.pending == t.pending
      && s.emitted == [GameStart(rid, RoomDifficulty(FindPending(t.pending, challengerId, sid)), records,
                                 [s.tables.players[challengerId], s.tables.players[sid]]),
                       LobbyUpdate(LobbyPlayersOf(s.tables.lobby, s.tables.players))]
  {
    var difficulty := RoomDifficulty(FindPending(t.pending, challengerId, sid));
    if challengerId !in t.players || sid !in t.players then Step(t, [])
    else
      var challenger, accepter := t.players[challengerId], t.players[sid];
      var rid := RoomId(challenger.id, accepter.id);
      var room := GameRoom(rid, map[challenger.id := challenger][accepter.id := accepter], None, difficulty);
      var p1 := t.players[challengerId := challenger.(room := Some(rid))];
      var p2 := p1[sid := p1[sid].(room := Some(rid))];
      var lobby := SetDelete(SetDelete(t.lobby, challenger.id), accepter.id);
      Step(Tables(p2, lobby, t.rooms[rid := room], t.pending),
           [GameStart(rid, difficulty, records, [p2[challengerId], p2[sid]]),
            LobbyUpdate(LobbyPlayersOf(lobby, p2))])
  }

  /** `startGame` at clock reading `now`. */
  function StartGame(t: Tables, sid: Id, now: int): (s: Step)
    // without a registered player whose room exists, nothing happens
    ensures sid !in t.players || t.players[sid].room.None? || t.players[sid].room.value !in t.rooms
      ==> s == Step(t, [])
    ensures sid in t.players && t.players[sid].room.Some? && t.players[sid].room.value in t.rooms ==>
      var rid := t.players[sid].room.value;
      // the registry record gets `now`, overwriting an earlier start
      && s.tables.players == t.players[sid := t.players[sid].(startTime := Some(now))]
      && s.tables.lobby == t.lobby && s.tables.pending == t.pending
      && s.tables.rooms.Keys == t.rooms.Keys
      && (forall q :: q in t.rooms && q != rid ==> s.tables.rooms[q] == t.rooms[q])
      // and so does the room's copy; a member id missing from the room makes the handler throw
      && (sid in t.rooms[rid].members ==>
            s.tables.rooms[rid] == t.rooms[rid].(members := t.rooms[rid].members[sid := t.rooms[rid].members[sid].(startTime := Some(now))])
            && s.emitted == [PlayerStarted(rid, sid, t.players[sid].name)])
      && (sid !in t.rooms[rid].members ==> s.tables.rooms == t.rooms && s.emitted == [])
  {
    if sid !in t.players || t.players[sid].room.None? || t.players[sid].room.value !in t.rooms
    then Step(t, [])
    else
      var rid := t.players[sid].room.value;
      var players := t.players[sid := t.players[sid].(startTime := Some(now))];
      var room := t.rooms[rid];
      if sid !in room.members then Step(t.(players := players), [])
      else
        var room' := room.(members := room.members[sid := room.members[sid].(startTime := Some(now))]);
        Step(t.(players := players, rooms := t.rooms[rid := room']),
             [PlayerStarted(rid, sid, players[sid].name)])
  }

  /** `winGame` at clock reading `now`. An existing winner is only logged, so the caller
      becomes the winner regardless. */
  function WinGame(t: Tables, sid: Id, now: int): (s: Step)
    ensures sid !in t.players || t.players[sid].room.None? || t.players[sid].room.value !in t.rooms
      ==> s == Step(t, [])
    ensures sid in t.players && t.players[sid].room.Some? && t.players[sid].room.value in t.rooms ==>
      var p, rid := t.players[sid], t.players[sid].room.value;
      var room := t.rooms[rid];
      && s.tables.lobby == t.lobby && s.tables.pending == t.pending
      && s.tables.players.Keys == t.players.Keys
      && (forall id :: id in t.players && id != sid ==> s.tables.players[id] == t.players[id])
      && s.tables.players[sid].finishTime == Some(now)
      && s.tables.rooms.Keys == t.rooms.Keys
      && (forall q :: q in t.rooms && q != rid ==> s.tables.rooms[q] == t.rooms[q])
      && (sid in room.members ==>
            // the winner is overwritten and the registry score, only it, goes up by one
            && s.tables.players[sid] == p.(finishTime := Some(now), score := p.score + 1)
            && s.tables.rooms[rid] == room.(members := room.members[sid := room.members[sid].(finishTime := Some(now))],
                                            winner := Some(p.name))
            && s.emitted == [GameOver(room.roomId, p.name, now - StartOrZero(p.startTime),
                                      Standings(s.tables.rooms[rid].members))])
      && (sid !in room.members ==>
            s.tables.players[sid] == p.(finishTime := Some(now))
            && s.tables.rooms == t.rooms && s.emitted == [])
  {
    if sid !in t.players || t.players[sid].room.None? || t.players[sid].room.value !in t.rooms
    then Step(t, [])
    else
      var rid := t.players[sid].room.value;
      var room := t.rooms[rid];
      var p := t.players[sid].(finishTime := Some(now));
      if sid !in room.members then Step(t.(players := t.players[sid := p]), [])
      else
        var members := room.members[sid := room.members[sid].(finishTime := Some(now))];
        var finalTime := now - StartOrZero(p.startTime);
        var room' := room.(members := members, winner := Some(p.name));
        var p' := p.(score := p.score + 1);
        Step(t.(players := t.players[sid := p'], rooms := t.rooms[rid := room']),
             [GameOver(room.roomId, p.name, finalTime, Standings(members))])
  }

  /** `returnToLobby`: leaves the room (deleting it once empty), clears room and
      timestamps, keeps the score, and rejoins the lobby. */
  function ReturnToLobby(t: Tables, sid: Id): (s: Step)
    ensures sid !in t.players ==> s == Step(t, [])
    ensures sid in t.players ==>
      var p := t.players[sid];
      && s.tables.players == t.players[sid := p.(room := None, startTime := None, finishTime := None)]
      && s.tables.lobby == SetAdd(t.lobby, sid)
      && s.tables.pending == t.pending
      && (p.room.Some? && p.room.value in t.rooms ==> s.tables.rooms == LeaveRoom(t.rooms, p.room.value, sid))
      && (p.room.None? || p.room.value !in t.rooms ==> s.tables.rooms == t.rooms)
      && s.emitted == [LobbyUpdate(LobbyPlayersOf(s.tables.lobby, s.tables.players))]
  {
    if sid !in t.players then Step(t, [])
    else
      var p := t.players[sid];
      var rooms := if p.room.Some? && p.room.value in t.rooms then LeaveRoom(t.rooms, p.room.value, sid) else t.rooms;
      var players := t.players[sid := p.(room := None, startTime := None, finishTime := None)];
      var lobby := SetAdd(t.lobby, sid);
      Step(Tables(players, lobby, rooms, t.pending), [LobbyUpdate(LobbyPlayersOf(lobby, players))])
  }

  /** `disconnect`: leaves the lobby and the room (deleting it once empty) and deletes the
      registry record at once. */
  function Disconnect(t: Tables, sid: Id): (s: Step)
    ensures sid !in t.players ==> s == Step(t, [])
    ensures sid in t.players ==>
      var p := t.players[sid];
      && s.tables.players == t.players - {sid}
      && s.tables.lobby == SetDelete(t.lobby, sid)
      && s.tables.pending == t.pending
      && (p.room.Some? && p.room.value in t.rooms ==>
            s.tables.rooms == LeaveRoom(t.rooms, p.room.value, sid)
            && s.emitted == [PlayerLeft(p.room.value, p.name), LobbyUpdate(LobbyPlayersOf(s.tables.lobby, s.tables.players))])
      && (p.room.None? || p.room.value !in t.rooms ==>
            s.tables.rooms == t.rooms
            && s.emitted == [LobbyUpdate(LobbyPlayersOf(s.tables.lobby, s.tables.players))])
  {
    if sid !in t.players then Step(t, [])
    else
      var p := t.players[sid];
      var lobby := SetDelete(t.lobby, sid);
      var inRoom := p.room.Some? && p.room.value in t.rooms;
      var rooms := if inRoom then LeaveRoom(t.rooms, p.room.value, sid) else t.rooms;
      var players := t.players - {sid};
      var left := if inRoom then [PlayerLeft(p.room.value, p.name)] else [];
      Step(Tables(players, lobby, rooms, t.pending), left + [LobbyUpdate(LobbyPlayersOf(lobby, players))])
  }
}
