/** The socket server's module-level tables as one object, with one method per socket
    handler. Each method changes the tables in place, statement by statement as the
    handler does, and appends what the handler emits to `events`. Its contract ties the
    new tables to the transition of module Session, where the properties are proved. */
module Coordinator {
  import opened Optional
  import opened Seqs
  import opened Session
  import SessionLaws

  class Server {
    var players: map<Id, Player>
    var lobby: seq<Id>
    var rooms: map<Id, GameRoom>
    var pending: map<Id, Challenge>
    /** Everything emitted so far, to any connection, room or everyone. */
    var events: seq<Event>

    function State(): Tables
      reads this
    {
      Tables(players, lobby, rooms, pending)
    }

    ghost predicate Valid()
      reads this
    {
      Inv(State())
    }

    constructor ()
      ensures Valid() && State() == Empty && events == []
    {
      players, lobby, rooms, pending := map[], [], map[], map[];
      events := [];
    }

    /** `getLobbyPlayers`: the lobby's records in the order the ids entered the lobby. */
    function LobbyPlayers(): (r: seq<Player>)
      reads this
      ensures |r| <= |lobby|
      ensures Valid() ==> |r| == |lobby| && forall i :: 0 <= i < |lobby| ==> r[i] == players[lobby[i]]
    {
      LobbyPlayersComplete(lobby, players);
      LobbyPlayersOf(lobby, players)
    }

    method RegisterPlayer(sid: Id, name: string)
      modifies this
      ensures State() == Register(old(State()), sid, name).tables
      ensures events == old(events) + Register(old(State()), sid, name).emitted
    {
      players := players[sid := Player(sid, name, 0, None, None, None)];
      lobby := SetAdd(lobby, sid);
      events := events + [LobbyUpdate(LobbyPlayersOf(lobby, players))];
    }

    method Challenge(sid: Id, targetId: Id, difficulty: string)
      modifies this
      ensures State() == ChallengeStep(old(State()), sid, targetId, difficulty).tables
      ensures events == old(events) + ChallengeStep(old(State()), sid, targetId, difficulty).emitted
    {
      pending := pending[targetId := Session.Challenge(sid, targetId, difficulty)];
      if sid !in players || targetId !in players {
        return;
      }
      var challenger := players[sid];
      events := events + [ChallengeRequest(targetId, challenger.id, challenger.name, difficulty)];
    }

    /** `records` is what the database returned for the room's actor pair. */
    method AcceptChallenge(sid: Id, challengerId: Id, records: ActorPair)
      modifies this
      ensures State() == Accept(old(State()), sid, challengerId, records).tables
      ensures events == old(events) + Accept(old(State()), sid, challengerId, records).emitted
    {
      var difficulty := RoomDifficulty(FindPending(pending, challengerId, sid));
      if challengerId !in players || sid !in players {
        return;
      }
      var challenger, accepter := players[challengerId], players[sid];
      var rid := RoomId(challenger.id, accepter.id);
      var room := GameRoom(rid, map[challenger.id := challenger][accepter.id := accepter], None, difficulty);
      rooms := rooms[rid := room];
      players := players[challengerId := players[challengerId].(room := Some(rid))];
      players := players[sid := players[sid].(room := Some(rid))];
      lobby := SetDelete(lobby, challenger.id);
      lobby := SetDelete(lobby, accepter.id);
      events := events + [GameStart(rid, difficulty, records, [players[challengerId], players[sid]])];
      events := events + [LobbyUpdate(LobbyPlayersOf(lobby, players))];
    }

    /** `now` is the clock reading `Date.now()`. */
    method StartGame(sid: Id, now: int)
      modifies this
      ensures State() == Session.StartGame(old(State()), sid, now).tables
      ensures events == old(events) + Session.StartGame(old(State()), sid, now).emitted
    {
      if sid !in players || players[sid].room.None? {
        return;
      }
      var rid := players[sid].room.value;
      if rid !in rooms {
        return;
      }
      players := players[sid := players[sid].(startTime := Some(now))];
      if sid !in rooms[rid].members {
        return;  // the room has no entry for the caller: the handler throws here
      }
      var room := rooms[rid];
      rooms := rooms[rid := room.(members := room.members[sid := room.members[sid].(startTime := Some(now))])];
      events := events + [PlayerStarted(rid, sid, players[sid].name)];
    }

    /** `now` is the clock reading `Date.now()`. */
    method WinGame(sid: Id, now: int)
      modifies this
      ensures State() == Session.WinGame(old(State()), sid, now).tables
      ensures events == old(events) + Session.WinGame(old(State()), sid, now).emitted
    {
      if sid !in players || players[sid].room.None? {
        return;
      }
      var rid := players[sid].room.value;
      if rid !in rooms {
        return;
      }
      // an existing winner is only logged; the handler carries on
      var player := players[sid].(finishTime := Some(now));
      players := players[sid := player];
      if sid !in rooms[rid].members {
        return;  // the room has no entry for the caller: the handler throws here
      }
      // the room object is updated in place: the caller's finish time, then the winner
      var room := rooms[rid];
      room := room.(members := room.members[sid := room.members[sid].(finishTime := Some(now))]);
      var finalTime := now - StartOrZero(player.startTime);
      room := room.(winner := Some(player.name));
      rooms := rooms[rid := room];
      player := player.(score := player.score + 1);
      players := players[sid := player];
      events := events + [GameOver(room.roomId, player.name, finalTime, Standings(room.members))];
    }

    method ReturnToLobby(sid: Id)
      modifies this
      ensures State() == Session.ReturnToLobby(old(State()), sid).tables
      ensures events == old(events) + Session.ReturnToLobby(old(State()), sid).emitted
    {
      if sid !in players {
        return;
      }
      var roomId := players[sid].room;
      if roomId.Some? && roomId.value in rooms {
        // the caller leaves the room, which is deleted once it has no members
        rooms := LeaveRoom(rooms, roomId.value, sid);
      }
      players := players[sid := players[sid].(room := None, startTime := None, finishTime := None)];
      lobby := SetAdd(lobby, sid);
      events := events + [LobbyUpdate(LobbyPlayersOf(lobby, players))];
    }

    method Disconnect(sid: Id)
      modifies this
      ensures State() == Session.Disconnect(old(State()), sid).tables
      ensures events == old(events) + Session.Disconnect(old(State()), sid).emitted
    {
      if sid !in players {
        return;
      }
      var player := players[sid];
      lobby := SetDelete(lobby, sid);
      if player.room.Some? && player.room.value in rooms {
        var rid := player.room.value;
        events := events + [PlayerLeft(rid, player.name)];
        rooms := rooms[rid := rooms[rid].(members := rooms[rid].members - {sid})];
        if rooms[rid].members == map[] {
          rooms := rooms - {rid};
        }
      }
      players := players - {sid};
      events := events + [LobbyUpdate(LobbyPlayersOf(lobby, players))];
    }
  }

  /** Two finishers against the class: X and Y race in one room, X then Y call `winGame`;
      the room ends with Y as winner and each registry score one higher. */
  method RaceTwoFinishes(s: Server, x: Id, y: Id, rid: Id, t1: int, t2: int)
    requires s.Valid()
    requires x != y && x in s.players && y in s.players
    requires s.players[x].room == Some(rid) && s.players[y].room == Some(rid)
    requires rid in s.rooms && x in s.rooms[rid].members && y in s.rooms[rid].members
    modifies s
    ensures s.Valid()
    ensures rid in s.rooms && x in s.players && y in s.players
    ensures s.rooms[rid].winner == Some(old(s.players[y].name))
    ensures s.players[x].score == old(s.players[x].score) + 1
    ensures s.players[y].score == old(s.players[y].score) + 1
  {
    SessionLaws.SecondWinOverwritesWinner(s.State(), x, y, rid, t1, t2);
    SessionLaws.WinGameKeepsInv(s.State(), x, t1);
    s.WinGame(x, t1);
    SessionLaws.WinGameKeepsInv(s.State(), y, t2);
    s.WinGame(y, t2);
  }
}
