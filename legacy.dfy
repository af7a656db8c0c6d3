/** The earlier, smaller socket server (vite-ts/src/server.ts): one `players` map keyed by
    connection id, whose records the handlers update in place, and a "fastest finisher"
    check when a player wins. */
module Legacy {
  import opened Optional

  type Id = string

  datatype Player = Player(id: Id, name: string, score: nat, startTime: Option<int>, finishTime: Option<int>)

  /** What the server emits: `playerInfo` to the connection, `playersUpdated` (the registry's
      records) to everyone, and the `incrementScore` request back to the connection. */
  datatype Event =
    | PlayerInfo(infoTo: Id, info: Player)
    | PlayersUpdated(registry: map<Id, Player>)
    | IncrementScoreRequest(requestTo: Id)

  /** JavaScript truthiness of an optional timestamp: unset and 0 are both false. */
  predicate IsSet(time: Option<int>) {
    time.Some? && time.value != 0
  }

  /** A record that finished also has a start time. */
  predicate Timed(p: Player) {
    p.finishTime.Some? ==> p.startTime.Some?
  }

  /** The smallest element, `Math.min(...xs)` on a non-empty list. */
  function Min(xs: seq<int>): (m: int)
    requires |xs| > 0
    ensures m in xs
    ensures forall x :: x in xs ==> m <= x
  {
    if |xs| == 1 then xs[0]
    else
      var rest := Min(xs[1..]);
      assert forall x :: x in xs ==> x == xs[0] || x in xs[1..];
      if xs[0] <= rest then xs[0] else rest
  }

  /** `otherTimes.length === 0 || duration < Math.min(...otherTimes)`. */
  function IsFastest(duration: int, otherTimes: seq<int>): (b: bool)
    ensures b <==> forall o :: o in otherTimes ==> duration < o
  {
    if |otherTimes| == 0 then true
    else
      var m := Min(otherTimes);
      duration < m
  }

  /** A record that enters `otherTimes`: it has a truthy finish time and another id. */
  predicate OtherFinisher(p: Player, sid: Id) {
    IsSet(p.finishTime) && p.id != sid
  }

  /** `p.finishTime! - p.startTime!` for a timed record that finished. */
  function Duration(p: Player): int
    requires Timed(p) && p.finishTime.Some?
  {
    p.finishTime.value - p.startTime.value
  }

  /** The durations of the other finished players, in the order of `entries`: the
      filter on a truthy finish time and a different id, then the map to finish minus start. */
  function OtherTimes(entries: seq<Player>, sid: Id): (r: seq<int>)
    requires forall p :: p in entries ==> Timed(p)
    ensures |r| <= |entries|
    ensures forall p :: p in entries && OtherFinisher(p, sid) ==> Duration(p) in r
    ensures forall d :: d in r ==> exists p :: p in entries && OtherFinisher(p, sid) && d == Duration(p)
  {
    if |entries| == 0 then []
    else
      var last := entries[|entries| - 1];
      var front := entries[..|entries| - 1];
      assert forall p :: p in entries <==> p in front || p == last;
      var rest := OtherTimes(front, sid);
      if OtherFinisher(last, sid) then rest + [Duration(last)] else rest
  }

  class Registry {
    var players: map<Id, Player>
    /** Everything emitted so far. */
    var events: seq<Event>

    /** Every record is stored under its own id and has a start time once it finished. */
    ghost predicate Valid()
      reads this
    {
      forall id :: id in players ==> players[id].id == id && Timed(players[id])
    }

    constructor ()
      ensures Valid() && players == map[] && events == []
    {
      players := map[];
      events := [];
    }

    /** The `connection` handler: a record with score 0 and no timestamps under the
        connection id. `name` stands for the random `Player_<n>` name. */
    method Connect(sid: Id, name: string)
      requires Valid()
      modifies this
      ensures Valid()
      ensures players == old(players)[sid := Player(sid, name, 0, None, None)]
      ensures events == old(events) + [PlayerInfo(sid, players[sid]), PlayersUpdated(players)]
    {
      var player := Player(sid, name, 0, None, None);
      players := players[sid := player];
      events := events + [PlayerInfo(sid, player)];
      events := events + [PlayersUpdated(players)];
    }

    /** `incrementScore`: the caller's score goes up by exactly one; nothing else changes. */
    method IncrementScore(sid: Id)
      requires Valid()
      modifies this
      ensures Valid()
      ensures sid !in old(players) ==> players == old(players) && events == old(events)
      ensures sid in old(players) ==>
                && players.Keys == old(players).Keys
                && players[sid].score == old(players)[sid].score + 1
                && players[sid] == old(players)[sid].(score := players[sid].score)
                && (forall id :: id in old(players) && id != sid ==> players[id] == old(players)[id])
                && events == old(events) + [PlayersUpdated(players)]
    {
      if sid in players {
        var player := players[sid];
        player := player.(score := player.score + 1);
        players := players[sid := player];
        events := events + [PlayersUpdated(players)];
      }
    }

    /** `resetScore`: the caller's score becomes 0; nothing else changes. */
    method ResetScore(sid: Id)
      requires Valid()
      modifies this
      ensures Valid()
      ensures sid !in old(players) ==> players == old(players) && events == old(events)
      ensures sid in old(players) ==>
                && players.Keys == old(players).Keys
                && players[sid] == old(players)[sid].(score := 0)
                && (forall id :: id in old(players) && id != sid ==> players[id] == old(players)[id])
                && events == old(events) + [PlayersUpdated(players)]
    {
      if sid in players {
        players := players[sid := players[sid].(score := 0)];
        events := events + [PlayersUpdated(players)];
      }
    }

    /** `startGame`: the caller's start time becomes `now`, replacing any earlier one. */
    method StartGame(sid: Id, now: int)
      requires Valid()
      modifies this
      ensures Valid()
      ensures sid !in old(players) ==> players == old(players) && events == old(events)
      ensures sid in old(players) ==>
                && players.Keys == old(players).Keys
                && players[sid] == old(players)[sid].(startTime := Some(now))
                && (forall id :: id in old(players) && id != sid ==> players[id] == old(players)[id])
                && events == old(events) + [PlayersUpdated(players)]
    {
      if sid in players {
        players := players[sid := players[sid].(startTime := Some(now))];
        events := events + [PlayersUpdated(players)];
      }
    }

    /** `winGame`: only a caller with a (truthy) start time finishes. The list of other
        finish durations is taken from `Object.values` of the Map object, which has no own
        enumerable entries, so it is always empty and every finisher is told it is the
        fastest. */
    method WinGame(sid: Id, now: int)
      requires Valid()
      modifies this
      ensures Valid()
      ensures !(sid in old(players) && IsSet(old(players)[sid].startTime)) ==>
                players == old(players) && events == old(events)
      ensures sid in old(players) && IsSet(old(players)[sid].startTime) ==>
                && players == old(players)[sid := old(players)[sid].(finishTime := Some(now))]
                && events == old(events) + [PlayersUpdated(players), IncrementScoreRequest(sid)]
    {
      if sid in players && IsSet(players[sid].startTime) {
        var player := players[sid].(finishTime := Some(now));
        players := players[sid := player];
        events := events + [PlayersUpdated(players)];
        var duration := player.finishTime.value - player.startTime.value;
        var otherTimes := OtherTimes([], sid);
        var isFastest := IsFastest(duration, otherTimes);
        if isFastest {
          events := events + [IncrementScoreRequest(sid)];
        }
      }
    }

    /** `disconnect`: exactly the caller's record is removed. */
    method Disconnect(sid: Id)
      requires Valid()
      modifies this
      ensures Valid()
      ensures players == old(players) - {sid}
      ensures events == old(events) + [PlayersUpdated(players)]
    {
      players := players - {sid};
      events := events + [PlayersUpdated(players)];
    }
  }

  /** Were the other finishers listed, a winner would be fastest exactly when every other
      listed finisher took strictly longer. */
  lemma {:induction false} FastestAmongListed(entries: seq<Player>, sid: Id, duration: int)
    requires forall p :: p in entries ==> Timed(p)
    ensures IsFastest(duration, OtherTimes(entries, sid)) <==>
              forall p :: p in entries && OtherFinisher(p, sid) ==> duration < Duration(p)
  {
    var r := OtherTimes(entries, sid);
    if !IsFastest(duration, r) {
      var o :| o in r && duration >= o;
      var p :| p in entries && OtherFinisher(p, sid) && o == Duration(p);
    }
  }

  /** Two players start and finish one after the other: both are told they are the fastest,
      even when the second took longer. */
  method SlowerSecondFinisher(r: Registry, x: Id, y: Id, s1: int, s2: int, f1: int, f2: int)
    requires r.Valid() && x != y && x in r.players && y in r.players
    requires s1 != 0 && s2 != 0 && f2 - s2 > f1 - s1
    modifies r
    ensures r.Valid()
    ensures |r.events| == |old(r.events)| + 6
    ensures r.events[|r.events| - 1] == IncrementScoreRequest(y)
    ensures r.events[|old(r.events)| + 3] == IncrementScoreRequest(x)
  {
    r.StartGame(x, s1);
    r.StartGame(y, s2);
    r.WinGame(x, f1);
    r.WinGame(y, f2);
  }
}
