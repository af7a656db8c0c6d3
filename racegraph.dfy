/** The race board of the current front end (vite-ts/src/frontend/components/Graph.tsx):
    the difficulty banner, the hint list that loses one off-path name per tick, the actor
    names read off the shortest path, and the guess step that grows the board. */
module RaceGraph {
  import opened Optional
  import opened Seqs
  import opened GraphNodes

  // ---------------------------------------------------------------------------
  // Difficulty banner

  const HardMessage := "No restrictions on starting actors, no matter how obscure!"
  const EasyMessage := "Only the most popular actors are chosen for the starting two!"

  datatype Banner = Banner(color: string, message: string)

  /** `difficultyMessage` and `difficultyColor`: only the exact value "hard" is hard. */
  function DifficultyBanner(difficulty: string): (b: Banner)
    ensures b.color == "red" <==> difficulty == "hard"
    ensures b.color == "green" <==> difficulty != "hard"
    ensures b.message == HardMessage <==> b.color == "red"
    ensures b.message == EasyMessage <==> b.color == "green"
  {
    var message := if difficulty == "hard" then HardMessage else EasyMessage;
    var color := if difficulty == "hard" then "red" else "green";
    Banner(color, message)
  }

  // ---------------------------------------------------------------------------
  // Hint pruning

  /** `prev.find((n) => !pathNodes.includes(n))`: the first hint off the path. */
  function FirstOffPath(hints: seq<string>, path: seq<string>): (r: Option<string>)
    ensures r.None? <==> forall h :: h in hints ==> h in path
    ensures r.Some? ==> r.value in hints && r.value !in path
    ensures r.Some? ==> exists i :: 0 <= i < |hints| && hints[i] == r.value && forall j :: 0 <= j < i ==> hints[j] in path
  {
    if hints == [] then None
    else if hints[0] !in path then Some(hints[0])
    else
      var r := FirstOffPath(hints[1..], path);
      assert forall h :: h in hints ==> h == hints[0] || h in hints[1..];
      if r.Some? then
        var i :| 0 <= i < |hints[1..]| && hints[1..][i] == r.value && forall j :: 0 <= j < i ==> hints[1..][j] in path;
        assert hints[i + 1] == r.value;
        r
      else r
  }

  /** `prev.filter((n) => n !== removable)`. */
  function Without(hints: seq<string>, x: string): (r: seq<string>)
    ensures x !in r
    ensures forall y :: y != x ==> multiset(r)[y] == multiset(hints)[y]
    ensures Subseq(r, hints)
    ensures x in hints ==> |r| < |hints|
  {
    if hints == [] then []
    else
      var front, last := hints[..|hints| - 1], hints[|hints| - 1];
      var rest := Without(front, x);
      assert hints == front + [last];
      SubseqLength(rest, front);
      if last == x then
        SubseqAppendRight(rest, front, last);
        rest
      else
        SubseqAppendBoth(rest, front, last);
        rest + [last]
  }

  /** One tick: the new hint list, and whether the interval is cleared. */
  datatype Pruned = Pruned(hints: seq<string>, stop: bool)

  /** One tick of the hint interval: the first off-path hint is removed, every copy of it,
      unless there is none or it is the empty string, which stops the interval. */
  function PruneHints(hints: seq<string>, path: seq<string>): (r: Pruned)
    ensures r.stop <==> FirstOffPath(hints, path) == None || FirstOffPath(hints, path) == Some("")
    ensures r.stop ==> r.hints == hints
    ensures Subseq(r.hints, hints)
    ensures forall h :: h in path ==> multiset(r.hints)[h] == multiset(hints)[h]
    ensures !r.stop ==> |r.hints| < |hints| && FirstOffPath(hints, path).value !in r.hints
    ensures !r.stop ==> forall h :: h != FirstOffPath(hints, path).value ==> multiset(r.hints)[h] == multiset(hints)[h]
  {
    var removable := FirstOffPath(hints, path);
    if removable.None? || removable.value == "" then
      SubseqReflexive(hints);
      Pruned(hints, true)
    else
      Pruned(Without(hints, removable.value), false)
  }

  /** Every list is a subsequence of itself. */
  lemma {:induction false} SubseqReflexive<T>(s: seq<T>)
    ensures Subseq(s, s)
    decreases |s|
  {
    if s != [] {
      SubseqReflexive(s[..|s| - 1]);
      SubseqAppendBoth(s[..|s| - 1], s[..|s| - 1], s[|s| - 1]);
      assert s[..|s| - 1] + [s[|s| - 1]] == s;
    }
  }

  /** The ticks of one interval: pruning until it stops, which takes at most one tick per
      hint plus the stopping tick. */
  function PruneUntilStop(hints: seq<string>, path: seq<string>): (r: seq<string>)
    ensures FirstOffPath(r, path) == None || FirstOffPath(r, path) == Some("")
    ensures forall h :: h in path ==> multiset(r)[h] == multiset(hints)[h]
    decreases |hints|
  {
    var step := PruneHints(hints, path);
    if step.stop then hints else PruneUntilStop(step.hints, path)
  }

  /** Once the interval stops, every remaining hint is on the path, unless an empty hint
      came first: the `[""]` placeholder is never pruned. */
  lemma {:induction false} PruneEndsOnPath(hints: seq<string>, path: seq<string>)
    requires "" !in hints
    ensures forall h :: h in PruneUntilStop(hints, path) ==> h in path
    decreases |hints|
  {
    var step := PruneHints(hints, path);
    if !step.stop {
      SubseqMembers(step.hints, hints);
      PruneEndsOnPath(step.hints, path);
    }
  }

  /** The placeholder list `[""]` stops the interval on its first tick, unchanged. */
  lemma PlaceholderStops(path: seq<string>)
    requires "" !in path
    ensures PruneHints([""], path) == Pruned([""], true)
  {
    assert FirstOffPath([""], path) == Some("");
  }

  // ---------------------------------------------------------------------------
  // Actor names along the shortest path

  /** A path segment as far as `handlePathDisplay` reads it: the `name` property of its
      start and end nodes, absent on movie nodes. */
  datatype PathSegment = PathSegment(startName: Option<string>, endName: Option<string>)

  /** The name the loop pushes for segment `i`. */
  function ActorAt(segments: seq<PathSegment>, i: nat): Option<string>
    requires i < |segments|
  {
    if i % 2 == 0 then segments[i].startName else segments[i].endName
  }

  /** The loop in `handlePathDisplay` that builds `pathActors`. */
  method PathActors(segments: seq<PathSegment>) returns (pathActors: seq<Option<string>>)
    ensures |pathActors| == |segments|
    ensures forall i :: 0 <= i < |segments| ==> pathActors[i] == ActorAt(segments, i)
  {
    pathActors := [];
    var shortestPathActor: Option<string> := Some("");
    for i := 0 to |segments|
      invariant |pathActors| == i
      invariant forall k :: 0 <= k < i ==> pathActors[k] == ActorAt(segments, k)
    {
      if i % 2 == 0 {
        shortestPathActor := segments[i].startName;
      } else {
        shortestPathActor := segments[i].endName;
      }
      pathActors := pathActors + [shortestPathActor];
    }
  }

  /** Each segment starts where the previous one ends. */
  predicate Contiguous(segments: seq<PathSegment>) {
    forall i :: 0 <= i < |segments| - 1 ==> segments[i].endName == segments[i + 1].startName
  }

  /** The name of node `j` of the path: node `j` starts segment `j`, the last node ends
      the last segment. */
  function PathNodeName(segments: seq<PathSegment>, j: nat): Option<string>
    requires 0 < |segments| && j <= |segments|
  {
    if j < |segments| then segments[j].startName else segments[|segments| - 1].endName
  }

  /** On a contiguous path the loop lists the even-numbered path nodes (the actors of a
      path that alternates actor, movie, actor), each inner actor twice, and the last
      node when the path has an even number of segments. */
  /** The path state holds the names `PathActors` produced, some of them undefined; the hint
      interval's `pathNodes.includes(n)` with a string `n` never matches an undefined entry, so the
      path `HintTick` checks against is the defined names, in order. */
  function PathNames(pathActors: seq<Option<string>>): (r: seq<string>)
    ensures forall h :: h in r <==> Some(h) in pathActors
    ensures |r| <= |pathActors|
  {
    if pathActors == [] then []
    else
      var front, last := pathActors[..|pathActors| - 1], pathActors[|pathActors| - 1];
      assert pathActors == front + [last];
      if last.Some? then PathNames(front) + [last.value] else PathNames(front)
  }

  lemma PathActorsOnPath(segments: seq<PathSegment>)
    requires 0 < |segments| && Contiguous(segments)
    ensures forall i :: 0 <= i < |segments| ==> ActorAt(segments, i) == PathNodeName(segments, i + i % 2)
    ensures forall i :: 0 <= i && i + 1 < |segments| && i % 2 == 1 ==> ActorAt(segments, i) == ActorAt(segments, i + 1)
    ensures |segments| % 2 == 0 ==> ActorAt(segments, |segments| - 1) == PathNodeName(segments, |segments|)
  {
    forall i | 0 <= i < |segments|
      ensures ActorAt(segments, i) == PathNodeName(segments, i + i % 2)
    {
      if i % 2 == 1 && i + 1 < |segments| {
        assert segments[i].endName == segments[i + 1].startName;
      }
    }
  }

  // ---------------------------------------------------------------------------
  // The board

  /** A start or destination actor as the room supplies them. */
  datatype Actor = Actor(id: string, name: string)

  /** What the board sends to the server. */
  datatype Request = StartGameRequest | WinGameRequest

  /** The connected nodes `search` walks: one node per record, duplicates by id removed. */
  function ConnectedOf(records: seq<PersonRecord>): seq<FlowNode>
  {
    TrimDuplicateNodes(RecordNodes(records))
  }

  /** The component's graph state. */
  class RaceBoard {
    var nodes: seq<FlowNode>
    var edges: seq<Edge>
    var hints: seq<string>
    var currentName: Option<string>
    var currentId: Option<string>
    var destName: Option<string>
    var destId: Option<string>
    /** Everything sent to the server so far. */
    var requests: seq<Request>

    constructor ()
      ensures nodes == [] && edges == [] && hints == []
      ensures currentName == None && currentId == None && destName == None && destId == None
      ensures requests == []
    {
      nodes, edges, hints := [], [], [];
      currentName, currentId, destName, destId := None, None, None, None;
      requests := [];
    }

    /** `resetNodes`: the board and the hints become empty. */
    method ResetNodes()
      modifies this
      ensures nodes == [] && edges == [] && hints == []
      ensures currentName == old(currentName) && currentId == old(currentId)
      ensures destName == old(destName) && destId == old(destId) && requests == old(requests)
    {
      nodes := [];
      edges := [];
      hints := [];
    }

    /** `startGame`, up to the path and hint queries. The node list is extended from the
        value the handler captured before its own reset, so on a board that already held
        nodes they stay. */
    method StartGame(first: Actor, last: Actor)
      modifies this
      ensures nodes == old(nodes) + [FlowNode(first.id, first.name, None), FlowNode(last.id, last.name, None)]
      ensures edges == [] && hints == []
      ensures currentName == Some(first.name) && currentId == Some(first.id)
      ensures destName == Some(last.name) && destId == Some(last.id)
      ensures requests == old(requests) + [StartGameRequest]
    {
      var captured := nodes;
      nodes, edges := [], [];
      currentName, destName, currentId := Some(""), Some(""), Some("");
      ResetNodes();
      var startingActorNode := FlowNode(first.id, first.name, None);
      var lastActorNode := FlowNode(last.id, last.name, None);
      nodes := captured + [startingActorNode, lastActorNode];
      currentName := Some(first.name);
      currentId := Some(first.id);
      destName := Some(last.name);
      destId := Some(last.id);
      requests := requests + [StartGameRequest];
    }

    /** `search` with `records` the answer to the connected-actors query (absent when the
        query returned nothing). It acts on the first connected node labelled `query`:
        the destination's label wins the round, any other label grows the board by that
        node and one edge from the current node. Nothing changes without a current name,
        without records, on an empty board (reading the first node's position throws) or
        without a match. */
    method Search(query: string, records: Option<seq<PersonRecord>>)
      modifies this
      ensures old(currentName).None? || records.None? || old(nodes) == []
              || FirstLabelIndex(ConnectedOf(records.value), query).None? ==>
                unchanged(this)
      ensures old(currentName).Some? && records.Some? && old(nodes) != []
              && FirstLabelIndex(ConnectedOf(records.value), query).Some? ==>
                var n := ConnectedOf(records.value)[FirstLabelIndex(ConnectedOf(records.value), query).value];
                var from := Template(old(currentId));
                && currentName == Some(n.nodeLabel) && currentId == Some(n.id)
                && destName == old(destName) && destId == old(destId)
                && (old(destName) == Some(n.nodeLabel) ==>
                      && edges == old(edges) + [Edge(EdgeId(from, Template(old(destId))), from, Template(old(destId)), Some(Template(n.movie)))]
                      && nodes == old(nodes) && hints == []
                      && requests == old(requests) + [WinGameRequest])
                && (old(destName) != Some(n.nodeLabel) ==>
                      && edges == old(edges) + [Edge(EdgeId(from, n.id), from, n.id, Some(Template(n.movie)))]
                      && nodes == old(nodes) + [n] && hints == old(hints)
                      && requests == old(requests))
    {
      if currentName.None? || records.None? || nodes == [] {
        return;
      }
      var connected := ConnectedNodes(records.value);
      var found := FindFirstLabel(connected, query);
      if found.None? {
        return;
      }
      Guessed(connected[found.value]);
    }

    /** The body of `search` once `newNode` matched: it becomes the current node; its
        label is the destination's and wins the round, or the node joins the board with
        an edge from the previous current node. */
    method Guessed(newNode: FlowNode)
      modifies this
      ensures var from := Template(old(currentId));
              && currentName == Some(newNode.nodeLabel) && currentId == Some(newNode.id)
              && destName == old(destName) && destId == old(destId)
              && (old(destName) == Some(newNode.nodeLabel) ==>
                    && edges == old(edges) + [Edge(EdgeId(from, Template(old(destId))), from, Template(old(destId)), Some(Template(newNode.movie)))]
                    && nodes == old(nodes) && hints == []
                    && requests == old(requests) + [WinGameRequest])
              && (old(destName) != Some(newNode.nodeLabel) ==>
                    && edges == old(edges) + [Edge(EdgeId(from, newNode.id), from, newNode.id, Some(Template(newNode.movie)))]
                    && nodes == old(nodes) + [newNode] && hints == old(hints)
                    && requests == old(requests))
    {
      var from := Template(currentId);
      currentName := Some(newNode.nodeLabel);
      currentId := Some(newNode.id);
      if Some(newNode.nodeLabel) == destName {
        var edge := Edge(EdgeId(from, Template(destId)), from, Template(destId), Some(Template(newNode.movie)));
        hints := [];
        edges := edges + [edge];
        requests := requests + [WinGameRequest];
        return;
      }
      var edge := Edge(EdgeId(from, newNode.id), from, newNode.id, Some(Template(newNode.movie)));
      edges := edges + [edge];
      nodes := nodes + [newNode];
    }

    /** One tick of the hint interval, with `pathNodes` the current path actors. */
    /** `pathNodes` is the path state as the interval sees it: `PathNames` of what `PathActors` stored. */
    method HintTick(pathNodes: seq<string>) returns (stop: bool)
      modifies this
      ensures hints == PruneHints(old(hints), pathNodes).hints
      ensures stop == PruneHints(old(hints), pathNodes).stop
      ensures nodes == old(nodes) && edges == old(edges) && requests == old(requests)
      ensures currentName == old(currentName) && currentId == old(currentId)
      ensures destName == old(destName) && destId == old(destId)
    {
      var step := PruneHints(hints, pathNodes);
      hints := step.hints;
      stop := step.stop;
    }
  }
}
