/** What both race-graph components share: graph nodes and edges, the de-duplication of
    nodes by id, the turn from database records into nodes, and the search for the first
    node whose label equals a guess. */
module GraphNodes {
  import opened Optional
  import opened Seqs

  /** A graph node: its id and the `label` (`nodeLabel`) and optional `movie` of its data. */
  datatype FlowNode = FlowNode(id: string, nodeLabel: string, movie: Option<string>)

  /** A graph edge; `edgeLabel` is absent on the old board's initial edge. */
  datatype Edge = Edge(id: string, source: string, target: string, edgeLabel: Option<string>)

  /** A connected-actor record from the graph database, its id already turned to text. */
  datatype PersonRecord = PersonRecord(id: string, name: string, movie: string)

  /** A JavaScript template literal's rendering of an optional string. */
  function Template(s: Option<string>): string {
    if s.Some? then s.value else "undefined"
  }

  /** The edge id `e<from>-<to>`. */
  function EdgeId(from: string, to: string): string {
    "e" + from + "-" + to
  }

  /** Some node of `nodes` has id `id`: the `find` in the de-duplication. */
  predicate HasId(nodes: seq<FlowNode>, id: string) {
    exists i :: 0 <= i < |nodes| && nodes[i].id == id
  }

  /** The first node of `nodes` with id `id`, if there is one. */
  function FirstWithId(nodes: seq<FlowNode>, id: string): (r: Option<FlowNode>)
    ensures r.Some? ==> r.value in nodes && r.value.id == id
    ensures r.None? <==> !HasId(nodes, id)
    ensures r.Some? ==> exists i :: 0 <= i < |nodes| && nodes[i] == r.value && forall j :: 0 <= j < i ==> nodes[j].id != id
  {
    if nodes == [] then None
    else
      var front, last := nodes[..|nodes| - 1], nodes[|nodes| - 1];
      var r := FirstWithId(front, id);
      assert forall i :: 0 <= i < |front| ==> front[i] == nodes[i];
      if r.Some? then r else if last.id == id then Some(last) else None
  }

  /** No two nodes share an id. */
  ghost predicate DistinctIds(nodes: seq<FlowNode>) {
    forall i, j :: 0 <= i < j < |nodes| ==> nodes[i].id != nodes[j].id
  }

  /** `trimDuplicateNodes`: the `reduce` that concatenates each node whose id the
      accumulator does not hold yet. */
  function TrimDuplicateNodes(nodes: seq<FlowNode>): (r: seq<FlowNode>)
    ensures DistinctIds(r)
  {
    if nodes == [] then []
    else
      var front, last := nodes[..|nodes| - 1], nodes[|nodes| - 1];
      var acc := TrimDuplicateNodes(front);
      if HasId(acc, last.id) then acc
      else
        DistinctAppend(acc, last);
        acc + [last]
  }

  /** The kept nodes are the input with some nodes deleted, in the input's order. */
  lemma {:induction false} TrimIsSubseq(nodes: seq<FlowNode>)
    ensures Subseq(TrimDuplicateNodes(nodes), nodes)
    decreases |nodes|
  {
    if nodes == [] {
      SubseqEmpty(nodes);
    } else {
      var front, last := nodes[..|nodes| - 1], nodes[|nodes| - 1];
      TrimIsSubseq(front);
      var acc := TrimDuplicateNodes(front);
      assert nodes == front + [last];
      if HasId(acc, last.id) {
        SubseqAppendRight(acc, front, last);
      } else {
        SubseqAppendBoth(acc, front, last);
      }
    }
  }

  /** Appending a node with a new id keeps the ids distinct. */
  lemma DistinctAppend(nodes: seq<FlowNode>, n: FlowNode)
    requires DistinctIds(nodes) && !HasId(nodes, n.id)
    ensures DistinctIds(nodes + [n])
  {
    var r := nodes + [n];
    assert forall i :: 0 <= i < |nodes| ==> r[i] == nodes[i];
  }

  /** No id is lost: every id of the input is the id of some kept node. */
  lemma {:induction false} TrimKeepsIds(nodes: seq<FlowNode>)
    ensures forall i :: 0 <= i < |nodes| ==> HasId(TrimDuplicateNodes(nodes), nodes[i].id)
    decreases |nodes|
  {
    if nodes != [] {
      var front, last := nodes[..|nodes| - 1], nodes[|nodes| - 1];
      TrimKeepsIds(front);
      var acc := TrimDuplicateNodes(front);
      var r := TrimDuplicateNodes(nodes);
      assert forall k :: 0 <= k < |acc| ==> r[k] == acc[k];
      forall i | 0 <= i < |nodes|
        ensures HasId(r, nodes[i].id)
      {
        if i < |front| {
          assert nodes[i] == front[i];
          var k :| 0 <= k < |acc| && acc[k].id == front[i].id;
          assert r[k].id == nodes[i].id;
        } else if !HasId(acc, last.id) {
          assert r[|acc|] == last;
        }
      }
    }
  }

  /** The kept nodes carry exactly the ids of the input. */
  lemma TrimSameIds(nodes: seq<FlowNode>)
    ensures forall id :: HasId(TrimDuplicateNodes(nodes), id) <==> HasId(nodes, id)
  {
    var r := TrimDuplicateNodes(nodes);
    TrimKeepsIds(nodes);
    TrimIsSubseq(nodes);
    SubseqMembers(r, nodes);
    forall id | HasId(r, id)
      ensures HasId(nodes, id)
    {
      var k :| 0 <= k < |r| && r[k].id == id;
      assert r[k] in nodes;
    }
  }

  /** Each kept node is the first node of the input with its id. */
  lemma {:induction false} TrimKeepsOnlyFirsts(nodes: seq<FlowNode>)
    ensures forall m :: m in TrimDuplicateNodes(nodes) ==> FirstWithId(nodes, m.id) == Some(m)
    decreases |nodes|
  {
    if nodes != [] {
      var front, last := nodes[..|nodes| - 1], nodes[|nodes| - 1];
      TrimKeepsOnlyFirsts(front);
      TrimSameIds(front);
      var acc := TrimDuplicateNodes(front);
      forall m | m in TrimDuplicateNodes(nodes)
        ensures FirstWithId(nodes, m.id) == Some(m)
      {
        if m !in acc {
          assert m == last && !HasId(front, last.id);
        }
      }
    }
  }

  /** The first node of the input with any given id is kept. */
  lemma {:induction false} TrimKeepsEveryFirst(nodes: seq<FlowNode>)
    ensures forall i :: 0 <= i < |nodes| ==> FirstWithId(nodes, nodes[i].id).value in TrimDuplicateNodes(nodes)
    decreases |nodes|
  {
    if nodes != [] {
      var front, last := nodes[..|nodes| - 1], nodes[|nodes| - 1];
      TrimKeepsEveryFirst(front);
      TrimSameIds(front);
      var acc := TrimDuplicateNodes(front);
      forall i | 0 <= i < |nodes|
        ensures FirstWithId(nodes, nodes[i].id).value in TrimDuplicateNodes(nodes)
      {
        if i < |front| {
          assert nodes[i] == front[i];
          assert HasId(front, front[i].id);
        } else if HasId(front, last.id) {
          var j :| 0 <= j < |front| && front[j].id == last.id;
          assert FirstWithId(front, front[j].id).value in acc;
        }
      }
    }
  }

  /** A trimmed list is never longer than its input. */
  lemma TrimLength(nodes: seq<FlowNode>)
    ensures |TrimDuplicateNodes(nodes)| <= |nodes|
  {
    TrimIsSubseq(nodes);
    SubseqLength(TrimDuplicateNodes(nodes), nodes);
  }

  /** A list whose ids are already distinct is left as it is. */
  lemma {:induction false} TrimDistinctUnchanged(nodes: seq<FlowNode>)
    requires DistinctIds(nodes)
    ensures TrimDuplicateNodes(nodes) == nodes
    decreases |nodes|
  {
    if nodes != [] {
      var front, last := nodes[..|nodes| - 1], nodes[|nodes| - 1];
      DistinctFront(nodes);
      TrimDistinctUnchanged(front);
      assert nodes == front + [last];
    }
  }

  /** Without its last node a list of distinct ids stays distinct, and the last id is new
      to the rest. */
  lemma DistinctFront(nodes: seq<FlowNode>)
    requires DistinctIds(nodes) && nodes != []
    ensures DistinctIds(nodes[..|nodes| - 1])
    ensures !HasId(nodes[..|nodes| - 1], nodes[|nodes| - 1].id)
  {
    var front, last := nodes[..|nodes| - 1], nodes[|nodes| - 1];
    assert forall i :: 0 <= i < |front| ==> front[i] == nodes[i];
    forall i | 0 <= i < |front|
      ensures front[i].id != last.id
    {
      assert front[i] == nodes[i];
    }
  }

  /** The node the loop builds from one record. */
  function RecordNode(r: PersonRecord): FlowNode {
    FlowNode(r.id, r.name, Some(r.movie))
  }

  /** One node per record, in order. */
  function RecordNodes(records: seq<PersonRecord>): (r: seq<FlowNode>)
    ensures |r| == |records| && forall i :: 0 <= i < |records| ==> r[i] == RecordNode(records[i])
  {
    if records == [] then [] else [RecordNode(records[0])] + RecordNodes(records[1..])
  }

  /** The loop that turns each record into a node, in order, then the de-duplication. */
  method ConnectedNodes(records: seq<PersonRecord>) returns (unique: seq<FlowNode>)
    ensures unique == TrimDuplicateNodes(RecordNodes(records))
    ensures DistinctIds(unique) && |unique| <= |records|
    ensures forall i :: 0 <= i < |records| ==> HasId(unique, records[i].id)
    ensures forall m :: m in unique ==> exists i :: 0 <= i < |records| && m == RecordNode(records[i])
  {
    var personNodes: seq<FlowNode> := [];
    for i := 0 to |records|
      invariant |personNodes| == i
      invariant forall k :: 0 <= k < i ==> personNodes[k] == RecordNode(records[k])
    {
      var person := FlowNode(records[i].id, records[i].name, Some(records[i].movie));
      personNodes := personNodes + [person];
    }
    assert personNodes == RecordNodes(records);
    unique := TrimDuplicateNodes(personNodes);
    TrimLength(personNodes);
    TrimKeepsIds(personNodes);
    TrimIsSubseq(personNodes);
    SubseqMembers(unique, personNodes);
    forall m | m in unique
      ensures exists i :: 0 <= i < |records| && m == RecordNode(records[i])
    {
      var k :| 0 <= k < |personNodes| && personNodes[k] == m;
    }
  }

  /** The index of the first node whose label is `query`. */
  function FirstLabelIndex(nodes: seq<FlowNode>, query: string): (r: Option<nat>)
    ensures r.Some? ==> r.value < |nodes| && nodes[r.value].nodeLabel == query
    ensures r.Some? ==> forall j :: 0 <= j < r.value ==> nodes[j].nodeLabel != query
    ensures r.None? ==> forall j :: 0 <= j < |nodes| ==> nodes[j].nodeLabel != query
  {
    if nodes == [] then None
    else if nodes[0].nodeLabel == query then Some(0)
    else
      var rest := FirstLabelIndex(nodes[1..], query);
      if rest.Some? then Some(rest.value + 1) else None
  }

  /** The `for` loop with `break` in `search`: stops at the first node labelled `query`. */
  method FindFirstLabel(nodes: seq<FlowNode>, query: string) returns (found: Option<nat>)
    ensures found == FirstLabelIndex(nodes, query)
  {
    found := None;
    var i := 0;
    while i < |nodes|
      invariant 0 <= i <= |nodes|
      invariant forall j :: 0 <= j < i ==> nodes[j].nodeLabel != query
    {
      if query == nodes[i].nodeLabel {
        found := Some(i);
        break;
      }
      i := i + 1;
    }
  }
}
