/** The first graph board (vite-ts/src/components/Graph.tsx): a guess adds the first
    connected actor with that name to the board, joined to the current actor by an edge
    labelled with their shared movie. */
module BoardGraph {
  import opened Optional
  import opened GraphNodes

  /** The board's two placeholder nodes and the edge between them. */
  const InitialNodes := [FlowNode("1", "Node 1", None), FlowNode("2", "Node 2", None)]
  const InitialEdges := [Edge("e1-2", "1", "2", None)]

  /** A random-actor record: the starting actor's id and name. */
  datatype StartRecord = StartRecord(id: string, name: string)

  class Board {
    var nodes: seq<FlowNode>
    var edges: seq<Edge>
    var currentName: Option<string>
    var currentId: Option<string>

    constructor ()
      ensures nodes == InitialNodes && edges == InitialEdges
      ensures currentName == None && currentId == None
    {
      nodes := InitialNodes;
      edges := InitialEdges;
      currentName, currentId := None, None;
    }

    /** `resetNodes`: both lists become empty; the current actor stays. */
    method ResetNodes()
      modifies this
      ensures nodes == [] && edges == []
      ensures currentName == old(currentName) && currentId == old(currentId)
    {
      nodes := [];
      edges := [];
    }

    /** `startGame` with `record` the first random-actor record, absent when the query
        returned nothing: the board is reset, then holds only the starting actor, which
        becomes the current one. */
    method StartGame(record: Option<StartRecord>)
      modifies this
      ensures record.None? ==> nodes == [] && edges == [] && currentName == old(currentName) && currentId == old(currentId)
      ensures record.Some? ==>
                && nodes == [FlowNode(record.value.id, record.value.name, None)] && edges == []
                && currentName == Some(record.value.name) && currentId == Some(record.value.id)
    {
      ResetNodes();
      if record.None? {
        return;
      }
      var startingActor := FlowNode(record.value.id, record.value.name, None);
      nodes := [startingActor];
      currentName := Some(record.value.name);
      currentId := Some(startingActor.id);
    }

    /** `search` with `records` the answer to the connected-actors query. The first
        connected node labelled `query` is appended, with one edge from the current node
        to it, and becomes the current node. Nothing changes without a current name,
        without records, on an empty board (reading the first node's position throws) or
        without a match. */
    method Search(query: string, records: Option<seq<PersonRecord>>)
      modifies this
      ensures old(currentName).None? || records.None? || old(nodes) == []
              || FirstLabelIndex(TrimDuplicateNodes(RecordNodes(records.value)), query).None? ==>
                unchanged(this)
      ensures old(currentName).Some? && records.Some? && old(nodes) != []
              && FirstLabelIndex(TrimDuplicateNodes(RecordNodes(records.value)), query).Some? ==>
                var connected := TrimDuplicateNodes(RecordNodes(records.value));
                var n := connected[FirstLabelIndex(connected, query).value];
                var from := Template(old(currentId));
                && nodes == old(nodes) + [n]
                && edges == old(edges) + [Edge(EdgeId(from, n.id), from, n.id, Some(Template(n.movie)))]
                && currentName == Some(n.nodeLabel) && currentId == Some(n.id)
    {
      if currentName.None? || records.None? || nodes == [] {
        return;
      }
      var connected := ConnectedNodes(records.value);
      var found := FindFirstLabel(connected, query);
      if found.None? {
        return;
      }
      var newNode := connected[found.value];
      var from := Template(currentId);
      var edge := Edge(EdgeId(from, newNode.id), from, newNode.id, Some(Template(newNode.movie)));
      nodes := nodes + [newNode];
      edges := edges + [edge];
      currentName := Some(newNode.nodeLabel);
      currentId := Some(newNode.id);
    }
  }

  /** Two guesses in a row chain up: the second edge starts where the first one ends. */
  method TwoGuesses(b: Board, q1: string, r1: seq<PersonRecord>, q2: string, r2: seq<PersonRecord>)
    requires b.currentName.Some? && b.nodes != []
    requires FirstLabelIndex(TrimDuplicateNodes(RecordNodes(r1)), q1).Some?
    requires FirstLabelIndex(TrimDuplicateNodes(RecordNodes(r2)), q2).Some?
    modifies b
    ensures |b.nodes| == |old(b.nodes)| + 2 && |b.edges| == |old(b.edges)| + 2
    ensures b.edges[|b.edges| - 1].source == b.edges[|b.edges| - 2].target
    ensures b.edges[|b.edges| - 2].target == b.nodes[|b.nodes| - 2].id
    ensures b.edges[|b.edges| - 1].target == b.nodes[|b.nodes| - 1].id
  {
    b.Search(q1, Some(r1));
    b.Search(q2, Some(r2));
  }
}
