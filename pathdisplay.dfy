/** The shortest-path panel: each path segment becomes a pair of display labels, the
    segments without two labels are dropped, and a pair is shown only while it brings a
    name not shown before. */
module PathDisplay {
  import opened Optional
  import opened Seqs
  import opened JsText

  /** A graph node as the path query returns it: its labels and the two properties the
      panel reads. */
  datatype PathNode = PathNode(labels: seq<string>, name: Option<string>, title: Option<string>)

  /** One path segment; either end may be missing. */
  datatype Segment = Segment(start: Option<PathNode>, end: Option<PathNode>)

  /** A displayed segment. */
  datatype Pair = Pair(start: string, end: string)

  /** `value?.trim() || null`: the trimmed property, unless it is missing or trims to "". */
  function TrimmedOrNull(value: Option<string>): (r: Option<string>)
    ensures r.Some? ==> value.Some? && r.value == Trim(value.value) && r.value != "" && Trim(r.value) == r.value
    ensures r.None? ==> value.None? || Trim(value.value) == ""
  {
    if value.Some? && Trim(value.value) != "" then
      TrimIdempotent(value.value);
      Some(Trim(value.value))
    else None
  }

  /** `getNodeLabel`: a Person shows its name, otherwise a Movie shows its title, anything
      else has no label. A Person whose name is missing or blank has no label even when it
      has a title. */
  function NodeLabel(node: Option<PathNode>): (r: Option<string>)
    ensures r.Some? ==> node.Some? && r.value != "" && Trim(r.value) == r.value
    ensures r.Some? && "Person" in node.value.labels ==> node.value.name.Some? && r.value == Trim(node.value.name.value)
    ensures r.Some? && "Person" !in node.value.labels ==>
              "Movie" in node.value.labels && node.value.title.Some? && r.value == Trim(node.value.title.value)
    ensures node.Some? && "Person" in node.value.labels && TrimmedOrNull(node.value.name).None? ==> r.None?
    ensures node.Some? && "Person" !in node.value.labels && "Movie" !in node.value.labels ==> r.None?
    ensures node.Some? && "Person" in node.value.labels && node.value.name.Some? && Trim(node.value.name.value) != "" ==>
              r == Some(Trim(node.value.name.value))
    ensures node.Some? && "Person" !in node.value.labels && "Movie" in node.value.labels
            && node.value.title.Some? && Trim(node.value.title.value) != "" ==>
              r == Some(Trim(node.value.title.value))
  {
    if node.None? then None
    else if "Person" in node.value.labels then TrimmedOrNull(node.value.name)
    else if "Movie" in node.value.labels then TrimmedOrNull(node.value.title)
    else None
  }

  /** The `map` step for one segment: its pair of labels, or `null` when either end has
      no label. */
  function SegmentPair(s: Segment): (r: Option<Pair>)
    ensures r.Some? <==> NodeLabel(s.start).Some? && NodeLabel(s.end).Some?
    ensures r.Some? ==> r.value == Pair(NodeLabel(s.start).value, NodeLabel(s.end).value)
  {
    var a, b := NodeLabel(s.start), NodeLabel(s.end);
    if a.Some? && b.Some? then Some(Pair(a.value, b.value)) else None
  }

  /** `.filter(Boolean)`: the pairs that are not `null`, in order. */
  function Present(opts: seq<Option<Pair>>): (r: seq<Pair>)
    ensures |r| <= |opts|
    ensures forall p :: p in r ==> Some(p) in opts
  {
    if opts == [] then []
    else
      var front, last := opts[..|opts| - 1], opts[|opts| - 1];
      assert forall o :: o in front ==> o in opts;
      if last.Some? then Present(front) + [last.value] else Present(front)
  }

  /** The filter works element by element: filtering a concatenation filters each part. */
  lemma {:induction false} PresentAppend(a: seq<Option<Pair>>, b: seq<Option<Pair>>)
    ensures Present(a + b) == Present(a) + Present(b)
    decreases |b|
  {
    if b == [] {
      assert a + b == a;
    } else {
      var b', x := b[..|b| - 1], b[|b| - 1];
      assert (a + b)[..|a + b| - 1] == a + b';
      PresentAppend(a, b');
    }
  }

  /** The `map` over all segments. */
  function SegmentPairs(nodes: seq<Segment>): seq<Option<Pair>>
  {
    seq(|nodes|, i requires 0 <= i < |nodes| => SegmentPair(nodes[i]))
  }

  /** `cleanedPath`: the labelled segments, in order, as pairs of labels. */
  function CleanedPath(nodes: seq<Segment>): (r: seq<Pair>)
    ensures |r| <= |nodes|
    ensures forall p :: p in r ==> p.start != "" && p.end != ""
  {
    var opts := SegmentPairs(nodes);
    assert forall o :: o in opts ==> o.Some? ==> o.value.start != "" && o.value.end != "";
    Present(opts)
  }

  /** Cleaning works segment by segment: cleaning a concatenation cleans each part. */
  lemma CleanedPathAppend(a: seq<Segment>, b: seq<Segment>)
    ensures CleanedPath(a + b) == CleanedPath(a) + CleanedPath(b)
  {
    assert SegmentPairs(a + b) == SegmentPairs(a) + SegmentPairs(b);
    PresentAppend(SegmentPairs(a), SegmentPairs(b));
  }

  /** A single segment is kept, as the pair of its labels, exactly when both of its ends
      have a label. */
  lemma CleanedPathSingle(s: Segment)
    ensures NodeLabel(s.start).Some? && NodeLabel(s.end).Some? ==>
              CleanedPath([s]) == [Pair(NodeLabel(s.start).value, NodeLabel(s.end).value)]
    ensures NodeLabel(s.start).None? || NodeLabel(s.end).None? ==> CleanedPath([s]) == []
  {
    assert SegmentPairs([s]) == [SegmentPair(s)];
    assert SegmentPairs([s])[..0] == [];
  }

  /** Every name on a list of pairs. */
  function Names(pairs: seq<Pair>): (r: set<string>)
    ensures forall p :: p in pairs ==> p.start in r && p.end in r
    ensures forall n :: n in r ==> exists p :: p in pairs && (n == p.start || n == p.end)
  {
    if pairs == [] then {}
    else
      var front, last := pairs[..|pairs| - 1], pairs[|pairs| - 1];
      assert forall p :: p in pairs <==> p in front || p == last;
      Names(front) + {last.start, last.end}
  }

  /** The reference for the dedup loop: a pair is kept exactly when its start or its end
      is not a name of an earlier pair, kept or not. */
  function UniquePairsOf(pairs: seq<Pair>): seq<Pair>
  {
    if pairs == [] then []
    else
      var front, last := pairs[..|pairs| - 1], pairs[|pairs| - 1];
      if last.start !in Names(front) || last.end !in Names(front)
      then UniquePairsOf(front) + [last]
      else UniquePairsOf(front)
  }

  /** The `seenNames`/`uniquePairs` loop. `seen` only grows from kept pairs, yet it always
      holds every name met so far, because a pair is skipped only when both of its names
      are already in it. */
  method UniquePairs(cleaned: seq<Pair>) returns (unique: seq<Pair>)
    ensures unique == UniquePairsOf(cleaned)
    ensures Subseq(unique, cleaned)
    ensures |cleaned| > 0 ==> |unique| > 0 && unique[0] == cleaned[0]
    ensures Names(unique) == Names(cleaned)
  {
    var seen: set<string> := {};
    unique := [];
    var i := 0;
    while i < |cleaned|
      invariant 0 <= i <= |cleaned|
      invariant unique == UniquePairsOf(cleaned[..i])
      invariant seen == Names(cleaned[..i])
    {
      var pair := cleaned[i];
      assert cleaned[..i + 1][..i] == cleaned[..i];
      if pair.start !in seen || pair.end !in seen {
        unique := unique + [pair];
        seen := seen + {pair.start};
        seen := seen + {pair.end};
      }
      i := i + 1;
    }
    assert cleaned[..i] == cleaned;
    UniqueIsSubseq(cleaned);
    if |cleaned| > 0 {
      UniqueKeepsFirst(cleaned);
    }
    UniqueKeepsNames(cleaned);
  }

  /** The kept pairs are the input with some pairs deleted, in the input's order. */
  lemma {:induction false} UniqueIsSubseq(pairs: seq<Pair>)
    ensures Subseq(UniquePairsOf(pairs), pairs)
    decreases |pairs|
  {
    if pairs == [] {
      SubseqEmpty(pairs);
    } else {
      var front, last := pairs[..|pairs| - 1], pairs[|pairs| - 1];
      assert pairs == front + [last];
      UniqueIsSubseq(front);
      if last.start !in Names(front) || last.end !in Names(front) {
        SubseqAppendBoth(UniquePairsOf(front), front, last);
      } else {
        SubseqAppendRight(UniquePairsOf(front), front, last);
      }
    }
  }

  /** The first pair is always kept: nothing was seen before it. */
  lemma {:induction false} UniqueKeepsFirst(pairs: seq<Pair>)
    requires |pairs| > 0
    ensures |UniquePairsOf(pairs)| > 0 && UniquePairsOf(pairs)[0] == pairs[0]
    decreases |pairs|
  {
    var front, last := pairs[..|pairs| - 1], pairs[|pairs| - 1];
    if |pairs| > 1 {
      UniqueKeepsFirst(front);
    } else {
      assert front == [];
    }
  }

  /** Dropping a pair loses no name: the kept pairs show every name of the input. */
  lemma {:induction false} UniqueKeepsNames(pairs: seq<Pair>)
    ensures Names(UniquePairsOf(pairs)) == Names(pairs)
    decreases |pairs|
  {
    if pairs != [] {
      var front, last := pairs[..|pairs| - 1], pairs[|pairs| - 1];
      UniqueKeepsNames(front);
      var kept := UniquePairsOf(front);
      if last.start !in Names(front) || last.end !in Names(front) {
        assert (kept + [last])[..|kept|] == kept;
      }
    }
  }
}
