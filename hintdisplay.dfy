/** The hint panel's text: the hint names in order, separated by ", ", with one trailing
    space. */
module HintDisplay {

  /** The summed lengths of the strings in `xs`. */
  function TotalLength(xs: seq<string>): nat
  {
    if xs == [] then 0 else TotalLength(xs[..|xs| - 1]) + |xs[|xs| - 1]|
  }

  /** The independent reference: `xs` joined with `sep` between neighbours. */
  function Join(xs: seq<string>, sep: string): (r: string)
    requires |xs| > 0
    ensures |r| == TotalLength(xs) + |sep| * (|xs| - 1)
    ensures |xs[0]| <= |r| && r[..|xs[0]|] == xs[0]
  {
    if |xs| == 1 then xs[0]
    else
      var front := xs[..|xs| - 1];
      var rest := Join(front, sep);
      assert front[0] == xs[0];
      rest + sep + xs[|xs| - 1]
  }

  /** The text after the loop has run for the first `k` names: each name followed by ", ",
      except the last name of the list, which is followed by " ". */
  function TextUpTo(nodes: seq<string>, k: nat): string
    requires k <= |nodes|
  {
    if k == 0 then ""
    else TextUpTo(nodes, k - 1) + nodes[k - 1] + (if k - 1 < |nodes| - 1 then ", " else " ")
  }

  /** `nodesToString`: the loop accumulating into `stringedNodes`. */
  method NodesToString(nodes: seq<string>) returns (text: string)
    ensures text == TextUpTo(nodes, |nodes|)
    ensures nodes == [] ==> text == ""
    ensures nodes != [] ==> text == Join(nodes, ", ") + " "
  {
    text := "";
    for i := 0 to |nodes|
      invariant text == TextUpTo(nodes, i)
    {
      text := text + nodes[i];
      if i < |nodes| - 1 {
        text := text + ", ";
      } else {
        text := text + " ";
      }
    }
    if nodes != [] {
      TextIsJoin(nodes);
    }
  }

  /** Before the last name each step leaves the joined names plus a pending ", "; the last
      step closes the text with " " instead. */
  lemma {:induction false} TextUpToIsJoin(nodes: seq<string>, k: nat)
    requires 1 <= k < |nodes|
    ensures TextUpTo(nodes, k) == Join(nodes[..k], ", ") + ", "
  {
    if k > 1 {
      TextUpToIsJoin(nodes, k - 1);
      assert nodes[..k][..k - 1] == nodes[..k - 1];
    }
  }

  /** A non-empty list yields its names joined with ", ", then one " ". */
  lemma {:induction false} TextIsJoin(nodes: seq<string>)
    requires |nodes| > 0
    ensures TextUpTo(nodes, |nodes|) == Join(nodes, ", ") + " "
  {
    var n := |nodes|;
    if n > 1 {
      TextUpToIsJoin(nodes, n - 1);
      assert nodes[..n - 1] == nodes[..n][..n - 1];
      assert nodes[..n] == nodes;
    }
  }

  /** The text starts with the first name, and holds the names plus exactly n - 1
      two-character separators and one trailing space. */
  lemma TextShape(nodes: seq<string>)
    requires |nodes| > 0
    ensures |TextUpTo(nodes, |nodes|)| == TotalLength(nodes) + 2 * (|nodes| - 1) + 1
    ensures |nodes[0]| <= |TextUpTo(nodes, |nodes|)| && TextUpTo(nodes, |nodes|)[..|nodes[0]|] == nodes[0]
  {
    TextIsJoin(nodes);
    var j := Join(nodes, ", ");
    assert (j + " ")[..|nodes[0]|] == j[..|nodes[0]|];
  }
}
