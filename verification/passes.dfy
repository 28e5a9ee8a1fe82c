/** The loop shape every extractor shares:

      for x in xs:
          ... compute a line, or `continue` ...
          lines.append(line)

    `Collect(xs, f)` is the list such a loop builds when `f(x)` is the line `x` yields
    (`None` for a skipped element). Defined from the back, so that a loop that has seen
    `xs[..i]` holds exactly `Collect(xs[..i], f)`. */
module Passes {
  import opened Wrappers

  function Collect<T>(xs: seq<T>, f: T -> Option<string>): (r: seq<string>)
    ensures |r| <= |xs|
  {
    if |xs| == 0 then []
    else Collect(xs[..|xs| - 1], f) + Yield(f(xs[|xs| - 1]))
  }

  /** The lines one element contributes. */
  function Yield(o: Option<string>): seq<string> {
    match o
    case Some(l) => [l]
    case None => []
  }

  function CountWhere<T>(xs: seq<T>, p: T -> bool): (n: nat)
    ensures n <= |xs|
  {
    if |xs| == 0 then 0
    else CountWhere(xs[..|xs| - 1], p) + (if p(xs[|xs| - 1]) then 1 else 0)
  }

  /** Where each collected line came from: the output is the yielding elements' lines,
      in input order, and every element that yields a line is represented. */
  function SourceIndices<T>(xs: seq<T>, f: T -> Option<string>): (idx: seq<nat>)
    ensures |idx| == |Collect(xs, f)|
    ensures forall k :: 0 <= k < |idx| ==> idx[k] < |xs| && f(xs[idx[k]]) == Some(Collect(xs, f)[k])
    ensures forall k, m :: 0 <= k < m < |idx| ==> idx[k] < idx[m]
    ensures forall i :: 0 <= i < |xs| && f(xs[i]).Some? ==> i in idx
  {
    if |xs| == 0 then []
    else
      var front := xs[..|xs| - 1];
      var pre := SourceIndices(front, f);
      assert forall i :: 0 <= i < |front| ==> front[i] == xs[i];
      var idx := pre + (if f(xs[|xs| - 1]).Some? then [|xs| - 1] else []);
      SourceIndicesExtend(xs, f, Collect(front, f), pre, idx);
      idx
  }

  /** The indices of the front, followed by the last index if that element yields. */
  lemma SourceIndicesExtend<T>(xs: seq<T>, f: T -> Option<string>, lines: seq<string>, pre: seq<nat>, idx: seq<nat>)
    requires |xs| > 0 && lines == Collect(xs[..|xs| - 1], f) && |pre| == |lines|
    requires forall k :: 0 <= k < |pre| ==> pre[k] < |xs| - 1 && f(xs[pre[k]]) == Some(lines[k])
    requires forall k, m :: 0 <= k < m < |pre| ==> pre[k] < pre[m]
    requires forall i :: 0 <= i < |xs| - 1 && f(xs[i]).Some? ==> i in pre
    requires idx == pre + (if f(xs[|xs| - 1]).Some? then [|xs| - 1] else [])
    ensures |idx| == |Collect(xs, f)|
    ensures forall k :: 0 <= k < |idx| ==> idx[k] < |xs| && f(xs[idx[k]]) == Some(Collect(xs, f)[k])
    ensures forall k, m :: 0 <= k < m < |idx| ==> idx[k] < idx[m]
    ensures forall i :: 0 <= i < |xs| && f(xs[i]).Some? ==> i in idx
  {
    assert Collect(xs, f) == lines + Yield(f(xs[|xs| - 1]));
  }

  /** One more iteration of the loop: the lines of `xs[..i + 1]` are those of `xs[..i]` and
      then whatever `xs[i]` yields. */
  lemma CollectStep<T>(xs: seq<T>, i: nat, f: T -> Option<string>)
    requires i < |xs|
    ensures Collect(xs[..i + 1], f) == Collect(xs[..i], f) + Yield(f(xs[i]))
  {
    assert xs[..i + 1][..i] == xs[..i];
  }

  /** The loop itself: `lines = []`, then one pass over `xs` appending each line that an
      element yields. */
  method CollectLines<T>(xs: seq<T>, f: T -> Option<string>) returns (lines: seq<string>)
    ensures lines == Collect(xs, f)
  {
    lines := [];
    var i := 0;
    while i < |xs|
      invariant 0 <= i <= |xs|
      invariant lines == Collect(xs[..i], f)
    {
      var line := f(xs[i]);
      CollectStep(xs, i, f);
      if line.Some? {
        lines := lines + [line.value];
      }
      i := i + 1;
    }
    assert xs[..i] == xs;
  }

  /** Collecting distributes over concatenation: the lines of a longer input extend the
      lines of its prefix, in order. */
  lemma {:induction false} CollectAppend<T>(xs: seq<T>, ys: seq<T>, f: T -> Option<string>)
    ensures Collect(xs + ys, f) == Collect(xs, f) + Collect(ys, f)
    decreases |ys|
  {
    if |ys| == 0 {
      assert xs + ys == xs;
    } else {
      var n := |ys| - 1;
      assert (xs + ys)[..|xs + ys| - 1] == xs + ys[..n];
      assert (xs + ys)[|xs + ys| - 1] == ys[n];
      CollectAppend(xs, ys[..n], f);
    }
  }

  /** The number of lines is the number of elements that yield one. */
  lemma {:induction false} CollectLength<T>(xs: seq<T>, f: T -> Option<string>, p: T -> bool)
    requires forall i :: 0 <= i < |xs| ==> (f(xs[i]).Some? <==> p(xs[i]))
    ensures |Collect(xs, f)| == CountWhere(xs, p)
  {
    if |xs| > 0 {
      var front := xs[..|xs| - 1];
      assert forall i :: 0 <= i < |front| ==> front[i] == xs[i];
      CollectLength(front, f, p);
    }
  }

  /** At most as many lines as elements satisfying a condition every yielding element meets. */
  lemma {:induction false} CollectBound<T>(xs: seq<T>, f: T -> Option<string>, p: T -> bool)
    requires forall i :: 0 <= i < |xs| ==> f(xs[i]).Some? ==> p(xs[i])
    ensures |Collect(xs, f)| <= CountWhere(xs, p)
  {
    if |xs| > 0 {
      var front := xs[..|xs| - 1];
      assert forall i :: 0 <= i < |front| ==> front[i] == xs[i];
      CollectBound(front, f, p);
    }
  }

  /** No line at all exactly when no element yields one. */
  lemma {:induction false} CollectEmpty<T>(xs: seq<T>, f: T -> Option<string>)
    ensures Collect(xs, f) == [] <==> forall i :: 0 <= i < |xs| ==> f(xs[i]).None?
  {
    if |xs| > 0 {
      var front := xs[..|xs| - 1];
      assert forall i :: 0 <= i < |front| ==> front[i] == xs[i];
      CollectEmpty(front, f);
    }
  }
}
