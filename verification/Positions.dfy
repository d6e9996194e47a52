/** Saying which elements of a list a filter keeps, and in which order, without naming the filter. */
module Positions {
  import opened Common

  /** Strictly increasing positions below `n`. */
  ghost predicate Increasing(at: seq<nat>, n: nat) {
    && (forall i :: 0 <= i < |at| ==> at[i] < n)
    && (forall i, k :: 0 <= i < k < |at| ==> at[i] < at[k])
  }

  lemma IncreasingLonger(at: seq<nat>, n: nat)
    requires Increasing(at, n)
    ensures Increasing(at, n + 1) && Increasing(at + [n], n + 1)
    ensures n !in at
  {
  }

  /** `picked` is `xs` at the positions `at`, in order. */
  ghost predicate PicksAt<T>(xs: seq<T>, picked: seq<T>, at: seq<nat>) {
    && Increasing(at, |xs|) && |picked| == |at|
    && forall i :: 0 <= i < |at| ==> picked[i] == xs[at[i]]
  }

  lemma PicksLonger<T>(xs: seq<T>, x: T, picked: seq<T>, at: seq<nat>)
    requires PicksAt(xs, picked, at)
    ensures PicksAt(xs + [x], picked, at) && PicksAt(xs + [x], picked + [x], at + [|xs|])
  {
    IncreasingLonger(at, |xs|);
  }

  // ---------------------------------------------------------------------------
  // Elements a partial function is defined on
  // ---------------------------------------------------------------------------

  ghost predicate MapsTo<T, U>(f: T -> Option<U>, xs: seq<T>, v: nat, y: U) {
    v < |xs| && f(xs[v]) == Some(y)
  }

  /** `out` is what `f` gives for the elements it is defined on, in order; `at` names their
      positions. */
  ghost predicate MapsAt<T, U>(f: T -> Option<U>, xs: seq<T>, at: seq<nat>, out: seq<U>) {
    && Increasing(at, |xs|) && |at| == |out|
    && (forall i :: 0 <= i < |at| ==> MapsTo(f, xs, at[i], out[i]))
    && (forall v: nat :: v in at <==> v < |xs| && f(xs[v]).Some?)
  }

  lemma MapsLonger<T, U>(f: T -> Option<U>, xs: seq<T>, x: T, at: seq<nat>, out: seq<U>)
    requires MapsAt(f, xs, at, out)
    ensures f(x).None? ==> MapsAt(f, xs + [x], at, out)
    ensures f(x).Some? ==> MapsAt(f, xs + [x], at + [|xs|], out + [f(x).value])
  {
    IncreasingLonger(at, |xs|);
    assert forall v: nat, y :: MapsTo(f, xs, v, y) ==> MapsTo(f, xs + [x], v, y);
    assert f(x).Some? ==> MapsTo(f, xs + [x], |xs|, f(x).value);
  }

  // ---------------------------------------------------------------------------
  // Trimmed texts that are not blank
  // ---------------------------------------------------------------------------

  /** Text `v` is not blank, and `r` is that text trimmed. */
  ghost predicate Yields(texts: seq<string>, v: nat, r: string) {
    v < |texts| && Trim(texts[v]) != "" && r == Trim(texts[v])
  }

  ghost predicate Yielding(texts: seq<string>, v: nat) {
    exists r :: Yields(texts, v, r)
  }

  /** `out` is the texts that are not blank, trimmed, in order; `at` names their positions. */
  ghost predicate TrimmedAt(texts: seq<string>, at: seq<nat>, out: seq<string>) {
    && Increasing(at, |texts|) && |at| == |out|
    && (forall i :: 0 <= i < |at| ==> Yields(texts, at[i], out[i]))
    && (forall v: nat :: v in at <==> v < |texts| && Yielding(texts, v))
  }

  lemma YieldsLonger(texts: seq<string>, text: string)
    ensures forall v: nat, r :: v < |texts| ==> (Yields(texts + [text], v, r) <==> Yields(texts, v, r))
    ensures forall v: nat :: v < |texts| ==> (Yielding(texts + [text], v) <==> Yielding(texts, v))
  {
    forall v: nat, r | v < |texts|
      ensures Yields(texts + [text], v, r) <==> Yields(texts, v, r)
    {
      assert (texts + [text])[v] == texts[v];
    }
  }

  lemma TrimmedLonger(texts: seq<string>, text: string, at: seq<nat>, out: seq<string>)
    requires TrimmedAt(texts, at, out)
    ensures Trim(text) == "" ==> TrimmedAt(texts + [text], at, out)
    ensures Trim(text) != "" ==> TrimmedAt(texts + [text], at + [|texts|], out + [Trim(text)])
  {
    IncreasingLonger(at, |texts|);
    YieldsLonger(texts, text);
    assert Trim(text) != "" ==> Yields(texts + [text], |texts|, Trim(text));
  }

  /** Blank texts, and only those, leave nothing. */
  lemma TrimmedNone(texts: seq<string>, at: seq<nat>, out: seq<string>)
    requires TrimmedAt(texts, at, out)
    ensures out == [] <==> forall i :: 0 <= i < |texts| ==> Trim(texts[i]) == ""
  {
    if out != [] {
      assert Yields(texts, at[0], out[0]);
    } else {
      forall i | 0 <= i < |texts|
        ensures Trim(texts[i]) == ""
      {
        assert Trim(texts[i]) != "" ==> Yields(texts, i, Trim(texts[i]));
        assert !(i in at);
      }
    }
  }
}
