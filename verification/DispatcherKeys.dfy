/**
 The key under which the manager keeps a dispatcher, stream and group joined by '|'
 (internal/service/dispatcher.go), and exactly when two pairs share one.
 */
module DispatcherKeys {
  import opened Common

  /** `dispatcherKey`. */
  function DispatcherKey(stream: string, group: string): string {
    stream + "|" + group
  }

  /** `b` is `a` followed by a bar and something a group name may start with. */
  predicate Continues(a: string, b: string) {
    && |a| < |b| && b[..|a|] == a && b[|a|] == '|'
    && (|b| == |a| + 1 || !IsSpace(b[|a| + 1]))
  }

  /** Some group of each stream has the key of the other's. */
  ghost predicate Collide(a: string, b: string) {
    exists g, h :: IsName(g) && IsName(h) && DispatcherKey(a, g) == DispatcherKey(b, h)
  }

  lemma ShorterContinues(a: string, g: string, b: string, h: string)
    requires IsName(g) && DispatcherKey(a, g) == DispatcherKey(b, h) && |a| < |b|
    ensures Continues(a, b)
  {
    var key := DispatcherKey(a, g);
    assert key[..|b|] == b;
    assert key[..|a|] == a;
    assert b[..|a|] == key[..|a|];
    assert key[|a|] == '|';
    if |b| > |a| + 1 {
      assert b[|a| + 1] == key[|a| + 1] == g[0];
    }
  }

  lemma SameStreamSameGroup(a: string, g: string, b: string, h: string)
    requires DispatcherKey(a, g) == DispatcherKey(b, h) && |a| == |b|
    ensures a == b && g == h
  {
    var key := DispatcherKey(a, g);
    assert key[..|a|] == a && key[..|a|] == b;
    assert key[|a| + 1..] == g && key[|a| + 1..] == h;
  }

  /** A group of `a` that collides with group "g" of a continuation `b`. */
  function CollidingGroup(a: string, b: string): string
    requires Continues(a, b)
  {
    b[|a| + 1..] + "|g"
  }

  lemma ContinuationCollides(a: string, b: string)
    requires Continues(a, b)
    ensures IsName(CollidingGroup(a, b)) && IsName("g")
    ensures DispatcherKey(a, CollidingGroup(a, b)) == DispatcherKey(b, "g")
  {
    var g := CollidingGroup(a, b);
    assert !IsSpace('g') && !IsSpace('|');
    assert g[0] == if |b| == |a| + 1 then '|' else b[|a| + 1];
    TightIsName(g);
    TightIsName("g");
    assert b == a + "|" + b[|a| + 1..];
  }

  /** Two streams have colliding keys exactly when one continues the other with a bar. */
  lemma CollisionExact(a: string, b: string)
    requires a != b
    ensures Collide(a, b) <==> Continues(a, b) || Continues(b, a)
  {
    if Collide(a, b) {
      var g, h :| IsName(g) && IsName(h) && DispatcherKey(a, g) == DispatcherKey(b, h);
      if |a| < |b| {
        ShorterContinues(a, g, b, h);
      } else if |b| < |a| {
        ShorterContinues(b, h, a, g);
      } else {
        SameStreamSameGroup(a, g, b, h);
      }
    }
    if Continues(a, b) {
      ContinuationCollides(a, b);
    }
    if Continues(b, a) {
      ContinuationCollides(b, a);
      assert DispatcherKey(a, "g") == DispatcherKey(b, CollidingGroup(b, a));
    }
  }

  /** Stream names without a bar: the key determines stream and group. */
  lemma KeyInjective(a: string, g: string, b: string, h: string)
    requires '|' !in a && '|' !in b && IsName(g) && IsName(h) && DispatcherKey(a, g) == DispatcherKey(b, h)
    ensures a == b && g == h
  {
    if |a| < |b| {
      ShorterContinues(a, g, b, h);
    } else if |b| < |a| {
      ShorterContinues(b, h, a, g);
    } else {
      SameStreamSameGroup(a, g, b, h);
    }
  }

  /** With a bar: streams "a|b" and "a" collide. */
  lemma BarCollides()
    ensures DispatcherKey("a|b", "c") == DispatcherKey("a", "b|c")
  {
  }
}
