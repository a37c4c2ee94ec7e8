/**
 * Python's ordering of `str` values and the built-in `max` over a list of
 * strings. Python compares strings code point by code point; a proper
 * prefix is smaller. This is NOT Dafny's `<` on sequences (proper prefix
 * only), so the order is defined here.
 */
module StringOrder {

  /** `a < b` on Python strings. */
  predicate Less(a: string, b: string)
    decreases |a|
  {
    if |b| == 0 then false
    else if |a| == 0 then true
    else if a[0] != b[0] then a[0] < b[0]
    else Less(a[1..], b[1..])
  }

  lemma {:induction false} LessIrreflexive(a: string)
    ensures !Less(a, a)
    decreases |a|
  {
    if |a| > 0 {
      LessIrreflexive(a[1..]);
    }
  }

  lemma {:induction false} LessAsymmetric(a: string, b: string)
    ensures Less(a, b) ==> !Less(b, a)
    decreases |a|
  {
    if |a| > 0 && |b| > 0 && a[0] == b[0] {
      LessAsymmetric(a[1..], b[1..]);
    }
  }

  lemma {:induction false} LessTransitive(a: string, b: string, c: string)
    requires Less(a, b) && Less(b, c)
    ensures Less(a, c)
    decreases |a|
  {
    if |a| > 0 && a[0] == b[0] && b[0] == c[0] {
      LessTransitive(a[1..], b[1..], c[1..]);
    }
  }

  /** Any two different strings are ordered one way or the other. */
  lemma {:induction false} LessTotal(a: string, b: string)
    ensures a == b || Less(a, b) || Less(b, a)
    decreases |a|
  {
    if |a| > 0 && |b| > 0 && a[0] == b[0] {
      LessTotal(a[1..], b[1..]);
      if a[1..] == b[1..] {
        assert a == [a[0]] + a[1..] && b == [b[0]] + b[1..];
      }
    }
  }

  /** "at least" (`a >= b`) is transitive. */
  lemma AtLeastTransitive(a: string, b: string, c: string)
    requires !Less(a, b) && !Less(b, c)
    ensures !Less(a, c)
  {
    LessTotal(a, b);
    LessTotal(b, c);
    if a == b && b == c {
      LessIrreflexive(a);
    } else if a == b {
      LessAsymmetric(c, a);
    } else if b == c {
      LessAsymmetric(c, a);
    } else {
      LessTransitive(c, b, a);
      LessAsymmetric(c, a);
    }
  }

  /** `m` is the largest element of `xs` (nothing in `xs` is above it). */
  ghost predicate IsMaxOf(m: string, xs: seq<string>)
  {
    m in xs && forall i :: 0 <= i < |xs| ==> !Less(m, xs[i])
  }

  /**
   * The loop inside Python's `max`: keep the current candidate and replace
   * it by a later item only when that item is strictly greater.
   */
  function MaxFrom(current: string, rest: seq<string>): (m: string)
    ensures m == current || m in rest
    decreases |rest|
  {
    if rest == [] then current
    else MaxFrom(if Less(current, rest[0]) then rest[0] else current, rest[1..])
  }

  /** `max(xs)` on a non-empty list of strings. */
  function MaxOf(xs: seq<string>): (m: string)
    requires xs != []
    ensures m in xs
  {
    MaxFrom(xs[0], xs[1..])
  }

  lemma {:induction false} MaxFromIsGreatest(current: string, rest: seq<string>)
    ensures !Less(MaxFrom(current, rest), current)
    ensures forall i :: 0 <= i < |rest| ==> !Less(MaxFrom(current, rest), rest[i])
    decreases |rest|
  {
    var m := MaxFrom(current, rest);
    if rest == [] {
      LessIrreflexive(current);
    } else {
      var next := if Less(current, rest[0]) then rest[0] else current;
      MaxFromIsGreatest(next, rest[1..]);
      assert m == MaxFrom(next, rest[1..]);
      // next is at least current and at least rest[0]; m is at least next.
      LessIrreflexive(next);
      LessTotal(current, rest[0]);
      LessAsymmetric(current, rest[0]);
      AtLeastTransitive(m, next, current);
      AtLeastTransitive(m, next, rest[0]);
      forall i | 1 <= i < |rest|
        ensures !Less(m, rest[i])
      {
        assert rest[i] == rest[1..][i - 1];
      }
    }
  }

  /** Python's `max` returns the greatest element under string order. */
  lemma MaxOfIsMax(xs: seq<string>)
    requires xs != []
    ensures IsMaxOf(MaxOf(xs), xs)
  {
    MaxFromIsGreatest(xs[0], xs[1..]);
    forall i | 0 <= i < |xs|
      ensures !Less(MaxOf(xs), xs[i])
    {
      if i > 0 { assert xs[i] == xs[1..][i - 1]; }
    }
  }

  /** There is only one greatest element. */
  lemma MaxIsUnique(m1: string, m2: string, xs: seq<string>)
    requires IsMaxOf(m1, xs) && IsMaxOf(m2, xs)
    ensures m1 == m2
  {
    LessTotal(m1, m2);
  }

  /**
   * The result of `max` depends only on which strings are in the list,
   * not on their order: `os.listdir` order cannot change the current version.
   */
  lemma MaxOfIgnoresOrder(xs: seq<string>, ys: seq<string>)
    requires xs != [] && ys != []
    requires forall s :: s in xs <==> s in ys
    ensures MaxOf(xs) == MaxOf(ys)
  {
    MaxOfIsMax(xs);
    MaxOfIsMax(ys);
    var a, b := MaxOf(xs), MaxOf(ys);
    var i :| 0 <= i < |ys| && ys[i] == a;
    var j :| 0 <= j < |xs| && xs[j] == b;
    assert !Less(b, a) && !Less(a, b);
    LessTotal(a, b);
  }

  /**
   * The order is textual, not semantic: `v1.10.0` sorts below `v1.2.0`,
   * so with both installed `max` picks `v1.2.0`.
   */
  lemma TextualVersionOrder()
    ensures Less("v1.10.0", "v1.2.0")
    ensures MaxOf(["v1.10.0", "v1.2.0"]) == "v1.2.0"
    ensures MaxOf(["v1.0.0", "v1.2.0"]) == "v1.2.0"
  {
    assert "v1.10.0"[1..] == "1.10.0" && "v1.2.0"[1..] == "1.2.0";
    assert "1.10.0"[1..] == ".10.0" && "1.2.0"[1..] == ".2.0";
    assert ".10.0"[1..] == "10.0" && ".2.0"[1..] == "2.0";
    assert Less("v1.10.0", "v1.2.0");
    LessAsymmetric("v1.10.0", "v1.2.0");
    assert "v1.0.0"[1..] == "1.0.0" && "1.0.0"[1..] == ".0.0" && ".0.0"[1..] == "0.0";
    assert Less("v1.0.0", "v1.2.0");
  }
}
