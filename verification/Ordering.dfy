/** `sorted(set)` for the total orders the modelled code sorts by. */
module Ordering {

  ghost predicate TotalOrder<T(!new)>(leq: (T, T) -> bool) {
    && (forall x :: leq(x, x))
    && (forall x, y :: leq(x, y) && leq(y, x) ==> x == y)
    && (forall x, y, z :: leq(x, y) && leq(y, z) ==> leq(x, z))
    && (forall x, y :: leq(x, y) || leq(y, x))
  }

  ghost predicate Ascending<T>(s: seq<T>, leq: (T, T) -> bool) {
    forall i, j :: 0 <= i < j < |s| ==> leq(s[i], s[j]) && s[i] != s[j]
  }

  ghost predicate Least<T>(s: set<T>, leq: (T, T) -> bool, m: T) {
    m in s && forall x :: x in s ==> leq(m, x)
  }

  lemma {:induction false} LeastExists<T(!new)>(s: set<T>, leq: (T, T) -> bool)
    requires TotalOrder(leq) && s != {}
    ensures exists m :: Least(s, leq, m)
    decreases |s|
  {
    var y :| y in s;
    if s == {y} {
      assert Least(s, leq, y);
    } else {
      LeastExists(s - {y}, leq);
      var rest :| Least(s - {y}, leq, rest);
      var m := if leq(y, rest) then y else rest;
      forall x | x in s
        ensures leq(m, x)
      {
        assert x == y || x in s - {y};
      }
      assert Least(s, leq, m);
    }
  }

  function Sorted<T(!new)>(s: set<T>, leq: (T, T) -> bool): seq<T>
    requires TotalOrder(leq)
  {
    if s == {} then []
    else
      LeastExists(s, leq);
      var m :| m in s && forall x :: x in s ==> leq(m, x);
      [m] + Sorted(s - {m}, leq)
  }

  /** Sorting lists every element once, in order. */
  lemma {:induction false} SortedLists<T(!new)>(s: set<T>, leq: (T, T) -> bool)
    requires TotalOrder(leq)
    ensures Ascending(Sorted(s, leq), leq) && |Sorted(s, leq)| == |s|
    ensures forall x :: x in s <==> x in Sorted(s, leq)
    decreases |s|
  {
    if s != {} {
      LeastExists(s, leq);
      var m :| m in s && forall x :: x in s ==> leq(m, x);
      SortedLists(s - {m}, leq);
      LeastFirst(s, leq, m, Sorted(s - {m}, leq));
    }
  }

  /** A least element in front of the others in order. */
  lemma LeastFirst<T(!new)>(s: set<T>, leq: (T, T) -> bool, m: T, r: seq<T>)
    requires Least(s, leq, m) && Ascending(r, leq) && |r| == |s - {m}| && forall x :: x in s - {m} <==> x in r
    ensures Ascending([m] + r, leq) && |[m] + r| == |s|
    ensures forall x :: x in s <==> x in [m] + r
  {
    forall i | 0 <= i < |r|
      ensures leq(m, r[i]) && m != r[i]
    {
      assert r[i] in r;
    }
    forall x
      ensures x in s <==> x in [m] + r
    {
      assert x in s <==> x == m || x in s - {m};
    }
  }

  predicate IntLeq(a: int, b: int) {
    a <= b
  }

  /** Python compares strings code point by code point. */
  predicate TextLeq(a: string, b: string) {
    a == "" || (b != "" && (a[0] < b[0] || (a[0] == b[0] && TextLeq(a[1..], b[1..]))))
  }

  /** `a` is a beginning of `b`, or smaller at the first place where they differ. */
  ghost predicate Precedes(a: string, b: string) {
    exists k: nat :: k <= |a| && k <= |b| && a[..k] == b[..k] && (k == |a| || (k < |b| && a[k] < b[k]))
  }

  lemma {:induction false} TextLeqMeans(a: string, b: string)
    ensures TextLeq(a, b) <==> Precedes(a, b)
  {
    if a == "" {
      assert a[..0] == b[..0];
    } else if b != "" {
      TextLeqMeans(a[1..], b[1..]);
      if TextLeq(a, b) {
        if a[0] < b[0] {
          assert a[..0] == b[..0];
        } else {
          PrecedesCons(a, b);
        }
      } else if Precedes(a, b) {
        PrecedesTail(a, b);
      }
    }
  }

  lemma PrecedesCons(a: string, b: string)
    requires a != "" && b != "" && a[0] == b[0] && Precedes(a[1..], b[1..])
    ensures Precedes(a, b)
  {
    var k: nat :| k <= |a[1..]| && k <= |b[1..]| && a[1..][..k] == b[1..][..k]
                  && (k == |a[1..]| || (k < |b[1..]| && a[1..][k] < b[1..][k]));
    assert a[..k + 1] == [a[0]] + a[1..][..k] && b[..k + 1] == [b[0]] + b[1..][..k];
    assert k + 1 < |a| ==> a[k + 1] == a[1..][k];
    assert k + 1 < |b| ==> b[k + 1] == b[1..][k];
  }

  lemma PrecedesTail(a: string, b: string)
    requires a != "" && b != "" && Precedes(a, b)
    ensures a[0] < b[0] || (a[0] == b[0] && Precedes(a[1..], b[1..]))
  {
    var k: nat :| k <= |a| && k <= |b| && a[..k] == b[..k] && (k == |a| || (k < |b| && a[k] < b[k]));
    if k > 0 {
      assert a[0] == a[..k][0] && b[0] == b[..k][0];
      assert a[1..][..k - 1] == a[..k][1..] && b[1..][..k - 1] == b[..k][1..];
      assert k < |a| ==> a[k] == a[1..][k - 1];
      assert k < |b| ==> b[k] == b[1..][k - 1];
    }
  }

  lemma IntOrder()
    ensures TotalOrder(IntLeq)
  {
  }

  lemma {:induction false} TextAntisymmetric(a: string, b: string)
    requires TextLeq(a, b) && TextLeq(b, a)
    ensures a == b
  {
    if a != "" && b != "" {
      TextAntisymmetric(a[1..], b[1..]);
      assert a == [a[0]] + a[1..] && b == [b[0]] + b[1..];
    }
  }

  lemma {:induction false} TextTransitive(a: string, b: string, c: string)
    requires TextLeq(a, b) && TextLeq(b, c)
    ensures TextLeq(a, c)
  {
    if a != "" && a[0] == b[0] == c[0] {
      TextTransitive(a[1..], b[1..], c[1..]);
    }
  }

  lemma {:induction false} TextTotal(a: string, b: string)
    ensures TextLeq(a, b) || TextLeq(b, a)
  {
    if a != "" && b != "" {
      TextTotal(a[1..], b[1..]);
    }
  }

  lemma TextOrder()
    ensures TotalOrder(TextLeq)
  {
    forall a, b | TextLeq(a, b) && TextLeq(b, a) ensures a == b { TextAntisymmetric(a, b); }
    forall a, b, c | TextLeq(a, b) && TextLeq(b, c) ensures TextLeq(a, c) { TextTransitive(a, b, c); }
    forall a, b ensures TextLeq(a, b) || TextLeq(b, a) { TextTotal(a, b); }
    forall a ensures TextLeq(a, a) { TextTotal(a, a); }
  }
}
