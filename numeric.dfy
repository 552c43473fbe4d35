/** Numeric helpers shared by the learners and the benchmarks: doubles are
    modelled as exact reals, with the two IEEE special values the library can
    produce (+infinity and quiet NaN) made explicit in `Ext`. */
module Numeric {

  // ---------------------------------------------------------------------------
  // Doubles with +infinity and NaN
  // ---------------------------------------------------------------------------

  /** A double as the metrics and the random search see it: a finite value,
      +infinity (the "size mismatch" score and the initial best score) or NaN. */
  datatype Ext = Fin(v: real) | Inf | NaN

  /** IEEE addition restricted to values that are never -infinity. */
  function Add(a: Ext, b: Ext): (r: Ext)
    ensures r.NaN? <==> a.NaN? || b.NaN?
    ensures r.Fin? <==> a.Fin? && b.Fin?
    ensures r.Fin? ==> r.v == a.v + b.v
  {
    match (a, b)
    case (NaN, _) => NaN
    case (_, NaN) => NaN
    case (Inf, _) => Inf
    case (_, Inf) => Inf
    case (Fin(x), Fin(y)) => Fin(x + y)
  }

  /** IEEE division by a positive finite number. */
  function DivPos(a: Ext, d: real): (r: Ext)
    requires d > 0.0
    ensures r.Fin? <==> a.Fin?
    ensures r.Inf? <==> a.Inf?
    ensures r.Fin? ==> r.v * d == a.v
  {
    match a
    case Fin(x) => Fin(x / d)
    case Inf => Inf
    case NaN => NaN
  }

  /** IEEE `a < b`: every comparison with NaN is false, and +inf < +inf is false. */
  predicate Less(a: Ext, b: Ext)
  {
    match (a, b)
    case (Fin(x), Fin(y)) => x < y
    case (Fin(_), Inf) => true
    case _ => false
  }

  // ---------------------------------------------------------------------------
  // Sums, means and counts over sequences (accumulated front to back)
  // ---------------------------------------------------------------------------

  function Sum(s: seq<real>): real
  {
    if |s| == 0 then 0.0 else Sum(s[..|s| - 1]) + s[|s| - 1]
  }

  function SumSq(s: seq<real>): real
  {
    if |s| == 0 then 0.0 else SumSq(s[..|s| - 1]) + s[|s| - 1] * s[|s| - 1]
  }

  function Mean(s: seq<real>): real
    requires |s| > 0
  {
    Sum(s) / (|s| as real)
  }

  lemma {:induction false} SumAppend(a: seq<real>, b: seq<real>)
    ensures Sum(a + b) == Sum(a) + Sum(b)
    decreases |b|
  {
    if |b| == 0 {
      assert a + b == a;
    } else {
      var b' := b[..|b| - 1];
      assert (a + b)[..|a + b| - 1] == a + b';
      SumAppend(a, b');
    }
  }

  lemma {:induction false} SumSqAppend(a: seq<real>, b: seq<real>)
    ensures SumSq(a + b) == SumSq(a) + SumSq(b)
    decreases |b|
  {
    if |b| == 0 {
      assert a + b == a;
    } else {
      var b' := b[..|b| - 1];
      assert (a + b)[..|a + b| - 1] == a + b';
      SumSqAppend(a, b');
    }
  }

  /** The sum of a constant sequence. */
  lemma {:induction false} SumConst(s: seq<real>, c: real)
    requires forall k :: 0 <= k < |s| ==> s[k] == c
    ensures Sum(s) == (|s| as real) * c
    ensures SumSq(s) == (|s| as real) * c * c
  {
    if |s| > 0 {
      SumConst(s[..|s| - 1], c);
    }
  }

  /** Removing one element: the sum of `s` is `s[i]` plus the sum of the rest. */
  lemma {:induction false} SumRemove(s: seq<real>, i: int)
    requires 0 <= i < |s|
    ensures Sum(s) == s[i] + Sum(s[..i] + s[i + 1..])
  {
    var p, x, q := s[..i], s[i], s[i + 1..];
    assert s == (p + [x]) + q;
    SumAppend(p + [x], q);
    SumAppend(p, [x]);
    SumAppend(p, q);
    assert Sum([x]) == x by { assert [x][..0] == []; }
  }

  lemma {:induction false} SumSqRemove(s: seq<real>, i: int)
    requires 0 <= i < |s|
    ensures SumSq(s) == s[i] * s[i] + SumSq(s[..i] + s[i + 1..])
  {
    var p, x, q := s[..i], s[i], s[i + 1..];
    var sq := x * x;
    assert s == (p + [x]) + q;
    SumSqAppend(p + [x], q);
    SumSqAppend(p, [x]);
    SumSqAppend(p, q);
    assert SumSq([x]) == sq by { assert [x][..0] == []; }
  }

  /** Deleting a matching element from two equal multisets keeps them equal. */
  lemma {:induction false} PermutationRemoveLast<T>(a: seq<T>, b: seq<T>) returns (i: int)
    requires |a| > 0 && multiset(a) == multiset(b)
    ensures 0 <= i < |b| && b[i] == a[|a| - 1]
    ensures multiset(a[..|a| - 1]) == multiset(b[..i] + b[i + 1..])
  {
    var x := a[|a| - 1];
    assert a == a[..|a| - 1] + [x];
    assert x in multiset(b);
    assert x in b;
    i :| 0 <= i < |b| && b[i] == x;
    assert b == b[..i] + [x] + b[i + 1..];
    calc {
      multiset(a[..|a| - 1]);
      multiset(a) - multiset{x};
      multiset(b) - multiset{x};
      multiset(b[..i] + b[i + 1..]);
    }
  }

  /** Sums do not depend on the order of the summands. */
  lemma {:induction false} SumPermutation(a: seq<real>, b: seq<real>)
    requires multiset(a) == multiset(b)
    ensures Sum(a) == Sum(b)
    decreases |a|
  {
    if |a| > 0 {
      var i := PermutationRemoveLast(a, b);
      SumPermutation(a[..|a| - 1], b[..i] + b[i + 1..]);
      SumRemove(b, i);
    } else {
      assert |b| == 0;
    }
  }

  lemma {:induction false} SumSqPermutation(a: seq<real>, b: seq<real>)
    requires multiset(a) == multiset(b)
    ensures SumSq(a) == SumSq(b)
    decreases |a|
  {
    if |a| > 0 {
      var i := PermutationRemoveLast(a, b);
      SumSqPermutation(a[..|a| - 1], b[..i] + b[i + 1..]);
      SumSqRemove(b, i);
    } else {
      assert |b| == 0;
    }
  }

  /** Number of occurrences of `x` in `s`. */
  function Count<T(==)>(s: seq<T>, x: T): nat
  {
    if |s| == 0 then 0 else Count(s[..|s| - 1], x) + (if s[|s| - 1] == x then 1 else 0)
  }

  lemma {:induction false} CountAppend<T>(a: seq<T>, b: seq<T>, x: T)
    ensures Count(a + b, x) == Count(a, x) + Count(b, x)
    decreases |b|
  {
    if |b| == 0 {
      assert a + b == a;
    } else {
      assert (a + b)[..|a + b| - 1] == a + b[..|b| - 1];
      CountAppend(a, b[..|b| - 1], x);
    }
  }

  lemma {:induction false} CountBounds<T>(s: seq<T>, x: T)
    ensures Count(s, x) <= |s|
    ensures Count(s, x) > 0 <==> x in s
  {
    if |s| > 0 {
      var s' := s[..|s| - 1];
      CountBounds(s', x);
      assert s == s' + [s[|s| - 1]];
      assert x in s <==> x in s' || x == s[|s| - 1];
    }
  }

  /** The label -> count table that `std::map<K,int> counts; counts[k]++` builds. */
  function CountMap<T(==)>(s: seq<T>): (m: map<T, nat>)
    ensures m.Keys == set x | x in s
  {
    map x | x in s :: Count(s, x)
  }

  /** A table with the keys of s and their counts is CountMap(s). */
  lemma CountMapExt<T>(s: seq<T>, m: map<T, nat>)
    requires forall x :: x in m <==> x in s
    requires forall x :: x in m ==> m[x] == Count(s, x)
    ensures m == CountMap(s)
  {
  }

  /** Counting one more element. */
  lemma CountSnoc<T>(s: seq<T>, y: T, x: T)
    ensures Count(s + [y], x) == Count(s, x) + (if y == x then 1 else 0)
  {
    assert (s + [y])[..|s + [y]| - 1] == s;
  }

  /** One more element bumps exactly its own entry, inserting it at 1. */
  lemma CountMapSnoc<T>(s: seq<T>, y: T)
    ensures CountMap(s + [y]) == CountMap(s)[y := if y in CountMap(s) then CountMap(s)[y] + 1 else 1]
  {
    var m := CountMap(s);
    var m' := m[y := if y in m then m[y] + 1 else 1];
    assert (s + [y])[..|s + [y]| - 1] == s;
    forall x | x in s + [y] ensures x in m' && CountMap(s + [y])[x] == m'[x] {
      CountBounds(s, x);
    }
    assert CountMap(s + [y]).Keys == m'.Keys;
  }

  // ---------------------------------------------------------------------------
  // Rounding and integer helpers
  // ---------------------------------------------------------------------------

  /** std::round: nearest integer, halves away from zero. */
  function Round(x: real): (r: int)
    ensures (r as real) - 0.5 <= x <= (r as real) + 0.5
    ensures x >= 0.0 ==> x < (r as real) + 0.5
    ensures x < 0.0 ==> (r as real) - 0.5 < x
  {
    if x >= 0.0 then (x + 0.5).Floor else -((-x + 0.5).Floor)
  }

  /** std::ceil on a real, as an integer. */
  function Ceil(x: real): (r: int)
    ensures (r as real) - 1.0 < x <= r as real
  {
    if x.Floor as real == x then x.Floor else x.Floor + 1
  }

  /** floor(sqrt(n)) for a non-negative integer. */
  function IntSqrt(n: nat): (r: nat)
    ensures r * r <= n < (r + 1) * (r + 1)
  {
    if n == 0 then 0
    else
      var r := IntSqrt(n - 1);
      if (r + 1) * (r + 1) <= n then r + 1 else r
  }

  /** std::max(lo, std::min(x, hi)). */
  function Clamp(x: int, lo: int, hi: int): (r: int)
    ensures lo <= hi ==> lo <= r <= hi
    ensures lo <= x <= hi ==> r == x
    ensures lo <= hi <= x ==> r == hi
    ensures x <= lo || hi <= lo ==> r == lo
  {
    if x < hi then (if lo < x then x else lo) else (if lo < hi then hi else lo)
  }

  // ---------------------------------------------------------------------------
  // Ascending iteration over the keys of a std::map
  // ---------------------------------------------------------------------------

  /** A set is non-empty exactly when it has an element. */
  lemma RealSetHasElement(s: set<real>)
    ensures s != {} <==> exists x :: x in s
  {
    if forall x :: x !in s {
      assert s == {};
    }
  }

  lemma IntSetHasElement(s: set<int>)
    ensures s != {} <==> exists x :: x in s
  {
    if forall x :: x !in s {
      assert s == {};
    }
  }

  lemma {:induction false} MinRealExists(s: set<real>)
    requires s != {}
    ensures exists m :: m in s && forall x :: x in s ==> m <= x
    decreases |s|
  {
    RealSetHasElement(s);
    var y :| y in s;
    var s' := s - {y};
    assert |s'| == |s| - 1;
    if s' != {} {
      MinRealExists(s');
      var m :| m in s' && forall x :: x in s' ==> m <= x;
      var lo := if y < m then y else m;
      forall x | x in s ensures lo <= x {
        if x != y {
          assert x in s';
        }
      }
      assert lo in s;
    } else {
      forall x | x in s ensures y <= x {
        assert x !in s';
      }
    }
  }

  ghost function MinReal(s: set<real>): (m: real)
    requires s != {}
    ensures m in s && forall x :: x in s ==> m <= x
  {
    MinRealExists(s);
    var m :| m in s && forall x :: x in s ==> m <= x; m
  }

  /** The keys of a std::map<double, ...> in iteration (ascending) order. */
  ghost function SortedReals(s: set<real>): (r: seq<real>)
    ensures |r| == |s|
    ensures forall i :: 0 <= i < |r| ==> r[i] in s
    ensures forall x :: x in s ==> x in r
    decreases |s|
  {
    if s == {} then []
    else
      var m := MinReal(s);
      [m] + SortedReals(s - {m})
  }

  /** The keys come out strictly ascending. */
  lemma {:induction false} SortedRealsIncreasing(s: set<real>)
    ensures forall i, j :: 0 <= i < j < |SortedReals(s)| ==> SortedReals(s)[i] < SortedReals(s)[j]
    decreases |s|
  {
    if s != {} {
      var m := MinReal(s);
      var t := SortedReals(s - {m});
      SortedRealsIncreasing(s - {m});
      forall i | 0 <= i < |t| ensures m < t[i] {
        assert t[i] in s - {m};
      }
      ConsRealIncreasing(m, t);
    }
  }

  lemma ConsRealIncreasing(m: real, t: seq<real>)
    requires forall i :: 0 <= i < |t| ==> m < t[i]
    requires forall i, j :: 0 <= i < j < |t| ==> t[i] < t[j]
    ensures forall i, j :: 0 <= i < j < |[m] + t| ==> ([m] + t)[i] < ([m] + t)[j]
  {
    forall i, j | 0 <= i < j < |[m] + t| ensures ([m] + t)[i] < ([m] + t)[j] {
      if i > 0 {
        assert ([m] + t)[i] == t[i - 1];
      }
    }
  }

  /** Iterating a std::map<double, ...> visits its smallest key first. */
  lemma SortedRealsHead(s: set<real>, m: real)
    requires m in s && forall x :: x in s ==> m <= x
    ensures SortedReals(s) == [m] + SortedReals(s - {m})
  {
    var m' := MinReal(s);
    assert m <= m' && m' <= m;
  }

  lemma {:induction false} MinIntExists(s: set<int>)
    requires s != {}
    ensures exists m :: m in s && forall x :: x in s ==> m <= x
    decreases |s|
  {
    IntSetHasElement(s);
    var y :| y in s;
    var s' := s - {y};
    assert |s'| == |s| - 1;
    if s' != {} {
      MinIntExists(s');
      var m :| m in s' && forall x :: x in s' ==> m <= x;
      var lo := if y < m then y else m;
      forall x | x in s ensures lo <= x {
        if x != y {
          assert x in s';
        }
      }
      assert lo in s;
    } else {
      forall x | x in s ensures y <= x {
        assert x !in s';
      }
    }
  }

  ghost function MinInt(s: set<int>): (m: int)
    requires s != {}
    ensures m in s && forall x :: x in s ==> m <= x
  {
    MinIntExists(s);
    var m :| m in s && forall x :: x in s ==> m <= x; m
  }

  /** The keys of a std::map<int, ...> in iteration (ascending) order. */
  ghost function SortedInts(s: set<int>): (r: seq<int>)
    ensures |r| == |s|
    ensures forall i :: 0 <= i < |r| ==> r[i] in s
    ensures forall x :: x in s ==> x in r
    decreases |s|
  {
    if s == {} then []
    else
      var m := MinInt(s);
      [m] + SortedInts(s - {m})
  }

  /** The keys come out strictly ascending. */
  lemma {:induction false} SortedIntsIncreasing(s: set<int>)
    ensures forall i, j :: 0 <= i < j < |SortedInts(s)| ==> SortedInts(s)[i] < SortedInts(s)[j]
    decreases |s|
  {
    if s != {} {
      var m := MinInt(s);
      var t := SortedInts(s - {m});
      SortedIntsIncreasing(s - {m});
      forall i | 0 <= i < |t| ensures m < t[i] {
        assert t[i] in s - {m};
      }
      ConsIntIncreasing(m, t);
    }
  }

  lemma ConsIntIncreasing(m: int, t: seq<int>)
    requires forall i :: 0 <= i < |t| ==> m < t[i]
    requires forall i, j :: 0 <= i < j < |t| ==> t[i] < t[j]
    ensures forall i, j :: 0 <= i < j < |[m] + t| ==> ([m] + t)[i] < ([m] + t)[j]
  {
    forall i, j | 0 <= i < j < |[m] + t| ensures ([m] + t)[i] < ([m] + t)[j] {
      if i > 0 {
        assert ([m] + t)[i] == t[i - 1];
      }
    }
  }

  /** Iterating a std::map<int, ...> visits its smallest key first. */
  lemma SortedIntsHead(s: set<int>, m: int)
    requires m in s && forall x :: x in s ==> m <= x
    ensures SortedInts(s) == [m] + SortedInts(s - {m})
  {
    var m' := MinInt(s);
    assert m <= m' && m' <= m;
  }

  /** The "keep the first strictly larger count" scan over map entries in key
      order, as `for (auto [label, count] : counts) if (count > maxCount) ...`. */
  ghost function ScanMax<T>(counts: map<T, nat>, keys: seq<T>, best: T, maxCount: int): T
    requires forall j :: 0 <= j < |keys| ==> keys[j] in counts
  {
    if |keys| == 0 then best
    else if counts[keys[0]] > maxCount then ScanMax(counts, keys[1..], keys[0], counts[keys[0]])
    else ScanMax(counts, keys[1..], best, maxCount)
  }

  /** The scan returns the first key (in scan order) with the largest count,
      unless no count beats the starting maximum. */
  lemma {:induction false} ScanMaxSpec<T>(counts: map<T, nat>, keys: seq<T>, best: T, maxCount: int)
    requires forall j :: 0 <= j < |keys| ==> keys[j] in counts
    ensures var r := ScanMax(counts, keys, best, maxCount);
      ((forall j :: 0 <= j < |keys| ==> counts[keys[j]] <= maxCount) && r == best) ||
      (exists i :: 0 <= i < |keys| && keys[i] == r && maxCount < counts[r] &&
         (forall j :: 0 <= j < |keys| ==> counts[keys[j]] <= counts[r]) &&
         (forall j :: 0 <= j < i ==> counts[keys[j]] < counts[r]))
    decreases |keys|
  {
    if |keys| > 0 {
      var k := keys[0];
      var rest := keys[1..];
      assert forall j :: 1 <= j < |keys| ==> keys[j] == rest[j - 1];
      if counts[k] > maxCount {
        ScanMaxSpec(counts, rest, k, counts[k]);
        var r := ScanMax(counts, rest, k, counts[k]);
        if !(forall j :: 0 <= j < |rest| ==> counts[rest[j]] <= counts[k]) || r != k {
          var i :| 0 <= i < |rest| && rest[i] == r && counts[k] < counts[r] &&
            (forall j :: 0 <= j < |rest| ==> counts[rest[j]] <= counts[r]) &&
            (forall j :: 0 <= j < i ==> counts[rest[j]] < counts[r]);
          assert keys[i + 1] == r;
        } else {
          assert keys[0] == r;
        }
      } else {
        ScanMaxSpec(counts, rest, best, maxCount);
        var r := ScanMax(counts, rest, best, maxCount);
        if !(forall j :: 0 <= j < |rest| ==> counts[rest[j]] <= maxCount) || r != best {
          var i :| 0 <= i < |rest| && rest[i] == r && maxCount < counts[r] &&
            (forall j :: 0 <= j < |rest| ==> counts[rest[j]] <= counts[r]) &&
            (forall j :: 0 <= j < i ==> counts[rest[j]] < counts[r]);
          assert keys[i + 1] == r;
        }
      }
    }
  }
}
