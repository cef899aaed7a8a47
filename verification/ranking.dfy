/** Filtering, stable sorting and top-k selection over sequences.

    The source ranks in two places: SQLite's `ORDER BY timestamp DESC LIMIT n`
    and Python's `list.sort(key=..., reverse=True)` followed by `[:n]`. Both are
    modelled by one stable insertion sort parameterised by a ranking relation
    `le`, where `le(a, b)` means "a may be listed before b". */
module Ranking {

  ghost predicate Total<T(!new)>(le: (T, T) -> bool)
  {
    forall a, b :: le(a, b) || le(b, a)
  }

  ghost predicate Transitive<T(!new)>(le: (T, T) -> bool)
  {
    // The conclusion is part of the trigger, so instantiations create no new terms.
    forall a, b, c {:trigger le(a, c), le(a, b), le(b, c)} :: le(a, b) && le(b, c) ==> le(a, c)
  }

  /** `le` is total and transitive: ties are allowed, cycles are not. */
  ghost predicate TotalPreorder<T(!new)>(le: (T, T) -> bool)
  {
    Total(le) && Transitive(le)
  }

  predicate Sorted<T>(s: seq<T>, le: (T, T) -> bool)
  {
    forall i, j :: 0 <= i < j < |s| ==> le(s[i], s[j])
  }

  predicate Tied<T>(a: T, b: T, le: (T, T) -> bool)
  {
    le(a, b) && le(b, a)
  }

  /** The elements of `s` satisfying `p`, in their original order. */
  function Filter<T(!new)>(s: seq<T>, p: T -> bool): (r: seq<T>)
    ensures forall x :: x in r <==> x in s && p(x)
    ensures multiset(r) <= multiset(s)
    ensures |r| <= |s|
    ensures s == [] ==> r == []
  {
    if s == [] then []
    else
      assert s == [s[0]] + s[1..];
      (if p(s[0]) then [s[0]] else []) + Filter(s[1..], p)
  }

  lemma {:induction false} FilterAppend<T(!new)>(s: seq<T>, x: T, p: T -> bool)
    ensures Filter(s + [x], p) == Filter(s, p) + (if p(x) then [x] else [])
  {
    if s == [] {
      assert s + [x] == [x];
    } else {
      assert (s + [x])[1..] == s[1..] + [x];
      FilterAppend(s[1..], x, p);
    }
  }

  lemma {:induction false} FilterNone<T(!new)>(s: seq<T>, p: T -> bool)
    requires forall x :: x in s ==> !p(x)
    ensures Filter(s, p) == []
  {
    if s != [] {
      assert s[0] in s;
      FilterNone(s[1..], p);
    }
  }

  /** Inserts `x` in front of the first element it ranks at least as high as. */
  function Insert<T>(x: T, s: seq<T>, le: (T, T) -> bool): (r: seq<T>)
    ensures multiset(r) == multiset{x} + multiset(s)
    ensures |r| == |s| + 1
  {
    if s == [] then [x]
    else if le(x, s[0]) then [x] + s
    else
      assert s == [s[0]] + s[1..];
      [s[0]] + Insert(x, s[1..], le)
  }

  /** Insertion sort; an element is inserted in front of every later element it
      ties with, so equally ranked elements keep their input order. */
  function Sort<T>(s: seq<T>, le: (T, T) -> bool): (r: seq<T>)
    ensures multiset(r) == multiset(s)
    ensures |r| == |s|
  {
    if s == [] then []
    else
      assert s == [s[0]] + s[1..];
      Insert(s[0], Sort(s[1..], le), le)
  }

  /** The first `k` elements (`s[:k]` in Python, `LIMIT k` in SQL). */
  function Take<T>(s: seq<T>, k: nat): (r: seq<T>)
    ensures |r| == (if k < |s| then k else |s|)
    ensures r <= s
  {
    if k < |s| then s[..k] else s
  }

  function Reverse<T>(s: seq<T>): (r: seq<T>)
    ensures |r| == |s|
    ensures forall i :: 0 <= i < |s| ==> r[i] == s[|s| - 1 - i]
    ensures multiset(r) == multiset(s)
  {
    if s == [] then []
    else
      assert s == [s[0]] + s[1..];
      Reverse(s[1..]) + [s[0]]
  }

  lemma {:induction false} InsertSorted<T(!new)>(x: T, s: seq<T>, le: (T, T) -> bool)
    requires TotalPreorder(le) && Sorted(s, le)
    ensures Sorted(Insert(x, s, le), le)
  {
    if s == [] {
    } else if le(x, s[0]) {
      var r := [x] + s;
      forall i, j | 0 <= i < j < |r|
        ensures le(r[i], r[j])
      {
        if i == 0 && j > 1 {
          assert le(s[0], s[j - 1]);
        }
      }
    } else {
      assert le(s[0], x);
      var tail := s[1..];
      assert Sorted(tail, le) by {
        forall i, j | 0 <= i < j < |tail|
          ensures le(tail[i], tail[j])
        {
          assert tail[i] == s[i + 1] && tail[j] == s[j + 1];
        }
      }
      InsertSorted(x, tail, le);
      var t := Insert(x, tail, le);
      forall j | 0 <= j < |t|
        ensures le(s[0], t[j])
      {
        assert t[j] in multiset(t);
        if t[j] != x {
          assert t[j] in multiset(tail);
          var k :| 0 <= k < |tail| && tail[k] == t[j];
          assert tail[k] == s[k + 1];
        }
      }
      var r := [s[0]] + t;
      forall i, j | 0 <= i < j < |r|
        ensures le(r[i], r[j])
      {
        if i == 0 {
          assert r[j] == t[j - 1];
        } else {
          assert r[i] == t[i - 1] && r[j] == t[j - 1];
        }
      }
    }
  }

  lemma {:induction false} SortSorted<T(!new)>(s: seq<T>, le: (T, T) -> bool)
    requires TotalPreorder(le)
    ensures Sorted(Sort(s, le), le)
  {
    if s != [] {
      SortSorted(s[1..], le);
      InsertSorted(s[0], Sort(s[1..], le), le);
    }
  }

  /** The elements of `s` that tie with `x`, in their order in `s`. */
  function TiesOf<T>(s: seq<T>, x: T, le: (T, T) -> bool): seq<T>
  {
    if s == [] then [] else (if Tied(s[0], x, le) then [s[0]] else []) + TiesOf(s[1..], x, le)
  }

  lemma TiesCons<T>(h: T, t: seq<T>, x: T, le: (T, T) -> bool)
    ensures TiesOf([h] + t, x, le) == (if Tied(h, x, le) then [h] else []) + TiesOf(t, x, le)
  {
    assert ([h] + t)[1..] == t;
  }

  /** Everything tied with `x` ranks at least as high as everything else tied with `x`. */
  ghost predicate TieClassCoherent<T(!new)>(x: T, le: (T, T) -> bool)
  {
    forall a, b :: Tied(a, x, le) && Tied(b, x, le) ==> le(a, b)
  }

  lemma TransitiveTieClass<T(!new)>(x: T, le: (T, T) -> bool)
    requires Transitive(le)
    ensures TieClassCoherent(x, le)
  {
  }

  lemma SwapEmpty<T>(a: seq<T>, b: seq<T>, r: seq<T>)
    requires a == [] || b == []
    ensures a + (b + r) == b + (a + r)
  {
  }

  lemma {:induction false} InsertTies<T(!new)>(y: T, s: seq<T>, x: T, le: (T, T) -> bool)
    requires TieClassCoherent(x, le)
    ensures TiesOf(Insert(y, s, le), x, le) == (if Tied(y, x, le) then [y] else []) + TiesOf(s, x, le)
  {
    var ys := if Tied(y, x, le) then [y] else [];
    if s == [] {
    } else if le(y, s[0]) {
      TiesCons(y, s, x, le);
    } else {
      var t := Insert(y, s[1..], le);
      var hs := if Tied(s[0], x, le) then [s[0]] else [];
      var rest := TiesOf(s[1..], x, le);
      assert ys == [] || hs == [];
      calc {
        TiesOf(Insert(y, s, le), x, le);
        TiesOf([s[0]] + t, x, le);
        { TiesCons(s[0], t, x, le); }
        hs + TiesOf(t, x, le);
        { InsertTies(y, s[1..], x, le); }
        hs + (ys + rest);
        { SwapEmpty(hs, ys, rest); }
        ys + (hs + rest);
        { TiesCons(s[0], s[1..], x, le); assert [s[0]] + s[1..] == s; }
        ys + TiesOf(s, x, le);
      }
    }
  }

  /** Stability: for every pivot `x`, the elements tied with `x` appear in the
      sorted output in exactly their input order. */
  lemma {:induction false} SortStable<T(!new)>(s: seq<T>, x: T, le: (T, T) -> bool)
    requires TieClassCoherent(x, le)
    ensures TiesOf(Sort(s, le), x, le) == TiesOf(s, x, le)
  {
    if s != [] {
      SortStable(s[1..], x, le);
      InsertTies(s[0], Sort(s[1..], le), x, le);
    }
  }

  /** In a sorted sequence, every element of the first `k` ranks at least as
      high as every element left out. */
  lemma TakeOfSortedIsTop<T>(s: seq<T>, k: nat, le: (T, T) -> bool)
    requires Sorted(s, le)
    ensures forall x, y :: x in Take(s, k) && y in multiset(s) - multiset(Take(s, k)) ==> le(x, y)
  {
    if k < |s| {
      assert s == s[..k] + s[k..];
      assert multiset(s) - multiset(s[..k]) == multiset(s[k..]);
      forall x, y | x in s[..k] && y in multiset(s) - multiset(s[..k])
        ensures le(x, y)
      {
        var i :| 0 <= i < k && s[..k][i] == x;
        assert y in s[k..];
        var j :| 0 <= j < |s| - k && s[k..][j] == y;
        assert s[i] == x && s[k + j] == y;
      }
    } else {
      assert multiset(s) - multiset(Take(s, k)) == multiset{};
    }
  }

  /** The `k` best elements of `s` under `le`, best first. */
  function Top<T(!new)>(s: seq<T>, k: nat, le: (T, T) -> bool): (r: seq<T>)
    requires TotalPreorder(le)
    ensures |r| == (if k < |s| then k else |s|)
    ensures multiset(r) <= multiset(s)
    ensures Sorted(r, le)
    ensures forall x, y :: x in r && y in multiset(s) - multiset(r) ==> le(x, y)
    ensures forall x :: TiesOf(r, x, le) <= TiesOf(s, x, le)
  {
    var sorted := Sort(s, le);
    SortSorted(s, le);
    TakeOfSortedIsTop(sorted, k, le);
    TakeTies(sorted, k, le);
    forall x ensures TiesOf(Take(sorted, k), x, le) <= TiesOf(s, x, le) {
      TransitiveTieClass(x, le);
      SortStable(s, x, le);
    }
    assert multiset(Take(sorted, k)) <= multiset(sorted) by {
      assert sorted == Take(sorted, k) + sorted[|Take(sorted, k)|..];
    }
    Take(sorted, k)
  }

  /** Cutting a sequence keeps a prefix of each tie class. */
  lemma TakeTies<T>(s: seq<T>, k: nat, le: (T, T) -> bool)
    ensures forall x :: TiesOf(Take(s, k), x, le) <= TiesOf(s, x, le)
  {
    forall x ensures TiesOf(Take(s, k), x, le) <= TiesOf(s, x, le) {
      PrefixTies(Take(s, k), s, x, le);
    }
  }

  lemma {:induction false} PrefixTies<T>(p: seq<T>, s: seq<T>, x: T, le: (T, T) -> bool)
    requires p <= s
    ensures TiesOf(p, x, le) <= TiesOf(s, x, le)
  {
    if p != [] {
      assert p[0] == s[0];
      PrefixTies(p[1..], s[1..], x, le);
    }
  }
}
