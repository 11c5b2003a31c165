/** Python's `list.sort` and `itertools.groupby`, as the pipeline uses them.

    `list.sort(key=k, reverse=b)` is stable: elements whose keys compare equal keep
    their relative order, also when `reverse=True`. It is modelled by `Sort(s, le)`,
    an insertion sort in which `le(a, b)` says "a may stand before b"; the element
    taken from the front of the input is inserted ahead of every element it may
    precede, which is exactly what keeps equal elements in input order.

    `itertools.groupby(s, key)` cuts `s` into maximal runs of consecutive elements
    with equal keys; it is modelled by `GroupRuns`. */
module Sorting {
  import opened Common

  ghost predicate TotalPreorder<T(!new)>(le: (T, T) -> bool) {
    && (forall a, b :: le(a, b) || le(b, a))
    && (forall a, b, c :: le(a, b) && le(b, c) ==> le(a, c))
  }

  ghost predicate SortedBy<T>(s: seq<T>, le: (T, T) -> bool) {
    forall i, j :: 0 <= i < j < |s| ==> le(s[i], s[j])
  }

  /** `a` and `b` have equal sort keys. */
  predicate Equivalent<T>(le: (T, T) -> bool, a: T, b: T) {
    le(a, b) && le(b, a)
  }

  /** Insert `x` ahead of the first element it may precede. */
  function Insert<T>(x: T, s: seq<T>, le: (T, T) -> bool): (r: seq<T>)
    ensures multiset(r) == multiset(s) + multiset{x}
  {
    if s == [] || le(x, s[0]) then [x] + s
    else
      assert s == [s[0]] + s[1..];
      [s[0]] + Insert(x, s[1..], le)
  }

  /** The stable sort of `s` under `le`. */
  function Sort<T>(s: seq<T>, le: (T, T) -> bool): (r: seq<T>)
    ensures multiset(r) == multiset(s)
    ensures |r| == |s|
  {
    if s == [] then []
    else
      assert s == [s[0]] + s[1..];
      Insert(s[0], Sort(s[1..], le), le)
  }

  lemma {:induction false} InsertSorted<T(!new)>(x: T, s: seq<T>, le: (T, T) -> bool)
    requires TotalPreorder(le) && SortedBy(s, le)
    ensures SortedBy(Insert(x, s, le), le)
  {
    if s == [] || le(x, s[0]) {
    } else {
      var t := Insert(x, s[1..], le);
      InsertSorted(x, s[1..], le);
      forall y | y in t ensures le(s[0], y) {
        assert y in multiset(t);
        if y != x {
          assert y in s[1..];
        }
      }
      assert Insert(x, s, le) == [s[0]] + t;
    }
  }

  /** The result of `Sort` is in order: every element may stand before every later one. */
  lemma {:induction false} SortSorted<T(!new)>(s: seq<T>, le: (T, T) -> bool)
    requires TotalPreorder(le)
    ensures SortedBy(Sort(s, le), le)
  {
    if s != [] {
      SortSorted(s[1..], le);
      InsertSorted(s[0], Sort(s[1..], le), le);
    }
  }

  /** The elements of `s` whose key equals the key of `k`, in order. */
  function EquivalentTo<T>(s: seq<T>, le: (T, T) -> bool, k: T): seq<T>
  {
    if s == [] then []
    else (if Equivalent(le, s[0], k) then [s[0]] else []) + EquivalentTo(s[1..], le, k)
  }

  lemma EquivalentToCons<T>(a: T, s: seq<T>, le: (T, T) -> bool, k: T)
    ensures EquivalentTo([a] + s, le, k) == (if Equivalent(le, a, k) then [a] else []) + EquivalentTo(s, le, k)
  {
    assert ([a] + s)[1..] == s;
  }

  lemma {:induction false} InsertStable<T(!new)>(x: T, s: seq<T>, le: (T, T) -> bool, k: T)
    requires TotalPreorder(le) && SortedBy(s, le)
    ensures EquivalentTo(Insert(x, s, le), le, k)
         == (if Equivalent(le, x, k) then [x] else []) + EquivalentTo(s, le, k)
    decreases |s|, 1
  {
    if s == [] || le(x, s[0]) {
      EquivalentToCons(x, s, le, k);
    } else {
      InsertStableStep(x, s, le, k);
    }
  }

  lemma {:induction false} InsertStableStep<T(!new)>(x: T, s: seq<T>, le: (T, T) -> bool, k: T)
    requires TotalPreorder(le) && SortedBy(s, le) && s != [] && !le(x, s[0])
    ensures EquivalentTo(Insert(x, s, le), le, k)
         == (if Equivalent(le, x, k) then [x] else []) + EquivalentTo(s, le, k)
    decreases |s|, 0
  {
    var t := Insert(x, s[1..], le);
    var ex := if Equivalent(le, x, k) then [x] else [];
    var e0 := if Equivalent(le, s[0], k) then [s[0]] else [];
    var rest := EquivalentTo(s[1..], le, k);
    calc {
      EquivalentTo(Insert(x, s, le), le, k);
      { assert Insert(x, s, le) == [s[0]] + t; }
      EquivalentTo([s[0]] + t, le, k);
      { EquivalentToCons(s[0], t, le, k); }
      e0 + EquivalentTo(t, le, k);
      { assert SortedBy(s[1..], le); InsertStable(x, s[1..], le, k); }
      e0 + (ex + rest);
      { KeyExclusive(le, x, s[0], k); SwapExclusive(e0, ex, rest); }
      ex + (e0 + rest);
      { EquivalentToCons(s[0], s[1..], le, k); assert [s[0]] + s[1..] == s; }
      ex + EquivalentTo(s, le, k);
    }
  }

  /** Two elements with `k`'s key may stand before each other, so when `x` may
      not stand before `y`, at most one of them has `k`'s key. */
  lemma KeyExclusive<T(!new)>(le: (T, T) -> bool, x: T, y: T, k: T)
    requires TotalPreorder(le) && !le(x, y)
    ensures !Equivalent(le, x, k) || !Equivalent(le, y, k)
  {
  }

  /** Two prefixes of which one is empty can be swapped. */
  lemma SwapExclusive<T>(a: seq<T>, b: seq<T>, rest: seq<T>)
    requires a == [] || b == []
    ensures a + (b + rest) == b + (a + rest)
  {
    if a == [] {
      assert a + (b + rest) == b + rest;
    } else {
      assert b + (a + rest) == a + rest;
    }
  }

  /** Stability: among elements with equal keys, `Sort` keeps the input order. */
  lemma {:induction false} SortStable<T(!new)>(s: seq<T>, le: (T, T) -> bool, k: T)
    requires TotalPreorder(le)
    ensures EquivalentTo(Sort(s, le), le, k) == EquivalentTo(s, le, k)
  {
    if s != [] {
      SortStable(s[1..], le, k);
      SortSorted(s[1..], le);
      InsertStable(s[0], Sort(s[1..], le), le, k);
    }
  }

  /** `itertools.groupby(s, key)`: the maximal runs of consecutive equal keys. */
  function GroupRuns<T>(s: seq<T>, key: T -> string): (r: seq<seq<T>>)
    ensures forall i :: 0 <= i < |r| ==> r[i] != []
    ensures s != [] ==> r != [] && r[0][0] == s[0]
    ensures s == [] ==> r == []
  {
    if s == [] then []
    else
      var rest := GroupRuns(s[1..], key);
      if rest != [] && key(rest[0][0]) == key(s[0]) then [[s[0]] + rest[0]] + rest[1..]
      else [[s[0]]] + rest
  }

  /** The runs put back together give the input: groupby loses and reorders nothing. */
  lemma {:induction false} GroupRunsFlatten<T>(s: seq<T>, key: T -> string)
    ensures Flatten(GroupRuns(s, key)) == s
  {
    if s != [] {
      var rest := GroupRuns(s[1..], key);
      GroupRunsFlatten(s[1..], key);
      var r := GroupRuns(s, key);
      if rest != [] && key(rest[0][0]) == key(s[0]) {
        assert r[1..] == rest[1..];
        assert Flatten(rest) == rest[0] + Flatten(rest[1..]);
        assert s == [s[0]] + s[1..];
      } else {
        assert r[1..] == rest;
        assert s == [s[0]] + s[1..];
      }
    }
  }

  /** Every element of a run has the key of the run's first element, and
      neighbouring runs have different keys. */
  ghost predicate RunsUniform<T>(r: seq<seq<T>>, key: T -> string) {
    forall i, x :: 0 <= i < |r| && r[i] != [] && x in r[i] ==> key(x) == key(r[i][0])
  }

  ghost predicate NeighboursDiffer<T>(r: seq<seq<T>>, key: T -> string) {
    forall i :: 0 < i < |r| && r[i - 1] != [] && r[i] != [] ==> key(r[i - 1][0]) != key(r[i][0])
  }

  lemma {:induction false} GroupRunsUniform<T>(s: seq<T>, key: T -> string)
    ensures RunsUniform(GroupRuns(s, key), key)
    ensures NeighboursDiffer(GroupRuns(s, key), key)
  {
    if s != [] {
      GroupRunsUniform(s[1..], key);
      var rest := GroupRuns(s[1..], key);
      var r := GroupRuns(s, key);
      if rest != [] && key(rest[0][0]) == key(s[0]) {
        assert r[0] == [s[0]] + rest[0];
        forall i | 0 < i < |r| ensures r[i] == rest[i] {
        }
        forall i, x | 0 <= i < |r| && x in r[i] ensures key(x) == key(r[i][0]) {
          if i == 0 && x != s[0] {
            assert x in rest[0];
          }
        }
        forall i | 0 < i < |r| ensures key(r[i - 1][0]) != key(r[i][0]) {
          assert key(rest[i - 1][0]) != key(rest[i][0]);
        }
      } else {
        assert r[0] == [s[0]];
        forall i | 0 < i < |r| ensures r[i] == rest[i - 1] {
        }
        forall i | 1 < i < |r| ensures key(r[i - 1][0]) != key(r[i][0]) {
          assert key(rest[i - 2][0]) != key(rest[i - 1][0]);
        }
      }
    }
  }

  /** When the keys are in ascending `str` order, no key appears in two runs:
      sort-then-groupby partitions by key. */
  lemma {:induction false} GroupRunsDistinct<T>(s: seq<T>, key: T -> string)
    requires forall i, j :: 0 <= i < j < |s| ==> StrLe(key(s[i]), key(s[j]))
    ensures forall i, j :: 0 <= i < j < |GroupRuns(s, key)| ==>
      key(GroupRuns(s, key)[i][0]) != key(GroupRuns(s, key)[j][0])
  {
    if s != [] {
      var rest := GroupRuns(s[1..], key);
      var r := GroupRuns(s, key);
      GroupRunsDistinct(s[1..], key);
      assert forall a, b :: 0 <= a < b < |rest| ==> key(rest[a][0]) != key(rest[b][0]);
      if rest != [] && key(rest[0][0]) == key(s[0]) {
        assert r[0][0] == s[0];
        forall i, j | 0 <= i < j < |r| ensures key(r[i][0]) != key(r[j][0]) {
          assert r[j] == rest[j];
          if i > 0 {
            assert r[i] == rest[i];
          } else {
            assert key(rest[0][0]) != key(rest[j][0]);
          }
        }
      } else {
        forall i, j | 0 <= i < j < |r| ensures key(r[i][0]) != key(r[j][0]) {
          assert r[j] == rest[j - 1];
          if i == 0 {
            RunKeysAfter(s, key, j - 1);
          } else {
            assert r[i] == rest[i - 1];
          }
        }
      }
    }
  }

  /** When the first key differs from the second, no run of the rest has the first key. */
  lemma RunKeysAfter<T>(s: seq<T>, key: T -> string, j: nat)
    requires forall i, j :: 0 <= i < j < |s| ==> StrLe(key(s[i]), key(s[j]))
    requires 1 < |s| && key(s[1]) != key(s[0])
    requires j < |GroupRuns(s[1..], key)|
    ensures key(GroupRuns(s[1..], key)[j][0]) != key(s[0])
  {
    var rest := GroupRuns(s[1..], key);
    var y := rest[j][0];
    GroupRunsFlatten(s[1..], key);
    FlattenMember(rest, j, y);
    var p :| 0 <= p < |s[1..]| && s[1..][p] == y;
    StrLeTotal(key(s[1]), key(s[1]));
    assert StrLe(key(s[1]), key(y)) by {
      if p > 0 { assert s[1] == s[1..][0] && y == s[1..][p]; }
    }
    if key(s[0]) == key(y) {
      assert StrLe(key(s[0]), key(s[1]));
      StrLeAntisymmetric(key(s[0]), key(s[1]));
      assert false;
    }
  }
}
