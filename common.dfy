/** Small shared vocabulary: optional values, Python truthiness of nullable text,
    Python's ordering of `str`, and the list helpers the pipeline is stated with. */
module Common {

  datatype Option<T> = None | Some(value: T)

  /** Python truthiness of a nullable text column: NULL and "" are falsy. */
  predicate Truthy(s: Option<string>) {
    s.Some? && s.value != ""
  }

  /** Python's `a <= b` on `str`: lexicographic by code point, a prefix sorts first. */
  predicate StrLe(a: string, b: string)
  {
    if a == [] then true
    else if b == [] then false
    else if a[0] != b[0] then a[0] < b[0]
    else StrLe(a[1..], b[1..])
  }

  lemma {:induction false} StrLeTotal(a: string, b: string)
    ensures StrLe(a, b) || StrLe(b, a)
  {
    if a != [] && b != [] && a[0] == b[0] {
      StrLeTotal(a[1..], b[1..]);
    }
  }

  lemma {:induction false} StrLeAntisymmetric(a: string, b: string)
    requires StrLe(a, b) && StrLe(b, a)
    ensures a == b
  {
    if a != [] && b != [] {
      StrLeAntisymmetric(a[1..], b[1..]);
      assert a == [a[0]] + a[1..];
      assert b == [b[0]] + b[1..];
    }
  }

  lemma {:induction false} StrLeTransitive(a: string, b: string, c: string)
    requires StrLe(a, b) && StrLe(b, c)
    ensures StrLe(a, c)
  {
    if a != [] && b != [] && c != [] && a[0] == b[0] && b[0] == c[0] {
      StrLeTransitive(a[1..], b[1..], c[1..]);
    }
  }

  /** The elements of `s` that satisfy `p`, in their original order (a list comprehension with a filter). */
  function Select<T>(s: seq<T>, p: T -> bool): (r: seq<T>)
    ensures |r| <= |s|
    ensures forall i :: 0 <= i < |r| ==> r[i] in s && p(r[i])
    ensures forall i :: 0 <= i < |s| && p(s[i]) ==> s[i] in r
  {
    if s == [] then []
    else (if p(s[0]) then [s[0]] else []) + Select(s[1..], p)
  }

  lemma {:induction false} SelectAppend<T>(a: seq<T>, b: seq<T>, p: T -> bool)
    ensures Select(a + b, p) == Select(a, p) + Select(b, p)
  {
    if a == [] {
      assert a + b == b;
    } else {
      assert (a + b)[1..] == a[1..] + b;
      SelectAppend(a[1..], b, p);
    }
  }

  /** Selecting every element keeps the list; selecting none empties it. */
  lemma {:induction false} SelectAll<T>(s: seq<T>, p: T -> bool)
    requires forall x :: x in s ==> p(x)
    ensures Select(s, p) == s
  {
    if s != [] {
      SelectAll(s[1..], p);
    }
  }

  lemma {:induction false} SelectNone<T>(s: seq<T>, p: T -> bool)
    requires forall x :: x in s ==> !p(x)
    ensures Select(s, p) == []
  {
    if s != [] {
      SelectNone(s[1..], p);
    }
  }

  /** Multiset view of Select: the count of each element is kept or dropped. */
  lemma {:induction false} SelectMultiset<T>(s: seq<T>, p: T -> bool)
    ensures multiset(Select(s, p)) <= multiset(s)
  {
    if s != [] {
      SelectMultiset(s[1..], p);
      assert s == [s[0]] + s[1..];
    }
  }

  /** Concatenation of a list of lists (what `[x for g in gs for x in g]` builds). */
  function Flatten<T>(ss: seq<seq<T>>): seq<T>
  {
    if ss == [] then [] else ss[0] + Flatten(ss[1..])
  }

  lemma {:induction false} FlattenMember<T>(ss: seq<seq<T>>, i: nat, x: T)
    requires i < |ss| && x in ss[i]
    ensures x in Flatten(ss)
  {
    if i > 0 {
      FlattenMember(ss[1..], i - 1, x);
    }
  }

  lemma {:induction false} FlattenMemberInv<T>(ss: seq<seq<T>>, x: T)
    requires x in Flatten(ss)
    ensures exists i :: 0 <= i < |ss| && x in ss[i]
  {
    if x !in ss[0] {
      FlattenMemberInv(ss[1..], x);
      var i :| 0 <= i < |ss[1..]| && x in ss[1..][i];
      assert x in ss[i + 1];
    }
  }

  lemma {:induction false} FlattenAppend<T>(a: seq<seq<T>>, b: seq<seq<T>>)
    ensures Flatten(a + b) == Flatten(a) + Flatten(b)
  {
    if a == [] {
      assert a + b == b;
    } else {
      assert (a + b)[1..] == a[1..] + b;
      FlattenAppend(a[1..], b);
    }
  }

  /** `a` is `b` with some elements left out, the rest in their original order. */
  predicate SubsequenceOf<T(==)>(a: seq<T>, b: seq<T>)
    decreases |b|
  {
    if a == [] then true
    else if b == [] then false
    else if a[|a| - 1] == b[|b| - 1] && SubsequenceOf(a[..|a| - 1], b[..|b| - 1]) then true
    else SubsequenceOf(a, b[..|b| - 1])
  }

  /** A subsequence stays one when the list grows, with or without the new element. */
  lemma SubsequenceExtend<T>(a: seq<T>, a': seq<T>, b: seq<T>, x: T)
    requires SubsequenceOf(a, b)
    requires a' == a || a' == a + [x]
    ensures SubsequenceOf(a', b + [x])
  {
    assert (b + [x])[..|b|] == b;
    assert (a + [x])[..|a|] == a;
  }

  /** A subsequence is no longer than the list and takes its elements from it. */
  lemma {:induction false} SubsequenceMembers<T>(a: seq<T>, b: seq<T>)
    requires SubsequenceOf(a, b)
    ensures |a| <= |b|
    ensures forall x :: x in a ==> x in b
    decreases |b|
  {
    if a != [] {
      var b' := b[..|b| - 1];
      if a[|a| - 1] == b[|b| - 1] && SubsequenceOf(a[..|a| - 1], b') {
        SubsequenceMembers(a[..|a| - 1], b');
        forall x | x in a ensures x in b {
          if x != a[|a| - 1] {
            assert x in a[..|a| - 1];
            assert x in b';
          }
        }
      } else {
        SubsequenceMembers(a, b');
        forall x | x in a ensures x in b {
          assert x in b';
        }
      }
    }
  }

  /** `f` applied to each of the first `k` elements of `xs`, in order. */
  function MapPrefix<T, U>(xs: seq<T>, f: T --> U, k: nat): (ys: seq<U>)
    requires k <= |xs| && forall i :: 0 <= i < k ==> f.requires(xs[i])
    ensures |ys| == k
    ensures forall i :: 0 <= i < k ==> ys[i] == f(xs[i])
  {
    if k == 0 then [] else MapPrefix(xs, f, k - 1) + [f(xs[k - 1])]
  }
}
