/**
  Lists used as insertion-ordered collections: the `if x not in xs: xs.append(x)`
  idiom the scraper uses to collect distinct links, and the first-seen order of
  the keys of a Python dict.
*/
module Seqs {
  import opened Wrappers

  predicate NoDuplicates<T(==)>(s: seq<T>) {
    forall i, j :: 0 <= i < j < |s| ==> s[i] != s[j]
  }

  lemma NoDuplicatesSnoc<T>(s: seq<T>, x: T)
    requires NoDuplicates(s) && x !in s
    ensures NoDuplicates(s + [x])
  {
  }

  /** `s` with every element after its first occurrence removed. */
  function Dedup<T(==)>(s: seq<T>): seq<T> {
    if s == [] then []
    else
      var d := Dedup(s[..|s| - 1]);
      if s[|s| - 1] in d then d else d + [s[|s| - 1]]
  }

  /** Index of the first occurrence of `x` in `s`. */
  function FirstIndex<T(==)>(s: seq<T>, x: T): (k: nat)
    requires x in s
    ensures k < |s| && s[k] == x
    ensures forall j :: 0 <= j < k ==> s[j] != x
  {
    if s[0] == x then 0 else 1 + FirstIndex(s[1..], x)
  }

  /** The first `n` elements (all of them when there are fewer). */
  function Take<T>(s: seq<T>, n: nat): (r: seq<T>)
    ensures |r| == if |s| < n then |s| else n
  {
    if |s| <= n then s else s[..n]
  }

  /** What is kept is a prefix. */
  lemma TakePrefix<T>(s: seq<T>, n: nat)
    ensures Take(s, n) <= s
    ensures forall i :: 0 <= i < |Take(s, n)| ==> Take(s, n)[i] == s[i]
  {
  }

  lemma {:induction false} DedupElements<T>(s: seq<T>)
    ensures forall x :: x in Dedup(s) <==> x in s
  {
    if s != [] {
      var p := s[..|s| - 1];
      DedupElements(p);
      assert s == p + [s[|s| - 1]];
    }
  }

  lemma {:induction false} DedupNoDuplicates<T>(s: seq<T>)
    ensures NoDuplicates(Dedup(s))
  {
    if s != [] {
      DedupNoDuplicates(s[..|s| - 1]);
    }
  }

  /** Deduplicating a longer list only appends to the result for a shorter one. */
  lemma {:induction false} DedupPrefix<T>(a: seq<T>, b: seq<T>)
    ensures Dedup(a) <= Dedup(a + b)
  {
    if b != [] {
      var c := a + b[..|b| - 1];
      DedupPrefix(a, b[..|b| - 1]);
      assert (a + b)[..|a + b| - 1] == c;
    } else {
      assert a + b == a;
    }
  }

  lemma {:induction false} FirstIndexOfExtension<T>(s: seq<T>, x: T, y: T)
    requires y in s
    ensures y in s + [x] && FirstIndex(s + [x], y) == FirstIndex(s, y)
  {
    if s[0] != y {
      assert (s + [x])[1..] == s[1..] + [x];
      FirstIndexOfExtension(s[1..], x, y);
    }
  }

  lemma {:induction false} FirstIndexOfNew<T>(s: seq<T>, x: T)
    requires x !in s
    ensures x in s + [x] && FirstIndex(s + [x], x) == |s|
  {
    if s != [] {
      assert (s + [x])[1..] == s[1..] + [x];
      FirstIndexOfNew(s[1..], x);
    }
  }

  /** Elements of `Dedup(s)` appear in the order of their first occurrence in `s`. */
  lemma {:induction false} DedupFirstOccurrenceOrder<T>(s: seq<T>)
    ensures forall x :: x in Dedup(s) ==> x in s
    ensures forall i, j :: 0 <= i < j < |Dedup(s)| ==>
      Dedup(s)[i] in s && Dedup(s)[j] in s &&
      FirstIndex(s, Dedup(s)[i]) < FirstIndex(s, Dedup(s)[j])
  {
    DedupElements(s);
    if s != [] {
      var p, x := s[..|s| - 1], s[|s| - 1];
      assert s == p + [x];
      DedupFirstOccurrenceOrder(p);
      DedupElements(p);
      var d := Dedup(p);
      var e := Dedup(s);
      assert e == d || e == d + [x];
      forall i, j | 0 <= i < j < |e|
        ensures FirstIndex(s, e[i]) < FirstIndex(s, e[j])
      {
        assert e[i] == d[i];
        assert e[i] in p;
        FirstIndexOfExtension(p, x, e[i]);
        if j < |d| {
          assert e[j] == d[j];
          FirstIndexOfExtension(p, x, e[j]);
        } else {
          assert e[j] == x && x !in p;
          FirstIndexOfNew(p, x);
        }
      }
    }
  }

  /** The present values of `f` over `s`, in order: a loop that appends
      `f(x)` for each `x` when it is present. */
  function FilterMap<A, B>(f: A -> Option<B>, s: seq<A>): seq<B> {
    if s == [] then []
    else FilterMap(f, s[..|s| - 1]) + (if f(s[|s| - 1]).Some? then [f(s[|s| - 1]).value] else [])
  }

  lemma {:induction false} FilterMapConcat<A, B>(f: A -> Option<B>, a: seq<A>, b: seq<A>)
    ensures FilterMap(f, a + b) == FilterMap(f, a) + FilterMap(f, b)
    decreases |b|
  {
    if b == [] {
      assert a + b == a;
    } else {
      var b' := b[..|b| - 1];
      assert (a + b)[..|a + b| - 1] == a + b';
      assert (a + b)[|a + b| - 1] == b[|b| - 1];
      FilterMapConcat(f, a, b');
    }
  }

  /** Every value kept comes from an element. */
  lemma {:induction false} FilterMapSource<A, B>(f: A -> Option<B>, s: seq<A>, y: B) returns (k: nat)
    requires y in FilterMap(f, s)
    ensures k < |s| && f(s[k]) == Some(y)
  {
    var p := s[..|s| - 1];
    var last := if f(s[|s| - 1]).Some? then [f(s[|s| - 1]).value] else [];
    assert FilterMap(f, s) == FilterMap(f, p) + last;
    if y in FilterMap(f, p) {
      k := FilterMapSource(f, p, y);
      assert s[k] == p[k];
    } else {
      assert y in last;
      k := |s| - 1;
    }
  }

  /** Every element with a value contributes it, between the values of the
      elements before it and those of the elements after it. */
  lemma FilterMapKept<A, B>(f: A -> Option<B>, s: seq<A>, k: nat)
    requires k < |s| && f(s[k]).Some?
    ensures FilterMap(f, s) == FilterMap(f, s[..k]) + [f(s[k]).value] + FilterMap(f, s[k + 1..])
  {
    assert s == s[..k] + [s[k]] + s[k + 1..];
    FilterMapConcat(f, s[..k] + [s[k]], s[k + 1..]);
    FilterMapConcat(f, s[..k], [s[k]]);
    assert [s[k]][..0] == [];
  }

  /** The first index at or after `k` whose element satisfies `p`. */
  function FindFirst<T>(p: T -> bool, s: seq<T>, k: nat): (r: Option<nat>)
    requires k <= |s|
    ensures r.Some? ==> k <= r.value < |s| && p(s[r.value])
    ensures r.Some? ==> forall j :: k <= j < r.value ==> !p(s[j])
    ensures r.None? ==> forall j :: k <= j < |s| ==> !p(s[j])
    decreases |s| - k
  {
    if k == |s| then None
    else if p(s[k]) then Some(k)
    else FindFirst(p, s, k + 1)
  }

  lemma InPrefix<T>(s: seq<T>, t: seq<T>, x: T)
    requires s <= t && x in s
    ensures x in t
  {
    var i :| 0 <= i < |s| && s[i] == x;
    assert t[i] == x;
  }
}
