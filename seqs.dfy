/** Sequence helpers shared by the model: the in-memory counterparts of the
    document-store queries used by the backend (find, find_one, delete_one,
    delete_many) and of a few list operations of the front end. */
module Seqs {

  datatype Option<T> = None | Some(value: T)

  /** The elements of `s` that satisfy `keep`, in their original order
      (a `find` query, or a `delete_many` with the negated filter). */
  function Filter<T>(s: seq<T>, keep: T -> bool): (r: seq<T>)
    ensures |r| <= |s|
    ensures forall k :: 0 <= k < |r| ==> r[k] in s && keep(r[k])
  {
    if |s| == 0 then []
    else Filter(s[..|s| - 1], keep) + (if keep(s[|s| - 1]) then [s[|s| - 1]] else [])
  }

  /** Filtering with `p` and then with `q` is filtering once with their conjunction. */
  lemma {:induction false} FilterFilter<T>(s: seq<T>, p: T -> bool, q: T -> bool, pq: T -> bool)
    requires forall x :: pq(x) == (p(x) && q(x))
    ensures Filter(Filter(s, p), q) == Filter(s, pq)
  {
    if |s| > 0 {
      var init, last := s[..|s| - 1], s[|s| - 1];
      FilterFilter(init, p, q, pq);
      var fp := Filter(s, p);
      if p(last) {
        assert fp == Filter(init, p) + [last];
        assert fp[..|fp| - 1] == Filter(init, p);
      } else {
        assert fp == Filter(init, p);
      }
    }
  }

  /** Filtering with a predicate that holds everywhere changes nothing. */
  lemma {:induction false} FilterAll<T>(s: seq<T>, keep: T -> bool)
    requires forall i :: 0 <= i < |s| ==> keep(s[i])
    ensures Filter(s, keep) == s
  {
    if |s| > 0 {
      assert s[..|s| - 1] + [s[|s| - 1]] == s;
      FilterAll(s[..|s| - 1], keep);
    }
  }

  /** Strictly increasing sequence of indexes. */
  predicate Increasing(ps: seq<nat>) {
    forall a, b :: 0 <= a < b < |ps| ==> ps[a] < ps[b]
  }

  /** The indexes of the elements of `s` that satisfy `keep`, ascending. */
  function Positions<T>(s: seq<T>, keep: T -> bool): (r: seq<nat>)
    ensures forall k :: 0 <= k < |r| ==> r[k] < |s| && keep(s[r[k]])
    ensures forall i :: 0 <= i < |s| && keep(s[i]) ==> i in r
    ensures Increasing(r)
  {
    if |s| == 0 then []
    else
      var init := Positions(s[..|s| - 1], keep);
      assert forall k :: 0 <= k < |init| ==> s[..|s| - 1][init[k]] == s[init[k]];
      init + (if keep(s[|s| - 1]) then [|s| - 1] else [])
  }

  /** Positions all below `|s|`. */
  predicate Below<T>(s: seq<T>, ps: seq<nat>) {
    forall k :: 0 <= k < |ps| ==> ps[k] < |s|
  }

  /** The elements of `s` at the indexes `ps`, in the order of `ps`.
      Its ensures only hands the verifier the length and the element-wise values. */
  function Pick<T>(s: seq<T>, ps: seq<nat>): (r: seq<T>)
    requires Below(s, ps)
    ensures |r| == |ps| && forall k :: 0 <= k < |ps| ==> r[k] == s[ps[k]]
  {
    seq(|ps|, k requires 0 <= k < |ps| => s[ps[k]])
  }

  /** The first index of `x` in `s`, or `|s|` when `x` does not occur. */
  function IndexOf(s: seq<nat>, x: nat): (r: nat)
    ensures r <= |s|
    ensures r < |s| ==> s[r] == x && x !in s[..r]
    ensures r == |s| <==> x !in s
  {
    if |s| == 0 then 0
    else if s[0] == x then 0
    else
      var r := 1 + IndexOf(s[1..], x);
      assert r < |s| ==> s[..r] == [s[0]] + s[1..][..r - 1];
      r
  }

  /** The index of the first element that satisfies `p` (the document a
      `find_one` or an `update_one` reaches). */
  function FirstIndex<T>(s: seq<T>, p: T -> bool): (r: Option<nat>)
    ensures r.None? <==> forall i :: 0 <= i < |s| ==> !p(s[i])
    ensures r.Some? ==> r.value < |s| && p(s[r.value])
                        && forall i :: 0 <= i < r.value ==> !p(s[i])
  {
    if |s| == 0 then None
    else if p(s[0]) then Some(0)
    else match FirstIndex(s[1..], p)
      case None => None
      case Some(i) => Some(i + 1)
  }

  /** The first element that satisfies `p`, or None (a `find_one`). */
  function FindFirst<T>(s: seq<T>, p: T -> bool): (r: Option<T>)
    ensures r.None? <==> forall i :: 0 <= i < |s| ==> !p(s[i])
    ensures r.Some? ==> FirstIndex(s, p).Some? && r.value == s[FirstIndex(s, p).value] && p(r.value)
  {
    match FirstIndex(s, p)
    case None => None
    case Some(i) => Some(s[i])
  }

  /** `s` without its first element satisfying `p` (a `delete_one`). */
  function RemoveFirst<T>(s: seq<T>, p: T -> bool): (r: seq<T>)
    ensures FirstIndex(s, p).None? ==> r == s
    ensures FirstIndex(s, p).Some? ==>
              var i := FirstIndex(s, p).value; r == s[..i] + s[i + 1..]
  {
    match FirstIndex(s, p)
    case None => s
    case Some(i) => s[..i] + s[i + 1..]
  }

  /** No two elements of `s` share a key. */
  ghost predicate UniqueBy<T, K>(s: seq<T>, key: T -> K) {
    forall i, j :: 0 <= i < j < |s| ==> key(s[i]) != key(s[j])
  }

  /** Filtering keeps keys unique. */
  lemma {:induction false} FilterUnique<T, K>(s: seq<T>, keep: T -> bool, key: T -> K)
    requires UniqueBy(s, key)
    ensures UniqueBy(Filter(s, keep), key)
  {
    if |s| > 0 {
      var init := s[..|s| - 1];
      FilterUnique(init, keep, key);
      var f := Filter(init, keep);
      forall k | 0 <= k < |f| ensures key(f[k]) != key(s[|s| - 1]) {
        var j :| 0 <= j < |init| && init[j] == f[k];
      }
    }
  }

  /** Removing one element keeps keys unique. */
  lemma RemoveFirstUnique<T, K>(s: seq<T>, p: T -> bool, key: T -> K)
    requires UniqueBy(s, key)
    ensures UniqueBy(RemoveFirst(s, p), key)
  {
    match FirstIndex(s, p)
    case None =>
    case Some(i) =>
      var r := RemoveFirst(s, p);
      forall a, b | 0 <= a < b < |r| ensures key(r[a]) != key(r[b]) {
        var a', b' := if a < i then a else a + 1, if b < i then b else b + 1;
        assert r[a] == s[a'] && r[b] == s[b'];
      }
  }

  /** Keys unique: the first element with a given key is the only one. */
  lemma FirstIndexUnique<T, K>(s: seq<T>, key: T -> K, p: T -> bool, i: nat)
    requires UniqueBy(s, key) && i < |s|
    requires forall x :: p(x) == (key(x) == key(s[i]))
    ensures FirstIndex(s, p) == Some(i)
  {
  }

  /** A filter keeps as many elements as it has positions. */
  lemma {:induction false} PositionsCount<T>(s: seq<T>, keep: T -> bool)
    ensures |Positions(s, keep)| == |Filter(s, keep)|
  {
    if |s| > 0 {
      PositionsCount(s[..|s| - 1], keep);
    }
  }

  /** Picking positions of a concatenation is concatenating the picks. */
  lemma PickAppend<T>(s: seq<T>, u: seq<nat>, v: seq<nat>)
    requires forall k :: 0 <= k < |u| ==> u[k] < |s|
    requires forall k :: 0 <= k < |v| ==> v[k] < |s|
    ensures Pick(s, u + v) == Pick(s, u) + Pick(s, v)
  {
  }

  /** Picking the positions a filter keeps is the filter. */
  lemma {:induction false} PickPositions<T>(s: seq<T>, keep: T -> bool)
    ensures Pick(s, Positions(s, keep)) == Filter(s, keep)
  {
    if |s| > 0 {
      var init := s[..|s| - 1];
      var ps := Positions(init, keep);
      PickPositions(init, keep);
      assert Pick(s, ps) == Pick(init, ps);
      var last: seq<nat> := if keep(s[|s| - 1]) then [|s| - 1] else [];
      PickAppend(s, ps, last);
    }
  }

  /** Picking one more position picks one more element. */
  lemma PickInsert<T>(s: seq<T>, b: seq<nat>, j: nat)
    requires Below(s, b) && j < |b|
    ensures Below(s, b[..j] + b[j + 1..])
    ensures multiset(Pick(s, b)) == multiset(Pick(s, b[..j] + b[j + 1..])) + multiset{s[b[j]]}
  {
    var u, x, v := b[..j], b[j], b[j + 1..];
    assert b == u + [x] + v;
    assert Below(s, u + v);
    assert Below(s, u + [x]);
    PickAppend(s, u + [x], v);
    PickAppend(s, u, [x]);
    PickAppend(s, u, v);
    assert Pick(s, [x]) == [s[x]];
  }

  /** Removing the same element from two equal multisets leaves equal multisets:
      `a` starts with `b[j]`, and the rests are permutations of each other. */
  lemma RemoveMatching<T>(a: seq<T>, b: seq<T>, j: nat)
    requires multiset(a) == multiset(b) && 0 < |a| && j < |b| && b[j] == a[0]
    ensures multiset(a[1..]) == multiset(b[..j] + b[j + 1..])
  {
    var x := a[0];
    var u, v := b[..j], b[j + 1..];
    assert b == u + [x] + v;
    assert a == [x] + a[1..];
    forall y ensures multiset(a[1..])[y] == multiset(u + v)[y] {
      assert multiset(a)[y] == multiset(b)[y];
    }
  }

  /** Picking a permutation of positions picks a permutation of the elements. */
  lemma {:induction false} PickPermutation<T>(s: seq<T>, a: seq<nat>, b: seq<nat>)
    requires Below(s, a) && Below(s, b)
    requires multiset(a) == multiset(b)
    ensures multiset(Pick(s, a)) == multiset(Pick(s, b))
  {
    if |a| == 0 {
      assert |multiset(b)| == 0;
    } else {
      assert a[0] in multiset(b);
      var j :| 0 <= j < |b| && b[j] == a[0];
      RemoveMatching(a, b, j);
      PickInsert(s, b, j);
      PickInsert(s, a, 0);
      assert a[..0] + a[1..] == a[1..];
      PickPermutation(s, a[1..], b[..j] + b[j + 1..]);
    }
  }
}
