/** Python's `sorted` is stable: elements with equal keys keep their original
    order, also with `reverse=True`. The backend sorts query results, which come
    in store order, so sorting them is sorting their store positions by the pair
    (key, position). This module sorts a sequence of positions into that order
    with an insertion sort; `keys[p]` is the sort key of the element at
    position `p` (negated for a descending sort). */
module StableSort {
  import opened Seqs

  /** Position `i` is placed before position `j`: smaller key first, equal keys
      in position order. */
  predicate Before(keys: seq<int>, i: nat, j: nat)
    requires i < |keys| && j < |keys|
  {
    keys[i] < keys[j] || (keys[i] == keys[j] && i < j)
  }

  predicate Distinct(ps: seq<nat>) {
    forall a, b :: 0 <= a < b < |ps| ==> ps[a] != ps[b]
  }

  /** Every position is placed before every later one. */
  predicate Ordered(keys: seq<int>, ps: seq<nat>)
    requires Below(keys, ps)
  {
    forall a, b :: 0 <= a < b < |ps| ==> Before(keys, ps[a], ps[b])
  }

  /** `x` inserted into the ordered `s` just before the first position it precedes. */
  function Insert(keys: seq<int>, x: nat, s: seq<nat>): (r: seq<nat>)
    requires x < |keys| && Below(keys, s) && Ordered(keys, s) && x !in s
    ensures multiset(r) == multiset(s) + multiset{x}
    ensures Below(keys, r) && Ordered(keys, r)
  {
    if |s| == 0 then [x]
    else if Before(keys, x, s[0]) then
      assert forall k :: 0 <= k < |s| ==> Before(keys, x, s[k]) by {
        forall k | 0 < k < |s| ensures Before(keys, x, s[k]) {
          assert Before(keys, s[0], s[k]);
        }
      }
      [x] + s
    else
      assert s == [s[0]] + s[1..];
      var t := Insert(keys, x, s[1..]);
      AllAfter(keys, s[0], s[1..], x, t);
      [s[0]] + t
  }

  /** Helper of Insert: `y`, placed before `x` and before every element of
      `s`, is placed before every element of `s` with `x` inserted. */
  lemma AllAfter(keys: seq<int>, y: nat, s: seq<nat>, x: nat, t: seq<nat>)
    requires y < |keys| && x < |keys| && Below(keys, s) && Below(keys, t)
    requires Before(keys, y, x) || (y != x && !Before(keys, x, y))
    requires forall k :: 0 <= k < |s| ==> Before(keys, y, s[k])
    requires multiset(t) == multiset(s) + multiset{x}
    ensures forall k :: 0 <= k < |t| ==> Before(keys, y, t[k])
  {
    forall k | 0 <= k < |t| ensures Before(keys, y, t[k]) {
      assert t[k] in multiset(t);
      if t[k] != x {
        assert t[k] in multiset(s);
        var j :| 0 <= j < |s| && s[j] == t[k];
      }
    }
  }

  /** The positions `ps` in stable sorted order. */
  function Sort(keys: seq<int>, ps: seq<nat>): (r: seq<nat>)
    requires Below(keys, ps) && Distinct(ps)
    ensures multiset(r) == multiset(ps)
    ensures Below(keys, r) && Ordered(keys, r)
  {
    if |ps| == 0 then []
    else
      assert ps == [ps[0]] + ps[1..];
      var t := Sort(keys, ps[1..]);
      assert ps[0] !in multiset(t);
      Insert(keys, ps[0], t)
  }

  /** An ordered sequence never repeats a position. */
  lemma OrderedDistinct(keys: seq<int>, ps: seq<nat>)
    requires Below(keys, ps) && Ordered(keys, ps)
    ensures Distinct(ps)
  {
  }

  /** In an ordered sequence the index of a position is its place in the order:
      `i` is placed before `j` exactly when it sits at a smaller index. */
  lemma OrderedIndex(keys: seq<int>, ps: seq<nat>, a: nat, b: nat)
    requires Below(keys, ps) && Ordered(keys, ps)
    requires a < |ps| && b < |ps|
    ensures a < b <==> Before(keys, ps[a], ps[b])
  {
    if b < a {
      assert Before(keys, ps[b], ps[a]);
    }
  }
}
