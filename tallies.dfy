/**
 * Insertion-ordered count dictionaries (Python's `dict` of counts and
 * `collections.Counter`), the "most common" choice among them, and the
 * descending order of a set of scores (`sorted(..., reverse=True)`).
 */
module Tallies {
  import opened Outcomes

  predicate Distinct(xs: seq<int>) {
    forall i, j :: 0 <= i < j < |xs| ==> xs[i] != xs[j]
  }

  lemma DistinctSnoc(xs: seq<int>, x: int)
    requires Distinct(xs) && x !in xs
    ensures Distinct(xs + [x])
  {
  }

  /** A count dictionary: its keys in insertion order, and the count of each. */
  datatype Tally = Tally(keys: seq<int>, counts: map<int, nat>) {
    ghost predicate Valid() {
      && Distinct(keys)
      && (forall j :: 0 <= j < |keys| ==> keys[j] in counts)
      && (forall k :: k in counts ==> k in keys)
    }
  }

  const Empty := Tally([], map[])

  /** The insertion order lists exactly the counted keys. */
  lemma KeySet(t: Tally)
    requires t.Valid()
    ensures (set x | x in t.keys) == t.counts.Keys
  {
    var s := set x | x in t.keys;
    forall x | x in s ensures x in t.counts {
      var j :| 0 <= j < |t.keys| && t.keys[j] == x;
    }
    forall x | x in t.counts ensures x in s {
      assert x in t.keys;
    }
  }

  /** `d[k] = d.get(k, 0) + w`: a new key goes to the end of the insertion order. */
  function Add(t: Tally, k: int, w: nat): (r: Tally)
    requires t.Valid()
    ensures r.Valid()
  {
    if k in t.counts then Tally(t.keys, t.counts[k := t.counts[k] + w])
    else Tally(t.keys + [k], t.counts[k := w])
  }

  /** What `Add` does to the entry of one key. */
  lemma AddEntry(t: Tally, k: int, w: nat, x: int)
    requires t.Valid()
    ensures x in Add(t, k, w).counts <==> x in t.counts || x == k
    ensures x in Add(t, k, w).counts ==>
      Add(t, k, w).counts[x] == (if x in t.counts then t.counts[x] else 0) + (if x == k then w else 0)
  {
  }

  /** `Add` in the form `d[k] = d.get(k, 0) + w`. */
  lemma AddEntries(t: Tally, k: int, w: nat)
    requires t.Valid()
    ensures Add(t, k, w).counts == t.counts[k := (if k in t.counts then t.counts[k] else 0) + w]
    ensures Add(t, k, w).keys == if k in t.counts then t.keys else t.keys + [k]
  {
  }

  /** `Counter.update(ks)`: one count per element of `ks`, in order. */
  function AddAll(t: Tally, ks: seq<int>): (r: Tally)
    requires t.Valid()
    ensures r.Valid()
  {
    if ks == [] then t else Add(AddAll(t, ks[..|ks| - 1]), ks[|ks| - 1], 1)
  }

  /** The number of occurrences of `k` in `ks`. */
  function Count(ks: seq<int>, k: int): nat
  {
    if ks == [] then 0
    else Count(ks[..|ks| - 1], k) + (if ks[|ks| - 1] == k then 1 else 0)
  }

  /** After `update(ks)` every key counts its occurrences in `ks` on top of what it had. */
  lemma {:induction false} AddAllCounts(t: Tally, ks: seq<int>, k: int)
    requires t.Valid()
    ensures k in AddAll(t, ks).counts <==> k in t.counts || k in ks
    ensures k in AddAll(t, ks).counts ==>
      AddAll(t, ks).counts[k] == (if k in t.counts then t.counts[k] else 0) + Count(ks, k)
  {
    if ks != [] {
      var front, last := ks[..|ks| - 1], ks[|ks| - 1];
      AddAllCounts(t, front, k);
      assert ks == front + [last];
      assert k in ks <==> k in front || k == last;
      var before := AddAll(t, front);
      assert AddAll(t, ks) == Add(before, last, 1);
      assert Count(ks, k) == Count(front, k) + (if last == k then 1 else 0);
      if k !in front {
        CountAbsent(front, k);
      }
    }
  }

  lemma {:induction false} CountAbsent(ks: seq<int>, k: int)
    requires k !in ks
    ensures Count(ks, k) == 0
  {
    if ks != [] {
      CountAbsent(ks[..|ks| - 1], k);
    }
  }

  /** `update` never reorders the keys already present. */
  lemma {:induction false} AddAllKeepsOrder(t: Tally, ks: seq<int>)
    requires t.Valid()
    ensures |t.keys| <= |AddAll(t, ks).keys| && AddAll(t, ks).keys[..|t.keys|] == t.keys
  {
    if ks != [] {
      AddAllKeepsOrder(t, ks[..|ks| - 1]);
    }
  }

  /**
   * The position of the first key, in insertion order, whose count is
   * maximal: what `max` over the items returns, since it keeps the first
   * of equal maxima.
   */
  function FirstMaxIndex(keys: seq<int>, counts: map<int, nat>): (i: nat)
    requires |keys| > 0 && forall j :: 0 <= j < |keys| ==> keys[j] in counts
    ensures i < |keys|
    ensures forall j :: 0 <= j < |keys| ==> counts[keys[j]] <= counts[keys[i]]
    ensures forall j :: 0 <= j < i ==> counts[keys[j]] < counts[keys[i]]
  {
    if |keys| == 1 then 0
    else
      var b := FirstMaxIndex(keys[..|keys| - 1], counts);
      if counts[keys[|keys| - 1]] > counts[keys[b]] then |keys| - 1 else b
  }

  /**
   * `Counter.most_common(1)[0][0]`, and equally the first key of the items
   * stably sorted by descending count: an IndexError when nothing was counted.
   */
  function MostCommon(t: Tally): (r: Result<int>)
    requires t.Valid()
    ensures r.Err? <==> t.keys == []
    ensures r.Err? ==> r.error == IndexError
    ensures r.Ok? ==> r.value in t.counts && forall k :: k in t.counts ==> t.counts[k] <= t.counts[r.value]
  {
    if t.keys == [] then Err(IndexError) else Ok(t.keys[FirstMaxIndex(t.keys, t.counts)])
  }

  predicate StrictlyDescending(r: seq<int>) {
    forall i, j :: 0 <= i < j < |r| ==> r[i] > r[j]
  }

  /** `r` is `sorted(s, reverse=True)` for a set `s` of distinct values. */
  ghost predicate IsDescendingOrder(r: seq<int>, s: set<int>) {
    StrictlyDescending(r) && forall x :: x in r <==> x in s
  }

  function InsertDescending(r: seq<int>, x: int): (q: seq<int>)
    requires StrictlyDescending(r)
    ensures StrictlyDescending(q)
    ensures forall y :: y in q <==> y in r || y == x
  {
    if r == [] then [x]
    else if x > r[0] then [x] + r
    else if x == r[0] then r
    else
      var rest := InsertDescending(r[1..], x);
      BelowHead(r, rest, x);
      [r[0]] + rest
  }

  lemma BelowHead(r: seq<int>, q: seq<int>, x: int)
    requires StrictlyDescending(r) && r != [] && x < r[0]
    requires forall y :: y in q <==> y in r[1..] || y == x
    ensures forall k :: 0 <= k < |q| ==> q[k] < r[0]
  {
    forall k | 0 <= k < |q|
      ensures q[k] < r[0]
    {
      assert q[k] in q;
      if q[k] != x {
        var m :| 0 <= m < |r[1..]| && r[1..][m] == q[k];
        assert r[m + 1] == q[k];
      }
    }
  }

  /**
   * `sorted(xs, reverse=True)` for values that are distinct (dictionary keys,
   * set members); repeated values are kept once.
   */
  method SortDescending(xs: seq<int>) returns (r: seq<int>)
    ensures IsDescendingOrder(r, set x | x in xs)
  {
    r := [];
    for i := 0 to |xs|
      invariant IsDescendingOrder(r, set x | x in xs[..i])
    {
      r := InsertDescending(r, xs[i]);
      assert xs[..i + 1] == xs[..i] + [xs[i]];
    }
    assert xs[..|xs|] == xs;
  }

  /** The head of a descending order is the maximum; the tail orders the rest. */
  lemma HeadAndTail(a: seq<int>, s: set<int>)
    requires IsDescendingOrder(a, s) && a != []
    ensures forall x :: x in s ==> x <= a[0]
    ensures IsDescendingOrder(a[1..], s - {a[0]})
  {
    forall x | x in s
      ensures x <= a[0]
    {
      var k :| 0 <= k < |a| && a[k] == x;
    }
    forall x | x in s - {a[0]}
      ensures x in a[1..]
    {
      var k :| 0 <= k < |a| && a[k] == x;
      assert a[1..][k - 1] == x;
    }
    forall x | x in a[1..]
      ensures x in s - {a[0]}
    {
      var k :| 0 <= k < |a[1..]| && a[1..][k] == x;
      assert a[0] > a[k + 1];
    }
  }

  /** A set has exactly one descending order, so `sorted` determines the result. */
  lemma {:induction false} DescendingOrderUnique(a: seq<int>, b: seq<int>, s: set<int>)
    requires IsDescendingOrder(a, s) && IsDescendingOrder(b, s)
    ensures a == b
  {
    DescendingSetSize(a);
    DescendingSetSize(b);
    assert (set y | y in a) == (set y | y in b);
    if a != [] {
      HeadAndTail(a, s);
      HeadAndTail(b, s);
      assert a[0] in a && b[0] in b;
      assert a[0] == b[0];
      DescendingOrderUnique(a[1..], b[1..], s - {a[0]});
      assert a == [a[0]] + a[1..];
      assert b == [b[0]] + b[1..];
    }
  }

  /** How many members of `s` are strictly greater than `x`. */
  function Rank(s: set<int>, x: int): nat
  {
    |set y | y in s && y > x|
  }

  lemma {:induction false} DescendingSetSize(r: seq<int>)
    requires StrictlyDescending(r)
    ensures |set y | y in r| == |r|
  {
    if r != [] {
      var front := r[..|r| - 1];
      DescendingSetSize(front);
      assert (set y | y in r) == (set y | y in front) + {r[|r| - 1]};
      assert r[|r| - 1] !in front;
    }
  }

  /** The i-th score of the descending order has exactly i scores above it. */
  lemma RankInDescendingOrder(r: seq<int>, s: set<int>, i: nat)
    requires IsDescendingOrder(r, s) && i < |r|
    ensures Rank(s, r[i]) == i
  {
    var above := r[..i];
    assert StrictlyDescending(above);
    assert (set y | y in s && y > r[i]) == (set y | y in above) by {
      forall y | y in s && y > r[i] ensures y in above {
        var k :| 0 <= k < |r| && r[k] == y;
        assert k < i;
      }
    }
    DescendingSetSize(above);
  }

  /** A greater score has fewer scores above it. */
  lemma RankDecreasing(s: set<int>, x: int, y: int)
    requires x in s && x > y
    ensures Rank(s, x) < Rank(s, y)
  {
    var ax := set z | z in s && z > x;
    var ay := set z | z in s && z > y;
    var d := ay - (ax + {x});
    assert ay == (ax + {x}) + d;
    assert (ax + {x}) * d == {};
    assert x !in ax;
  }
}
