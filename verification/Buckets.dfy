// What page sizes cost: waste of a bucket list, cost of a chain of buckets, and the best cost by
// dynamic programming over candidate sizes.

module Buckets {
  import opened Common

  datatype Item = Item(size: int, count: int)

  ghost predicate Ascending(bs: seq<int>) {
    forall i, j :: 0 <= i < j < |bs| ==> bs[i] < bs[j]
  }

  lemma {:induction false} NotBefore(cs: seq<int>, i: nat, j: nat)
    requires Ascending(cs) && i <= j < |cs|
    ensures cs[i] <= cs[j]
  {
  }

  ghost predicate Requests(items: seq<Item>) {
    forall i :: 0 <= i < |items| ==> items[i].size > 0 && items[i].count > 0
  }

  // ----- the waste of a bucket list

  // The first bucket of at least the given size.
  function Fitting(bs: seq<int>, s: int): (r: nat)
    ensures r <= |bs| && (forall i :: 0 <= i < r ==> bs[i] < s) && (r < |bs| ==> bs[r] >= s)
  {
    if bs == [] || bs[0] >= s then 0 else 1 + Fitting(bs[1..], s)
  }

  function WasteOf(bs: seq<int>, x: Item): int {
    var r := Fitting(bs, x.size);
    if r < |bs| then x.count * (bs[r] - x.size) else 0
  }

  function Waste(bs: seq<int>, items: seq<Item>): int {
    if items == [] then 0 else Waste(bs, items[..|items| - 1]) + WasteOf(bs, items[|items| - 1])
  }

  // ----- the cost of a chain, bucket by bucket

  function ShareOf(lo: int, hi: int, x: Item): int {
    if lo < x.size <= hi then x.count * (hi - x.size) else 0
  }

  // The waste if all requests in (lo, hi] get size hi.
  function RangeWaste(items: seq<Item>, lo: int, hi: int): int {
    if items == [] then 0 else RangeWaste(items[..|items| - 1], lo, hi) + ShareOf(lo, hi, items[|items| - 1])
  }

  function Cost(items: seq<Item>, bs: seq<int>): int
    requires bs != []
  {
    if |bs| == 1 then RangeWaste(items, 0, bs[0])
    else Cost(items, bs[..|bs| - 1]) + RangeWaste(items, bs[|bs| - 2], bs[|bs| - 1])
  }

  function CostOf(x: Item, bs: seq<int>): int
    requires bs != []
  {
    if |bs| == 1 then ShareOf(0, bs[0], x)
    else CostOf(x, bs[..|bs| - 1]) + ShareOf(bs[|bs| - 2], bs[|bs| - 1], x)
  }

  lemma {:induction false} FittingIs(bs: seq<int>, s: int, n: nat)
    requires n <= |bs| && (forall i :: 0 <= i < n ==> bs[i] < s) && (n < |bs| ==> bs[n] >= s)
    ensures Fitting(bs, s) == n
  {
    if n > 0 {
      FittingIs(bs[1..], s, n - 1);
    }
  }

  // One request is charged by the bucket it fits.
  lemma {:induction false} CostOfIsWaste(x: Item, bs: seq<int>)
    requires bs != [] && Ascending(bs) && x.size > 0
    ensures CostOf(x, bs) == WasteOf(bs, x)
  {
    hide Fitting;
    var m := |bs| - 1;
    var r := Fitting(bs, x.size);
    if m > 0 {
      CostOfIsWaste(x, bs[..m]);
      assert bs[m - 1] < bs[m];
      FittingIs(bs[..m], x.size, if r <= m then r else m);
      assert r < m ==> bs[r] <= bs[m - 1];
    }
  }

  lemma {:induction false} CostBySize(items: seq<Item>, bs: seq<int>)
    requires bs != [] && items != []
    ensures Cost(items, bs) == Cost(items[..|items| - 1], bs) + CostOf(items[|items| - 1], bs)
  {
    if |bs| > 1 {
      CostBySize(items, bs[..|bs| - 1]);
    }
  }

  lemma {:induction false} CostNoItems(bs: seq<int>)
    requires bs != []
    ensures Cost([], bs) == 0
  {
    if |bs| > 1 { CostNoItems(bs[..|bs| - 1]); }
  }

  lemma {:induction false} CostIsWaste(items: seq<Item>, bs: seq<int>)
    requires bs != [] && Ascending(bs) && Requests(items)
    ensures Cost(items, bs) == Waste(bs, items)
  {
    if items == [] {
      CostNoItems(bs);
    } else {
      CostIsWaste(items[..|items| - 1], bs);
      CostBySize(items, bs);
      CostOfIsWaste(items[|items| - 1], bs);
    }
  }

  // ----- comparing ranges

  lemma {:induction false} TimesMonotone(c: int, a: int, b: int)
    requires c >= 0 && a <= b
    ensures c * a <= c * b
  {
  }

  lemma {:induction false} ShareBounds(x: Item, lo: int, mid: int, hi: int)
    requires x.count > 0 && lo <= mid <= hi
    ensures 0 <= ShareOf(lo, hi, x)
    ensures ShareOf(lo, mid, x) + ShareOf(mid, hi, x) <= ShareOf(lo, hi, x)
  {
    if lo < x.size <= hi { TimesMonotone(x.count, 0, hi - x.size); }
    if lo < x.size <= mid { TimesMonotone(x.count, mid - x.size, hi - x.size); }
  }

  // A bucket in between never costs more.
  lemma {:induction false} SplitRange(items: seq<Item>, lo: int, mid: int, hi: int)
    requires Requests(items) && lo <= mid <= hi
    ensures 0 <= RangeWaste(items, lo, hi)
    ensures RangeWaste(items, lo, mid) + RangeWaste(items, mid, hi) <= RangeWaste(items, lo, hi)
  {
    if items != [] {
      SplitRange(items[..|items| - 1], lo, mid, hi);
      ShareBounds(items[|items| - 1], lo, mid, hi);
    }
  }

  lemma {:induction false} NoRequests(items: seq<Item>, hi: int)
    requires hi <= 0
    ensures RangeWaste(items, 0, hi) == 0
  {
    if items != [] { NoRequests(items[..|items| - 1], hi); }
  }

  // A tighter bucket over the same requests costs no more.
  lemma {:induction false} ShrinkRange(items: seq<Item>, lo: int, hi: int, lo': int, hi': int)
    requires Requests(items) && hi' <= hi
    requires forall i :: 0 <= i < |items| ==> (lo' < items[i].size <= hi' ==> lo < items[i].size)
    requires forall i :: 0 <= i < |items| ==> (lo < items[i].size <= hi ==> items[i].size <= hi')
    ensures RangeWaste(items, lo', hi') <= RangeWaste(items, lo, hi)
  {
    if items != [] {
      var x := items[|items| - 1];
      ShrinkRange(items[..|items| - 1], lo, hi, lo', hi');
      if lo' < x.size <= hi' { TimesMonotone(x.count, hi' - x.size, hi - x.size); }
      else if lo < x.size <= hi { TimesMonotone(x.count, 0, hi - x.size); }
    }
  }

  // ----- the dynamic program

  // The least cost of j candidates, the last of them candidate i.
  function Best(items: seq<Item>, cs: seq<int>, j: nat, i: nat): int
    requires 1 <= j <= i + 1 && i < |cs|
    decreases j, |cs|
  {
    if j == 1 then RangeWaste(items, 0, cs[i]) else BestBelow(items, cs, j, i, i)
  }

  // ... with the one before it among candidates j - 2 .. end - 1.
  function BestBelow(items: seq<Item>, cs: seq<int>, j: nat, i: nat, end: nat): int
    requires 2 <= j <= end + 1 && end <= i < |cs|
    decreases j, end
  {
    var w := Best(items, cs, j - 1, end - 1) + RangeWaste(items, cs[end - 1], cs[i]);
    if end == j - 1 then w
    else
      var v := BestBelow(items, cs, j, i, end - 1);
      if w < v then w else v
  }

  lemma {:induction false} BestBelowAll(items: seq<Item>, cs: seq<int>, j: nat, i: nat, end: nat, p: nat)
    requires 2 <= j <= end + 1 && end <= i < |cs| && j - 2 <= p < end
    ensures BestBelow(items, cs, j, i, end) <= Best(items, cs, j - 1, p) + RangeWaste(items, cs[p], cs[i])
    decreases end
  {
    if p < end - 1 {
      BestBelowAll(items, cs, j, i, end - 1, p);
    }
  }

  lemma {:induction false} BestOne(items: seq<Item>, cs: seq<int>, i: nat)
    requires i < |cs|
    ensures Best(items, cs, 1, i) == RangeWaste(items, 0, cs[i])
  {
  }

  lemma {:induction false} BestStep(items: seq<Item>, cs: seq<int>, j: nat, i: nat, p: nat)
    requires 2 <= j <= i + 1 && i < |cs| && j - 2 <= p < i
    ensures Best(items, cs, j, i) <= Best(items, cs, j - 1, p) + RangeWaste(items, cs[p], cs[i])
  {
    BestBelowAll(items, cs, j, i, i, p);
  }

  // The first candidate that attains the minimum.
  function BestParent(items: seq<Item>, cs: seq<int>, j: nat, i: nat, end: nat): (p: nat)
    requires 2 <= j <= end + 1 && end <= i < |cs|
    ensures j - 2 <= p < end && BestBelow(items, cs, j, i, end) == Best(items, cs, j - 1, p) + RangeWaste(items, cs[p], cs[i])
    decreases end
  {
    if end > j - 1 && Best(items, cs, j - 1, end - 1) + RangeWaste(items, cs[end - 1], cs[i]) >= BestBelow(items, cs, j, i, end - 1)
    then BestParent(items, cs, j, i, end - 1)
    else end - 1
  }

  lemma {:induction false} BestBelowStep(items: seq<Item>, cs: seq<int>, j: nat, i: nat, end: nat)
    requires 2 <= j <= end + 1 && end <= i < |cs|
    ensures var w := Best(items, cs, j - 1, end - 1) + RangeWaste(items, cs[end - 1], cs[i]);
      if end == j - 1 then BestBelow(items, cs, j, i, end) == w && BestParent(items, cs, j, i, end) == end - 1
      else
        var v := BestBelow(items, cs, j, i, end - 1);
        if w < v then BestBelow(items, cs, j, i, end) == w && BestParent(items, cs, j, i, end) == end - 1
        else BestBelow(items, cs, j, i, end) == v && BestParent(items, cs, j, i, end) == BestParent(items, cs, j, i, end - 1)
  {
  }

  lemma {:induction false} BestMany(items: seq<Item>, cs: seq<int>, j: nat, i: nat)
    requires 2 <= j <= i + 1 && i < |cs|
    ensures Best(items, cs, j, i) == BestBelow(items, cs, j, i, i)
  {
  }

  // The chain of candidates behind Best.
  function Chain(items: seq<Item>, cs: seq<int>, j: nat, i: nat): (r: seq<int>)
    requires 1 <= j <= i + 1 && i < |cs|
    ensures |r| == j && r[j - 1] == cs[i]
    decreases j
  {
    if j == 1 then [cs[i]] else Chain(items, cs, j - 1, BestParent(items, cs, j, i, i)) + [cs[i]]
  }

  lemma {:induction false} ChainStep(items: seq<Item>, cs: seq<int>, j: nat, i: nat, tail: seq<int>)
    requires 1 <= j <= i + 1 && i < |cs|
    ensures Chain(items, cs, j, i) + tail ==
      if j == 1 then [cs[i]] + tail else Chain(items, cs, j - 1, BestParent(items, cs, j, i, i)) + ([cs[i]] + tail)
  {
    if j > 1 {
      var c := Chain(items, cs, j - 1, BestParent(items, cs, j, i, i));
      assert (c + [cs[i]]) + tail == c + ([cs[i]] + tail);
    }
  }

  lemma {:induction false} ChainIsBest(items: seq<Item>, cs: seq<int>, j: nat, i: nat)
    requires 1 <= j <= i + 1 && i < |cs| && Ascending(cs)
    ensures Cost(items, Chain(items, cs, j, i)) == Best(items, cs, j, i)
    ensures Ascending(Chain(items, cs, j, i)) && forall m :: 0 <= m < j ==> Chain(items, cs, j, i)[m] in cs
    decreases j
  {
    hide Best, BestBelow, BestParent, RangeWaste, Cost;
    if j == 1 {
      BestOne(items, cs, i);
      CostOne(items, cs[i]);
      assert Chain(items, cs, j, i) == [cs[i]];
    } else {
      var p := BestParent(items, cs, j, i, i);
      var c := Chain(items, cs, j - 1, p);
      ChainIsBest(items, cs, j - 1, p);
      BestOfParent(items, cs, j, i);
      ChainGrows(items, cs, c, p, i);
      assert Chain(items, cs, j, i) == c + [cs[i]];
    }
  }

  lemma {:induction false} CostOne(items: seq<Item>, c: int)
    ensures Cost(items, [c]) == RangeWaste(items, 0, c)
  {
  }

  lemma {:induction false} BestOfParent(items: seq<Item>, cs: seq<int>, j: nat, i: nat)
    requires 2 <= j <= i + 1 && i < |cs|
    ensures var p := BestParent(items, cs, j, i, i); Best(items, cs, j, i) == Best(items, cs, j - 1, p) + RangeWaste(items, cs[p], cs[i])
  {
  }

  lemma {:induction false} ChainGrows(items: seq<Item>, cs: seq<int>, c: seq<int>, p: nat, i: nat)
    requires Ascending(cs) && p < i < |cs| && c != [] && Ascending(c) && c[|c| - 1] == cs[p]
    requires forall m :: 0 <= m < |c| ==> c[m] in cs
    ensures Cost(items, c + [cs[i]]) == Cost(items, c) + RangeWaste(items, cs[p], cs[i])
    ensures Ascending(c + [cs[i]]) && forall m :: 0 <= m < |c| + 1 ==> (c + [cs[i]])[m] in cs
  {
    var r := c + [cs[i]];
    assert r[..|c|] == c && cs[p] < cs[i];
    forall m: nat | m < |c|
      ensures c[m] <= cs[p]
    {
      NotBefore(c, m, |c| - 1);
    }
  }

  // One more bucket never costs more, as long as there are candidates.
  lemma {:induction false} MoreIsBetter(items: seq<Item>, cs: seq<int>, j: nat, i: nat)
    requires Requests(items) && Ascending(cs) && 1 <= j <= i && i < |cs|
    ensures Best(items, cs, j + 1, i) <= Best(items, cs, j, i)
    decreases j, i
  {
    if j == 1 {
      assert cs[0] < cs[i];
      BestStep(items, cs, 2, i, 0);
      if 0 <= cs[0] {
        SplitRange(items, 0, cs[0], cs[i]);
      } else {
        NoRequests(items, cs[0]);
        ShrinkRange(items, 0, cs[i], cs[0], cs[i]);
      }
    } else {
      var p := BestParent(items, cs, j, i, i);
      if p >= j - 1 {
        MoreIsBetter(items, cs, j - 1, p);
        BestStep(items, cs, j + 1, i, p);
      } else {
        assert cs[j - 2] < cs[j - 1] && (j - 1 < i ==> cs[j - 1] < cs[i]);
        BestStep(items, cs, j, j - 1, p);
        BestStep(items, cs, j + 1, i, j - 1);
        SplitRange(items, cs[p], cs[j - 1], cs[i]);
      }
    }
  }

  lemma {:induction false} ManyAreBetter(items: seq<Item>, cs: seq<int>, j: nat, k: nat, i: nat)
    requires Requests(items) && Ascending(cs) && 1 <= j <= k <= i + 1 && i < |cs|
    ensures Best(items, cs, k, i) <= Best(items, cs, j, i)
    decreases k - j
  {
    if j < k {
      MoreIsBetter(items, cs, j, i);
      ManyAreBetter(items, cs, j + 1, k, i);
    }
  }

  // ----- candidates suffice

  // Every request that a size serves is served by the candidate at or below that size.
  ghost predicate Floor(items: seq<Item>, cs: seq<int>, b: int, i: nat) {
    && i < |cs| && cs[i] <= b && (i + 1 < |cs| ==> b < cs[i + 1])
    && (forall x :: 0 <= x < |items| ==> (items[x].size <= b ==> items[x].size <= cs[i]))
  }

  lemma {:induction false} FloorOrder(items: seq<Item>, cs: seq<int>, a: int, i: nat, b: int, j: nat)
    requires Ascending(cs) && Floor(items, cs, a, i) && Floor(items, cs, b, j) && a < b
    ensures i <= j
  {
    forall m: nat | j < m < |cs|
      ensures b < cs[m]
    {
      NotBefore(cs, j + 1, m);
    }
  }

  // Any sizes can be exchanged for as many or fewer candidates at no more cost.
  lemma {:induction false} Exchange(items: seq<Item>, cs: seq<int>, bs: seq<int>, fl: seq<nat>) returns (j: nat)
    requires Requests(items) && Ascending(cs) && bs != [] && |fl| == |bs| && Ascending(bs)
    requires forall m :: 0 <= m < |bs| ==> Floor(items, cs, bs[m], fl[m])
    ensures 1 <= j <= |bs| && fl[|bs| - 1] < |cs| && j <= fl[|bs| - 1] + 1
    ensures Best(items, cs, j, fl[|bs| - 1]) <= Cost(items, bs)
  {
    hide Best, BestBelow, RangeWaste;
    var m := |bs| - 1;
    var i := fl[m];
    assert Floor(items, cs, bs[m], i);
    if m == 0 {
      j := 1;
      BestOne(items, cs, i);
      ShrinkRange(items, 0, bs[0], 0, cs[i]);
    } else {
      var i' := fl[m - 1];
      assert Floor(items, cs, bs[m - 1], i') && bs[m - 1] < bs[m];
      FloorOrder(items, cs, bs[m - 1], i', bs[m], i);
      j := Exchange(items, cs, bs[..m], fl[..m]);
      if i' == i {
        SplitRange(items, bs[m - 1], bs[m - 1], bs[m]);
      } else {
        j := j + 1;
        BestStep(items, cs, j, i, i');
        ShrinkRange(items, bs[m - 1], bs[m], cs[i'], cs[i]);
      }
    }
  }
}
