// tools/page_sizes_solver.py: the k page sizes with the least waste for a histogram.

module PageSizes {
  import opened Common
  import opened Buckets

  datatype Outcome = ValueError | Infeasible | Solution(waste: int, buckets: seq<int>)

  // Python's // floors, and so does / for a positive divisor.
  function RoundUp(x: int, align: int): (r: int)
    requires align > 0
    ensures x <= r < x + align && r % align == 0
  {
    var q := (x + align - 1) / align;
    RoundUpBounds(x, align, q);
    q * align
  }

  lemma {:induction false} RoundUpBounds(x: int, align: int, q: int)
    requires align > 0 && q == (x + align - 1) / align
    ensures x <= q * align < x + align && (q * align) % align == 0
  {
    var y := x + align - 1;
    assert y == q * align + y % align;
    MultipleMod(q, align);
  }

  lemma {:induction false} MultipleMod(q: int, align: int)
    requires align > 0
    ensures (q * align) % align == 0
  {
    var d := (q * align) / align;
    var r := (q * align) % align;
    assert q * align == d * align + r;
    assert (q - d) * align == r;
    if q - d >= 1 { TimesMonotone(align, 1, q - d); }
    if q - d <= -1 { TimesMonotone(align, q - d, -1); }
  }

  // The least multiple that is large enough.
  lemma {:induction false} RoundUpLeast(x: int, align: int, b: int)
    requires align > 0 && x <= b && b % align == 0
    ensures RoundUp(x, align) <= b
  {
    var q, d := (x + align - 1) / align, b / align;
    RoundUpBounds(x, align, q);
    assert b == d * align;
    if q > d { TimesMonotone(align, d + 1, q); }
  }

  // ----- sorting

  function Insert(cs: seq<int>, x: int): (r: seq<int>)
    requires Ascending(cs)
    ensures Ascending(r) && (forall y :: y in r <==> y in cs || y == x)
  {
    if cs == [] then [x]
    else
      var l := cs[|cs| - 1];
      assert cs == cs[..|cs| - 1] + [l];
      if x > l then cs + [x]
      else if x == l then cs
      else
        var r := Insert(cs[..|cs| - 1], x);
        assert forall i :: 0 <= i < |r| ==> r[i] in r;
        r + [l]
  }

  function NotAbove(cs: seq<int>, most: int): (r: seq<int>)
    requires Ascending(cs)
    ensures Ascending(r) && forall c :: c in r <==> c in cs && c <= most
  {
    if cs == [] then []
    else
      assert cs == cs[..|cs| - 1] + [cs[|cs| - 1]];
      if cs[|cs| - 1] <= most then cs else NotAbove(cs[..|cs| - 1], most)
  }

  ghost predicate SortedItems(items: seq<Item>) {
    forall i, j :: 0 <= i < j < |items| ==> items[i].size <= items[j].size
  }

  function InsertItem(items: seq<Item>, x: Item): (r: seq<Item>)
    requires SortedItems(items)
    ensures SortedItems(r) && multiset(r) == multiset(items) + multiset{x} && |r| == |items| + 1
    ensures forall i :: 0 <= i < |r| ==> r[i] == x || r[i] in items
  {
    if items == [] then [x]
    else
      var l := items[|items| - 1];
      assert items == items[..|items| - 1] + [l];
      if x.size >= l.size then items + [x]
      else InsertItem(items[..|items| - 1], x) + [l]
  }

  lemma {:induction false} InsertItemWaste(bs: seq<int>, items: seq<Item>, x: Item)
    requires SortedItems(items)
    ensures Waste(bs, InsertItem(items, x)) == Waste(bs, items) + WasteOf(bs, x)
  {
    if items == [] {
      assert [x][..0] == [];
    } else {
      var l, u := items[|items| - 1], items[..|items| - 1];
      assert items == u + [l];
      if x.size >= l.size {
        assert (items + [x])[..|items|] == items;
      } else {
        InsertItemWaste(bs, u, x);
        var v := InsertItem(u, x);
        assert (v + [l])[..|v|] == v;
      }
    }
  }

  // ----- candidates

  function Least(align: int, minBucket: int): int
    requires align > 0
  {
    RoundUp(minBucket, align)
  }

  // Sizes the histogram itself suggests, and the two end points.
  ghost predicate IsCandidate(hist: seq<Item>, align: int, maxPage: int, minBucket: int, c: int)
    requires align > 0
  {
    c <= maxPage && Listed(hist, align, maxPage, minBucket, c)
  }

  ghost predicate Listed(hist: seq<Item>, align: int, maxPage: int, minBucket: int, c: int)
    requires align > 0
  {
    || c == maxPage || c == Least(align, minBucket)
    || exists i :: 0 <= i < |hist| && Suggests(hist[i], align, maxPage, minBucket, c)
  }

  ghost predicate Suggests(x: Item, align: int, maxPage: int, minBucket: int, c: int)
    requires align > 0
  {
    x.size <= maxPage && c == Max(RoundUp(x.size, align), Least(align, minBucket))
  }

  lemma {:induction false} ListedStep(hist: seq<Item>, n: nat, align: int, maxPage: int, minBucket: int, c: int)
    requires align > 0 && n < |hist|
    ensures Listed(hist[..n + 1], align, maxPage, minBucket, c) <==>
      Listed(hist[..n], align, maxPage, minBucket, c) || Suggests(hist[n], align, maxPage, minBucket, c)
  {
    assert hist[..n + 1][n] == hist[n];
    assert forall i :: 0 <= i < n ==> hist[..n + 1][i] == hist[..n][i];
  }

  function Max(a: int, b: int): int {
    if a >= b then a else b
  }

  method CandidateBuckets(hist: seq<Item>, align: int, maxPage: int, minBucket: int) returns (cs: seq<int>)
    requires align > 0
    ensures Ascending(cs) && forall c :: c in cs <==> IsCandidate(hist, align, maxPage, minBucket, c)
  {
    var all := Insert([], RoundUp(minBucket, align));
    all := Insert(all, maxPage);
    for n := 0 to |hist|
      invariant Ascending(all)
      invariant forall c :: c in all <==> Listed(hist[..n], align, maxPage, minBucket, c)
    {
      forall c
        ensures Listed(hist[..n + 1], align, maxPage, minBucket, c) <==>
          Listed(hist[..n], align, maxPage, minBucket, c) || Suggests(hist[n], align, maxPage, minBucket, c)
      {
        ListedStep(hist, n, align, maxPage, minBucket, c);
      }
      if hist[n].size <= maxPage {
        all := Insert(all, Max(RoundUp(hist[n].size, align), RoundUp(minBucket, align)));
      }
    }
    assert hist[..|hist|] == hist;
    cs := NotAbove(all, maxPage);
  }

  // ----- ranges of requests by prefix sums

  method BisectRight(sizes: seq<int>, x: int) returns (lo: nat)
    requires forall i, j :: 0 <= i < j < |sizes| ==> sizes[i] <= sizes[j]
    ensures lo <= |sizes| && (forall i :: 0 <= i < lo ==> sizes[i] <= x) && (forall i :: lo <= i < |sizes| ==> x < sizes[i])
  {
    lo := 0;
    var hi := |sizes|;
    while lo < hi
      invariant lo <= hi <= |sizes|
      invariant (forall i :: 0 <= i < lo ==> sizes[i] <= x) && (forall i :: hi <= i < |sizes| ==> x < sizes[i])
    {
      var mid := (lo + hi) / 2;
      if x < sizes[mid] { hi := mid; } else { lo := mid + 1; }
    }
  }

  function SumCount(items: seq<Item>): int {
    if items == [] then 0 else SumCount(items[..|items| - 1]) + items[|items| - 1].count
  }

  function SumSizes(items: seq<Item>): int {
    if items == [] then 0 else SumSizes(items[..|items| - 1]) + items[|items| - 1].size * items[|items| - 1].count
  }

  // The waste of the requests at positions a .. b - 1 under size hi, from prefix sums.
  function ByPrefixSums(items: seq<Item>, hi: int, a: nat, b: nat): int
    requires a <= |items| && b <= |items|
  {
    hi * (SumCount(items[..b]) - SumCount(items[..a])) - (SumSizes(items[..b]) - SumSizes(items[..a]))
  }

  lemma {:induction false} PrefixStep(items: seq<Item>, hi: int, a: nat, n: nat)
    requires a <= |items| && 0 < n <= |items|
    ensures ByPrefixSums(items, hi, a, n) == ByPrefixSums(items, hi, a, n - 1) + items[n - 1].count * (hi - items[n - 1].size)
  {
    var x, p := items[n - 1], items[..n - 1];
    LastItem(items, n, 0, 0);
    hide SumCount, SumSizes, RangeWaste;
    StepFormula(hi, SumCount(p), SumCount(items[..a]), SumSizes(p), SumSizes(items[..a]), x.count, x.size);
  }

  lemma {:induction false} PrefixFormula(items: seq<Item>, lo: int, hi: int, i0: nat, i1: nat, n: nat)
    requires i0 <= i1 <= |items| && n <= |items|
    requires forall i :: 0 <= i < i0 ==> items[i].size <= lo
    requires forall i :: i0 <= i < |items| ==> lo < items[i].size
    requires forall i :: 0 <= i < i1 ==> items[i].size <= hi
    requires forall i :: i1 <= i < |items| ==> hi < items[i].size
    ensures RangeWaste(items[..n], lo, hi) == ByPrefixSums(items, hi, if n <= i0 then n else i0, if n <= i1 then n else i1)
  {
    if n == 0 {
      assert items[..0] == [];
    } else {
      PrefixFormula(items, lo, hi, i0, i1, n - 1);
      LastItem(items, n, lo, hi);
      if n > i0 { PrefixStep(items, hi, i0, n); }
      hide SumCount, SumSizes, RangeWaste;
      assert ShareOf(lo, hi, items[n - 1]) == if i0 < n <= i1 then items[n - 1].count * (hi - items[n - 1].size) else 0;
    }
  }

  lemma {:induction false} LastItem(items: seq<Item>, n: nat, lo: int, hi: int)
    requires 0 < n <= |items|
    ensures RangeWaste(items[..n], lo, hi) == RangeWaste(items[..n - 1], lo, hi) + ShareOf(lo, hi, items[n - 1])
    ensures SumCount(items[..n]) == SumCount(items[..n - 1]) + items[n - 1].count
    ensures SumSizes(items[..n]) == SumSizes(items[..n - 1]) + items[n - 1].size * items[n - 1].count
  {
    assert items[..n][..n - 1] == items[..n - 1];
  }

  lemma {:induction false} StepFormula(h: int, c1: int, c0: int, z1: int, z0: int, c: int, s: int)
    ensures h * (c1 + c - c0) - (z1 + s * c - z0) == h * (c1 - c0) - (z1 - z0) + c * (h - s)
  {
    assert h * (c1 - c0 + c) == h * (c1 - c0) + h * c;
    assert c * (h - s) == h * c - s * c;
  }

  lemma {:induction false} RangeIs(items: seq<Item>, lo: int, hi: int, i0: nat, i1: nat)
    requires SortedItems(items) && i0 <= |items| && i1 <= |items|
    requires (forall i :: 0 <= i < i0 ==> items[i].size <= lo) && (forall i :: i0 <= i < |items| ==> lo < items[i].size)
    requires (forall i :: 0 <= i < i1 ==> items[i].size <= hi) && (forall i :: i1 <= i < |items| ==> hi < items[i].size)
    ensures RangeWaste(items, lo, hi) == if i0 >= i1 then 0 else ByPrefixSums(items, hi, i0, i1)
  {
    if i0 >= i1 {
      EmptyRange(items, lo, hi);
    } else {
      PrefixFormula(items, lo, hi, i0, i1, |items|);
      assert items[..|items|] == items;
    }
  }

  lemma {:induction false} EmptyRange(items: seq<Item>, lo: int, hi: int)
    requires forall i :: 0 <= i < |items| ==> !(lo < items[i].size <= hi)
    ensures RangeWaste(items, lo, hi) == 0
  {
    if items != [] { EmptyRange(items[..|items| - 1], lo, hi); }
  }

  method RangeCost(items: seq<Item>, sizes: seq<int>, sumCount: seq<int>, sumSizes: seq<int>, lo: int, hi: int) returns (w: int)
    requires SortedItems(items) && |sizes| == |items| && |sumCount| == |sumSizes| == |items| + 1
    requires forall i :: 0 <= i < |items| ==> sizes[i] == items[i].size
    requires forall i :: 0 <= i <= |items| ==> sumCount[i] == SumCount(items[..i]) && sumSizes[i] == SumSizes(items[..i])
    ensures w == RangeWaste(items, lo, hi)
  {
    var i0 := BisectRight(sizes, lo);
    var i1 := BisectRight(sizes, hi);
    if i0 >= i1 {
      w := 0;
    } else {
      w := hi * (sumCount[i1] - sumCount[i0]) - (sumSizes[i1] - sumSizes[i0]);
    }
    RangeIs(items, lo, hi, i0, i1);
  }

  // The requests that fit into a page, by size.
  function Sorted(hist: seq<Item>, maxPage: int): (r: seq<Item>)
    ensures SortedItems(r)
    ensures forall i :: 0 <= i < |r| ==> r[i] in hist && r[i].size <= maxPage
  {
    if hist == [] then []
    else
      var x := hist[|hist| - 1];
      var r := Sorted(hist[..|hist| - 1], maxPage);
      assert hist == hist[..|hist| - 1] + [x];
      if x.size > maxPage then r else InsertItem(r, x)
  }

  lemma {:induction false} SortedRequests(hist: seq<Item>, maxPage: int)
    requires Requests(hist)
    ensures Requests(Sorted(hist, maxPage))
  {
    var r := Sorted(hist, maxPage);
    assert forall i :: 0 <= i < |r| ==> r[i] in hist;
  }

  lemma {:induction false} SortedWaste(hist: seq<Item>, maxPage: int, bs: seq<int>)
    requires bs != [] && Ascending(bs) && bs[|bs| - 1] == maxPage
    ensures Waste(bs, Sorted(hist, maxPage)) == Waste(bs, hist)
  {
    if hist != [] {
      var x, u := hist[|hist| - 1], hist[..|hist| - 1];
      SortedWaste(u, maxPage, bs);
      if x.size > maxPage {
        assert forall i :: 0 <= i < |bs| ==> bs[i] <= maxPage;
        FittingIs(bs, x.size, |bs|);
      } else {
        InsertItemWaste(bs, Sorted(u, maxPage), x);
      }
    }
  }

  // ----- no other choice is better

  // k distinct aligned sizes from the rounded minimum up to the largest page.
  ghost predicate Eligible(bs: seq<int>, k: int, align: int, maxPage: int, minBucket: int)
    requires align > 0
  {
    && |bs| == k && bs != [] && Ascending(bs)
    && bs[0] >= Least(align, minBucket) && bs[|bs| - 1] == maxPage
    && forall i :: 0 <= i < |bs| ==> bs[i] % align == 0
  }

  ghost predicate Candidates(hist: seq<Item>, align: int, maxPage: int, minBucket: int, cs: seq<int>)
    requires align > 0
  {
    Ascending(cs) && forall c :: c in cs <==> IsCandidate(hist, align, maxPage, minBucket, c)
  }

  lemma {:induction false} LargestIsPage(hist: seq<Item>, align: int, maxPage: int, minBucket: int, cs: seq<int>)
    requires align > 0 && Candidates(hist, align, maxPage, minBucket, cs)
    ensures cs != [] && cs[|cs| - 1] == maxPage
    ensures Least(align, minBucket) <= maxPage ==> cs[0] == Least(align, minBucket)
    ensures Least(align, minBucket) > maxPage ==> cs == [maxPage]
  {
    var l := Least(align, minBucket);
    assert IsCandidate(hist, align, maxPage, minBucket, maxPage);
    assert forall i :: 0 <= i < |cs| ==> cs[i] in cs && IsCandidate(hist, align, maxPage, minBucket, cs[i]);
    assert forall i :: 0 <= i < |cs| ==> cs[i] == maxPage || cs[i] >= l;
    var e :| 0 <= e < |cs| && cs[e] == maxPage;
    NotBefore(cs, e, |cs| - 1);
    if l <= maxPage {
      assert IsCandidate(hist, align, maxPage, minBucket, l);
      var f :| 0 <= f < |cs| && cs[f] == l;
      NotBefore(cs, 0, f);
    } else {
      AllSame(cs, maxPage);
    }
  }

  lemma {:induction false} AllSame(cs: seq<int>, v: int)
    requires Ascending(cs) && cs != [] && forall i :: 0 <= i < |cs| ==> cs[i] == v
    ensures cs == [v]
  {
    if |cs| > 1 { FirstTwo(cs); }
  }

  lemma {:induction false} FirstTwo(cs: seq<int>)
    requires Ascending(cs) && |cs| > 1
    ensures cs[0] < cs[1]
  {
  }

  lemma {:induction false} NotBeyond(cs: seq<int>, b: int, i: nat, m: nat)
    requires Ascending(cs) && i < |cs| && (i + 1 < |cs| ==> b < cs[i + 1]) && m < |cs| && cs[m] <= b
    ensures m <= i
  {
    forall t: nat | i < t < |cs|
      ensures b < cs[t]
    {
      NotBefore(cs, i + 1, t);
    }
  }

  // The candidate at or below an eligible size.
  lemma {:induction false} FloorOf(hist: seq<Item>, align: int, maxPage: int, minBucket: int, cs: seq<int>, b: int) returns (i: nat)
    requires align > 0 && Candidates(hist, align, maxPage, minBucket, cs)
    requires Least(align, minBucket) <= b <= maxPage && b % align == 0
    ensures Floor(Sorted(hist, maxPage), cs, b, i)
  {
    LargestIsPage(hist, align, maxPage, minBucket, cs);
    i := 0;
    while i + 1 < |cs| && cs[i + 1] <= b
      invariant i < |cs| && cs[i] <= b
    {
      i := i + 1;
    }
    var items := Sorted(hist, maxPage);
    forall x | 0 <= x < |items| && items[x].size <= b
      ensures items[x].size <= cs[i]
    {
      RoundUpLeast(items[x].size, align, b);
      var c := Max(RoundUp(items[x].size, align), Least(align, minBucket));
      var y :| 0 <= y < |hist| && hist[y] == items[x];
      assert Suggests(hist[y], align, maxPage, minBucket, c);
      assert IsCandidate(hist, align, maxPage, minBucket, c);
      var m :| 0 <= m < |cs| && cs[m] == c;
      NotBeyond(cs, b, i, m);
      NotBefore(cs, m, i);
    }
  }

  lemma {:induction false} Floors(hist: seq<Item>, k: nat, align: int, maxPage: int, minBucket: int, cs: seq<int>, bs: seq<int>)
      returns (fl: seq<nat>)
    requires align > 0 && Candidates(hist, align, maxPage, minBucket, cs) && Eligible(bs, k, align, maxPage, minBucket)
    ensures |fl| == |bs| && forall m :: 0 <= m < |bs| ==> Floor(Sorted(hist, maxPage), cs, bs[m], fl[m])
  {
    fl := [];
    while |fl| < |bs|
      invariant |fl| <= |bs| && forall m :: 0 <= m < |fl| ==> Floor(Sorted(hist, maxPage), cs, bs[m], fl[m])
    {
      var m := |fl|;
      NotBefore(bs, 0, m);
      NotBefore(bs, m, |bs| - 1);
      var i := FloorOf(hist, align, maxPage, minBucket, cs, bs[m]);
      fl := fl + [i];
    }
  }

  lemma {:induction false} NoBetterChoice(hist: seq<Item>, k: nat, align: int, maxPage: int, minBucket: int, cs: seq<int>, bs: seq<int>)
    requires align > 0 && Candidates(hist, align, maxPage, minBucket, cs) && Requests(hist)
    requires 1 <= k <= |cs| && Eligible(bs, k, align, maxPage, minBucket)
    ensures Best(Sorted(hist, maxPage), cs, k, |cs| - 1) <= Waste(bs, hist)
  {
    var items := Sorted(hist, maxPage);
    var fl := Floors(hist, k, align, maxPage, minBucket, cs, bs);
    LargestIsPage(hist, align, maxPage, minBucket, cs);
    SortedRequests(hist, maxPage);
    assert bs[|bs| - 1] == maxPage == cs[|cs| - 1] && Floor(items, cs, bs[|bs| - 1], fl[|bs| - 1]);
    hide *;
    EndsAtPage(items, cs, bs, fl, k);
    CostIsWaste(items, bs);
    SortedWaste(hist, maxPage, bs);
  }

  lemma {:induction false} EndsAtPage(items: seq<Item>, cs: seq<int>, bs: seq<int>, fl: seq<nat>, k: nat)
    requires Requests(items) && Ascending(cs) && cs != [] && |fl| == |bs| == k && 1 <= k <= |cs| && Ascending(bs)
    requires bs[k - 1] == cs[|cs| - 1] && forall m :: 0 <= m < |bs| ==> Floor(items, cs, bs[m], fl[m])
    ensures Best(items, cs, k, |cs| - 1) <= Cost(items, bs)
  {
    hide Best, Cost, RangeWaste, Requests;
    var j := Exchange(items, cs, bs, fl);
    var i := fl[k - 1];
    assert Floor(items, cs, bs[k - 1], i);
    NotBefore(cs, i, |cs| - 1);
    NotBeyond(cs, bs[k - 1], i, |cs| - 1);
    ManyAreBetter(items, cs, j, k, |cs| - 1);
  }
}
