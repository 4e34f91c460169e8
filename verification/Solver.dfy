// solve and evaluate: the tables, the loops and what comes out.

module Solver {
  import opened Common
  import opened Buckets
  import opened PageSizes

  method SortItems(hist: seq<Item>, maxPage: int) returns (items: seq<Item>)
    ensures items == Sorted(hist, maxPage)
  {
    items := [];
    for n := 0 to |hist|
      invariant items == Sorted(hist[..n], maxPage)
    {
      assert hist[..n + 1][..n] == hist[..n];
      if hist[n].size <= maxPage {
        items := InsertItem(items, hist[n]);
      }
    }
    assert hist[..|hist|] == hist;
  }

  method PrefixSums(items: seq<Item>) returns (sizes: seq<int>, sumCount: seq<int>, sumSizes: seq<int>)
    ensures |sizes| == |items| && |sumCount| == |sumSizes| == |items| + 1
    ensures forall i :: 0 <= i < |items| ==> sizes[i] == items[i].size
    ensures forall i :: 0 <= i <= |items| ==> sumCount[i] == SumCount(items[..i]) && sumSizes[i] == SumSizes(items[..i])
  {
    sizes, sumCount, sumSizes := [], [0], [0];
    for n := 0 to |items|
      invariant |sizes| == n && |sumCount| == |sumSizes| == n + 1
      invariant forall i :: 0 <= i < n ==> sizes[i] == items[i].size
      invariant forall i :: 0 <= i <= n ==> sumCount[i] == SumCount(items[..i]) && sumSizes[i] == SumSizes(items[..i])
    {
      LastItem(items, n + 1, 0, 0);
      sizes := sizes + [items[n].size];
      sumCount := sumCount + [sumCount[n] + items[n].count];
      sumSizes := sumSizes + [sumSizes[n] + items[n].size * items[n].count];
    }
  }

  // A filled cell holds the least cost, and the parent that attains it.
  ghost predicate Filled(items: seq<Item>, cs: seq<int>, dp: array2<Option<int>>, parent: array2<int>, j: nat, i: nat)
    requires 1 <= j <= i + 1 && i < |cs| && j < dp.Length0 == parent.Length0 && dp.Length1 == parent.Length1 == |cs|
    reads dp, parent
  {
    dp[j, i] == Some(Best(items, cs, j, i)) && (j > 1 ==> parent[j, i] == BestParent(items, cs, j, i, i))
  }

  ghost predicate FilledUpTo(items: seq<Item>, cs: seq<int>, dp: array2<Option<int>>, parent: array2<int>, j: nat, i: nat)
    requires j < dp.Length0 == parent.Length0 && dp.Length1 == parent.Length1 == |cs| && i <= |cs|
    reads dp, parent
  {
    && (forall a, b :: 1 <= a < j && a - 1 <= b < |cs| ==> Filled(items, cs, dp, parent, a, b))
    && (forall b :: 1 <= j <= b + 1 && b < i ==> Filled(items, cs, dp, parent, j, b))
  }

  method Solve(hist: seq<Item>, k: int, align: int, maxPage: int, minBucket: int) returns (r: Outcome)
    requires align > 0 && Requests(hist)
    ensures r == ValueError <==> k < 1 || forall cs :: Candidates(hist, align, maxPage, minBucket, cs) ==> k > |cs|
    ensures r == Infeasible <==> r != ValueError && Least(align, minBucket) > maxPage
    ensures r.Solution? ==>
      && |r.buckets| == k && Ascending(r.buckets) && r.buckets[k - 1] == maxPage && r.buckets[0] >= Least(align, minBucket)
      && r.waste == Waste(r.buckets, hist)
      && (maxPage % align == 0 ==> Eligible(r.buckets, k, align, maxPage, minBucket))
      && (forall bs :: Eligible(bs, k, align, maxPage, minBucket) ==> r.waste <= Waste(bs, hist))
  {
    var cs := CandidateBuckets(hist, align, maxPage, minBucket);
    OneCandidateList(hist, align, maxPage, minBucket, cs);
    var n := |cs|;
    if k < 1 || k > n {
      return ValueError;
    }
    LargestIsPage(hist, align, maxPage, minBucket, cs);
    var least := RoundUp(minBucket, align);
    var items := SortItems(hist, maxPage);
    var dp, parent := FillTable(items, cs, k, least);
    if dp[k, n - 1].None? {
      return Infeasible;
    }
    var buckets := Reconstruct(items, cs, k, dp, parent);
    ChosenIsBest(hist, k, align, maxPage, minBucket, cs);
    r := Solution(dp[k, n - 1].value, buckets);
  }

  lemma {:induction false} ChosenIsBest(hist: seq<Item>, k: nat, align: int, maxPage: int, minBucket: int, cs: seq<int>)
    requires align > 0 && Requests(hist) && Candidates(hist, align, maxPage, minBucket, cs)
    requires 1 <= k <= |cs| && cs[0] >= Least(align, minBucket)
    ensures var items := Sorted(hist, maxPage);
      var best, buckets := Best(items, cs, k, |cs| - 1), Chain(items, cs, k, |cs| - 1);
      && Ascending(buckets) && buckets[k - 1] == maxPage && buckets[0] >= Least(align, minBucket)
      && best == Waste(buckets, hist)
      && (maxPage % align == 0 ==> Eligible(buckets, k, align, maxPage, minBucket))
      && (forall bs :: Eligible(bs, k, align, maxPage, minBucket) ==> best <= Waste(bs, hist))
  {
    hide Best, Chain, Waste, Cost, Sorted;
    var items := Sorted(hist, maxPage);
    var n := |cs|;
    var buckets := Chain(items, cs, k, n - 1);
    LargestIsPage(hist, align, maxPage, minBucket, cs);
    ChainIsBest(items, cs, k, n - 1);
    SortedRequests(hist, maxPage);
    CostIsWaste(items, buckets);
    SortedWaste(hist, maxPage, buckets);
    ChosenFromCandidates(hist, k, align, maxPage, minBucket, cs, buckets);
    forall bs | Eligible(bs, k, align, maxPage, minBucket)
      ensures Best(items, cs, k, n - 1) <= Waste(bs, hist)
    {
      NoBetterChoice(hist, k, align, maxPage, minBucket, cs, bs);
    }
  }

  // Sizes below the rounded minimum get no cell.
  method FillTable(items: seq<Item>, cs: seq<int>, k: int, least: int) returns (dp: array2<Option<int>>, parent: array2<int>)
    requires SortedItems(items) && Ascending(cs) && 1 <= k <= |cs| && (cs[0] < least ==> |cs| == 1)
    ensures dp.Length0 == parent.Length0 == k + 1 && dp.Length1 == parent.Length1 == |cs|
    ensures cs[0] >= least ==> FilledUpTo(items, cs, dp, parent, k, |cs|) && Filled(items, cs, dp, parent, k, |cs| - 1)
    ensures cs[0] < least ==> dp[k, |cs| - 1] == None
  {
    hide Best, BestBelow, BestParent, RangeWaste, SumCount, SumSizes, SortedItems;
    var n := |cs|;
    dp := new Option<int>[k + 1, n]((a, b) => None);
    parent := new int[k + 1, n]((a, b) => -1);
    var sizes, sumCount, sumSizes := PrefixSums(items);
    for i := 0 to n
      invariant cs[0] >= least ==> FilledUpTo(items, cs, dp, parent, 1, i)
      invariant cs[0] < least ==> dp[1, 0] == None
    {
      NotBefore(cs, 0, i);
      if cs[i] >= least {
        var w := RangeCost(items, sizes, sumCount, sumSizes, 0, cs[i]);
        BestOne(items, cs, i);
        label cell:
        dp[1, i] := Some(w);
        forall b | 0 <= b < i
          ensures Filled(items, cs, dp, parent, 1, b)
        {
          assert old@cell(Filled(items, cs, dp, parent, 1, b));
        }
      }
    }
    for j := 2 to k + 1
      invariant cs[0] >= least ==> FilledUpTo(items, cs, dp, parent, j - 1, n)
      invariant cs[0] < least ==> dp[1, 0] == None
    {
      FillRow(items, cs, j, dp, parent, sizes, sumCount, sumSizes);
    }
    assert cs[0] >= least ==> Filled(items, cs, dp, parent, k, n - 1);
  }

  method FillRow(items: seq<Item>, cs: seq<int>, j: nat, dp: array2<Option<int>>, parent: array2<int>,
                 sizes: seq<int>, sumCount: seq<int>, sumSizes: seq<int>)
    requires SortedItems(items) && |sizes| == |items| && |sumCount| == |sumSizes| == |items| + 1
    requires forall i :: 0 <= i < |items| ==> sizes[i] == items[i].size
    requires forall i :: 0 <= i <= |items| ==> sumCount[i] == SumCount(items[..i]) && sumSizes[i] == SumSizes(items[..i])
    requires 2 <= j < dp.Length0 == parent.Length0 && dp.Length1 == parent.Length1 == |cs| && j <= |cs|
    requires FilledUpTo(items, cs, dp, parent, j - 1, |cs|)
    modifies dp, parent
    ensures FilledUpTo(items, cs, dp, parent, j, |cs|)
  {
    hide Best, BestBelow, BestParent, RangeWaste, SumCount, SumSizes, SortedItems;
    for i := j - 1 to |cs|
      invariant FilledUpTo(items, cs, dp, parent, j, i)
    {
      var best, bestP := None, -1;
      for ip := j - 2 to i
        invariant FilledUpTo(items, cs, dp, parent, j, i)
        invariant ip == j - 2 ==> best.None?
        invariant ip > j - 2 ==> best == Some(BestBelow(items, cs, j, i, ip)) && bestP == BestParent(items, cs, j, i, ip)
      {
        assert Filled(items, cs, dp, parent, j - 1, ip);
        BestBelowStep(items, cs, j, i, ip + 1);
        if dp[j - 1, ip].Some? {
          var c := RangeCost(items, sizes, sumCount, sumSizes, cs[ip], cs[i]);
          var w := dp[j - 1, ip].value + c;
          if best.None? || w < best.value {
            best, bestP := Some(w), ip;
          }
        }
      }
      BestMany(items, cs, j, i);
      label row:
      dp[j, i], parent[j, i] := best, bestP;
      forall a, b | 1 <= a < j && a - 1 <= b < |cs|
        ensures Filled(items, cs, dp, parent, a, b)
      {
        assert old@row(Filled(items, cs, dp, parent, a, b));
      }
      forall b | j - 1 <= b < i
        ensures Filled(items, cs, dp, parent, j, b)
      {
        assert old@row(Filled(items, cs, dp, parent, j, b));
      }
    }
  }

  // Follows the parents back and turns the list around.
  method Reconstruct(items: seq<Item>, cs: seq<int>, k: nat, dp: array2<Option<int>>, parent: array2<int>) returns (buckets: seq<int>)
    requires 1 <= k <= |cs| && dp.Length0 == parent.Length0 == k + 1 && dp.Length1 == parent.Length1 == |cs|
    requires FilledUpTo(items, cs, dp, parent, k, |cs|)
    ensures buckets == Chain(items, cs, k, |cs| - 1)
  {
    hide Chain, Best, BestBelow, BestParent, RangeWaste;
    ghost var whole := Chain(items, cs, k, |cs| - 1);
    assert whole + [] == whole;
    var back: seq<int> := [];
    var j, i := k, |cs| - 1;
    while j > 0
      invariant 0 <= j <= k
      invariant j > 0 ==> j - 1 <= i < |cs| && whole == Chain(items, cs, j, i) + Reverse(back)
      invariant j == 0 ==> whole == Reverse(back)
    {
      assert Filled(items, cs, dp, parent, j, i);
      ChainStep(items, cs, j, i, Reverse(back));
      ReverseMore(back, cs[i]);
      back := back + [cs[i]];
      i := parent[j, i];
      j := j - 1;
    }
    buckets := Reverse(back);
  }

  function Reverse(s: seq<int>): seq<int> {
    if s == [] then [] else [s[|s| - 1]] + Reverse(s[..|s| - 1])
  }

  lemma {:induction false} ReverseMore(s: seq<int>, x: int)
    ensures Reverse(s + [x]) == [x] + Reverse(s)
  {
    assert (s + [x])[..|s|] == s;
  }

  lemma {:induction false} NoLonger(a: seq<int>, b: seq<int>)
    requires Ascending(a) && Ascending(b) && forall x :: x in a ==> x in b
    ensures |a| <= |b|
  {
    if a != [] {
      assert a[|a| - 1] in a;
      LastIsLargest(a);
      LastIsLargest(b);
      var u, v := a[..|a| - 1], b[..|b| - 1];
      forall x | x in u
        ensures x in v
      {
        assert x in a && x != a[|a| - 1] && x <= a[|a| - 1];
      }
      NoLonger(u, v);
    }
  }

  lemma {:induction false} SameMembers(a: seq<int>, b: seq<int>)
    requires Ascending(a) && Ascending(b) && forall x :: x in a <==> x in b
    ensures a == b
  {
    NoLonger(a, b);
    NoLonger(b, a);
    if a != [] {
      var u, v := a[..|a| - 1], b[..|b| - 1];
      assert a[|a| - 1] in a && b[|b| - 1] in b;
      LastIsLargest(a);
      LastIsLargest(b);
      forall x | x in u
        ensures x in v
      {
        assert x in a && x != b[|b| - 1];
      }
      forall x | x in v
        ensures x in u
      {
        assert x in b && x != a[|a| - 1];
      }
      SameMembers(u, v);
      assert a == u + [a[|a| - 1]] && b == v + [b[|b| - 1]];
    }
  }

  lemma {:induction false} LastIsLargest(a: seq<int>)
    requires Ascending(a) && a != []
    ensures forall x :: x in a ==> x <= a[|a| - 1]
    ensures forall x :: x in a[..|a| - 1] <==> x in a && x != a[|a| - 1]
  {
  }

  lemma {:induction false} OneCandidateList(hist: seq<Item>, align: int, maxPage: int, minBucket: int, cs: seq<int>)
    requires align > 0 && Candidates(hist, align, maxPage, minBucket, cs)
    ensures forall bs :: Candidates(hist, align, maxPage, minBucket, bs) ==> bs == cs
  {
    forall bs | Candidates(hist, align, maxPage, minBucket, bs)
      ensures bs == cs
    {
      SameMembers(bs, cs);
    }
  }

  lemma {:induction false} ChosenFromCandidates(hist: seq<Item>, k: nat, align: int, maxPage: int, minBucket: int, cs: seq<int>, bs: seq<int>)
    requires align > 0 && Candidates(hist, align, maxPage, minBucket, cs) && 1 <= k == |bs|
    requires Ascending(bs) && bs[k - 1] == maxPage && cs != [] && cs[0] >= Least(align, minBucket)
    requires forall m :: 0 <= m < k ==> bs[m] in cs
    ensures bs[0] >= Least(align, minBucket)
    ensures maxPage % align == 0 ==> Eligible(bs, k, align, maxPage, minBucket)
  {
    forall m | 0 <= m < k
      ensures bs[m] >= Least(align, minBucket) && (maxPage % align == 0 ==> bs[m] % align == 0)
    {
      assert IsCandidate(hist, align, maxPage, minBucket, bs[m]);
      var x :| 0 <= x < |cs| && cs[x] == bs[m];
      NotBefore(cs, 0, x);
    }
  }

  // ----- evaluation of a bucket list

  function Served(bs: seq<int>, items: seq<Item>): int {
    if items == [] then 0
    else
      var x := items[|items| - 1];
      Served(bs, items[..|items| - 1]) + if Fitting(bs, x.size) < |bs| then x.size * x.count else 0
  }

  // Waste is what the buckets take beyond the bytes asked for.
  method Evaluate(buckets: seq<int>, hist: seq<Item>) returns (waste: int, alloc: int)
    requires Ascending(buckets)
    ensures waste == Waste(buckets, hist)
    ensures alloc == waste + Served(buckets, hist)
  {
    waste, alloc := 0, 0;
    for n := 0 to |hist|
      invariant waste == Waste(buckets, hist[..n]) && alloc == waste + Served(buckets, hist[..n])
    {
      var x := hist[n];
      assert hist[..n + 1][..n] == hist[..n];
      var idx := BisectLeft(buckets, x.size);
      FittingIs(buckets, x.size, idx);
      if idx < |buckets| {
        var b := buckets[idx];
        assert x.count * b == x.count * (b - x.size) + x.size * x.count;
        waste := waste + x.count * (b - x.size);
        alloc := alloc + x.count * b;
      }
    }
    assert hist[..|hist|] == hist;
  }

  method BisectLeft(bs: seq<int>, x: int) returns (lo: nat)
    requires Ascending(bs)
    ensures lo <= |bs| && (forall i :: 0 <= i < lo ==> bs[i] < x) && (forall i :: lo <= i < |bs| ==> x <= bs[i])
  {
    lo := 0;
    var hi := |bs|;
    while lo < hi
      invariant lo <= hi <= |bs|
      invariant (forall i :: 0 <= i < lo ==> bs[i] < x) && (forall i :: hi <= i < |bs| ==> x <= bs[i])
    {
      var mid := (lo + hi) / 2;
      if bs[mid] < x { lo := mid + 1; } else { hi := mid; }
    }
  }
}
