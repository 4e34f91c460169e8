// Where a search ends, and which entries lie on either side of a cursor.

module Search {
  import opened Common
  import opened Prefix
  import opened Trie
  import opened Zipper

  const NOT_FOUND := 2
  const UNDEFINED := 3
  const OUT_OF_RANGE := -2

  // ----- branch lookup by key; NodeTrie shows that the bitmaps of the packed node answer the same

  function ArrayIndex(bs: seq<Branch>, key: int): (r: int)
    ensures -1 <= r < |bs|
    ensures r >= 0 ==> bs[r].key == key
    ensures r < 0 ==> forall i :: 0 <= i < |bs| ==> bs[i].key != key
  {
    if bs == [] then -1
    else if bs[|bs| - 1].key == key then |bs| - 1
    else ArrayIndex(bs[..|bs| - 1], key)
  }

  // How many branches have a key of at most (below) the given one.
  function UpTo(bs: seq<Branch>, key: int): (r: nat)
    requires Ascending(bs)
    ensures r <= |bs|
    ensures forall i :: 0 <= i < r ==> bs[i].key <= key
    ensures forall i :: r <= i < |bs| ==> key < bs[i].key
  {
    if bs == [] then 0
    else if bs[|bs| - 1].key <= key then |bs|
    else UpTo(bs[..|bs| - 1], key)
  }

  lemma {:induction false} UpToIs(bs: seq<Branch>, key: int, n: nat)
    requires Ascending(bs) && n <= |bs|
    requires forall i :: 0 <= i < n ==> bs[i].key <= key
    requires forall i :: n <= i < |bs| ==> key < bs[i].key
    ensures UpTo(bs, key) == n
  {
    if n < |bs| {
      assert key < bs[|bs| - 1].key;
      UpToIs(bs[..|bs| - 1], key, n);
    } else if n > 0 {
      assert bs[n - 1].key <= key;
    }
  }

  function Below(bs: seq<Branch>, key: int): (r: nat)
    requires Ascending(bs)
    ensures r <= |bs|
    ensures forall i :: 0 <= i < r ==> bs[i].key < key
    ensures forall i :: r <= i < |bs| ==> key <= bs[i].key
  {
    UpTo(bs, key - 1)
  }

  // trie.next and trie.prev: the closest branch key above and below.
  function NextKey(bs: seq<Branch>, key: int): (r: int)
    requires Ascending(bs)
    ensures r == OUT_OF_RANGE <==> forall i :: 0 <= i < |bs| ==> bs[i].key <= key
    ensures r != OUT_OF_RANGE ==> key < r && exists i :: 0 <= i < |bs| && bs[i].key == r
    ensures r != OUT_OF_RANGE ==> forall i :: 0 <= i < |bs| && key < bs[i].key ==> r <= bs[i].key
  {
    if UpTo(bs, key) < |bs| then bs[UpTo(bs, key)].key else OUT_OF_RANGE
  }

  function PrevKey(bs: seq<Branch>, key: int): (r: int)
    requires Ascending(bs)
    ensures r == OUT_OF_RANGE <==> forall i :: 0 <= i < |bs| ==> key <= bs[i].key
    ensures r != OUT_OF_RANGE ==> r < key && exists i :: 0 <= i < |bs| && bs[i].key == r
    ensures r != OUT_OF_RANGE ==> forall i :: 0 <= i < |bs| && bs[i].key < key ==> bs[i].key <= r
  {
    if Below(bs, key) > 0 then bs[Below(bs, key) - 1].key else OUT_OF_RANGE
  }

  predicate HasNone(bs: seq<Branch>) {
    bs != [] && bs[0].key == NONE
  }

  // ----- where a search for a key ends

  // The stack above the top follows the key.
  ghost predicate Tracks(fs: seq<Frame>, key: Bytes)
    requires fs != [] && Linked(fs)
  {
    && Spelled(fs) <= key
    && (|fs| > 1 ==> Child(Top(Up(fs))).key == KeyOf(key[|Spelled(fs)|..]) && Tracks(Up(fs), key))
  }

  // The search for the rest of a key stops at this frame.
  predicate Ends(f: Frame, rest: Bytes) {
    && f.prefix == CommonPrefix(rest, Stem(f.node))
    && (if f.node.Leaf? || f.prefix < |f.node.compressed| then f.cmp == Sign(rest, Stem(f.node))
        else if f.prefix == |rest| then f.cmp == -1 && !HasNone(f.node.branches)
        else f.cmp == NOT_FOUND && f.branchKey == rest[f.prefix] && ArrayIndex(f.node.branches, rest[f.prefix]) < 0)
  }

  ghost predicate Located(fs: seq<Frame>, key: Bytes) {
    && fs != [] && fs[0].keypos == 0 && Linked(fs) && Tracks(fs, key)
    && Ends(Top(fs), key[|Spelled(fs)|..])
  }

  predicate Found(fs: seq<Frame>) {
    fs != [] && Top(fs).node.Leaf? && Top(fs).cmp == 0
  }

  // Same nodes, key positions and links on the way, and the same outcome at the end.
  ghost predicate SamePath(fs: seq<Frame>, gs: seq<Frame>) {
    && |fs| == |gs|
    && (forall i :: 0 <= i < |fs| ==> fs[i].node == gs[i].node && fs[i].keypos == gs[i].keypos && fs[i].prefix == gs[i].prefix)
    && (forall i :: 0 <= i < |fs| - 1 ==> fs[i].link == gs[i].link)
    && (fs != [] ==> Top(fs).cmp == Top(gs).cmp && (Top(fs).cmp == NOT_FOUND ==> Top(fs).branchKey == Top(gs).branchKey))
  }

  // Initial part of a stack.
  lemma {:induction false} LinkedPart(fs: seq<Frame>, m: nat)
    requires Linked(fs) && 0 < m <= |fs|
    ensures Linked(fs[..m])
    ensures forall i :: 0 < i < m ==> Parent(fs[i - 1], fs[i])
    decreases |fs|
  {
    if m < |fs| {
      LinkedPart(Up(fs), m);
      assert Up(fs)[..m] == fs[..m];
    } else {
      assert fs[..m] == fs;
      if m > 1 {
        LinkedPart(Up(fs), m - 1);
        assert Parent(fs[m - 2], fs[m - 1]);
        assert forall i :: 0 <= i < m - 1 ==> Up(fs)[i] == fs[i];
      }
    }
  }

  lemma {:induction false} TracksPart(fs: seq<Frame>, key: Bytes, m: nat)
    requires fs != [] && Linked(fs) && Tracks(fs, key) && 0 < m <= |fs|
    ensures Linked(fs[..m]) && Tracks(fs[..m], key)
    decreases |fs|
  {
    if m < |fs| {
      TracksPart(Up(fs), key, m);
      assert Up(fs)[..m] == fs[..m];
    } else {
      assert fs[..m] == fs;
    }
  }

  // At a node where the path of one search goes on, no search for the same key stops.
  lemma {:induction false} StepExcludesEnd(f: Frame, g: Frame, h: Frame, rest: Bytes)
    requires Parent(f, g) && WellFormed(f.node) && f.node.compressed <= rest
    requires Child(f).key == KeyOf(rest[|f.node.compressed|..])
    requires h.node == f.node
    ensures !Ends(h, rest)
  {
    var c := f.node.compressed;
    CommonPrefixUnique(rest, c, |c|);
    assert f.node.branches[0].key <= Child(f).key;
  }

  lemma {:induction false} TopAscending(fs: seq<Frame>)
    requires fs != [] && Linked(fs) && WellFormed(fs[0].node)
    ensures Top(fs).node.Trie? ==> Ascending(Top(fs).node.branches)
  {
    TopWellFormed(fs);
  }

  lemma {:induction false} UpToUnique(bs: seq<Branch>, i: nat, j: nat)
    requires Ascending(bs) && i < |bs| && j < |bs| && bs[i].key == bs[j].key
    ensures i == j
  {
  }

  // The paths of two searches for one key agree as far as both go.
  lemma {:induction false} TopAgrees(fs: seq<Frame>, gs: seq<Frame>, key: Bytes)
    requires |fs| == |gs| > 0 && Linked(fs) && Linked(gs) && Tracks(fs, key) && Tracks(gs, key)
    requires fs[0].node == gs[0].node && fs[0].keypos == gs[0].keypos && WellFormed(fs[0].node)
    ensures Spelled(fs) == Spelled(gs) && Top(fs).node == Top(gs).node && Top(fs).keypos == Top(gs).keypos
    ensures |fs| > 1 ==> Top(Up(fs)).link == Top(Up(gs)).link && Top(Up(fs)).prefix == Top(Up(gs)).prefix
    decreases |fs|
  {
    if |fs| > 1 {
      hide WellFormed, Fits;
      TopAgrees(Up(fs), Up(gs), key);
      TopAscending(Up(fs));
      UpToUnique(Top(Up(fs)).node.branches, Top(Up(fs)).link, Top(Up(gs)).link);
    }
  }

  lemma {:induction false} SharedPath(fs: seq<Frame>, gs: seq<Frame>, key: Bytes, i: nat)
    requires i < |fs| && i < |gs| && Linked(fs) && Linked(gs) && Tracks(fs, key) && Tracks(gs, key)
    requires fs[0].node == gs[0].node && fs[0].keypos == gs[0].keypos && WellFormed(fs[0].node)
    ensures Linked(fs[..i + 1]) && Linked(gs[..i + 1]) && Spelled(fs[..i + 1]) == Spelled(gs[..i + 1])
    ensures fs[i].node == gs[i].node && fs[i].keypos == gs[i].keypos
    ensures i > 0 ==> fs[i - 1].link == gs[i - 1].link && fs[i - 1].prefix == gs[i - 1].prefix
  {
    hide WellFormed, Spelled, Parent;
    TracksPart(fs, key, i + 1);
    TracksPart(gs, key, i + 1);
    TopAgrees(fs[..i + 1], gs[..i + 1], key);
  }

  lemma {:induction false} NoOverrun(fs: seq<Frame>, gs: seq<Frame>, key: Bytes)
    requires Located(fs, key) && gs != [] && Linked(gs) && Tracks(gs, key)
    requires fs[0].node == gs[0].node && gs[0].keypos == 0 && WellFormed(fs[0].node)
    ensures |gs| <= |fs|
  {
    var m := |fs|;
    if m < |gs| {
      hide WellFormed, Parent, Ends, Fits;
      TracksPart(gs, key, m + 1);
      var g := gs[..m + 1];
      assert Up(g) == gs[..m];
      assert Tracks(g, key) && Tracks(Up(g), key) && Linked(Up(g));
      TopAgrees(fs, Up(g), key);
      TopWellFormed(fs);
      Onward(g, key);
      StepExcludesEnd(Top(Up(g)), Top(g), Top(fs), key[|Spelled(fs)|..]);
    }
  }

  lemma {:induction false} Onward(g: seq<Frame>, key: Bytes)
    requires |g| > 1 && Linked(g) && Tracks(g, key)
    ensures Parent(Top(Up(g)), Top(g)) && Tracks(Up(g), key)
    ensures Top(Up(g)).node.compressed <= key[|Spelled(Up(g))|..]
    ensures Child(Top(Up(g))).key == KeyOf(key[|Spelled(Up(g))|..][|Top(Up(g)).node.compressed|..])
  {
    var u, c := Spelled(Up(g)), Top(Up(g)).node.compressed;
    assert u + c <= key;
    assert key[|u|..][..|c|] == key[..|u| + |c|][|u|..] == c;
    assert key[|u|..][|c|..] == key[|u + c|..];
  }

  // The outcome of a search is determined by the trie and the key.
  lemma {:induction false} LocatedUnique(fs: seq<Frame>, gs: seq<Frame>, key: Bytes)
    requires Located(fs, key) && Located(gs, key) && fs[0].node == gs[0].node && WellFormed(fs[0].node)
    ensures SamePath(fs, gs) && Spelled(fs) == Spelled(gs)
  {
    hide WellFormed, Tracks, Parent;
    NoOverrun(fs, gs, key);
    NoOverrun(gs, fs, key);
    forall i | 0 <= i < |fs|
      ensures fs[i].node == gs[i].node && fs[i].keypos == gs[i].keypos
    {
      SharedPath(fs, gs, key, i);
    }
    forall i | 0 <= i < |fs| - 1
      ensures fs[i].link == gs[i].link && fs[i].prefix == gs[i].prefix
    {
      SharedPath(fs, gs, key, i + 1);
    }
    TopAgrees(fs, gs, key);
  }

  // ----- what lies left and right of a search

  ghost predicate AllLess(es: seq<Entry>, key: Bytes) {
    forall i :: 0 <= i < |es| ==> Less(es[i].key, key)
  }

  ghost predicate AllGreater(es: seq<Entry>, key: Bytes) {
    forall i :: 0 <= i < |es| ==> Less(key, es[i].key)
  }

  // Branches left of the one a key belongs to hold smaller keys, those right of it greater ones.
  lemma {:induction false} SidesOf(p: Bytes, bs: seq<Branch>, key: Bytes)
    requires p <= key && forall k :: 0 <= k < |bs| ==> Fits(bs[k])
    ensures (forall k :: 0 <= k < |bs| ==> bs[k].key < KeyOf(key[|p|..])) ==> AllLess(BranchEntries(p, bs), key)
    ensures (forall k :: 0 <= k < |bs| ==> KeyOf(key[|p|..]) < bs[k].key) ==> AllGreater(BranchEntries(p, bs), key)
  {
    var es := BranchEntries(p, bs);
    forall i | 0 <= i < |es|
      ensures (forall k :: 0 <= k < |bs| ==> bs[k].key < KeyOf(key[|p|..])) ==> Less(es[i].key, key)
      ensures (forall k :: 0 <= k < |bs| ==> KeyOf(key[|p|..]) < bs[k].key) ==> Less(key, es[i].key)
    {
      BranchOfBranchEntry(p, bs, i);
      var k :| 0 <= k < |bs| && bs[k].key == KeyOf(es[i].key[|p|..]);
      if bs[k].key < KeyOf(key[|p|..]) {
        LessByBranch(p, es[i].key, key);
      } else if KeyOf(key[|p|..]) < bs[k].key {
        LessByBranch(p, key, es[i].key);
      }
    }
  }

  lemma {:induction false} StepSides(p: Bytes, f: Frame, key: Bytes)
    requires HasLink(f) && WellFormed(f.node) && p <= key && Child(f).key == KeyOf(key[|p|..])
    ensures AllLess(BranchEntries(p, f.node.branches[..f.link]), key)
    ensures AllGreater(BranchEntries(p, f.node.branches[f.link + 1..]), key)
  {
    var bs := f.node.branches;
    hide Fits, BranchEntries, AllLess, AllGreater;
    SidesOf(p, bs[..f.link], key);
    SidesOf(p, bs[f.link + 1..], key);
  }

  lemma {:induction false} PathSides(fs: seq<Frame>, key: Bytes)
    requires fs != [] && Linked(fs) && Tracks(fs, key) && WellFormed(fs[0].node)
    ensures AllLess(Before(fs), key) && AllGreater(After(fs), key)
    decreases |fs|
  {
    hide WellFormed;
    if |fs| > 1 {
      PathSides(Up(fs), key);
      TopWellFormed(Up(fs));
      StepSides(Spelled(fs), Top(Up(fs)), key);
    }
  }

  // A key that leaves the label of a node is on one side of all its entries.
  lemma {:induction false} SideOfLabel(p: Bytes, n: Node, rest: Bytes)
    requires !(Stem(n) <= rest)
    ensures Sign(rest, Stem(n)) == 1 ==> AllLess(Entries(p, n), p + rest)
    ensures Sign(rest, Stem(n)) == -1 ==> AllGreater(Entries(p, n), p + rest)
    ensures Sign(rest, Stem(n)) != 0
  {
    SignZero(rest, Stem(n));
    SignIsOrder(rest, Stem(n));
    var es := Entries(p, n);
    forall i | 0 <= i < |es|
      ensures Sign(rest, Stem(n)) == 1 ==> Less(es[i].key, p + rest)
      ensures Sign(rest, Stem(n)) == -1 ==> Less(p + rest, es[i].key)
    {
      EntriesUnder(p, n, i);
      var t := es[i].key[|p|..];
      assert es[i].key == p + t && Stem(n) <= t by {
        assert es[i].key[..|p|] == p;
        assert t[..|Stem(n)|] == es[i].key[|p|..|p| + |Stem(n)|] == Stem(n);
      }
      LessPrefix(p, t, rest);
      LessPrefix(p, rest, t);
      LessExtends(rest, Stem(n), t);
    }
  }

  lemma {:induction false} PrefixTail(a: Bytes, b: Bytes)
    requires a != [] && b != [] && a[0] == b[0] && a[1..] <= b[1..]
    ensures a <= b
  {
    assert a == [a[0]] + a[1..] && b == [b[0]] + b[1..];
  }

  lemma {:induction false} LessExtends(a: Bytes, stem: Bytes, t: Bytes)
    requires stem <= t && !(stem <= a)
    ensures Less(a, stem) ==> Less(a, t)
    ensures Less(stem, a) ==> Less(t, a)
  {
    if a != [] && stem != [] && a[0] == stem[0] {
      assert stem[1..] <= t[1..];
      if stem[1..] <= a[1..] { PrefixTail(stem, a); }
      LessExtends(a[1..], stem[1..], t[1..]);
    }
  }

  // ----- entries on either side of the cursor, for next (Done, Todo) and for prev (Earlier, Later)

  ghost function DoneBranches(f: Frame): (r: nat)
    requires f.node.Trie? && Ascending(f.node.branches)
    ensures r <= |f.node.branches|
  {
    if f.cmp == 0 then (if HasLink(f) then f.link + 1 else 0)
    else if f.prefix < |f.node.compressed| then (if f.cmp < 0 then 0 else |f.node.branches|)
    else UpTo(f.node.branches, f.branchKey)
  }

  ghost function Done(p: Bytes, f: Frame): seq<Entry>
    requires WellFormed(f.node)
  {
    if f.node.Leaf? then (if f.cmp < 0 then [] else Entries(p, f.node))
    else BranchEntries(p + f.node.compressed, f.node.branches[..DoneBranches(f)])
  }

  ghost function Todo(p: Bytes, f: Frame): seq<Entry>
    requires WellFormed(f.node)
  {
    if f.node.Leaf? then (if f.cmp < 0 then Entries(p, f.node) else [])
    else BranchEntries(p + f.node.compressed, f.node.branches[DoneBranches(f)..])
  }

  lemma {:induction false} DoneTodo(p: Bytes, f: Frame)
    requires WellFormed(f.node)
    ensures Entries(p, f.node) == Done(p, f) + Todo(p, f)
  {
    if f.node.Trie? {
      var bs, d := f.node.branches, DoneBranches(f);
      assert bs == bs[..d] + bs[d..];
      BranchEntriesConcat(p + f.node.compressed, bs[..d], bs[d..]);
    }
  }

  ghost function Behind(fs: seq<Frame>): seq<Entry>
    requires fs != [] && Linked(fs) && WellFormed(Top(fs).node)
  {
    Before(fs) + Done(Spelled(fs), Top(fs))
  }

  ghost function Ahead(fs: seq<Frame>): seq<Entry>
    requires fs != [] && Linked(fs) && WellFormed(Top(fs).node)
  {
    Todo(Spelled(fs), Top(fs)) + After(fs)
  }

  lemma {:induction false} Divide<T>(a: seq<T>, b: seq<T>, c: seq<T>, d: seq<T>)
    ensures a + (b + c) + d == (a + b) + (c + d)
  {
  }

  lemma {:induction false} Assoc<T>(a: seq<T>, b: seq<T>, c: seq<T>)
    ensures (a + b) + c == a + (b + c)
  {
  }

  lemma {:induction false} BehindAhead(fs: seq<Frame>)
    requires fs != [] && Linked(fs) && WellFormed(Top(fs).node)
    ensures Entries([], fs[0].node) == Behind(fs) + Ahead(fs)
  {
    hide Linked, Spelled, Before, After, Done, Todo, Entries, WellFormed;
    Zip(fs);
    DoneTodo(Spelled(fs), Top(fs));
    Divide(Before(fs), Done(Spelled(fs), Top(fs)), Todo(Spelled(fs), Top(fs)), After(fs));
  }

  // The byte of the branch taken is remembered.
  predicate Marked(f: Frame) {
    HasLink(f) && f.prefix == |f.node.compressed| && (Child(f).key != NONE ==> f.branchKey == Child(f).key)
  }

  // Each frame above the top still knows which branch was taken.
  predicate Knows(f: Frame) {
    Marked(f) && (Child(f).key == NONE ==> f.cmp == 0)
  }

  predicate Steady(fs: seq<Frame>) {
    forall i :: 0 <= i < |fs| - 1 ==> Knows(fs[i])
  }

  lemma {:induction false} UpToExact(bs: seq<Branch>, i: nat)
    requires Ascending(bs) && i < |bs|
    ensures UpTo(bs, bs[i].key) == i + 1
  {
    forall j | 0 <= j < i
      ensures bs[j].key <= bs[i].key
    {
      assert bs[j].key < bs[i].key;
    }
    UpToIs(bs, bs[i].key, i + 1);
  }

  lemma {:induction false} AllDone(p: Bytes, f: Frame)
    requires WellFormed(f.node) && Todo(p, f) == []
    ensures Done(p, f) == Entries(p, f.node)
  {
    DoneTodo(p, f);
  }

  lemma {:induction false} AllRest(p: Bytes, f: Frame)
    requires WellFormed(f.node) && Prior(p, f) == []
    ensures Rest(p, f) == Entries(p, f.node)
  {
    PriorRest(p, f);
  }

  lemma {:induction false} Nothing<T>(a: seq<T>)
    ensures a + [] == a && [] + a == a
  {
  }

  // ----- leaving the top node when the parent may have forgotten the branch it took

  // next goes on right behind the branch that was taken.
  predicate GoesRight(fs: seq<Frame>) {
    |fs| > 1 ==> RightOfLink(fs[|fs| - 2])
  }

  predicate RightOfLink(f: Frame) {
    HasLink(f) && (f.cmp != 0 && Child(f).key == NONE && f.link + 1 < |f.node.branches| ==> f.branchKey < f.node.branches[f.link + 1].key)
  }

  lemma {:induction false} RightOfLinkIff(f: Frame)
    requires Marked(f) && WellFormed(f.node)
    ensures RightOfLink(f) <==> DoneBranches(f) == f.link + 1
    ensures Knows(f) ==> RightOfLink(f)
    ensures Knows(f) <==> PriorBranches(f) == f.link
  {
    var bs, i := f.node.branches, f.link;
    if f.cmp != 0 {
      if bs[i].key != NONE {
        UpToExact(bs, i);
        BelowExact(bs, i);
      } else {
        assert bs[0].key <= bs[i].key;
        UpToUnique(bs, 0, i);
        assert 1 < |bs| && bs[1].key <= f.branchKey ==> UpTo(bs, f.branchKey) > 1;
        assert bs[0].key < f.branchKey;
      }
    }
  }

  lemma {:induction false} MoreBranches(q: Bytes, bs: seq<Branch>, d: nat, e: nat)
    requires d < e <= |bs| && forall i :: 0 <= i < |bs| ==> WellFormed(bs[i].node)
    ensures |BranchEntries(q, bs[..d])| < |BranchEntries(q, bs[..e])|
  {
    hide WellFormed, Entries, BranchEntries;
    var cs := bs[..e];
    BranchEntriesAt(q, cs, d);
    HasEntries(q, cs[d].node);
    assert cs[..d] == bs[..d] && cs[d] == bs[d];
  }

  lemma {:induction false} BranchCount(q: Bytes, bs: seq<Branch>, d: nat, e: nat)
    requires d <= |bs| && e <= |bs| && forall i :: 0 <= i < |bs| ==> WellFormed(bs[i].node)
    ensures |BranchEntries(q, bs[..d])| == |BranchEntries(q, bs[..e])| <==> d == e
  {
    hide WellFormed, BranchEntries;
    if d < e {
      MoreBranches(q, bs, d, e);
    } else if e < d {
      MoreBranches(q, bs, e, d);
    }
  }

  // The parts of a stack below its top.
  lemma {:induction false} UpParts(fs: seq<Frame>)
    requires |fs| > 1 && Linked(fs) && WellFormed(fs[0].node)
    ensures Linked(Up(fs)) && HasLink(Top(Up(fs))) && WellFormed(Top(Up(fs)).node) && Top(Up(fs)) == fs[|fs| - 2]
    ensures Child(Top(Up(fs))).node == Top(fs).node
    ensures Spelled(fs) == Spelled(Up(fs)) + Top(Up(fs)).node.compressed
    ensures Before(fs) == Before(Up(fs)) + BranchEntries(Spelled(fs), Top(Up(fs)).node.branches[..Top(Up(fs)).link])
    ensures After(fs) == BranchEntries(Spelled(fs), Top(Up(fs)).node.branches[Top(Up(fs)).link + 1..]) + After(Up(fs))
  {
    assert Up(fs)[0] == fs[0];
    TopWellFormed(Up(fs));
  }

  // Leaving an exhausted node: the sides stay exactly when the parent goes on behind the branch.
  lemma {:induction false} LeaveRight(fs: seq<Frame>)
    requires |fs| > 1 && Linked(fs) && WellFormed(fs[0].node) && WellFormed(Top(fs).node) && Marked(fs[|fs| - 2])
    requires Todo(Spelled(fs), Top(fs)) == []
    ensures WellFormed(Top(Up(fs)).node)
    ensures GoesRight(fs) <==> |Behind(Up(fs))| == |Behind(fs)|
    ensures GoesRight(fs) ==> Behind(Up(fs)) == Behind(fs) && Ahead(Up(fs)) == Ahead(fs)
  {
    hide Linked, Spelled, Before, After, Todo, Done, Entries, BranchEntries, WellFormed, DoneBranches, Marked, RightOfLink;
    UpParts(fs);
    var f, q := Top(Up(fs)), Spelled(fs);
    var bs := f.node.branches;
    RightOfLinkIff(f);
    AllDone(q, Top(fs));
    BranchEntriesAt(q, bs, f.link);
    ChildrenWellFormed(f.node);
    BranchCount(q, bs, DoneBranches(f), f.link + 1);
    DoneTodoParts(Spelled(Up(fs)), f);
    Assoc(Before(Up(fs)), BranchEntries(q, bs[..f.link]), Entries(q, Top(fs).node));
    Nothing(After(fs));
  }

  lemma {:induction false} ChildrenWellFormed(n: Node)
    requires WellFormed(n) && n.Trie?
    ensures forall i :: 0 <= i < |n.branches| ==> WellFormed(n.branches[i].node)
  {
  }

  lemma {:induction false} DoneTodoParts(p: Bytes, f: Frame)
    requires f.node.Trie? && WellFormed(f.node)
    ensures Done(p, f) == BranchEntries(p + f.node.compressed, f.node.branches[..DoneBranches(f)])
    ensures Todo(p, f) == BranchEntries(p + f.node.compressed, f.node.branches[DoneBranches(f)..])
    ensures Prior(p, f) == BranchEntries(p + f.node.compressed, f.node.branches[..PriorBranches(f)])
    ensures Rest(p, f) == BranchEntries(p + f.node.compressed, f.node.branches[PriorBranches(f)..])
  {
  }

  // The same for prev: only a parent that knows its branch goes on before it.
  lemma {:induction false} LeaveLeft(fs: seq<Frame>)
    requires |fs| > 1 && Linked(fs) && WellFormed(fs[0].node) && WellFormed(Top(fs).node) && Marked(fs[|fs| - 2])
    requires Prior(Spelled(fs), Top(fs)) == []
    ensures WellFormed(Top(Up(fs)).node)
    ensures Knows(fs[|fs| - 2]) <==> |Earlier(Up(fs))| == |Earlier(fs)|
    ensures Knows(fs[|fs| - 2]) ==> Earlier(Up(fs)) == Earlier(fs) && Later(Up(fs)) == Later(fs)
  {
    hide Linked, Spelled, Before, After, Prior, Rest, Entries, BranchEntries, WellFormed, PriorBranches, Marked, Knows;
    UpParts(fs);
    var f, q := Top(Up(fs)), Spelled(fs);
    var bs := f.node.branches;
    RightOfLinkIff(f);
    AllRest(q, Top(fs));
    ChildrenWellFormed(f.node);
    BranchCount(q, bs, PriorBranches(f), f.link);
    DoneTodoParts(Spelled(Up(fs)), f);
    FromBranch(q, bs, f.link);
    Assoc(Entries(q, Top(fs).node), BranchEntries(q, bs[f.link + 1..]), After(Up(fs)));
    Nothing(Before(fs));
  }

  lemma {:induction false} FromBranch(q: Bytes, bs: seq<Branch>, i: nat)
    requires i < |bs|
    ensures BranchEntries(q, bs[i..]) == Entries(q, bs[i].node) + BranchEntries(q, bs[i + 1..])
  {
    var cs := bs[i..];
    assert cs[0] == bs[i] && cs[1..] == bs[i + 1..];
  }

  // ----- the same for prev

  ghost function PriorBranches(f: Frame): (r: nat)
    requires f.node.Trie? && Ascending(f.node.branches)
    ensures r <= |f.node.branches|
  {
    if f.cmp == 0 then (if HasLink(f) then f.link else 0)
    else if f.prefix < |f.node.compressed| then (if f.cmp < 0 then 0 else |f.node.branches|)
    else Below(f.node.branches, f.branchKey)
  }

  ghost function Prior(p: Bytes, f: Frame): seq<Entry>
    requires WellFormed(f.node)
  {
    if f.node.Leaf? then (if f.cmp > 0 then Entries(p, f.node) else [])
    else BranchEntries(p + f.node.compressed, f.node.branches[..PriorBranches(f)])
  }

  ghost function Rest(p: Bytes, f: Frame): seq<Entry>
    requires WellFormed(f.node)
  {
    if f.node.Leaf? then (if f.cmp > 0 then [] else Entries(p, f.node))
    else BranchEntries(p + f.node.compressed, f.node.branches[PriorBranches(f)..])
  }

  lemma {:induction false} PriorRest(p: Bytes, f: Frame)
    requires WellFormed(f.node)
    ensures Entries(p, f.node) == Prior(p, f) + Rest(p, f)
  {
    if f.node.Trie? {
      var bs, d := f.node.branches, PriorBranches(f);
      assert bs == bs[..d] + bs[d..];
      BranchEntriesConcat(p + f.node.compressed, bs[..d], bs[d..]);
    }
  }

  ghost function Earlier(fs: seq<Frame>): seq<Entry>
    requires fs != [] && Linked(fs) && WellFormed(Top(fs).node)
  {
    Before(fs) + Prior(Spelled(fs), Top(fs))
  }

  ghost function Later(fs: seq<Frame>): seq<Entry>
    requires fs != [] && Linked(fs) && WellFormed(Top(fs).node)
  {
    Rest(Spelled(fs), Top(fs)) + After(fs)
  }

  lemma {:induction false} EarlierLater(fs: seq<Frame>)
    requires fs != [] && Linked(fs) && WellFormed(Top(fs).node)
    ensures Entries([], fs[0].node) == Earlier(fs) + Later(fs)
  {
    hide Linked, Spelled, Before, After, Prior, Rest, Entries, WellFormed;
    Zip(fs);
    PriorRest(Spelled(fs), Top(fs));
    Divide(Before(fs), Prior(Spelled(fs), Top(fs)), Rest(Spelled(fs), Top(fs)), After(fs));
  }

  lemma {:induction false} BelowExact(bs: seq<Branch>, i: nat)
    requires Ascending(bs) && i < |bs|
    ensures Below(bs, bs[i].key) == i
  {
    forall j | 0 <= j < i
      ensures bs[j].key <= bs[i].key - 1
    {
      assert bs[j].key < bs[i].key;
    }
    forall j | i <= j < |bs|
      ensures bs[i].key - 1 < bs[j].key
    {
      assert i < j ==> bs[i].key < bs[j].key;
    }
    UpToIs(bs, bs[i].key - 1, i);
  }

  // ----- a search places the cursor between the smaller and the greater keys

  // The frame tells next where to go, except where a key ended inside a node without a NONE branch.
  predicate Oriented(f: Frame) {
    f.node.Leaf? || f.prefix < |f.node.compressed| || f.cmp != -1
  }

  lemma {:induction false} SearchSides(fs: seq<Frame>, key: Bytes)
    requires Located(fs, key) && WellFormed(fs[0].node) && WellFormed(Top(fs).node) && Oriented(Top(fs))
    ensures AllLess(Earlier(fs), key) && AllGreater(Ahead(fs), key)
    ensures Behind(fs) == if Found(fs) then Earlier(fs) + [Entry(key, Top(fs).node.value)] else Earlier(fs)
  {
    hide Before, After, Prior, Done, Todo, WellFormed, Linked, Spelled, AllLess, AllGreater, Tracks, Ends, Oriented;
    PathSides(fs, key);
    TracksSpelled(fs, key);
    var p, f := Spelled(fs), Top(fs);
    var rest := key[|p|..];
    TopSides(p, f, rest);
    SidesJoin(Before(fs), Prior(p, f), Todo(p, f), After(fs), key);
    if Found(fs) {
      Assoc(Before(fs), Prior(p, f), [Entry(key, f.node.value)]);
    }
  }

  lemma {:induction false} TracksSpelled(fs: seq<Frame>, key: Bytes)
    requires fs != [] && Linked(fs) && Tracks(fs, key)
    ensures Spelled(fs) <= key && Spelled(fs) + key[|Spelled(fs)|..] == key
  {
  }

  lemma {:induction false} SidesJoin(a: seq<Entry>, b: seq<Entry>, c: seq<Entry>, d: seq<Entry>, key: Bytes)
    requires AllLess(a, key) && AllLess(b, key) && AllGreater(c, key) && AllGreater(d, key)
    ensures AllLess(a + b, key) && AllGreater(c + d, key)
  {
  }

  lemma {:induction false} TopSides(p: Bytes, f: Frame, rest: Bytes)
    requires WellFormed(f.node) && Ends(f, rest) && Oriented(f)
    ensures AllLess(Prior(p, f), p + rest) && AllGreater(Todo(p, f), p + rest)
    ensures Done(p, f) == if f.node.Leaf? && f.cmp == 0 then Prior(p, f) + [Entry(p + rest, f.node.value)] else Prior(p, f)
  {
    if f.node.Leaf? || f.prefix < |f.node.compressed| {
      LabelSides(p, f, rest);
    } else {
      BranchSides(p, f, rest);
    }
  }

  lemma {:induction false} LabelSides(p: Bytes, f: Frame, rest: Bytes)
    requires WellFormed(f.node) && Ends(f, rest) && (f.node.Leaf? || f.prefix < |f.node.compressed|)
    ensures AllLess(Prior(p, f), p + rest) && AllGreater(Todo(p, f), p + rest)
    ensures Done(p, f) == if f.node.Leaf? && f.cmp == 0 then Prior(p, f) + [Entry(p + rest, f.node.value)] else Prior(p, f)
  {
    SignZero(rest, Stem(f.node));
    if rest != Stem(f.node) {
      if f.prefix < |Stem(f.node)| {
        NotBelow(f, rest);
        SideOfLabel(p, f.node, rest);
        if f.node.Trie? {
          assert f.node.branches[..|f.node.branches|] == f.node.branches;
        }
      } else {
        assert rest[..f.prefix] == f.node.suffix;
        LongerThanLeaf(p, f.node, rest);
      }
    }
  }

  lemma {:induction false} BranchSides(p: Bytes, f: Frame, rest: Bytes)
    requires WellFormed(f.node) && Ends(f, rest) && f.node.Trie? && f.prefix == |f.node.compressed| && f.cmp != -1
    ensures AllLess(Prior(p, f), p + rest) && AllGreater(Todo(p, f), p + rest)
    ensures Done(p, f) == Prior(p, f)
  {
    var c, bs, b := f.node.compressed, f.node.branches, f.branchKey;
    var u := UpTo(bs, b);
    AbsentSplit(bs, b);
    assert rest[..|c|] == c;
    SplitSidesAt(p + c, bs, u, p + rest, rest[|c|..]);
  }

  lemma {:induction false} AbsentSplit(bs: seq<Branch>, b: int)
    requires Ascending(bs) && ArrayIndex(bs, b) < 0
    ensures Below(bs, b) == UpTo(bs, b)
    ensures forall i :: 0 <= i < UpTo(bs, b) ==> bs[i].key < b
  {
    var u := UpTo(bs, b);
    forall i | 0 <= i < u
      ensures bs[i].key <= b - 1
    {
      assert bs[i].key != b;
    }
    UpToIs(bs, b - 1, u);
  }

  lemma {:induction false} SplitSidesAt(q: Bytes, bs: seq<Branch>, u: nat, key: Bytes, t: Bytes)
    requires key == q + t && u <= |bs| && forall i :: 0 <= i < |bs| ==> Fits(bs[i])
    requires forall i :: 0 <= i < u ==> bs[i].key < KeyOf(t)
    requires forall i :: u <= i < |bs| ==> KeyOf(t) < bs[i].key
    ensures AllLess(BranchEntries(q, bs[..u]), key) && AllGreater(BranchEntries(q, bs[u..]), key)
  {
    hide BranchEntries, AllLess, AllGreater, Fits;
    assert key[|q|..] == t;
    SidesOf(q, bs[..u], key);
    SidesOf(q, bs[u..], key);
  }

  lemma {:induction false} NotBelow(f: Frame, rest: Bytes)
    requires Ends(f, rest) && f.prefix < |Stem(f.node)|
    ensures !(Stem(f.node) <= rest)
  {
    assert f.prefix < |rest| ==> rest[f.prefix] != Stem(f.node)[f.prefix];
  }

  lemma {:induction false} LongerThanLeaf(p: Bytes, n: Node, rest: Bytes)
    requires n.Leaf? && n.suffix <= rest && n.suffix != rest
    ensures Sign(rest, n.suffix) == 1 && AllLess(Entries(p, n), p + rest)
  {
    assert rest[..|n.suffix|] == n.suffix;
    CommonPrefixUnique(rest, n.suffix, |n.suffix|);
    SignIsOrder(rest, n.suffix);
    LessPrefix(p, n.suffix, rest);
  }

  // A search succeeds exactly for the keys of the trie.
  lemma {:induction false} FoundIffPresent(fs: seq<Frame>, key: Bytes)
    requires Located(fs, key) && WellFormed(fs[0].node) && WellFormed(Top(fs).node)
    ensures Found(fs) <==> exists e :: e in Entries([], fs[0].node) && e.key == key
    ensures Found(fs) ==> Entry(key, Top(fs).node.value) in Entries([], fs[0].node)
  {
    if Oriented(Top(fs)) {
      SearchSides(fs, key);
      BehindAhead(fs);
      var es := Entries([], fs[0].node);
      LessIrreflexive(key);
      if Found(fs) {
        assert es[|Earlier(fs)|] == Entry(key, Top(fs).node.value);
      } else {
        forall e | e in es
          ensures e.key != key
        {
          assert e in Behind(fs) || e in Ahead(fs);
        }
      }
    } else {
      ExhaustedSides(fs, key);
    }
  }

  // The key ends where the node has no NONE branch: every entry below is greater.
  lemma {:induction false} ExhaustedSides(fs: seq<Frame>, key: Bytes)
    requires Located(fs, key) && WellFormed(fs[0].node) && WellFormed(Top(fs).node) && !Oriented(Top(fs))
    ensures AllLess(Before(fs), key) && AllGreater(Entries(Spelled(fs), Top(fs).node) + After(fs), key)
    ensures !Found(fs) && forall e :: e in Entries([], fs[0].node) ==> e.key != key
  {
    PathSides(fs, key);
    Zip(fs);
    LessIrreflexive(key);
    var p, f := Spelled(fs), Top(fs);
    var rest := key[|p|..];
    assert p + rest == key && rest[..f.prefix] == f.node.compressed && rest == f.node.compressed;
    assert p + f.node.compressed == key && key[|p + f.node.compressed|..] == [];
    forall i | 0 <= i < |f.node.branches|
      ensures NONE < f.node.branches[i].key
    {
      assert i > 0 ==> f.node.branches[0].key < f.node.branches[i].key;
    }
    SidesOf(p + f.node.compressed, f.node.branches, key);
    forall e | e in Entries([], fs[0].node)
      ensures e.key != key
    {
      assert e in Before(fs) || e in Entries(p, f.node) || e in After(fs);
    }
  }
}
