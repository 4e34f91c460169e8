// The path-compressed trie as a value, and the sorted list of entries it stands for.

module Trie {
  import opened Common
  import opened Prefix

  type Bytes = seq<Byte>

  datatype Branch = Branch(key: int, node: Node)

  datatype Node =
    | Leaf(suffix: Bytes, value: Bytes)
    | Trie(compressed: Bytes, branches: seq<Branch>)

  datatype Entry = Entry(key: Bytes, value: Bytes)

  const MAX_LABEL := 255

  function Stem(n: Node): Bytes {
    if n.Leaf? then n.suffix else n.compressed
  }

  function KeyOf(rest: Bytes): int {
    if rest == [] then NONE else rest[0]
  }

  predicate Ascending(bs: seq<Branch>) {
    && (forall i :: 0 <= i < |bs| ==> NONE <= bs[i].key < 256)
    && (forall i, j :: 0 <= i < j < |bs| ==> bs[i].key < bs[j].key)
  }

  // The label of a child starts with its branch byte; a NONE child is a leaf without suffix.
  predicate Fits(b: Branch) {
    if b.key == NONE then b.node.Leaf? && b.node.suffix == []
    else Stem(b.node) != [] && Stem(b.node)[0] == b.key
  }

  predicate WellFormed(n: Node)
    decreases n
  {
    && |Stem(n)| <= MAX_LABEL
    && (n.Trie? ==>
          && n.branches != [] && Ascending(n.branches)
          && (forall i :: 0 <= i < |n.branches| ==> Fits(n.branches[i]) && WellFormed(n.branches[i].node))
          && (|n.branches| == 1 ==> n.branches[0].key != NONE))
  }

  // ----- entries

  ghost function Entries(p: Bytes, n: Node): (r: seq<Entry>)
    decreases n
  {
    match n
    case Leaf(suffix, value) => [Entry(p + suffix, value)]
    case Trie(compressed, branches) => BranchEntries(p + compressed, branches)
  }

  ghost function BranchEntries(p: Bytes, bs: seq<Branch>): seq<Entry>
    decreases bs
  {
    if bs == [] then []
    else
      assert bs[0].node < bs[0];
      Entries(p, bs[0].node) + BranchEntries(p, bs[1..])
  }

  lemma {:induction false} BranchEntriesConcat(p: Bytes, a: seq<Branch>, b: seq<Branch>)
    ensures BranchEntries(p, a + b) == BranchEntries(p, a) + BranchEntries(p, b)
  {
    if a == [] {
      assert a + b == b;
    } else {
      hide Entries;
      var ab := a + b;
      assert ab[0] == a[0] && ab[1..] == a[1..] + b;
      BranchEntriesConcat(p, a[1..], b);
      var x, y, z := Entries(p, a[0].node), BranchEntries(p, a[1..]), BranchEntries(p, b);
      assert BranchEntries(p, ab) == x + (y + z);
      assert BranchEntries(p, a) == x + y;
      assert x + (y + z) == (x + y) + z;
    }
  }

  // The entries of one branch among those of all.
  lemma {:induction false} BranchEntriesAt(p: Bytes, bs: seq<Branch>, i: nat)
    requires i < |bs|
    ensures BranchEntries(p, bs) == BranchEntries(p, bs[..i]) + Entries(p, bs[i].node) + BranchEntries(p, bs[i + 1..])
    ensures BranchEntries(p, bs[..i + 1]) == BranchEntries(p, bs[..i]) + Entries(p, bs[i].node)
  {
    assert bs == bs[..i] + bs[i..] && bs[i..] == [bs[i]] + bs[i + 1..] && bs[..i + 1] == bs[..i] + [bs[i]];
    BranchEntriesConcat(p, bs[..i], bs[i..]);
    BranchEntriesConcat(p, bs[..i], [bs[i]]);
    assert BranchEntries(p, [bs[i]]) == Entries(p, bs[i].node) + BranchEntries(p, []);
  }

  lemma {:induction false} HasEntries(p: Bytes, n: Node)
    requires WellFormed(n)
    ensures |Entries(p, n)| > 0
    decreases n
  {
    if n.Trie? {
      HasEntries(p + n.compressed, n.branches[0].node);
    }
  }

  // ----- order

  ghost predicate SortedEntries(es: seq<Entry>) {
    forall i, j :: 0 <= i < j < |es| ==> Less(es[i].key, es[j].key)
  }

  lemma {:induction false} LessIrreflexive(a: Bytes)
    ensures !Less(a, a)
  {
    if a != [] { LessIrreflexive(a[1..]); }
  }

  lemma {:induction false} LessTransitive(a: Bytes, b: Bytes, c: Bytes)
    requires Less(a, b) && Less(b, c)
    ensures Less(a, c)
  {
    if a != [] && a[0] == b[0] && b[0] == c[0] { LessTransitive(a[1..], b[1..], c[1..]); }
  }

  lemma {:induction false} LessPrefix(p: Bytes, a: Bytes, b: Bytes)
    ensures Less(p + a, p + b) == Less(a, b)
  {
    if p == [] {
      assert p + a == a && p + b == b;
    } else {
      LessPrefix(p[1..], a, b);
      assert (p + a)[1..] == p[1..] + a && (p + b)[1..] == p[1..] + b;
    }
  }

  // ----- what the keys below a node look like

  ghost predicate Under(p: Bytes, stem: Bytes, key: Bytes) {
    p + stem <= key
  }

  lemma {:induction false} EntriesUnder(p: Bytes, n: Node, i: nat)
    requires i < |Entries(p, n)|
    ensures Under(p, Stem(n), Entries(p, n)[i].key)
    decreases n, 1
  {
    if n.Trie? {
      BranchEntriesUnder(p + n.compressed, n.branches, i);
    }
  }

  lemma {:induction false} BranchEntriesUnder(p: Bytes, bs: seq<Branch>, i: nat)
    requires i < |BranchEntries(p, bs)|
    ensures p <= BranchEntries(p, bs)[i].key
    ensures exists k :: 0 <= k < |bs| && Under(p, Stem(bs[k].node), BranchEntries(p, bs)[i].key)
    decreases bs, 0
  {
    assert bs[0].node < bs[0];
    var first := Entries(p, bs[0].node);
    if i < |first| {
      EntriesUnder(p, bs[0].node, i);
      assert Under(p, Stem(bs[0].node), BranchEntries(p, bs)[i].key);
    } else {
      BranchEntriesUnder(p, bs[1..], i - |first|);
      var k :| 0 <= k < |bs[1..]| && Under(p, Stem(bs[1..][k].node), BranchEntries(p, bs)[i].key);
      assert Under(p, Stem(bs[k + 1].node), BranchEntries(p, bs)[i].key);
    }
  }

  lemma {:induction false} LessByBranch(p: Bytes, a: Bytes, b: Bytes)
    requires p <= a && p <= b && KeyOf(a[|p|..]) < KeyOf(b[|p|..])
    ensures Less(a, b)
  {
    var x, y := a[|p|..], b[|p|..];
    assert a == p + x && b == p + y;
    assert Less(x, y);
    LessPrefix(p, x, y);
  }

  // The byte after the parent's prefix tells the branch.
  lemma {:induction false} BranchOfEntry(p: Bytes, b: Branch, i: nat)
    requires Fits(b) && i < |Entries(p, b.node)|
    ensures p <= Entries(p, b.node)[i].key && KeyOf(Entries(p, b.node)[i].key[|p|..]) == b.key
  {
    EntriesUnder(p, b.node, i);
    var key := Entries(p, b.node)[i].key;
    assert p + Stem(b.node) <= key;
    if b.key == NONE {
      assert key == p + b.node.suffix == p;
    } else {
      assert key[|p|] == (p + Stem(b.node))[|p|] == Stem(b.node)[0];
    }
  }

  // All entries below a run of branches lie between their first and their last branch key.
  lemma {:induction false} BranchOfBranchEntry(p: Bytes, bs: seq<Branch>, i: nat)
    requires (forall k :: 0 <= k < |bs| ==> Fits(bs[k])) && i < |BranchEntries(p, bs)|
    ensures p <= BranchEntries(p, bs)[i].key
    ensures exists k :: 0 <= k < |bs| && bs[k].key == KeyOf(BranchEntries(p, bs)[i].key[|p|..])
    decreases |bs|
  {
    var first := Entries(p, bs[0].node);
    if i < |first| {
      BranchOfEntry(p, bs[0], i);
    } else {
      BranchOfBranchEntry(p, bs[1..], i - |first|);
      var k :| 0 <= k < |bs[1..]| && bs[1..][k].key == KeyOf(BranchEntries(p, bs)[i].key[|p|..]);
      assert bs[k + 1].key == KeyOf(BranchEntries(p, bs)[i].key[|p|..]);
    }
  }

  lemma {:induction false} SortedConcat(a: seq<Entry>, b: seq<Entry>)
    requires SortedEntries(a) && SortedEntries(b)
    requires forall i, j :: 0 <= i < |a| && 0 <= j < |b| ==> Less(a[i].key, b[j].key)
    ensures SortedEntries(a + b)
  {
  }

  // The trie lists its keys in ascending order.
  lemma {:induction false} EntriesSorted(p: Bytes, n: Node)
    requires WellFormed(n)
    ensures SortedEntries(Entries(p, n))
    decreases n, 1
  {
    if n.Trie? {
      BranchEntriesSorted(p + n.compressed, n.branches);
    }
  }

  lemma {:induction false} BranchEntriesSorted(p: Bytes, bs: seq<Branch>)
    requires Ascending(bs) && forall i :: 0 <= i < |bs| ==> Fits(bs[i]) && WellFormed(bs[i].node)
    ensures SortedEntries(BranchEntries(p, bs))
    decreases bs, 0
  {
    if bs != [] {
      assert bs[0].node < bs[0];
      EntriesSorted(p, bs[0].node);
      BranchEntriesSorted(p, bs[1..]);
      var a, b := Entries(p, bs[0].node), BranchEntries(p, bs[1..]);
      forall i, j | 0 <= i < |a| && 0 <= j < |b|
        ensures Less(a[i].key, b[j].key)
      {
        BranchOfEntry(p, bs[0], i);
        BranchOfBranchEntry(p, bs[1..], j);
        var k :| 0 <= k < |bs[1..]| && bs[1..][k].key == KeyOf(b[j].key[|p|..]);
        assert bs[k + 1].key == bs[1..][k].key;
        LessByBranch(p, a[i].key, b[j].key);
      }
      SortedConcat(a, b);
    }
  }
}
