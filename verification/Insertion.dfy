// What the node on top of a search becomes when the searched key gets a value.

module Insertion {
  import opened Common
  import opened Prefix
  import opened Trie
  import opened Zipper
  import opened Search

  // A new key: label-long pieces in one-branch nodes, the rest in a leaf.
  function Spine(rest: Bytes, value: Bytes): Node
    decreases |rest|
  {
    if |rest| <= MAX_LABEL then Leaf(rest, value)
    else Trie(rest[..MAX_LABEL], [Branch(rest[MAX_LABEL], Spine(rest[MAX_LABEL..], value))])
  }

  function SpineBranch(rest: Bytes, value: Bytes): Branch {
    Branch(KeyOf(rest), Spine(rest, value))
  }

  // Two branches in key order.
  function TwoBranches(a: Branch, b: Branch): seq<Branch> {
    if a.key < b.key then [a, b] else [b, a]
  }

  function CutLabel(n: Node, k: nat): Node
    requires k <= |Stem(n)|
  {
    if n.Leaf? then Leaf(n.suffix[k..], n.value) else Trie(n.compressed[k..], n.branches)
  }

  function Split(n: Node, k: nat, rest: Bytes, value: Bytes): Node
    requires k <= |Stem(n)|
  {
    Trie(Stem(n)[..k], TwoBranches(Branch(KeyOf(Stem(n)[k..]), CutLabel(n, k)), SpineBranch(rest, value)))
  }

  function Widened(bs: seq<Branch>, b: Branch): seq<Branch>
    requires Ascending(bs)
  {
    bs[..UpTo(bs, b.key)] + [b] + bs[UpTo(bs, b.key)..]
  }

  // The node that replaces the top of a search that stopped at f with rest left of the key.
  function Grown(f: Frame, rest: Bytes, value: Bytes): Node
    requires f.prefix <= |Stem(f.node)| && WellFormed(f.node)
  {
    if f.node.Leaf? && f.cmp == 0 then Leaf(f.node.suffix, value)
    else if f.node.Leaf? || f.prefix < |f.node.compressed| then Split(f.node, f.prefix, rest, value)
    else f.node.(branches := Widened(f.node.branches, SpineBranch(rest, value)))
  }

  // ----- a spine holds one entry

  lemma {:induction false} SpineEntries(p: Bytes, rest: Bytes, value: Bytes)
    ensures Entries(p, Spine(rest, value)) == [Entry(p + rest, value)]
    ensures WellFormed(Spine(rest, value)) && Fits(SpineBranch(rest, value))
    decreases |rest|
  {
    if |rest| > MAX_LABEL {
      var a, b := rest[..MAX_LABEL], rest[MAX_LABEL..];
      SpineEntries(p + a, b, value);
      assert a + b == rest && (p + a) + b == p + rest;
      var bs := [Branch(b[0], Spine(b, value))];
      assert bs[1..] == [];
      assert BranchEntries(p + a, bs) == Entries(p + a, bs[0].node) + BranchEntries(p + a, bs[1..]);
    }
  }

  lemma {:induction false} CutEntries(p: Bytes, n: Node, k: nat)
    requires k <= |Stem(n)|
    ensures Entries(p + Stem(n)[..k], CutLabel(n, k)) == Entries(p, n)
  {
    assert p + Stem(n)[..k] + Stem(n)[k..] == p + Stem(n);
  }

  lemma {:induction false} OneEntries(p: Bytes, b: Branch)
    ensures BranchEntries(p, [b]) == Entries(p, b.node)
  {
    assert [b][1..] == [] && [b][0] == b;
    assert BranchEntries(p, [b][1..]) == [];
  }

  lemma {:induction false} TwoEntries(p: Bytes, a: Branch, b: Branch)
    ensures BranchEntries(p, [a, b]) == Entries(p, a.node) + Entries(p, b.node)
  {
    OneEntries(p, a);
    OneEntries(p, b);
    BranchEntriesConcat(p, [a], [b]);
    assert [a] + [b] == [a, b];
  }

  // ----- the new entry goes where the key belongs

  ghost predicate Placed(p: Bytes, n: Node, m: Node, rest: Bytes, value: Bytes, left: seq<Entry>, mid: seq<Entry>, right: seq<Entry>) {
    && Entries(p, n) == left + mid + right
    && Entries(p, m) == left + [Entry(p + rest, value)] + right
    && AllLess(left, p + rest) && AllGreater(right, p + rest)
    && (mid == [] || (|mid| == 1 && mid[0].key == p + rest))
  }

  lemma {:induction false} SplitPlaces(p: Bytes, n: Node, rest: Bytes, value: Bytes)
      returns (left: seq<Entry>, right: seq<Entry>)
    requires WellFormed(n)
    requires var k := CommonPrefix(rest, Stem(n)); (n.Trie? ==> k < |n.compressed|) && rest != Stem(n)
    ensures var k := CommonPrefix(rest, Stem(n)); Placed(p, n, Split(n, k, rest[k..], value), rest, value, left, [], right)
  {
    hide Stem, BranchEntries, Spine, Fits;
    var k := CommonPrefix(rest, Stem(n));
    var q := p + rest[..k];
    assert q + rest[k..] == p + rest && p + Stem(n)[..k] == q;
    var o, s := Branch(KeyOf(Stem(n)[k..]), CutLabel(n, k)), SpineBranch(rest[k..], value);
    var m := Split(n, k, rest[k..], value);
    assert Entries(p, m) == BranchEntries(q, TwoBranches(o, s));
    CutEntries(p, n, k);
    SpineEntries(q, rest[k..], value);
    SplitKeys(n, rest);
    SplitSides(p, n, rest);
    hide Entries, BranchEntries, WellFormed, Spine, CommonPrefix, Split, CutLabel, Stem;
    TwoEntries(q, o, s);
    TwoEntries(q, s, o);
    if o.key < s.key {
      left, right := Entries(p, n), [];
    } else {
      left, right := [], Entries(p, n);
    }
  }

  lemma {:induction false} SplitKeys(n: Node, rest: Bytes)
    requires rest != Stem(n)
    ensures var k := CommonPrefix(rest, Stem(n)); KeyOf(rest[k..]) != KeyOf(Stem(n)[k..])
  {
    var k := CommonPrefix(rest, Stem(n));
    assert rest == rest[..k] + rest[k..] && Stem(n) == Stem(n)[..k] + Stem(n)[k..];
    assert k == |rest| ==> rest[..k] == rest;
    assert k == |Stem(n)| ==> Stem(n)[..k] == Stem(n);
  }

  lemma {:induction false} SplitSides(p: Bytes, n: Node, rest: Bytes)
    requires var k := CommonPrefix(rest, Stem(n)); (n.Trie? ==> k < |n.compressed|) && rest != Stem(n)
    ensures var k := CommonPrefix(rest, Stem(n));
      if KeyOf(Stem(n)[k..]) < KeyOf(rest[k..]) then AllLess(Entries(p, n), p + rest) else AllGreater(Entries(p, n), p + rest)
  {
    var k := CommonPrefix(rest, Stem(n));
    SplitKeys(n, rest);
    var t, q := Stem(n)[k..], p + rest[..k];
    assert q + rest[k..] == p + rest && p + Stem(n)[..k] == q;
    CutEntries(p, n, k);
    var b := Branch(KeyOf(t), CutLabel(n, k));
    OneEntries(q, b);
    assert (p + rest)[|q|..] == rest[k..];
    SidesOf(q, [b], p + rest);
  }

  lemma {:induction false} SplitWellFormed(n: Node, rest: Bytes, value: Bytes)
    requires WellFormed(n)
    requires var k := CommonPrefix(rest, Stem(n)); (n.Trie? ==> k < |n.compressed|) && rest != Stem(n)
    ensures WellFormed(Split(n, CommonPrefix(rest, Stem(n)), rest[CommonPrefix(rest, Stem(n))..], value))
  {
    var k := CommonPrefix(rest, Stem(n));
    SplitKeys(n, rest);
    SpineEntries([], rest[k..], value);
    var o, s := Branch(KeyOf(Stem(n)[k..]), CutLabel(n, k)), SpineBranch(rest[k..], value);
    assert WellFormed(o.node) && Fits(o);
    PairWellFormed(Stem(n)[..k], o, s);
  }

  lemma {:induction false} PairWellFormed(c: Bytes, a: Branch, b: Branch)
    requires |c| <= MAX_LABEL && a.key != b.key && NONE <= a.key < 256 && NONE <= b.key < 256
    requires Fits(a) && Fits(b) && WellFormed(a.node) && WellFormed(b.node)
    ensures WellFormed(Trie(c, TwoBranches(a, b)))
  {
  }

  lemma {:induction false} AddPlaces(p: Bytes, n: Node, rest: Bytes, value: Bytes)
      returns (left: seq<Entry>, right: seq<Entry>)
    requires WellFormed(n) && n.Trie? && n.compressed <= rest
    requires ArrayIndex(n.branches, KeyOf(rest[|n.compressed|..])) < 0
    ensures var s := SpineBranch(rest[|n.compressed|..], value);
      Placed(p, n, n.(branches := Widened(n.branches, s)), rest, value, left, [], right)
  {
    var k := |n.compressed|;
    var q := p + n.compressed;
    var s := SpineBranch(rest[k..], value);
    assert q + rest[k..] == p + rest && (p + rest)[|q|..] == rest[k..];
    SpineEntries(q, rest[k..], value);
    hide WellFormed, Spine, Widened;
    left, right := WidenedEntries(q, n.branches, s, p + rest);
  }

  lemma {:induction false} WidenedEntries(q: Bytes, bs: seq<Branch>, s: Branch, key: Bytes)
      returns (left: seq<Entry>, right: seq<Entry>)
    requires Ascending(bs) && (forall i :: 0 <= i < |bs| ==> Fits(bs[i])) && ArrayIndex(bs, s.key) < 0
    requires q <= key && s.key == KeyOf(key[|q|..])
    ensures BranchEntries(q, bs) == left + right
    ensures BranchEntries(q, Widened(bs, s)) == left + Entries(q, s.node) + right
    ensures AllLess(left, key) && AllGreater(right, key)
  {
    var u := UpTo(bs, s.key);
    left, right := BranchEntries(q, bs[..u]), BranchEntries(q, bs[u..]);
    EntriesAround(q, bs, u, s);
    hide Fits, BranchEntries, Entries, AllLess, AllGreater, Widened;
    forall i | 0 <= i < u
      ensures bs[i].key < s.key
    {
      assert bs[i].key != s.key;
    }
    SidesOf(q, bs[..u], key);
    SidesOf(q, bs[u..], key);
  }

  lemma {:induction false} EntriesAround(q: Bytes, bs: seq<Branch>, u: nat, s: Branch)
    requires u <= |bs|
    ensures BranchEntries(q, bs) == BranchEntries(q, bs[..u]) + BranchEntries(q, bs[u..])
    ensures BranchEntries(q, bs[..u] + [s] + bs[u..]) == BranchEntries(q, bs[..u]) + Entries(q, s.node) + BranchEntries(q, bs[u..])
  {
    hide BranchEntries, Entries;
    BranchEntriesConcat(q, bs[..u], bs[u..]);
    BranchEntriesConcat(q, bs[..u] + [s], bs[u..]);
    BranchEntriesConcat(q, bs[..u], [s]);
    OneEntries(q, s);
    assert bs == bs[..u] + bs[u..];
  }

  lemma {:induction false} WidenedAscending(bs: seq<Branch>, b: Branch)
    requires Ascending(bs) && ArrayIndex(bs, b.key) < 0 && NONE <= b.key < 256
    ensures Ascending(Widened(bs, b)) && |Widened(bs, b)| == |bs| + 1
    ensures forall i :: 0 <= i < |Widened(bs, b)| ==> Widened(bs, b)[i] == b || Widened(bs, b)[i] in bs
  {
    var u := UpTo(bs, b.key);
    var w := bs[..u] + [b] + bs[u..];
    assert forall i :: 0 <= i < u ==> w[i] == bs[i] && bs[i].key != b.key;
    assert w[u] == b;
    assert forall i :: u < i < |w| ==> w[i] == bs[i - 1];
    forall i, j | 0 <= i < j < |w|
      ensures w[i].key < w[j].key
    {
      if j < u { assert bs[i].key < bs[j].key; }
      else if i > u { assert bs[i - 1].key < bs[j - 1].key; }
      else if i < u && j > u { assert bs[i].key < bs[j - 1].key; }
    }
    forall i | 0 <= i < |w|
      ensures NONE <= w[i].key < 256 && (w[i] == b || w[i] in bs)
    {
      if i < u { assert bs[i] in bs; } else if i > u { assert bs[i - 1] in bs; }
    }
  }

  lemma {:induction false} AddWellFormed(n: Node, b: Branch)
    requires WellFormed(n) && n.Trie? && ArrayIndex(n.branches, b.key) < 0
    requires Fits(b) && WellFormed(b.node) && NONE <= b.key < 256
    ensures WellFormed(n.(branches := Widened(n.branches, b)))
  {
    var w := Widened(n.branches, b);
    WidenedAscending(n.branches, b);
    hide Widened, ArrayIndex;
    forall i | 0 <= i < |w|
      ensures Fits(w[i]) && WellFormed(w[i].node)
    {
      if w[i] != b {
        var j :| 0 <= j < |n.branches| && n.branches[j] == w[i];
      }
    }
  }

  // Inserting where a search stopped puts the entry in place, and only that one.
  lemma {:induction false} GrownPlaces(p: Bytes, f: Frame, rest: Bytes, value: Bytes)
      returns (left: seq<Entry>, mid: seq<Entry>, right: seq<Entry>)
    requires WellFormed(f.node) && Ends(f, rest)
    ensures WellFormed(Grown(f, rest[f.prefix..], value))
    ensures Placed(p, f.node, Grown(f, rest[f.prefix..], value), rest, value, left, mid, right)
  {
    SignZero(rest, Stem(f.node));
    if f.node.Leaf? && f.cmp == 0 {
      left, mid, right := [], Entries(p, f.node), [];
    } else if f.node.Leaf? || f.prefix < |f.node.compressed| {
      assert rest != Stem(f.node);
      SplitWellFormed(f.node, rest, value);
      left, right := SplitPlaces(p, f.node, rest, value);
      mid := [];
    } else {
      assert rest[..f.prefix] == f.node.compressed;
      SpineEntries(p, rest[f.prefix..], value);
      AbsentBranch(f, rest);
      AddWellFormed(f.node, SpineBranch(rest[f.prefix..], value));
      left, right := AddPlaces(p, f.node, rest, value);
      mid := [];
    }
  }

  lemma {:induction false} AbsentBranch(f: Frame, rest: Bytes)
    requires WellFormed(f.node) && Ends(f, rest) && f.node.Trie? && f.prefix == |f.node.compressed|
    ensures ArrayIndex(f.node.branches, KeyOf(rest[f.prefix..])) < 0
  {
    var bs, i := f.node.branches, ArrayIndex(f.node.branches, KeyOf(rest[f.prefix..]));
    if f.prefix == |rest| {
      assert forall j :: 0 < j < |bs| ==> bs[0].key < bs[j].key;
    }
  }

  // The new node begins with the same byte, so it fits where the old one was.
  lemma {:induction false} GrownFits(f: Frame, rest: Bytes, value: Bytes, key: int)
    requires WellFormed(f.node) && Ends(f, rest) && Fits(Branch(key, f.node)) && key == KeyOf(rest)
    ensures Fits(Branch(key, Grown(f, rest[f.prefix..], value)))
  {
    SignZero(rest, Stem(f.node));
    if key != NONE {
      assert rest[0] == Stem(f.node)[0];
      assert f.prefix > 0;
      assert Stem(f.node)[..f.prefix][0] == Stem(f.node)[0];
    }
  }
}
