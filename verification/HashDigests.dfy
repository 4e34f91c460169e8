// What the digests of a hash trie say about the entries of the data trie.

module HashDigests {
  import opened Common
  import opened HashSync
  import opened HashLabels
  import HashPaths

  // An entry with its full key.
  datatype Entry = Entry(key: Bytes, value: Bytes)

  function DataEntries(path: Bytes, d: DataNode): seq<Entry>
    decreases d
  {
    match d
    case DataLeaf(_, suffix, value) => [Entry(path + suffix, value)]
    case DataTrie(_, compressed, branches) => BranchEntries(path + compressed, branches)
  }

  function BranchEntries(path: Bytes, bs: seq<DataBranch>): seq<Entry>
    decreases bs
  {
    if bs == [] then []
    else
      assert bs[0].node < bs[0];
      DataEntries(path, bs[0].node) + BranchEntries(path, bs[1..])
  }

  function Keys(es: seq<Entry>): (r: seq<Bytes>)
    ensures |r| == |es| && forall i :: 0 <= i < |r| ==> r[i] == es[i].key
  {
    seq(|es|, i requires 0 <= i < |es| => es[i].key)
  }

  // What the digest of an entry is taken of: the full key and then the value.
  function Hashed(es: seq<Entry>): (r: seq<Bytes>)
    ensures |r| == |es| && forall i :: 0 <= i < |r| ==> r[i] == es[i].key + es[i].value
  {
    seq(|es|, i requires 0 <= i < |es| => es[i].key + es[i].value)
  }

  // What the leaf digests of a hash trie are taken of, in the order of the leaves.
  function LeafDigests(h: HashNode): seq<Bytes>
    decreases h
  {
    match h
    case HashLeaf(_, _, hashed) => [hashed]
    case HashTrie(_, _, branches) => BranchDigests(branches)
  }

  function BranchDigests(bs: seq<HashBranch>): seq<Bytes>
    decreases bs
  {
    if bs == [] then []
    else
      assert bs[0].node < bs[0];
      LeafDigests(bs[0].node) + BranchDigests(bs[1..])
  }

  lemma {:induction false} HashedJoin(a: seq<Entry>, b: seq<Entry>)
    ensures Hashed(a + b) == Hashed(a) + Hashed(b)
  {
  }

  // A rebuilt hash trie has for every entry the digest of its key and value.
  lemma {:induction false} RebuiltDigests(path: Bytes, d: DataNode)
    ensures LeafDigests(Copy(path, d)) == Hashed(DataEntries(path, d))
    decreases d
  {
    if d.DataTrie? {
      RebuiltBranches(path + d.compressed, d.branches);
    }
  }

  lemma {:induction false} RebuiltBranches(path: Bytes, bs: seq<DataBranch>)
    ensures BranchDigests(CopyAll(path, bs)) == Hashed(BranchEntries(path, bs))
    decreases bs
  {
    if bs != [] {
      assert bs[0].node < bs[0];
      RebuiltDigests(path, bs[0].node);
      RebuiltBranches(path, bs[1..]);
      HashedJoin(DataEntries(path, bs[0].node), BranchEntries(path, bs[1..]));
      var c := CopyAll(path, bs);
      assert c[0].node == Copy(path, bs[0].node) && c[1..] == CopyAll(path, bs[1..]);
    }
  }

  // ----- a hash trie that belongs to a data trie

  // Node by node the same transaction, labels and branches; a hash leaf keeps the byte it is found by.
  ghost predicate Reflects(h: HashNode, d: DataNode)
    decreases d
  {
    && h.txn == d.txn
    && match d
       case DataLeaf(_, suffix, _) => h.HashLeaf? && h.key == KeyOf(suffix)
       case DataTrie(_, compressed, branches) =>
         && h.HashTrie? && h.compressed == compressed && |h.branches| == |branches|
         && forall i :: 0 <= i < |branches| ==> h.branches[i].key == branches[i].key && Reflects(h.branches[i].node, branches[i].node)
  }

  lemma {:induction false} MirrorsReflects(h: HashNode, d: DataNode)
    ensures Mirrors(h, d) <==> Reflects(h, d)
    decreases d
  {
    if d.DataTrie? {
      if Mirrors(h, d) {
        MirrorsDown(h, d);
        forall i | 0 <= i < |d.branches|
          ensures Reflects(h.branches[i].node, d.branches[i].node)
        {
          assert d.branches[i].node < d.branches[i];
          MirrorsReflects(h.branches[i].node, d.branches[i].node);
        }
      }
      if Reflects(h, d) {
        var c := CopyAll([] + d.compressed, d.branches);
        forall i | 0 <= i < |d.branches|
          ensures Shape(h.branches[i].node) == Shape(c[i].node)
        {
          assert d.branches[i].node < d.branches[i];
          MirrorsReflects(h.branches[i].node, d.branches[i].node);
          CopyAllAt([] + d.compressed, d.branches, i);
          CopyShape([] + d.compressed, [], d.branches[i].node);
        }
        SameShapes(h.branches, c);
      }
    }
  }

  // The hash trie is the right one for this data trie at this place.
  ghost predicate Right(path: Bytes, h: HashNode, d: DataNode) {
    Reflects(h, d) && LeafDigests(h) == Hashed(DataEntries(path, d))
  }

  lemma {:induction false} CountDigests(a: HashNode, b: HashNode, d: DataNode)
    requires Reflects(a, d) && Reflects(b, d)
    ensures |LeafDigests(a)| == |LeafDigests(b)|
    ensures LeafDigests(a) == LeafDigests(b) ==> a == b
    decreases d
  {
    if d.DataTrie? {
      CountBranches(a.branches, b.branches, d.branches);
    }
  }

  lemma {:induction false} CountBranches(xs: seq<HashBranch>, ys: seq<HashBranch>, ds: seq<DataBranch>)
    requires |xs| == |ys| == |ds|
    requires forall i :: 0 <= i < |ds| ==> xs[i].key == ds[i].key && Reflects(xs[i].node, ds[i].node)
    requires forall i :: 0 <= i < |ds| ==> ys[i].key == ds[i].key && Reflects(ys[i].node, ds[i].node)
    ensures |BranchDigests(xs)| == |BranchDigests(ys)|
    ensures BranchDigests(xs) == BranchDigests(ys) ==> xs == ys
    decreases ds
  {
    if ds != [] {
      assert ds[0].node < ds[0];
      CountDigests(xs[0].node, ys[0].node, ds[0].node);
      CountBranches(xs[1..], ys[1..], ds[1..]);
      if BranchDigests(xs) == BranchDigests(ys) {
        Halves(LeafDigests(xs[0].node), BranchDigests(xs[1..]), LeafDigests(ys[0].node), BranchDigests(ys[1..]));
        assert xs == [xs[0]] + xs[1..] && ys == [ys[0]] + ys[1..];
      }
    }
  }

  lemma {:induction false} Halves<T>(a: seq<T>, b: seq<T>, c: seq<T>, d: seq<T>)
    requires a + b == c + d && |a| == |c|
    ensures a == c && b == d
  {
    assert a == (a + b)[..|a|] && c == (c + d)[..|c|];
    assert b == (a + b)[|a|..] && d == (c + d)[|c|..];
  }

  // There is only one right hash trie, the rebuilt one.
  lemma {:induction false} RightIsRebuilt(path: Bytes, h: HashNode, d: DataNode)
    ensures Right(path, h, d) <==> h == Copy(path, d)
  {
    HashPaths.CopyMirrored(path, d);
    MirrorsReflects(Copy(path, d), d);
    RebuiltDigests(path, d);
    if Right(path, h, d) {
      CountDigests(h, Copy(path, d), d);
    }
  }

  // An update leads from the right hash trie of the old data to that of the new data, exactly when no old label parts
  // from the new label it starts in; in any case it reflects the new data.
  lemma {:induction false} UpdateRightIff(path: Bytes, d: DataNode, o: DataNode, h: HashNode)
    requires WellFormed(d) && WellFormed(o) && Coherent(d, 0, o, 0) && Right(path, h, o)
    ensures SkipsFit(d, 0, h, 0) && Reflects(Sync(path, d, 0, h, 0), d)
    ensures LeafDigests(Sync(path, d, 0, h, 0)) == Hashed(DataEntries(path, d)) <==> !Parted(path, d, path, o)
  {
    hide Parted, Sync, Copy, WellFormed, Coherent, Reflects;
    RightIsRebuilt(path, h, o);
    HashPaths.CopyMirrored(path, o);
    SyncMirrors(path, d, 0, o, h, 0);
    MirrorsReflects(Sync(path, d, 0, h, 0), d);
    DigestsRightIffJoined(path, d, o);
    RightIsRebuilt(path, Sync(path, d, 0, h, 0), d);
  }

  // ----- what equal digests mean

  // The digest of a node, taken of its label and the digests of its children.
  datatype Digest = OfEntry(bytes: Bytes) | OfNode(stem: Bytes, children: seq<Digest>)

  function DigestOf(h: HashNode): Digest
    decreases h
  {
    match h
    case HashLeaf(_, _, hashed) => OfEntry(hashed)
    case HashTrie(_, compressed, branches) => OfNode(compressed, DigestsOf(branches))
  }

  function DigestsOf(bs: seq<HashBranch>): (r: seq<Digest>)
    ensures |r| == |bs|
    decreases bs
  {
    if bs == [] then []
    else
      assert bs[0].node < bs[0];
      [DigestOf(bs[0].node)] + DigestsOf(bs[1..])
  }

  // Equal digests of two nodes mean equal digests of all leaves below.
  lemma {:induction false} SameLeafDigests(a: HashNode, b: HashNode)
    requires DigestOf(a) == DigestOf(b)
    ensures LeafDigests(a) == LeafDigests(b)
    decreases a
  {
    if a.HashTrie? {
      SameBranchDigests(a.branches, b.branches);
    }
  }

  lemma {:induction false} SameBranchDigests(xs: seq<HashBranch>, ys: seq<HashBranch>)
    requires DigestsOf(xs) == DigestsOf(ys)
    ensures BranchDigests(xs) == BranchDigests(ys)
    decreases xs
  {
    assert |xs| == |DigestsOf(xs)| == |DigestsOf(ys)| == |ys|;
    if xs != [] {
      assert xs[0].node < xs[0];
      assert DigestsOf(xs)[0] == DigestOf(xs[0].node) && DigestsOf(ys)[0] == DigestOf(ys[0].node);
      assert DigestsOf(xs)[1..] == DigestsOf(xs[1..]) && DigestsOf(ys)[1..] == DigestsOf(ys[1..]);
      SameLeafDigests(xs[0].node, ys[0].node);
      SameBranchDigests(xs[1..], ys[1..]);
    }
  }

  // Two data tries whose hash tries are right and have equal root digests hold the same entries, exactly if they
  // have the same keys.
  lemma {:induction false} EqualDigestsEqualValues(path: Bytes, a: DataNode, h: HashNode, b: DataNode, k: HashNode)
    requires Right(path, h, a) && Right(path, k, b) && DigestOf(h) == DigestOf(k)
    ensures DataEntries(path, a) == DataEntries(path, b) <==> Keys(DataEntries(path, a)) == Keys(DataEntries(path, b))
  {
    SameLeafDigests(h, k);
    var es, fs := DataEntries(path, a), DataEntries(path, b);
    if Keys(es) == Keys(fs) {
      assert |es| == |Keys(es)| == |Keys(fs)| == |fs|;
      forall i | 0 <= i < |es|
        ensures es[i] == fs[i]
      {
        assert es[i].key == Keys(es)[i] == Keys(fs)[i] == fs[i].key;
        assert Hashed(es)[i] == es[i].key + es[i].value && Hashed(fs)[i] == fs[i].key + fs[i].value;
        Halves(es[i].key, es[i].value, fs[i].key, fs[i].value);
      }
    }
  }

  // Otherwise they need not: a digest does not tell where the key ends and the value begins.
  lemma {:induction false} KeyAndValueBlur() returns (a: DataNode, b: DataNode)
    ensures WellFormed(a) && WellFormed(b) && DataEntries([], a) == [Entry([1], [2, 3])] && DataEntries([], b) == [Entry([1, 2], [3])]
    ensures DigestOf(Copy([], a)) == DigestOf(Copy([], b))
  {
    a, b := DataLeaf(1, [1], [2, 3]), DataLeaf(1, [1, 2], [3]);
    var x: Bytes, y: Bytes := [1], [1, 2];
    assert [] + x == x && [] + y == y && x + [2, 3] == y + [3];
  }
}
