// Which byte strings the leaf digests are taken of: the key path runs ahead of the label when a
// subtree is copied although the start of its label has been matched already.

module HashPaths {
  import opened Common
  import opened Prefix
  import opened HashSync

  // Somewhere on the walk a data node is copied whole from the middle of its label.
  ghost predicate Skewed(d: DataNode, ds: nat, h: HashNode, hs: nat)
    requires SkipsFit(d, ds, h, hs)
    decreases d, h, 1
  {
    if ds == 0 && hs == 0 && d.txn == h.txn then false
    else if d.DataLeaf? || h.HashLeaf? then ds > 0
    else SkewedTries(d, ds, h, hs)
  }

  ghost predicate SkewedTries(d: DataNode, ds: nat, h: HashNode, hs: nat)
    requires SkipsFit(d, ds, h, hs) && d.DataTrie? && h.HashTrie?
    decreases d, h, 0
  {
    var dl, hl := d.compressed[ds..], h.compressed[hs..];
    var fit := Align(dl, hl);
    if fit == HashLonger && HasKey(d.branches, hl[|dl|]) then
      SkewedInto(d.branches, h, hs + |dl|, hl[|dl|])
    else if fit == DataLonger && Find(h.branches, dl[|hl|]) >= 0 then
      var child := h.branches[Find(h.branches, dl[|hl|])];
      assert child.node < child;
      Skewed(d, ds + |hl|, child.node, 0)
    else if fit == Same then
      exists i :: 0 <= i < |d.branches| && Find(h.branches, d.branches[i].key) >= 0 && SkewedPair(d.branches, i, h.branches)
    else ds > 0
  }

  ghost predicate SkewedBranch(bs: seq<DataBranch>, i: nat, h: HashNode, hs: nat)
    requires i < |bs| && h.HashTrie? && hs <= |h.compressed|
    decreases bs, h, 0
  {
    assert bs[i].node < bs[i];
    Skewed(bs[i].node, 0, h, hs)
  }

  ghost predicate SkewedInto(bs: seq<DataBranch>, h: HashNode, hs: nat, next: Byte)
    requires h.HashTrie? && hs <= |h.compressed|
    decreases bs, h, 1
  {
    exists i :: 0 <= i < |bs| && bs[i].key == next && SkewedBranch(bs, i, h, hs)
  }

  ghost predicate SkewedPair(bs: seq<DataBranch>, i: nat, hs: seq<HashBranch>)
    requires i < |bs| && Find(hs, bs[i].key) >= 0
    decreases bs, hs
  {
    assert bs[i].node < bs[i];
    Skewed(bs[i].node, 0, hs[Find(hs, bs[i].key)].node, 0)
  }

  // ----- copies at different places differ

  lemma {:induction false} CopyTellsPath(p: Bytes, q: Bytes, d: DataNode)
    requires WellFormed(d) && Copy(p, d) == Copy(q, d)
    ensures |p| == |q|
    decreases d
  {
    if d.DataTrie? {
      CopyAllAt(p + d.compressed, d.branches, 0);
      CopyAllAt(q + d.compressed, d.branches, 0);
      assert d.branches[0].node < d.branches[0];
      CopyTellsPath(p + d.compressed, q + d.compressed, d.branches[0].node);
    } else {
      assert |p + d.suffix + d.value| == |p| + |d.suffix| + |d.value|;
      assert |q + d.suffix + d.value| == |q| + |d.suffix| + |d.value|;
    }
  }

  // The path without the bytes of the label it already contains.
  function Start(path: Bytes, skip: nat): Bytes
    requires skip <= |path|
  {
    path[..|path| - skip]
  }

  // The old hash trie was built for its place, and the skipped bytes are the end of the path.
  ghost predicate Placed(path: Bytes, d: DataNode, ds: nat, o: DataNode, h: HashNode, hs: nat) {
    && WellFormed(d) && WellFormed(o) && SkipsFit(d, ds, h, hs) && Coherent(d, ds, o, hs)
    && ds <= |path| && hs <= |path|
    && h == Copy(Start(path, hs), o)
    && (d.DataTrie? ==> Start(path, ds) + d.compressed[..ds] == path)
    && (o.DataTrie? ==> Start(path, hs) + o.compressed[..hs] == path)
  }

  lemma {:induction false} CopyMirrored(p: Bytes, o: DataNode)
    ensures Mirrors(Copy(p, o), o)
  {
    CopyShape(p, [], o);
  }

  lemma {:induction false} CopyFromMiddle(path: Bytes, d: DataNode, ds: nat)
    requires WellFormed(d) && ds <= |path|
    ensures Copy(path, d) == Copy(Start(path, ds), d) <==> ds == 0
  {
    if ds == 0 {
      assert Start(path, 0) == path;
    } else if Copy(path, d) == Copy(Start(path, ds), d) {
      CopyTellsPath(path, Start(path, ds), d);
    }
  }

  lemma {:induction false} LabelDone(path: Bytes, n: Bytes, skip: nat)
    requires skip <= |path| && skip <= |n| && Start(path, skip) + n[..skip] == path
    ensures path + n[skip..] == Start(path, skip) + n
  {
    assert n == n[..skip] + n[skip..];
  }

  lemma {:induction false} LabelFurther(path: Bytes, n: Bytes, skip: nat, more: Bytes)
    requires skip <= |path| && skip + |more| <= |n| && Start(path, skip) + n[..skip] == path && more == n[skip..skip + |more|]
    ensures Start(path + more, skip + |more|) == Start(path, skip)
    ensures Start(path, skip) + n[..skip + |more|] == path + more
  {
    assert n[..skip + |more|] == n[..skip] + more;
    assert path == Start(path, skip) + path[|path| - skip..];
    assert (path + more)[..|path| - skip] == path[..|path| - skip];
  }

  // ----- branch by branch

  lemma {:induction false} CopyByBranch(p: Bytes, d: DataNode, r: seq<HashBranch>)
    requires d.DataTrie? && |r| == |d.branches| && forall i :: 0 <= i < |r| ==> r[i].key == d.branches[i].key
    ensures HashTrie(d.txn, d.compressed, r) == Copy(p, d) <==>
      forall i :: 0 <= i < |r| ==> r[i].node == Copy(p + d.compressed, d.branches[i].node)
  {
    var c := CopyAll(p + d.compressed, d.branches);
    forall i | 0 <= i < |r|
      ensures c[i].node == Copy(p + d.compressed, d.branches[i].node) && c[i].key == r[i].key
      ensures r[i].node == c[i].node ==> r[i] == c[i]
    {
      CopyAllAt(p + d.compressed, d.branches, i);
    }
    if forall i :: 0 <= i < |r| ==> r[i].node == Copy(p + d.compressed, d.branches[i].node) {
      assert r == c;
    }
  }

  // The digests come out right exactly when no copy starts inside a label.
  lemma {:induction false} DigestsRightIff(path: Bytes, d: DataNode, ds: nat, o: DataNode, h: HashNode, hs: nat)
    requires Placed(path, d, ds, o, h, hs)
    ensures Sync(path, d, ds, h, hs) == Copy(Start(path, ds), d) <==> !Skewed(d, ds, h, hs)
    decreases d, h, 2
  {
    CopyMirrored(Start(path, hs), o);
    MirrorsDown(h, o);
    CopyFromMiddle(path, d, ds);
    hide SkewedTries, SyncTries, Copy, WellFormed;
    if ds == 0 && hs == 0 && d.txn == h.txn {
      assert d == o && Start(path, 0) == path;
    } else if d.DataTrie? && h.HashTrie? {
      TriesRightIff(path, d, ds, o, h, hs);
    }
  }

  lemma {:induction false} TriesRightIff(path: Bytes, d: DataNode, ds: nat, o: DataNode, h: HashNode, hs: nat)
    requires Placed(path, d, ds, o, h, hs) && d.DataTrie? && h.HashTrie?
    ensures SyncTries(path, d, ds, h, hs) == Copy(Start(path, ds), d) <==> !SkewedTries(d, ds, h, hs)
    decreases d, h, 1
  {
    hide Sync, SyncInto, SyncAll, Copy, Skewed, SkewedBranch, SkewedPair, WellFormed, Coherent, CommonPrefix, Find;
    CopyFromMiddle(path, d, ds);
    var fit := Align(d.compressed[ds..], h.compressed[hs..]);
    AlignIs(d.compressed[ds..], h.compressed[hs..]);
    if fit == HashLonger {
      IntoRightIff(path, d, ds, o, h, hs);
    } else if fit == DataLonger {
      LongerRightIff(path, d, ds, o, h, hs);
    } else if fit == Same {
      AllRightIff(path, d, ds, o, h, hs);
    }
  }

  lemma {:induction false} Syncs(path: Bytes, d: DataNode, ds: nat, o: DataNode, h: HashNode, hs: nat)
    requires Placed(path, d, ds, o, h, hs)
    ensures Syncable(d, ds, o, h, hs)
    ensures h.HashTrie? ==> o.DataTrie? && o.compressed == h.compressed && |o.branches| == |h.branches|
    ensures h.HashTrie? ==> forall j :: 0 <= j < |h.branches| ==> h.branches[j].key == o.branches[j].key
    ensures h.HashTrie? ==>
      forall j :: 0 <= j < |h.branches| ==> h.branches[j].node == Copy(Start(path, hs) + o.compressed, o.branches[j].node)
  {
    CopyMirrored(Start(path, hs), o);
    MirrorsDown(h, o);
    if h.HashTrie? {
      CopyByBranch(Start(path, hs), o, h.branches);
    }
  }

  lemma {:induction false} IntoRightIff(path: Bytes, d: DataNode, ds: nat, o: DataNode, h: HashNode, hs: nat)
    requires Placed(path, d, ds, o, h, hs) && d.DataTrie? && h.HashTrie?
    requires d.compressed[ds..] <= h.compressed[hs..] && |d.compressed[ds..]| < |h.compressed[hs..]|
    ensures var dl, hl := d.compressed[ds..], h.compressed[hs..];
      HashTrie(d.txn, d.compressed, SyncInto(path + dl, d.branches, h, hs + |dl|, hl[|dl|])) == Copy(Start(path, ds), d) <==>
      !SkewedInto(d.branches, h, hs + |dl|, hl[|dl|])
    decreases d, h, 0, 1
  {
    hide SyncInto, Copy, Sync;
    var dl, hl := d.compressed[ds..], h.compressed[hs..];
    var next, n := hl[|dl|], hs + |dl|;
    var r := SyncInto(path + dl, d.branches, h, n, next);
    LabelDone(path, d.compressed, ds);
    CopyByBranch(Start(path, ds), d, r);
    hide Sync, SyncInto, Copy, Skewed, WellFormed, Coherent, CommonPrefix;
    if SkewedInto(d.branches, h, n, next) {
      var i :| 0 <= i < |d.branches| && d.branches[i].key == next && SkewedBranch(d.branches, i, h, n);
      SyncIntoAt(path + dl, d.branches, h, n, next, i);
      IntoStep(path, d, ds, o, h, hs, i);
    } else {
      forall i | 0 <= i < |r|
        ensures r[i].node == Copy(path + dl, d.branches[i].node)
      {
        SyncIntoAt(path + dl, d.branches, h, n, next, i);
        if d.branches[i].key == next {
          IntoStep(path, d, ds, o, h, hs, i);
        }
      }
    }
  }

  lemma {:induction false} IntoStep(path: Bytes, d: DataNode, ds: nat, o: DataNode, h: HashNode, hs: nat, i: nat)
    requires Placed(path, d, ds, o, h, hs) && d.DataTrie? && h.HashTrie?
    requires d.compressed[ds..] <= h.compressed[hs..] && |d.compressed[ds..]| < |h.compressed[hs..]|
    requires i < |d.branches| && d.branches[i].key == h.compressed[hs..][|d.compressed[ds..]|]
    ensures var q, n := path + d.compressed[ds..], hs + |d.compressed[ds..]|;
      Sync(q, d.branches[i].node, 0, h, n) == Copy(q, d.branches[i].node) <==> !SkewedBranch(d.branches, i, h, n)
    decreases d, h, 0, 0
  {
    hide Sync, Copy, Skewed, WellFormed, Coherent, CommonPrefix;
    var q := path + d.compressed[ds..];
    PlacedInto(path, d, ds, o, h, hs, i);
    assert d.branches[i].node < d.branches[i];
    DigestsRightIff(q, d.branches[i].node, 0, o, h, hs + |d.compressed[ds..]|);
    assert Start(q, 0) == q;
  }

  lemma {:induction false} PlacedInto(path: Bytes, d: DataNode, ds: nat, o: DataNode, h: HashNode, hs: nat, i: nat)
    requires Placed(path, d, ds, o, h, hs) && d.DataTrie? && h.HashTrie?
    requires d.compressed[ds..] <= h.compressed[hs..] && |d.compressed[ds..]| < |h.compressed[hs..]|
    requires i < |d.branches| && d.branches[i].key == h.compressed[hs..][|d.compressed[ds..]|]
    ensures Placed(path + d.compressed[ds..], d.branches[i].node, 0, o, h, hs + |d.compressed[ds..]|)
  {
    var dl := d.compressed[ds..];
    Syncs(path, d, ds, o, h, hs);
    GoData(d, ds, o, h, hs, i);
    assert dl == o.compressed[hs..hs + |dl|];
    LabelFurther(path, o.compressed, hs, dl);
    var q := path + dl;
    assert Start(q, 0) == q;
  }

  lemma {:induction false} LongerRightIff(path: Bytes, d: DataNode, ds: nat, o: DataNode, h: HashNode, hs: nat)
    requires Placed(path, d, ds, o, h, hs) && d.DataTrie? && h.HashTrie?
    requires h.compressed[hs..] <= d.compressed[ds..] && |h.compressed[hs..]| < |d.compressed[ds..]|
    ensures var dl, hl := d.compressed[ds..], h.compressed[hs..];
      var j := Find(h.branches, dl[|hl|]);
      j >= 0 ==>
        (Sync(path + hl, d, ds + |hl|, h.branches[j].node, 0) == Copy(Start(path, ds), d) <==> !Skewed(d, ds + |hl|, h.branches[j].node, 0))
    decreases d, h, 0, 1
  {
    var dl, hl := d.compressed[ds..], h.compressed[hs..];
    var j := Find(h.branches, dl[|hl|]);
    if j >= 0 {
      hide Sync, Copy, Skewed, WellFormed, Coherent, CommonPrefix;
      assert h.branches[j].node < h.branches[j];
      PlacedLonger(path, d, ds, o, h, hs, j);
      DigestsRightIff(path + hl, d, ds + |hl|, o.branches[j].node, h.branches[j].node, 0);
    }
  }

  lemma {:induction false} PlacedLonger(path: Bytes, d: DataNode, ds: nat, o: DataNode, h: HashNode, hs: nat, j: nat)
    requires Placed(path, d, ds, o, h, hs) && d.DataTrie? && h.HashTrie?
    requires h.compressed[hs..] <= d.compressed[ds..] && |h.compressed[hs..]| < |d.compressed[ds..]|
    requires j < |h.branches| && h.branches[j].key == d.compressed[ds..][|h.compressed[hs..]|]
    ensures o.DataTrie? && j < |o.branches|
    ensures Placed(path + h.compressed[hs..], d, ds + |h.compressed[hs..]|, o.branches[j].node, h.branches[j].node, 0)
    ensures Start(path + h.compressed[hs..], ds + |h.compressed[hs..]|) == Start(path, ds)
  {
    var hl := h.compressed[hs..];
    Syncs(path, d, ds, o, h, hs);
    GoHash(d, ds, o, h, hs, j);
    assert hl == d.compressed[ds..ds + |hl|];
    LabelFurther(path, d.compressed, ds, hl);
    LabelDone(path, o.compressed, hs);
    var q := path + hl;
    assert Start(q, 0) == q;
  }

  lemma {:induction false} AllRightIff(path: Bytes, d: DataNode, ds: nat, o: DataNode, h: HashNode, hs: nat)
    requires Placed(path, d, ds, o, h, hs) && d.DataTrie? && h.HashTrie? && d.compressed[ds..] == h.compressed[hs..]
    ensures var dl := d.compressed[ds..];
      HashTrie(d.txn, d.compressed, SyncAll(path + dl, d.branches, h.branches)) == Copy(Start(path, ds), d) <==>
      !(exists i :: 0 <= i < |d.branches| && Find(h.branches, d.branches[i].key) >= 0 && SkewedPair(d.branches, i, h.branches))
    decreases d, h, 0
  {
    var dl := d.compressed[ds..];
    var r := SyncAll(path + dl, d.branches, h.branches);
    LabelDone(path, d.compressed, ds);
    CopyByBranch(Start(path, ds), d, r);
    hide Sync, SyncAll, Copy, Skewed, WellFormed, Coherent, CommonPrefix;
    forall i | 0 <= i < |r|
      ensures r[i].node == Copy(path + dl, d.branches[i].node) <==>
        !(Find(h.branches, d.branches[i].key) >= 0 && SkewedPair(d.branches, i, h.branches))
    {
      SyncAllAt(path + dl, d.branches, h.branches, i);
      var j := Find(h.branches, d.branches[i].key);
      if j >= 0 {
        PlacedPair(path, d, ds, o, h, hs, i, j);
        assert d.branches[i].node < d.branches[i];
        DigestsRightIff(path + dl, d.branches[i].node, 0, o.branches[j].node, h.branches[j].node, 0);
        assert Start(path + dl, 0) == path + dl;
      }
    }
  }

  lemma {:induction false} PlacedPair(path: Bytes, d: DataNode, ds: nat, o: DataNode, h: HashNode, hs: nat, i: nat, j: nat)
    requires Placed(path, d, ds, o, h, hs) && d.DataTrie? && h.HashTrie? && d.compressed[ds..] == h.compressed[hs..]
    requires i < |d.branches| && j < |h.branches| && d.branches[i].key == h.branches[j].key
    ensures o.DataTrie? && j < |o.branches|
    ensures Placed(path + d.compressed[ds..], d.branches[i].node, 0, o.branches[j].node, h.branches[j].node, 0)
  {
    Syncs(path, d, ds, o, h, hs);
    GoBoth(d, ds, o, h, hs, i, j);
    LabelDone(path, o.compressed, hs);
    var q := path + d.compressed[ds..];
    assert Start(q, 0) == q;
  }

  // All transactions in the tree.
  ghost predicate Txn(d: DataNode, t: nat)
    decreases d
  {
    d.txn == t && (d.DataTrie? ==> forall i :: 0 <= i < |d.branches| ==> Txn(d.branches[i].node, t))
  }

  lemma {:induction false} AtTxn(d: DataNode, skip: nat, pos: Bytes, x: DataNode, t: nat)
    requires At(d, skip, pos, x) && Txn(d, t)
    ensures x.txn == t
    decreases d
  {
    if !(skip == 0 && pos == [] && x == d) {
      var i :| 0 <= i < |d.branches| && At(d.branches[i].node, 0, pos[|d.compressed| - skip..], x);
      assert d.branches[i].node < d.branches[i];
      AtTxn(d.branches[i].node, 0, pos[|d.compressed| - skip..], x, t);
    }
  }

  lemma {:induction false} NewTxnCoherent(d: DataNode, o: DataNode, t: nat, u: nat)
    requires Txn(d, t) && Txn(o, u) && t != u
    ensures Coherent(d, 0, o, 0)
  {
    forall pos, x, y | At(d, 0, pos, x) && At(o, 0, pos, y)
      ensures x.txn != y.txn
    {
      AtTxn(d, 0, pos, x, t);
      AtTxn(o, 0, pos, y, u);
    }
  }

  // The old trie held the keys [1, 2] and [1, 3], the new one holds [1, 2, 4] and [1, 2, 5]. The
  // digest of the first key is taken of [1, 1, 2, 4].
  lemma {:induction false} WrongDigest() returns (o: DataNode, d: DataNode, h: HashNode)
    ensures WellFormed(d) && WellFormed(o) && Coherent(d, 0, o, 0) && h == Copy([], o)
    ensures Skewed(d, 0, h, 0) && Sync([], d, 0, h, 0) != Copy([], d)
    ensures var r := Sync([], d, 0, h, 0); r.HashTrie? && |r.branches| == 2 && r.branches[0].node == HashLeaf(2, 4, [1, 1, 2, 4])
  {
    hide Coherent, Copy, Align;
    var a, b := DataLeaf(1, [2], []), DataLeaf(1, [3], []);
    o := DataTrie(1, [1], [DataBranch(2, a), DataBranch(3, b)]);
    var e, f := DataLeaf(2, [4], []), DataLeaf(2, [5], []);
    d := DataTrie(2, [1, 2], [DataBranch(4, e), DataBranch(5, f)]);
    h := Copy([], o);
    assert WellFormed(a) && WellFormed(b) && WellFormed(e) && WellFormed(f);
    assert WellFormed(d) && WellFormed(o) && Txn(d, 2) && Txn(o, 1);
    hide WellFormed, Copy, Sync, Skewed, Coherent, Txn;
    NewTxnCoherent(d, o, 2, 1);
    WrongDigestWalk(o, d, h);
    if Copy([1], d) == Copy([], d) { CopyTellsPath([1], [], d); }
  }

  lemma {:induction false} WrongDigestWalk(o: DataNode, d: DataNode, h: HashNode)
    requires o == DataTrie(1, [1], [DataBranch(2, DataLeaf(1, [2], [])), DataBranch(3, DataLeaf(1, [3], []))])
    requires d == DataTrie(2, [1, 2], [DataBranch(4, DataLeaf(2, [4], [])), DataBranch(5, DataLeaf(2, [5], []))])
    requires h == Copy([], o)
    ensures Skewed(d, 0, h, 0) && Sync([], d, 0, h, 0) == Copy([1], d)
    ensures Copy([1], d).HashTrie? && |Copy([1], d).branches| == 2
    ensures Copy([1], d).branches[0].node == HashLeaf(2, 4, [1, 1, 2, 4])
  {
    var l: Bytes := [1];
    CommonPrefixUnique(d.compressed, l, 1);
    assert h.compressed == l && d.compressed[0..] == d.compressed && h.compressed[0..] == l;
    CopyAllAt([] + l, o.branches, 0);
    CopyAllAt([] + l, o.branches, 1);
    assert |h.branches| == 2 && h.branches[0].key == 2 && h.branches[1].key == 3;
    assert h.branches[..1][0].key == 2;
    assert Find(h.branches[..1], 2) == 0;
    assert Find(h.branches, 2) == 0;
    assert h.branches[0].node.HashLeaf?;
    assert [] + l == l;
    assert Align(d.compressed, l) == DataLonger && d.compressed[|l|] == 2;
    assert Sync(l, d, 1, h.branches[0].node, 0) == Copy(l, d);
    assert SyncTries([], d, 0, h, 0) == Sync([] + l, d, 0 + |l|, h.branches[0].node, 0);
    CopyAllAt(l + d.compressed, d.branches, 0);
    assert l + d.compressed + [4] + [] == [1, 1, 2, 4];
  }
}
