// Incremental synchronisation of the hash trie with the data trie.

module HashSync {
  import opened Common
  import opened Prefix

  type Bytes = seq<Byte>

  datatype DataBranch = DataBranch(key: int, node: DataNode)
  datatype DataNode =
    | DataLeaf(txn: nat, suffix: Bytes, value: Bytes)
    | DataTrie(txn: nat, compressed: Bytes, branches: seq<DataBranch>)

  // A hash leaf keeps the branch byte only; hashed is the byte string its digest is taken of.
  datatype HashBranch = HashBranch(key: int, node: HashNode)
  datatype HashNode =
    | HashLeaf(txn: nat, key: int, hashed: Bytes)
    | HashTrie(txn: nat, compressed: Bytes, branches: seq<HashBranch>)

  function KeyOf(rest: Bytes): int {
    if rest == [] then NONE else rest[0]
  }

  function Label(d: DataNode): Bytes {
    if d.DataLeaf? then d.suffix else d.compressed
  }

  // Branch keys differ and say how the label of the child begins; a NONE child is a leaf.
  ghost predicate WellFormed(d: DataNode)
    decreases d
  {
    d.DataTrie? ==>
      && d.branches != []
      && (forall i, j :: 0 <= i < j < |d.branches| ==> d.branches[i].key != d.branches[j].key)
      && (forall i :: 0 <= i < |d.branches| ==>
            WellFormed(d.branches[i].node) && d.branches[i].key == KeyOf(Label(d.branches[i].node))
            && (d.branches[i].key == NONE ==> d.branches[i].node.DataLeaf?))
  }

  // ----- building from scratch

  function Copy(path: Bytes, d: DataNode): HashNode
    decreases d
  {
    match d
    case DataLeaf(txn, suffix, value) => HashLeaf(txn, KeyOf(suffix), path + suffix + value)
    case DataTrie(txn, compressed, branches) => HashTrie(txn, compressed, CopyAll(path + compressed, branches))
  }

  function CopyAll(path: Bytes, bs: seq<DataBranch>): (r: seq<HashBranch>)
    ensures |r| == |bs|
    ensures forall i :: 0 <= i < |bs| ==> r[i].key == bs[i].key
    decreases bs
  {
    if bs == [] then []
    else
      assert bs[0].node < bs[0];
      [HashBranch(bs[0].key, Copy(path, bs[0].node))] + CopyAll(path, bs[1..])
  }

  // ----- the incremental walk

  function Find(bs: seq<HashBranch>, key: int): (r: int)
    ensures -1 <= r < |bs|
    ensures r >= 0 ==> bs[r].key == key
    ensures r < 0 ==> forall i :: 0 <= i < |bs| ==> bs[i].key != key
  {
    if bs == [] then -1
    else if bs[|bs| - 1].key == key then |bs| - 1
    else Find(bs[..|bs| - 1], key)
  }

  predicate HasKey(bs: seq<DataBranch>, key: int) {
    exists i :: 0 <= i < |bs| && bs[i].key == key
  }

  // How the two labels lie, from the skipped positions on.
  datatype Fit = Apart | HashLonger | DataLonger | Same

  function Align(d: Bytes, h: Bytes): Fit {
    var c := CommonPrefix(d, h);
    if c < |d| && c < |h| then Apart
    else if c < |h| then HashLonger
    else if c < |d| then DataLonger
    else Same
  }

  predicate SkipsFit(d: DataNode, ds: nat, h: HashNode, hs: nat) {
    && (d.DataLeaf? ==> ds == 0) && (d.DataTrie? ==> ds <= |d.compressed|)
    && (h.HashLeaf? ==> hs == 0) && (h.HashTrie? ==> hs <= |h.compressed|)
  }

  // sync_nodes for two nodes that exist; path holds the bytes up to the skipped position.
  function Sync(path: Bytes, d: DataNode, ds: nat, h: HashNode, hs: nat): HashNode
    requires SkipsFit(d, ds, h, hs)
    decreases d, h, 1
  {
    if ds == 0 && hs == 0 && d.txn == h.txn then h
    else if d.DataLeaf? || h.HashLeaf? then Copy(path, d)
    else SyncTries(path, d, ds, h, hs)
  }

  function SyncTries(path: Bytes, d: DataNode, ds: nat, h: HashNode, hs: nat): HashNode
    requires SkipsFit(d, ds, h, hs) && d.DataTrie? && h.HashTrie?
    decreases d, h, 0
  {
    var dl, hl := d.compressed[ds..], h.compressed[hs..];
    var fit := Align(dl, hl);
    if fit == HashLonger && HasKey(d.branches, hl[|dl|]) then
      HashTrie(d.txn, d.compressed, SyncInto(path + dl, d.branches, h, hs + |dl|, hl[|dl|]))
    else if fit == DataLonger && Find(h.branches, dl[|hl|]) >= 0 then
      var child := h.branches[Find(h.branches, dl[|hl|])];
      assert child.node < child;
      Sync(path + hl, d, ds + |hl|, child.node, 0)
    else if fit == Same then
      HashTrie(d.txn, d.compressed, SyncAll(path + dl, d.branches, h.branches))
    else Copy(path, d)
  }

  // The data node branches inside the hash label: one branch goes on with the hash node.
  function SyncInto(path: Bytes, bs: seq<DataBranch>, h: HashNode, hs: nat, next: Byte): (r: seq<HashBranch>)
    requires h.HashTrie? && hs < |h.compressed|
    ensures |r| == |bs| && forall i :: 0 <= i < |bs| ==> r[i].key == bs[i].key
    decreases bs, h
  {
    if bs == [] then []
    else
      assert bs[0].node < bs[0];
      [HashBranch(bs[0].key, if bs[0].key == next then Sync(path, bs[0].node, 0, h, hs) else Copy(path, bs[0].node))]
      + SyncInto(path, bs[1..], h, hs, next)
  }

  // Both nodes branch at the same place.
  function SyncAll(path: Bytes, bs: seq<DataBranch>, hs: seq<HashBranch>): (r: seq<HashBranch>)
    ensures |r| == |bs| && forall i :: 0 <= i < |bs| ==> r[i].key == bs[i].key
    decreases bs, hs
  {
    if bs == [] then []
    else
      assert bs[0].node < bs[0];
      var child := Find(hs, bs[0].key);
      [HashBranch(bs[0].key, if child >= 0 then Sync(path, bs[0].node, 0, hs[child].node, 0) else Copy(path, bs[0].node))]
      + SyncAll(path, bs[1..], hs)
  }

  lemma {:induction false} CopyAllAt(path: Bytes, bs: seq<DataBranch>, i: nat)
    requires i < |bs|
    ensures CopyAll(path, bs)[i].node == Copy(path, bs[i].node)
  {
    if i > 0 { CopyAllAt(path, bs[1..], i - 1); }
  }

  lemma {:induction false} SyncAllAt(path: Bytes, bs: seq<DataBranch>, hs: seq<HashBranch>, i: nat)
    requires i < |bs|
    ensures SyncAll(path, bs, hs)[i].node ==
      var child := Find(hs, bs[i].key);
      if child >= 0 then Sync(path, bs[i].node, 0, hs[child].node, 0) else Copy(path, bs[i].node)
  {
    if i > 0 { SyncAllAt(path, bs[1..], hs, i - 1); }
  }

  lemma {:induction false} SyncIntoAt(path: Bytes, bs: seq<DataBranch>, h: HashNode, hs: nat, next: Byte, i: nat)
    requires i < |bs| && h.HashTrie? && hs < |h.compressed|
    ensures SyncInto(path, bs, h, hs, next)[i].node ==
      if bs[i].key == next then Sync(path, bs[i].node, 0, h, hs) else Copy(path, bs[i].node)
  {
    if i > 0 { SyncIntoAt(path, bs[1..], h, hs, next, i - 1); }
  }

  // ----- shape

  function Shape(h: HashNode): HashNode
    decreases h
  {
    match h
    case HashLeaf(txn, key, hashed) => HashLeaf(txn, key, [])
    case HashTrie(txn, compressed, branches) => HashTrie(txn, compressed, ShapeAll(branches))
  }

  function ShapeAll(bs: seq<HashBranch>): (r: seq<HashBranch>)
    ensures |r| == |bs|
    ensures forall i :: 0 <= i < |bs| ==> r[i].key == bs[i].key
    decreases bs
  {
    if bs == [] then []
    else
      assert bs[0].node < bs[0];
      [HashBranch(bs[0].key, Shape(bs[0].node))] + ShapeAll(bs[1..])
  }

  lemma {:induction false} ShapeAllAt(bs: seq<HashBranch>, i: nat)
    requires i < |bs|
    ensures ShapeAll(bs)[i].node == Shape(bs[i].node)
  {
    if i > 0 { ShapeAllAt(bs[1..], i - 1); }
  }

  lemma {:induction false} SameShapes(a: seq<HashBranch>, b: seq<HashBranch>)
    requires |a| == |b|
    requires forall i :: 0 <= i < |a| ==> a[i].key == b[i].key && Shape(a[i].node) == Shape(b[i].node)
    ensures ShapeAll(a) == ShapeAll(b)
  {
    forall i | 0 <= i < |a|
      ensures ShapeAll(a)[i] == ShapeAll(b)[i]
    {
      ShapeAllAt(a, i);
      ShapeAllAt(b, i);
    }
  }

  // The shape does not depend on where the subtree hangs.
  lemma {:induction false} CopyShape(p: Bytes, q: Bytes, d: DataNode)
    ensures Shape(Copy(p, d)) == Shape(Copy(q, d))
    decreases d
  {
    if d.DataTrie? {
      var a, b := CopyAll(p + d.compressed, d.branches), CopyAll(q + d.compressed, d.branches);
      forall i | 0 <= i < |d.branches|
        ensures Shape(a[i].node) == Shape(b[i].node)
      {
        CopyAllAt(p + d.compressed, d.branches, i);
        CopyAllAt(q + d.compressed, d.branches, i);
        assert d.branches[i].node < d.branches[i];
        CopyShape(p + d.compressed, q + d.compressed, d.branches[i].node);
      }
      SameShapes(a, b);
    }
  }

  // A hash node has the labels, branches and transaction ids of a data node.
  ghost predicate Mirrors(h: HashNode, d: DataNode) {
    Shape(h) == Shape(Copy([], d))
  }

  lemma {:induction false} MirrorsDown(h: HashNode, d: DataNode)
    requires Mirrors(h, d)
    ensures h.txn == d.txn && h.HashTrie? == d.DataTrie?
    ensures d.DataTrie? ==> h.compressed == d.compressed && |h.branches| == |d.branches|
    ensures d.DataTrie? ==>
      forall i :: 0 <= i < |d.branches| ==> h.branches[i].key == d.branches[i].key && Mirrors(h.branches[i].node, d.branches[i].node)
  {
    if d.DataTrie? {
      var c := Copy([], d);
      forall i | 0 <= i < |d.branches|
        ensures h.branches[i].key == d.branches[i].key && Mirrors(h.branches[i].node, d.branches[i].node)
      {
        ShapeAllAt(h.branches, i);
        ShapeAllAt(c.branches, i);
        CopyAllAt([] + d.compressed, d.branches, i);
        CopyShape([] + d.compressed, [], d.branches[i].node);
        assert ShapeAll(h.branches)[i].key == ShapeAll(c.branches)[i].key;
      }
    }
  }

  // ----- unchanged pages

  // x lies below n where the bytes pos, counted from the skipped position of n, end.
  ghost predicate At(n: DataNode, skip: nat, pos: Bytes, x: DataNode)
    decreases n
  {
    || (skip == 0 && pos == [] && x == n)
    || (n.DataTrie? && skip <= |n.compressed| && n.compressed[skip..] <= pos
          && exists i :: 0 <= i < |n.branches| && At(n.branches[i].node, 0, pos[|n.compressed| - skip..], x))
  }

  // Same place: same position and same way on.
  predicate SameSpot(x: DataNode, y: DataNode) {
    KeyOf(Label(x)) == KeyOf(Label(y)) && (KeyOf(Label(x)) == NONE ==> x.DataLeaf? == y.DataLeaf?)
  }

  // Copy-on-write: the same transaction id at the same place means the same subtree.
  ghost predicate Coherent(d: DataNode, ds: nat, o: DataNode, os: nat) {
    && (ds == 0 && os == 0 && d.txn == o.txn ==> d == o)
    && (forall pos, x, y :: At(d, ds, pos, x) && At(o, os, pos, y) && SameSpot(x, y) && x.txn == y.txn ==> x == y)
  }

  lemma {:induction false} AtDown(n: DataNode, skip: nat, i: nat, pos: Bytes, x: DataNode)
    requires n.DataTrie? && skip <= |n.compressed| && i < |n.branches| && At(n.branches[i].node, 0, pos, x)
    ensures At(n, skip, n.compressed[skip..] + pos, x)
  {
    var l := n.compressed[skip..];
    assert (l + pos)[|n.compressed| - skip..] == pos;
    assert l <= l + pos;
  }

  lemma {:induction false} AtFurther(n: DataNode, skip: nat, more: nat, pos: Bytes, x: DataNode)
    requires n.DataTrie? && skip + more <= |n.compressed| && At(n, skip + more, pos, x)
    ensures At(n, skip, n.compressed[skip..skip + more] + pos, x)
  {
    var l := n.compressed[skip..skip + more];
    if skip + more == 0 && pos == [] && x == n {
      assert l + pos == [];
    } else {
      assert n.compressed[skip..] == l + n.compressed[skip + more..];
      assert pos == n.compressed[skip + more..] + pos[|n.compressed| - skip - more..];
      assert (l + pos)[|n.compressed| - skip..] == pos[|n.compressed| - skip - more..];
      assert n.compressed[skip..] <= l + pos by {
        assert (l + pos)[..|n.compressed| - skip] == n.compressed[skip..];
      }
    }
  }

  lemma {:induction false} AtSelf(n: DataNode)
    ensures At(n, 0, [], n)
  {
  }

  lemma {:induction false} DownBothStep(d: DataNode, ds: nat, o: DataNode, os: nat, i: nat, j: nat, pos: Bytes, x: DataNode, y: DataNode)
    requires Coherent(d, ds, o, os) && WellFormed(d) && WellFormed(o)
    requires d.DataTrie? && o.DataTrie? && ds <= |d.compressed| && os <= |o.compressed|
    requires d.compressed[ds..] == o.compressed[os..]
    requires i < |d.branches| && j < |o.branches| && d.branches[i].key == o.branches[j].key
    requires var a, b := d.branches[i].node, o.branches[j].node; At(a, 0, pos, x) && At(b, 0, pos, y) && SameSpot(x, y) && x.txn == y.txn
    ensures x == y
  {
    hide At, WellFormed;
    var a, b := d.branches[i].node, o.branches[j].node;
    AtDown(d, ds, i, pos, x);
    AtDown(o, os, j, pos, y);
  }

  lemma {:induction false} DownBoth(d: DataNode, ds: nat, o: DataNode, os: nat, i: nat, j: nat)
    requires Coherent(d, ds, o, os) && WellFormed(d) && WellFormed(o)
    requires d.DataTrie? && o.DataTrie? && ds <= |d.compressed| && os <= |o.compressed|
    requires d.compressed[ds..] == o.compressed[os..]
    requires i < |d.branches| && j < |o.branches| && d.branches[i].key == o.branches[j].key
    ensures Coherent(d.branches[i].node, 0, o.branches[j].node, 0)
  {
    var a, b, l := d.branches[i].node, o.branches[j].node, d.compressed[ds..];
    assert d.branches[i].key == KeyOf(Label(a)) && o.branches[j].key == KeyOf(Label(b));
    assert SameSpot(a, b);
    hide At, WellFormed;
    forall pos, x, y | At(a, 0, pos, x) && At(b, 0, pos, y) && SameSpot(x, y) && x.txn == y.txn
      ensures x == y
    {
      DownBothStep(d, ds, o, os, i, j, pos, x, y);
    }
    AtSelf(a);
    AtSelf(b);
  }

  lemma {:induction false} DownDataStep(d: DataNode, ds: nat, o: DataNode, os: nat, i: nat, pos: Bytes, x: DataNode, y: DataNode)
    requires Coherent(d, ds, o, os) && WellFormed(d)
    requires d.DataTrie? && o.DataTrie? && ds <= |d.compressed| && os <= |o.compressed|
    requires var l := d.compressed[ds..]; l <= o.compressed[os..] && |l| < |o.compressed[os..]|
    requires i < |d.branches| && d.branches[i].key == o.compressed[os..][|d.compressed[ds..]|]
    requires var a, l := d.branches[i].node, d.compressed[ds..]; At(a, 0, pos, x) && At(o, os + |l|, pos, y) && SameSpot(x, y) && x.txn == y.txn
    ensures x == y
  {
    hide At, WellFormed;
    var a, l := d.branches[i].node, d.compressed[ds..];
    assert o.compressed[os..os + |l|] == l;
    AtDown(d, ds, i, pos, x);
    AtFurther(o, os, |l|, pos, y);
  }

  lemma {:induction false} DownDataRoot(d: DataNode, ds: nat, o: DataNode, os: nat, i: nat)
    requires Coherent(d, ds, o, os) && WellFormed(d)
    requires d.DataTrie? && o.DataTrie? && ds <= |d.compressed| && os <= |o.compressed|
    requires var l := d.compressed[ds..]; l <= o.compressed[os..] && |l| < |o.compressed[os..]|
    requires i < |d.branches| && d.branches[i].key == o.compressed[os..][|d.compressed[ds..]|]
    ensures os + |d.compressed[ds..]| == 0 && d.branches[i].node.txn == o.txn ==> d.branches[i].node == o
  {
    hide At;
    var a := d.branches[i].node;
    if os + |d.compressed[ds..]| == 0 {
      assert d.branches[i].key == KeyOf(Label(a)) && SameSpot(a, o);
      AtSelf(a);
      AtSelf(o);
      assert At(d, ds, d.compressed[ds..] + [], a) by { AtDown(d, ds, i, [], a); }
      assert d.compressed[ds..] + [] == [];
    }
  }

  lemma {:induction false} DownData(d: DataNode, ds: nat, o: DataNode, os: nat, i: nat)
    requires Coherent(d, ds, o, os) && WellFormed(d)
    requires d.DataTrie? && o.DataTrie? && ds <= |d.compressed| && os <= |o.compressed|
    requires var l := d.compressed[ds..]; l <= o.compressed[os..] && |l| < |o.compressed[os..]|
    requires i < |d.branches| && d.branches[i].key == o.compressed[os..][|d.compressed[ds..]|]
    ensures Coherent(d.branches[i].node, 0, o, os + |d.compressed[ds..]|)
  {
    var a, l := d.branches[i].node, d.compressed[ds..];
    assert o.compressed[os..os + |l|] == l;
    assert d.branches[i].key == KeyOf(Label(a));
    hide At, WellFormed;
    forall pos, x, y | At(a, 0, pos, x) && At(o, os + |l|, pos, y) && SameSpot(x, y) && x.txn == y.txn
      ensures x == y
    {
      DownDataStep(d, ds, o, os, i, pos, x, y);
    }
    DownDataRoot(d, ds, o, os, i);
  }

  lemma {:induction false} DownHashStep(d: DataNode, ds: nat, o: DataNode, os: nat, j: nat, pos: Bytes, x: DataNode, y: DataNode)
    requires Coherent(d, ds, o, os) && WellFormed(o)
    requires d.DataTrie? && o.DataTrie? && ds <= |d.compressed| && os <= |o.compressed|
    requires var l := o.compressed[os..]; l <= d.compressed[ds..] && |l| < |d.compressed[ds..]|
    requires j < |o.branches| && o.branches[j].key == d.compressed[ds..][|o.compressed[os..]|]
    requires var b, l := o.branches[j].node, o.compressed[os..]; At(d, ds + |l|, pos, x) && At(b, 0, pos, y) && SameSpot(x, y) && x.txn == y.txn
    ensures x == y
  {
    hide At, WellFormed;
    var b, l := o.branches[j].node, o.compressed[os..];
    assert d.compressed[ds..ds + |l|] == l;
    AtFurther(d, ds, |l|, pos, x);
    AtDown(o, os, j, pos, y);
  }

  lemma {:induction false} DownHashRoot(d: DataNode, ds: nat, o: DataNode, os: nat, j: nat)
    requires Coherent(d, ds, o, os) && WellFormed(o)
    requires d.DataTrie? && o.DataTrie? && ds <= |d.compressed| && os <= |o.compressed|
    requires var l := o.compressed[os..]; l <= d.compressed[ds..] && |l| < |d.compressed[ds..]|
    requires j < |o.branches| && o.branches[j].key == d.compressed[ds..][|o.compressed[os..]|]
    ensures ds + |o.compressed[os..]| == 0 && d.txn == o.branches[j].node.txn ==> d == o.branches[j].node
  {
    hide At;
    var b := o.branches[j].node;
    if ds + |o.compressed[os..]| == 0 {
      assert o.branches[j].key == KeyOf(Label(b)) && SameSpot(d, b);
      AtSelf(d);
      AtSelf(b);
      assert At(o, os, o.compressed[os..] + [], b) by { AtDown(o, os, j, [], b); }
      assert o.compressed[os..] + [] == [];
    }
  }

  lemma {:induction false} DownHash(d: DataNode, ds: nat, o: DataNode, os: nat, j: nat)
    requires Coherent(d, ds, o, os) && WellFormed(o)
    requires d.DataTrie? && o.DataTrie? && ds <= |d.compressed| && os <= |o.compressed|
    requires var l := o.compressed[os..]; l <= d.compressed[ds..] && |l| < |d.compressed[ds..]|
    requires j < |o.branches| && o.branches[j].key == d.compressed[ds..][|o.compressed[os..]|]
    ensures Coherent(d, ds + |o.compressed[os..]|, o.branches[j].node, 0)
  {
    var b, l := o.branches[j].node, o.compressed[os..];
    assert d.compressed[ds..ds + |l|] == l;
    assert o.branches[j].key == KeyOf(Label(b));
    hide At, WellFormed;
    forall pos, x, y | At(d, ds + |l|, pos, x) && At(b, 0, pos, y) && SameSpot(x, y) && x.txn == y.txn
      ensures x == y
    {
      DownHashStep(d, ds, o, os, j, pos, x, y);
    }
    DownHashRoot(d, ds, o, os, j);
  }

  // ----- the walk ends with the mirror of the new data

  lemma {:induction false} AlignIs(d: Bytes, h: Bytes)
    ensures Align(d, h) == HashLonger ==> d <= h && |d| < |h|
    ensures Align(d, h) == DataLonger ==> h <= d && |h| < |d|
    ensures Align(d, h) == Same ==> d == h
  {
    var c := CommonPrefix(d, h);
    assert c == |d| ==> d[..c] == d;
    assert c == |h| ==> h[..c] == h;
  }

  // Branch by branch, whatever was copied or synchronised.
  lemma {:induction false} MirrorByBranch(path: Bytes, d: DataNode, r: seq<HashBranch>)
    requires d.DataTrie? && |r| == |d.branches|
    requires forall i :: 0 <= i < |r| ==> r[i].key == d.branches[i].key
    requires forall i :: 0 <= i < |r| ==>
      r[i].node == Copy(path, d.branches[i].node) || Mirrors(r[i].node, d.branches[i].node)
    ensures Mirrors(HashTrie(d.txn, d.compressed, r), d)
  {
    var c := CopyAll([] + d.compressed, d.branches);
    forall i | 0 <= i < |r|
      ensures Shape(r[i].node) == Shape(c[i].node)
    {
      CopyAllAt([] + d.compressed, d.branches, i);
      CopyShape([] + d.compressed, [], d.branches[i].node);
      CopyShape(path, [], d.branches[i].node);
    }
    SameShapes(r, c);
  }

  // The mirrored node h of o may be synchronised with d from the given positions on.
  ghost predicate Syncable(d: DataNode, ds: nat, o: DataNode, h: HashNode, hs: nat) {
    WellFormed(d) && WellFormed(o) && Mirrors(h, o) && SkipsFit(d, ds, h, hs) && Coherent(d, ds, o, hs)
  }

  lemma {:induction false} SyncMirrors(path: Bytes, d: DataNode, ds: nat, o: DataNode, h: HashNode, hs: nat)
    requires Syncable(d, ds, o, h, hs)
    ensures Mirrors(Sync(path, d, ds, h, hs), d)
    decreases d, h, 2
  {
    hide SyncTries, Copy, Shape;
    MirrorsDown(h, o);
    CopyShape(path, [], d);
    if ds == 0 && hs == 0 && d.txn == h.txn {
      assert d == o;
    } else if d.DataTrie? && h.HashTrie? {
      TriesMirror(path, d, ds, o, h, hs);
    }
  }

  lemma {:induction false} TriesMirror(path: Bytes, d: DataNode, ds: nat, o: DataNode, h: HashNode, hs: nat)
    requires Syncable(d, ds, o, h, hs) && d.DataTrie? && h.HashTrie?
    ensures Mirrors(SyncTries(path, d, ds, h, hs), d)
    decreases d, h, 1
  {
    hide Mirrors, Sync, SyncInto, SyncAll, Copy, Shape, WellFormed, Coherent, CommonPrefix, Find;
    var fit := Align(d.compressed[ds..], h.compressed[hs..]);
    AlignIs(d.compressed[ds..], h.compressed[hs..]);
    if fit == HashLonger {
      IntoMirrors(path + d.compressed[ds..], d, ds, o, h, hs);
    } else if fit == DataLonger {
      LongerMirrors(path + h.compressed[hs..], d, ds, o, h, hs);
    } else if fit == Same {
      AllMirrors(path + d.compressed[ds..], d, ds, o, h, hs);
    }
    CopyMirrors(path, d);
  }

  lemma {:induction false} CopyMirrors(path: Bytes, d: DataNode)
    ensures Mirrors(Copy(path, d), d)
  {
    CopyShape(path, [], d);
  }

  lemma {:induction false} IntoMirrors(path: Bytes, d: DataNode, ds: nat, o: DataNode, h: HashNode, hs: nat)
    requires Syncable(d, ds, o, h, hs) && d.DataTrie? && h.HashTrie?
    requires d.compressed[ds..] <= h.compressed[hs..] && |d.compressed[ds..]| < |h.compressed[hs..]|
    ensures var n := |d.compressed| - ds;
      Mirrors(HashTrie(d.txn, d.compressed, SyncInto(path, d.branches, h, hs + n, h.compressed[hs..][n])), d)
    decreases d, h, 0
  {
    hide Mirrors, Sync, SyncInto, Copy, Shape, WellFormed, Coherent;
    var n := |d.compressed| - ds;
    var next := h.compressed[hs..][n];
    var r := SyncInto(path, d.branches, h, hs + n, next);
    forall i | 0 <= i < |d.branches|
      ensures r[i].node == Copy(path, d.branches[i].node) || Mirrors(r[i].node, d.branches[i].node)
    {
      assert d.branches[i].node < d.branches[i];
      SyncIntoAt(path, d.branches, h, hs + n, next, i);
      if d.branches[i].key == next {
        GoData(d, ds, o, h, hs, i);
        SyncMirrors(path, d.branches[i].node, 0, o, h, hs + n);
      }
    }
    MirrorByBranch(path, d, r);
  }

  lemma {:induction false} LongerMirrors(path: Bytes, d: DataNode, ds: nat, o: DataNode, h: HashNode, hs: nat)
    requires Syncable(d, ds, o, h, hs) && d.DataTrie? && h.HashTrie?
    requires h.compressed[hs..] <= d.compressed[ds..] && |h.compressed[hs..]| < |d.compressed[ds..]|
    ensures var j, n := Find(h.branches, d.compressed[ds..][|h.compressed[hs..]|]), |h.compressed[hs..]|;
      j >= 0 ==> Mirrors(Sync(path, d, ds + n, h.branches[j].node, 0), d)
    decreases d, h, 0
  {
    hide Mirrors, Sync, Copy, Shape, WellFormed, Coherent;
    var j := Find(h.branches, d.compressed[ds..][|h.compressed[hs..]|]);
    if j >= 0 {
      assert h.branches[j].node < h.branches[j];
      GoHash(d, ds, o, h, hs, j);
      SyncMirrors(path, d, ds + |h.compressed[hs..]|, o.branches[j].node, h.branches[j].node, 0);
    }
  }

  lemma {:induction false} AllMirrors(path: Bytes, d: DataNode, ds: nat, o: DataNode, h: HashNode, hs: nat)
    requires Syncable(d, ds, o, h, hs) && d.DataTrie? && h.HashTrie? && d.compressed[ds..] == h.compressed[hs..]
    ensures Mirrors(HashTrie(d.txn, d.compressed, SyncAll(path, d.branches, h.branches)), d)
    decreases d, h, 0
  {
    hide Mirrors, Sync, SyncAll, Copy, Shape, WellFormed, Coherent;
    var r := SyncAll(path, d.branches, h.branches);
    forall i | 0 <= i < |d.branches|
      ensures r[i].node == Copy(path, d.branches[i].node) || Mirrors(r[i].node, d.branches[i].node)
    {
      assert d.branches[i].node < d.branches[i];
      SyncAllAt(path, d.branches, h.branches, i);
      var j := Find(h.branches, d.branches[i].key);
      if j >= 0 {
        GoBoth(d, ds, o, h, hs, i, j);
        SyncMirrors(path, d.branches[i].node, 0, o.branches[j].node, h.branches[j].node, 0);
      }
    }
    MirrorByBranch(path, d, r);
  }

  lemma {:induction false} GoData(d: DataNode, ds: nat, o: DataNode, h: HashNode, hs: nat, i: nat)
    requires Syncable(d, ds, o, h, hs) && d.DataTrie? && h.HashTrie?
    requires d.compressed[ds..] <= h.compressed[hs..] && |d.compressed[ds..]| < |h.compressed[hs..]|
    requires i < |d.branches| && d.branches[i].key == h.compressed[hs..][|d.compressed[ds..]|]
    ensures Syncable(d.branches[i].node, 0, o, h, hs + |d.compressed[ds..]|)
  {
    MirrorsDown(h, o);
    hide Mirrors, Coherent;
    DownData(d, ds, o, hs, i);
  }

  lemma {:induction false} GoBoth(d: DataNode, ds: nat, o: DataNode, h: HashNode, hs: nat, i: nat, j: nat)
    requires Syncable(d, ds, o, h, hs) && d.DataTrie? && h.HashTrie? && d.compressed[ds..] == h.compressed[hs..]
    requires i < |d.branches| && j < |h.branches| && d.branches[i].key == h.branches[j].key
    ensures o.DataTrie? && |o.branches| == |h.branches|
    ensures Syncable(d.branches[i].node, 0, o.branches[j].node, h.branches[j].node, 0)
  {
    MirrorsDown(h, o);
    hide Mirrors, Coherent;
    DownBoth(d, ds, o, hs, i, j);
  }

  lemma {:induction false} GoHash(d: DataNode, ds: nat, o: DataNode, h: HashNode, hs: nat, j: nat)
    requires Syncable(d, ds, o, h, hs) && d.DataTrie? && h.HashTrie?
    requires h.compressed[hs..] <= d.compressed[ds..] && |h.compressed[hs..]| < |d.compressed[ds..]|
    requires j < |h.branches| && h.branches[j].key == d.compressed[ds..][|h.compressed[hs..]|]
    ensures o.DataTrie? && |o.branches| == |h.branches|
    ensures Syncable(d, ds + |h.compressed[hs..]|, o.branches[j].node, h.branches[j].node, 0)
  {
    MirrorsDown(h, o);
    hide Mirrors, Coherent;
    DownHash(d, ds, o, hs, j);
  }
}
