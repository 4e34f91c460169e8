// Where the labels of the old and the new data trie lie when digests come out wrong.

module HashLabels {
  import opened Common
  import opened Prefix
  import opened HashSync
  import opened HashPaths

  // In the trie d, whose label starts behind the bytes p, the label of x starts behind the bytes q.
  ghost predicate Starts(p: Bytes, d: DataNode, q: Bytes, x: DataNode) {
    p <= q && At(d, 0, q[|p|..], x)
  }

  function End(q: Bytes, x: DataNode): Bytes {
    q + Label(x)
  }

  predicate Branches(x: DataNode, key: int) {
    x.DataTrie? && HasKey(x.branches, key)
  }

  // The labels of x and z end at e and f: they end together, or the one that ends first goes on into the other.
  predicate Joined(e: Bytes, x: DataNode, f: Bytes, z: DataNode) {
    z.DataTrie? && (e == f || (e < f && Branches(x, f[|e|])) || (f < e && Branches(z, e[|f|])))
  }

  // The old label of z starts inside the new label of x, begins in its direction, and is not joined with it.
  ghost predicate Parts(q: Bytes, x: DataNode, s: Bytes, z: DataNode) {
    x.DataTrie? && q < s && s < End(q, x) && End(q, x)[|s|] == KeyOf(Label(z)) && !Joined(End(q, x), x, End(s, z), z)
  }

  ghost predicate PartsIn(p: Bytes, d: DataNode, r: Bytes, o: DataNode, q: Bytes, x: DataNode, s: Bytes, z: DataNode) {
    Starts(p, d, q, x) && Starts(r, o, s, z) && Parts(q, x, s, z)
  }

  // Somewhere in the new trie d an old label of the trie o parts from the label it starts in.
  ghost predicate Parted(p: Bytes, d: DataNode, r: Bytes, o: DataNode) {
    exists q, x, s, z :: PartsIn(p, d, r, o, q, x, s, z)
  }

  // ----- places in a trie

  lemma {:induction false} SelfStarts(p: Bytes, d: DataNode)
    ensures Starts(p, d, p, d)
  {
  }

  lemma {:induction false} DownStarts(p: Bytes, d: DataNode, i: nat, q: Bytes, x: DataNode)
    requires d.DataTrie? && i < |d.branches| && Starts(End(p, d), d.branches[i].node, q, x)
    ensures Starts(p, d, q, x)
  {
    var l := d.compressed;
    var pos := q[|p + l|..];
    AtDown(d, 0, i, pos, x);
    assert l[0..] == l && q[|p|..] == l + pos;
  }

  lemma {:induction false} BelowStarts(p: Bytes, d: DataNode, q: Bytes, x: DataNode) returns (i: nat)
    requires Starts(p, d, q, x) && !(q == p && x == d)
    ensures d.DataTrie? && i < |d.branches| && Starts(End(p, d), d.branches[i].node, q, x)
  {
    var pos := q[|p|..];
    if pos == [] {
      assert q == p;
    }
    i :| 0 <= i < |d.branches| && At(d.branches[i].node, 0, pos[|d.compressed|..], x);
    assert d.compressed[0..] == d.compressed && q == p + pos && pos == d.compressed + pos[|d.compressed|..];
    assert q[|End(p, d)|..] == pos[|d.compressed|..];
  }

  // Below branch i every place and every label that leads on begins with the key of the branch.
  lemma {:induction false} BranchByte(p: Bytes, d: DataNode, i: nat, q: Bytes, x: DataNode)
    requires WellFormed(d) && d.DataTrie? && i < |d.branches| && Starts(End(p, d), d.branches[i].node, q, x)
    ensures var e, key := End(p, d), d.branches[i].key;
      && e <= q
      && (|q| > |e| ==> q[|e|] == key)
      && (q == e ==> KeyOf(Label(x)) == key)
      && (|End(q, x)| > |e| ==> End(q, x)[|e|] == key)
  {
    var e, c := End(p, d), d.branches[i].node;
    if !(q == e && x == c) {
      var j := BelowStarts(e, c, q, x);
      assert c.compressed != [];
      assert End(e, c) <= q && End(e, c)[|e|] == c.compressed[0];
    }
  }

  // ----- pairs of places

  // Either the old trie starts inside the label of the new one and in its direction, or not behind its start.
  ghost predicate Faces(p: Bytes, d: DataNode, r: Bytes, o: DataNode, inside: bool) {
    && WellFormed(d) && WellFormed(o)
    && if inside then d.DataTrie? && p < r && r < End(p, d) && End(p, d)[|r|] == KeyOf(Label(o)) else r <= p
  }

  lemma {:induction false} TopPair(p: Bytes, d: DataNode, r: Bytes, o: DataNode, inside: bool)
    requires Faces(p, d, r, o, inside) && d.DataTrie?
    ensures Parts(p, d, r, o) <==> inside && !Joined(End(p, d), d, End(r, o), o)
  {
  }

  // Nothing parts inside a label that lies further on.
  lemma {:induction false} NewBelow(p: Bytes, d: DataNode, r: Bytes, o: DataNode, inside: bool, i: nat, q: Bytes, x: DataNode)
    requires Faces(p, d, r, o, inside) && d.DataTrie? && i < |d.branches| && Starts(End(p, d), d.branches[i].node, q, x)
    ensures !Parts(q, x, r, o)
  {
    assert r <= End(p, d) <= q;
  }

  lemma {:induction false} OldBelow(p: Bytes, d: DataNode, r: Bytes, o: DataNode, k: nat, s: Bytes, z: DataNode)
    requires WellFormed(o) && o.DataTrie? && k < |o.branches| && Starts(End(r, o), o.branches[k].node, s, z)
    requires Parts(p, d, s, z)
    ensures End(r, o) < End(p, d) && End(p, d)[|End(r, o)|] == o.branches[k].key
  {
    BranchByte(r, o, k, s, z);
    var e, f := End(p, d), End(r, o);
    assert f <= s < e;
    assert |s| > |f| ==> s[|f|] == e[|f|];
  }

  lemma {:induction false} BothBelow(p: Bytes, d: DataNode, i: nat, q: Bytes, x: DataNode, r: Bytes, o: DataNode, k: nat, s: Bytes, z: DataNode)
    requires WellFormed(d) && d.DataTrie? && i < |d.branches| && Starts(End(p, d), d.branches[i].node, q, x)
    requires WellFormed(o) && o.DataTrie? && k < |o.branches| && Starts(End(r, o), o.branches[k].node, s, z)
    requires Parts(q, x, s, z)
    ensures var e, f := End(p, d), End(r, o);
      || (e == f && d.branches[i].key == o.branches[k].key)
      || (e < f && d.branches[i].key == f[|e|])
      || (f < e && o.branches[k].key == e[|f|])
  {
    BranchByte(p, d, i, q, x);
    BranchByte(r, o, k, s, z);
    var e, f := End(p, d), End(r, o);
    assert e <= q < s && f <= s;
    assert s[|e|] == End(q, x)[|e|] == d.branches[i].key;
    Comparable(e, f, s);
    assert e < f ==> f[|e|] == s[|e|];
    assert f < e ==> e[|f|] == s[|f|];
  }

  lemma {:induction false} Comparable(e: Bytes, f: Bytes, s: Bytes)
    requires e <= s && f <= s
    ensures e == f || e < f || f < e
  {
    assert e == s[..|e|] && f == s[..|f|];
  }

  // ----- what a step of the walk does to parting labels

  lemma {:induction false} OneKey(bs: seq<DataBranch>, i: nat, j: nat)
    requires i < |bs| && j < |bs| && bs[i].key == bs[j].key
    requires forall a, b :: 0 <= a < b < |bs| ==> bs[a].key != bs[b].key
    ensures i == j
  {
  }

  // Both branch: the pair is the top one, or lies below one branch or two.
  lemma {:induction false} WherePairs(p: Bytes, d: DataNode, r: Bytes, o: DataNode, inside: bool, q: Bytes, x: DataNode, s: Bytes, z: DataNode)
    returns (i: nat, k: nat)
    requires Faces(p, d, r, o, inside) && d.DataTrie? && PartsIn(p, d, r, o, q, x, s, z)
    ensures (q == p && x == d) || (i < |d.branches| && Starts(End(p, d), d.branches[i].node, q, x))
    ensures (s == r && z == o) || (o.DataTrie? && k < |o.branches| && Starts(End(r, o), o.branches[k].node, s, z))
    ensures s == r && z == o ==> q == p && x == d && inside && !Joined(End(p, d), d, End(r, o), o)
    ensures !(s == r && z == o) ==>
      var e, f := End(p, d), End(r, o);
      || (f < e && o.branches[k].key == e[|f|])
      || (i < |d.branches| && Starts(e, d.branches[i].node, q, x)
            && ((e == f && d.branches[i].key == o.branches[k].key) || (e < f && d.branches[i].key == f[|e|])))
  {
    hide At, WellFormed, Joined;
    i, k := 0, 0;
    if !(q == p && x == d) {
      i := BelowStarts(p, d, q, x);
    }
    if s == r && z == o {
      if q == p && x == d {
        TopPair(p, d, r, o, inside);
      } else {
        NewBelow(p, d, r, o, inside, i, q, x);
      }
    } else {
      k := BelowStarts(r, o, s, z);
      if q == p && x == d {
        OldBelow(p, d, r, o, k, s, z);
      } else {
        BothBelow(p, d, i, q, x, r, o, k, s, z);
      }
    }
  }

  lemma {:induction false} TopParts(p: Bytes, d: DataNode, r: Bytes, o: DataNode)
    requires Parts(p, d, r, o)
    ensures Parted(p, d, r, o)
  {
    SelfStarts(p, d);
    SelfStarts(r, o);
    assert PartsIn(p, d, r, o, p, d, r, o);
  }

  lemma {:induction false} PartsDown(p: Bytes, d: DataNode, i: nat, r: Bytes, o: DataNode)
    requires d.DataTrie? && i < |d.branches| && Parted(End(p, d), d.branches[i].node, r, o)
    ensures Parted(p, d, r, o)
  {
    hide Parts, Starts;
    var q, x, s, z :| PartsIn(End(p, d), d.branches[i].node, r, o, q, x, s, z);
    DownStarts(p, d, i, q, x);
    assert PartsIn(p, d, r, o, q, x, s, z);
  }

  lemma {:induction false} OldPartsDown(p: Bytes, d: DataNode, r: Bytes, o: DataNode, k: nat)
    requires o.DataTrie? && k < |o.branches| && Parted(p, d, End(r, o), o.branches[k].node)
    ensures Parted(p, d, r, o)
  {
    hide Parts, Starts;
    var q, x, s, z :| PartsIn(p, d, End(r, o), o.branches[k].node, q, x, s, z);
    DownStarts(r, o, k, s, z);
    assert PartsIn(p, d, r, o, q, x, s, z);
  }

  lemma {:induction false} LeafParts(p: Bytes, d: DataNode, r: Bytes, o: DataNode)
    requires d.DataLeaf?
    ensures !Parted(p, d, r, o)
  {
  }

  // The walk goes no further.
  lemma {:induction false} StopParts(p: Bytes, d: DataNode, r: Bytes, o: DataNode, inside: bool)
    requires Faces(p, d, r, o, inside) && d.DataTrie? && !Joined(End(p, d), d, End(r, o), o)
    ensures Parted(p, d, r, o) <==> inside
  {
    hide At, WellFormed, Starts;
    TopPair(p, d, r, o, inside);
    if inside {
      TopParts(p, d, r, o);
    } else if Parted(p, d, r, o) {
      var q, x, s, z :| PartsIn(p, d, r, o, q, x, s, z);
      var i, k := WherePairs(p, d, r, o, inside, q, x, s, z);
      assert false;
    }
  }

  // The new trie branches first.
  lemma {:induction false} NewStep(p: Bytes, d: DataNode, r: Bytes, o: DataNode, inside: bool, i: nat)
    requires Faces(p, d, r, o, inside) && d.DataTrie? && o.DataTrie?
    requires End(p, d) < End(r, o) && i < |d.branches| && d.branches[i].key == End(r, o)[|End(p, d)|]
    ensures Parted(p, d, r, o) <==> Parted(End(p, d), d.branches[i].node, r, o)
  {
    assert Joined(End(p, d), d, End(r, o), o);
    if Parted(p, d, r, o) {
      hide At, Joined, Starts;
      var q, x, s, z :| PartsIn(p, d, r, o, q, x, s, z);
      var j, k := WherePairs(p, d, r, o, inside, q, x, s, z);
      OneKey(d.branches, i, j);
      assert PartsIn(End(p, d), d.branches[i].node, r, o, q, x, s, z);
    }
    if Parted(End(p, d), d.branches[i].node, r, o) {
      PartsDown(p, d, i, r, o);
    }
  }

  // The old trie branches first.
  lemma {:induction false} OldStep(p: Bytes, d: DataNode, r: Bytes, o: DataNode, inside: bool, k: nat)
    requires Faces(p, d, r, o, inside) && d.DataTrie? && o.DataTrie?
    requires End(r, o) < End(p, d) && k < |o.branches| && o.branches[k].key == End(p, d)[|End(r, o)|]
    ensures Parted(p, d, r, o) <==> Parted(p, d, End(r, o), o.branches[k].node)
  {
    assert Joined(End(p, d), d, End(r, o), o);
    if Parted(p, d, r, o) {
      hide At, Joined, Starts;
      var q, x, s, z :| PartsIn(p, d, r, o, q, x, s, z);
      var i, j := WherePairs(p, d, r, o, inside, q, x, s, z);
      OneKey(o.branches, k, j);
      assert PartsIn(p, d, End(r, o), o.branches[k].node, q, x, s, z);
    }
    if Parted(p, d, End(r, o), o.branches[k].node) {
      OldPartsDown(p, d, r, o, k);
    }
  }

  // A branch of both that leads to labels that part.
  ghost predicate PairParted(e: Bytes, d: DataNode, i: nat, o: DataNode, k: nat)
    requires d.DataTrie? && o.DataTrie? && i < |d.branches| && k < |o.branches|
  {
    d.branches[i].key == o.branches[k].key && Parted(e, d.branches[i].node, e, o.branches[k].node)
  }

  // Both branch at the same place.
  lemma {:induction false} BothStep(p: Bytes, d: DataNode, r: Bytes, o: DataNode, inside: bool)
    requires Faces(p, d, r, o, inside) && d.DataTrie? && o.DataTrie? && End(p, d) == End(r, o)
    ensures Parted(p, d, r, o) <==>
      exists i: nat, k: nat :: i < |d.branches| && k < |o.branches| && PairParted(End(p, d), d, i, o, k)
  {
    assert Joined(End(p, d), d, End(r, o), o);
    hide At, Joined, Starts, Parts;
    if Parted(p, d, r, o) {
      var q, x, s, z :| PartsIn(p, d, r, o, q, x, s, z);
      var i, k := WherePairs(p, d, r, o, inside, q, x, s, z);
      assert PartsIn(End(p, d), d.branches[i].node, End(p, d), o.branches[k].node, q, x, s, z);
      assert PairParted(End(p, d), d, i, o, k);
    }
    if i: nat, k: nat :| i < |d.branches| && k < |o.branches| && PairParted(End(p, d), d, i, o, k) {
      OldPartsDown(End(p, d), d.branches[i].node, r, o, k);
      PartsDown(p, d, i, r, o);
    }
  }

  // A trie does not part from itself.
  lemma {:induction false} SameNotParted(p: Bytes, d: DataNode)
    requires WellFormed(d)
    ensures !Parted(p, d, p, d)
    decreases d
  {
    hide Parted;
    if d.DataLeaf? {
      LeafParts(p, d, p, d);
    } else {
      BothStep(p, d, p, d, false);
      forall i: nat, k: nat | i < |d.branches| && k < |d.branches|
        ensures !PairParted(End(p, d), d, i, d, k)
      {
        if d.branches[i].key == d.branches[k].key {
          OneKey(d.branches, i, k);
          assert d.branches[i].node < d.branches[i];
          SameNotParted(End(p, d), d.branches[i].node);
        }
      }
    }
  }

  // ----- the walk

  // Only one of the two labels is entered at a time, and the new one where the old trie goes on.
  ghost predicate Entered(d: DataNode, ds: nat, o: DataNode, hs: nat) {
    && (ds == 0 || hs == 0)
    && (ds > 0 ==> d.DataTrie? && ds < |d.compressed| && d.compressed[ds] == KeyOf(Label(o)))
  }

  lemma {:induction false} PlacedFaces(path: Bytes, d: DataNode, ds: nat, o: DataNode, h: HashNode, hs: nat)
    requires Placed(path, d, ds, o, h, hs) && Entered(d, ds, o, hs)
    ensures Faces(Start(path, ds), d, Start(path, hs), o, ds > 0)
    ensures d.DataTrie? ==> End(Start(path, ds), d) == path + d.compressed[ds..]
    ensures o.DataTrie? ==> hs <= |o.compressed| && End(Start(path, hs), o) == path + o.compressed[hs..]
  {
    hide Coherent, WellFormed;
    Syncs(path, d, ds, o, h, hs);
    if d.DataTrie? {
      LabelDone(path, d.compressed, ds);
    }
    if o.DataTrie? {
      LabelDone(path, o.compressed, hs);
    }
    if ds > 0 {
      assert Start(path, hs) == path && Start(path, ds) < path;
      assert (path + d.compressed[ds..])[|path|] == d.compressed[ds];
    }
  }

  // How the ends of the two labels lie.
  lemma {:induction false} AlignEnds(path: Bytes, dl: Bytes, hl: Bytes)
    ensures var e, f := path + dl, path + hl;
      match Align(dl, hl)
      case HashLonger => e < f && f[|e|] == hl[|dl|]
      case DataLonger => f < e && e[|f|] == dl[|hl|]
      case Same => e == f
      case Apart => e != f && !(e < f) && !(f < e)
  {
    AlignIs(dl, hl);
    var c, e, f := CommonPrefix(dl, hl), path + dl, path + hl;
    if Align(dl, hl) == Fit.Apart {
      assert e[|path| + c] != f[|path| + c];
    }
  }

  // The walk copies from the middle of a label exactly where labels part.
  lemma {:induction false} SkewedIff(path: Bytes, d: DataNode, ds: nat, o: DataNode, h: HashNode, hs: nat)
    requires Placed(path, d, ds, o, h, hs) && Entered(d, ds, o, hs)
    ensures Skewed(d, ds, h, hs) <==> Parted(Start(path, ds), d, Start(path, hs), o)
    decreases d, h, 2
  {
    hide Parted, WellFormed, Joined, SkewedTries, Faces, Copy;
    PlacedFaces(path, d, ds, o, h, hs);
    CopyMirrored(Start(path, hs), o);
    MirrorsDown(h, o);
    if ds == 0 && hs == 0 && d.txn == h.txn {
      SameNotParted(Start(path, 0), d);
    } else if d.DataLeaf? {
      LeafParts(Start(path, ds), d, Start(path, hs), o);
    } else if o.DataLeaf? {
      NotJoinedLeaf(Start(path, ds), d, Start(path, hs), o);
      StopParts(Start(path, ds), d, Start(path, hs), o, ds > 0);
    } else {
      SkewedTriesIff(path, d, ds, o, h, hs);
    }
  }

  lemma {:induction false} NotJoinedLeaf(p: Bytes, d: DataNode, r: Bytes, o: DataNode)
    requires o.DataLeaf?
    ensures !Joined(End(p, d), d, End(r, o), o)
  {
  }

  lemma {:induction false} SkewedTriesIff(path: Bytes, d: DataNode, ds: nat, o: DataNode, h: HashNode, hs: nat)
    requires Placed(path, d, ds, o, h, hs) && Entered(d, ds, o, hs) && d.DataTrie? && h.HashTrie? && o.DataTrie?
    ensures SkewedTries(d, ds, h, hs) <==> Parted(Start(path, ds), d, Start(path, hs), o)
    decreases d, h, 1
  {
    hide Parted, WellFormed, Faces, Copy, Skewed, SkewedInto, SkewedPair, Align, Coherent, Start, End, HasKey, Find;
    Syncs(path, d, ds, o, h, hs);
    PlacedFaces(path, d, ds, o, h, hs);
    var dl, hl := d.compressed[ds..], h.compressed[hs..];
    AlignEnds(path, dl, hl);
    AlignIs(dl, hl);
    var fit := Align(dl, hl);
    if fit == HashLonger && HasKey(d.branches, hl[|dl|]) {
      IntoIff(path, d, ds, o, h, hs);
    } else if fit == DataLonger && Find(h.branches, dl[|hl|]) >= 0 {
      LongerIff(path, d, ds, o, h, hs);
    } else if fit == Same {
      SameIff(path, d, ds, o, h, hs);
    } else {
      if fit == DataLonger { NotFound(h, o, dl[|hl|]); }
      StopParts(Start(path, ds), d, Start(path, hs), o, ds > 0);
    }
  }

  lemma {:induction false} NotFound(h: HashNode, o: DataNode, key: int)
    requires h.HashTrie? && o.DataTrie? && |h.branches| == |o.branches| && Find(h.branches, key) < 0
    requires forall j :: 0 <= j < |h.branches| ==> h.branches[j].key == o.branches[j].key
    ensures !HasKey(o.branches, key)
  {
  }

  lemma {:induction false} IntoIff(path: Bytes, d: DataNode, ds: nat, o: DataNode, h: HashNode, hs: nat)
    requires Placed(path, d, ds, o, h, hs) && Entered(d, ds, o, hs) && d.DataTrie? && h.HashTrie? && o.DataTrie?
    requires Align(d.compressed[ds..], h.compressed[hs..]) == HashLonger
    requires |d.compressed[ds..]| < |h.compressed[hs..]| && HasKey(d.branches, h.compressed[hs..][|d.compressed[ds..]|])
    ensures SkewedInto(d.branches, h, hs + |d.compressed[ds..]|, h.compressed[hs..][|d.compressed[ds..]|]) <==>
      Parted(Start(path, ds), d, Start(path, hs), o)
    decreases d, h, 0, 1
  {
    hide Parted, WellFormed, Copy, Skewed, Align, Coherent, SkewedInto, Start;
    DistinctKeys(d);
    var i :| 0 <= i < |d.branches| && d.branches[i].key == h.compressed[hs..][|d.compressed[ds..]|];
    IntoOnly(d.branches, h, hs + |d.compressed[ds..]|, h.compressed[hs..][|d.compressed[ds..]|], i);
    IntoParts(path, d, ds, o, h, hs, i);
    IntoWalk(path, d, ds, o, h, hs, i);
  }

  lemma {:induction false} IntoWalk(path: Bytes, d: DataNode, ds: nat, o: DataNode, h: HashNode, hs: nat, i: nat)
    requires Placed(path, d, ds, o, h, hs) && d.DataTrie? && h.HashTrie? && (ds == 0 || hs == 0)
    requires Align(d.compressed[ds..], h.compressed[hs..]) == HashLonger && |d.compressed[ds..]| < |h.compressed[hs..]|
    requires i < |d.branches| && d.branches[i].key == h.compressed[hs..][|d.compressed[ds..]|]
    ensures SkewedBranch(d.branches, i, h, hs + |d.compressed[ds..]|) <==>
      Parted(path + d.compressed[ds..], d.branches[i].node, Start(path, hs), o)
    decreases d, h, 0, 0
  {
    hide Parted, WellFormed, Copy, Skewed, Align, Coherent, Start;
    var dl := d.compressed[ds..];
    AlignIs(dl, h.compressed[hs..]);
    PlacedInto(path, d, ds, o, h, hs, i);
    StartsFurther(path, hs, dl);
    assert d.branches[i].node < d.branches[i];
    SkewedIff(path + dl, d.branches[i].node, 0, o, h, hs + |dl|);
  }

  lemma {:induction false} StartsFurther(path: Bytes, hs: nat, dl: Bytes)
    requires hs <= |path|
    ensures hs + |dl| <= |path + dl| && Start(path + dl, hs + |dl|) == Start(path, hs) && Start(path + dl, 0) == path + dl
  {
  }

  lemma {:induction false} IntoParts(path: Bytes, d: DataNode, ds: nat, o: DataNode, h: HashNode, hs: nat, i: nat)
    requires Placed(path, d, ds, o, h, hs) && Entered(d, ds, o, hs) && d.DataTrie? && h.HashTrie? && o.DataTrie?
    requires Align(d.compressed[ds..], h.compressed[hs..]) == HashLonger && |d.compressed[ds..]| < |h.compressed[hs..]|
    requires i < |d.branches| && d.branches[i].key == h.compressed[hs..][|d.compressed[ds..]|]
    ensures Parted(Start(path, ds), d, Start(path, hs), o) <==>
      Parted(path + d.compressed[ds..], d.branches[i].node, Start(path, hs), o)
  {
    hide Parted, WellFormed, Faces, Copy, Align, Coherent, Joined, Start, End;
    Syncs(path, d, ds, o, h, hs);
    PlacedFaces(path, d, ds, o, h, hs);
    AlignEnds(path, d.compressed[ds..], h.compressed[hs..]);
    NewStep(Start(path, ds), d, Start(path, hs), o, ds > 0, i);
  }

  lemma {:induction false} IntoOnly(bs: seq<DataBranch>, h: HashNode, n: nat, next: Byte, i: nat)
    requires i < |bs| && h.HashTrie? && n <= |h.compressed| && bs[i].key == next
    requires forall a, b :: 0 <= a < b < |bs| ==> bs[a].key != bs[b].key
    ensures SkewedInto(bs, h, n, next) <==> SkewedBranch(bs, i, h, n)
  {
    hide SkewedBranch;
  }

  lemma {:induction false} DistinctKeys(d: DataNode)
    requires WellFormed(d) && d.DataTrie?
    ensures forall i, j :: 0 <= i < j < |d.branches| ==> d.branches[i].key != d.branches[j].key
  {
  }

  lemma {:induction false} LongerIff(path: Bytes, d: DataNode, ds: nat, o: DataNode, h: HashNode, hs: nat)
    requires Placed(path, d, ds, o, h, hs) && Entered(d, ds, o, hs) && d.DataTrie? && h.HashTrie? && o.DataTrie?
    requires Align(d.compressed[ds..], h.compressed[hs..]) == DataLonger
    requires |h.compressed[hs..]| < |d.compressed[ds..]| && Find(h.branches, d.compressed[ds..][|h.compressed[hs..]|]) >= 0
    requires |h.branches| == |o.branches|
    ensures var j := Find(h.branches, d.compressed[ds..][|h.compressed[hs..]|]);
      Skewed(d, ds + |h.compressed[hs..]|, h.branches[j].node, 0) <==> Parted(Start(path, ds), d, Start(path, hs), o)
    decreases d, h, 0, 1
  {
    hide Parted, WellFormed, Copy, Skewed, Align, Coherent, Start, End, Joined, Faces;
    var dl, hl := d.compressed[ds..], h.compressed[hs..];
    var j := Find(h.branches, dl[|hl|]);
    LongerParts(path, d, ds, o, h, hs, j);
    LongerWalk(path, d, ds, o, h, hs, j);
  }

  lemma {:induction false} LongerParts(path: Bytes, d: DataNode, ds: nat, o: DataNode, h: HashNode, hs: nat, j: nat)
    requires Placed(path, d, ds, o, h, hs) && Entered(d, ds, o, hs) && d.DataTrie? && h.HashTrie? && o.DataTrie?
    requires Align(d.compressed[ds..], h.compressed[hs..]) == DataLonger && |h.compressed[hs..]| < |d.compressed[ds..]|
    requires j < |h.branches| && |h.branches| == |o.branches| && h.branches[j].key == d.compressed[ds..][|h.compressed[hs..]|]
    ensures Parted(Start(path, ds), d, Start(path, hs), o) <==>
      Parted(Start(path, ds), d, path + h.compressed[hs..], o.branches[j].node)
  {
    hide Parted, WellFormed, Copy, Align, Coherent, Start, End, Joined, Faces;
    Syncs(path, d, ds, o, h, hs);
    PlacedFaces(path, d, ds, o, h, hs);
    AlignEnds(path, d.compressed[ds..], h.compressed[hs..]);
    OldStep(Start(path, ds), d, Start(path, hs), o, ds > 0, j);
  }

  lemma {:induction false} LongerWalk(path: Bytes, d: DataNode, ds: nat, o: DataNode, h: HashNode, hs: nat, j: nat)
    requires Placed(path, d, ds, o, h, hs) && Entered(d, ds, o, hs) && d.DataTrie? && h.HashTrie? && o.DataTrie?
    requires Align(d.compressed[ds..], h.compressed[hs..]) == DataLonger && |h.compressed[hs..]| < |d.compressed[ds..]|
    requires j < |h.branches| && |h.branches| == |o.branches| && h.branches[j].key == d.compressed[ds..][|h.compressed[hs..]|]
    ensures Skewed(d, ds + |h.compressed[hs..]|, h.branches[j].node, 0) <==>
      Parted(Start(path, ds), d, path + h.compressed[hs..], o.branches[j].node)
    decreases d, h, 0, 0
  {
    hide Parted, Copy, Skewed, Align, Coherent, Start;
    var hl := h.compressed[hs..];
    Syncs(path, d, ds, o, h, hs);
    AlignIs(d.compressed[ds..], hl);
    PlacedLonger(path, d, ds, o, h, hs, j);
    StartsFurther(path, 0, hl);
    assert h.branches[j].node < h.branches[j];
    SkewedIff(path + hl, d, ds + |hl|, o.branches[j].node, h.branches[j].node, 0);
  }

  lemma {:induction false} SameIff(path: Bytes, d: DataNode, ds: nat, o: DataNode, h: HashNode, hs: nat)
    requires Placed(path, d, ds, o, h, hs) && Entered(d, ds, o, hs) && d.DataTrie? && h.HashTrie? && o.DataTrie?
    requires Align(d.compressed[ds..], h.compressed[hs..]) == Same
    ensures (exists i :: 0 <= i < |d.branches| && Find(h.branches, d.branches[i].key) >= 0 && SkewedPair(d.branches, i, h.branches)) <==>
      Parted(Start(path, ds), d, Start(path, hs), o)
    decreases d, h, 0
  {
    var e := path + d.compressed[ds..];
    DistinctKeys(o);
    hide Parted, WellFormed, Faces, Copy, Skewed, Align, Coherent;
    Syncs(path, d, ds, o, h, hs);
    PlacedFaces(path, d, ds, o, h, hs);
    AlignEnds(path, d.compressed[ds..], h.compressed[hs..]);
    AlignIs(d.compressed[ds..], h.compressed[hs..]);
    BothStep(Start(path, ds), d, Start(path, hs), o, ds > 0);
    forall i: nat, k: nat | i < |d.branches| && k < |o.branches|
      ensures PairParted(e, d, i, o, k) <==>
        Find(h.branches, d.branches[i].key) == k && SkewedPair(d.branches, i, h.branches)
    {
      PairIff(path, d, ds, o, h, hs, i, k);
    }
    if i: nat :| i < |d.branches| && Find(h.branches, d.branches[i].key) >= 0 && SkewedPair(d.branches, i, h.branches) {
      assert PairParted(e, d, i, o, Find(h.branches, d.branches[i].key));
    }
    if i: nat, k: nat :| i < |d.branches| && k < |o.branches| && PairParted(e, d, i, o, k) {
      assert Find(h.branches, d.branches[i].key) == k && SkewedPair(d.branches, i, h.branches);
    }
  }

  lemma {:induction false} PairIff(path: Bytes, d: DataNode, ds: nat, o: DataNode, h: HashNode, hs: nat, i: nat, k: nat)
    requires Placed(path, d, ds, o, h, hs) && d.DataTrie? && h.HashTrie? && o.DataTrie? && d.compressed[ds..] == h.compressed[hs..]
    requires i < |d.branches| && k < |o.branches|
    ensures PairParted(path + d.compressed[ds..], d, i, o, k) <==>
      Find(h.branches, d.branches[i].key) == k && SkewedPair(d.branches, i, h.branches)
    decreases d, h, 0, 0
  {
    var e, j := path + d.compressed[ds..], Find(h.branches, d.branches[i].key);
    DistinctKeys(o);
    hide Parted, WellFormed, Copy, Skewed, Coherent;
    Syncs(path, d, ds, o, h, hs);
    if d.branches[i].key == o.branches[k].key {
      OneKey(o.branches, j, k);
      PlacedPair(path, d, ds, o, h, hs, i, k);
      assert d.branches[i].node < d.branches[i];
      SkewedIff(e, d.branches[i].node, 0, o.branches[k].node, h.branches[k].node, 0);
      assert Start(e, 0) == e;
    }
  }

  // The digests come out right exactly when no old label parts from the new label it starts in.
  lemma {:induction false} DigestsRightIffJoined(path: Bytes, d: DataNode, o: DataNode)
    requires WellFormed(d) && WellFormed(o) && Coherent(d, 0, o, 0)
    ensures Sync(path, d, 0, Copy(path, o), 0) == Copy(path, d) <==> !Parted(path, d, path, o)
  {
    hide Sync, Copy, Skewed, Parted, WellFormed, Coherent;
    assert Start(path, 0) == path;
    TopPlaced(path, d, o);
    DigestsRightIff(path, d, 0, o, Copy(path, o), 0);
    SkewedIff(path, d, 0, o, Copy(path, o), 0);
  }

  lemma {:induction false} TopPlaced(path: Bytes, d: DataNode, o: DataNode)
    requires WellFormed(d) && WellFormed(o) && Coherent(d, 0, o, 0)
    ensures Placed(path, d, 0, o, Copy(path, o), 0)
  {
    assert Start(path, 0) == path;
    assert d.DataTrie? ==> path + d.compressed[..0] == path;
    assert o.DataTrie? ==> path + o.compressed[..0] == path;
  }
}
