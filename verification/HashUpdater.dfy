// The updater walks both tries step by step and keeps the key path of the node it is at.

module HashUpdater {
  import opened Common
  import opened Prefix
  import opened HashSync

  class Updater {
    var keyPath: Bytes

    constructor ()
      ensures keyPath == []
    {
      keyPath := [];
    }

    // Brings the hash trie in line with the data trie; either may be missing.
    method Run(d: Option<DataNode>, h: Option<HashNode>, ghost o: Option<DataNode>) returns (r: Option<HashNode>)
      requires h.Some? <==> o.Some?
      requires d.Some? ==> WellFormed(d.value)
      requires o.Some? ==> WellFormed(o.value) && Mirrors(h.value, o.value)
      requires d.Some? && o.Some? ==> Coherent(d.value, 0, o.value, 0)
      modifies this
      ensures keyPath == old(keyPath)
      ensures r.Some? <==> d.Some?
      ensures d.Some? ==> Mirrors(r.value, d.value)
      ensures d.Some? && h.None? ==> r == Some(Copy(keyPath, d.value))
      ensures d.Some? && h.Some? ==> SkipsFit(d.value, 0, h.value, 0) && r == Some(Sync(keyPath, d.value, 0, h.value, 0))
    {
      if d.None? {
        return None;
      }
      CopyMirrors(keyPath, d.value);
      if h.None? {
        var c := DeepCopy(d.value);
        return Some(c);
      }
      MirrorsDown(h.value, o.value);
      SyncMirrors(keyPath, d.value, 0, o.value, h.value, 0);
      var s := SyncNodes(d.value, h.value, 0, 0);
      return Some(s);
    }

    method DeepCopy(d: DataNode) returns (r: HashNode)
      modifies this
      ensures keyPath == old(keyPath) && r == Copy(keyPath, d)
      decreases d
    {
      var saved := |keyPath|;
      if d.DataLeaf? {
        keyPath := keyPath + d.suffix;
        r := HashLeaf(d.txn, KeyOf(d.suffix), keyPath + d.value);
      } else {
        keyPath := keyPath + d.compressed;
        ghost var path := keyPath;
        var offsets: seq<HashBranch> := [];
        for i := 0 to |d.branches|
          invariant keyPath == path && offsets == CopyAll(path, d.branches)[..i]
        {
          assert d.branches[i].node < d.branches[i];
          var child := DeepCopy(d.branches[i].node);
          CopyAllAt(path, d.branches, i);
          offsets := offsets + [HashBranch(d.branches[i].key, child)];
        }
        r := HashTrie(d.txn, d.compressed, offsets);
      }
      keyPath := keyPath[..saved];
    }

    method SyncNodes(d: DataNode, h: HashNode, hs: nat, ds: nat) returns (r: HashNode)
      requires SkipsFit(d, ds, h, hs)
      modifies this
      ensures keyPath == old(keyPath) && r == Sync(keyPath, d, ds, h, hs)
      decreases d, h, 2
    {
      if hs == 0 && ds == 0 && d.txn == h.txn {
        return h;
      }
      if d.DataLeaf? {
        r := SyncDataLeaf(d, ds);
      } else {
        r := SyncDataTrie(d, h, hs, ds);
      }
    }

    method SyncDataLeaf(d: DataNode, ds: nat) returns (r: HashNode)
      requires d.DataLeaf? && ds == 0
      modifies this
      ensures keyPath == old(keyPath) && r == Copy(keyPath, d)
    {
      var saved := |keyPath|;
      keyPath := keyPath + d.suffix[ds..];
      r := HashLeaf(d.txn, KeyOf(d.suffix), keyPath + d.value);
      keyPath := keyPath[..saved];
    }

    method SyncDataTrie(d: DataNode, h: HashNode, hs: nat, ds: nat) returns (r: HashNode)
      requires SkipsFit(d, ds, h, hs) && d.DataTrie?
      modifies this
      ensures keyPath == old(keyPath)
      ensures r == if h.HashLeaf? then Copy(keyPath, d) else SyncTries(keyPath, d, ds, h, hs)
      decreases d, h, 1
    {
      if h.HashLeaf? {
        r := DeepCopy(d);
      } else {
        r := AlignTries(d, h, hs, ds);
      }
    }

    method AlignTries(d: DataNode, h: HashNode, hs: nat, ds: nat) returns (r: HashNode)
      requires SkipsFit(d, ds, h, hs) && d.DataTrie? && h.HashTrie?
      modifies this
      ensures keyPath == old(keyPath) && r == SyncTries(keyPath, d, ds, h, hs)
      decreases d, h, 0, 1
    {
      hide Sync, SyncInto, SyncAll, Copy, CommonPrefix;
      var dl, hl := d.compressed[ds..], h.compressed[hs..];
      var common := CommonBytes(dl, hl);
      var saved := |keyPath|;
      ghost var path := keyPath;
      assert dl[..common] == hl[..common];
      if common < |dl| && common < |hl| {
        r := DeepCopy(d);
      } else if common < |hl| {
        if HasKey(d.branches, hl[common]) {
          keyPath := keyPath + dl;
          r := SyncIntoLabel(d, h, hs + common, hl[common]);
        } else {
          r := DeepCopy(d);
        }
      } else if common < |dl| {
        var j := Find(h.branches, dl[common]);
        if j >= 0 {
          assert dl[..common] == hl;
          assert h.branches[j].node < h.branches[j];
          keyPath := keyPath + dl[..common];
          r := SyncNodes(d, h.branches[j].node, 0, ds + common);
        } else {
          r := DeepCopy(d);
        }
      } else {
        keyPath := keyPath + dl;
        r := SyncMatchingTries(d, h);
      }
      keyPath := keyPath[..saved];
    }

    // The new node branches where the hash node has the byte diverge in its label.
    method SyncIntoLabel(d: DataNode, h: HashNode, hs: nat, diverge: Byte) returns (r: HashNode)
      requires d.DataTrie? && h.HashTrie? && hs < |h.compressed|
      modifies this
      ensures keyPath == old(keyPath)
      ensures r == HashTrie(d.txn, d.compressed, SyncInto(keyPath, d.branches, h, hs, diverge))
      decreases d, h, 0, 0
    {
      hide Sync, Copy, SyncInto;
      ghost var path := keyPath;
      var offsets: seq<HashBranch> := [];
      for i := 0 to |d.branches|
        invariant keyPath == path && offsets == SyncInto(path, d.branches, h, hs, diverge)[..i]
      {
        var child;
        assert d.branches[i].node < d.branches[i];
        if d.branches[i].key == diverge {
          child := SyncNodes(d.branches[i].node, h, hs, 0);
        } else {
          child := DeepCopy(d.branches[i].node);
        }
        SyncIntoAt(path, d.branches, h, hs, diverge, i);
        offsets := offsets + [HashBranch(d.branches[i].key, child)];
      }
      r := HashTrie(d.txn, d.compressed, offsets);
    }

    method SyncMatchingTries(d: DataNode, h: HashNode) returns (r: HashNode)
      requires d.DataTrie? && h.HashTrie?
      modifies this
      ensures keyPath == old(keyPath)
      ensures r == HashTrie(d.txn, d.compressed, SyncAll(keyPath, d.branches, h.branches))
      decreases d, h, 0, 0
    {
      hide Sync, Copy, SyncAll;
      ghost var path := keyPath;
      var offsets: seq<HashBranch> := [];
      for i := 0 to |d.branches|
        invariant keyPath == path && offsets == SyncAll(path, d.branches, h.branches)[..i]
      {
        var j := Find(h.branches, d.branches[i].key);
        var child;
        assert d.branches[i].node < d.branches[i];
        if j >= 0 {
          child := SyncNodes(d.branches[i].node, h.branches[j].node, 0, 0);
        } else {
          child := DeepCopy(d.branches[i].node);
        }
        SyncAllAt(path, d.branches, h.branches, i);
        offsets := offsets + [HashBranch(d.branches[i].key, child)];
      }
      r := HashTrie(d.txn, d.compressed, offsets);
    }
  }

  method CommonBytes(a: Bytes, b: Bytes) returns (n: nat)
    ensures n == CommonPrefix(a, b)
  {
    n := 0;
    while n < |a| && n < |b| && a[n] == b[n]
      invariant n <= |a| && n <= |b| && a[..n] == b[..n]
    {
      assert a[..n + 1] == a[..n] + [a[n]] && b[..n + 1] == b[..n] + [b[n]];
      n := n + 1;
    }
    CommonPrefixUnique(a, b, n);
  }
}
