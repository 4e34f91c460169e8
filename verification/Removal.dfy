// What the node on top of a path becomes when one of its branches goes away, and the entries of
// a trie read as a map.

module Removal {
  import opened Common
  import opened Prefix
  import opened Trie
  import opened Zipper
  import opened Search

  function Without(bs: seq<Branch>, i: nat): seq<Branch>
    requires i < |bs|
  {
    bs[..i] + bs[i + 1..]
  }

  // A node that takes over the label of its parent.
  function Merged(label_: Bytes, n: Node): Node {
    if n.Leaf? then Leaf(label_ + n.suffix, n.value) else Trie(label_ + n.compressed, n.branches)
  }

  lemma {:induction false} MergedEntries(p: Bytes, label_: Bytes, n: Node)
    ensures Entries(p, Merged(label_, n)) == Entries(p + label_, n)
  {
    assert p + (label_ + Stem(n)) == p + label_ + Stem(n);
  }

  lemma {:induction false} WithoutEntries(p: Bytes, bs: seq<Branch>, i: nat)
    requires i < |bs|
    ensures BranchEntries(p, Without(bs, i)) == BranchEntries(p, bs[..i]) + BranchEntries(p, bs[i + 1..])
  {
    BranchEntriesConcat(p, bs[..i], bs[i + 1..]);
  }

  lemma {:induction false} WithoutAscending(bs: seq<Branch>, i: nat)
    requires Ascending(bs) && i < |bs|
    ensures Ascending(Without(bs, i))
    ensures forall j :: 0 <= j < |Without(bs, i)| ==> Without(bs, i)[j] == if j < i then bs[j] else bs[j + 1]
  {
  }

  // The last branch left is not the NONE one if that one is always merged away.
  lemma {:induction false} WithoutWellFormed(n: Node, i: nat)
    requires WellFormed(n) && n.Trie? && i < |n.branches| && |n.branches| > 1
    requires |n.branches| == 2 ==> n.branches[1 - i].key != NONE
    ensures WellFormed(n.(branches := Without(n.branches, i)))
  {
    WithoutAscending(n.branches, i);
    var w := Without(n.branches, i);
    forall j | 0 <= j < |w|
      ensures Fits(w[j]) && WellFormed(w[j].node)
    {
      assert w[j] == if j < i then n.branches[j] else n.branches[j + 1];
    }
  }

  // A search by branch key skips exactly the branches left of the removed one.
  lemma {:induction false} WithoutUpTo(bs: seq<Branch>, i: nat)
    requires Ascending(bs) && i < |bs|
    ensures Ascending(Without(bs, i)) && UpTo(Without(bs, i), bs[i].key) == i
  {
    WithoutAscending(bs, i);
    var w := Without(bs, i);
    forall j | 0 <= j < |w|
      ensures j < i ==> w[j].key <= bs[i].key
      ensures j >= i ==> bs[i].key < w[j].key
    {
      assert w[j] == if j < i then bs[j] else bs[j + 1];
    }
    UpToIs(w, bs[i].key, i);
  }

  // ----- entries as a map

  ghost function ToMap(es: seq<Entry>): map<Bytes, Bytes> {
    if es == [] then map[] else ToMap(es[..|es| - 1])[es[|es| - 1].key := es[|es| - 1].value]
  }

  lemma {:induction false} MapOfEntries(es: seq<Entry>)
    requires SortedEntries(es)
    ensures forall x :: x in es ==> x.key in ToMap(es) && ToMap(es)[x.key] == x.value
    ensures forall k :: k in ToMap(es) ==> Entry(k, ToMap(es)[k]) in es
  {
    if es != [] {
      var u, l := es[..|es| - 1], es[|es| - 1];
      MapOfEntries(u);
      KeyOnce(u, l, []);
      assert u + [l] + [] == es;
    }
  }

  lemma {:induction false} KeyOnce(left: seq<Entry>, e: Entry, right: seq<Entry>)
    requires SortedEntries(left + [e] + right)
    ensures forall x :: x in left || x in right ==> x.key != e.key
  {
    var a := left + [e] + right;
    assert a[|left|] == e;
    LessIrreflexive(e.key);
    forall i | 0 <= i < |left|
      ensures left[i].key != e.key
    {
      assert a[i] == left[i] && Less(a[i].key, a[|left|].key);
    }
    forall i | 0 <= i < |right|
      ensures right[i].key != e.key
    {
      assert a[|left| + 1 + i] == right[i] && Less(a[|left|].key, a[|left| + 1 + i].key);
    }
  }

  lemma {:induction false} InsertedMap(left: seq<Entry>, mid: seq<Entry>, right: seq<Entry>, e: Entry)
    requires SortedEntries(left + mid + right) && SortedEntries(left + [e] + right)
    requires mid == [] || (|mid| == 1 && mid[0].key == e.key)
    ensures ToMap(left + [e] + right) == ToMap(left + mid + right)[e.key := e.value]
  {
    var a, b := left + mid + right, left + [e] + right;
    KeyOnce(left, e, right);
    hide SortedEntries, ToMap;
    forall x | x in b && x != e
      ensures x in a && x.key != e.key
    {
      assert x in left || x in right;
    }
    forall x | x in a && x.key != e.key
      ensures x in b
    {
      assert x in left || x in right;
    }
    UpdatedMap(a, b, e);
  }

  lemma {:induction false} UpdatedMap(a: seq<Entry>, b: seq<Entry>, e: Entry)
    requires SortedEntries(a) && SortedEntries(b) && e in b
    requires forall x :: x in b && x != e ==> x in a && x.key != e.key
    requires forall x :: x in a && x.key != e.key ==> x in b
    ensures ToMap(b) == ToMap(a)[e.key := e.value]
  {
    MapOfEntries(a);
    MapOfEntries(b);
    hide SortedEntries, ToMap;
  }

  lemma {:induction false} RemovedMap(left: seq<Entry>, e: Entry, right: seq<Entry>)
    requires SortedEntries(left + [e] + right)
    ensures SortedEntries(left + right)
    ensures ToMap(left + right) == ToMap(left + [e] + right) - {e.key}
  {
    var a, b := left + [e] + right, left + right;
    WithoutSorted(left, e, right);
    MapOfEntries(a);
    MapOfEntries(b);
    KeyOnce(left, e, right);
    hide SortedEntries, ToMap;
    assert forall x :: x in b ==> x in a && x.key != e.key;
    assert forall x :: x in a ==> x == e || x in b;
  }

  lemma {:induction false} WithoutSorted(left: seq<Entry>, e: Entry, right: seq<Entry>)
    requires SortedEntries(left + [e] + right)
    ensures SortedEntries(left + right)
  {
    var a, b := left + [e] + right, left + right;
    forall i, j | 0 <= i < j < |b|
      ensures Less(b[i].key, b[j].key)
    {
      assert b[i] == a[if i < |left| then i else i + 1] && b[j] == a[if j < |left| then j else j + 1];
    }
  }
}
