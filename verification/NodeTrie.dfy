// The packed node as the trie sees it: its bitmaps answer lookups like the list of its branches.

module NodeTrie {
  import opened Common
  import opened Bits
  import opened NodeView
  import opened NodeVisit
  import opened Trie
  import Search

  // The branches of the node in key order.
  ghost predicate Lists(v: View, bs: seq<Branch>)
    requires NodeView.Valid(v)
  {
    && Ascending(bs)
    && (forall i :: 0 <= i < |bs| ==> IsSet(v, bs[i].key))
    && (forall k :: NONE <= k < 256 && IsSet(v, k) ==> HasKey(bs, k))
  }

  ghost predicate HasKey(bs: seq<Branch>, key: int) {
    exists i :: 0 <= i < |bs| && bs[i].key == key
  }

  // The scan over the bitmaps lists the branches.
  lemma {:induction false} VisitsList(v: View, vs: seq<Visit>, bs: seq<Branch>)
    requires NodeView.Valid(v) && |vs| == |v.links| && (forall i :: 0 <= i < |vs| ==> Own(v, vs[i], i))
    requires |bs| == |vs| && forall i :: 0 <= i < |bs| ==> bs[i].key == vs[i].key
    ensures Lists(v, bs)
  {
    hide NodeView.Valid, IsSet, ArrayIndex;
    InOrder(v, vs);
    assert forall i :: 0 <= i < |bs| ==> Own(v, vs[i], i);
    forall k | NONE <= k < 256 && IsSet(v, k)
      ensures HasKey(bs, k)
    {
      var i :| 0 <= i < |vs| && vs[i].key == k;
      assert bs[i].key == k;
    }
  }

  // As many keys lie below n in the bitmaps as branches in the list.
  lemma {:induction false} KeysBelow(v: View, bs: seq<Branch>, n: nat)
    requires NodeView.Valid(v) && Lists(v, bs) && n <= 256
    ensures One(v.none) + CountKeys(v, n) == Search.Below(bs, n)
    decreases n
  {
    hide NodeView.Valid, NodeView.Lower, Search.Below;
    if n == 0 {
      BelowStep(bs, NONE, IsSet(v, NONE));
      NoneBelow(bs);
    } else {
      KeysBelow(v, bs, n - 1);
      BelowStep(bs, n - 1, IsSet(v, n - 1));
    }
  }

  lemma {:induction false} NoneBelow(bs: seq<Branch>)
    requires Ascending(bs)
    ensures Search.Below(bs, NONE) == 0
  {
    Search.UpToIs(bs, NONE - 1, 0);
  }

  lemma {:induction false} BelowStep(bs: seq<Branch>, key: int, present: bool)
    requires Ascending(bs) && (present <==> HasKey(bs, key))
    ensures Search.Below(bs, key + 1) == Search.Below(bs, key) + One(present)
  {
    var u := Search.Below(bs, key);
    if present {
      var i :| 0 <= i < |bs| && bs[i].key == key;
      Search.BelowExact(bs, i);
      Search.UpToExact(bs, i);
    } else {
      forall j | u <= j < |bs|
        ensures key < bs[j].key
      {
        assert bs[j].key != key;
      }
      Search.UpToIs(bs, key, u);
    }
  }

  // Membership, array index and both neighbours agree.
  lemma {:induction false} LookupsAgree(v: View, bs: seq<Branch>, key: int)
    requires NodeView.Valid(v) && Lists(v, bs) && NONE <= key < 256
    ensures |bs| == |v.links|
    ensures NodeView.ArrayIndex(v, key) == Search.ArrayIndex(bs, key)
    ensures NodeView.NextKey(v, key) == Search.NextKey(bs, key)
    ensures NodeView.PrevKey(v, key) == Search.PrevKey(bs, key)
  {
    AllKeys(v, bs);
    IndexAgrees(v, bs, key);
    NextAgrees(v, bs, key);
    PrevAgrees(v, bs, key);
  }

  lemma {:induction false} AllKeys(v: View, bs: seq<Branch>)
    requires NodeView.Valid(v) && Lists(v, bs)
    ensures |bs| == |v.links|
  {
    LinksAreKeys(v);
    KeysBelow(v, bs, 256);
    Search.UpToIs(bs, 255, |bs|);
  }

  lemma {:induction false} IndexAgrees(v: View, bs: seq<Branch>, key: int)
    requires NodeView.Valid(v) && Lists(v, bs) && NONE <= key < 256
    ensures NodeView.ArrayIndex(v, key) == Search.ArrayIndex(bs, key)
  {
    hide NodeView.Valid, NodeView.Lower, Search.Below, Slot, IsSet;
    if IsSet(v, key) {
      var i :| 0 <= i < |bs| && bs[i].key == key;
      RankInRange(v, key);
      Search.BelowExact(bs, i);
      if key == NONE { NoneBelow(bs); } else { KeysBelow(v, bs, key); }
      Search.UpToUnique(bs, i, Search.ArrayIndex(bs, key));
    } else {
      NotSetIndex(v, key);
    }
  }

  lemma {:induction false} NotSetIndex(v: View, key: int)
    requires NodeView.Valid(v) && NONE <= key < 256 && !IsSet(v, key)
    ensures NodeView.ArrayIndex(v, key) == -1
  {
  }

  lemma {:induction false} NextAgrees(v: View, bs: seq<Branch>, key: int)
    requires NodeView.Valid(v) && Lists(v, bs) && NONE <= key < 256
    ensures NodeView.NextKey(v, key) == Search.NextKey(bs, key)
  {
    NextIsSuccessor(v, key);
    hide NodeView.Valid, NodeView.NextKey, IsSet;
    var a, b := NodeView.NextKey(v, key), Search.NextKey(bs, key);
    if a != OUT_OF_RANGE { assert HasKey(bs, a); }
    if b != Search.OUT_OF_RANGE { assert IsSet(v, b); }
  }

  lemma {:induction false} PrevAgrees(v: View, bs: seq<Branch>, key: int)
    requires NodeView.Valid(v) && Lists(v, bs) && NONE <= key < 256
    ensures NodeView.PrevKey(v, key) == Search.PrevKey(bs, key)
  {
    PrevIsPredecessor(v, key);
    hide NodeView.Valid, NodeView.PrevKey, IsSet;
    var a, b := NodeView.PrevKey(v, key), Search.PrevKey(bs, key);
    if a != OUT_OF_RANGE { assert HasKey(bs, a); }
    if b != Search.OUT_OF_RANGE { assert IsSet(v, b); }
  }
}
