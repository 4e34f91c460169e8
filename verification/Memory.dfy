// _GarbageSlot and _MemManager: every size class keeps a FIFO of freed pages, each
// tagged with the transaction that freed it; the rest of the space is handed out by a
// bump pointer.

module Memory {
  type PageId = nat

  datatype Garbage = Garbage(page: PageId, freed: nat)

  // slots[i] is the queue of size class i; pages from frontier on were never handed out.
  datatype Mem = Mem(frontier: nat, slots: seq<seq<Garbage>>)

  predicate Has(m: Mem, i: nat, j: nat) {
    i < |m.slots| && j < |m.slots[i]|
  }

  function At(m: Mem, i: nat, j: nat): Garbage
    requires Has(m, i, j)
  {
    m.slots[i][j]
  }

  // Everything that waits in some queue.
  ghost function Entries(m: Mem): set<Garbage> {
    set i: nat, j: nat | i < |m.slots| && j < |m.slots[i]| :: m.slots[i][j]
  }

  ghost predicate IsFree(m: Mem, p: PageId) {
    exists e :: e in Entries(m) && e.page == p
  }

  // No page is queued twice, and every queued page was handed out before.
  ghost predicate Tidy(m: Mem) {
    && (forall e :: e in Entries(m) ==> e.page < m.frontier)
    && (forall i: nat, j: nat, i': nat, j': nat ::
          Has(m, i, j) && Has(m, i', j') && At(m, i, j).page == At(m, i', j').page ==> i == i' && j == j')
  }

  // may_recycle: the page at the front was freed before every transaction still in use.
  predicate MayPop(m: Mem, slot: nat, start: nat) {
    slot < |m.slots| && m.slots[slot] != [] && m.slots[slot][0].freed < start
  }

  function Alloc(m: Mem, slot: nat, start: nat): (r: (Mem, PageId)) {
    if MayPop(m, slot, start) then
      (m.(slots := m.slots[slot := m.slots[slot][1..]]), m.slots[slot][0].page)
    else
      (m.(frontier := m.frontier + 1), m.frontier)
  }

  function Free(m: Mem, page: PageId, slot: nat, txn: nat): Mem {
    if slot < |m.slots| then m.(slots := m.slots[slot := m.slots[slot] + [Garbage(page, txn)]]) else m
  }

  // A page handed out leaves its queue, and it was queued by a transaction older than
  // start, or it is new space.
  lemma {:induction false} AllocTakesOldPage(m: Mem, slot: nat, start: nat)
    requires Tidy(m)
    ensures var (m', p) := Alloc(m, slot, start);
            && Tidy(m') && !IsFree(m', p) && p < m'.frontier
            && m.frontier <= m'.frontier && Entries(m') <= Entries(m)
            && (p == m.frontier || exists e :: e in Entries(m) && e.page == p && e.freed < start)
  {
    var (m', p) := Alloc(m, slot, start);
    if MayPop(m, slot, start) {
      assert Has(m, slot, 0) && At(m, slot, 0) in Entries(m);
      forall e | e in Entries(m')
        ensures e in Entries(m) && e.page != p
      {
        var i: nat, j: nat :| i < |m'.slots| && j < |m'.slots[i]| && m'.slots[i][j] == e;
        var k := if i == slot then j + 1 else j;
        assert Has(m, i, k) && At(m, i, k) == e;
        assert At(m, i, k).page == At(m, slot, 0).page ==> i == slot && k == 0;
      }
      forall i: nat, j: nat | Has(m', i, j)
        ensures Has(m, i, if i == slot then j + 1 else j)
        ensures At(m, i, if i == slot then j + 1 else j) == At(m', i, j)
      {
      }
    } else {
      forall i: nat, j: nat | Has(m', i, j)
        ensures Has(m, i, j) && At(m, i, j) == At(m', i, j)
      {
      }
      assert Entries(m') == Entries(m);
    }
  }

  lemma {:induction false} FreeAddsEntry(m: Mem, page: PageId, slot: nat, txn: nat)
    requires Tidy(m) && !IsFree(m, page) && page < m.frontier && slot < |m.slots|
    ensures var m' := Free(m, page, slot, txn);
            Tidy(m') && m'.frontier == m.frontier && Entries(m') == Entries(m) + {Garbage(page, txn)}
  {
    var m' := Free(m, page, slot, txn);
    var q := m.slots[slot];
    assert m'.slots[slot] == q + [Garbage(page, txn)];
    assert m'.slots[slot][|q|] == Garbage(page, txn);
    forall i: nat, j: nat | Has(m', i, j) && !(i == slot && j == |q|)
      ensures Has(m, i, j) && At(m, i, j) == At(m', i, j) && At(m, i, j).page != page
    {
      assert At(m, i, j) in Entries(m);
    }
    forall e | e in Entries(m)
      ensures e in Entries(m')
    {
      var i: nat, j: nat :| i < |m.slots| && j < |m.slots[i]| && m.slots[i][j] == e;
      assert m'.slots[i][j] == e;
    }
  }

  // Every queue lists its pages in the order in which they were freed.
  ghost predicate InOrder(m: Mem) {
    forall i: nat, j: nat, k: nat :: j < k && Has(m, i, j) && Has(m, i, k) ==> At(m, i, j).freed <= At(m, i, k).freed
  }

  lemma {:induction false} AllocKeepsOrder(m: Mem, slot: nat, start: nat)
    requires InOrder(m)
    ensures InOrder(Alloc(m, slot, start).0)
  {
    var m' := Alloc(m, slot, start).0;
    var d := if MayPop(m, slot, start) then 1 else 0;
    forall i: nat, j: nat, k: nat | j < k && Has(m', i, j) && Has(m', i, k)
      ensures At(m', i, j).freed <= At(m', i, k).freed
    {
      var e := if i == slot then d else 0;
      assert Has(m, i, j + e) && Has(m, i, k + e) && At(m', i, j) == At(m, i, j + e) && At(m', i, k) == At(m, i, k + e);
    }
  }

  lemma {:induction false} FreeKeepsOrder(m: Mem, page: PageId, slot: nat, txn: nat)
    requires InOrder(m) && forall e :: e in Entries(m) ==> e.freed <= txn
    ensures InOrder(Free(m, page, slot, txn))
  {
    var m' := Free(m, page, slot, txn);
    forall i: nat, j: nat, k: nat | j < k && Has(m', i, j) && Has(m', i, k)
      ensures At(m', i, j).freed <= At(m', i, k).freed
    {
      assert Has(m, i, j) && At(m', i, j) == At(m, i, j) && At(m, i, j) in Entries(m);
      if Has(m, i, k) {
        assert At(m', i, k) == At(m, i, k);
      }
    }
  }

  lemma {:induction false} PopsBelow(m: Mem, slot: nat, start: nat)
    requires Tidy(m) && MayPop(m, slot, start)
    ensures Alloc(m, slot, start).1 < m.frontier
  {
    assert Has(m, slot, 0) && At(m, slot, 0) in Entries(m);
  }

  // New space is only taken if every page queued for the size class may still be seen by a reader.
  lemma {:induction false} GrowsInNeed(m: Mem, slot: nat, start: nat)
    requires Tidy(m) && InOrder(m) && Alloc(m, slot, start).1 == m.frontier
    ensures forall j: nat :: Has(m, slot, j) ==> At(m, slot, j).freed >= start
  {
    if MayPop(m, slot, start) {
      PopsBelow(m, slot, start);
    }
    forall j: nat | Has(m, slot, j)
      ensures At(m, slot, j).freed >= start
    {
      assert Has(m, slot, 0) && (j > 0 ==> At(m, slot, 0).freed <= At(m, slot, j).freed);
    }
  }
}
