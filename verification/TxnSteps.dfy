// Pin, unpin, start, prepare, commit and rollback keep the invariants.

module TxnSteps {
  import opened Common
  import opened Memory
  import opened Trees
  import opened Store
  import opened Invariants
  import opened WriterSteps
  import opened Edits

  // A transaction that is read by somebody stays in the chain with the same tree, on pages
  // that were not written.
  ghost predicate Kept(s: Db, g: View, s': Db, g': View) {
    forall c :: c in g.chain && Live(s, c) && s.txns[c].refs > 0 ==>
      && c in g'.chain && Live(s', c) && s'.txns[c].root == s.txns[c].root
      && c in g.snaps && c in g'.snaps && g'.snaps[c] == g.snaps[c]
      && (forall p :: p in SnapPages(g, c) ==> p in s.nodes && p in s'.nodes && s'.nodes[p] == s.nodes[p])
  }

  lemma {:induction false} UntouchedKeeps(s: Db, s': Db, g: View, g': View)
    requires Committed(s, g) && Untouched(s, s', g) && g'.chain == g.chain && g'.snaps == g.snaps
    ensures Kept(s, g, s', g')
  {
    assert forall c :: c in g.chain && Live(s, c) ==> SnapOk(s, g, c);
  }

  // ----- reference counts

  ghost predicate OnlyRefs(s: Db, s': Db, c: PageId) {
    && c in s.txns && c in s'.txns
    && s' == SetTxn(s, c, s.txns[c].(refs := s'.txns[c].refs))
  }

  lemma {:induction false} RefsChain(s: Db, s': Db, g: View, c: PageId)
    requires ChainOk(s, g) && OnlyRefs(s, s', c)
    requires c in g.chain && !Live(s, c) ==> s'.txns[c].refs == 0
    ensures ChainOk(s', g) && (forall x :: Live(s', x) == Live(s, x)) && ReadId(s') == ReadId(s)
  {
    assert s.readTxn in g.chain;
  }

  lemma {:induction false} RefsMem(s: Db, s': Db, g: View, c: PageId, m: Mem, top: nat)
    requires MemSafe(s, g, m, top) && OnlyRefs(s, s', c) && forall x :: Live(s', x) == Live(s, x)
    ensures MemSafe(s', g, m, top)
  {
  }

  lemma {:induction false} RefsCommitted(s: Db, s': Db, g: View, c: PageId)
    requires Committed(s, g) && OnlyRefs(s, s', c)
    requires c in g.chain && !Live(s, c) ==> s'.txns[c].refs == 0
    ensures Committed(s', g) && (forall x :: Live(s', x) == Live(s, x)) && ReadId(s') == ReadId(s)
  {
    RefsChain(s, s', g, c);
    assert s.readTxn in g.chain;
    hide ChainOk, MemSafe, Live;
    forall x | x in g.chain && Live(s', x)
      ensures SnapOk(s', g, x)
    {
      assert SnapOk(s, g, x);
    }
    RefsMem(s, s', g, c, s.txns[s.readTxn].mem, ReadId(s));
  }

  lemma {:induction false} RefsLive(s: Db, s': Db, g: View, c: PageId)
    requires Committed(s, g) && Committed(s', g) && OnlyRefs(s, s', c)
    ensures (forall x :: Live(s', x) == Live(s, x)) && ReadId(s') == ReadId(s) && s.readTxn in g.chain
  {
    assert s.readTxn in g.chain;
  }

  lemma {:induction false} RefsReserved(s: Db, s': Db, g: View, c: PageId, x: PageId, m: Mem)
    requires Reserved(s, g, x, m) && OnlyRefs(s, s', c) && forall y :: Live(s', y) == Live(s, y)
    ensures Reserved(s', g, x, m)
  {
  }

  lemma {:induction false} RefsOwning(s: Db, s': Db, g: View, c: PageId, used: set<PageId>)
    requires Committed(s, g) && Committed(s', g) && OnlyRefs(s, s', c) && Owning(s, g, used)
    ensures Owning(s', g, used)
  {
    hide Reserved, MemSafe, IsFree, SnapOk, ChainOk;
    RefsLive(s, s', g, c);
    RefsMem(s, s', g, c, Me(s).mem, Me(s).id);
    RefsReserved(s, s', g, c, s.active.value, s.txns[s.readTxn].mem);
    RefsReserved(s, s', g, c, s.active.value, Me(s).mem);
  }

  lemma {:induction false} RefsOthers(s: Db, s': Db, g: View, c: PageId)
    requires Committed(s, g) && OnlyRefs(s, s', c)
    ensures Kept(s, g, s', g)
  {
    assert forall x :: x in g.chain && Live(s, x) ==> SnapOk(s, g, x);
  }

  lemma {:induction false} RefsIdle(s: Db, s': Db, g: View, c: PageId)
    requires Committed(s, g) && Committed(s', g) && OnlyRefs(s, s', c) && c in g.chain && s.active.None? && Idle(s, g)
    ensures Idle(s', g)
  {
    assert s.readTxn in g.chain;
    assert forall x :: Live(s', x) == Live(s, x);
  }

  lemma {:induction false} RefsActive(s: Db, s': Db, g: View, c: PageId)
    requires Committed(s, g) && Committed(s', g) && OnlyRefs(s, s', c) && (c in g.chain || s.active == Some(c)) && s.active.Some?
    ensures Writing(s) && Forest(s, g) ==> Forest(s', g)
    ensures Writing(s) && PreparedOk(s, g) ==> PreparedOk(s', g)
  {
    assert s.readTxn in g.chain;
    assert forall x :: Live(s', x) == Live(s, x);
  }

  lemma {:induction false} RefsKeep(s: Db, s': Db, g: View, c: PageId)
    requires Inv(s, g) && OnlyRefs(s, s', c)
    requires c in g.chain || s.active == Some(c)
    requires c in g.chain && !Live(s, c) ==> s'.txns[c].refs == 0
    ensures Inv(s', g) && Kept(s, g, s', g)
  {
    hide Committed, Owning, Idle, PreparedOk, Forest, Kept, Live;
    RefsCommitted(s, s', g, c);
    RefsOthers(s, s', g, c);
    if s.active.None? {
      RefsIdle(s, s', g, c);
    } else {
      RefsActive(s, s', g, c);
      RefsOwning(s, s', g, c, Used(g));
    }
  }

  lemma {:induction false} PinKeeps(s: Db, g: View)
    requires Inv(s, g)
    ensures var s' := AddRef(s, s.readTxn);
            Inv(s', g) && Kept(s, g, s', g) && s'.txns[s.readTxn].refs > 0
  {
    assert s.readTxn in g.chain && Live(s, s.readTxn);
    RefsKeep(s, AddRef(s, s.readTxn), g, s.readTxn);
  }

  lemma {:induction false} PinActiveKeeps(s: Db, g: View)
    requires Inv(s, g) && s.active.Some?
    ensures Inv(AddRef(s, s.active.value), g) && Kept(s, g, AddRef(s, s.active.value), g)
  {
    RefsKeep(s, AddRef(s, s.active.value), g, s.active.value);
  }

  lemma {:induction false} UnpinKeeps(s: Db, g: View, c: PageId)
    requires Inv(s, g) && (c in g.chain || s.active == Some(c)) && c in s.txns && s.txns[c].refs > 0
    ensures Inv(DropRef(s, c), g) && Kept(s, g, DropRef(s, c), g)
  {
    RefsKeep(s, DropRef(s, c), g, c);
  }

  // ----- start_transaction

  // A new transaction sees the tree that was committed last.
  ghost function Started(s: Db, g: View): View {
    g.(main := if s.readTxn in g.snaps then g.snaps[s.readTxn] else None, hole := None, loose := {})
  }

  // The state before the chain walk.
  function Begun(s: Db, cursor: nat): Db
    requires s.nextTxn.Some? && s.nextTxn.value in s.txns && s.readTxn in s.txns
  {
    var a := s.nextTxn.value;
    s.(active := Some(a), nextTxn := None, cursor := cursor,
       txns := s.txns[a := s.txns[a].(id := s.txns[s.readTxn].id + 1, next := None)])
  }

  lemma {:induction false} SameCommitted(s: Db, g: View, g': View)
    requires Committed(s, g) && g'.chain == g.chain && g'.snaps == g.snaps
    ensures Committed(s, g')
  {
    assert forall c :: SnapPages(g', c) == SnapPages(g, c);
  }

  lemma {:induction false} ReadIsLive(s: Db, g: View)
    requires Committed(s, g)
    ensures s.readTxn in g.chain && Live(s, s.readTxn) && SnapOk(s, g, s.readTxn)
    ensures forall c :: c in g.chain ==> c in s.txns
  {
  }

  lemma {:induction false} BegunCommitted(s: Db, g: View, cursor: nat)
    requires Committed(s, g) && Idle(s, g)
    ensures var s1 := Begun(s, cursor);
            && Committed(s1, Started(s, g))
            && ReadId(s1) == ReadId(s) && (forall c :: c in g.chain ==> c in s.txns && s1.txns[c] == s.txns[c])
            && s.readTxn in g.chain && Live(s, s.readTxn) && SnapOk(s, g, s.readTxn)
  {
    var s1 := Begun(s, cursor);
    ReadIsLive(s, g);
    assert forall c :: c in g.chain ==> s1.txns[c] == s.txns[c];
    assert SlotsOk(s1);
    hide ChainOk, MemSafe, SnapOk;
    CommittedFrame(s, s1, g);
    SameCommitted(s1, g, Started(s, g));
  }

  lemma {:induction false} BegunAllocating(s: Db, g: View, cursor: nat)
    requires Committed(s, g) && Idle(s, g) && Committed(Begun(s, cursor), Started(s, g))
    requires s.readTxn in g.chain && Live(s, s.readTxn) && SnapOk(s, g, s.readTxn)
    requires forall c :: c in g.chain ==> c in s.txns && Begun(s, cursor).txns[c] == s.txns[c]
    ensures var s1 := Begun(s, cursor);
            Allocating(s1, Started(s, g), SnapPages(g, s.readTxn))
    ensures forall c :: c in g.chain ==> !IsFree(s.txns[s.nextTxn.value].mem, c)
  {
    var s1 := Begun(s, cursor);
    var g1 := Started(s, g);
    var m := s.txns[s.readTxn].mem;
    assert forall c :: SnapPages(g1, c) == SnapPages(g, c);
    assert forall c :: c in g.chain ==> Live(s1, c) == Live(s, c);
    MemSafeFrame(s, s1, g, m, m, ReadId(s));
    assert MemSafe(s1, g1, m, ReadId(s) + 1);
    forall p | p in SnapPages(g, s.readTxn)
      ensures !IsFree(m, p)
    {
      assert forall e :: e in Entries(m) && e.page == p ==> e.freed > s.txns[s.readTxn].id;
    }
  }

  lemma {:induction false} BegunForest(s: Db, g: View, cursor: nat)
    requires Committed(s, g) && Idle(s, g) && s.readTxn in g.snaps && SnapOk(s, g, s.readTxn)
    ensures Forest(Begun(s, cursor), Started(s, g))
    ensures Used(Started(s, g)) == SnapPages(g, s.readTxn)
  {
  }

  lemma {:induction false} FreeTxnCommitted(s: Db, g: View, used: set<PageId>, c: PageId)
    requires Committed(s, g) && Allocating(s, g, used) && c in g.chain
    ensures var s' := FreePage(s, c, s.txns[c].slot);
            && Committed(s', g) && Untouched(s, s', g) && s'.nodes == s.nodes && Me(s') == Me(s).(mem := Me(s').mem)
  {
    hide SnapOk, Entries, OptHolds, Tidy, OptPages;
    var s' := FreePage(s, c, s.txns[c].slot);
    assert s.readTxn in g.chain;
    CommittedFrame(s, s', g);
  }

  lemma {:induction false} FreeTxnMem(s: Db, g: View, used: set<PageId>, c: PageId)
    requires Committed(s, g) && Allocating(s, g, used) && c in g.chain && !IsFree(Me(s).mem, c)
    ensures var s' := FreePage(s, c, s.txns[c].slot);
            && ReadId(s') == ReadId(s) && MemSafe(s', g, Me(s').mem, Me(s).id) && Me(s').mem.frontier == Me(s).mem.frontier
            && (forall x :: IsFree(Me(s').mem, x) ==> x == c || IsFree(Me(s).mem, x))
  {
    hide SnapOk, OptHolds, OptPages, Holds, Proper;
    var slot := s.txns[c].slot;
    FreeAddsEntry(Me(s).mem, c, slot, Me(s).id);
    var s' := FreePage(s, c, slot);
    assert s.readTxn in g.chain;
    MemSafeFrame(s, s', g, Me(s).mem, Me(s').mem, Me(s).id);
  }

  lemma {:induction false} FreeTxnKeeps(s: Db, g: View, used: set<PageId>, c: PageId)
    requires Committed(s, g) && Allocating(s, g, used) && c in g.chain && !IsFree(Me(s).mem, c)
    ensures var s' := FreePage(s, c, s.txns[c].slot);
            && Committed(s', g) && Allocating(s', g, used) && Untouched(s, s', g)
            && s'.nodes == s.nodes && Me(s') == Me(s).(mem := Me(s').mem)
            && (forall x :: IsFree(Me(s').mem, x) ==> x == c || IsFree(Me(s).mem, x))
  {
    hide SnapOk, Entries, IsFree, Tidy, OptHolds, OptPages, MemSafe, Free;
    var s' := FreePage(s, c, s.txns[c].slot);
    FreeTxnCommitted(s, g, used, c);
    FreeTxnMem(s, g, used, c);
    assert s.readTxn in g.chain;
    ReservedFrame(s, s', g, s.active.value, s.txns[s.readTxn].mem, s.txns[s.readTxn].mem);
    ReservedFrame(s, s', g, s.active.value, Me(s).mem, Me(s').mem);
    assert PagesOk(s', g, used);
  }

  // Where the walk stands: everything before k was freed, nothing from k on.
  ghost predicate Walking(s: Db, g: View, used: set<PageId>, k: nat) {
    && Committed(s, g) && Allocating(s, g, used) && k < |g.chain|
    && (forall i :: 0 <= i < k ==> s.txns[g.chain[i]].refs == 0)
    && (forall i :: k <= i < |g.chain| ==> !IsFree(Me(s).mem, g.chain[i]))
  }

  lemma {:induction false} WalkStep(s: Db, g: View, used: set<PageId>, k: nat)
    requires Walking(s, g, used, k) && k + 1 < |g.chain| && s.txns[g.chain[k]].refs == 0
    ensures var s' := FreePage(s, g.chain[k], s.txns[g.chain[k]].slot);
            && Walking(s', g, used, k + 1) && Untouched(s, s', g) && s'.nodes == s.nodes
            && Me(s') == Me(s).(mem := Me(s').mem)
            && s.txns[g.chain[k]].next == Some(g.chain[k + 1]) && g.chain[k] != s.readTxn
  {
    FreeTxnKeeps(s, g, used, g.chain[k]);
    assert g.chain[k] in g.chain;
    var s' := FreePage(s, g.chain[k], s.txns[g.chain[k]].slot);
    forall i | k < i < |g.chain|
      ensures g.chain[i] != g.chain[k] && g.chain[i] in g.chain
    {
    }
  }

  function WalkStop(s: Db, c: PageId): Db
    requires Writing(s) && c in s.txns
  {
    SetTxn(s, s.active.value, Me(s).(start := c)).(startId := s.txns[c].id)
  }

  // Raising the oldest id only lets transactions go that nobody reads and the walk freed.
  lemma {:induction false} WalkEndChain(s: Db, g: View, used: set<PageId>, k: nat)
    requires Walking(s, g, used, k)
    requires g.chain[k] == s.readTxn || s.txns[g.chain[k]].refs > 0
    ensures var c := g.chain[k];
            var s' := WalkStop(s, c);
            && (forall x :: x in g.chain ==> x in s.txns && s'.txns[x] == s.txns[x])
            && c in g.chain && s.readTxn in g.chain && s.startId <= s'.startId <= ReadId(s)
            && (forall x :: x in g.chain && Live(s', x) ==> Live(s, x) && !IsFree(Me(s').mem, x))
            && (forall x :: x in g.chain && !Live(s', x) ==> s'.txns[x].refs == 0)
  {
    var c := g.chain[k];
    var s' := WalkStop(s, c);
    assert c in g.chain && s.readTxn in g.chain && g.chain[|g.chain| - 1] == s.readTxn;
    assert Live(s, c);
    forall x | x in g.chain
      ensures s'.txns[x] == s.txns[x]
      ensures Live(s', x) ==> Live(s, x) && !IsFree(Me(s').mem, x)
      ensures !Live(s', x) ==> s'.txns[x].refs == 0
    {
      var i :| 0 <= i < |g.chain| && g.chain[i] == x;
      assert s.txns[x].id == s.txns[g.chain[0]].id + i && s.txns[c].id == s.txns[g.chain[0]].id + k;
    }
  }

  lemma {:induction false} WalkEnd(s: Db, g: View, used: set<PageId>, k: nat)
    requires Walking(s, g, used, k)
    requires g.chain[k] == s.readTxn || s.txns[g.chain[k]].refs > 0
    ensures Committed(WalkStop(s, g.chain[k]), g)
  {
    hide Live, IsFree, Writing, SnapPages, OptPages;
    var s' := WalkStop(s, g.chain[k]);
    WalkEndChain(s, g, used, k);
    assert SlotsOk(s');
    forall x | x in g.chain && Live(s', x)
      ensures SnapOk(s', g, x)
    {
      assert SnapOk(s, g, x);
    }
  }

  lemma {:induction false} WalkEndOwning(s: Db, g: View, used: set<PageId>, k: nat)
    requires Walking(s, g, used, k)
    requires g.chain[k] == s.readTxn || s.txns[g.chain[k]].refs > 0
    requires Committed(WalkStop(s, g.chain[k]), g)
    ensures Owning(WalkStop(s, g.chain[k]), g, used)
  {
    WalkEndChain(s, g, used, k);
  }

  ghost predicate Collected(s: Db, s': Db, g: View, used: set<PageId>) {
    Committed(s', g) && Owning(s', g, used) && Forest(s', g) && SameRecords(s, s', g)
  }

  lemma {:induction false} CollectStops(s: Db, g: View, used: set<PageId>, k: nat)
    requires Walking(s, g, used, k) && Writing(s) && Forest(s, g)
    requires g.chain[k] == s.readTxn || s.txns[g.chain[k]].refs > 0
    ensures Collected(s, WalkStop(s, g.chain[k]), g, used)
  {
    WalkLast(s, g, used, k);
    WalkEnd(s, g, used, k);
    WalkEndOwning(s, g, used, k);
    hide Committed, Owning, Walking, Forest, SameRecords;
    StopForest(s, g, g.chain[k]);
    StopRecords(s, g, g.chain[k]);
  }

  // The whole walk stops at the oldest transaction that is read.
  lemma {:induction false} CollectKeeps(s: Db, g: View, used: set<PageId>, k: nat, fuel: nat)
    requires Walking(s, g, used, k) && fuel == |g.chain| - 1 - k
    requires Writing(s) && Forest(s, g) && used == Used(g)
    ensures Collected(s, Collect(s, g.chain[k], s.readTxn, fuel), g, used)
    decreases fuel
  {
    hide Committed, Allocating, Forest, SameRecords, Owning, Walking, FreePage;
    WalkLast(s, g, used, k);
    if g.chain[k] == s.readTxn || s.txns[g.chain[k]].refs > 0 {
      CollectStops(s, g, used, k);
    } else {
      CollectGoes(s, g, used, k);
      var s1 := FreePage(s, g.chain[k], s.txns[g.chain[k]].slot);
      CollectKeeps(s1, g, used, k + 1, fuel - 1);
      RecordsTwice(s, s1, Collect(s1, g.chain[k + 1], s.readTxn, fuel - 1), g);
    }
  }

  lemma {:induction false} CollectGoes(s: Db, g: View, used: set<PageId>, k: nat)
    requires Walking(s, g, used, k) && Writing(s) && Forest(s, g) && k + 1 < |g.chain|
    requires s.txns[g.chain[k]].refs == 0
    ensures var s1 := FreePage(s, g.chain[k], s.txns[g.chain[k]].slot);
            && Walking(s1, g, used, k + 1) && Forest(s1, g) && SameRecords(s, s1, g)
            && s1.readTxn == s.readTxn && s.txns[g.chain[k]].next == Some(g.chain[k + 1])
  {
    WalkStep(s, g, used, k);
    hide Committed, Allocating, Forest, SameRecords, Owning, Walking;
    var s1 := FreePage(s, g.chain[k], s.txns[g.chain[k]].slot);
    SameHeader(s, s1, g);
    FreedRecords(s, s1, g);
  }

  // Chain records, header and snapshot pages after the walk are those before it.
  ghost predicate SameRecords(s: Db, s': Db, g: View) {
    && (forall c :: c in g.chain && c in s.txns ==> c in s'.txns && s'.txns[c] == s.txns[c])
    && s'.readTxn == s.readTxn && s'.active == s.active && s'.preparedTxn == s.preparedTxn
    && s'.nodes == s.nodes
  }

  lemma {:induction false} RecordsTwice(s: Db, s1: Db, s2: Db, g: View)
    requires SameRecords(s, s1, g) && SameRecords(s1, s2, g)
    ensures SameRecords(s, s2, g)
  {
  }

  lemma {:induction false} FreedRecords(s: Db, s': Db, g: View)
    requires Untouched(s, s', g) && Writing(s) && Writing(s') && s'.nodes == s.nodes && Me(s') == Me(s).(mem := Me(s').mem)
    ensures SameRecords(s, s', g)
    ensures Forest(s, g) ==> Forest(s', g)
  {
  }

  lemma {:induction false} StopRecords(s: Db, g: View, c: PageId)
    requires Writing(s) && c in s.txns && s.active.value !in g.chain
    ensures SameRecords(s, WalkStop(s, c), g)
  {
  }

  lemma {:induction false} StopForest(s: Db, g: View, c: PageId)
    requires Writing(s) && c in s.txns && Forest(s, g)
    ensures Forest(WalkStop(s, c), g)
  {
  }

  lemma {:induction false} WalkLast(s: Db, g: View, used: set<PageId>, k: nat)
    requires Walking(s, g, used, k)
    ensures k < |g.chain| && Writing(s) && s.active.value !in g.chain && g.chain[k] in s.txns
    ensures g.chain[k] == s.readTxn <==> k == |g.chain| - 1
  {
    assert s.txns[g.chain[k]].id == s.txns[g.chain[0]].id + k;
  }

  lemma {:induction false} StartKeeps(s: Db, g: View, cursor: nat)
    requires Inv(s, g) && s.active.None?
    ensures var s' := StartTransaction(s, cursor);
            Inv(s', Started(s, g)) && Kept(s, g, s', Started(s, g)) && s'.active.Some?
  {
    var s1 := Begun(s, cursor);
    var g1 := Started(s, g);
    BegunCommitted(s, g, cursor);
    BegunAllocating(s, g, cursor);
    BegunForest(s, g, cursor);
    ChainEnds(s, g);
    assert Walking(s1, g1, Used(g1), 0);
    CollectKeeps(s1, g1, Used(g1), 0, |g.chain| - 1);
    var s' := StartTransaction(s, cursor);
    assert s' == Collect(s1, g1.chain[0], s1.readTxn, |g.chain| - 1);
    StartedKept(s, s1, s', g, g1);
  }

  lemma {:induction false} ChainEnds(s: Db, g: View)
    requires Committed(s, g)
    ensures s.txns[s.readTxn].start == g.chain[0] && ChainLength(s) == |g.chain| - 1
    ensures |g.chain| > 0
  {
    var n := |g.chain| - 1;
    assert g.chain[n] == s.readTxn && s.txns[g.chain[n]].id == s.txns[g.chain[0]].id + n;
  }

  lemma {:induction false} StartedKept(s: Db, s1: Db, s': Db, g: View, g1: View)
    requires Committed(s, g) && Committed(s', g1) && g1.chain == g.chain && g1.snaps == g.snaps
    requires forall c :: c in g.chain ==> c in s.txns && c in s1.txns && s1.txns[c] == s.txns[c]
    requires SameRecords(s1, s', g1) && s1.nodes == s.nodes
    ensures Kept(s, g, s', g1)
  {
    forall c | c in g.chain && Live(s, c) && s.txns[c].refs > 0
      ensures c in g.snaps && Live(s', c)
    {
      assert SnapOk(s, g, c);
    }
  }

  // ----- prepare_commit

  lemma {:induction false} CloneFacts(s: Db, g: View)
    requires AtWork(s, g)
    ensures var (s1, n) := AllocPage(s, Me(s).slot);
            && Ready(s1, g) && Untouched(s, s1, g) && Unowned(s1, g, Used(g), n)
            && Me(s1) == Me(s).(mem := Me(s1).mem) && n !in s1.nodes
  {
    ReadyIsAtWork(s, g);
    var (s1, n) := AllocPage(s, Me(s).slot);
    AllocIsUnowned(s, g, Used(g), Me(s).slot);
    AllocKeepsCommitted(s, g, Used(g), Me(s).slot);
    AllocKeepsOwning(s, g, Used(g), Me(s).slot);
    AllocForest(s, g, Me(s).slot);
    SameHeader(s, s1, g);
    hide Committed, Owning, Forest, Untouched, Unowned;
  }

  lemma {:induction false} AllocForest(s: Db, g: View, slot: nat)
    requires Ready(s, g)
    requires var (s1, n) := AllocPage(s, slot); Unowned(s1, g, Used(g), n)
    ensures Forest(AllocPage(s, slot).0, g)
  {
    UsedNodes(s, g);
    hide Committed, Owning;
    ForestFrame(s, AllocPage(s, slot).0, g);
  }

  // A reserved page becomes a transaction record, and the record of the last transaction
  // gets its successor.
  function Sealed(s: Db, n: PageId): Db
    requires Writing(s)
  {
    var s2 := SetTxn(s, n, Me(s).(refs := 0)).(nextTxn := Some(n), preparedTxn := s.active.value);
    if s.readTxn in s2.txns
    then SetTxn(s2, s.readTxn, s2.txns[s.readTxn].(next := s.active)) else s2
  }

  lemma {:induction false} SealedRecords(s: Db, g: View, n: PageId)
    requires Ready(s, g) && Unowned(s, g, Used(g), n)
    ensures var s' := Sealed(s, n);
            && s.readTxn in g.chain && s.readTxn != s.active.value && n != s.readTxn
            && (forall c :: c in g.chain ==> c in s.txns && c in s'.txns)
            && (forall c :: c in g.chain ==>
                  s'.txns[c] == if c == s.readTxn then s.txns[c].(next := s.active) else s.txns[c])
            && (forall c :: c in g.chain ==> Live(s', c) == Live(s, c))
            && ReadId(s') == ReadId(s) && Writing(s') && Me(s') == Me(s)
            && n in s'.txns && s'.txns[n] == Me(s).(refs := 0)
  {
    ReadIsLive(s, g);
  }

  lemma {:induction false} SealedCommitted(s: Db, g: View, n: PageId)
    requires Ready(s, g) && Unowned(s, g, Used(g), n)
    ensures Committed(Sealed(s, n), g)
  {
    hide HoleOk, Owning, IsFree, SnapPages, ForestPages, ReadId, Path, Proper, Allocating, OptPages, Tidy, Reserved, PagesOk, Has, At;
    SealedRecords(s, g, n);
    var s' := Sealed(s, n);
    assert SlotsOk(s');
    forall c | c in g.chain && Live(s', c)
      ensures SnapOk(s', g, c)
    {
      assert SnapOk(s, g, c);
    }
  }

  lemma {:induction false} SealedOwning(s: Db, g: View, n: PageId)
    requires Ready(s, g) && Unowned(s, g, Used(g), n) && Committed(Sealed(s, n), g)
    ensures Owning(Sealed(s, n), g, Used(g))
  {
    SealedRecords(s, g, n);
  }

  lemma {:induction false} SealedPrepared(s: Db, g: View, n: PageId)
    requires Ready(s, g) && g.hole.None? && Unowned(s, g, Used(g), n) && Committed(Sealed(s, n), g)
    ensures Forest(Sealed(s, n), g) && PreparedOk(Sealed(s, n), g)
  {
    SealedRecords(s, g, n);
  }

  lemma {:induction false} SealedKept(s: Db, g: View, n: PageId)
    requires Ready(s, g) && Unowned(s, g, Used(g), n)
    ensures Kept(s, g, Sealed(s, n), g)
  {
    SealedRecords(s, g, n);
    assert forall c :: c in g.chain && Live(s, c) ==> SnapOk(s, g, c);
  }

  lemma {:induction false} PrepareKeeps(s: Db, g: View, cursor: nat)
    requires AtWork(s, g) && g.hole.None? && s.cursor == cursor
    ensures var s' := PrepareCommit(s, cursor);
            && Inv(s', g) && Kept(s, g, s', g) && Prepared(s') && s'.active == s.active && s'.cursor == cursor
            && (forall c :: c in g.chain ==> c in s.txns && c in s'.txns && s'.txns[c].refs == s.txns[c].refs)
  {
    hide AtWork, Kept, AllocPage, Committed, Owning;
    ReadyIsAtWork(s, g);
    CloneFacts(s, g);
    var (s1, n) := AllocPage(s, Me(s).slot);
    hide Committed, Owning, Forest, Untouched, Unowned, Kept, PreparedOk;
    SameHeader(s, s1, g);
    UntouchedKeeps(s, s1, g, g);
    SealedRecords(s1, g, n);
    SealedCommitted(s1, g, n);
    SealedOwning(s1, g, n);
    SealedPrepared(s1, g, n);
    SealedKept(s1, g, n);
    UntouchedRefs(s, s1, g);
    KeptTwice(s, s1, Sealed(s1, n), g, g, g);
  }

  lemma {:induction false} UntouchedRefs(s: Db, s1: Db, g: View)
    requires Committed(s, g) && Untouched(s, s1, g)
    ensures forall c :: c in g.chain ==> c in s.txns && c in s1.txns && s1.txns[c].refs == s.txns[c].refs
  {
  }

  lemma {:induction false} KeptTwice(s: Db, s1: Db, s2: Db, g: View, g1: View, g2: View)
    requires Kept(s, g, s1, g1) && Kept(s1, g1, s2, g2)
    requires forall c :: c in g.chain && c in s.txns && c in s1.txns ==> s1.txns[c].refs == s.txns[c].refs
    ensures Kept(s, g, s2, g2)
  {
  }

  // ----- commit

  ghost function OldestIndex(s: Db, g: View): int
  {
    if g.chain != [] && g.chain[0] in s.txns then s.startId - s.txns[g.chain[0]].id else 0
  }

  // The chain from the oldest transaction in use, and the committed one at its end.
  ghost function Switched(s: Db, g: View): View
    requires Writing(s) && 0 <= OldestIndex(s, g) <= |g.chain|
  {
    var a := s.active.value;
    View(g.chain[OldestIndex(s, g)..] + [a], g.snaps[a := g.main], None, None, {})
  }

  function SwitchRead(s: Db): Db {
    EndTransaction(s.(readTxn := s.preparedTxn))
  }

  ghost predicate Sealing(s: Db, g: View) {
    Committed(s, g) && Active(s, g) && Prepared(s) && PreparedOk(s, g)
  }

  lemma {:induction false} OldestInChain(s: Db, g: View)
    requires Sealing(s, g)
    ensures Writing(s) && 0 <= OldestIndex(s, g) < |g.chain| && g.chain[OldestIndex(s, g)] == Me(s).start
    ensures s.active.value !in g.chain && s.preparedTxn == s.active.value && s.readTxn in g.chain
    ensures forall i :: 0 <= i < |g.chain| ==>
              g.chain[i] in s.txns && s.txns[g.chain[i]].id == s.startId - OldestIndex(s, g) + i
    ensures Me(s).id == s.startId - OldestIndex(s, g) + |g.chain| && Me(s).id == ReadId(s) + 1
    ensures forall i :: 0 <= i < |g.chain| - 1 ==> s.txns[g.chain[i]].next == Some(g.chain[i + 1])
    ensures g.chain[|g.chain| - 1] == s.readTxn && s.txns[s.readTxn].next == s.active
  {
    hide MemSafe, Forest, Reserved, PagesOk, SnapOk;
    var i0 :| 0 <= i0 < |g.chain| && g.chain[i0] == Me(s).start;
    assert OldestIndex(s, g) == i0;
  }

  lemma {:induction false} SwitchMembers(s: Db, g: View)
    requires Sealing(s, g)
    ensures 0 <= OldestIndex(s, g) < |g.chain|
    ensures var g' := Switched(s, g);
            && (forall c :: c in g'.chain ==> c == s.active.value || (c in g.chain && Live(s, c)))
            && (forall c :: c in g.chain && Live(s, c) ==> c in g'.chain)
  {
    hide Sealing;
    OldestInChain(s, g);
    var k := OldestIndex(s, g);
    var g' := Switched(s, g);
    forall c | c in g.chain && Live(s, c)
      ensures c in g'.chain
    {
      var i :| 0 <= i < |g.chain| && g.chain[i] == c;
      assert g'.chain[i - k] == c;
    }
    forall i | 0 <= i < |g'.chain|
      ensures g'.chain[i] == s.active.value || (g'.chain[i] in g.chain && Live(s, g'.chain[i]))
    {
      if i < |g.chain| - k {
        assert g'.chain[i] == g.chain[k + i];
      }
    }
  }

  lemma {:induction false} SwitchChain(s: Db, g: View)
    requires Sealing(s, g)
    ensures 0 <= OldestIndex(s, g) < |g.chain|
    ensures ChainOk(SwitchRead(s), Switched(s, g))
  {
    hide Sealing;
    OldestInChain(s, g);
    var k := OldestIndex(s, g);
    var n := |g.chain| - k;
    var g' := Switched(s, g);
    assert |g'.chain| == n + 1 && g'.chain[n] == s.active.value;
    assert forall i :: 0 <= i < n ==> g'.chain[i] == g.chain[k + i];
    assert forall i :: 0 <= i <= n ==> g'.chain[i] in s.txns && s.txns[g'.chain[i]].id == s.startId + i;
    forall i | 0 <= i < n
      ensures s.txns[g'.chain[i]].next == Some(g'.chain[i + 1])
    {
      if i + 1 < n {
        assert g'.chain[i + 1] == g.chain[k + i + 1];
      }
    }
  }

  lemma {:induction false} SwitchSnaps(s: Db, g: View)
    requires Sealing(s, g)
    requires 0 <= OldestIndex(s, g) < |g.chain|
    requires var g' := Switched(s, g);
             forall c :: c in g'.chain ==> c == s.active.value || (c in g.chain && Live(s, c))
    ensures var g' := Switched(s, g);
            && (forall c :: c in g'.chain ==> c in s.txns && SnapOk(SwitchRead(s), g', c))
            && (forall c :: c in g.chain && Live(s, c) ==> c in g.snaps && g'.snaps[c] == g.snaps[c])
            && SnapPages(g', s.active.value) == Used(g) - ForestPages(g.loose)
  {
    hide OldestIndex, SlotsOk, ChainOk;
    var a := s.active.value;
    var g' := Switched(s, g);
    assert a !in g.chain;
    assert forall c :: c in g.chain && Live(s, c) ==> SnapOk(s, g, c) && SnapPages(g', c) == SnapPages(g, c);
    assert SnapPages(g', a) == OptPages(g.main) && OptPages(g.main) <= Used(g);
    assert SnapOk(SwitchRead(s), g', a);
  }

  lemma {:induction false} SwitchMem(s: Db, g: View)
    requires Sealing(s, g)
    requires 0 <= OldestIndex(s, g) < |g.chain|
    requires var g' := Switched(s, g);
             && (forall c :: c in g'.chain ==> c == s.active.value || (c in g.chain && Live(s, c)))
             && (forall c :: c in g.chain && Live(s, c) ==> c in g.snaps && g'.snaps[c] == g.snaps[c])
             && SnapPages(g', s.active.value) <= Used(g)
    ensures var s' := SwitchRead(s);
            var g' := Switched(s, g);
            MemSafe(s', g', s'.txns[s'.readTxn].mem, ReadId(s'))
            && Reserved(s', g', s'.nextTxn.value, s'.txns[s'.readTxn].mem)
  {
    var a := s.active.value;
    var g' := Switched(s, g);
    assert forall c :: c in g.chain && Live(s, c) ==> SnapPages(g', c) == SnapPages(g, c);
    forall e | e in Entries(Me(s).mem)
      ensures e.page !in g'.chain && e.page !in SnapPages(g', a)
    {
      assert IsFree(Me(s).mem, e.page);
    }
  }

  lemma {:induction false} SwitchKeeps(s: Db, g: View)
    requires Inv(s, g) && s.active.Some? && Prepared(s)
    ensures Writing(s) && 0 <= OldestIndex(s, g) < |g.chain|
    ensures Inv(SwitchRead(s), Switched(s, g)) && Kept(s, g, SwitchRead(s), Switched(s, g))
  {
    OldestInChain(s, g);
    SealedParts(s, g);
    hide MemSafe, ChainOk, SlotsOk, Reserved, SnapOk, Active, Committed, PreparedOk;
    SwitchMembers(s, g);
    SwitchChain(s, g);
    SwitchSnaps(s, g);
    SwitchMem(s, g);
    SwitchInv(s, g);
  }

  lemma {:induction false} SealedParts(s: Db, g: View)
    requires Sealing(s, g)
    ensures SlotsOk(SwitchRead(s))
    ensures forall c :: c in g.chain && Live(s, c) ==> c in g.snaps && SnapPages(g, c) <= s.nodes.Keys
    ensures s.nextTxn.Some? && Continues(s, s.nextTxn.value, Me(s))
  {
    forall c | c in g.chain && Live(s, c)
      ensures c in g.snaps && SnapPages(g, c) <= s.nodes.Keys
    {
      assert SnapOk(s, g, c);
    }
  }

  lemma {:induction false} SwitchInv(s: Db, g: View)
    requires Writing(s) && 0 <= OldestIndex(s, g) < |g.chain| && s.preparedTxn == s.active.value
    requires s.nextTxn.Some? && Continues(s, s.nextTxn.value, Me(s))
    requires var s' := SwitchRead(s);
             var g' := Switched(s, g);
             && SlotsOk(s') && ChainOk(s', g')
             && (forall c :: c in g'.chain ==> c in s.txns && SnapOk(s', g', c))
             && MemSafe(s', g', s'.txns[s'.readTxn].mem, ReadId(s'))
             && Reserved(s', g', s'.nextTxn.value, s'.txns[s'.readTxn].mem)
             && (forall c :: c in g.chain && Live(s, c) ==>
                   c in g'.chain && c in g.snaps && c in g'.snaps && g'.snaps[c] == g.snaps[c]
                   && SnapPages(g, c) <= s.nodes.Keys)
    ensures Inv(SwitchRead(s), Switched(s, g)) && Kept(s, g, SwitchRead(s), Switched(s, g))
  {
    hide MemSafe, ChainOk, SlotsOk, Reserved, SnapOk;
    assert Committed(SwitchRead(s), Switched(s, g));
    assert Idle(SwitchRead(s), Switched(s, g));
  }

  lemma {:induction false} CommitKeeps(s: Db, g: View, cursor: nat)
    requires Inv(s, g) && s.active.Some? && s.cursor == cursor && g.hole.None?
    ensures var s1 := PrepareCommit(s, cursor);
            && Writing(s1) && 0 <= OldestIndex(s1, g) < |g.chain|
            && Inv(Commit(s, cursor), Switched(s1, g)) && Kept(s, g, Commit(s, cursor), Switched(s1, g))
  {
    var s1 := PrepareCommit(s, cursor);
    hide Committed, Active, Idle, PreparedOk, Kept, MemSafe;
    if Prepared(s) {
      assert s1 == s;
      SwitchKeeps(s, g);
    } else {
      PrepareKeeps(s, g, cursor);
      SwitchKeeps(s1, g);
      KeptTwice(s, s1, Commit(s, cursor), g, g, Switched(s1, g));
    }
  }

  // ----- rollback

  ghost function Dropped(g: View): View {
    g.(main := None, hole := None, loose := {})
  }

  lemma {:induction false} RollbackParts(s: Db, g: View, cursor: nat)
    requires Committed(s, g) && Active(s, g) && s.cursor == cursor
    ensures var s' := Rollback(s, cursor);
            && s.active.value !in g.chain && s.readTxn in g.chain
            && s'.txns == s.txns[s.active.value := s.txns[s.readTxn].(refs := 0)]
            && (forall c :: c in g.chain ==> c in s.txns && s'.txns[c] == s.txns[c])
            && Reserved(s', Dropped(g), s.active.value, s.txns[s.readTxn].mem)
  {
    ReadIsLive(s, g);
    assert forall c :: SnapPages(Dropped(g), c) == SnapPages(g, c);
  }

  lemma {:induction false} SameSnapsKept(s: Db, s': Db, g: View, g': View)
    requires Committed(s, g) && s'.nodes == s.nodes && s'.startId == s.startId
    requires g'.chain == g.chain && g'.snaps == g.snaps
    requires forall c :: c in g.chain && c in s.txns ==> c in s'.txns && s'.txns[c] == s.txns[c]
    ensures Kept(s, g, s', g')
  {
    assert forall c :: c in g.chain && Live(s, c) ==> SnapOk(s, g, c);
  }

  // The page of the transaction turns into a copy of the committed record.
  lemma {:induction false} RollbackKeeps(s: Db, g: View, cursor: nat)
    requires Inv(s, g) && s.active.Some? && s.cursor == cursor
    ensures Inv(Rollback(s, cursor), Dropped(g)) && Kept(s, g, Rollback(s, cursor), Dropped(g))
  {
    hide Committed, Active, PreparedOk, Kept;
    RollbackParts(s, g, cursor);
    var s' := Rollback(s, cursor);
    RolledBackCommitted(s, s', g, s.active.value);
    SameCommitted(s', g, Dropped(g));
    SameSnapsKept(s, s', g, Dropped(g));
  }

  lemma {:induction false} RolledBackCommitted(s: Db, s': Db, g: View, a: PageId)
    requires Committed(s, g) && a !in g.chain && s.readTxn in g.chain && s.readTxn in s.txns
    requires s'.nodes == s.nodes && s'.readTxn == s.readTxn && s'.startId == s.startId
    requires s'.txns == s.txns[a := s.txns[s.readTxn].(refs := 0)]
    ensures Committed(s', g)
  {
    hide SnapOk, MemSafe, ChainOk;
    assert SlotsOk(s');
    assert forall c :: c in g.chain ==> c in s'.txns && s'.txns[c] == s.txns[c] by { ChainRecords(s, g); }
    CommittedFrame(s, s', g);
  }
}
