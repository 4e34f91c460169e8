// A writer that goes on editing between prepare_commit and commit: everything Inv says stays true,
// except that the page kept for the next transaction is still the copy prepare_commit made.

module AfterPrepare {
  import opened Common
  import opened Memory
  import opened Trees
  import opened Store
  import opened Invariants
  import opened WriterSteps
  import opened Edits
  import opened TxnSteps
  import opened Snapshots

  // ----- what became of the allocator state that was copied

  // The queue q goes on from q0: its front may have been handed out, new pages were appended.
  ghost predicate GoesOn(q0: seq<Garbage>, q: seq<Garbage>, start: nat) {
    exists d: nat :: d <= |q0| && q0[d..] <= q && PoppedBefore(q0, d, start)
  }

  ghost predicate PoppedBefore(q0: seq<Garbage>, d: nat, start: nat)
    requires d <= |q0|
  {
    forall i :: 0 <= i < d ==> q0[i].freed < start
  }

  ghost predicate Descends(m0: Mem, m: Mem, start: nat) {
    && |m.slots| == |m0.slots| && m0.frontier <= m.frontier
    && forall i :: 0 <= i < |m0.slots| ==> GoesOn(m0.slots[i], m.slots[i], start)
  }

  lemma {:induction false} DescendsSelf(m: Mem, start: nat)
    ensures Descends(m, m, start)
  {
    forall i | 0 <= i < |m.slots|
      ensures GoesOn(m.slots[i], m.slots[i], start)
    {
      assert m.slots[i][0..] <= m.slots[i] && PoppedBefore(m.slots[i], 0, start);
    }
  }

  lemma {:induction false} DescendsAlloc(m0: Mem, m: Mem, slot: nat, start: nat)
    requires Descends(m0, m, start)
    ensures Descends(m0, Alloc(m, slot, start).0, start)
  {
    var m' := Alloc(m, slot, start).0;
    forall i | 0 <= i < |m0.slots|
      ensures GoesOn(m0.slots[i], m'.slots[i], start)
    {
      var q0, q := m0.slots[i], m.slots[i];
      assert GoesOn(q0, q, start);
      var d: nat :| d <= |q0| && q0[d..] <= q && PoppedBefore(q0, d, start);
      if MayPop(m, slot, start) && i == slot {
        if d < |q0| {
          assert q0[d..][0] == q[0] && q0[d + 1..] == q0[d..][1..];
          assert q0[d + 1..] <= q[1..] && PoppedBefore(q0, d + 1, start);
        } else {
          assert q0[d..] <= q[1..];
        }
      }
    }
  }

  lemma {:induction false} DescendsFree(m0: Mem, m: Mem, p: PageId, slot: nat, txn: nat, start: nat)
    requires Descends(m0, m, start)
    ensures Descends(m0, Free(m, p, slot, txn), start)
  {
    var m' := Free(m, p, slot, txn);
    forall i | 0 <= i < |m0.slots|
      ensures GoesOn(m0.slots[i], m'.slots[i], start)
    {
      var q0, q := m0.slots[i], m.slots[i];
      assert GoesOn(q0, q, start);
      var d: nat :| d <= |q0| && q0[d..] <= q && PoppedBefore(q0, d, start);
      assert q0[d..] <= m'.slots[i];
    }
  }

  // ----- what edits leave alone

  // The records an edit does not touch: that of the next transaction and that of the committed one.
  datatype Frozen = Frozen(next: PageId, nextTxn: Txn, read: PageId, readTxn: Txn, active: PageId, id: nat, slot: nat, start: PageId,
                           startId: nat)

  ghost predicate Sparing(s: Db, f: Frozen) {
    && s.active == Some(f.active) && Writing(s) && s.nextTxn == Some(f.next) && s.readTxn == f.read && s.startId == f.startId
    && Me(s).id == f.id && Me(s).slot == f.slot && Me(s).start == f.start
    && f.next in s.txns && s.txns[f.next] == f.nextTxn && f.next !in s.nodes && f.next != f.active && f.next != f.read
    && f.read in s.txns && s.txns[f.read] == f.readTxn && f.read != f.active
    && MemSpares(Me(s).mem, f) && f.startId <= f.id
  }

  ghost predicate MemSpares(m: Mem, f: Frozen) {
    && f.next < m.frontier && !IsFree(m, f.next)
    && f.read < m.frontier && (forall e :: e in Entries(m) && e.page == f.read ==> e.freed >= f.startId)
    && f.active < m.frontier && (forall e :: e in Entries(m) && e.page == f.active ==> e.freed >= f.startId)
    && Descends(f.nextTxn.mem, m, f.startId)
  }

  lemma {:induction false} AllocMemSpares(m: Mem, slot: nat, f: Frozen)
    requires MemSpares(m, f)
    ensures MemSpares(Alloc(m, slot, f.startId).0, f)
    ensures var p := Alloc(m, slot, f.startId).1; p != f.next && p != f.read && p != f.active
  {
    hide Descends;
    DescendsAlloc(f.nextTxn.mem, m, slot, f.startId);
    var (m', p) := Alloc(m, slot, f.startId);
    if MayPop(m, slot, f.startId) {
      assert Has(m, slot, 0) && At(m, slot, 0) in Entries(m);
    }
    AllocEntries(m, slot, f.startId);
    assert IsFree(m', f.next) ==> IsFree(m, f.next);
  }

  lemma {:induction false} AllocEntries(m: Mem, slot: nat, start: nat)
    ensures Entries(Alloc(m, slot, start).0) <= Entries(m) && Alloc(m, slot, start).0.frontier >= m.frontier
  {
    var m' := Alloc(m, slot, start).0;
    forall e | e in Entries(m')
      ensures e in Entries(m)
    {
      var i: nat, j: nat :| i < |m'.slots| && j < |m'.slots[i]| && m'.slots[i][j] == e;
      var k := if MayPop(m, slot, start) && i == slot then j + 1 else j;
      assert Has(m, i, k) && At(m, i, k) == e;
    }
  }

  lemma {:induction false} FreeMemSpares(m: Mem, p: PageId, slot: nat, f: Frozen)
    requires MemSpares(m, f) && p != f.next && f.startId <= f.id
    ensures MemSpares(Free(m, p, slot, f.id), f)
  {
    hide Descends;
    DescendsFree(f.nextTxn.mem, m, p, slot, f.id, f.startId);
    var m' := Free(m, p, slot, f.id);
    forall e | e in Entries(m')
      ensures e in Entries(m) || e == Garbage(p, f.id)
    {
      var i: nat, j: nat :| i < |m'.slots| && j < |m'.slots[i]| && m'.slots[i][j] == e;
      if Has(m, i, j) {
        assert At(m, i, j) == e;
      }
    }
    assert IsFree(m', f.next) ==> IsFree(m, f.next);
  }

  lemma {:induction false} NewNodeSpares(s: Db, slot: nat, node: Node, f: Frozen)
    requires Sparing(s, f)
    ensures Sparing(NewNode(s, slot, node).0, f) && NewNode(s, slot, node).0.preparedTxn == s.preparedTxn
  {
    hide MemSpares;
    AllocMemSpares(Me(s).mem, slot, f);
  }

  lemma {:induction false} FreeSpares(s: Db, p: PageId, slot: nat, f: Frozen)
    requires Sparing(s, f) && p != f.next
    ensures Sparing(FreePage(s, p, slot), f) && FreePage(s, p, slot).preparedTxn == s.preparedTxn
  {
    hide MemSpares;
    FreeMemSpares(Me(s).mem, p, slot, f);
  }

  lemma {:induction false} SetLinkSpares(s: Db, fr: Frame, n: PageId, f: Frozen)
    requires Sparing(s, f)
    ensures Sparing(SetLink(s, fr, n).0, f)
  {
    if fr.page in s.nodes && fr.link < |s.nodes[fr.page].node.kids| {
      var page := s.nodes[fr.page];
      var node := page.node.(kids := page.node.kids[fr.link := n]);
      if NeedsCow(s, fr.page) {
        NewNodeSpares(s, page.slot, node, f);
        FreeSpares(NewNode(s, page.slot, node).0, fr.page, page.slot, f);
      }
    }
  }

  lemma {:induction false} RelinkSpares(s: Db, fs: seq<Frame>, n: PageId, f: Frozen)
    requires Writing(s) && Sparing(s, f)
    ensures Sparing(Relink(s, fs, n).0, f)
    decreases |fs|
  {
    hide Sparing, SetLink;
    if fs != [] {
      RelinkSpares(s, fs[1..], n, f);
      var (s1, c) := Relink(s, fs[1..], n);
      if !(|fs| > 1 && c == fs[1].page) {
        SetLinkSpares(s1, fs[0], c, f);
      }
    }
  }

  lemma {:induction false} RootSpares(s: Db, root: Option<PageId>, f: Frozen)
    requires Sparing(s, f)
    ensures Sparing(SetRoot(s, root), f)
  {
  }

  lemma {:induction false} WriteSpares(s: Db, p: PageId, slot: nat, node: Node, f: Frozen)
    requires Sparing(s, f) && p in s.nodes
    ensures Sparing(WriteNode(s, p, slot, node), f)
  {
  }

  lemma {:induction false} EditSpares(s: Db, g: View, op: Op, f: Frozen)
    requires Sparing(s, f) && IsEdit(op) && Guard(s, g, op)
    ensures Sparing(Apply(s, op), f)
  {
    hide Sparing;
    match op {
      case CutOut(_) =>
      case AllocNode(slot, data, kids) => NewNodeSpares(s, slot, Node(data, Roots(kids)), f);
      case FreeNode(t) => NextIsNoNode(s, f); FreeSpares(s, t.page, SlotOf(s, t.page), f);
      case InsertInPlace(t, data, kids) => WriteSpares(s, t.page, SlotOf(s, t.page), Node(data, Roots(kids)), f);
      case HangIn(fs, t) => RelinkSpares(s, fs, t.page, f); RootSpares(Relink(s, fs, t.page).0, Some(Relink(s, fs, t.page).1), f);
      case Settle(_) =>
      case EmptyRoot => RootSpares(s, None, f);
    }
  }

  lemma {:induction false} RelinkPrepared(s: Db, fs: seq<Frame>, n: PageId)
    requires Writing(s)
    ensures Relink(s, fs, n).0.preparedTxn == s.preparedTxn
    decreases |fs|
  {
    if fs != [] {
      RelinkPrepared(s, fs[1..], n);
    }
  }

  lemma {:induction false} NextIsNoNode(s: Db, f: Frozen)
    requires Sparing(s, f)
    ensures f.next !in s.nodes
  {
  }

  // An entry of the copied state is still queued or was popped.
  lemma {:induction false} StillQueued(m0: Mem, m: Mem, start: nat, e: Garbage)
    requires Descends(m0, m, start) && e in Entries(m0)
    ensures e in Entries(m) || e.freed < start
  {
    var i: nat, j: nat :| i < |m0.slots| && j < |m0.slots[i]| && m0.slots[i][j] == e;
    var q0, q := m0.slots[i], m.slots[i];
    assert GoesOn(q0, q, start);
    var d: nat :| d <= |q0| && q0[d..] <= q && PoppedBefore(q0, d, start);
    if j >= d {
      assert q0[d..][j - d] == e && q[j - d] == e;
      assert m.slots[i][j - d] in Entries(m);
    }
  }

  // ----- edits do not look at preparedTxn

  function Unprepared(s: Db, q: PageId): Db {
    s.(preparedTxn := q)
  }

  lemma {:induction false} SetLinkUnprepared(s: Db, q: PageId, f: Frame, c: PageId)
    requires Writing(s)
    ensures SetLink(Unprepared(s, q), f, c) == (Unprepared(SetLink(s, f, c).0, q), SetLink(s, f, c).1)
  {
  }

  lemma {:induction false} RelinkUnprepared(s: Db, q: PageId, fs: seq<Frame>, n: PageId)
    requires Writing(s)
    ensures Relink(Unprepared(s, q), fs, n) == (Unprepared(Relink(s, fs, n).0, q), Relink(s, fs, n).1)
    decreases |fs|
  {
    hide SetLink;
    if fs != [] {
      RelinkUnprepared(s, q, fs[1..], n);
      SetLinkUnprepared(Relink(s, fs[1..], n).0, q, fs[0], Relink(s, fs[1..], n).1);
    }
  }

  lemma {:induction false} RebuiltUnprepared(s: Db, q: PageId, t: Tree, fs: seq<Frame>, n: Tree)
    requires Writing(s) && Path(t, fs)
    ensures Rebuilt(Unprepared(s, q), t, fs, n) == Rebuilt(s, t, fs, n)
    decreases |fs|
  {
    if fs != [] {
      RelinkUnprepared(s, q, fs, n.page);
      RebuiltUnprepared(s, q, t.kids[fs[0].link], fs[1..], n);
    }
  }

  lemma {:induction false} EditUnprepared(s: Db, g: View, op: Op, q: PageId)
    requires IsEdit(op) && Guard(s, g, op)
    ensures Guard(Unprepared(s, q), g, op) && Apply(Unprepared(s, q), op) == Unprepared(Apply(s, op), q)
    ensures Track(Unprepared(s, q), g, op) == Track(s, g, op)
  {
    hide Relink, Rebuilt;
    match op {
      case HangIn(fs, t) =>
        RelinkUnprepared(s, q, fs, t.page);
        if g.main.Some? && Path(g.main.value, fs) {
          RebuiltUnprepared(s, q, g.main.value, fs, t);
        }
      case _ =>
    }
  }

  // ----- the invariant between prepare_commit and commit

  // The copy: nothing it can hand out belongs to the committed side, and it is older than the writer's own state.
  ghost predicate CloneOk(s: Db, g: View)
    requires Writing(s)
  {
    && s.nextTxn.Some? && s.nextTxn.value in s.txns && s.nextTxn.value !in s.nodes
    && s.txns[s.nextTxn.value].refs == 0 && s.txns[s.nextTxn.value].slot == Me(s).slot
    && var m0 := s.txns[s.nextTxn.value].mem;
       && MemSafe(s, g, m0, Me(s).id)
       && Reserved(s, g, s.nextTxn.value, m0) && Reserved(s, g, s.active.value, m0)
       && Descends(m0, Me(s).mem, s.startId)
  }

  ghost predicate Awaits(s: Db, g: View) {
    && Committed(s, g) && Active(s, g) && Prepared(s) && s.txns[s.readTxn].next == s.active
    && CloneOk(s, g) && s.nextTxn.value != s.active.value
    && Reserved(s, g, s.nextTxn.value, Me(s).mem) && s.nextTxn.value !in Used(g)
  }

  lemma {:induction false} PreparedAwaits(s: Db, g: View, cursor: nat)
    requires AtWork(s, g) && g.hole.None? && s.cursor == cursor
    ensures Awaits(PrepareCommit(s, cursor), g)
  {
    hide Forest, MemSafe, Reserved, Descends, Committed;
    PrepareKeeps(s, g, cursor);
    var s' := PrepareCommit(s, cursor);
    DescendsSelf(Me(s').mem, s'.startId);
    assert PreparedOk(s', g) && Active(s', g);
    assert s'.nodes == s.nodes - {s'.nextTxn.value};
  }

  function FrozenIn(s: Db): Frozen
    requires Writing(s) && s.nextTxn.Some? && s.nextTxn.value in s.txns && s.readTxn in s.txns
  {
    Frozen(s.nextTxn.value, s.txns[s.nextTxn.value], s.readTxn, s.txns[s.readTxn], s.active.value, Me(s).id, Me(s).slot, Me(s).start, s.startId)
  }

  lemma {:induction false} AwaitsSparing(s: Db, g: View)
    requires Awaits(s, g)
    ensures Sparing(s, FrozenIn(s))
  {
    hide Forest, Descends;
    assert s.readTxn in g.chain;
  }

  lemma {:induction false} UsedInHeap(s: Db, g: View)
    requires Committed(s, g) && Active(s, g)
    ensures HoleOk(g) && Writing(s) && Owning(s, g, Used(g)) && forall p :: p in Used(g) ==> p in s.nodes
  {
  }

  // What the copied state may hand out does not depend on what the writer has done since.
  lemma {:induction false} SameMemSafe(s: Db, s': Db, g: View, g': View, m: Mem, top: nat)
    requires MemSafe(s, g, m, top) && g'.chain == g.chain && g'.snaps == g.snaps && s'.startId == s.startId && ReadId(s') == ReadId(s)
    requires forall c :: c in g.chain ==> c in s.txns && c in s'.txns && s'.txns[c].id == s.txns[c].id
    ensures MemSafe(s', g', m, top)
  {
    hide Tidy;
    assert forall c :: c in g.chain ==> (Live(s', c) <==> Live(s, c)) && SnapPages(g', c) == SnapPages(g, c);
  }

  lemma {:induction false} SameReserved(s: Db, s': Db, g: View, g': View, x: PageId, m: Mem)
    requires Reserved(s, g, x, m) && g'.chain == g.chain && g'.snaps == g.snaps && s'.startId == s.startId && x in s'.txns
    requires forall c :: c in g.chain ==> c in s.txns && c in s'.txns && s'.txns[c].id == s.txns[c].id
    ensures Reserved(s', g', x, m)
  {
  }

  lemma {:induction false} ReservedHere(s: Db, s': Db, g: View, g': View, x: PageId, m: Mem, m': Mem)
    requires Reserved(s', g', x, m) && x < m'.frontier && !IsFree(m', x)
    ensures Reserved(s', g', x, m')
  {
  }

  lemma {:induction false} SparedAwaits(s: Db, s': Db, g: View, g': View)
    requires Awaits(s, g) && Sparing(s', FrozenIn(s)) && s'.preparedTxn == s.preparedTxn
    requires Committed(s', g') && Active(s', g') && g'.chain == g.chain && g'.snaps == g.snaps
    ensures Awaits(s', g')
  {
    hide Active, Forest, Descends, MemSafe, Reserved, SnapOk;
    UsedInHeap(s, g);
    UsedInHeap(s', g');
    var n, a, m0 := s.nextTxn.value, s.active.value, s.txns[s.nextTxn.value].mem;
    ReadInChain(s, g);
    forall c | c in g.chain
      ensures c in s.txns && c in s'.txns && s'.txns[c].id == s.txns[c].id
    {
      SameIds(s, s', g, g', c);
    }
    SameMemSafe(s, s', g, g', m0, Me(s).id);
    SameReserved(s, s', g, g', n, m0);
    SameReserved(s, s', g, g', a, m0);
    SameReserved(s, s', g, g', n, Me(s).mem);
    ReservedHere(s, s', g, g', n, Me(s).mem, Me(s').mem);
  }

  lemma {:induction false} ReadInChain(s: Db, g: View)
    requires ChainOk(s, g)
    ensures s.readTxn in g.chain && s.readTxn in s.txns
  {
  }

  lemma {:induction false} SameIds(s: Db, s': Db, g: View, g': View, c: PageId)
    requires ChainOk(s, g) && ChainOk(s', g') && g'.chain == g.chain && c in g.chain
    requires s'.readTxn == s.readTxn && s'.txns[s.readTxn] == s.txns[s.readTxn]
    ensures c in s.txns && c in s'.txns && s'.txns[c].id == s.txns[c].id
  {
    var i :| 0 <= i < |g.chain| && g.chain[i] == c;
    var n := |g.chain| - 1;
    assert s.txns[g.chain[n]].id == s.txns[g.chain[0]].id + n;
    assert s'.txns[g.chain[n]].id == s'.txns[g.chain[0]].id + n;
  }

  // Editing goes on after prepare_commit without harm to the committed side; only the copy falls behind.
  lemma {:induction false} EditAfterPrepare(s: Db, g: View, op: Op)
    requires Awaits(s, g) && IsEdit(op) && Guard(s, g, op)
    ensures Awaits(Apply(s, op), Track(s, g, op))
  {
    hide Committed, Active, MemSpares, CloneOk, Guard, Apply, Track, Inv;
    UsedInHeap(s, g);
    var q := s.readTxn;
    var s0, s' := Unprepared(s, q), Apply(s, op);
    AwaitsSparing(s, g);
    UnpreparedInv(s, g);
    EditUnprepared(s, g, op, q);
    EditKeeps(s0, g, op);
    EditSpares(s, g, op, FrozenIn(s));
    EditPrepared(s, op);
    SparingActive(s, s', g);
    PreparedInv(Unprepared(s', q), Track(s, g, op), s.preparedTxn);
    TrackKeepsChain(s, g, op);
    assert Unprepared(Unprepared(s', q), s.preparedTxn) == s';
    SparedAwaits(s, s', g, Track(s, g, op));
  }

  lemma {:induction false} CommittedUnprepared(s: Db, g: View, q: PageId)
    requires Committed(s, g)
    ensures Committed(Unprepared(s, q), g)
  {
    hide OptHolds, Tidy;
    forall c | c in g.chain && Live(s, c)
      ensures SnapOk(Unprepared(s, q), g, c)
    {
      assert SnapOk(s, g, c);
    }
  }

  lemma {:induction false} ActiveUnprepared(s: Db, g: View, q: PageId)
    requires Committed(s, g) && Active(s, g) && Committed(Unprepared(s, q), g) && (q == s.readTxn || s.active == Some(q))
    ensures Active(Unprepared(s, q), g)
  {
    hide OptHolds, Tidy, SnapOk, ChainOk, SlotsOk, Apart, AroundHolds;
    assert Forest(Unprepared(s, q), g);
  }

  lemma {:induction false} UnpreparedInv(s: Db, g: View)
    requires Awaits(s, g)
    ensures Inv(Unprepared(s, s.readTxn), g) && s.active.Some?
  {
    hide Committed, Active;
    CommittedUnprepared(s, g, s.readTxn);
    ActiveUnprepared(s, g, s.readTxn);
    ActiveIsSome(s, g);
  }

  lemma {:induction false} ActiveIsSome(s: Db, g: View)
    requires Committed(s, g) && Active(s, g)
    ensures s.active.Some?
  {
  }

  lemma {:induction false} SparingActive(s: Db, s': Db, g: View)
    requires Awaits(s, g) && Sparing(s', FrozenIn(s))
    ensures s'.active == s.active && s'.readTxn == s.readTxn && Writing(s') && s.active == Some(s.preparedTxn)
  {
  }

  lemma {:induction false} EditPrepared(s: Db, op: Op)
    requires IsEdit(op) && Writing(s)
    ensures Apply(s, op).preparedTxn == s.preparedTxn
  {
    if op.HangIn? {
      RelinkPrepared(s, op.path, op.tree.page);
    }
  }

  lemma {:induction false} PreparedInv(s: Db, g: View, q: PageId)
    requires Inv(s, g) && s.active == Some(q) && s.preparedTxn == s.readTxn
    ensures Committed(Unprepared(s, q), g) && Active(Unprepared(s, q), g)
  {
    hide Committed, Active, Idle;
    CommittedUnprepared(s, g, q);
    ActiveUnprepared(s, g, q);
  }

  lemma {:induction false} TrackKeepsChain(s: Db, g: View, op: Op)
    requires IsEdit(op) && Guard(s, g, op)
    ensures Track(s, g, op).chain == g.chain && Track(s, g, op).snaps == g.snaps
  {
  }
}
