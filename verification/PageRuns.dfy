// Runs seen page by page: a writer takes pages, writes its own ones and gives pages back, whatever
// tree it takes itself to be working on. What protects the pages of one reader through all of this.

module PageRuns {
  import opened Common
  import opened Memory
  import opened Trees
  import opened Store

  datatype PageOp =
    | Pin
    | PinActive
    | Unpin(txn: PageId)
    | Start(cursor: nat)
    | Prepare(cursor: nat)
    | CommitTxn(cursor: nat)
    | RollbackTxn(cursor: nat)
    | Take(slot: nat, node: Node)                     // alloc_node and the write of its content
    | Give(page: PageId)                              // free_node
    | Overwrite(page: PageId, node: Node)             // a node of the transaction itself, in place
    | RootIs(root: Option<PageId>)

  predicate IsWrite(op: PageOp) {
    op.Take? || op.Give? || op.Overwrite? || op.RootIs?
  }

  // A page is given back once, and only after it was handed out; in place only own pages are written.
  // Writing may go on between prepare_commit and the end of the transaction.
  ghost predicate Allowed(s: Db, op: PageOp) {
    && (IsWrite(op) ==> Writing(s))
    && match op
       case Unpin(c) => c in s.txns && s.txns[c].refs > 0
       case Take(slot, _) => slot < |Me(s).mem.slots|
       case Give(p) => p in s.nodes && p !in s.txns && p < Me(s).mem.frontier && !IsFree(Me(s).mem, p)
       case Overwrite(p, _) => p in s.nodes && !NeedsCow(s, p)
       case _ => true
  }

  function Do(s: Db, op: PageOp): Db
    requires IsWrite(op) ==> Writing(s)
  {
    match op
    case Pin => AddRef(s, s.readTxn)
    case PinActive => if s.active.Some? then AddRef(s, s.active.value) else s
    case Unpin(c) => DropRef(s, c)
    case Start(cursor) => StartTransaction(s, cursor)
    case Prepare(cursor) => PrepareCommit(s, cursor)
    case CommitTxn(cursor) => Commit(s, cursor)
    case RollbackTxn(cursor) => Rollback(s, cursor)
    case Take(slot, node) => NewNode(s, slot, node).0
    case Give(p) => FreePage(s, p, if p in s.nodes then s.nodes[p].slot else 0)
    case Overwrite(p, node) => WriteNode(s, p, if p in s.nodes then s.nodes[p].slot else 0, node)
    case RootIs(root) => SetRoot(s, root)
  }

  // ----- allocator states

  // None of these pages is handed out as long as no transaction newer than top is the oldest in use.
  ghost predicate Guards(m: Mem, pages: set<PageId>, top: nat) {
    && (forall p :: p in pages ==> p < m.frontier)
    && (forall e :: e in Entries(m) && e.page in pages ==> e.freed > top)
  }

  ghost predicate Clear(m: Mem, pages: set<PageId>) {
    && (forall p :: p in pages ==> p < m.frontier)
    && (forall e :: e in Entries(m) ==> e.page !in pages)
  }

  lemma {:induction false} AllocAvoids(m: Mem, slot: nat, start: nat, clear: set<PageId>, guard: set<PageId>, top: nat)
    requires Tidy(m) && Clear(m, clear) && Guards(m, guard, top) && start <= top
    ensures var (m', p) := Alloc(m, slot, start);
      p !in clear && p !in guard && Tidy(m') && Clear(m', clear + {p}) && Guards(m', guard, top)
  {
    AllocTakesOldPage(m, slot, start);
    var (m', p) := Alloc(m, slot, start);
    forall e | e in Entries(m')
      ensures e.page != p
    {
      assert !IsFree(m', p);
    }
  }

  lemma {:induction false} FreeEntries(m: Mem, p: PageId, slot: nat, txn: nat)
    ensures Free(m, p, slot, txn).frontier == m.frontier
    ensures forall e :: e in Entries(Free(m, p, slot, txn)) ==> e in Entries(m) || e == Garbage(p, txn)
  {
    var m' := Free(m, p, slot, txn);
    forall e | e in Entries(m')
      ensures e in Entries(m) || e == Garbage(p, txn)
    {
      var i: nat, j: nat :| i < |m'.slots| && j < |m'.slots[i]| && m'.slots[i][j] == e;
      if Has(m, i, j) {
        assert At(m, i, j) == e;
      }
    }
  }

  lemma {:induction false} FreeKeeps(m: Mem, p: PageId, slot: nat, txn: nat, clear: set<PageId>, guard: set<PageId>, top: nat)
    requires Tidy(m) && !IsFree(m, p) && p < m.frontier && Clear(m, clear) && p !in clear && Guards(m, guard, top) && txn > top
    ensures var m' := Free(m, p, slot, txn); Tidy(m') && Clear(m', clear) && Guards(m', guard, top)
  {
    FreeEntries(m, p, slot, txn);
    if slot < |m.slots| {
      FreeAddsEntry(m, p, slot, txn);
    }
  }

  // ----- one reader

  // A pinned transaction: its root and the pages its lookups visit, as they were when it was pinned.
  datatype Reader = Reader(txn: PageId, id: nat, root: Option<PageId>, keep: Heap)

  // The chain of transactions; k is where the chain of the active transaction begins.
  datatype Watch = Watch(chain: seq<PageId>, k: nat)

  ghost function Members(chain: seq<PageId>): set<PageId> {
    set i | 0 <= i < |chain| :: chain[i]
  }

  ghost predicate ChainIs(s: Db, chain: seq<PageId>) {
    && chain != [] && chain[|chain| - 1] == s.readTxn
    && (forall i :: 0 <= i < |chain| ==>
          chain[0] in s.txns && chain[i] in s.txns && s.txns[chain[i]].id == s.txns[chain[0]].id + i)
    && s.txns[s.readTxn].start == chain[0]
    && (forall i, j :: 0 <= i && j == i + 1 && j < |chain| ==> s.txns[chain[i]].next == Some(chain[j]))
  }

  // The reader's transaction and pages are as they were.
  ghost predicate Intact(s: Db, r: Reader) {
    && r.txn in s.txns && s.txns[r.txn].id == r.id && s.txns[r.txn].root == r.root && s.startId <= r.id
    && (forall p :: p in r.keep ==> p in s.nodes && s.nodes[p] == r.keep[p] && r.keep[p].txn <= r.id)
  }

  ghost predicate MemOk(m: Mem, clear: set<PageId>, guard: set<PageId>, top: nat) {
    Tidy(m) && Clear(m, clear) && Guards(m, guard, top)
  }

  // Nobody writes: both the committed allocator state and that of the next transaction spare the reader.
  ghost predicate Quiet(s: Db, chain: seq<PageId>, r: Reader)
    requires s.readTxn in s.txns
  {
    && s.preparedTxn == s.readTxn && s.nextTxn.Some? && s.nextTxn.value in s.txns && s.nextTxn.value !in chain
    && MemOk(s.txns[s.nextTxn.value].mem, Members(chain) + {s.nextTxn.value}, r.keep.Keys, r.id)
    && MemOk(s.txns[s.readTxn].mem, Members(chain) + {s.nextTxn.value}, r.keep.Keys, r.id)
  }

  // The same for a writer at work whose chain begins at k.
  ghost predicate Busy(s: Db, w: Watch, r: Reader)
    requires Writing(s) && s.readTxn in s.txns
  {
    var x := s.active.value;
    && x !in w.chain && Me(s).id == s.txns[s.readTxn].id + 1
    && w.k < |w.chain| && Me(s).start == w.chain[w.k] && r.txn in w.chain[w.k..]
    && MemOk(Me(s).mem, Members(w.chain[w.k..]) + {x}, r.keep.Keys + Members(w.chain), r.id)
    && MemOk(s.txns[s.readTxn].mem, Members(w.chain) + {x}, r.keep.Keys, r.id)
    && (Prepared(s) ==> PreparedPage(s, w, r))
  }

  // The copy made by prepare_commit spares the reader too, however old it gets.
  ghost predicate PreparedPage(s: Db, w: Watch, r: Reader)
    requires Writing(s) && s.readTxn in s.txns
  {
    && s.preparedTxn == s.active.value && s.nextTxn.Some? && s.nextTxn.value in s.txns
    && s.nextTxn.value != s.active.value && s.nextTxn.value !in w.chain
    && w.k < |w.chain| && Clear(Me(s).mem, {s.nextTxn.value})
    && MemOk(s.txns[s.nextTxn.value].mem, Members(w.chain[w.k..]) + {s.active.value} + {s.nextTxn.value}, r.keep.Keys, r.id)
    && s.txns[s.readTxn].next == s.active
  }

  ghost predicate Shield(s: Db, w: Watch, r: Reader) {
    && ChainIs(s, w.chain) && r.txn in w.chain && Intact(s, r)
    && (s.active.None? ==> Quiet(s, w.chain, r))
    && (s.active.Some? ==> Writing(s) && Busy(s, w, r))
  }

  lemma {:induction false} ChainDistinct(s: Db, chain: seq<PageId>, i: nat, j: nat)
    requires ChainIs(s, chain) && i < j < |chain|
    ensures chain[i] != chain[j]
  {
  }

  lemma {:induction false} ReaderBelow(s: Db, chain: seq<PageId>, r: Reader)
    requires ChainIs(s, chain) && r.txn in chain && Intact(s, r)
    ensures r.id <= s.txns[s.readTxn].id
  {
    var i :| 0 <= i < |chain| && chain[i] == r.txn;
  }

  // ----- readers come and go

  ghost predicate OnlyRefs(s: Db, s': Db, c: PageId) {
    c in s.txns && c in s'.txns && s' == SetTxn(s, c, s.txns[c].(refs := s'.txns[c].refs))
  }

  lemma {:induction false} RefsShield(s: Db, s': Db, c: PageId, w: Watch, r: Reader)
    requires Shield(s, w, r) && OnlyRefs(s, s', c)
    ensures Shield(s', w, r)
  {
    hide Tidy, Clear, Guards;
    assert ChainIs(s', w.chain);
  }

  // ----- writes

  // The pages of transactions no allocation may hand out.
  ghost function Records(s: Db, w: Watch): set<PageId>
    requires Writing(s) && w.k <= |w.chain|
  {
    Members(w.chain[w.k..]) + {s.active.value} + if Prepared(s) && s.nextTxn.Some? then {s.nextTxn.value} else {}
  }

  lemma {:induction false} RecordsClear(s: Db, w: Watch, r: Reader)
    requires Shield(s, w, r) && Writing(s)
    ensures w.k <= |w.chain| && MemOk(Me(s).mem, Records(s, w), r.keep.Keys + Members(w.chain), r.id)
    ensures forall q :: q in Records(s, w) ==> q in s.txns
  {
    hide Tidy, Guards;
    forall q | q in Records(s, w)
      ensures q in s.txns
    {
      if q in Members(w.chain[w.k..]) {
        var i :| 0 <= i < |w.chain[w.k..]| && w.chain[w.k..][i] == q;
        assert w.chain[w.k + i] == q;
      }
    }
  }

  lemma {:induction false} RecordsParts(s: Db, w: Watch, m: Mem)
    requires Writing(s) && w.k <= |w.chain| && Clear(m, Records(s, w))
    ensures Clear(m, Members(w.chain[w.k..]) + {s.active.value})
    ensures Prepared(s) && s.nextTxn.Some? ==> Clear(m, {s.nextTxn.value})
  {
  }

  lemma {:induction false} TakeShield(s: Db, slot: nat, node: Node, w: Watch, r: Reader)
    requires Shield(s, w, r) && Writing(s)
    ensures Shield(NewNode(s, slot, node).0, w, r) && NewNode(s, slot, node).1 !in r.keep
  {
    hide Tidy, Clear, Guards, Records;
    RecordsClear(s, w, r);
    AllocAvoids(Me(s).mem, slot, s.startId, Records(s, w), r.keep.Keys + Members(w.chain), r.id);
    var m := Alloc(Me(s).mem, slot, s.startId).0;
    ClearLess(m, Records(s, w), Alloc(Me(s).mem, slot, s.startId).1);
    RecordsParts(s, w, m);
    var p := AllocPage(s, slot).1;
    var s' := NewNode(s, slot, node).0;
    NextRecorded(s, w);
    forall i | 0 <= i < |w.chain|
      ensures w.chain[i] != p && s'.txns[w.chain[i]] == s.txns[w.chain[i]]
    {
      assert w.chain[i] in Members(w.chain);
    }
    assert ChainIs(s', w.chain);
  }

  lemma {:induction false} NextRecorded(s: Db, w: Watch)
    requires Writing(s) && w.k <= |w.chain|
    ensures s.active.value in Records(s, w) && (Prepared(s) && s.nextTxn.Some? ==> s.nextTxn.value in Records(s, w))
  {
  }

  lemma {:induction false} ClearLess(m: Mem, clear: set<PageId>, p: PageId)
    requires Clear(m, clear + {p})
    ensures Clear(m, clear)
  {
  }

  lemma {:induction false} GiveShield(s: Db, p: PageId, slot: nat, w: Watch, r: Reader)
    requires Shield(s, w, r) && Writing(s) && p !in s.txns && p < Me(s).mem.frontier && !IsFree(Me(s).mem, p)
    ensures Shield(FreePage(s, p, slot), w, r)
  {
    hide Tidy, Clear, Guards, Records;
    ReaderBelow(s, w.chain, r);
    RecordsClear(s, w, r);
    FreeKeeps(Me(s).mem, p, slot, Me(s).id, Records(s, w), r.keep.Keys + Members(w.chain), r.id);
    RecordsParts(s, w, Free(Me(s).mem, p, slot, Me(s).id));
    assert ChainIs(FreePage(s, p, slot), w.chain);
  }

  lemma {:induction false} OverwriteShield(s: Db, p: PageId, slot: nat, node: Node, w: Watch, r: Reader)
    requires Shield(s, w, r) && Writing(s) && p in s.nodes && !NeedsCow(s, p)
    ensures Shield(WriteNode(s, p, slot, node), w, r)
  {
    hide Tidy, Clear, Guards;
    ReaderBelow(s, w.chain, r);
    assert p !in r.keep;
    assert ChainIs(WriteNode(s, p, slot, node), w.chain);
  }

  lemma {:induction false} RootShield(s: Db, root: Option<PageId>, w: Watch, r: Reader)
    requires Shield(s, w, r) && Writing(s)
    ensures Shield(SetRoot(s, root), w, r)
  {
    hide Tidy, Clear, Guards;
    assert r.txn in w.chain;
    assert ChainIs(SetRoot(s, root), w.chain);
  }

  // ----- start_transaction

  // The walk has reached member j; what lies before it is given back.
  ghost predicate Walking(s: Db, chain: seq<PageId>, r: Reader, j: nat) {
    && Writing(s) && !Prepared(s) && ChainIs(s, chain) && Intact(s, r) && s.txns[r.txn].refs > 0
    && s.active.value !in chain && Me(s).id == s.txns[s.readTxn].id + 1
    && j < |chain| && r.txn in chain[j..]
    && MemOk(Me(s).mem, Members(chain[j..]) + {s.active.value}, r.keep.Keys + Members(chain), r.id)
    && MemOk(s.txns[s.readTxn].mem, Members(chain) + {s.active.value}, r.keep.Keys, r.id)
  }

  lemma {:induction false} WalkGoes(s: Db, chain: seq<PageId>, r: Reader, j: nat)
    requires Walking(s, chain, r, j) && s.txns[chain[j]].refs == 0 && chain[j] != s.readTxn
    ensures j + 1 < |chain| && s.txns[chain[j]].next == Some(chain[j + 1])
    ensures Walking(FreePage(s, chain[j], s.txns[chain[j]].slot), chain, r, j + 1)
  {
    hide Tidy, Guards;
    var x, c := s.active.value, chain[j];
    ReaderBelow(s, chain, r);
    var rest := Members(chain[j + 1..]) + {x};
    assert chain[j..][0] == c && chain[j..][1..] == chain[j + 1..];
    MembersTail(chain, j);
    var tail := chain[j + 1..];
    forall i | 0 <= i < |tail|
      ensures tail[i] != c
    {
      ChainDistinct(s, chain, j, j + 1 + i);
    }
    NotFree(Me(s).mem, Members(chain[j..]) + {x}, c);
    FreeKeeps(Me(s).mem, c, s.txns[c].slot, Me(s).id, rest, r.keep.Keys + Members(chain), r.id);
    assert ChainIs(FreePage(s, c, s.txns[c].slot), chain);
  }

  lemma {:induction false} NotFree(m: Mem, clear: set<PageId>, p: PageId)
    requires Clear(m, clear) && p in clear
    ensures !IsFree(m, p) && p < m.frontier
  {
  }

  lemma {:induction false} MembersTail(chain: seq<PageId>, j: nat)
    requires j < |chain|
    ensures Members(chain[j..]) == {chain[j]} + Members(chain[j + 1..])
  {
    assert chain[j..][0] == chain[j];
    var all, tail := chain[j..], chain[j + 1..];
    forall i | 0 <= i < |tail|
      ensures tail[i] in Members(all)
    {
      assert all[i + 1] == tail[i];
    }
    forall i | 0 <= i < |all|
      ensures all[i] in {chain[j]} + Members(tail)
    {
      if i > 0 { assert tail[i - 1] == all[i]; }
    }
  }

  lemma {:induction false} WalkStops(s: Db, chain: seq<PageId>, r: Reader, j: nat)
    requires Walking(s, chain, r, j)
    ensures Shield(SetTxn(s, s.active.value, Me(s).(start := chain[j])).(startId := s.txns[chain[j]].id), Watch(chain, j), r)
    ensures s.txns[chain[j]].id <= r.id
  {
    hide Tidy, Guards, Clear;
    var i :| 0 <= i < |chain[j..]| && chain[j..][i] == r.txn;
    assert chain[j + i] == r.txn;
    var s' := SetTxn(s, s.active.value, Me(s).(start := chain[j])).(startId := s.txns[chain[j]].id);
    assert ChainIs(s', chain);
  }

  // The walk stops at the reader's transaction at the latest.
  lemma {:induction false} CollectShield(s: Db, chain: seq<PageId>, r: Reader, j: nat, fuel: nat) returns (k: nat)
    requires Walking(s, chain, r, j) && fuel >= |chain| - 1 - j
    ensures Shield(Collect(s, chain[j], s.readTxn, fuel), Watch(chain, k), r)
    decreases fuel
  {
    hide Walking, Shield;
    assert Walking(s, chain, r, j);
    WalkFacts(s, chain, r, j);
    var c := chain[j];
    if c == s.readTxn || s.txns[c].refs > 0 {
      k := j;
      WalkStops(s, chain, r, j);
    } else {
      WalkGoes(s, chain, r, j);
      k := CollectShield(FreePage(s, c, s.txns[c].slot), chain, r, j + 1, fuel - 1);
    }
  }

  lemma {:induction false} WalkFacts(s: Db, chain: seq<PageId>, r: Reader, j: nat)
    requires Walking(s, chain, r, j)
    ensures Writing(s) && j < |chain| && chain[j] in s.txns && s.readTxn == chain[|chain| - 1]
    ensures j + 1 == |chain| ==> chain[j] == s.readTxn
  {
  }

  function Begun(s: Db, cursor: nat): Db
    requires s.nextTxn.Some? && s.nextTxn.value in s.txns && s.readTxn in s.txns
  {
    var a := s.nextTxn.value;
    s.(active := Some(a), nextTxn := None, cursor := cursor,
       txns := s.txns[a := s.txns[a].(id := s.txns[s.readTxn].id + 1, next := None)])
  }

  lemma {:induction false} BegunWalks(s: Db, cursor: nat, w: Watch, r: Reader)
    requires Shield(s, w, r) && s.active.None? && s.txns[r.txn].refs > 0
    ensures s.nextTxn.Some? && s.nextTxn.value in s.txns && s.readTxn in s.txns
    ensures Walking(Begun(s, cursor), w.chain, r, 0)
  {
    hide Tidy, Clear, Guards;
    var a, chain := s.nextTxn.value, w.chain;
    assert chain[0..] == chain;
    GuardMembers(s.txns[a].mem, Members(chain) + {a}, r.keep.Keys, Members(chain), r.id);
    assert ChainIs(Begun(s, cursor), chain);
  }

  lemma {:induction false} ChainLengthIs(s: Db, chain: seq<PageId>)
    requires ChainIs(s, chain)
    ensures ChainLength(s) == |chain| - 1 && s.readTxn in s.txns && s.txns[s.readTxn].start == chain[0]
  {
  }

  lemma {:induction false} StartShield(s: Db, cursor: nat, w: Watch, r: Reader) returns (w': Watch)
    requires Shield(s, w, r) && s.active.None? && s.txns[r.txn].refs > 0
    ensures Shield(StartTransaction(s, cursor), w', r) && StartTransaction(s, cursor).active == s.nextTxn
  {
    hide Shield, Walking, Collect, ChainLength;
    BegunWalks(s, cursor, w, r);
    assert ChainIs(s, w.chain) by { ShieldChain(s, w, r); }
    ChainLengthIs(s, w.chain);
    var k := CollectShield(Begun(s, cursor), w.chain, r, 0, ChainLength(s));
    CollectActive(Begun(s, cursor), w.chain[0], s.readTxn, ChainLength(s));
    w' := Watch(w.chain, k);
  }

  lemma {:induction false} ShieldChain(s: Db, w: Watch, r: Reader)
    requires Shield(s, w, r)
    ensures ChainIs(s, w.chain)
  {
  }

  lemma {:induction false} CollectActive(s: Db, c: PageId, last: PageId, fuel: nat)
    requires Writing(s)
    ensures Collect(s, c, last, fuel).active == s.active
    decreases fuel
  {
    if c in s.txns && c != last && s.txns[c].refs == 0 && fuel > 0 && s.txns[c].next.Some? {
      CollectActive(FreePage(s, c, s.txns[c].slot), s.txns[c].next.value, last, fuel - 1);
    }
  }

  lemma {:induction false} GuardMembers(m: Mem, clear: set<PageId>, guard: set<PageId>, more: set<PageId>, top: nat)
    requires Clear(m, clear) && Guards(m, guard, top) && more <= clear
    ensures Guards(m, guard + more, top)
  {
  }

  lemma {:induction false} GuardsLess(m: Mem, guard: set<PageId>, more: set<PageId>, top: nat)
    requires Guards(m, guard + more, top)
    ensures Guards(m, guard, top)
  {
  }

  // ----- prepare_commit, commit and rollback

  // The page for the next transaction is none of the pages that matter.
  lemma {:induction false} CloneAvoids(s: Db, w: Watch, r: Reader)
    requires Shield(s, w, r) && Writing(s) && !Prepared(s)
    ensures var (m, n) := Alloc(Me(s).mem, Me(s).slot, s.startId);
      && n !in w.chain && n !in r.keep && n != s.active.value && n !in Members(w.chain)
      && MemOk(m, Members(w.chain[w.k..]) + {s.active.value}, r.keep.Keys + Members(w.chain), r.id) && Clear(m, {n})
      && MemOk(m, Members(w.chain[w.k..]) + {s.active.value} + {n}, r.keep.Keys, r.id)
  {
    hide Tidy, Clear, Guards;
    var clear := Members(w.chain[w.k..]) + {s.active.value};
    AllocAvoids(Me(s).mem, Me(s).slot, s.startId, clear, r.keep.Keys + Members(w.chain), r.id);
    var (m, n) := Alloc(Me(s).mem, Me(s).slot, s.startId);
    ClearLess(m, clear, n);
    ClearOnly(m, clear, n);
    GuardsLess(m, r.keep.Keys, Members(w.chain), r.id);
    forall i | 0 <= i < |w.chain|
      ensures w.chain[i] != n
    {
      assert w.chain[i] in Members(w.chain);
    }
  }

  lemma {:induction false} PreparedChain(s: Db, chain: seq<PageId>, n: PageId, s': Db)
    requires ChainIs(s, chain) && n !in chain && s'.readTxn == s.readTxn
    requires forall c :: c in chain ==> c in s'.txns && s'.txns[c] == if c == s.readTxn then s.txns[c].(next := s.active) else s.txns[c]
    ensures ChainIs(s', chain)
  {
    forall i, j | 0 <= i && j == i + 1 && j < |chain|
      ensures s'.txns[chain[i]].next == Some(chain[j])
    {
      ChainDistinct(s, chain, i, |chain| - 1);
      assert chain[i] in chain;
    }
  }

  lemma {:induction false} PrepareShield(s: Db, cursor: nat, w: Watch, r: Reader)
    requires Shield(s, w, r) && s.active.Some? && s.cursor == cursor
    ensures var s' := PrepareCommit(s, cursor); Shield(s', w, r) && Prepared(s') && s'.active == s.active && s'.cursor == cursor
  {
    hide MemOk, Alloc, ChainIs, Clear;
    if !Prepared(s) {
      CloneAvoids(s, w, r);
      var (m, n) := Alloc(Me(s).mem, Me(s).slot, s.startId);
      var s' := PrepareCommit(s, cursor);
      HasRead(s, w.chain);
      PreparedChain(s, w.chain, n, s');
      assert s'.txns[n].mem == m && Me(s').mem == m;
      ReaderKept(s, s', w, r, n);
    }
  }

  lemma {:induction false} HasRead(s: Db, chain: seq<PageId>)
    requires ChainIs(s, chain)
    ensures s.readTxn in chain && forall c :: c in chain ==> c in s.txns
  {
  }

  lemma {:induction false} ClearOnly(m: Mem, clear: set<PageId>, p: PageId)
    requires Clear(m, clear + {p})
    ensures Clear(m, {p})
  {
  }

  lemma {:induction false} ReaderKept(s: Db, s': Db, w: Watch, r: Reader, n: PageId)
    requires Shield(s, w, r) && n !in w.chain && n !in r.keep
    requires s'.nodes == s.nodes - {n} && s'.startId == s.startId && r.txn in s'.txns
    requires s'.txns[r.txn].id == s.txns[r.txn].id && s'.txns[r.txn].root == s.txns[r.txn].root
    ensures Intact(s', r)
  {
  }

  lemma {:induction false} MembersLast(chain: seq<PageId>, x: PageId)
    ensures Members(chain + [x]) == Members(chain) + {x}
  {
    assert (chain + [x])[|chain|] == x;
    forall i | 0 <= i < |chain|
      ensures chain[i] in Members(chain + [x])
    {
      assert (chain + [x])[i] == chain[i];
    }
  }

  // The chain of the committed transaction: what is left of the old one, and itself.
  lemma {:induction false} EndChain(s: Db, chain: seq<PageId>, k: nat)
    requires Writing(s) && ChainIs(s, chain) && k < |chain| && s.active.value !in chain && s.txns[s.readTxn].next == s.active
    requires Me(s).id == s.txns[s.readTxn].id + 1 && Me(s).start == chain[k]
    ensures ChainIs(EndTransaction(s.(readTxn := s.active.value)), chain[k..] + [s.active.value])
  {
    var x, rest := s.active.value, chain[k..];
    var all := rest + [x];
    var s' := EndTransaction(s.(readTxn := x));
    assert forall i :: 0 <= i < |rest| ==> rest[i] == chain[k + i];
    forall i, j | 0 <= i && j == i + 1 && j < |all|
      ensures s'.txns[all[i]].next == Some(all[j])
    {
      if j < |rest| {
        assert all[i] == chain[k + i] && all[j] == chain[k + i + 1];
      }
    }
    assert all[0] == chain[k];
  }

  lemma {:induction false} EndMem(s: Db, w: Watch, r: Reader, rest: seq<PageId>)
    requires Writing(s) && s.readTxn in s.txns && Busy(s, w, r) && Prepared(s) && rest == w.chain[w.k..]
    ensures s.nextTxn.Some? && s.nextTxn.value in s.txns && s.active.value !in w.chain && s.nextTxn.value !in rest + [s.active.value]
    ensures MemOk(Me(s).mem, Members(rest + [s.active.value]) + {s.nextTxn.value}, r.keep.Keys, r.id)
    ensures MemOk(s.txns[s.nextTxn.value].mem, Members(rest + [s.active.value]) + {s.nextTxn.value}, r.keep.Keys, r.id)
  {
    hide Tidy, Guards, Members;
    var x, n := s.active.value, s.nextTxn.value;
    MembersLast(rest, x);
    assert Clear(Me(s).mem, Members(rest) + {x} + {n});
    GuardsLess(Me(s).mem, r.keep.Keys, Members(w.chain), r.id);
    assert forall i :: 0 <= i < |rest| ==> rest[i] == w.chain[w.k + i];
  }

  lemma {:induction false} EndShield(s: Db, w: Watch, r: Reader) returns (w': Watch)
    requires Shield(s, w, r) && Writing(s) && Prepared(s)
    ensures Shield(EndTransaction(s.(readTxn := s.preparedTxn)), w', r)
  {
    hide ChainIs, MemOk, Members;
    var x, rest := s.active.value, w.chain[w.k..];
    ShieldFacts(s, w, r);
    EndChain(s, w.chain, w.k);
    EndMem(s, w, r, rest);
    assert r.txn in rest + [x];
    w' := Watch(rest + [x], 0);
  }

  lemma {:induction false} ShieldFacts(s: Db, w: Watch, r: Reader)
    requires Shield(s, w, r) && Writing(s)
    ensures ChainIs(s, w.chain) && s.readTxn in s.txns && s.active.Some? && w.k < |w.chain|
  {
  }

  lemma {:induction false} CommitShield(s: Db, cursor: nat, w: Watch, r: Reader) returns (w': Watch)
    requires Shield(s, w, r) && s.active.Some? && s.cursor == cursor
    ensures Shield(Commit(s, cursor), w', r)
  {
    hide Shield;
    PrepareShield(s, cursor, w, r);
    var s1 := PrepareCommit(s, cursor);
    ShieldWrites(s1, w, r);
    w' := EndShield(s1, w, r);
  }

  lemma {:induction false} ShieldWrites(s: Db, w: Watch, r: Reader)
    requires Shield(s, w, r) && s.active.Some?
    ensures Writing(s)
  {
  }

  lemma {:induction false} RollbackShield(s: Db, cursor: nat, w: Watch, r: Reader)
    requires Shield(s, w, r) && s.active.Some? && s.cursor == cursor
    ensures Shield(Rollback(s, cursor), w, r)
  {
    hide Tidy, Clear, Guards;
    assert ChainIs(Rollback(s, cursor), w.chain);
  }

  // ----- runs

  lemma {:induction false} StepShields(s: Db, op: PageOp, w: Watch, r: Reader) returns (w': Watch)
    requires Shield(s, w, r) && Allowed(s, op) && s.txns[r.txn].refs > 0
    ensures Shield(Do(s, op), w', r)
  {
    hide Shield;
    w' := w;
    match op {
      case Pin => ChainHasRead(s, w, r); RefsShield(s, Do(s, op), s.readTxn, w, r);
      case PinActive => if s.active.Some? { ShieldWrites(s, w, r); RefsShield(s, Do(s, op), s.active.value, w, r); }
      case Unpin(c) => RefsShield(s, Do(s, op), c, w, r);
      case Start(cursor) => if s.active.None? { w' := StartShield(s, cursor, w, r); }
      case Prepare(cursor) => if s.active.Some? && s.cursor == cursor { PrepareShield(s, cursor, w, r); }
      case CommitTxn(cursor) => if s.active.Some? && s.cursor == cursor { w' := CommitShield(s, cursor, w, r); }
      case RollbackTxn(cursor) => if s.active.Some? && s.cursor == cursor { RollbackShield(s, cursor, w, r); }
      case Take(slot, node) => TakeShield(s, slot, node, w, r);
      case Give(p) => GiveShield(s, p, s.nodes[p].slot, w, r);
      case Overwrite(p, node) => OverwriteShield(s, p, s.nodes[p].slot, node, w, r);
      case RootIs(root) => RootShield(s, root, w, r);
    }
  }

  lemma {:induction false} ChainHasRead(s: Db, w: Watch, r: Reader)
    requires Shield(s, w, r)
    ensures s.readTxn in s.txns && r.txn in s.txns
  {
  }

  ghost predicate Run(ss: seq<Db>, ops: seq<PageOp>) {
    |ss| == |ops| + 1 && forall i :: 0 <= i < |ops| ==> StepAt(ss, ops, i)
  }

  ghost predicate StepAt(ss: seq<Db>, ops: seq<PageOp>, i: nat)
    requires |ss| == |ops| + 1 && i < |ops|
  {
    Allowed(ss[i], ops[i]) && ss[i + 1] == Do(ss[i], ops[i])
  }

  ghost predicate ReadThroughout(ss: seq<Db>, c: PageId) {
    forall i :: 0 <= i < |ss| ==> c in ss[i].txns && ss[i].txns[c].refs > 0
  }

  lemma {:induction false} RunShields(ss: seq<Db>, ops: seq<PageOp>, w: Watch, r: Reader, i: nat) returns (w': Watch)
    requires Run(ss, ops) && i < |ss| && Shield(ss[0], w, r) && ReadThroughout(ss, r.txn)
    ensures Shield(ss[i], w', r)
  {
    hide Shield;
    w' := w;
    if i > 0 {
      var v := RunShields(ss, ops, w, r, i - 1);
      assert StepAt(ss, ops, i - 1);
      w' := StepShields(ss[i - 1], ops[i - 1], v, r);
    }
  }
}
