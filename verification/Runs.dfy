// Runs of the store: any mixture of readers, one writer at a time, edits on both sides of
// prepare_commit, commits and rollbacks. A transaction that is read keeps its tree and its pages.

module Runs {
  import opened Common
  import opened Memory
  import opened Trees
  import opened Store
  import opened Invariants
  import opened WriterSteps
  import opened Edits
  import opened TxnSteps
  import opened Snapshots
  import opened AfterPrepare

  // What holds between two steps; behind prepare_commit the page kept for the next transaction may be out of date.
  ghost predicate Sound(s: Db, g: View) {
    if Prepared(s) then Awaits(s, g) else Inv(s, g)
  }

  // The copy made by prepare_commit is still what the transaction itself has.
  predicate CopyCurrent(s: Db) {
    Prepared(s) && s.active.Some? && s.active.value in s.txns ==>
      && s.nextTxn.Some? && s.nextTxn.value in s.txns
      && s.txns[s.nextTxn.value].root == s.txns[s.active.value].root && s.txns[s.nextTxn.value].mem == s.txns[s.active.value].mem
  }

  // Nothing is committed with an outdated copy.
  predicate CommitsCurrent(s: Db, op: Op) {
    op.CommitTxn? && s.cursor == op.cursor ==> CopyCurrent(s)
  }

  // ----- steps behind prepare_commit

  lemma {:induction false} SoundCommitted(s: Db, g: View)
    requires Sound(s, g)
    ensures Committed(s, g) && (s.active.Some? ==> Active(s, g)) && (Prepared(s) ==> s.active.Some?)
    ensures s.readTxn in s.txns && (s.active.Some? ==> Writing(s))
  {
    hide Forest, Owning, MemSafe, Reserved, Descends, SnapOk;
  }

  // Counting readers changes nothing else.
  lemma {:induction false} RefsAwaits(s: Db, s': Db, g: View, c: PageId)
    requires Awaits(s, g) && OnlyRefs(s, s', c) && (c in g.chain || s.active == Some(c))
    requires c in g.chain && !Live(s, c) ==> s'.txns[c].refs == 0
    ensures Awaits(s', g) && Kept(s, g, s', g)
  {
    hide MemSafe, Reserved, SnapOk, Descends, Forest, Kept;
    UsedInHeap(s, g);
    RefsCommitted(s, s', g, c);
    RefsOwning(s, s', g, c, Used(g));
    RefsActive(s, s', g, c);
    RefsOthers(s, s', g, c);
    var n, m0 := s.nextTxn.value, s.txns[s.nextTxn.value].mem;
    RefsMem(s, s', g, c, m0, Me(s).id);
    RefsReserved(s, s', g, c, n, m0);
    RefsReserved(s, s', g, c, s.active.value, m0);
    RefsReserved(s, s', g, c, n, Me(s).mem);
    NextOutside(s, g);
  }

  lemma {:induction false} NextOutside(s: Db, g: View)
    requires Awaits(s, g)
    ensures Writing(s) && s.nextTxn.Some? && s.nextTxn.value !in g.chain && s.nextTxn.value != s.active.value && s.active.value !in g.chain
  {
  }

  lemma {:induction false} ReaderAwaits(s: Db, g: View, op: Op)
    requires Awaits(s, g) && Guard(s, g, op) && (op.Pin? || op.PinActive? || op.Unpin?)
    ensures Awaits(Apply(s, op), g) && Kept(s, g, Apply(s, op), g)
  {
    hide Active, Forest, Kept, CloneOk;
    ReadIsLive(s, g);
    NextOutside(s, g);
    match op {
      case Pin => RefsAwaits(s, Apply(s, op), g, s.readTxn);
      case PinActive => RefsAwaits(s, Apply(s, op), g, s.active.value);
      case Unpin(c) => RefsAwaits(s, Apply(s, op), g, c);
      case _ =>
    }
  }

  // What was edited behind prepare_commit goes with the rest of the transaction.
  lemma {:induction false} RollbackAwaits(s: Db, g: View, cursor: nat)
    requires Awaits(s, g) && s.cursor == cursor
    ensures Inv(Rollback(s, cursor), Dropped(g)) && Kept(s, g, Rollback(s, cursor), Dropped(g)) && !Prepared(Rollback(s, cursor))
  {
    hide Awaits, Inv;
    UnpreparedInv(s, g);
    AwaitsFacts(s, g);
    var u := Unprepared(s, s.readTxn);
    RollbackKeeps(u, g, cursor);
    assert Rollback(u, cursor) == Rollback(s, cursor);
    assert Kept(u, g, Rollback(s, cursor), Dropped(g));
  }

  lemma {:induction false} CurrentInv(s: Db, g: View)
    requires Awaits(s, g) && g.hole.None? && CopyCurrent(s)
    ensures Inv(s, g)
  {
    hide MemSafe, Reserved, SnapOk, Descends, Forest;
  }

  lemma {:induction false} EditKeepsRead(s: Db, g: View, op: Op)
    requires Awaits(s, g) && IsEdit(op) && Guard(s, g, op)
    ensures Kept(s, g, Apply(s, op), Track(s, g, op))
  {
    hide Awaits, Inv, Apply, Track, Guard;
    UnpreparedInv(s, g);
    EditUnprepared(s, g, op, s.readTxn);
    EditKeeps(Unprepared(s, s.readTxn), g, op);
  }

  lemma {:induction false} AwaitsStep(s: Db, g: View, op: Op)
    requires Awaits(s, g) && Guard(s, g, op) && CommitsCurrent(s, op)
    ensures Sound(Apply(s, op), Track(s, g, op)) && Kept(s, g, Apply(s, op), Track(s, g, op))
  {
    hide Awaits, Inv, Kept, StartTransaction, Commit, Rollback, Started, Dropped, Switched, OldestIndex, Guard;
    AwaitsFacts(s, g);
    NothingHappened(s, g);
    if IsEdit(op) {
      EditAfterPrepare(s, g, op);
      EditKeepsRead(s, g, op);
      EditStaysPrepared(s, op);
    } else if op.Pin? || op.PinActive? || op.Unpin? {
      ReaderAwaits(s, g, op);
    } else if op.Start? || op.Prepare? {
      NothingStarts(s, op);
    } else {
      EndAwaits(s, g, op);
    }
  }

  lemma {:induction false} AwaitsFacts(s: Db, g: View)
    requires Awaits(s, g)
    ensures Committed(s, g) && Prepared(s) && s.active.Some? && s.readTxn in s.txns && Writing(s)
  {
  }

  lemma {:induction false} NothingStarts(s: Db, op: Op)
    requires s.active.Some? && Prepared(s) && (op.Start? || op.Prepare?)
    ensures Apply(s, op) == s
  {
  }

  lemma {:induction false} EditStaysPrepared(s: Db, op: Op)
    requires IsEdit(op) && Writing(s)
    ensures Apply(s, op).preparedTxn == s.preparedTxn && Apply(s, op).readTxn == s.readTxn
  {
    EditPrepared(s, op);
    if op.HangIn? {
      RelinkReads(s, op.path, op.tree.page);
    }
  }

  lemma {:induction false} RelinkReads(s: Db, fs: seq<Frame>, n: PageId)
    requires Writing(s)
    ensures Relink(s, fs, n).0.readTxn == s.readTxn
    decreases |fs|
  {
    if fs != [] {
      RelinkReads(s, fs[1..], n);
    }
  }

  lemma {:induction false} EndAwaits(s: Db, g: View, op: Op)
    requires Awaits(s, g) && Guard(s, g, op) && CommitsCurrent(s, op) && (op.CommitTxn? || op.RollbackTxn?)
    ensures Sound(Apply(s, op), Track(s, g, op)) && Kept(s, g, Apply(s, op), Track(s, g, op))
  {
    hide Awaits, Inv, Kept, Started, Dropped, Switched, OldestIndex;
    AwaitsFacts(s, g);
    NothingHappened(s, g);
    if s.cursor == op.cursor {
      if op.CommitTxn? {
        CurrentInv(s, g);
        CommitStepKeeps(s, g, op.cursor);
        CommitUnprepares(s, op.cursor);
      } else {
        RollbackAwaits(s, g, op.cursor);
      }
    }
  }

  lemma {:induction false} CommitUnprepares(s: Db, cursor: nat)
    requires s.active.Some? && s.cursor == cursor
    ensures !Prepared(Commit(s, cursor))
  {
  }

  // ----- steps before prepare_commit

  lemma {:induction false} InvStep(s: Db, g: View, op: Op)
    requires Inv(s, g) && !Prepared(s) && Guard(s, g, op)
    ensures Sound(Apply(s, op), Track(s, g, op)) && Kept(s, g, Apply(s, op), Track(s, g, op))
  {
    hide Awaits, Inv, Kept, StartTransaction, PrepareCommit, Commit, Rollback, Started, Dropped, Switched, OldestIndex;
    if IsEdit(op) {
      EditKeeps(s, g, op);
      EditStaysPrepared(s, op);
    } else if op.Pin? || op.PinActive? || op.Unpin? {
      ReaderStepKeeps(s, g, op);
    } else {
      match op {
        case Start(cursor) =>
          StartStepKeeps(s, g, cursor);
          StartUnprepared(s, g, cursor);
        case Prepare(cursor) =>
          PrepareStepKeeps(s, g, cursor);
          PrepareSound(s, g, cursor);
        case CommitTxn(cursor) =>
          CommitStepKeeps(s, g, cursor);
          EndUnprepared(s, cursor);
        case RollbackTxn(cursor) =>
          RollbackStepKeeps(s, g, cursor);
          EndUnprepared(s, cursor);
        case _ =>
      }
    }
  }

  lemma {:induction false} EndUnprepared(s: Db, cursor: nat)
    requires !Prepared(s)
    ensures !Prepared(Commit(s, cursor)) && !Prepared(Rollback(s, cursor))
  {
  }

  lemma {:induction false} StartUnprepared(s: Db, g: View, cursor: nat)
    requires !Prepared(s)
    ensures !Prepared(StartTransaction(s, cursor))
  {
    if s.active.None? && s.nextTxn.Some? && s.nextTxn.value in s.txns && s.readTxn in s.txns {
      var a := s.nextTxn.value;
      var s1 := s.(active := Some(a), nextTxn := None, cursor := cursor,
                   txns := s.txns[a := s.txns[a].(id := s.txns[s.readTxn].id + 1, next := None)]);
      CollectHeader(s1, s.txns[s.readTxn].start, s.readTxn, ChainLength(s));
    }
  }

  lemma {:induction false} CollectHeader(s: Db, c: PageId, last: PageId, fuel: nat)
    requires Writing(s)
    ensures Collect(s, c, last, fuel).readTxn == s.readTxn && Collect(s, c, last, fuel).preparedTxn == s.preparedTxn
    decreases fuel
  {
    if c in s.txns && c != last && s.txns[c].refs == 0 && fuel > 0 && s.txns[c].next.Some? {
      CollectHeader(FreePage(s, c, s.txns[c].slot), s.txns[c].next.value, last, fuel - 1);
    }
  }

  lemma {:induction false} PrepareSound(s: Db, g: View, cursor: nat)
    requires Inv(s, g) && !Prepared(s) && g.hole.None?
    ensures Sound(PrepareCommit(s, cursor), g)
  {
    hide Committed, Active, Idle, Awaits;
    if s.active.Some? && s.cursor == cursor {
      AtWorkHere(s, g);
      PreparedAwaits(s, g, cursor);
      AwaitsFacts(PrepareCommit(s, cursor), g);
    } else {
      assert PrepareCommit(s, cursor) == s;
    }
  }

  lemma {:induction false} AtWorkHere(s: Db, g: View)
    requires Inv(s, g) && !Prepared(s) && s.active.Some?
    ensures AtWork(s, g)
  {
    hide Committed, Active;
  }

  // Every step keeps the invariants and every transaction that is read, edits behind prepare_commit included.
  lemma {:induction false} StepKeeps(s: Db, g: View, op: Op)
    requires Sound(s, g) && Guard(s, g, op) && CommitsCurrent(s, op)
    ensures Sound(Apply(s, op), Track(s, g, op)) && Kept(s, g, Apply(s, op), Track(s, g, op))
  {
    hide Awaits, Inv, Kept, Apply, Track, Guard;
    if Prepared(s) {
      AwaitsStep(s, g, op);
    } else {
      InvStep(s, g, op);
    }
  }

  // ----- runs

  // ss[i] --ops[i]--> ss[i + 1], from a fresh store.
  ghost predicate Run(ss: seq<Db>, gs: seq<View>, ops: seq<Op>) {
    && |ss| == |gs| == |ops| + 1
    && (exists slots: nat, slot: nat :: slot < slots && ss[0] == Init(slots, slot))
    && gs[0] == View([0], map[0 := None], None, None, {})
    && forall i :: 0 <= i < |ops| ==> Steps(ss[i], gs[i], ops[i], ss[i + 1], gs[i + 1])
  }

  ghost predicate AllCurrent(ss: seq<Db>, ops: seq<Op>)
    requires |ss| == |ops| + 1
  {
    forall i :: 0 <= i < |ops| ==> CommitsCurrent(ss[i], ops[i])
  }

  lemma {:induction false} RunKeepsSound(ss: seq<Db>, gs: seq<View>, ops: seq<Op>, i: nat)
    requires Run(ss, gs, ops) && AllCurrent(ss, ops) && i < |ss|
    ensures Sound(ss[i], gs[i])
  {
    if i == 0 {
      var slots: nat, slot: nat :| slot < slots && ss[0] == Init(slots, slot);
      InitHolds(slots, slot);
    } else {
      RunKeepsSound(ss, gs, ops, i - 1);
      assert Steps(ss[i - 1], gs[i - 1], ops[i - 1], ss[i - 1 + 1], gs[i - 1 + 1]);
      StepKeeps(ss[i - 1], gs[i - 1], ops[i - 1]);
    }
  }

  // Somebody reads c from state i to state j.
  ghost predicate ReadThroughout(ss: seq<Db>, c: PageId, i: nat, j: nat)
    requires i <= j < |ss|
  {
    forall k :: i <= k <= j ==> c in ss[k].txns && ss[k].txns[c].refs > 0
  }

  // c was committed when the reader came, and its tree is still the same on the same pages.
  ghost predicate Intact(ss: seq<Db>, gs: seq<View>, c: PageId, i: nat, j: nat)
    requires i <= j < |ss| == |gs|
  {
    && c in gs[j].chain && Live(ss[j], c) && c in ss[i].txns
    && ss[j].txns[c].root == ss[i].txns[c].root
    && c in gs[i].snaps && c in gs[j].snaps && gs[j].snaps[c] == gs[i].snaps[c]
    && (forall p :: p in SnapPages(gs[i], c) ==>
          p in ss[i].nodes && p in ss[j].nodes && ss[j].nodes[p] == ss[i].nodes[p])
  }

  // A transaction that is read stays in the chain with its tree.
  lemma {:induction false} PinnedTreeIntact(ss: seq<Db>, gs: seq<View>, ops: seq<Op>, c: PageId, i: nat, j: nat)
    requires Run(ss, gs, ops) && AllCurrent(ss, ops) && i <= j < |ss|
    requires ss[i].readTxn == c && ReadThroughout(ss, c, i, j)
    ensures Intact(ss, gs, c, i, j)
    decreases j - i
  {
    if i == j {
      RunKeepsSound(ss, gs, ops, i);
      SoundCommitted(ss[i], gs[i]);
      ReadIsLive(ss[i], gs[i]);
    } else {
      PinnedTreeIntact(ss, gs, ops, c, i, j - 1);
      RunKeepsSound(ss, gs, ops, j - 1);
      assert Steps(ss[j - 1], gs[j - 1], ops[j - 1], ss[j - 1 + 1], gs[j - 1 + 1]);
      StepKeeps(ss[j - 1], gs[j - 1], ops[j - 1]);
      hide Sound, Run, AllCurrent;
      IntactStep(ss, gs, c, i, j);
    }
  }

  lemma {:induction false} IntactStep(ss: seq<Db>, gs: seq<View>, c: PageId, i: nat, j: nat)
    requires i < j < |ss| == |gs|
    requires ReadThroughout(ss, c, i, j) && Intact(ss, gs, c, i, j - 1)
    requires Kept(ss[j - 1], gs[j - 1], ss[j], gs[j])
    ensures Intact(ss, gs, c, i, j)
  {
  }

  // An allocation never hands out a page of a transaction that is read, before or behind prepare_commit.
  lemma {:induction false} AllocAvoidsPinned(s: Db, g: View, slot: nat, c: PageId)
    requires Sound(s, g) && s.active.Some? && c in g.chain && c in s.txns && s.txns[c].refs > 0
    ensures var p := AllocPage(s, slot).1; p != c && p !in SnapPages(g, c)
  {
    SoundCommitted(s, g);
    UsedInHeap(s, g);
    assert Live(s, c);
    AllocIsUnowned(s, g, Used(g), slot);
  }
}
