// The steps of the store: readers come and go, one writer at a time edits, commits or rolls back.
// What each of them keeps as long as nothing is edited behind prepare_commit.

module Snapshots {
  import opened Common
  import opened Memory
  import opened Trees
  import opened Store
  import opened Invariants
  import opened WriterSteps
  import opened Edits
  import opened TxnSteps

  datatype Op =
    | Pin                                             // txn_ref: a cursor pins the committed transaction
    | PinActive                                       // _set_txn: the writing cursor pins its own
    | Unpin(txn: PageId)
    | Start(cursor: nat)
    | Prepare(cursor: nat)
    | CommitTxn(cursor: nat)
    | RollbackTxn(cursor: nat)
    | CutOut(path: seq<Frame>)                        // the cursor's stack leads to a subtree
    | AllocNode(slot: nat, data: Data, kids: seq<Tree>)
    | FreeNode(tree: Tree)
    | InsertInPlace(tree: Tree, data: Data, kids: seq<Tree>)
    | HangIn(path: seq<Frame>, tree: Tree)            // update_offset
    | Settle(tree: Tree)                              // the node stayed on its page
    | EmptyRoot

  predicate IsEdit(op: Op) {
    op.CutOut? || op.AllocNode? || op.FreeNode? || op.InsertInPlace? || op.HangIn? || op.Settle? || op.EmptyRoot?
  }

  function SlotOf(s: Db, p: PageId): nat {
    if p in s.nodes then s.nodes[p].slot else 0
  }

  function Apply(s: Db, op: Op): Db
    requires IsEdit(op) ==> s.active.Some? && s.active.value in s.txns
  {
    match op
    case Pin => AddRef(s, s.readTxn)
    case PinActive => if s.active.Some? then AddRef(s, s.active.value) else s
    case Unpin(c) => DropRef(s, c)
    case Start(cursor) => StartTransaction(s, cursor)
    case Prepare(cursor) => PrepareCommit(s, cursor)
    case CommitTxn(cursor) => Commit(s, cursor)
    case RollbackTxn(cursor) => Rollback(s, cursor)
    case CutOut(_) => s
    case AllocNode(slot, data, kids) => NewNode(s, slot, Node(data, Roots(kids))).0
    case FreeNode(t) => FreePage(s, t.page, SlotOf(s, t.page))
    case InsertInPlace(t, data, kids) => WriteNode(s, t.page, SlotOf(s, t.page), Node(data, Roots(kids)))
    case HangIn(fs, t) => UpdateOffset(s, fs, t.page)
    case Settle(_) => s
    case EmptyRoot => SetRoot(s, None)
  }

  // What inserter and deleter see to before each step. A trie is only ever edited between
  // the cut and the hanging in of one operation, a node is freed once, and only nodes of the
  // writer itself are changed in place.
  ghost predicate Guard(s: Db, g: View, op: Op) {
    && (IsEdit(op) ==> Writing(s))
    && match op
       case Unpin(c) => (c in g.chain || s.active == Some(c)) && c in s.txns && s.txns[c].refs > 0
       case Prepare(_) => g.hole.None?
       case CommitTxn(_) => g.hole.None?
       case CutOut(fs) => g.hole.None? && (match g.main case None => fs == [] case Some(t) => Path(t, fs))
       case AllocNode(slot, _, kids) => Parts(g.loose, kids) && slot < |Me(s).mem.slots|
       case FreeNode(t) => t in g.loose && t.page in s.nodes
       case InsertInPlace(t, _, kids) =>
         t in g.loose && t.page in s.nodes && !NeedsCow(s, t.page) && Parts(Split(g.loose, t), kids)
       case HangIn(fs, t) => g.hole == Some(fs) && t in g.loose
       case Settle(t) =>
         g.hole.Some? && t in g.loose && g.main.Some? && Path(g.main.value, g.hole.value)
         && t.page == SubAt(g.main.value, g.hole.value).page
       case EmptyRoot => g.hole == Some([])
       case _ => true
  }

  // How the denoted trees change along.
  ghost function Track(s: Db, g: View, op: Op): View
    requires Guard(s, g, op)
  {
    match op
    case Pin => g
    case PinActive => g
    case Unpin(_) => g
    case Start(_) => if s.active.None? then Started(s, g) else g
    case Prepare(_) => g
    case CommitTxn(cursor) =>
      var s1 := PrepareCommit(s, cursor);
      if s.active.Some? && s.cursor == cursor && Writing(s1) && 0 <= OldestIndex(s1, g) <= |g.chain|
      then Switched(s1, g) else g
    case RollbackTxn(cursor) => if s.active.Some? && s.cursor == cursor then Dropped(g) else g
    case CutOut(fs) => Cut(g, fs)
    case AllocNode(slot, data, kids) => Joined(g, Tree(NewNode(s, slot, Node(data, Roots(kids))).1, data, kids))
    case FreeNode(t) => Freed(g, t)
    case InsertInPlace(t, data, kids) => Joined(Freed(g, t), Tree(t.page, data, kids))
    case HangIn(fs, t) =>
      if g.main.Some? && Path(g.main.value, fs) then HungIn(g, Rebuilt(s, g.main.value, fs, t), t) else HungIn(g, t, t)
    case Settle(t) => HungIn(g, Plugged(g.main.value, g.hole.value, t), t)
    case EmptyRoot => g.(main := None, hole := None)
  }

  ghost predicate Steps(s: Db, g: View, op: Op, s': Db, g': View) {
    Guard(s, g, op) && s' == Apply(s, op) && g' == Track(s, g, op)
  }

  lemma {:induction false} NothingHappened(s: Db, g: View)
    requires Committed(s, g)
    ensures Kept(s, g, s, g)
  {
    assert forall c :: c in g.chain && Live(s, c) ==> SnapOk(s, g, c);
  }

  lemma {:induction false} EditKeeps(s: Db, g: View, op: Op)
    requires Inv(s, g) && s.active.Some? && !Prepared(s) && IsEdit(op) && Guard(s, g, op)
    ensures Inv(Apply(s, op), Track(s, g, op)) && Kept(s, g, Apply(s, op), Track(s, g, op))
  {
    hide Prepared, Kept, Committed, Active, Untouched, PrepareCommit, MemSafe;
    assert Committed(s, g) && AtWork(s, g);
    hide Committed, Active, Kept, Untouched, PreparedOk, Idle, Parts, NewNode, FreePage, WriteNode, UpdateOffset, SetRoot,
         Rebuilt, Plugged, Forest, AtWork, Inv;
    match op {
      case CutOut(fs) =>
        CutStep(s, g, fs);
        NothingHappened(s, g);
        SameTrees(s, s, g, g, Cut(g, fs));
      case AllocNode(slot, data, kids) =>
        NewNodeStep(s, g, slot, data, kids);
        UntouchedKeeps(s, Apply(s, op), g, Track(s, g, op));
      case FreeNode(t) =>
        FreeNodeStep(s, g, t);
        UntouchedKeeps(s, Apply(s, op), g, Track(s, g, op));
      case InsertInPlace(t, data, kids) =>
        RewriteStep(s, g, t, data, kids);
        UntouchedKeeps(s, Apply(s, op), g, Track(s, g, op));
      case HangIn(fs, t) =>
        HangInKeeps(s, g, fs, t);
      case Settle(t) =>
        SettleStep(s, g, t);
        NothingHappened(s, g);
        SameTrees(s, s, g, g, Track(s, g, op));
      case EmptyRoot =>
        EmptyRootStep(s, g);
        UntouchedKeeps(s, Apply(s, op), g, Track(s, g, op));
    }
  }

  lemma {:induction false} HangInKeeps(s: Db, g: View, fs: seq<Frame>, t: Tree)
    requires AtWork(s, g) && g.hole == Some(fs) && t in g.loose && Committed(s, g)
    ensures Inv(Apply(s, HangIn(fs, t)), Track(s, g, HangIn(fs, t)))
    ensures Kept(s, g, Apply(s, HangIn(fs, t)), Track(s, g, HangIn(fs, t)))
  {
    ReadyIsAtWork(s, g);
    hide Committed, Active, Kept, Untouched, PreparedOk, Idle, Owning;
    if g.main.Some? {
      PlugStep(s, g, t);
    } else {
      FirstNodeStep(s, g, t);
    }
    UntouchedKeeps(s, Apply(s, HangIn(fs, t)), g, Track(s, g, HangIn(fs, t)));
  }

  lemma {:induction false} SameTrees(s: Db, s': Db, g: View, g1: View, g2: View)
    requires Kept(s, g, s', g1) && g2.chain == g1.chain && g2.snaps == g1.snaps
    ensures Kept(s, g, s', g2)
  {
  }

  lemma {:induction false} ReaderStepKeeps(s: Db, g: View, op: Op)
    requires Inv(s, g) && Guard(s, g, op) && (op.Pin? || op.PinActive? || op.Unpin?)
    ensures Inv(Apply(s, op), Track(s, g, op)) && Kept(s, g, Apply(s, op), Track(s, g, op))
  {
    NothingHappened(s, g);
    hide Inv, Kept;
    match op {
      case Pin => PinKeeps(s, g);
      case PinActive => if s.active.Some? { PinActiveKeeps(s, g); }
      case Unpin(c) => UnpinKeeps(s, g, c);
      case _ =>
    }
  }

  lemma {:induction false} StartStepKeeps(s: Db, g: View, cursor: nat)
    requires Inv(s, g)
    ensures var g' := if s.active.None? then Started(s, g) else g;
            Inv(StartTransaction(s, cursor), g') && Kept(s, g, StartTransaction(s, cursor), g')
  {
    if s.active.None? {
      hide *;
      StartKeeps(s, g, cursor);
    } else {
      NothingHappened(s, g);
    }
  }

  lemma {:induction false} PrepareStepKeeps(s: Db, g: View, cursor: nat)
    requires Inv(s, g) && g.hole.None?
    ensures Inv(PrepareCommit(s, cursor), g) && Kept(s, g, PrepareCommit(s, cursor), g)
  {
    if s.active.Some? && s.cursor == cursor && !Prepared(s) {
      hide Committed, Active, Kept, PreparedOk, Idle, PrepareCommit;
      PrepareKeeps(s, g, cursor);
    } else {
      NothingHappened(s, g);
    }
  }

  lemma {:induction false} CommitStepKeeps(s: Db, g: View, cursor: nat)
    requires Inv(s, g) && g.hole.None?
    ensures var s1 := PrepareCommit(s, cursor);
            var mine := s.active.Some? && s.cursor == cursor;
            && (mine ==> Writing(s1) && 0 <= OldestIndex(s1, g) < |g.chain|
                         && Inv(Commit(s, cursor), Switched(s1, g)) && Kept(s, g, Commit(s, cursor), Switched(s1, g)))
            && (!mine ==> Inv(Commit(s, cursor), g) && Kept(s, g, Commit(s, cursor), g))
  {
    if s.active.Some? && s.cursor == cursor {
      hide *;
      CommitKeeps(s, g, cursor);
    } else {
      NothingHappened(s, g);
    }
  }

  lemma {:induction false} RollbackStepKeeps(s: Db, g: View, cursor: nat)
    requires Inv(s, g)
    ensures var g' := if s.active.Some? && s.cursor == cursor then Dropped(g) else g;
            Inv(Rollback(s, cursor), g') && Kept(s, g, Rollback(s, cursor), g')
  {
    if s.active.Some? && s.cursor == cursor {
      hide *;
      RollbackKeeps(s, g, cursor);
    } else {
      NothingHappened(s, g);
    }
  }

  // ----- editing after prepare_commit

  // All of Inv except that the page kept for the next transaction is up to date.
  ghost predicate InvButClone(s: Db, g: View) {
    && Committed(s, g) && Active(s, g) && Prepared(s)
    && g.hole.None? && s.nextTxn.Some? && s.nextTxn.value != s.active.value
    && s.txns[s.readTxn].next == s.active
    && Reserved(s, g, s.nextTxn.value, Me(s).mem) && s.nextTxn.value !in Used(g)
    && s.txns[s.nextTxn.value].refs == 0 && s.txns[s.nextTxn.value].slot == Me(s).slot
  }

  // The invariants go on after such a commit only if the prepared clone still has the root and the
  // allocator state of the transaction. What readers are told is another matter: StaleClone says
  // exactly when their answers last.
  lemma {:induction false} CommitSafeIffCloneCurrent(s: Db, g: View, cursor: nat)
    requires InvButClone(s, g) && s.cursor == cursor
    ensures (exists g' :: Inv(Commit(s, cursor), g')) <==>
            (s.txns[s.nextTxn.value].root == Me(s).root && s.txns[s.nextTxn.value].mem == Me(s).mem)
  {
    if s.txns[s.nextTxn.value].root == Me(s).root && s.txns[s.nextTxn.value].mem == Me(s).mem {
      hide Committed, Active, Reserved, Kept;
      assert Inv(s, g);
      CommitKeeps(s, g, cursor);
    }
    var s' := Commit(s, cursor);
    forall g' | Inv(s', g')
      ensures s.txns[s.nextTxn.value].root == Me(s).root && s.txns[s.nextTxn.value].mem == Me(s).mem
    {
      hide Committed, Active, Reserved;
      assert Idle(s', g');
    }
  }
}
