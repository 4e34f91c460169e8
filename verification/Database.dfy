// The store in the form the program has it: an object whose methods update the header, the
// active transaction and the pages in place.

module Database {
  import opened Common
  import opened Memory
  import opened Trees
  import S = Store
  import opened Invariants
  import opened WriterSteps
  import opened Edits
  import opened TxnSteps

  // Climbing from a page that stayed changes nothing further up.
  lemma {:induction false} RelinkStopsEarly(s: S.Db, fs: seq<Frame>, n: PageId, k: nat)
    requires S.Writing(s) && k < |fs| && S.Relink(s, fs[k..], n).1 == fs[k].page
    ensures S.Relink(s, fs, n) == (S.Relink(s, fs[k..], n).0, fs[0].page)
    decreases k
  {
    if k == 0 {
      assert fs[0..] == fs;
    } else {
      assert fs[k - 1..][1..] == fs[k..];
      RelinkStopsEarly(s, fs, n, k - 1);
    }
  }

  class Database {
    var nodes: Heap
    var txns: map<PageId, S.Txn>
    var readTxn: PageId
    var preparedTxn: PageId
    var nextTxn: Option<PageId>
    var cursor: nat
    var active: Option<PageId>
    var startId: nat

    ghost function State(): S.Db
      reads this
    {
      S.Db(nodes, txns, readTxn, preparedTxn, nextTxn, cursor, active, startId)
    }

    constructor (slots: nat, slot: nat)
      requires slot < slots
      ensures State() == S.Init(slots, slot)
      ensures Inv(State(), View([0], map[0 := None], None, None, {}))
    {
      var mem := Mem(2, seq(slots, i => []));
      var first := S.Txn(1, slot, None, 0, None, 0, mem);
      nodes, txns := map[], map[0 := first, 1 := first];
      readTxn, preparedTxn, nextTxn := 0, 0, Some(1);
      cursor, active, startId := 0, None, 0;
      new;
      InitHolds(slots, slot);
    }

    method TxnRef(ghost g: View) returns (c: PageId)
      requires Inv(State(), g)
      modifies this`txns
      ensures c == readTxn && State() == S.AddRef(old(State()), c)
      ensures Inv(State(), g) && Kept(old(State()), g, State(), g) && txns[c].refs > 0
    {
      hide Inv, Kept;
      PinKeeps(State(), g);
      PrepareIsSafe(State(), g, 0);
      c := readTxn;
      txns := txns[c := txns[c].(refs := txns[c].refs + 1)];
    }

    method Release(c: PageId, ghost g: View)
      requires Inv(State(), g) && c in g.chain && c in txns && txns[c].refs > 0
      modifies this`txns
      ensures State() == S.DropRef(old(State()), c)
      ensures Inv(State(), g) && Kept(old(State()), g, State(), g)
    {
      hide Inv, Kept;
      UnpinKeeps(State(), g, c);
      txns := txns[c := txns[c].(refs := txns[c].refs - 1)];
    }

    method AllocPage(slot: nat) returns (p: PageId)
      requires S.Writing(State())
      modifies this`nodes, this`txns
      ensures (State(), p) == S.AllocPage(old(State()), slot)
    {
      var a := active.value;
      var mem := txns[a].mem;
      if MayPop(mem, slot, startId) {
        p := mem.slots[slot][0].page;
        mem := mem.(slots := mem.slots[slot := mem.slots[slot][1..]]);
      } else {
        p := mem.frontier;
        mem := mem.(frontier := mem.frontier + 1);
      }
      nodes := nodes - {p};
      txns := (txns - {p})[a := txns[a].(mem := mem)];
    }

    method FreePage(p: PageId, slot: nat)
      requires S.Writing(State())
      modifies this`txns
      ensures State() == S.FreePage(old(State()), p, slot)
    {
      var a := active.value;
      var mem := txns[a].mem;
      if slot < |mem.slots| {
        mem := mem.(slots := mem.slots[slot := mem.slots[slot] + [Garbage(p, txns[a].id)]]);
      }
      txns := txns[a := txns[a].(mem := mem)];
    }

    method WriteNode(p: PageId, slot: nat, node: Node)
      requires S.Writing(State())
      modifies this`nodes
      ensures State() == S.WriteNode(old(State()), p, slot, node)
    {
      nodes := nodes[p := Page(txns[active.value].id, slot, node)];
    }

    // _Transition::update and the write of the link it returns.
    method SetLink(f: Frame, n: PageId) returns (p: PageId)
      requires S.Writing(State()) && f.page in nodes && f.link < |nodes[f.page].node.kids|
      modifies this`nodes, this`txns
      ensures (State(), p) == S.SetLink(old(State()), f, n)
    {
      var page := nodes[f.page];
      var node := page.node.(kids := page.node.kids[f.link := n]);
      if page.txn == txns[active.value].id {
        p := f.page;
        WriteNode(p, page.slot, node);
      } else {
        p := AllocPage(page.slot);
        WriteNode(p, page.slot, node);
        FreePage(f.page, page.slot);
      }
    }

    // update_offset: climb the stack while pages move; the root link moves last.
    method UpdateOffset(fs: seq<Frame>, n: Tree, ghost g: View)
      requires AtWork(State(), g) && g.hole == Some(fs) && n in g.loose
      modifies this`nodes, this`txns
      ensures State() == S.UpdateOffset(old(State()), fs, n.page)
      ensures g.main.Some? && Path(g.main.value, fs) ==>
                AtWork(State(), HungIn(g, Rebuilt(old(State()), g.main.value, fs, n), n))
                && Untouched(old(State()), State(), g)
    {
      hide Path, HungIn, Untouched, Live, Committed, MemSafe, ReadId, Forest;
      ghost var s0 := State();
      var i := |fs|;
      var child := n.page;
      assert fs[i..] == [];
      while i > 0 && !(i < |fs| && child == fs[i].page)
        invariant i <= |fs| && S.Writing(State())
        invariant (State(), child) == S.Relink(s0, fs[i..], n.page)
        invariant s0 == old(State())
      {
        ghost var below := State();
        ClimbIsDefined(s0, g, n, i - 1);
        assert fs[i - 1..][1..] == fs[i..];
        i := i - 1;
        child := SetLink(fs[i], child);
      }
      if i > 0 {
        RelinkStopsEarly(s0, fs, n.page, i);
        child := fs[0].page;
      } else {
        assert fs[0..] == fs;
      }
      var a := active.value;
      txns := txns[a := txns[a].(root := Some(child))];
      if g.main.Some? && Path(g.main.value, fs) {
        PlugStep(s0, g, n);
      }
    }

    // Frees the transactions nobody reads, up to the first one in use or the last.
    method WalkChain(oldest: PageId, ghost g: View)
      requires S.Writing(State()) && HoleOk(g) && Forest(State(), g)
      requires Walking(State(), g, Used(g), 0) && oldest == g.chain[0]
      modifies this`txns, this`startId
      ensures State() == S.Collect(old(State()), oldest, readTxn, |g.chain| - 1)
    {
      hide Walking, Committed, Allocating, Forest, S.FreePage;
      var c := oldest;
      ghost var k := 0;
      WalkLast(State(), g, Used(g), k);
      while c != readTxn && txns[c].refs == 0
        invariant k < |g.chain| && c == g.chain[k] && c in txns && S.Writing(State())
        invariant Walking(State(), g, Used(g), k) && Forest(State(), g)
        invariant S.Collect(State(), c, readTxn, |g.chain| - 1 - k) == S.Collect(old(State()), oldest, readTxn, |g.chain| - 1)
        decreases |g.chain| - k
      {
        WalkLast(State(), g, Used(g), k);
        CollectGoes(State(), g, Used(g), k);
        var next := txns[c].next.value;
        FreePage(c, txns[c].slot);
        c := next;
        k := k + 1;
        WalkLast(State(), g, Used(g), k);
      }
      startId := txns[c].id;
      var a := active.value;
      txns := txns[a := txns[a].(start := c)];
    }

    // The pre-allocated page becomes the transaction; `oldest` is where the chain begins.
    method ClaimNextPage(cursorId: nat) returns (oldest: PageId)
      requires nextTxn.Some? && nextTxn.value in txns && readTxn in txns && nextTxn.value != readTxn
      modifies this
      ensures State() == Begun(old(State()), cursorId) && oldest == old(txns)[readTxn].start
    {
      var a := nextTxn.value;
      active, nextTxn, cursor := nextTxn, None, cursorId;
      var last := txns[readTxn];
      txns := txns[a := txns[a].(id := last.id + 1, next := None)];
      oldest := last.start;
    }

    // Turns the pre-allocated page into the transaction, then recycles old transactions.
    method BeginTransaction(cursorId: nat, ghost g: View)
      requires Inv(State(), g) && active.None?
      modifies this
      ensures State() == S.StartTransaction(old(State()), cursorId)
      ensures Inv(State(), Started(old(State()), g)) && Kept(old(State()), g, State(), Started(old(State()), g))
    {
      hide Inv, Kept, Walking, Forest, HoleOk, Started, Begun, Used, S.Collect, S.StartTransaction, S.Writing;
      ghost var s0 := State();
      StartKeeps(s0, g, cursorId);
      StartWalks(s0, g, cursorId);
      var oldest := ClaimNextPage(cursorId);
      WalkChain(oldest, Started(s0, g));
    }

    method StartTransaction(cursorId: nat, ghost g: View) returns (ok: bool)
      requires Inv(State(), g)
      modifies this
      ensures State() == S.StartTransaction(old(State()), cursorId)
      ensures ok == old(active).None?
      ensures ok ==> Inv(State(), Started(old(State()), g)) && Kept(old(State()), g, State(), Started(old(State()), g))
    {
      if active.Some? {
        return false;
      }
      hide Inv, Kept, Started;
      BeginTransaction(cursorId, g);
      ok := true;
    }

    method PrepareCommit(cursorId: nat, ghost g: View) returns (id: nat)
      requires Inv(State(), g) && g.hole.None?
      modifies this
      ensures State() == S.PrepareCommit(old(State()), cursorId)
      ensures id == if old(active).Some? && old(cursor) == cursorId then old(State()).txns[old(active).value].id else 0
      ensures Inv(State(), g) && Kept(old(State()), g, State(), g)
    {
      hide Inv, Kept;
      PrepareIsSafe(State(), g, cursorId);
      if cursor != cursorId || active.None? {
        return 0;
      }
      var a := active.value;
      id := txns[a].id;
      if preparedTxn != readTxn {
        return;
      }
      var n := AllocPage(txns[a].slot);
      txns := txns[n := txns[a].(refs := 0)];
      nextTxn, preparedTxn := Some(n), a;
      if readTxn in txns {
        txns := txns[readTxn := txns[readTxn].(next := active)];
      }
    }

    method Commit(cursorId: nat, ghost g: View) returns (ok: bool)
      requires Inv(State(), g) && g.hole.None?
      modifies this
      ensures State() == S.Commit(old(State()), cursorId)
      ensures ok == (old(active).Some? && old(cursor) == cursorId)
      ensures ok ==> Inv(State(), CommitView(old(State()), g, cursorId))
                     && Kept(old(State()), g, State(), CommitView(old(State()), g, cursorId))
    {
      hide Inv, Kept, S.PrepareCommit;
      ghost var s0 := State();
      if active.Some? && cursor == cursorId {
        CommitKeeps(s0, g, cursorId);
      }
      SameHeaderPrepared(s0, cursorId);
      var id := PrepareCommit(cursorId, g);
      if cursor != cursorId || active.None? {
        return false;
      }
      readTxn := preparedTxn;
      active, cursor := None, 0;
      ok := true;
    }

    method Rollback(cursorId: nat, ghost g: View) returns (ok: bool)
      requires Inv(State(), g)
      modifies this
      ensures State() == S.Rollback(old(State()), cursorId)
      ensures ok == (old(active).Some? && old(cursor) == cursorId)
      ensures ok ==> Inv(State(), Dropped(g)) && Kept(old(State()), g, State(), Dropped(g))
    {
      hide Dropped, Kept, PreparedOk, Live, SlotsOk, MemSafe;
      if cursor != cursorId || active.None? {
        return false;
      }
      RollbackKeeps(State(), g, cursorId);
      hide Inv, Kept;
      var a := active.value;
      preparedTxn, nextTxn := readTxn, Some(a);
      txns := txns[a := txns[readTxn].(refs := 0)];
      active, cursor := None, 0;
      ok := true;
    }
  }

  // The view after commit.
  ghost function CommitView(s: S.Db, g: View, cursor: nat): View {
    var s1 := S.PrepareCommit(s, cursor);
    if S.Writing(s1) && 0 <= OldestIndex(s1, g) <= |g.chain| then Switched(s1, g) else g
  }

  // The frame that is climbed to next is a page in use with the link of the path.
  lemma {:induction false} ClimbIsDefined(s: S.Db, g: View, n: Tree, k: nat)
    requires AtWork(s, g) && g.hole.Some? && n in g.loose && k < |g.hole.value|
    ensures var fs := g.hole.value;
            var s1 := S.Relink(s, fs[k + 1..], n.page).0;
            fs[k].page in s1.nodes && fs[k].link < |s1.nodes[fs[k].page].node.kids|
  {
    ReadyIsAtWork(s, g);
    CanRelink(s, g, n);
    ClimbSub(s, g, Used(g), g.main.value, g.hole.value, n, k);
  }

  lemma {:induction false} ClimbSub(s: S.Db, g: View, used: set<PageId>, t: Tree, fs: seq<Frame>, n: Tree, k: nat)
    requires Committed(s, g) && Owning(s, g, used) && Relinkable(s, used, t, fs, n) && k < |fs|
    ensures var s1 := S.Relink(s, fs[k + 1..], n.page).0;
            fs[k].page in s1.nodes && fs[k].link < |s1.nodes[fs[k].page].node.kids|
    decreases k
  {
    hide Committed, Owning, SlotsOk;
    RelinkDown(s, used, t, fs, n);
    if k == 0 {
      RelinkKeeps(s, g, used, t.kids[fs[0].link], fs[1..], n);
    } else {
      assert fs[1..][k..] == fs[k + 1..] && fs[1..][k - 1] == fs[k];
      ClimbSub(s, g, used, t.kids[fs[0].link], fs[1..], n, k - 1);
    }
  }

  lemma {:induction false} PrepareIsSafe(s: S.Db, g: View, cursor: nat)
    requires Inv(s, g)
    ensures s.readTxn in s.txns && (s.active.Some? ==> s.active.value in s.txns)
    ensures g.hole.None? ==> Inv(S.PrepareCommit(s, cursor), g) && Kept(s, g, S.PrepareCommit(s, cursor), g)
  {
    hide Forest, Owning, Idle, PreparedOk, MemSafe;
    ReadIsLive(s, g);
    if s.active.Some? && s.cursor == cursor && !S.Prepared(s) && g.hole.None? {
      PrepareKeeps(s, g, cursor);
    } else {
      UntouchedKeeps(s, s, g, g);
    }
  }

  lemma {:induction false} StartWalks(s: S.Db, g: View, cursor: nat)
    requires Inv(s, g) && s.active.None?
    ensures s.nextTxn.Some? && s.nextTxn.value in s.txns && s.readTxn in s.txns && s.nextTxn.value !in g.chain
    ensures s.readTxn != s.nextTxn.value
    ensures var s1 := Begun(s, cursor);
            var g1 := Started(s, g);
            && s1.readTxn == s.readTxn && g1.chain == g.chain && g.chain != []
            && HoleOk(g1) && Walking(s1, g1, Used(g1), 0) && S.Writing(s1) && Forest(s1, g1)
            && s.txns[s.readTxn].start == g.chain[0] && g.chain[0] in s1.txns
            && S.StartTransaction(s, cursor) == S.Collect(s1, g.chain[0], s1.readTxn, |g.chain| - 1)
  {
    BegunCommitted(s, g, cursor);
    BegunAllocating(s, g, cursor);
    BegunForest(s, g, cursor);
    ChainEnds(s, g);
  }

  lemma {:induction false} SameHeaderPrepared(s: S.Db, cursor: nat)
    ensures var s' := S.PrepareCommit(s, cursor); s'.active == s.active && s'.cursor == s.cursor
    ensures s.cursor != cursor || s.active.None? ==> S.PrepareCommit(s, cursor) == s
  {
  }
}
