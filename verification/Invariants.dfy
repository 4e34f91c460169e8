// What every run keeps: the committed transactions in use own intact trees, no queue
// hands out one of their pages, and the tree under construction is disjoint from both.

module Invariants {
  import opened Common
  import opened Memory
  import opened Trees
  import opened Store

  // The trees the pages denote. `main` is the tree of the active transaction; while a
  // cursor rebuilds a part of it, `hole` is the path to the missing subtree and `loose`
  // holds the detached trees.
  datatype View = View(chain: seq<PageId>, snaps: map<PageId, Option<Tree>>,
                       main: Option<Tree>, hole: Option<seq<Frame>>, loose: set<Tree>)

  ghost function OptPages(t: Option<Tree>): set<PageId> {
    match t case None => {} case Some(x) => PagesOf(x)
  }

  ghost predicate OptHolds(h: Heap, root: Option<PageId>, t: Option<Tree>) {
    match t
    case None => root == None
    case Some(x) => root == Some(x.page) && Holds(h, x) && Proper(x)
  }

  ghost function SnapPages(g: View, c: PageId): set<PageId> {
    if c in g.snaps then OptPages(g.snaps[c]) else {}
  }

  ghost function ReadId(s: Db): nat {
    if s.readTxn in s.txns then s.txns[s.readTxn].id else 0
  }

  // Not yet passed by the oldest reader.
  ghost predicate Live(s: Db, c: PageId) {
    c in s.txns && s.txns[c].id >= s.startId
  }

  ghost predicate ChainOk(s: Db, g: View) {
    && g.chain != []
    && g.chain[|g.chain| - 1] == s.readTxn
    && (forall i :: 0 <= i < |g.chain| ==>
          g.chain[0] in s.txns && g.chain[i] in s.txns && s.txns[g.chain[i]].id == s.txns[g.chain[0]].id + i)
    && s.txns[s.readTxn].start == g.chain[0]
    && (forall i :: 0 <= i < |g.chain| - 1 ==> s.txns[g.chain[i]].next == Some(g.chain[i + 1]))
    && s.startId <= s.txns[s.readTxn].id
    && (forall c :: c in g.chain && !Live(s, c) ==> s.txns[c].refs == 0)
  }

  ghost predicate SnapOk(s: Db, g: View, c: PageId)
    requires c in s.txns
  {
    && c in g.snaps
    && OptHolds(s.nodes, s.txns[c].root, g.snaps[c])
    && (forall p :: p in SnapPages(g, c) ==> p !in g.chain && p in s.nodes && s.nodes[p].txn <= s.txns[c].id)
  }

  // m may go on allocating: what it can still hand out is in no snapshot in use.
  ghost predicate MemSafe(s: Db, g: View, m: Mem, top: nat) {
    && Tidy(m)
    && (forall e :: e in Entries(m) ==> e.freed <= top && (e.page in g.chain ==> e.freed > ReadId(s)))
    && (forall c :: c in g.chain ==> c < m.frontier)
    && (forall c, p :: c in g.chain && Live(s, c) && p in SnapPages(g, c) ==> p < m.frontier)
    && (forall c, e :: c in g.chain && Live(s, c) && e in Entries(m) && e.page in SnapPages(g, c) ==>
          e.freed > s.txns[c].id)
  }

  // A transaction page outside the chain, allocated by m.
  ghost predicate Reserved(s: Db, g: View, x: PageId, m: Mem) {
    && x in s.txns && x < m.frontier && !IsFree(m, x) && x !in g.chain
    && (forall c :: c in g.chain && Live(s, c) ==> x !in SnapPages(g, c))
  }

  ghost predicate SlotsOk(s: Db) {
    && s.readTxn in s.txns
    && (forall p :: p in s.nodes ==> s.nodes[p].slot < |s.txns[s.readTxn].mem.slots|)
    && (forall c :: c in s.txns ==>
          s.txns[c].slot < |s.txns[s.readTxn].mem.slots| == |s.txns[c].mem.slots|)
  }

  ghost predicate Committed(s: Db, g: View) {
    && SlotsOk(s)
    && ChainOk(s, g)
    && (forall c :: c in g.chain && Live(s, c) ==> SnapOk(s, g, c))
    && MemSafe(s, g, s.txns[s.readTxn].mem, ReadId(s))
  }

  // ----- the tree under construction

  ghost predicate HoleOk(g: View) {
    g.hole.Some? ==> (match g.main case None => g.hole.value == [] case Some(t) => Path(t, g.hole.value) && Proper(t))
  }

  ghost function MainPages(g: View): set<PageId>
    requires HoleOk(g)
  {
    match g.main
    case None => {}
    case Some(t) => if g.hole.None? then PagesOf(t) else Around(t, g.hole.value)
  }

  ghost function Used(g: View): set<PageId>
    requires HoleOk(g)
  {
    MainPages(g) + ForestPages(g.loose)
  }

  ghost predicate MainOk(s: Db, g: View)
    requires Writing(s) && HoleOk(g)
  {
    if g.hole.None? then OptHolds(s.nodes, Me(s).root, g.main)
    else
      match g.main
      case None => Me(s).root == None
      case Some(t) => Me(s).root == Some(t.page) && AroundHolds(s.nodes, t, g.hole.value)
  }

  // The trees stand on the pages they are said to stand on.
  ghost predicate Forest(s: Db, g: View)
    requires Writing(s)
  {
    && HoleOk(g)
    && MainOk(s, g)
    && Apart(s.nodes, g.loose)
    && MainPages(g) !! ForestPages(g.loose)
  }

  // Pages the writer uses: written, not queued, and no part of the transaction chain.
  ghost predicate PagesOk(s: Db, g: View, used: set<PageId>)
    requires Writing(s)
  {
    forall p :: p in used ==>
      && p in s.nodes && p < Me(s).mem.frontier && !IsFree(Me(s).mem, p)
      && p !in g.chain && s.nodes[p].txn <= Me(s).id
  }

  // The allocator side of an active transaction that uses exactly these pages.
  ghost predicate Allocating(s: Db, g: View, used: set<PageId>)
    requires Committed(s, g)
  {
    && Writing(s)
    && var a := s.active.value;
       && Me(s).id == ReadId(s) + 1
       && MemSafe(s, g, Me(s).mem, Me(s).id)
       && Reserved(s, g, a, s.txns[s.readTxn].mem)
       && Reserved(s, g, a, Me(s).mem)
       && PagesOk(s, g, used) && a !in used
       && (s.preparedTxn == s.readTxn || s.preparedTxn == a)
  }

  // The chain from the oldest transaction in use on was not freed.
  ghost predicate Owning(s: Db, g: View, used: set<PageId>)
    requires Committed(s, g)
  {
    && Allocating(s, g, used)
    && Me(s).start in g.chain && s.txns[Me(s).start].id == s.startId
    && (forall c :: c in g.chain && Live(s, c) ==> !IsFree(Me(s).mem, c))
  }

  ghost predicate Active(s: Db, g: View)
    requires Committed(s, g)
  {
    Writing(s) && Forest(s, g) && Owning(s, g, Used(g))
  }

  // The page kept for the next transaction continues from t.
  ghost predicate Continues(s: Db, n: PageId, t: Txn) {
    && n in s.txns && s.txns[n].root == t.root && s.txns[n].mem == t.mem && s.txns[n].refs == 0
    && s.txns[n].slot == t.slot
  }

  ghost predicate Idle(s: Db, g: View)
    requires Committed(s, g)
  {
    && s.preparedTxn == s.readTxn
    && s.nextTxn.Some?
    && Reserved(s, g, s.nextTxn.value, s.txns[s.readTxn].mem)
    && Continues(s, s.nextTxn.value, s.txns[s.readTxn])
  }

  ghost predicate PreparedOk(s: Db, g: View)
    requires Committed(s, g) && Writing(s)
  {
    && g.hole.None? && s.nextTxn.Some? && s.nextTxn.value != s.active.value
    && s.txns[s.readTxn].next == s.active
    && Reserved(s, g, s.nextTxn.value, Me(s).mem)
    && HoleOk(g) && s.nextTxn.value !in Used(g)
    && Continues(s, s.nextTxn.value, Me(s))
  }

  ghost predicate Inv(s: Db, g: View) {
    && Committed(s, g)
    && (s.active.None? ==> Idle(s, g))
    && (s.active.Some? ==> Active(s, g))
    && (s.active.Some? && Prepared(s) ==> PreparedOk(s, g))
  }

  lemma {:induction false} InitHolds(slots: nat, slot: nat)
    requires slot < slots
    ensures Inv(Init(slots, slot), View([0], map[0 := None], None, None, {}))
  {
    var s := Init(slots, slot);
    assert Entries(s.txns[0].mem) == {};
  }
}
