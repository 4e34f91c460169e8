// _DB and _Transaction: the file as a map of pages, the chain of transactions, and the
// operations that change them, as functions on a value. The class Database runs them.

module Store {
  import opened Common
  import opened Memory
  import opened Trees

  // _TransactionBase. `start` and `next` link the chain of transactions, `refs` counts the
  // cursors that read this one, `mem` is its own allocator state.
  datatype Txn = Txn(id: nat, slot: nat, root: Option<PageId>, start: PageId, next: Option<PageId>,
                     refs: nat, mem: Mem)

  // _DBHeader plus the two fields of the writing process (_active_txn, _start_txn_id).
  datatype Db = Db(nodes: Heap, txns: map<PageId, Txn>,
                   readTxn: PageId, preparedTxn: PageId, nextTxn: Option<PageId>, cursor: nat,
                   active: Option<PageId>, startId: nat)

  ghost predicate Writing(s: Db) {
    s.active.Some? && s.active.value in s.txns
  }

  predicate Prepared(s: Db) {
    s.preparedTxn != s.readTxn
  }

  function Me(s: Db): Txn
    requires Writing(s)
  {
    s.txns[s.active.value]
  }

  function SetTxn(s: Db, c: PageId, t: Txn): Db {
    s.(txns := s.txns[c := t])
  }

  // ----- pages

  // A page handed out loses whatever was on it.
  function AllocPage(s: Db, slot: nat): (r: (Db, PageId))
    requires Writing(s)
    ensures Writing(r.0)
  {
    var a := s.active.value;
    var (m, p) := Alloc(s.txns[a].mem, slot, s.startId);
    (s.(nodes := s.nodes - {p}, txns := (s.txns - {p})[a := s.txns[a].(mem := m)]), p)
  }

  function FreePage(s: Db, p: PageId, slot: nat): (s': Db)
    requires Writing(s)
    ensures Writing(s')
  {
    var a := s.active.value;
    SetTxn(s, a, s.txns[a].(mem := Free(s.txns[a].mem, p, slot, s.txns[a].id)))
  }

  function WriteNode(s: Db, p: PageId, slot: nat, node: Node): (s': Db)
    requires Writing(s)
    ensures Writing(s')
  {
    s.(nodes := s.nodes[p := Page(Me(s).id, slot, node)])
  }

  predicate NeedsCow(s: Db, p: PageId)
    requires Writing(s) && p in s.nodes
  {
    s.nodes[p].txn != Me(s).id
  }

  function NewNode(s: Db, slot: nat, node: Node): (r: (Db, PageId))
    requires Writing(s)
    ensures Writing(r.0)
  {
    var (s1, p) := AllocPage(s, slot);
    (WriteNode(s1, p, slot, node), p)
  }

  // _Transition::update on one frame: make the link of this frame point to n, on a copy of
  // the page unless this transaction wrote the page itself.
  function SetLink(s: Db, f: Frame, n: PageId): (r: (Db, PageId))
    requires Writing(s)
    ensures Writing(r.0)
  {
    if f.page in s.nodes && f.link < |s.nodes[f.page].node.kids| then
      var page := s.nodes[f.page];
      var node := page.node.(kids := page.node.kids[f.link := n]);
      if !NeedsCow(s, f.page) then (WriteNode(s, f.page, page.slot, node), f.page)
      else
        var (s1, p) := NewNode(s, page.slot, node);
        (FreePage(s1, f.page, page.slot), p)
    else (s, f.page)
  }

  // update_offset: the link of the last frame gets n; a frame whose page moved makes its
  // parent follow, up to the first page that could stay. Returns the page at the top.
  function Relink(s: Db, fs: seq<Frame>, n: PageId): (r: (Db, PageId))
    requires Writing(s)
    ensures Writing(r.0)
    decreases |fs|
  {
    if fs == [] then (s, n)
    else
      var (s1, c) := Relink(s, fs[1..], n);
      if |fs| > 1 && c == fs[1].page then (s1, fs[0].page) else SetLink(s1, fs[0], c)
  }

  function SetRoot(s: Db, root: Option<PageId>): (s': Db)
    requires Writing(s)
    ensures Writing(s')
  {
    SetTxn(s, s.active.value, Me(s).(root := root))
  }

  function UpdateOffset(s: Db, fs: seq<Frame>, n: PageId): (s': Db)
    requires Writing(s)
    ensures Writing(s')
  {
    var (s1, r) := Relink(s, fs, n);
    SetRoot(s1, Some(r))
  }

  // ----- transactions

  function AddRef(s: Db, c: PageId): Db {
    if c in s.txns then SetTxn(s, c, s.txns[c].(refs := s.txns[c].refs + 1)) else s
  }

  function DropRef(s: Db, c: PageId): Db {
    if c in s.txns && s.txns[c].refs > 0 then SetTxn(s, c, s.txns[c].(refs := s.txns[c].refs - 1)) else s
  }

  // The chain walk of start_transaction: free transactions that nobody reads until one is
  // in use or the last one is reached; that one becomes the oldest of the new transaction.
  function Collect(s: Db, c: PageId, last: PageId, fuel: nat): (s': Db)
    requires Writing(s)
    ensures Writing(s')
    decreases fuel
  {
    if c !in s.txns then s
    else if c == last || s.txns[c].refs > 0 || fuel == 0 || s.txns[c].next.None? then
      SetTxn(s, s.active.value, Me(s).(start := c)).(startId := s.txns[c].id)
    else Collect(FreePage(s, c, s.txns[c].slot), s.txns[c].next.value, last, fuel - 1)
  }

  function ChainLength(s: Db): nat {
    if s.readTxn in s.txns && s.txns[s.readTxn].start in s.txns
       && s.txns[s.txns[s.readTxn].start].id <= s.txns[s.readTxn].id
    then s.txns[s.readTxn].id - s.txns[s.txns[s.readTxn].start].id else 0
  }

  // try_lock fails while a transaction is active; otherwise the pre-allocated page becomes
  // the transaction.
  function StartTransaction(s: Db, cursor: nat): Db {
    if s.active.Some? || s.nextTxn.None? || s.nextTxn.value !in s.txns || s.readTxn !in s.txns then s
    else
      var a := s.nextTxn.value;
      var last := s.txns[s.readTxn];
      var s1 := s.(active := Some(a), nextTxn := None, cursor := cursor,
                   txns := s.txns[a := s.txns[a].(id := last.id + 1, next := None)]);
      Collect(s1, last.start, s.readTxn, ChainLength(s))
  }

  // _Transaction::clone, the page of the next transaction.
  function Clone(s: Db): (r: (Db, PageId))
    requires Writing(s)
    ensures Writing(r.0)
  {
    var (s1, n) := AllocPage(s, Me(s).slot);
    (SetTxn(s1, n, Me(s1).(refs := 0)), n)
  }

  function PrepareCommit(s: Db, cursor: nat): Db {
    if s.cursor != cursor || s.active.None? || s.active.value !in s.txns || Prepared(s) then s
    else
      var (s1, n) := Clone(s);
      var s2 := s1.(nextTxn := Some(n), preparedTxn := s.active.value);
      if s.readTxn in s2.txns
      then SetTxn(s2, s.readTxn, s2.txns[s.readTxn].(next := s.active)) else s2
  }

  function EndTransaction(s: Db): Db {
    s.(active := None, cursor := 0)
  }

  function Commit(s: Db, cursor: nat): Db {
    if s.cursor != cursor || s.active.None? then s
    else
      var s1 := PrepareCommit(s, cursor);
      EndTransaction(s1.(readTxn := s1.preparedTxn))
  }

  // The page of the transaction is filled with the committed state and kept for the next.
  function Rollback(s: Db, cursor: nat): Db {
    if s.cursor != cursor || s.active.None? || s.readTxn !in s.txns then s
    else
      var a := s.active.value;
      EndTransaction(s.(preparedTxn := s.readTxn, nextTxn := Some(a),
                        txns := s.txns[a := s.txns[s.readTxn].(refs := 0)]))
  }

  // init: one committed transaction on page 0, the page of the next one already allocated.
  function Init(slots: nat, slot: nat): Db {
    var mem := Mem(2, seq(slots, i => []));
    var t := Txn(1, slot, None, 0, None, 0, mem);
    Db(map[], map[0 := t, 1 := t], 0, 0, Some(1), 0, None, 0)
  }
}
