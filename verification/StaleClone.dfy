// What a commit after edits behind prepare_commit does to a reader of the committed transaction:
// its answers last in every continuation exactly if the copied allocator state spares its pages.

module StaleClone {
  import opened Common
  import opened Memory
  import opened Trees
  import opened Store
  import opened Invariants
  import opened AfterPrepare
  import PageRuns

  // ----- the pages lookups visit

  // A page a lookup comes to, and what is left of the key there.
  datatype Stop = Stop(page: PageId, rest: seq<Byte>)

  // The stops of the lookup of key from page p on.
  function Trail(h: Heap, p: PageId, key: seq<Byte>, fuel: nat): seq<Stop>
    decreases fuel
  {
    if fuel == 0 || p !in h then []
    else
      [Stop(p, key)] +
      match h[p].node.data
      case LeafData(_, _) => []
      case TrieData(compressed, keys) =>
        if !(compressed <= key) then []
        else
          var rest := key[|compressed|..];
          match KeyIndex(keys, if rest == [] then NONE else rest[0])
          case None => []
          case Some(i) => if i < |h[p].node.kids| then Trail(h, h[p].node.kids[i], rest, fuel - 1) else []
  }

  ghost predicate OnTrail(h: Heap, p: PageId, key: seq<Byte>, fuel: nat, q: PageId) {
    exists i :: 0 <= i < |Trail(h, p, key, fuel)| && Trail(h, p, key, fuel)[i].page == q
  }

  ghost predicate Visited(h: Heap, root: Option<PageId>, q: PageId) {
    root.Some? && exists key, fuel :: OnTrail(h, root.value, key, fuel, q)
  }

  ghost function VisitedPages(h: Heap, root: Option<PageId>): set<PageId> {
    set q | q in h && Visited(h, root, q)
  }

  lemma {:induction false} TrailInTree(h: Heap, t: Tree, key: seq<Byte>, fuel: nat, i: nat)
    requires Holds(h, t) && i < |Trail(h, t.page, key, fuel)|
    ensures Trail(h, t.page, key, fuel)[i].page in PagesOf(t) && Trail(h, t.page, key, fuel)[i].page in h
    decreases fuel
  {
    if i > 0 {
      var rest := key[|t.data.compressed|..];
      var j := KeyIndex(t.data.keys, if rest == [] then NONE else rest[0]).value;
      TrailInTree(h, t.kids[j], rest, fuel - 1, i - 1);
    }
  }

  // A lookup sees nothing but the pages it visits.
  lemma {:induction false} TrailDecides(h: Heap, h': Heap, t: Tree, key: seq<Byte>, fuel: nat)
    requires Holds(h, t)
    requires forall i :: 0 <= i < |Trail(h, t.page, key, fuel)| ==> SameAt(h, h', Trail(h, t.page, key, fuel)[i].page)
    ensures Read(h', t.page, key, fuel) == Read(h, t.page, key, fuel)
    decreases fuel
  {
    if fuel > 0 {
      var trail := Trail(h, t.page, key, fuel);
      assert trail[0].page == t.page;
      if t.data.TrieData? && t.data.compressed <= key {
        var rest := key[|t.data.compressed|..];
        var j := KeyIndex(t.data.keys, if rest == [] then NONE else rest[0]);
        if j.Some? && j.value < |t.kids| {
          var below := Trail(h, t.kids[j.value].page, rest, fuel - 1);
          assert trail == [Stop(t.page, key)] + below;
          forall i | 0 <= i < |below|
            ensures SameAt(h, h', below[i].page)
          {
            assert trail[i + 1] == below[i];
          }
          TrailDecides(h, h', t.kids[j.value], rest, fuel - 1);
        }
      }
    }
  }

  ghost predicate SameAt(h: Heap, h': Heap, p: PageId) {
    p in h && p in h' && h'[p].node == h[p].node
  }

  // Another node on a visited page answers instead.
  lemma {:induction false} OverwrittenAnswers(h: Heap, h': Heap, p: PageId, key: seq<Byte>, fuel: nat, i: nat, v: seq<Byte>)
    requires i < |Trail(h, p, key, fuel)|
    requires forall j :: 0 <= j < i ==> SameAt(h, h', Trail(h, p, key, fuel)[j].page)
    requires var stop := Trail(h, p, key, fuel)[i]; stop.page in h' && h'[stop.page].node.data == LeafData(stop.rest, v)
    ensures Read(h', p, key, fuel) == Some(v)
    decreases fuel
  {
    var trail := Trail(h, p, key, fuel);
    assert trail[0] == Stop(p, key);
    if i > 0 {
      assert SameAt(h, h', trail[0].page);
      var d := h[p].node.data;
      var rest := key[|d.compressed|..];
      var k := KeyIndex(d.keys, if rest == [] then NONE else rest[0]).value;
      var below := Trail(h, h[p].node.kids[k], rest, fuel - 1);
      assert trail == [Stop(p, key)] + below;
      forall j | 0 <= j < i - 1
        ensures SameAt(h, h', below[j].page)
      {
        assert trail[j + 1] == below[j];
      }
      assert trail[i] == below[i - 1];
      OverwrittenAnswers(h, h', h[p].node.kids[k], rest, fuel - 1, i - 1, v);
    }
  }

  // The first time a lookup comes to a page.
  lemma {:induction false} FirstStop(trail: seq<Stop>, q: PageId, i: nat) returns (k: nat)
    requires i < |trail| && trail[i].page == q
    ensures k <= i && trail[k].page == q && forall j :: 0 <= j < k ==> trail[j].page != q
  {
    k := 0;
    while trail[k].page != q
      invariant k <= i && forall j :: 0 <= j < k ==> trail[j].page != q
      decreases i - k
    {
      k := k + 1;
    }
  }

  // ----- what readers are told

  ghost predicate SameAnswers(s: Db, s': Db, c: PageId) {
    && c in s.txns && c in s'.txns
    && forall key, fuel :: ReadRoot(s'.nodes, s'.txns[c].root, key, fuel) == ReadRoot(s.nodes, s.txns[c].root, key, fuel)
  }

  lemma {:induction false} KeptAnswers(s: Db, s': Db, c: PageId, t: Option<Tree>)
    requires c in s.txns && c in s'.txns && s'.txns[c].root == s.txns[c].root && OptHolds(s.nodes, s.txns[c].root, t)
    requires forall p :: p in VisitedPages(s.nodes, s.txns[c].root) ==> SameAt(s.nodes, s'.nodes, p)
    ensures SameAnswers(s, s', c)
  {
    if t.Some? {
      forall key, fuel
        ensures ReadRoot(s'.nodes, s'.txns[c].root, key, fuel) == ReadRoot(s.nodes, s.txns[c].root, key, fuel)
      {
        var trail := Trail(s.nodes, t.value.page, key, fuel);
        forall i | 0 <= i < |trail|
          ensures SameAt(s.nodes, s'.nodes, trail[i].page)
        {
          TrailInTree(s.nodes, t.value, key, fuel, i);
          assert OnTrail(s.nodes, t.value.page, key, fuel, trail[i].page);
          assert trail[i].page in VisitedPages(s.nodes, s.txns[c].root);
        }
        TrailDecides(s.nodes, s'.nodes, t.value, key, fuel);
      }
    }
  }

  // A visited page with other content changes an answer; the other visited pages need not.
  lemma {:induction false} LostAnswer(s: Db, s': Db, c: PageId, q: PageId, key: seq<Byte>, fuel: nat, i: nat, v: seq<Byte>)
    requires c in s.txns && c in s'.txns && s'.txns[c].root == s.txns[c].root && s.txns[c].root.Some?
    requires i < |Trail(s.nodes, s.txns[c].root.value, key, fuel)|
    requires forall j :: 0 <= j < i ==> SameAt(s.nodes, s'.nodes, Trail(s.nodes, s.txns[c].root.value, key, fuel)[j].page)
    requires Trail(s.nodes, s.txns[c].root.value, key, fuel)[i].page == q && q in s'.nodes
    requires s'.nodes[q].node.data == LeafData(Trail(s.nodes, s.txns[c].root.value, key, fuel)[i].rest, v)
    requires ReadRoot(s.nodes, s.txns[c].root, key, fuel) != Some(v)
    ensures !SameAnswers(s, s', c)
  {
    OverwrittenAnswers(s.nodes, s'.nodes, s.txns[c].root.value, key, fuel, i, v);
    assert ReadRoot(s'.nodes, s'.txns[c].root, key, fuel) == Some(v);
  }

  // The copied allocator state can hand out none of the pages lookups from the writer's root visit.
  ghost predicate Spared(s: Db)
    requires Writing(s) && s.nextTxn.Some? && s.nextTxn.value in s.txns
  {
    var m0 := s.txns[s.nextTxn.value].mem;
    forall p :: p in VisitedPages(s.nodes, Me(s).root) ==> p < m0.frontier && !IsFree(m0, p)
  }

  // The store after the commit, with a reader on the committed transaction.
  function Pinned(s: Db, cursor: nat): Db {
    var t := Commit(s, cursor);
    AddRef(t, t.readTxn)
  }

  // ----- the safe half

  ghost function Keep(h: Heap, root: Option<PageId>): Heap {
    map p | p in VisitedPages(h, root) :: h[p]
  }

  ghost function ReaderOf(s: Db): PageRuns.Reader
    requires Writing(s)
  {
    PageRuns.Reader(s.active.value, Me(s).id, Me(s).root, Keep(s.nodes, Me(s).root))
  }

  // The committed chain: from the oldest transaction in use to the writer's.
  ghost predicate ChainAfter(s: Db, g: View, k: nat, chain: seq<PageId>)
    requires Writing(s)
  {
    k < |g.chain| && g.chain[k] == Me(s).start && chain == g.chain[k..] + [s.active.value]
  }

  lemma {:induction false} ChainAfterIs(s: Db, g: View) returns (k: nat, chain: seq<PageId>)
    requires Awaits(s, g)
    ensures Writing(s) && ChainAfter(s, g, k, chain)
  {
    hide Forest, MemSafe, Reserved, Descends;
    k :| 0 <= k < |g.chain| && g.chain[k] == Me(s).start;
    chain := g.chain[k..] + [s.active.value];
  }

  // Nothing between here and the start of the next transaction touches these.
  lemma {:induction false} PinnedFacts(s: Db, g: View, cursor: nat)
    requires Awaits(s, g) && s.cursor == cursor
    ensures var t := Pinned(s, cursor);
      var a := s.active.value;
      && t.nodes == s.nodes && t.readTxn == a && t.preparedTxn == a && t.active.None? && t.startId == s.startId && t.nextTxn == s.nextTxn
      && a in s.txns && t.txns == s.txns[a := s.txns[a].(refs := s.txns[a].refs + 1)]
  {
    hide Forest, MemSafe, Reserved, Descends, Committed;
  }

  lemma {:induction false} AwaitsChain(s: Db, g: View, cursor: nat, k: nat, chain: seq<PageId>)
    requires Awaits(s, g) && s.cursor == cursor && ChainAfter(s, g, k, chain)
    ensures PageRuns.ChainIs(Pinned(s, cursor), chain) && s.txns[chain[0]].id == s.startId
  {
    hide Forest, MemSafe, Reserved, Descends, SnapOk;
    PinnedFacts(s, g, cursor);
    var t, a := Pinned(s, cursor), s.active.value;
    var n := |g.chain| - 1;
    assert forall i :: 0 <= i < |chain| - 1 ==> chain[i] == g.chain[k + i];
    assert chain[|chain| - 1] == a && a !in g.chain;
    forall i, j | 0 <= i && j == i + 1 && j < |chain|
      ensures t.txns[chain[i]].next == Some(chain[j])
    {
      if j < |chain| - 1 {
        assert s.txns[g.chain[k + i]].next == Some(g.chain[k + i + 1]);
      }
    }
  }

  // A committed page in use is in neither allocator state.
  lemma {:induction false} ChainClear(s: Db, g: View, k: nat, chain: seq<PageId>, m: Mem)
    requires Awaits(s, g) && ChainAfter(s, g, k, chain)
    requires m == Me(s).mem || m == s.txns[s.nextTxn.value].mem
    ensures PageRuns.Clear(m, PageRuns.Members(chain) + {s.nextTxn.value}) && Tidy(m)
  {
    hide Awaits, Tidy, IsFree;
    OwnClear(s, g);
    forall c | c in chain
      ensures c < m.frontier && !IsFree(m, c)
    {
      if c != s.active.value {
        var i :| 0 <= i < |chain| - 1 && chain[i] == c;
        assert c == g.chain[k + i];
        LiveClear(s, g, k + i, k);
      }
    }
    assert forall p :: p in PageRuns.Members(chain) ==> p in chain;
    forall e | e in Entries(m)
      ensures e.page !in PageRuns.Members(chain) + {s.nextTxn.value}
    {
      EntryFree(m, e);
    }
  }

  lemma {:induction false} EntryFree(m: Mem, e: Garbage)
    requires e in Entries(m)
    ensures IsFree(m, e.page)
  {
  }

  // The writer's page and the one kept for the next transaction are in neither state.
  lemma {:induction false} OwnClear(s: Db, g: View)
    requires Awaits(s, g)
    ensures s.active.Some? && s.active.value in s.txns && s.nextTxn.Some? && s.nextTxn.value in s.txns
    ensures forall m :: m == Me(s).mem || m == s.txns[s.nextTxn.value].mem ==>
              Tidy(m) && s.active.value < m.frontier && !IsFree(m, s.active.value) && s.nextTxn.value < m.frontier && !IsFree(m, s.nextTxn.value)
  {
    hide Forest, Descends, SnapOk, Tidy, IsFree;
  }

  lemma {:induction false} LiveClear(s: Db, g: View, i: nat, k: nat)
    requires Awaits(s, g) && k <= i < |g.chain| && g.chain[k] == Me(s).start
    ensures g.chain[i] < Me(s).mem.frontier && !IsFree(Me(s).mem, g.chain[i])
    ensures var m0 := s.txns[s.nextTxn.value].mem; g.chain[i] < m0.frontier && !IsFree(m0, g.chain[i])
  {
    hide Forest, SnapOk, Tidy, Reserved;
    var c := g.chain[i];
    assert Live(s, c);
    var m0 := s.txns[s.nextTxn.value].mem;
    forall e | e in Entries(m0)
      ensures e.page != c
    {
      StillQueued(m0, Me(s).mem, s.startId, e);
      assert e in Entries(Me(s).mem) ==> IsFree(Me(s).mem, e.page);
    }
  }

  lemma {:induction false} VisitedUsed(s: Db, g: View, p: PageId)
    requires Awaits(s, g) && g.hole.None? && p in VisitedPages(s.nodes, Me(s).root)
    ensures p in s.nodes && s.nodes[p].txn <= Me(s).id && p < Me(s).mem.frontier && !IsFree(Me(s).mem, p)
  {
    hide MemSafe, Reserved, Descends, SnapOk, CloneOk;
    var key, fuel :| OnTrail(s.nodes, Me(s).root.value, key, fuel, p);
    var t := g.main.value;
    var i :| 0 <= i < |Trail(s.nodes, t.page, key, fuel)| && Trail(s.nodes, t.page, key, fuel)[i].page == p;
    TrailInTree(s.nodes, t, key, fuel, i);
    assert p in Used(g);
  }

  lemma {:induction false} GuardFree(m: Mem, pages: set<PageId>, top: nat)
    requires forall p :: p in pages ==> p < m.frontier && !IsFree(m, p)
    ensures PageRuns.Guards(m, pages, top)
  {
    forall e | e in Entries(m)
      ensures e.page !in pages
    {
      assert IsFree(m, e.page);
    }
  }

  // If the copied state spares the reader's pages, they are shielded from the commit on.
  lemma {:induction false} CommitShields(s: Db, g: View, cursor: nat) returns (w: PageRuns.Watch)
    requires Awaits(s, g) && g.hole.None? && s.cursor == cursor && Spared(s)
    ensures PageRuns.Shield(Pinned(s, cursor), w, ReaderOf(s))
  {
    hide Committed, Active, CloneOk, PageRuns.ChainIs, PageRuns.Clear, PageRuns.Guards, Tidy, PageRuns.Members;
    var k, chain := ChainAfterIs(s, g);
    w := PageRuns.Watch(chain, 0);
    PinnedFacts(s, g, cursor);
    AwaitsChain(s, g, cursor, k, chain);
    AwaitsNext(s, g, k, chain);
    var m, m0 := Me(s).mem, s.txns[s.nextTxn.value].mem;
    ChainClear(s, g, k, chain, m);
    ChainClear(s, g, k, chain, m0);
    var r := ReaderOf(s);
    forall p | p in VisitedPages(s.nodes, Me(s).root)
      ensures p in s.nodes && s.nodes[p].txn <= Me(s).id && p < m.frontier && !IsFree(m, p)
    {
      VisitedUsed(s, g, p);
    }
    assert r.keep.Keys == VisitedPages(s.nodes, Me(s).root);
    GuardFree(m, r.keep.Keys, r.id);
    GuardFree(m0, r.keep.Keys, r.id);
  }

  lemma {:induction false} AwaitsNext(s: Db, g: View, k: nat, chain: seq<PageId>)
    requires Awaits(s, g) && ChainAfter(s, g, k, chain)
    ensures s.nextTxn.Some? && s.nextTxn.value in s.txns && s.nextTxn.value !in chain && s.active.value in chain
    ensures s.nextTxn.value != s.active.value && s.startId <= Me(s).id
  {
    hide Forest, MemSafe, Descends, SnapOk;
    assert forall i :: 0 <= i < |chain| - 1 ==> chain[i] == g.chain[k + i];
    assert chain[|chain| - 1] == s.active.value;
  }

  // Then the reader's answers last, whatever the writers do.
  lemma {:induction false} SparedKeepsAnswers(s: Db, g: View, cursor: nat, ss: seq<Db>, ops: seq<PageRuns.PageOp>)
    requires Awaits(s, g) && g.hole.None? && s.cursor == cursor && Spared(s)
    requires PageRuns.Run(ss, ops) && ss[0] == Pinned(s, cursor) && PageRuns.ReadThroughout(ss, s.active.value)
    ensures SameAnswers(ss[0], ss[|ss| - 1], s.active.value)
  {
    hide Committed, Active, CloneOk;
    var w := CommitShields(s, g, cursor);
    PinnedFacts(s, g, cursor);
    var w' := PageRuns.RunShields(ss, ops, w, ReaderOf(s), |ss| - 1);
    RootHeld(s, g);
    KeptAnswers(ss[0], ss[|ss| - 1], s.active.value, g.main);
  }

  lemma {:induction false} RootHeld(s: Db, g: View)
    requires Awaits(s, g) && g.hole.None?
    ensures OptHolds(s.nodes, Me(s).root, g.main)
  {
  }

  // ----- the failing half

  // Taking pages of this size class again and again, the allocator comes to p.
  ghost predicate Target(m: Mem, slot: nat, start: nat, p: PageId) {
    && slot < |m.slots|
    && (p >= m.frontier || exists j :: 0 <= j < |m.slots[slot]| && Reaches(m.slots[slot], j, start, p))
  }

  ghost predicate Reaches(q: seq<Garbage>, j: nat, start: nat, p: PageId)
    requires j < |q|
  {
    q[j].page == p && forall i :: 0 <= i <= j ==> q[i].freed < start
  }

  ghost function Distance(m: Mem, slot: nat, p: PageId): nat
    requires slot < |m.slots|
  {
    |m.slots[slot]| + if p >= m.frontier then p - m.frontier + 1 else 0
  }

  lemma {:induction false} TargetNears(m: Mem, slot: nat, start: nat, p: PageId)
    requires Target(m, slot, start, p) && Alloc(m, slot, start).1 != p
    ensures var m' := Alloc(m, slot, start).0; Target(m', slot, start, p) && Distance(m', slot, p) < Distance(m, slot, p)
  {
    var m' := Alloc(m, slot, start).0;
    if p < m.frontier {
      var q := m.slots[slot];
      var j :| 0 <= j < |q| && Reaches(q, j, start, p);
      assert q[0].freed < start && MayPop(m, slot, start);
      assert j > 0 && m'.slots[slot] == q[1..];
      assert Reaches(q[1..], j - 1, start, p);
    }
  }

  // A writer at work on whom the reader's answers do not depend yet.
  ghost predicate Taking(u: Db, t: Db, a: PageId) {
    && Writing(u) && !Prepared(u) && a in t.txns && a in u.txns && u.active != Some(a) && u.txns[a] == t.txns[a] && t.txns[a].refs > 0
    && PageRuns.Clear(Me(u).mem, {a})
    && t.txns[a].root.Some? && forall p :: p in VisitedPages(t.nodes, t.txns[a].root) ==> SameAt(t.nodes, u.nodes, p)
  }

  lemma {:induction false} TakeGoesOn(u: Db, t: Db, a: PageId, slot: nat, node: Node)
    requires Taking(u, t, a)
    ensures var (u', q) := NewNode(u, slot, node);
      && a in u'.txns && u'.txns[a] == t.txns[a] && u'.active == u.active && Writing(u') && !Prepared(u') && u'.startId == u.startId
      && Me(u').mem == Alloc(Me(u).mem, slot, u.startId).0 && PageRuns.Clear(Me(u').mem, {a})
      && q in u'.nodes && u'.nodes[q].node == node && forall p :: p in u.nodes && p != q ==> p in u'.nodes && u'.nodes[p] == u.nodes[p]
  {
    ClearAlloc(Me(u).mem, slot, u.startId, a);
  }

  lemma {:induction false} ClearAlloc(m: Mem, slot: nat, start: nat, a: PageId)
    requires PageRuns.Clear(m, {a})
    ensures Alloc(m, slot, start).1 != a && PageRuns.Clear(Alloc(m, slot, start).0, {a})
  {
    AllocEntries(m, slot, start);
    if MayPop(m, slot, start) {
      assert Has(m, slot, 0) && At(m, slot, 0) in Entries(m);
    }
  }

  // The page that is handed out is one the reader visits: other content changes an answer.
  lemma {:induction false} Hit(u: Db, t: Db, a: PageId, slot: nat) returns (node: Node)
    requires Taking(u, t, a) && AllocPage(u, slot).1 in VisitedPages(t.nodes, t.txns[a].root)
    ensures !SameAnswers(t, NewNode(u, slot, node).0, a)
  {
    hide PageRuns.Clear, SameAnswers, VisitedPages, NewNode;
    var q, root := AllocPage(u, slot).1, t.txns[a].root;
    var key, fuel, i := VisitOf(t.nodes, root, q);
    var trail := Trail(t.nodes, root.value, key, fuel);
    var k := FirstStop(trail, q, i);
    var v := if ReadRoot(t.nodes, root, key, fuel) == Some([0]) then [1] else [0];
    node := Node(LeafData(trail[k].rest, v), []);
    TakeGoesOn(u, t, a, slot, node);
    var u' := NewNode(u, slot, node).0;
    assert NewNode(u, slot, node).1 == q by { NewNodePage(u, slot, node); }
    forall j | 0 <= j < k
      ensures SameAt(t.nodes, u'.nodes, trail[j].page)
    {
      StopVisited(t.nodes, root, key, fuel, j);
      assert SameAt(t.nodes, u.nodes, trail[j].page);
    }
    LostAnswer(t, u', a, q, key, fuel, k, v);
  }

  lemma {:induction false} NewNodePage(u: Db, slot: nat, node: Node)
    requires Writing(u)
    ensures NewNode(u, slot, node).1 == AllocPage(u, slot).1
  {
  }

  lemma {:induction false} VisitOf(h: Heap, root: Option<PageId>, q: PageId) returns (key: seq<Byte>, fuel: nat, i: nat)
    requires q in VisitedPages(h, root)
    ensures root.Some? && i < |Trail(h, root.value, key, fuel)| && Trail(h, root.value, key, fuel)[i].page == q
  {
    key, fuel :| OnTrail(h, root.value, key, fuel, q);
    i :| 0 <= i < |Trail(h, root.value, key, fuel)| && Trail(h, root.value, key, fuel)[i].page == q;
  }

  lemma {:induction false} StopVisited(h: Heap, root: Option<PageId>, key: seq<Byte>, fuel: nat, j: nat)
    requires root.Some? && j < |Trail(h, root.value, key, fuel)|
    ensures Trail(h, root.value, key, fuel)[j].page in VisitedPages(h, root)
  {
    var p := Trail(h, root.value, key, fuel)[j].page;
    TrailInHeap(h, root.value, key, fuel, j);
    assert OnTrail(h, root.value, key, fuel, p);
  }

  lemma {:induction false} TrailInHeap(h: Heap, p: PageId, key: seq<Byte>, fuel: nat, j: nat)
    requires j < |Trail(h, p, key, fuel)|
    ensures Trail(h, p, key, fuel)[j].page in h
    decreases fuel
  {
    if j > 0 {
      var d := h[p].node.data;
      var rest := key[|d.compressed|..];
      var k := KeyIndex(d.keys, if rest == [] then NONE else rest[0]).value;
      TrailInHeap(h, h[p].node.kids[k], rest, fuel - 1, j - 1);
    }
  }

  // Taking pages until the reader loses an answer.
  lemma {:induction false} TakeUntilLost(u: Db, t: Db, a: PageId, slot: nat, p: PageId) returns (ss: seq<Db>, ops: seq<PageRuns.PageOp>)
    requires Taking(u, t, a) && Target(Me(u).mem, slot, u.startId, p) && p in VisitedPages(t.nodes, t.txns[a].root)
    ensures PageRuns.Run(ss, ops) && ss[0] == u && PageRuns.ReadThroughout(ss, a) && !SameAnswers(t, ss[|ss| - 1], a)
    decreases Distance(Me(u).mem, slot, p)
  {
    hide PageRuns.Clear, SameAnswers, VisitedPages, Target, NewNode, Distance, Alloc, SameAt;
    TargetSlot(Me(u).mem, slot, u.startId, p);
    var q := AllocPage(u, slot).1;
    if q in VisitedPages(t.nodes, t.txns[a].root) {
      var node := Hit(u, t, a, slot);
      TakeGoesOn(u, t, a, slot, node);
      ss, ops := [u, NewNode(u, slot, node).0], [PageRuns.Take(slot, node)];
    } else {
      var node := Node(LeafData([], []), []);
      TakeGoesOn(u, t, a, slot, node);
      NewNodePage(u, slot, node);
      var u' := NewNode(u, slot, node).0;
      StillTaking(u, u', t, a, q);
      TargetNears(Me(u).mem, slot, u.startId, p);
      var rest, more := TakeUntilLost(u', t, a, slot, p);
      ss, ops := [u] + rest, [PageRuns.Take(slot, node)] + more;
      RunFirst(u, PageRuns.Take(slot, node), rest, more, a);
    }
  }

  lemma {:induction false} TargetSlot(m: Mem, slot: nat, start: nat, p: PageId)
    requires Target(m, slot, start, p)
    ensures slot < |m.slots|
  {
  }

  lemma {:induction false} StillTaking(u: Db, u': Db, t: Db, a: PageId, q: PageId)
    requires Taking(u, t, a) && q !in VisitedPages(t.nodes, t.txns[a].root)
    requires Writing(u') && !Prepared(u') && u'.active == u.active && a in u'.txns && u'.txns[a] == t.txns[a] && PageRuns.Clear(Me(u').mem, {a})
    requires forall p :: p in u.nodes && p != q ==> p in u'.nodes && u'.nodes[p] == u.nodes[p]
    ensures Taking(u', t, a)
  {
    hide VisitedPages, PageRuns.Clear;
    forall p | p in VisitedPages(t.nodes, t.txns[a].root)
      ensures SameAt(t.nodes, u'.nodes, p)
    {
      assert SameAt(t.nodes, u.nodes, p);
    }
  }

  lemma {:induction false} RunFirst(u: Db, op: PageRuns.PageOp, rest: seq<Db>, more: seq<PageRuns.PageOp>, a: PageId)
    requires PageRuns.Run(rest, more) && PageRuns.Allowed(u, op) && rest[0] == PageRuns.Do(u, op)
    requires a in u.txns && u.txns[a].refs > 0 && PageRuns.ReadThroughout(rest, a)
    ensures PageRuns.Run([u] + rest, [op] + more) && PageRuns.ReadThroughout([u] + rest, a)
  {
    hide PageRuns.Allowed, PageRuns.Do;
    var ss, ops := [u] + rest, [op] + more;
    forall i | 0 <= i < |ops|
      ensures PageRuns.StepAt(ss, ops, i)
    {
      if i > 0 {
        assert PageRuns.StepAt(rest, more, i - 1);
        assert ss[i] == rest[i - 1] && ss[i + 1] == rest[i] && ops[i] == more[i - 1];
      }
    }
    forall i | 0 <= i < |ss|
      ensures a in ss[i].txns && ss[i].txns[a].refs > 0
    {
      if i > 0 { assert ss[i] == rest[i - 1]; }
    }
  }

  // Pages were only appended to the queues.
  ghost predicate Grown(m0: Mem, m: Mem) {
    && m.frontier == m0.frontier && |m.slots| == |m0.slots|
    && forall i :: 0 <= i < |m0.slots| ==> m0.slots[i] <= m.slots[i]
  }

  lemma {:induction false} FreeGrows(m0: Mem, m: Mem, p: PageId, slot: nat, txn: nat, a: PageId)
    requires Grown(m0, m) && PageRuns.Clear(m, {a}) && p != a
    ensures Grown(m0, Free(m, p, slot, txn)) && PageRuns.Clear(Free(m, p, slot, txn), {a})
  {
    PageRuns.FreeEntries(m, p, slot, txn);
  }

  // What the chain walk leaves: every record but the writer's, and queues that only grew.
  ghost predicate Walked(s: Db, u: Db, oldest: nat) {
    && Writing(s) && Writing(u) && u.nodes == s.nodes && u.active == s.active && u.preparedTxn == s.preparedTxn && u.readTxn == s.readTxn
    && u.startId >= oldest && (forall c :: c in s.txns && s.active != Some(c) ==> c in u.txns && u.txns[c] == s.txns[c])
  }

  lemma {:induction false} CollectWalks(s: Db, chain: seq<PageId>, j: nat, fuel: nat, m0: Mem)
    requires Writing(s) && PageRuns.ChainIs(s, chain) && s.active.value !in chain && j < |chain|
    requires Grown(m0, Me(s).mem) && PageRuns.Clear(Me(s).mem, {s.readTxn})
    ensures var u := Collect(s, chain[j], s.readTxn, fuel);
      Walked(s, u, s.txns[chain[0]].id) && Grown(m0, Me(u).mem) && PageRuns.Clear(Me(u).mem, {s.readTxn})
    decreases fuel
  {
    hide PageRuns.Clear, Grown;
    var c := chain[j];
    assert c in chain && s.txns[chain[0]].id <= s.txns[c].id;
    if !(c == s.readTxn || s.txns[c].refs > 0 || fuel == 0 || s.txns[c].next.None?) {
      var s1 := FreePage(s, c, s.txns[c].slot);
      FreeGrows(m0, Me(s).mem, c, s.txns[c].slot, Me(s).id, s.readTxn);
      assert j + 1 < |chain| && s.txns[c].next == Some(chain[j + 1]);
      assert PageRuns.ChainIs(s1, chain);
      CollectWalks(s1, chain, j + 1, fuel - 1, m0);
    }
  }

  // The next transaction starts from the copy, with the reader where it was.
  lemma {:induction false} StartedTakes(s: Db, g: View, cursor: nat) returns (u: Db)
    requires Awaits(s, g) && g.hole.None? && s.cursor == cursor && Me(s).root.Some?
    ensures u == StartTransaction(Pinned(s, cursor), 1) && s.active.Some?
    ensures Taking(u, Pinned(s, cursor), s.active.value) && u.startId >= s.startId
    ensures Grown(s.txns[s.nextTxn.value].mem, Me(u).mem)
  {
    hide Awaits, PageRuns.Clear, Grown, VisitedPages, PageRuns.ChainIs, Collect;
    var k, chain := ChainAfterIs(s, g);
    PinnedFacts(s, g, cursor);
    AwaitsChain(s, g, cursor, k, chain);
    AwaitsNext(s, g, k, chain);
    OwnClear(s, g);
    var t, a, m0 := Pinned(s, cursor), s.active.value, s.txns[s.nextTxn.value].mem;
    PageRuns.ChainLengthIs(t, chain);
    var b := PageRuns.Begun(t, 1);
    u := StartTransaction(t, 1);
    assert u == Collect(b, chain[0], b.readTxn, ChainLength(t));
    BegunChain(t, chain, 1);
    GrownSelf(m0);
    ClearOne(m0, a);
    CollectWalks(b, chain, 0, ChainLength(t), m0);
    VisitedSame(s.nodes, Me(s).root);
    assert t.txns[chain[0]].id == s.txns[chain[0]].id;
  }

  lemma {:induction false} BegunChain(t: Db, chain: seq<PageId>, cursor: nat)
    requires PageRuns.ChainIs(t, chain) && t.nextTxn.Some? && t.nextTxn.value in t.txns && t.nextTxn.value !in chain
    ensures t.readTxn in t.txns && PageRuns.ChainIs(PageRuns.Begun(t, cursor), chain)
    ensures chain[0] in t.txns && PageRuns.Begun(t, cursor).txns[chain[0]] == t.txns[chain[0]]
  {
  }

  lemma {:induction false} GrownSelf(m: Mem)
    ensures Grown(m, m)
  {
  }

  lemma {:induction false} ClearOne(m: Mem, a: PageId)
    requires a < m.frontier && !IsFree(m, a)
    ensures PageRuns.Clear(m, {a})
  {
    forall e | e in Entries(m)
      ensures e.page != a
    {
      assert IsFree(m, e.page);
    }
  }

  lemma {:induction false} VisitedSame(h: Heap, root: Option<PageId>)
    ensures forall p :: p in VisitedPages(h, root) ==> SameAt(h, h, p)
  {
  }

  // A page of the reader that the copy can hand out comes up sooner or later.
  lemma {:induction false} UnsparedTarget(s: Db, g: View, p: PageId, m: Mem, start: nat) returns (slot: nat)
    requires Awaits(s, g) && g.hole.None? && p in VisitedPages(s.nodes, Me(s).root)
    requires var m0 := s.txns[s.nextTxn.value].mem; (p >= m0.frontier || IsFree(m0, p)) && Grown(m0, m)
    requires start >= s.startId
    ensures Target(m, slot, start, p)
  {
    hide Awaits;
    VisitedUsed(s, g, p);
    AwaitsDescends(s, g);
    var m0 := s.txns[s.nextTxn.value].mem;
    if p >= m0.frontier {
      slot := 0;
    } else {
      var e :| e in Entries(m0) && e.page == p;
      slot := PoppedTarget(m0, Me(s).mem, s.startId, e, m, start);
    }
  }

  lemma {:induction false} AwaitsDescends(s: Db, g: View)
    requires Awaits(s, g)
    ensures s.active.Some? && s.active.value in s.txns && s.nextTxn.Some? && s.nextTxn.value in s.txns
    ensures Descends(s.txns[s.nextTxn.value].mem, Me(s).mem, s.startId) && |s.txns[s.nextTxn.value].mem.slots| > 0
  {
    hide Forest, MemSafe, Reserved, SnapOk, Descends;
  }

  lemma {:induction false} PoppedTarget(m0: Mem, m1: Mem, oldStart: nat, e: Garbage, m: Mem, start: nat) returns (slot: nat)
    requires Descends(m0, m1, oldStart) && e in Entries(m0) && !IsFree(m1, e.page) && Grown(m0, m) && start >= oldStart
    ensures Target(m, slot, start, e.page)
  {
    var i: nat, j: nat :| i < |m0.slots| && j < |m0.slots[i]| && m0.slots[i][j] == e;
    slot := i;
    var q0, q1, q := m0.slots[i], m1.slots[i], m.slots[i];
    assert GoesOn(q0, q1, oldStart);
    var d: nat :| d <= |q0| && q0[d..] <= q1 && PoppedBefore(q0, d, oldStart);
    forall x | d <= x < |q0|
      ensures IsFree(m1, q0[x].page)
    {
      assert q0[d..][x - d] == q0[x] && q1[x - d] == q0[x];
      assert m1.slots[i][x - d] in Entries(m1);
    }
    assert q[j] == e && forall h :: 0 <= h <= j ==> q[h] == q0[h];
    assert Reaches(q, j, start, e.page);
  }

  // Otherwise there is a continuation in which the reader loses an answer.
  lemma {:induction false} UnsparedLosesAnswer(s: Db, g: View, cursor: nat) returns (ss: seq<Db>, ops: seq<PageRuns.PageOp>)
    requires Awaits(s, g) && g.hole.None? && s.cursor == cursor && !Spared(s)
    ensures PageRuns.Run(ss, ops) && ss[0] == Pinned(s, cursor) && s.active.Some? && PageRuns.ReadThroughout(ss, s.active.value)
    ensures !SameAnswers(ss[0], ss[|ss| - 1], s.active.value)
  {
    hide Awaits, Grown, Target, PageRuns.Clear, SameAnswers, VisitedPages, StartTransaction, SameAt;
    AwaitsDescends(s, g);
    var m0, a, t := s.txns[s.nextTxn.value].mem, s.active.value, Pinned(s, cursor);
    var p :| p in VisitedPages(s.nodes, Me(s).root) && (p >= m0.frontier || IsFree(m0, p));
    VisitedRoot(s.nodes, Me(s).root, p);
    PinnedFacts(s, g, cursor);
    var u := StartedTakes(s, g, cursor);
    var slot := UnsparedTarget(s, g, p, Me(u).mem, u.startId);
    var rest, more := TakeUntilLost(u, t, a, slot, p);
    ss, ops := [t] + rest, [PageRuns.Start(1)] + more;
    RunFirst(t, PageRuns.Start(1), rest, more, a);
    assert ss[|ss| - 1] == rest[|rest| - 1];
  }

  lemma {:induction false} VisitedRoot(h: Heap, root: Option<PageId>, p: PageId)
    requires p in VisitedPages(h, root)
    ensures root.Some?
  {
  }

  // ----- both halves

  // Every continuation in which somebody reads the committed transaction throughout gives it the same answers.
  ghost predicate AnswersLast(t: Db, a: PageId) {
    forall ss: seq<Db>, ops: seq<PageRuns.PageOp> ::
      PageRuns.Run(ss, ops) && ss[0] == t && PageRuns.ReadThroughout(ss, a) ==> SameAnswers(t, ss[|ss| - 1], a)
  }

  // A commit after prepare_commit, whatever was edited in between, is safe for the readers of what it commits exactly if the
  // allocator state copied by prepare_commit can hand out none of the pages their lookups visit.
  lemma {:induction false} AnswersLastIffSpared(s: Db, g: View, cursor: nat)
    requires Awaits(s, g) && g.hole.None? && s.cursor == cursor
    ensures s.active.Some? && s.active.value in s.txns && s.nextTxn.Some? && s.nextTxn.value in s.txns
    ensures AnswersLast(Pinned(s, cursor), s.active.value) <==> Spared(s)
  {
    hide Awaits, SameAnswers, PageRuns.StepAt, PageRuns.ReadThroughout, Pinned;
    AwaitsDescends(s, g);
    if Spared(s) {
      forall ss: seq<Db>, ops: seq<PageRuns.PageOp> | PageRuns.Run(ss, ops) && ss[0] == Pinned(s, cursor) && PageRuns.ReadThroughout(ss, s.active.value)
        ensures SameAnswers(Pinned(s, cursor), ss[|ss| - 1], s.active.value)
      {
        SparedKeepsAnswers(s, g, cursor, ss, ops);
      }
    } else {
      var ss, ops := UnsparedLosesAnswer(s, g, cursor);
      assert !AnswersLast(Pinned(s, cursor), s.active.value);
    }
  }
}
