// No page is lost: whatever has been handed out is the page of a transaction in the chain, of the next one, or of a
// node in use, or it waits in a queue to be handed out again.

module Conservation {
  import opened Common
  import opened Memory
  import opened Trees
  import opened Store
  import opened Invariants
  import opened WriterSteps
  import opened Edits
  import opened TxnSteps
  import opened Snapshots
  import opened AfterPrepare
  import opened Runs

  // What an allocator has handed out and not got back.
  ghost function InPlay(m: Mem): set<PageId> {
    set p: nat | p < m.frontier && !IsFree(m, p)
  }

  lemma {:induction false} AllocEntriesExact(m: Mem, slot: nat, start: nat, e: Garbage)
    requires Tidy(m)
    ensures var (m', p) := Alloc(m, slot, start); e in Entries(m') <==> e in Entries(m) && e.page != p
  {
    AllocTakesOldPage(m, slot, start);
    var (m', p) := Alloc(m, slot, start);
    if e in Entries(m') {
      assert !IsFree(m', p);
    }
    if e in Entries(m) && e.page != p {
      var i: nat, j: nat :| i < |m.slots| && j < |m.slots[i]| && m.slots[i][j] == e;
      var k := if MayPop(m, slot, start) && i == slot then j - 1 else j;
      assert !(MayPop(m, slot, start) && i == slot && j == 0);
      assert Has(m', i, k) && At(m', i, k) == e;
    }
  }

  lemma {:induction false} AllocInPlay(m: Mem, slot: nat, start: nat)
    requires Tidy(m)
    ensures var (m', p) := Alloc(m, slot, start); p !in InPlay(m) && InPlay(m') == InPlay(m) + {p} && (InOrder(m) ==> InOrder(m'))
  {
    var (m', p) := Alloc(m, slot, start);
    if InOrder(m) { AllocKeepsOrder(m, slot, start); }
    AllocTakesOldPage(m, slot, start);
    if p != m.frontier {
      assert Has(m, slot, 0) && At(m, slot, 0) in Entries(m);
    }
    forall q
      ensures q in InPlay(m') <==> q in InPlay(m) || q == p
    {
      if e :| e in Entries(m) && e.page == q {
        AllocEntriesExact(m, slot, start, e);
      }
      if e :| e in Entries(m') && e.page == q {
        AllocEntriesExact(m, slot, start, e);
      }
    }
  }

  lemma {:induction false} FreeInPlay(m: Mem, p: PageId, slot: nat, txn: nat)
    requires Tidy(m) && p in InPlay(m) && slot < |m.slots|
    requires InOrder(m) && forall e :: e in Entries(m) ==> e.freed <= txn
    ensures InPlay(Free(m, p, slot, txn)) == InPlay(m) - {p} && InOrder(Free(m, p, slot, txn))
  {
    FreeKeepsOrder(m, p, slot, txn);
    FreeAddsEntry(m, p, slot, txn);
    var m' := Free(m, p, slot, txn);
    assert Garbage(p, txn) in Entries(m');
    forall q
      ensures q in InPlay(m') <==> q in InPlay(m) && q != p
    {
      if e :| e in Entries(m') && e.page == q {
        assert e in Entries(m) || e == Garbage(p, txn);
      }
    }
  }

  // ----- the writer's side

  ghost function LiveChain(s: Db, g: View): set<PageId> {
    set c | c in g.chain && Live(s, c)
  }

  // The page prepare_commit keeps for the next transaction.
  ghost function NextPage(s: Db): set<PageId> {
    if Prepared(s) && s.nextTxn.Some? then {s.nextTxn.value} else {}
  }

  ghost predicate Accounted(s: Db, g: View, used: set<PageId>)
    requires Writing(s)
  {
    InPlay(Me(s).mem) == used + LiveChain(s, g) + {s.active.value} + NextPage(s) && NextPage(s) !! used && InOrder(Me(s).mem)
  }

  lemma {:induction false} SameAccounts(s: Db, s': Db, g: View)
    requires Untouched(s, s', g) && Committed(s, g)
    ensures LiveChain(s', g) == LiveChain(s, g) && NextPage(s') == NextPage(s) && s'.active == s.active
  {
  }

  lemma {:induction false} TidyMem(s: Db, g: View, used: set<PageId>)
    requires Committed(s, g) && Owning(s, g, used)
    ensures Writing(s) && Tidy(Me(s).mem) && forall e :: e in Entries(Me(s).mem) ==> e.freed <= Me(s).id
    ensures s.active.value !in used && forall p :: p in used ==> p !in g.chain
  {
  }

  lemma {:induction false} NewNodeAccounted(s: Db, g: View, used: set<PageId>, slot: nat, node: Node)
    requires Writing(s) && Committed(s, g) && Owning(s, g, used) && Accounted(s, g, used) && slot < |Me(s).mem.slots|
    ensures var (s', p) := NewNode(s, slot, node); Writing(s') && Accounted(s', g, used + {p}) && p !in used
  {
    hide Committed, Owning, Untouched, InOrder, InPlay, LiveChain, NextPage;
    TidyMem(s, g, used);
    NewNodeKeeps(s, g, used, slot, node);
    var s' := NewNode(s, slot, node).0;
    SameAccounts(s, s', g);
    AllocInPlay(Me(s).mem, slot, s.startId);
    NewNodeMem(s, slot, node);
  }

  lemma {:induction false} NewNodeMem(s: Db, slot: nat, node: Node)
    requires Writing(s)
    ensures var (s', p) := NewNode(s, slot, node); Writing(s') && (Me(s').mem, p) == Alloc(Me(s).mem, slot, s.startId)
  {
  }

  lemma {:induction false} FreeAccounted(s: Db, g: View, used: set<PageId>, p: PageId)
    requires Writing(s) && Committed(s, g) && Owning(s, g, used) && Accounted(s, g, used) && p in used && p in s.nodes
    ensures var s' := FreePage(s, p, s.nodes[p].slot); Writing(s') && Accounted(s', g, used - {p})
  {
    hide Committed, Owning, Untouched, InOrder, InPlay, NextPage;
    TidyMem(s, g, used);
    UsedPage(s, g, used, p);
    FreePageKeeps(s, g, used, p);
    var s' := FreePage(s, p, s.nodes[p].slot);
    SameAccounts(s, s', g);
    FreeInPlay(Me(s).mem, p, s.nodes[p].slot, Me(s).id);
  }

  lemma {:induction false} SetLinkAccounted(s: Db, g: View, used: set<PageId>, f: Frame, n: PageId)
    requires Writing(s) && Committed(s, g) && Owning(s, g, used) && Accounted(s, g, used) && f.page in used && f.page in s.nodes
    requires f.link < |s.nodes[f.page].node.kids|
    ensures var (s', p) := SetLink(s, f, n); Writing(s') && Accounted(s', g, used - {f.page} + {p})
  {
    hide Committed, Owning, Untouched, NewNode, FreePage, Accounted;
    UsedPage(s, g, used, f.page);
    SetLinkKeeps(s, g, used, f, n);
    var page := s.nodes[f.page];
    var node := page.node.(kids := page.node.kids[f.link := n]);
    if NeedsCow(s, f.page) {
      NewNodeKeeps(s, g, used, page.slot, node);
      NewNodeAccounted(s, g, used, page.slot, node);
      var (s1, p) := NewNode(s, page.slot, node);
      FreeAccounted(s1, g, used + {p}, f.page);
      assert used + {p} - {f.page} == used - {f.page} + {p};
    } else {
      WriteAccounted(s, g, used, f.page, page.slot, node);
      assert used - {f.page} + {f.page} == used;
    }
  }

  lemma {:induction false} WriteAccounted(s: Db, g: View, used: set<PageId>, p: PageId, slot: nat, node: Node)
    requires Writing(s) && Accounted(s, g, used)
    ensures Writing(WriteNode(s, p, slot, node)) && Accounted(WriteNode(s, p, slot, node), g, used)
  {
    assert LiveChain(WriteNode(s, p, slot, node), g) == LiveChain(s, g);
  }

  lemma {:induction false} RootAccounted(s: Db, g: View, used: set<PageId>, root: Option<PageId>)
    requires Writing(s) && Committed(s, g) && Owning(s, g, used) && Accounted(s, g, used)
    ensures Writing(SetRoot(s, root)) && Accounted(SetRoot(s, root), g, used)
  {
    hide Committed, Owning, Untouched;
    SetRootKeeps(s, g, used, root);
    SameAccounts(s, SetRoot(s, root), g);
  }

  // Copy-on-write replaces pages one for one.
  lemma {:induction false} RelinkAccounted(s: Db, g: View, used: set<PageId>, t: Tree, fs: seq<Frame>, n: Tree)
    requires Writing(s) && Committed(s, g) && Owning(s, g, used) && Relinkable(s, used, t, fs, n) && Accounted(s, g, used)
    ensures var s' := Relink(s, fs, n.page).0; Writing(s') && Accounted(s', g, Rest(used, t, fs, n) + PagesOf(Rebuilt(s, t, fs, n)))
    decreases |fs|
  {
    hide Committed, Owning, Accounted;
    if fs == [] {
      NothingMoves(s, used, t, n);
    } else {
      RelinkDown(s, used, t, fs, n);
      var kid := t.kids[fs[0].link];
      RelinkAccounted(s, g, used, kid, fs[1..], n);
      RelinkKeeps(s, g, used, kid, fs[1..], n);
      if |fs| > 1 && Relink(s, fs[1..], n.page).1 == fs[1].page {
        StayAccounted(s, g, used, t, fs, n);
      } else {
        MoveAccounted(s, g, used, t, fs, n);
      }
    }
  }

  lemma {:induction false} NothingMoves(s: Db, used: set<PageId>, t: Tree, n: Tree)
    requires Writing(s) && Relinkable(s, used, t, [], n)
    ensures Rest(used, t, [], n) + PagesOf(Rebuilt(s, t, [], n)) == used && Relink(s, [], n.page).0 == s
  {
  }

  lemma {:induction false} StayAccounted(s: Db, g: View, used: set<PageId>, t: Tree, fs: seq<Frame>, n: Tree)
    requires Writing(s) && Relinkable(s, used, t, fs, n)
    requires |fs| > 1 && Relink(s, fs[1..], n.page).1 == fs[1].page
    requires Relinked(s, Relink(s, fs[1..], n.page).0, g, used, t.kids[fs[0].link], fs[1..], n)
    requires var s1 := Relink(s, fs[1..], n.page).0;
      Writing(s1) && Accounted(s1, g, Rest(used, t.kids[fs[0].link], fs[1..], n) + PagesOf(Rebuilt(s, t.kids[fs[0].link], fs[1..], n)))
    ensures var s' := Relink(s, fs, n.page).0; Writing(s') && Accounted(s', g, Rest(used, t, fs, n) + PagesOf(Rebuilt(s, t, fs, n)))
  {
    hide Committed, Owning, Untouched, SetLink, PagesOf, Proper, Around, Accounted;
    RelinkDown(s, used, t, fs, n);
    var link := fs[0].link;
    var kid := t.kids[link];
    var s1 := Relink(s, fs[1..], n.page).0;
    var kid' := Rebuilt(s, kid, fs[1..], n);
    assert kid'.page == kid.page;
    RelinkUp(s, s1, t, link, t.page, kid', Rest(used, t, fs, n));
    assert Rest(used, kid, fs[1..], n) + PagesOf(kid') == Rest(used, t, fs, n) + PagesOf(Tree(t.page, t.data, t.kids[link := kid']));
  }

  lemma {:induction false} MoveAccounted(s: Db, g: View, used: set<PageId>, t: Tree, fs: seq<Frame>, n: Tree)
    requires Writing(s) && Relinkable(s, used, t, fs, n) && Committed(s, g)
    requires fs != [] && !(|fs| > 1 && Relink(s, fs[1..], n.page).1 == fs[1].page)
    requires Relinked(s, Relink(s, fs[1..], n.page).0, g, used, t.kids[fs[0].link], fs[1..], n)
    requires var s1 := Relink(s, fs[1..], n.page).0;
      Writing(s1) && Accounted(s1, g, Rest(used, t.kids[fs[0].link], fs[1..], n) + PagesOf(Rebuilt(s, t.kids[fs[0].link], fs[1..], n)))
    ensures var s' := Relink(s, fs, n.page).0; Writing(s') && Accounted(s', g, Rest(used, t, fs, n) + PagesOf(Rebuilt(s, t, fs, n)))
  {
    ChainRecords(s, g);
    hide Committed, Owning, Untouched, SetLink, PagesOf, Proper, Around, Holds, Accounted;
    RelinkDown(s, used, t, fs, n);
    var kid := t.kids[fs[0].link];
    var (s1, c) := Relink(s, fs[1..], n.page);
    var kid' := Rebuilt(s, kid, fs[1..], n);
    var used1 := Rest(used, kid, fs[1..], n) + PagesOf(kid');
    HeldPages(s1.nodes, kid');
    SetLinkKeeps(s1, g, used1, fs[0], c);
    SetLinkAccounted(s1, g, used1, fs[0], c);
    var (s', p) := SetLink(s1, fs[0], c);
    RelinkMoveTree(s, s1, s', g, used, t, fs, n, kid', p);
  }

  // ----- the edits

  ghost function ChainPages(g: View): set<PageId> {
    set c | c in g.chain
  }

  // The committed allocator state: it has handed out the pages of the tree and of the chain, and one more transaction page.
  ghost predicate CommittedAccounted(s: Db, g: View, x: PageId)
    requires s.readTxn in s.txns
  {
    InPlay(s.txns[s.readTxn].mem) == SnapPages(g, s.readTxn) + ChainPages(g) + {x} && InOrder(s.txns[s.readTxn].mem)
  }

  ghost predicate Working(s: Db, g: View) {
    && Committed(s, g) && Active(s, g) && Writing(s) && s.readTxn in s.txns
    && HoleOk(g) && Accounted(s, g, Used(g)) && CommittedAccounted(s, g, s.active.value)
  }

  lemma {:induction false} WorkingStays(s: Db, s': Db, g: View, g': View)
    requires Working(s, g) && Untouched(s, s', g) && g'.chain == g.chain && g'.snaps == g.snaps
    ensures s'.readTxn in s'.txns && Some(s.active.value) == s'.active && CommittedAccounted(s', g', s.active.value)
    ensures LiveChain(s', g') == LiveChain(s', g)
  {
    assert s.readTxn in g.chain;
  }

  lemma {:induction false} LiveSame(s: Db, g: View, g': View, used: set<PageId>, used': set<PageId>)
    requires Writing(s) && Accounted(s, g, used) && g'.chain == g.chain && used' == used
    ensures Accounted(s, g', used')
  {
    assert LiveChain(s, g') == LiveChain(s, g);
  }

  lemma {:induction false} SamePages(g: View, g': View)
    requires HoleOk(g) && g'.main == g.main && g'.hole == g.hole
    ensures HoleOk(g') && MainPages(g') == MainPages(g)
  {
  }

  lemma {:induction false} AllocConserved(s: Db, g: View, slot: nat, data: Data, kids: seq<Tree>)
    requires Working(s, g) && Parts(g.loose, kids) && slot < |Me(s).mem.slots|
    ensures var (s', p) := NewNode(s, slot, Node(data, Roots(kids))); var g' := Joined(g, Tree(p, data, kids));
      Writing(s') && HoleOk(g') && Accounted(s', g', Used(g'))
  {
    var node := Node(data, Roots(kids));
    var (s', p) := NewNode(s, slot, node);
    var t := Tree(p, data, kids);
    hide Committed, Owning, Forest, Untouched, NewNode, PagesOf, CommittedAccounted, InOrder, InPlay;
    NewNodeAccounted(s, g, Used(g), slot, node);
    JoinPages(g.loose, t);
    SamePages(g, Joined(g, t));
    LiveSame(s', g, Joined(g, t), Used(g) + {p}, Used(Joined(g, t)));
  }

  lemma {:induction false} FreeConserved(s: Db, g: View, t: Tree)
    requires Working(s, g) && t in g.loose && t.page in s.nodes
    ensures var s' := FreePage(s, t.page, s.nodes[t.page].slot); var g' := Freed(g, t);
      Writing(s') && HoleOk(g') && Accounted(s', g', Used(g'))
  {
    LoosePage(s, g, t);
    hide Committed, Owning, Forest, Untouched, FreePage, PagesOf, CommittedAccounted, InOrder, InPlay;
    FreeAccounted(s, g, Used(g), t.page);
    SamePages(g, Freed(g, t));
    LiveSame(FreePage(s, t.page, s.nodes[t.page].slot), g, Freed(g, t), Used(g) - {t.page}, Used(Freed(g, t)));
  }

  lemma {:induction false} LoosePage(s: Db, g: View, t: Tree)
    requires Writing(s) && Forest(s, g) && t in g.loose
    ensures t.page in Used(g) && t.page in ForestPages(g.loose) && t.page !in MainPages(g)
    ensures ForestPages(Split(g.loose, t)) == ForestPages(g.loose) - {t.page} && Used(Freed(g, t)) == Used(g) - {t.page}
  {
    MemberPages(g.loose, t);
    SplitPages(s.nodes, g.loose, t);
  }

  lemma {:induction false} InsertPages(s: Db, g: View, t: Tree, data: Data, kids: seq<Tree>)
    requires Writing(s) && Forest(s, g) && t in g.loose && Parts(Split(g.loose, t), kids)
    ensures var g' := Joined(Freed(g, t), Tree(t.page, data, kids)); HoleOk(g') && Used(g') == Used(g)
  {
    LoosePage(s, g, t);
    JoinPages(Split(g.loose, t), Tree(t.page, data, kids));
    hide Forest, PagesOf, ForestPages;
    SamePages(g, Joined(Freed(g, t), Tree(t.page, data, kids)));
  }

  lemma {:induction false} InsertConserved(s: Db, g: View, t: Tree, data: Data, kids: seq<Tree>)
    requires Working(s, g) && t in g.loose && t.page in s.nodes && Parts(Split(g.loose, t), kids)
    ensures var s' := WriteNode(s, t.page, s.nodes[t.page].slot, Node(data, Roots(kids))); var g' := Joined(Freed(g, t), Tree(t.page, data, kids));
      Writing(s') && HoleOk(g') && Accounted(s', g', Used(g'))
  {
    hide Committed, Owning, Forest, Untouched, WriteNode, PagesOf, CommittedAccounted, Accounted, Used, Roots;
    var g' := Joined(Freed(g, t), Tree(t.page, data, kids));
    InsertPages(s, g, t, data, kids);
    WriteAccounted(s, g, Used(g), t.page, s.nodes[t.page].slot, Node(data, Roots(kids)));
    LiveSame(WriteNode(s, t.page, s.nodes[t.page].slot, Node(data, Roots(kids))), g, g', Used(g), Used(g'));
  }

  // The path above the hole can be relinked, also behind prepare_commit.
  lemma {:induction false} WorkingRelinkable(s: Db, g: View, n: Tree)
    requires Working(s, g) && g.hole.Some? && n in g.loose && g.main.Some?
    ensures Path(g.main.value, g.hole.value) && Relinkable(s, Used(g), g.main.value, g.hole.value, n)
    ensures Rest(Used(g), g.main.value, g.hole.value, n) == ForestPages(g.loose) - PagesOf(n)
  {
    MemberPages(g.loose, n);
  }

  lemma {:induction false} HungPages(s: Db, g: View, t': Tree, n: Tree)
    requires Writing(s) && Forest(s, g) && n in g.loose
    ensures HoleOk(HungIn(g, t', n)) && Used(HungIn(g, t', n)) == ForestPages(g.loose) - PagesOf(n) + PagesOf(t')
  {
    WithoutTree(s.nodes, g.loose, n);
  }

  lemma {:induction false} HangConserved(s: Db, g: View, fs: seq<Frame>, n: Tree)
    requires Working(s, g) && g.hole == Some(fs) && n in g.loose && g.main.Some?
    ensures var s' := UpdateOffset(s, fs, n.page); var g' := HungIn(g, Rebuilt(s, g.main.value, fs, n), n);
      Writing(s') && HoleOk(g') && Accounted(s', g', Used(g')) && Untouched(s, s', g)
  {
    WorkingRelinkable(s, g, n);
    var t := g.main.value;
    var t' := Rebuilt(s, t, fs, n);
    HungPages(s, g, t', n);
    hide Committed, Owning, Forest, Untouched, Relinkable, PagesOf, CommittedAccounted, InOrder, InPlay, Relink, SetRoot, Rest, Accounted;
    RelinkAccounted(s, g, Used(g), t, fs, n);
    RelinkKeeps(s, g, Used(g), t, fs, n);
    var (s1, r) := Relink(s, fs, n.page);
    var used' := Rest(Used(g), t, fs, n) + PagesOf(t');
    RootAccounted(s1, g, used', Some(r));
    SetRootKeeps(s1, g, used', Some(r));
    ChainRecords(s, g);
    UntouchedTwice(s, s1, SetRoot(s1, Some(r)), g);
    LiveSame(SetRoot(s1, Some(r)), g, HungIn(g, t', n), used', Used(HungIn(g, t', n)));
  }

  lemma {:induction false} FirstPages(s: Db, g: View, n: Tree)
    requires Writing(s) && Forest(s, g) && g.hole == Some([]) && n in g.loose && g.main.None?
    ensures HoleOk(HungIn(g, n, n)) && Used(HungIn(g, n, n)) == Used(g)
  {
    HungPages(s, g, n, n);
    MemberPages(g.loose, n);
  }

  lemma {:induction false} FirstConserved(s: Db, g: View, n: Tree)
    requires Working(s, g) && g.hole == Some([]) && n in g.loose && g.main.None?
    ensures var s' := UpdateOffset(s, [], n.page); var g' := HungIn(g, n, n);
      Writing(s') && HoleOk(g') && Accounted(s', g', Used(g')) && Untouched(s, s', g)
  {
    hide Committed, Owning, Forest, Untouched, PagesOf, CommittedAccounted, Accounted, Used, HungIn;
    FirstPages(s, g, n);
    RootAccounted(s, g, Used(g), Some(n.page));
    SetRootKeeps(s, g, Used(g), Some(n.page));
    HungChain(g, n, n);
    LiveSame(SetRoot(s, Some(n.page)), g, HungIn(g, n, n), Used(g), Used(HungIn(g, n, n)));
  }

  lemma {:induction false} HungChain(g: View, t: Tree, n: Tree)
    ensures HungIn(g, t, n).chain == g.chain
  {
  }

  lemma {:induction false} SettledPages(s: Db, g: View, n: Tree)
    requires Writing(s) && Forest(s, g) && g.hole.Some? && n in g.loose && g.main.Some? && Path(g.main.value, g.hole.value)
    requires n.page == SubAt(g.main.value, g.hole.value).page
    ensures var g' := HungIn(g, Plugged(g.main.value, g.hole.value, n), n); HoleOk(g') && Used(g') == Used(g)
  {
    hide SubAt, PagesOf;
    var t' := Plugged(g.main.value, g.hole.value, n);
    HungPages(s, g, t', n);
    MemberPages(g.loose, n);
    PluggedHolds(s.nodes, g.main.value, g.hole.value, n);
  }

  lemma {:induction false} SettleConserved(s: Db, g: View, n: Tree)
    requires Working(s, g) && g.hole.Some? && n in g.loose && g.main.Some? && Path(g.main.value, g.hole.value)
    requires n.page == SubAt(g.main.value, g.hole.value).page
    ensures var g' := HungIn(g, Plugged(g.main.value, g.hole.value, n), n); HoleOk(g') && Accounted(s, g', Used(g'))
  {
    hide Committed, Owning, Forest, CommittedAccounted, Accounted, Plugged, SubAt, Used;
    SettledPages(s, g, n);
    var g' := HungIn(g, Plugged(g.main.value, g.hole.value, n), n);
    LiveSame(s, g, g', Used(g), Used(g'));
  }

  lemma {:induction false} CutPages(s: Db, g: View, fs: seq<Frame>)
    requires Writing(s) && Forest(s, g) && g.hole.None? && (match g.main case None => fs == [] case Some(t) => Path(t, fs))
    ensures HoleOk(Cut(g, fs)) && Used(Cut(g, fs)) == Used(g)
  {
    hide PagesOf, SubAt, Around;
    if g.main.Some? {
      CutTree(s.nodes, g.main.value, fs);
      CutForest(s, g, SubAt(g.main.value, fs));
    }
  }

  lemma {:induction false} CutConserved(s: Db, g: View, fs: seq<Frame>)
    requires Working(s, g) && g.hole.None? && (match g.main case None => fs == [] case Some(t) => Path(t, fs))
    ensures var g' := Cut(g, fs); HoleOk(g') && Accounted(s, g', Used(g'))
  {
    hide Committed, Owning, Forest, CommittedAccounted, Accounted, Used, SubAt;
    CutPages(s, g, fs);
    LiveSame(s, g, Cut(g, fs), Used(g), Used(Cut(g, fs)));
  }

  lemma {:induction false} EmptyConserved(s: Db, g: View)
    requires Working(s, g) && g.hole == Some([])
    ensures var s' := SetRoot(s, None); var g' := g.(main := None, hole := None);
      Writing(s') && HoleOk(g') && Accounted(s', g', Used(g')) && Untouched(s, s', g)
  {
    var g' := g.(main := None, hole := None);
    hide Committed, Owning, Untouched, CommittedAccounted, InOrder, InPlay;
    RootAccounted(s, g, Used(g), None);
    SetRootKeeps(s, g, Used(g), None);
    LiveSame(SetRoot(s, None), g, g', Used(g), Used(g'));
  }

  // Between two steps: the committed state is accounted for, and so is the writer's.
  ghost predicate Conserved(s: Db, g: View) {
    && s.readTxn in s.txns
    && (s.active.None? ==> s.nextTxn.Some? && CommittedAccounted(s, g, s.nextTxn.value))
    && (s.active.Some? ==> Writing(s) && HoleOk(g) && Accounted(s, g, Used(g)) && CommittedAccounted(s, g, s.active.value))
  }

  lemma {:induction false} FreeUntouched(s: Db, g: View, t: Tree)
    requires Working(s, g) && t in g.loose && t.page in s.nodes
    ensures Untouched(s, FreePage(s, t.page, s.nodes[t.page].slot), g)
  {
    LoosePage(s, g, t);
    hide Committed, Owning, Untouched, Forest, FreePage, CommittedAccounted, Accounted;
    FreePageKeeps(s, g, Used(g), t.page);
  }

  lemma {:induction false} InsertUntouched(s: Db, g: View, t: Tree, node: Node)
    requires Working(s, g) && t in g.loose && t.page in s.nodes && !NeedsCow(s, t.page)
    ensures Untouched(s, WriteNode(s, t.page, s.nodes[t.page].slot, node), g)
  {
    LoosePage(s, g, t);
    UsedPage(s, g, Used(g), t.page);
    hide Committed, Owning, Untouched, Forest, WriteNode, CommittedAccounted, Accounted, NeedsCow;
    WriteNodeKeeps(s, g, Used(g), t.page, s.nodes[t.page].slot, node);
  }

  lemma {:induction false} AllocUntouched(s: Db, g: View, slot: nat, node: Node)
    requires Working(s, g) && slot < |Me(s).mem.slots|
    ensures Untouched(s, NewNode(s, slot, node).0, g)
  {
    hide Committed, Owning, Untouched, Forest, NewNode, CommittedAccounted, Accounted;
    NewNodeKeeps(s, g, Used(g), slot, node);
  }

  lemma {:induction false} NothingUntouched(s: Db, g: View)
    requires Working(s, g)
    ensures Untouched(s, s, g)
  {
    ReadIsLive(s, g);
  }

  // An edit changes nothing on the committed side.
  lemma {:induction false} EditUntouched(s: Db, g: View, op: Op)
    requires Sound(s, g) && Working(s, g) && IsEdit(op) && Guard(s, g, op)
    ensures Untouched(s, Apply(s, op), g)
    ensures Track(s, g, op).chain == g.chain && Track(s, g, op).snaps == g.snaps
  {
    hide Sound, Working, Untouched, NewNode, FreePage, WriteNode, SetRoot, UpdateOffset, Rebuilt, Plugged;
    WorkingHole(s, g);
    match op {
      case CutOut(_) => NothingUntouched(s, g);
      case AllocNode(slot, data, kids) => AllocUntouched(s, g, slot, Node(data, Roots(kids)));
      case FreeNode(t) => FreeUntouched(s, g, t);
      case InsertInPlace(t, data, kids) => InsertUntouched(s, g, t, Node(data, Roots(kids)));
      case HangIn(fs, t) =>
        if g.main.Some? {
          HangConserved(s, g, fs, t);
        } else {
          EmptyPath(g, fs);
          FirstConserved(s, g, t);
        }
      case Settle(_) => NothingUntouched(s, g);
      case EmptyRoot => EmptyConserved(s, g);
    }
  }

  lemma {:induction false} WorkingHole(s: Db, g: View)
    requires Working(s, g)
    ensures HoleOk(g) && Writing(s)
  {
  }

  lemma {:induction false} EditConserved(s: Db, g: View, op: Op)
    requires Sound(s, g) && Conserved(s, g) && IsEdit(op) && Guard(s, g, op)
    ensures Conserved(Apply(s, op), Track(s, g, op))
  {
    SoundWorking(s, g);
    var s', g' := Apply(s, op), Track(s, g, op);
    hide Sound, Accounted, CommittedAccounted, Committed, Active, Owning, InOrder, InPlay, Untouched;
    EditUntouched(s, g, op);
    WorkingStays(s, s', g, g');
    match op {
      case CutOut(fs) => CutConserved(s, g, fs);
      case AllocNode(slot, data, kids) => AllocConserved(s, g, slot, data, kids);
      case FreeNode(t) => FreeConserved(s, g, t);
      case InsertInPlace(t, data, kids) => InsertConserved(s, g, t, data, kids);
      case HangIn(fs, t) =>
        if g.main.Some? {
          WorkingRelinkable(s, g, t);
          HangConserved(s, g, fs, t);
        } else {
          EmptyPath(g, fs);
          FirstConserved(s, g, t);
        }
      case Settle(t) => SettleConserved(s, g, t);
      case EmptyRoot => EmptyConserved(s, g);
    }
  }

  lemma {:induction false} EmptyPath(g: View, fs: seq<Frame>)
    requires HoleOk(g) && g.hole == Some(fs) && g.main.None?
    ensures fs == []
  {
  }

  lemma {:induction false} SoundWorking(s: Db, g: View)
    requires Sound(s, g) && Conserved(s, g) && s.active.Some?
    ensures Working(s, g)
  {
    hide Accounted, CommittedAccounted;
    SoundCommitted(s, g);
  }

  // ----- readers

  lemma {:induction false} ReaderConserved(s: Db, g: View, op: Op)
    requires Conserved(s, g) && Guard(s, g, op) && (op.Pin? || op.PinActive? || op.Unpin?)
    ensures Conserved(Apply(s, op), Track(s, g, op))
  {
    hide InOrder, InPlay;
    var s' := Apply(s, op);
    if s.active.Some? {
      assert LiveChain(s', g) == LiveChain(s, g);
    }
  }

  // ----- start_transaction

  // The members of the chain from k on.
  ghost function From(g: View, k: nat): set<PageId> {
    set i: nat | k <= i < |g.chain| :: g.chain[i]
  }

  ghost predicate WalkAccounted(s: Db, g: View, used: set<PageId>, k: nat)
    requires Writing(s)
  {
    InPlay(Me(s).mem) == used + From(g, k) + {s.active.value} && InOrder(Me(s).mem)
  }

  // What the walk has queued between two states.
  ghost predicate Queued(s: Db, s': Db, g: View, k: nat, m: nat)
    requires Writing(s) && Writing(s') && k <= m <= |g.chain|
  {
    Entries(Me(s').mem) == Entries(Me(s).mem) + Stretch(g, k, m, Me(s).id)
  }

  // The members of the chain from k up to m as queue entries.
  ghost function Stretch(g: View, k: nat, m: nat, id: nat): set<Garbage>
    requires m <= |g.chain|
  {
    set i: nat | k <= i < m :: Garbage(g.chain[i], id)
  }

  lemma {:induction false} Stretches(g: View, k: nat, m: nat, id: nat)
    requires k <= m <= |g.chain|
    ensures Stretch(g, k, k, id) == {}
    ensures k < m ==> Stretch(g, k, k + 1, id) == {Garbage(g.chain[k], id)} && Stretch(g, k, m, id) == Stretch(g, k, k + 1, id) + Stretch(g, k + 1, m, id)
  {
  }

  // The walk stops at the first transaction that is read, or at the last; it queues the pages of those before it, and
  // nothing else.
  ghost predicate CollectedExactly(s: Db, s': Db, g: View, used: set<PageId>, k: nat, m: nat)
    requires Writing(s) && Writing(s')
  {
    && k <= m < |g.chain| && Me(s').start == g.chain[m] && Queued(s, s', g, k, m)
    && (forall i :: k <= i < m ==> g.chain[i] in s.txns && s.txns[g.chain[i]].refs == 0)
    && (g.chain[m] == s.readTxn || (g.chain[m] in s.txns && s.txns[g.chain[m]].refs > 0))
    && s'.startId == (if g.chain[m] in s.txns then s.txns[g.chain[m]].id else 0)
    && WalkAccounted(s', g, used, m) && s'.active == s.active && s'.preparedTxn == s.preparedTxn && s'.readTxn == s.readTxn
  }

  lemma {:induction false} WalkAccountedStep(s: Db, g: View, used: set<PageId>, k: nat)
    requires Walking(s, g, used, k) && Writing(s) && WalkAccounted(s, g, used, k) && k + 1 < |g.chain| && s.txns[g.chain[k]].refs == 0
    ensures var s1 := FreePage(s, g.chain[k], s.txns[g.chain[k]].slot);
      && Writing(s1) && WalkAccounted(s1, g, used, k + 1) && Queued(s, s1, g, k, k + 1)
  {
    var c := g.chain[k];
    WalkPages(s, g, used, k);
    hide Walking, Allocating, Committed, InOrder, InPlay;
    FreeInPlay(Me(s).mem, c, s.txns[c].slot, Me(s).id);
    FromNext(g, k);
    InPlayNotFree(Me(s).mem, c);
    FreeAddsEntry(Me(s).mem, c, s.txns[c].slot, Me(s).id);
    Stretches(g, k, k + 1, Me(s).id);
  }

  lemma {:induction false} InPlayNotFree(m: Mem, p: PageId)
    requires p in InPlay(m)
    ensures p < m.frontier && !IsFree(m, p)
  {
  }

  lemma {:induction false} FromNext(g: View, k: nat)
    requires k < |g.chain|
    ensures From(g, k) == From(g, k + 1) + {g.chain[k]}
  {
  }

  lemma {:induction false} WalkPages(s: Db, g: View, used: set<PageId>, k: nat)
    requires Walking(s, g, used, k) && Writing(s) && WalkAccounted(s, g, used, k) && k < |g.chain|
    ensures var c := g.chain[k];
      && (forall e :: e in Entries(Me(s).mem) ==> e.freed <= Me(s).id)
      && c in s.txns && Tidy(Me(s).mem) && s.txns[c].slot < |Me(s).mem.slots| && c in InPlay(Me(s).mem)
      && c !in used && c != s.active.value && c !in From(g, k + 1)
  {
    hide InOrder, InPlay;
    assert g.chain[k] in g.chain;
    assert g.chain[k] in From(g, k);
    forall i: nat | k < i < |g.chain|
      ensures g.chain[i] != g.chain[k]
    {
      assert s.txns[g.chain[i]].id == s.txns[g.chain[0]].id + i && s.txns[g.chain[k]].id == s.txns[g.chain[0]].id + k;
    }
  }

  lemma {:induction false} StopCollected(s: Db, g: View, used: set<PageId>, k: nat)
    requires Walking(s, g, used, k) && Writing(s) && WalkAccounted(s, g, used, k)
    requires g.chain[k] == s.readTxn || s.txns[g.chain[k]].refs > 0
    ensures g.chain[k] in s.txns && CollectedExactly(s, WalkStop(s, g.chain[k]), g, used, k, k)
  {
    WalkLast(s, g, used, k);
    hide Walking, InOrder, InPlay;
    Stretches(g, k, k, Me(s).id);
  }

  lemma {:induction false} CollectConserves(s: Db, g: View, used: set<PageId>, k: nat, fuel: nat) returns (m: nat)
    requires Walking(s, g, used, k) && fuel == |g.chain| - 1 - k && Writing(s) && Forest(s, g) && WalkAccounted(s, g, used, k)
    ensures CollectedExactly(s, Collect(s, g.chain[k], s.readTxn, fuel), g, used, k, m)
    decreases fuel
  {
    hide Committed, Allocating, Forest, SameRecords, Owning, Walking, FreePage, WalkAccounted, CollectedExactly;
    WalkLast(s, g, used, k);
    if g.chain[k] == s.readTxn || s.txns[g.chain[k]].refs > 0 {
      m := k;
      StopCollected(s, g, used, k);
    } else {
      CollectGoes(s, g, used, k);
      WalkAccountedStep(s, g, used, k);
      var s1 := FreePage(s, g.chain[k], s.txns[g.chain[k]].slot);
      m := CollectConserves(s1, g, used, k + 1, fuel - 1);
      WalkChains(s, g, used, k);
      CollectedBoth(s, s1, Collect(s1, g.chain[k + 1], s.readTxn, fuel - 1), g, used, k, m);
    }
  }

  lemma {:induction false} WalkChains(s: Db, g: View, used: set<PageId>, k: nat)
    requires Walking(s, g, used, k) && Writing(s) && k < |g.chain| && g.chain[k] in s.txns
    ensures var s1 := FreePage(s, g.chain[k], s.txns[g.chain[k]].slot);
      && s1.active == s.active && s1.preparedTxn == s.preparedTxn && s1.readTxn == s.readTxn && Me(s1).id == Me(s).id
      && forall c :: c in g.chain ==> c in s.txns && c in s1.txns && s1.txns[c] == s.txns[c]
  {
    hide MemSafe, Reserved, SnapOk, PagesOk;
  }

  lemma {:induction false} CollectedBoth(s: Db, s1: Db, s': Db, g: View, used: set<PageId>, k: nat, m: nat)
    requires Writing(s) && Writing(s1) && Writing(s') && k + 1 <= |g.chain|
    requires Queued(s, s1, g, k, k + 1) && CollectedExactly(s1, s', g, used, k + 1, m)
    requires s1.active == s.active && s1.preparedTxn == s.preparedTxn && s1.readTxn == s.readTxn && Me(s1).id == Me(s).id
    requires forall c :: c in g.chain ==> c in s.txns && c in s1.txns && s1.txns[c] == s.txns[c]
    requires s.txns[g.chain[k]].refs == 0
    ensures CollectedExactly(s, s', g, used, k, m)
  {
    hide InOrder, InPlay;
    var id := Me(s).id;
    assert g.chain[k] in g.chain;
    Stretches(g, k, m, id);
  }

  // Starting a transaction queues exactly the transactions at the front of the chain that nobody reads.
  lemma {:induction false} StartCollects(s: Db, g: View, cursor: nat) returns (m: nat)
    requires Inv(s, g) && s.active.None? && Conserved(s, g)
    ensures var s', g' := StartTransaction(s, cursor), Started(s, g);
      && s.nextTxn.Some? && s.nextTxn.value in s.txns && s.readTxn in s.txns
      && Writing(s') && CollectedExactly(Begun(s, cursor), s', g', SnapPages(g, s.readTxn), 0, m)
  {
    var s1, g1 := Begun(s, cursor), Started(s, g);
    BegunCommitted(s, g, cursor);
    BegunAllocating(s, g, cursor);
    BegunForest(s, g, cursor);
    ChainEnds(s, g);
    assert Walking(s1, g1, Used(g1), 0);
    BegunAccounted(s, g, cursor);
    m := CollectConserves(s1, g1, Used(g1), 0, |g.chain| - 1);
    assert StartTransaction(s, cursor) == Collect(s1, g1.chain[0], s1.readTxn, |g.chain| - 1);
  }

  lemma {:induction false} BegunAccounted(s: Db, g: View, cursor: nat)
    requires Committed(s, g) && Idle(s, g) && CommittedAccounted(s, g, s.nextTxn.value)
    ensures WalkAccounted(Begun(s, cursor), Started(s, g), SnapPages(g, s.readTxn), 0)
  {
    hide MemSafe, SnapOk, InOrder, InPlay;
    assert From(Started(s, g), 0) == ChainPages(g);
  }

  lemma {:induction false} StartedRecords(s: Db, g: View, cursor: nat)
    requires Inv(s, g) && s.active.None?
    ensures var s' := StartTransaction(s, cursor);
      && s'.readTxn == s.readTxn && s'.active == s.nextTxn && Committed(s', Started(s, g)) && s.readTxn in g.chain
      && forall c :: c in g.chain ==> c in s.txns && c in s'.txns && s'.txns[c] == s.txns[c]
  {
    var s1, g1 := Begun(s, cursor), Started(s, g);
    BegunCommitted(s, g, cursor);
    BegunAllocating(s, g, cursor);
    BegunForest(s, g, cursor);
    ChainEnds(s, g);
    assert Walking(s1, g1, Used(g1), 0);
    CollectKeeps(s1, g1, Used(g1), 0, |g.chain| - 1);
    ReadIsLive(s, g);
  }

  lemma {:induction false} LiveFrom(s: Db, g: View, m: nat)
    requires Committed(s, g) && m < |g.chain| && s.startId == (if g.chain[m] in s.txns then s.txns[g.chain[m]].id else 0)
    ensures LiveChain(s, g) == From(g, m)
  {
    hide MemSafe, SnapOk;
    forall i | 0 <= i < |g.chain|
      ensures Live(s, g.chain[i]) <==> i >= m
    {
      assert s.txns[g.chain[i]].id == s.txns[g.chain[0]].id + i && s.txns[g.chain[m]].id == s.txns[g.chain[0]].id + m;
    }
    forall c
      ensures c in LiveChain(s, g) <==> c in From(g, m)
    {
      if c in g.chain {
        var i :| 0 <= i < |g.chain| && g.chain[i] == c;
      }
    }
  }

  lemma {:induction false} StartConserved(s: Db, g: View, cursor: nat)
    requires Inv(s, g) && s.active.None? && Conserved(s, g)
    ensures Conserved(StartTransaction(s, cursor), Started(s, g))
  {
    var s', g' := StartTransaction(s, cursor), Started(s, g);
    StartedIdle(s, g);
    hide Inv, Committed, Idle, StartTransaction, Conserved, CommittedAccounted, CollectedExactly;
    var m := StartCollects(s, g, cursor);
    StartedRecords(s, g, cursor);
    BegunForest(s, g, cursor);
    CollectedAt(Begun(s, cursor), s', g', SnapPages(g, s.readTxn), m);
    LiveFrom(s', g', m);
    StartedAccounts(s, s', g, g', m);
  }

  lemma {:induction false} StartedIdle(s: Db, g: View)
    requires Inv(s, g) && s.active.None?
    ensures Committed(s, g) && Idle(s, g) && s.readTxn in g.snaps && SnapOk(s, g, s.readTxn) && !Prepared(s)
  {
    ReadIsLive(s, g);
  }

  lemma {:induction false} CollectedAt(s1: Db, s': Db, g: View, used: set<PageId>, m: nat)
    requires Writing(s1) && Writing(s') && CollectedExactly(s1, s', g, used, 0, m)
    ensures m < |g.chain| && s'.startId == (if g.chain[m] in s1.txns then s1.txns[g.chain[m]].id else 0)
    ensures WalkAccounted(s', g, used, m) && s'.active == s1.active && s'.preparedTxn == s1.preparedTxn && s'.readTxn == s1.readTxn
  {
  }

  lemma {:induction false} StartedAccounts(s: Db, s': Db, g: View, g': View, m: nat)
    requires Conserved(s, g) && s.active.None? && !Prepared(s) && g' == Started(s, g) && Writing(s') && s'.active == s.nextTxn
    requires s'.readTxn == s.readTxn && s'.preparedTxn == s.preparedTxn && s.readTxn in s'.txns && s'.txns[s.readTxn] == s.txns[s.readTxn]
    requires HoleOk(g') && Used(g') == SnapPages(g, s.readTxn) && WalkAccounted(s', g', SnapPages(g, s.readTxn), m) && LiveChain(s', g') == From(g', m)
    ensures Conserved(s', g')
  {
    hide InOrder, InPlay;
    assert ChainPages(g') == ChainPages(g);
  }

  // ----- prepare_commit, commit, rollback

  lemma {:induction false} PrepareConserved(s: Db, g: View, cursor: nat)
    requires Sound(s, g) && Conserved(s, g) && g.hole.None? && s.active.Some? && s.cursor == cursor && !Prepared(s)
    ensures Conserved(PrepareCommit(s, cursor), g)
  {
    SoundWorking(s, g);
    AtWorkHere(s, g);
    PreparedAwaits(s, g, cursor);
    NextUnused(PrepareCommit(s, cursor), g);
    FreshPage(s, g);
    hide Inv, Awaits, Committed, Active, PrepareCommit, InOrder, InPlay, Forest, Owning;
    PreparedMem(s, g, cursor);
    PreparedAccounts(s, PrepareCommit(s, cursor), g);
  }

  lemma {:induction false} FreshPage(s: Db, g: View)
    requires Working(s, g)
    ensures var (m, p) := Alloc(Me(s).mem, Me(s).slot, s.startId);
      && p !in InPlay(Me(s).mem) && InPlay(m) == InPlay(Me(s).mem) + {p} && InOrder(m) && p !in g.chain && p != s.active.value
    ensures s.active.value !in g.chain && s.readTxn in g.chain
  {
    ReadIsLive(s, g);
    AllocIsUnowned(s, g, Used(g), Me(s).slot);
    TidyMem(s, g, Used(g));
    AllocInPlay(Me(s).mem, Me(s).slot, s.startId);
  }

  lemma {:induction false} PreparedAccounts(s: Db, s': Db, g: View)
    requires Working(s, g) && !Prepared(s) && HoleOk(g) && Writing(s') && Prepared(s') && s'.nextTxn.Some? && s'.nextTxn.value !in Used(g)
    requires s'.active == s.active && s'.readTxn == s.readTxn && s'.startId == s.startId
    requires s.readTxn in s'.txns && s'.txns[s.readTxn].mem == s.txns[s.readTxn].mem
    requires forall c :: c in g.chain ==> c in s.txns && c in s'.txns && s'.txns[c].id == s.txns[c].id
    requires InPlay(Me(s').mem) == InPlay(Me(s).mem) + {s'.nextTxn.value} && InOrder(Me(s').mem)
    ensures Conserved(s', g)
  {
    hide InOrder, InPlay, Committed, Active;
    assert LiveChain(s', g) == LiveChain(s, g);
  }

  lemma {:induction false} NextUnused(s: Db, g: View)
    requires Awaits(s, g)
    ensures HoleOk(g) && s.nextTxn.Some? && s.nextTxn.value !in Used(g)
  {
  }

  lemma {:induction false} PreparedMem(s: Db, g: View, cursor: nat)
    requires Writing(s) && s.cursor == cursor && !Prepared(s) && Committed(s, g) && s.active.value !in g.chain
    requires Alloc(Me(s).mem, Me(s).slot, s.startId).1 !in g.chain && Alloc(Me(s).mem, Me(s).slot, s.startId).1 != s.active.value
    ensures var s' := PrepareCommit(s, cursor);
      && Writing(s') && (Me(s').mem, s'.nextTxn) == (Alloc(Me(s).mem, Me(s).slot, s.startId).0, Some(Alloc(Me(s).mem, Me(s).slot, s.startId).1))
      && s'.active == s.active && s'.readTxn == s.readTxn && s'.startId == s.startId && Prepared(s')
      && s.readTxn in s'.txns && s'.txns[s.readTxn].mem == s.txns[s.readTxn].mem
      && forall c :: c in g.chain ==> c in s.txns && c in s'.txns && s'.txns[c].id == s.txns[c].id
  {
    hide MemSafe, SnapOk;
    assert s.readTxn in g.chain;
  }

  lemma {:induction false} RollbackConserved(s: Db, g: View, cursor: nat)
    requires Sound(s, g) && Conserved(s, g) && s.active.Some? && s.cursor == cursor
    ensures Conserved(Rollback(s, cursor), Dropped(g))
  {
    SoundPlaces(s, g);
    hide Sound, InOrder, InPlay, Accounted;
    assert ChainPages(Dropped(g)) == ChainPages(g);
  }

  lemma {:induction false} SoundPlaces(s: Db, g: View)
    requires Sound(s, g)
    ensures s.readTxn in g.chain && (s.active.Some? ==> s.active.value !in g.chain && s.active.value != s.readTxn)
  {
    SoundCommitted(s, g);
    ReadIsLive(s, g);
  }

  // The part of commit after prepare_commit.
  lemma {:induction false} SwitchConserved(s: Db, g: View)
    requires Working(s, g) && Prepared(s) && s.nextTxn.Some? && g.hole.None? && g.loose == {} && s.preparedTxn == s.active.value
    requires 0 <= OldestIndex(s, g) < |g.chain|
    ensures Conserved(EndTransaction(s.(readTxn := s.preparedTxn)), Switched(s, g))
  {
    var s', g' := EndTransaction(s.(readTxn := s.preparedTxn)), Switched(s, g);
    var m := OldestIndex(s, g);
    OldestId(s, g);
    LiveFrom(s, g, m);
    SwitchedPages(s, g);
    hide InOrder, InPlay, Committed, Active;
    assert ForestPages({}) == {};
    assert Used(g) == SnapPages(g', s.active.value);
  }

  lemma {:induction false} OldestId(s: Db, g: View)
    requires Committed(s, g) && 0 <= OldestIndex(s, g) < |g.chain|
    ensures g.chain[OldestIndex(s, g)] in s.txns && s.startId == s.txns[g.chain[OldestIndex(s, g)]].id
  {
    assert g.chain[0] in s.txns;
  }

  lemma {:induction false} SwitchedPages(s: Db, g: View)
    requires Writing(s) && 0 <= OldestIndex(s, g) < |g.chain|
    ensures ChainPages(Switched(s, g)) == From(g, OldestIndex(s, g)) + {s.active.value}
  {
    var m, a := OldestIndex(s, g), s.active.value;
    var tail := g.chain[m..];
    forall c
      ensures c in tail <==> c in From(g, m)
    {
      if c in From(g, m) {
        var i: nat :| m <= i < |g.chain| && g.chain[i] == c;
        assert tail[i - m] == c;
      }
      if c in tail {
        var j: nat :| j < |tail| && tail[j] == c;
        assert g.chain[m + j] == c;
      }
    }
  }

  lemma {:induction false} CommitConserved(s: Db, g: View, op: Op)
    requires Sound(s, g) && Conserved(s, g) && Guard(s, g, op) && CommitsCurrent(s, op) && op.CommitTxn? && g.loose == {}
    requires s.active.Some? && s.cursor == op.cursor
    ensures Conserved(Commit(s, op.cursor), Track(s, g, op))
  {
    var s1 := PrepareCommit(s, op.cursor);
    CommitParts(s, g, op);
    hide Inv, Awaits, Accounted, CommittedAccounted, PrepareCommit, OldestIndex, Switched, Conserved, Working;
    if !Prepared(s) {
      PrepareConserved(s, g, op.cursor);
    }
    ConservedWorking(s1, g);
    SwitchConserved(s1, g);
  }

  lemma {:induction false} ConservedWorking(s: Db, g: View)
    requires Conserved(s, g) && Inv(s, g) && s.active.Some?
    ensures Working(s, g)
  {
    hide Accounted, CommittedAccounted;
  }

  lemma {:induction false} CommitParts(s: Db, g: View, op: Op)
    requires Sound(s, g) && Guard(s, g, op) && CommitsCurrent(s, op) && op.CommitTxn? && s.active.Some? && s.cursor == op.cursor
    ensures var s1 := PrepareCommit(s, op.cursor);
      && Inv(s1, g) && s1.active == s.active && Prepared(s1) && s1.nextTxn.Some? && s1.preparedTxn == s1.active.value && Writing(s1)
      && 0 <= OldestIndex(s1, g) < |g.chain| && Track(s, g, op) == Switched(s1, g) && (Prepared(s) ==> s1 == s)
      && Commit(s, op.cursor) == EndTransaction(s1.(readTxn := s1.preparedTxn))
  {
    if Prepared(s) {
      CurrentInv(s, g);
    }
    SoundPlaces(s, g);
    hide Committed, Active, Forest, Idle;
    CommitStepKeeps(s, g, op.cursor);
    PrepareStepKeeps(s, g, op.cursor);
    PreparedHeader(s, op.cursor);
    PreparedNext(PrepareCommit(s, op.cursor), g);
  }

  lemma {:induction false} PreparedHeader(s: Db, cursor: nat)
    requires s.active.Some? && s.active.value in s.txns && s.cursor == cursor && s.active.value != s.readTxn
    ensures var s1 := PrepareCommit(s, cursor);
      && s1.active == s.active && Prepared(s1) && s1.readTxn == s.readTxn
      && (Prepared(s) ==> s1 == s) && (!Prepared(s) ==> s1.preparedTxn == s.active.value)
  {
  }

  lemma {:induction false} PreparedNext(s: Db, g: View)
    requires Inv(s, g) && s.active.Some? && Prepared(s)
    ensures s.nextTxn.Some? && s.preparedTxn == s.active.value && Writing(s)
  {
    hide Forest, MemSafe, SnapOk;
  }

  // ----- all steps

  // A writer that commits has given back every node it has detached.
  predicate LeavesNothing(s: Db, g: View, op: Op) {
    op.CommitTxn? && s.active.Some? && s.cursor == op.cursor ==> g.loose == {}
  }

  lemma {:induction false} StepConserves(s: Db, g: View, op: Op)
    requires Sound(s, g) && Conserved(s, g) && Guard(s, g, op) && CommitsCurrent(s, op) && LeavesNothing(s, g, op)
    ensures Conserved(Apply(s, op), Track(s, g, op))
  {
    hide Inv, Awaits, Conserved, StartTransaction, PrepareCommit, Commit, Rollback;
    if IsEdit(op) {
      EditConserved(s, g, op);
    } else if op.Pin? || op.PinActive? || op.Unpin? {
      ReaderConserved(s, g, op);
    } else if op.CommitTxn? && s.active.Some? && s.cursor == op.cursor {
      CommitConserved(s, g, op);
    } else {
      OtherConserves(s, g, op);
    }
  }

  lemma {:induction false} OtherConserves(s: Db, g: View, op: Op)
    requires Sound(s, g) && Conserved(s, g) && Guard(s, g, op) && (op.Start? || op.Prepare? || op.RollbackTxn? || op.CommitTxn?)
    requires op.CommitTxn? ==> !(s.active.Some? && s.cursor == op.cursor)
    ensures Conserved(Apply(s, op), Track(s, g, op))
  {
    hide Inv, Awaits, Conserved, Clone, Collect;
    SoundPrepared(s, g);
    match op {
      case Start(cursor) => if s.active.None? { StartConserved(s, g, cursor); }
      case Prepare(cursor) => if s.active.Some? && s.cursor == cursor && !Prepared(s) { PrepareConserved(s, g, cursor); }
      case RollbackTxn(cursor) => if s.active.Some? && s.cursor == cursor { RollbackConserved(s, g, cursor); }
      case _ =>
    }
  }

  lemma {:induction false} SoundPrepared(s: Db, g: View)
    requires Sound(s, g)
    ensures s.active.None? ==> Inv(s, g)
  {
    SoundCommitted(s, g);
  }

  // The main result: in every run in which writers give back what they have detached, no page is ever lost.
  lemma {:induction false} NoPageLost(ss: seq<Db>, gs: seq<View>, ops: seq<Op>, i: nat)
    requires Run(ss, gs, ops) && AllCurrent(ss, ops) && i < |ss|
    requires forall j :: 0 <= j < |ops| ==> LeavesNothing(ss[j], gs[j], ops[j])
    ensures Conserved(ss[i], gs[i])
    ensures ss[i].readTxn in ss[i].txns && forall p: nat :: ss[i].active.None? && p < ss[i].txns[ss[i].readTxn].mem.frontier ==>
      IsFree(ss[i].txns[ss[i].readTxn].mem, p) || p in SnapPages(gs[i], ss[i].readTxn) || p in gs[i].chain || ss[i].nextTxn == Some(p)
  {
    hide Sound, Conserved;
    if i == 0 {
      var slots: nat, slot: nat :| slot < slots && ss[0] == Init(slots, slot);
      InitConserved(slots, slot);
    } else {
      NoPageLost(ss, gs, ops, i - 1);
      RunKeepsSound(ss, gs, ops, i - 1);
      assert Steps(ss[i - 1], gs[i - 1], ops[i - 1], ss[i - 1 + 1], gs[i - 1 + 1]);
      StepConserves(ss[i - 1], gs[i - 1], ops[i - 1]);
    }
    EveryPlace(ss[i], gs[i]);
  }

  lemma {:induction false} EveryPlace(s: Db, g: View)
    requires Conserved(s, g)
    ensures s.readTxn in s.txns && forall p: nat :: s.active.None? && p < s.txns[s.readTxn].mem.frontier ==>
      IsFree(s.txns[s.readTxn].mem, p) || p in SnapPages(g, s.readTxn) || p in g.chain || s.nextTxn == Some(p)
  {
    forall p: nat | s.active.None? && p < s.txns[s.readTxn].mem.frontier && !IsFree(s.txns[s.readTxn].mem, p)
      ensures p in SnapPages(g, s.readTxn) || p in g.chain || s.nextTxn == Some(p)
    {
      assert p in InPlay(s.txns[s.readTxn].mem);
    }
  }

  lemma {:induction false} InitConserved(slots: nat, slot: nat)
    ensures Conserved(Init(slots, slot), View([0], map[0 := None], None, None, {}))
  {
    var s := Init(slots, slot);
    assert Entries(s.txns[0].mem) == {};
    assert InPlay(s.txns[0].mem) == {0, 1};
  }
}
