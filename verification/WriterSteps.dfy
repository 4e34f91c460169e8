// The steps of a writer keep the invariants: allocating, freeing and writing pages never
// touches a committed tree in use, whatever the writer does with its own tree.

module WriterSteps {
  import opened Common
  import opened Memory
  import opened Trees
  import opened Store
  import opened Invariants

  // The committed side only depends on the chain's records and on the snapshot pages.
  lemma {:induction false} CommittedFrame(s: Db, s': Db, g: View)
    requires Committed(s, g) && SlotsOk(s')
    requires s'.readTxn == s.readTxn && s'.startId == s.startId
    requires forall c :: c in g.chain ==> c in s'.txns && s'.txns[c] == s.txns[c]
    requires forall c, p :: c in g.chain && Live(s, c) && p in SnapPages(g, c) && p in s.nodes ==>
               p in s'.nodes && s'.nodes[p] == s.nodes[p]
    ensures Committed(s', g)
  {
    hide SlotsOk, PagesOf, Holds;
    assert s.readTxn in g.chain;
    forall c | c in g.chain && Live(s', c)
      ensures SnapOk(s', g, c)
    {
      assert Live(s, c) && SnapOk(s, g, c);
      if g.snaps[c].Some? {
        HoldsFrame(s.nodes, s'.nodes, g.snaps[c].value);
      }
    }
  }

  lemma {:induction false} ForestFrame(s: Db, s': Db, g: View)
    requires Writing(s) && Writing(s') && Forest(s, g)
    requires Me(s').root == Me(s).root
    requires forall p :: p in Used(g) ==> p in s.nodes && p in s'.nodes && s'.nodes[p].node == s.nodes[p].node
    ensures Forest(s', g)
  {
    if g.main.Some? {
      if g.hole.None? {
        HoldsFrame(s.nodes, s'.nodes, g.main.value);
      } else {
        AroundFrame(s.nodes, s'.nodes, g.main.value, g.hole.value);
      }
    }
    forall t | t in g.loose
      ensures Holds(s'.nodes, t)
    {
      MemberPages(g.loose, t);
      HoldsFrame(s.nodes, s'.nodes, t);
    }
  }

  lemma {:induction false} MemSafeFrame(s: Db, s': Db, g: View, m: Mem, m': Mem, top: nat)
    requires Committed(s, g) && MemSafe(s, g, m, top)
    requires s'.readTxn == s.readTxn && s'.startId == s.startId
    requires forall c :: c in g.chain ==> c in s'.txns && s'.txns[c] == s.txns[c]
    requires Tidy(m') && m.frontier <= m'.frontier
    requires forall e :: e in Entries(m') ==> e in Entries(m) || (e.freed == top && top > ReadId(s))
    ensures MemSafe(s', g, m', top)
  {
    assert s.readTxn in g.chain;
    assert ReadId(s') == ReadId(s);
    forall c | c in g.chain && Live(s', c)
      ensures Live(s, c) && s.txns[c].id <= ReadId(s)
    {
      var i :| 0 <= i < |g.chain| && g.chain[i] == c;
    }
  }

  lemma {:induction false} ReservedFrame(s: Db, s': Db, g: View, x: PageId, m: Mem, m': Mem)
    requires Committed(s, g) && Reserved(s, g, x, m)
    requires s'.startId == s.startId && x in s'.txns
    requires forall c :: c in g.chain ==> c in s'.txns && s'.txns[c] == s.txns[c]
    requires m.frontier <= m'.frontier && !IsFree(m', x)
    ensures Reserved(s', g, x, m')
  {
    forall c | c in g.chain && Live(s', c)
      ensures Live(s, c)
    {
    }
  }

  // p belongs to nobody.
  ghost predicate Unowned(s: Db, g: View, used: set<PageId>, p: PageId)
    requires Writing(s)
  {
    && p < Me(s).mem.frontier && !IsFree(Me(s).mem, p) && p !in used && p !in g.chain
    && p != s.active.value
    && (forall c :: c in g.chain && Live(s, c) ==> p !in SnapPages(g, c))
  }

  // The committed side is untouched: chain records and snapshot pages are what they were.
  ghost predicate Untouched(s: Db, s': Db, g: View)
  {
    && s'.readTxn == s.readTxn && s'.startId == s.startId && s'.active == s.active
    && s'.preparedTxn == s.preparedTxn && s'.nextTxn == s.nextTxn && s'.cursor == s.cursor
    && s.readTxn in g.chain
    && (forall c :: c in g.chain && c in s.txns ==> c in s'.txns && s'.txns[c] == s.txns[c])
    && (forall c, p :: c in g.chain && Live(s, c) && p in SnapPages(g, c) && p in s.nodes ==>
          p in s'.nodes && s'.nodes[p] == s.nodes[p])
  }

  lemma {:induction false} AllocIsUnowned(s: Db, g: View, used: set<PageId>, slot: nat)
    requires Committed(s, g) && Owning(s, g, used)
    ensures var (s', p) := AllocPage(s, slot);
            Unowned(s', g, used, p) && Untouched(s, s', g)
  {
    AllocTakesOldPage(Me(s).mem, slot, s.startId);
    var (s', p) := AllocPage(s, slot);
    assert p !in g.chain && p != s.active.value;
    assert s.readTxn in g.chain;
    assert forall c :: c in g.chain && Live(s', c) ==> Live(s, c);
  }

  lemma {:induction false} AllocKeepsCommitted(s: Db, g: View, used: set<PageId>, slot: nat)
    requires Committed(s, g) && Owning(s, g, used)
    ensures Committed(AllocPage(s, slot).0, g)
  {
    AllocIsUnowned(s, g, used, slot);
    var (s', p) := AllocPage(s, slot);
    assert SlotsOk(s') by {
      assert |Me(s').mem.slots| == |Me(s).mem.slots|;
    }
    CommittedFrame(s, s', g);
  }

  lemma {:induction false} AllocKeepsOwning(s: Db, g: View, used: set<PageId>, slot: nat)
    requires Committed(s, g) && Owning(s, g, used)
    requires Committed(AllocPage(s, slot).0, g)
    ensures Owning(AllocPage(s, slot).0, g, used)
  {
    AllocIsUnowned(s, g, used, slot);
    AllocTakesOldPage(Me(s).mem, slot, s.startId);
    var (s', p) := AllocPage(s, slot);
    assert s.readTxn in g.chain;
    MemSafeFrame(s, s', g, Me(s).mem, Me(s').mem, Me(s).id);
    assert forall x :: IsFree(Me(s').mem, x) ==> IsFree(Me(s).mem, x);
    ReservedFrame(s, s', g, s.active.value, s.txns[s.readTxn].mem, s.txns[s.readTxn].mem);
    ReservedFrame(s, s', g, s.active.value, Me(s).mem, Me(s').mem);
    assert PagesOk(s', g, used);
  }

  // A page handed out can be written: it is in use by nobody.
  lemma {:induction false} NewNodeKeeps(s: Db, g: View, used: set<PageId>, slot: nat, node: Node)
    requires Committed(s, g) && Owning(s, g, used) && slot < |Me(s).mem.slots|
    ensures var (s', p) := NewNode(s, slot, node);
            && Committed(s', g) && p !in used && Owning(s', g, used + {p}) && Untouched(s, s', g)
            && p in s'.nodes && s'.nodes[p] == Page(Me(s).id, slot, node)
            && Me(s') == Me(s).(mem := Me(s').mem) && |Me(s').mem.slots| == |Me(s).mem.slots|
            && (forall q :: q in used ==> q in s.nodes && q in s'.nodes && s'.nodes[q] == s.nodes[q])
  {
    AllocIsUnowned(s, g, used, slot);
    AllocKeepsCommitted(s, g, used, slot);
    AllocKeepsOwning(s, g, used, slot);
    var (s1, p) := AllocPage(s, slot);
    WriteNodeKeeps(s1, g, used, p, slot, node);
  }

  lemma {:induction false} WriteKeepsCommitted(s: Db, g: View, used: set<PageId>, p: PageId, slot: nat, node: Node)
    requires Committed(s, g) && Owning(s, g, used) && slot < |Me(s).mem.slots|
    requires Unowned(s, g, used, p) || (p in used && !NeedsCow(s, p))
    ensures var s' := WriteNode(s, p, slot, node); Committed(s', g) && Untouched(s, s', g)
  {
    var s' := WriteNode(s, p, slot, node);
    forall c | c in g.chain && Live(s, c)
      ensures p !in SnapPages(g, c)
    {
      var i :| 0 <= i < |g.chain| && g.chain[i] == c;
      assert SnapOk(s, g, c) && s.txns[c].id <= ReadId(s);
    }
    assert s.readTxn in g.chain;
    CommittedFrame(s, s', g);
  }

  lemma {:induction false} WriteNodeKeeps(s: Db, g: View, used: set<PageId>, p: PageId, slot: nat, node: Node)
    requires Committed(s, g) && Owning(s, g, used) && slot < |Me(s).mem.slots|
    requires Unowned(s, g, used, p) || (p in used && !NeedsCow(s, p))
    ensures var s' := WriteNode(s, p, slot, node);
            Committed(s', g) && Owning(s', g, used + {p}) && Untouched(s, s', g)
  {
    hide SnapOk, OptHolds, OptPages, Entries, Tidy;
    WriteKeepsCommitted(s, g, used, p, slot, node);
    assert s.readTxn in g.chain;
    MemSafeFrame(s, WriteNode(s, p, slot, node), g, Me(s).mem, Me(s).mem, Me(s).id);
  }

  lemma {:induction false} FreeKeepsCommitted(s: Db, g: View, used: set<PageId>, p: PageId)
    requires Committed(s, g) && Owning(s, g, used) && p in used
    ensures var s' := FreePage(s, p, s.nodes[p].slot);
            && Committed(s', g) && Untouched(s, s', g) && s'.nodes == s.nodes && Me(s') == Me(s).(mem := Me(s').mem)
            && |Me(s').mem.slots| == |Me(s).mem.slots|
  {
    hide SnapOk, Entries, OptHolds, Tidy, OptPages;
    var s' := FreePage(s, p, s.nodes[p].slot);
    assert s.readTxn in g.chain;
    CommittedFrame(s, s', g);
  }

  lemma {:induction false} FreeKeepsMem(s: Db, g: View, used: set<PageId>, p: PageId)
    requires Committed(s, g) && Owning(s, g, used) && p in used
    ensures var s' := FreePage(s, p, s.nodes[p].slot);
            && ReadId(s') == ReadId(s) && MemSafe(s', g, Me(s').mem, Me(s).id) && Me(s').mem.frontier == Me(s).mem.frontier
            && (forall x :: IsFree(Me(s').mem, x) ==> x == p || IsFree(Me(s).mem, x))
  {
    hide SnapOk, OptHolds, OptPages, Holds, Proper, PagesOf;
    var slot := s.nodes[p].slot;
    FreeAddsEntry(Me(s).mem, p, slot, Me(s).id);
    var s' := FreePage(s, p, slot);
    assert s.readTxn in g.chain;
    MemSafeFrame(s, s', g, Me(s).mem, Me(s').mem, Me(s).id);
  }

  // Freed pages carry the writer's own id, so they stay put while it runs.
  lemma {:induction false} FreePageKeeps(s: Db, g: View, used: set<PageId>, p: PageId)
    requires Committed(s, g) && Owning(s, g, used) && p in used
    ensures var s' := FreePage(s, p, s.nodes[p].slot);
            && Committed(s', g) && Owning(s', g, used - {p}) && Untouched(s, s', g)
            && s'.nodes == s.nodes && Me(s') == Me(s).(mem := Me(s').mem)
            && |Me(s').mem.slots| == |Me(s).mem.slots|
  {
    hide SnapOk, Entries, IsFree, Tidy, OptHolds, OptPages, MemSafe, Free;
    var s' := FreePage(s, p, s.nodes[p].slot);
    FreeKeepsCommitted(s, g, used, p);
    FreeKeepsMem(s, g, used, p);
    assert s.readTxn in g.chain;
    ReservedFrame(s, s', g, s.active.value, s.txns[s.readTxn].mem, s.txns[s.readTxn].mem);
    ReservedFrame(s, s', g, s.active.value, Me(s).mem, Me(s').mem);
    assert PagesOk(s', g, used - {p});
  }

  lemma {:induction false} SetRootKeeps(s: Db, g: View, used: set<PageId>, root: Option<PageId>)
    requires Committed(s, g) && Owning(s, g, used)
    ensures var s' := SetRoot(s, root);
            Committed(s', g) && Owning(s', g, used) && Untouched(s, s', g) && s'.nodes == s.nodes
  {
    var s' := SetRoot(s, root);
    assert s.readTxn in g.chain;
    CommittedFrame(s, s', g);
    MemSafeFrame(s, s', g, Me(s).mem, Me(s).mem, Me(s).id);
    ReservedFrame(s, s', g, s.active.value, s.txns[s.readTxn].mem, s.txns[s.readTxn].mem);
    ReservedFrame(s, s', g, s.active.value, Me(s).mem, Me(s).mem);
    assert PagesOk(s', g, used);
  }

  lemma {:induction false} UntouchedTwice(s: Db, s1: Db, s2: Db, g: View)
    requires Untouched(s, s1, g) && Untouched(s1, s2, g)
    requires forall c :: c in g.chain ==> c in s.txns
    ensures Untouched(s, s2, g)
  {
  }

  lemma {:induction false} UsedPage(s: Db, g: View, used: set<PageId>, p: PageId)
    requires Committed(s, g) && Owning(s, g, used) && p in used
    ensures p in s.nodes && s.nodes[p].slot < |Me(s).mem.slots|
    ensures forall c :: c in g.chain ==> c in s.txns
  {
  }

  // Copy-on-write of one page: the copy takes the place of the old page.
  lemma {:induction false} CopyPageKeeps(s: Db, g: View, used: set<PageId>, from: PageId, node: Node)
    requires Committed(s, g) && Owning(s, g, used) && from in used
    ensures var (s1, p) := NewNode(s, s.nodes[from].slot, node);
            var s' := FreePage(s1, from, s.nodes[from].slot);
            && Committed(s', g) && Owning(s', g, used - {from} + {p}) && Untouched(s, s', g)
            && p !in used && p in s'.nodes && s'.nodes[p].node == node
            && (forall q :: q in used ==> q in s.nodes && q in s'.nodes && s'.nodes[q] == s.nodes[q])
            && Me(s') == Me(s).(mem := Me(s').mem) && |Me(s').mem.slots| == |Me(s).mem.slots|
  {
    hide Committed, Untouched, NewNode, FreePage, WriteNode, Reserved, PagesOk;
    UsedPage(s, g, used, from);
    var slot := s.nodes[from].slot;
    NewNodeKeeps(s, g, used, slot, node);
    var (s1, p) := NewNode(s, slot, node);
    FreePageKeeps(s1, g, used + {p}, from);
    UntouchedTwice(s, s1, FreePage(s1, from, slot), g);
    assert used + {p} - {from} == used - {from} + {p};
  }

  // _Transition::update on one frame.
  lemma {:induction false} SetLinkKeeps(s: Db, g: View, used: set<PageId>, f: Frame, n: PageId)
    requires Committed(s, g) && Owning(s, g, used) && f.page in used
    requires f.link < |s.nodes[f.page].node.kids|
    ensures var (s', p) := SetLink(s, f, n);
            && Committed(s', g) && Owning(s', g, used - {f.page} + {p}) && Untouched(s, s', g)
            && (p == f.page || p !in used) && p in s'.nodes
            && s'.nodes[p].node ==
               s.nodes[f.page].node.(kids := s.nodes[f.page].node.kids[f.link := n])
            && (forall q :: q in used && q != f.page ==> q in s'.nodes && s'.nodes[q] == s.nodes[q])
            && Me(s') == Me(s).(mem := Me(s').mem) && |Me(s').mem.slots| == |Me(s).mem.slots|
  {
    UsedPage(s, g, used, f.page);
    hide Committed, Owning, Untouched, NewNode, FreePage, Reserved, PagesOk;
    var page := s.nodes[f.page];
    var node := page.node.(kids := page.node.kids[f.link := n]);
    if NeedsCow(s, f.page) {
      CopyPageKeeps(s, g, used, f.page, node);
    } else {
      WriteNodeKeeps(s, g, used, f.page, page.slot, node);
      assert used + {f.page} == used - {f.page} + {f.page};
    }
  }

  // ----- relinking a path

  // The tree Relink leaves behind: the path on its new pages, N at its end.
  ghost function Rebuilt(s: Db, t: Tree, fs: seq<Frame>, n: Tree): Tree
    requires Writing(s) && Path(t, fs)
    decreases |fs|
  {
    if fs == [] then n
    else
      Tree(Relink(s, fs, n.page).1, t.data,
           t.kids[fs[0].link := Rebuilt(s, t.kids[fs[0].link], fs[1..], n)])
  }

  // What relinking needs: the path, its siblings and the new subtree are in use, apart.
  ghost predicate Relinkable(s: Db, used: set<PageId>, t: Tree, fs: seq<Frame>, n: Tree) {
    && Path(t, fs) && Proper(t) && AroundHolds(s.nodes, t, fs) && Around(t, fs) <= used
    && Holds(s.nodes, n) && Proper(n) && PagesOf(n) <= used && Around(t, fs) !! PagesOf(n)
  }

  ghost function Rest(used: set<PageId>, t: Tree, fs: seq<Frame>, n: Tree): set<PageId>
    requires Path(t, fs)
  {
    used - Around(t, fs) - PagesOf(n)
  }

  ghost predicate Relinked(s: Db, s': Db, g: View, used: set<PageId>, t: Tree, fs: seq<Frame>, n: Tree)
    requires Writing(s) && Path(t, fs)
  {
    var t' := Rebuilt(s, t, fs, n);
    var rest := Rest(used, t, fs, n);
    && Committed(s', g) && Owning(s', g, rest + PagesOf(t')) && Untouched(s, s', g)
    && t'.page == Relink(s, fs, n.page).1
    && Holds(s'.nodes, t') && Proper(t') && PagesOf(t') !! rest
    && (forall q :: q in rest ==> q in s.nodes && q in s'.nodes && s'.nodes[q] == s.nodes[q])
    && Me(s') == Me(s).(mem := Me(s').mem)
  }

  // Seen from the root of t: the pages around the path are t's own page, its other subtrees
  // and the pages around the rest of the path.
  lemma {:induction false} RelinkDown(s: Db, used: set<PageId>, t: Tree, fs: seq<Frame>, n: Tree)
    requires Relinkable(s, used, t, fs, n) && fs != []
    ensures var kid := t.kids[fs[0].link];
            && Relinkable(s, used, kid, fs[1..], n)
            && t.page in Rest(used, kid, fs[1..], n) && Siblings(t, fs[0].link) <= Rest(used, kid, fs[1..], n)
            && t.page !in Siblings(t, fs[0].link)
            && Rest(used, kid, fs[1..], n) == Rest(used, t, fs, n) + {t.page} + Siblings(t, fs[0].link)
            && Rest(used, t, fs, n) !! {t.page} + Siblings(t, fs[0].link)
  {
    var l := fs[0].link;
    var kid := t.kids[l];
    AroundInside(kid, fs[1..]);
    assert t.page !in PagesOf(kid);
    forall q | q in Siblings(t, l)
      ensures q !in PagesOf(kid) && q in Around(t, fs)
    {
      var i :| 0 <= i < |t.kids| && i != l && q in PagesOf(t.kids[i]);
      assert PagesOf(t.kids[i]) !! PagesOf(kid);
    }
  }

  lemma {:induction false} RelinkUp(s: Db, s': Db, t: Tree, link: nat, p: PageId, kid': Tree, rest: set<PageId>)
    requires Proper(t) && link < |t.kids|
    requires t.page in s.nodes && s.nodes[t.page].node.data == t.data
             && |s.nodes[t.page].node.kids| == |t.kids|
             && (forall i :: 0 <= i < |t.kids| ==> s.nodes[t.page].node.kids[i] == t.kids[i].page)
    requires forall i :: 0 <= i < |t.kids| && i != link ==> Holds(s.nodes, t.kids[i])
    requires p in s'.nodes
    requires s'.nodes[p].node ==
             s.nodes[t.page].node.(kids := s.nodes[t.page].node.kids[link := kid'.page])
    requires forall q :: q in Siblings(t, link) ==>
               q in s.nodes && q in s'.nodes && s'.nodes[q].node == s.nodes[q].node
    requires Holds(s'.nodes, kid') && Proper(kid')
    requires p !in Siblings(t, link) && p !in PagesOf(kid') && p !in rest
    requires Siblings(t, link) !! PagesOf(kid') && rest !! Siblings(t, link) + PagesOf(kid')
    ensures var t' := Tree(p, t.data, t.kids[link := kid']);
            && Holds(s'.nodes, t') && Proper(t') && PagesOf(t') !! rest
            && PagesOf(t') == {p} + Siblings(t, link) + PagesOf(kid')
  {
    forall i | 0 <= i < |t.kids| && i != link
      ensures Holds(s'.nodes, t.kids[i])
    {
      assert PagesOf(t.kids[i]) <= Siblings(t, link);
      HoldsFrame(s.nodes, s'.nodes, t.kids[i]);
    }
    AttachSubtree(s'.nodes, t, link, p, kid');
  }

  lemma {:induction false} ChainRecords(s: Db, g: View)
    requires Committed(s, g)
    ensures forall c :: c in g.chain ==> c in s.txns
  {
  }

  lemma {:induction false} HoldsAfterMove(h: Heap, h': Heap, t: Tree, used: set<PageId>, moved: PageId)
    requires Holds(h, t) && PagesOf(t) <= used && moved !in PagesOf(t)
    requires forall q :: q in used && q in h && q != moved ==> q in h' && h'[q] == h[q]
    ensures Holds(h', t)
  {
    HeldPages(h, t);
    HoldsFrame(h, h', t);
  }

  // The child kept its page: the node above it is already right.
  lemma {:induction false} RelinkStay(s: Db, g: View, used: set<PageId>, t: Tree, fs: seq<Frame>, n: Tree)
    requires Writing(s) && Relinkable(s, used, t, fs, n)
    requires |fs| > 1 && Relink(s, fs[1..], n.page).1 == fs[1].page
    requires Relinked(s, Relink(s, fs[1..], n.page).0, g, used, t.kids[fs[0].link], fs[1..], n)
    ensures Relinked(s, Relink(s, fs, n.page).0, g, used, t, fs, n)
  {
    hide Committed, Owning, Untouched, SetLink, PagesOf, Proper, Around;
    RelinkDown(s, used, t, fs, n);
    var link := fs[0].link;
    var kid := t.kids[link];
    var s1 := Relink(s, fs[1..], n.page).0;
    var kid' := Rebuilt(s, kid, fs[1..], n);
    var rest1 := Rest(used, kid, fs[1..], n);
    var rest := Rest(used, t, fs, n);
    assert kid'.page == kid.page;
    RelinkUp(s, s1, t, link, t.page, kid', rest);
    assert rest1 + PagesOf(kid') == rest + PagesOf(Tree(t.page, t.data, t.kids[link := kid']));
  }

  lemma {:induction false} RelinkMoveTree(s: Db, s1: Db, s': Db, g: View, used: set<PageId>, t: Tree, fs: seq<Frame>, n: Tree,
                       kid': Tree, p: PageId)
    requires Relinkable(s, used, t, fs, n) && fs != []
    requires var kid := t.kids[fs[0].link];
             var rest1 := Rest(used, kid, fs[1..], n);
             && Holds(s1.nodes, kid') && Proper(kid') && PagesOf(kid') !! rest1
             && (forall q :: q in rest1 ==> q in s.nodes && q in s1.nodes && s1.nodes[q] == s.nodes[q])
             && (p == t.page || p !in rest1 + PagesOf(kid'))
             && p in s'.nodes && t.page in s1.nodes && fs[0].link < |s1.nodes[t.page].node.kids|
             && s'.nodes[p].node ==
                s1.nodes[t.page].node.(kids := s1.nodes[t.page].node.kids[fs[0].link := kid'.page])
             && (forall q :: q in rest1 + PagesOf(kid') && q != t.page ==>
                   q in s1.nodes && q in s'.nodes && s'.nodes[q] == s1.nodes[q])
    ensures var t' := Tree(p, t.data, t.kids[fs[0].link := kid']);
            var rest := Rest(used, t, fs, n);
            && Holds(s'.nodes, t') && Proper(t') && PagesOf(t') !! rest
            && Rest(used, t.kids[fs[0].link], fs[1..], n) + PagesOf(kid') - {t.page} + {p} == rest + PagesOf(t')
            && (forall q :: q in rest ==> q in s.nodes && q in s'.nodes && s'.nodes[q] == s.nodes[q])
  {
    hide PagesOf, Proper, Around;
    RelinkDown(s, used, t, fs, n);
    var kid := t.kids[fs[0].link];
    var rest1 := Rest(used, kid, fs[1..], n);
    HoldsAfterMove(s1.nodes, s'.nodes, kid', rest1 + PagesOf(kid'), t.page);
    RelinkUp(s, s', t, fs[0].link, p, kid', Rest(used, t, fs, n));
  }

  lemma {:induction false} RelinkMove(s: Db, g: View, used: set<PageId>, t: Tree, fs: seq<Frame>, n: Tree)
    requires Writing(s) && Relinkable(s, used, t, fs, n)
    requires forall c :: c in g.chain ==> c in s.txns
    requires fs != [] && !(|fs| > 1 && Relink(s, fs[1..], n.page).1 == fs[1].page)
    requires Relinked(s, Relink(s, fs[1..], n.page).0, g, used, t.kids[fs[0].link], fs[1..], n)
    ensures Relinked(s, Relink(s, fs, n.page).0, g, used, t, fs, n)
  {
    hide Committed, Owning, Untouched, SetLink, PagesOf, Proper, Around, Holds;
    RelinkDown(s, used, t, fs, n);
    var kid := t.kids[fs[0].link];
    var (s1, c) := Relink(s, fs[1..], n.page);
    var kid' := Rebuilt(s, kid, fs[1..], n);
    var used1 := Rest(used, kid, fs[1..], n) + PagesOf(kid');
    HeldPages(s1.nodes, kid');
    SetLinkKeeps(s1, g, used1, fs[0], c);
    var (s', p) := SetLink(s1, fs[0], c);
    UntouchedTwice(s, s1, s', g);
    RelinkMoveTree(s, s1, s', g, used, t, fs, n, kid', p);
  }

  // update_offset: the new subtree hangs at the end of the path, every page of the path that
  // an older transaction wrote has been replaced by a copy, and no other page changed.
  lemma {:induction false} RelinkKeeps(s: Db, g: View, used: set<PageId>, t: Tree, fs: seq<Frame>, n: Tree)
    requires Committed(s, g) && Owning(s, g, used) && Relinkable(s, used, t, fs, n)
    ensures Relinked(s, Relink(s, fs, n.page).0, g, used, t, fs, n)
    decreases |fs|
  {
    if fs == [] {
      assert Rest(used, t, fs, n) + PagesOf(n) == used;
      assert s.readTxn in g.chain;
    } else {
      RelinkDown(s, used, t, fs, n);
      RelinkKeeps(s, g, used, t.kids[fs[0].link], fs[1..], n);
      ChainRecords(s, g);
      if |fs| > 1 && Relink(s, fs[1..], n.page).1 == fs[1].page {
        RelinkStay(s, g, used, t, fs, n);
      } else {
        RelinkMove(s, g, used, t, fs, n);
      }
    }
  }
}
