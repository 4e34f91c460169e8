// What a cursor does to its tree, step by step: cut out a subtree, free its nodes, build
// new ones from the parts, hang the result in again. Inv holds after every single step.

module Edits {
  import opened Common
  import opened Memory
  import opened Trees
  import opened Store
  import opened Invariants
  import opened WriterSteps

  function Roots(ts: seq<Tree>): (ps: seq<PageId>)
    ensures |ps| == |ts| && forall i :: 0 <= i < |ts| ==> ps[i] == ts[i].page
  {
    seq(|ts|, i requires 0 <= i < |ts| => ts[i].page)
  }

  // A writer at work, nothing prepared yet.
  ghost predicate AtWork(s: Db, g: View) {
    Inv(s, g) && s.active.Some? && !Prepared(s)
  }

  ghost function Joined(g: View, t: Tree): View {
    g.(loose := Join(g.loose, t))
  }

  ghost function Freed(g: View, t: Tree): View {
    g.(loose := Split(g.loose, t))
  }

  // ----- the steps

  // The writer's side of Inv.
  ghost predicate Ready(s: Db, g: View) {
    && Committed(s, g) && Writing(s) && HoleOk(g) && Forest(s, g) && Owning(s, g, Used(g))
    && s.preparedTxn == s.readTxn
  }

  lemma {:induction false} ReadyIsAtWork(s: Db, g: View)
    ensures Ready(s, g) == AtWork(s, g)
  {
  }

  // The allocator side does not look at the writer's trees.
  lemma {:induction false} SameChain(s: Db, g: View, g': View, used: set<PageId>)
    requires Committed(s, g) && Owning(s, g, used) && g'.chain == g.chain && g'.snaps == g.snaps
    ensures Committed(s, g') && Owning(s, g', used)
  {
    hide SlotsOk, Live, Me, IsFree, OptHolds;
    assert forall c :: SnapPages(g', c) == SnapPages(g, c);
  }

  lemma {:induction false} SameHeader(s: Db, s': Db, g: View)
    requires Untouched(s, s', g)
    ensures s'.readTxn == s.readTxn && s'.active == s.active && s'.preparedTxn == s.preparedTxn
  {
  }

  lemma {:induction false} JoinedForest(s: Db, s': Db, g: View, t: Tree)
    requires Writing(s) && Writing(s') && Forest(s, g) && Me(s').root == Me(s).root
    requires Parts(g.loose, t.kids) && t.page !in Used(g)
    requires forall q :: q in Used(g) ==> q in s.nodes && q in s'.nodes && s'.nodes[q] == s.nodes[q]
    requires t.page in s'.nodes && s'.nodes[t.page].node == Node(t.data, Roots(t.kids))
    ensures Forest(s', Joined(g, t)) && Used(Joined(g, t)) == Used(g) + {t.page}
  {
    ForestFrame(s, s', g);
    hide MainOk, ForestPages, PagesOf;
    JoinPages(g.loose, t);
    JoinApart(s'.nodes, g.loose, t);
    SameMain(s', g, Joined(g, t));
  }

  lemma {:induction false} SameMain(s: Db, g: View, g': View)
    requires Writing(s) && HoleOk(g) && MainOk(s, g) && g'.main == g.main && g'.hole == g.hole
    ensures HoleOk(g') && MainOk(s, g') && MainPages(g') == MainPages(g)
  {
  }

  // alloc_node and the write of its content.
  lemma {:induction false} NewNodeStep(s: Db, g: View, slot: nat, data: Data, kids: seq<Tree>)
    requires AtWork(s, g) && Parts(g.loose, kids) && slot < |Me(s).mem.slots|
    ensures var (s', p) := NewNode(s, slot, Node(data, Roots(kids)));
            AtWork(s', Joined(g, Tree(p, data, kids))) && Untouched(s, s', g) && p !in Used(g)
  {
    ReadyIsAtWork(s, g);
    hide AtWork, Committed, Owning, Untouched, Forest, NewNode;
    var node := Node(data, Roots(kids));
    NewNodeKeeps(s, g, Used(g), slot, node);
    var (s', p) := NewNode(s, slot, node);
    var t := Tree(p, data, kids);
    JoinedForest(s, s', g, t);
    SameChain(s', g, Joined(g, t), Used(g) + {p});
    SameHeader(s, s', g);
    ReadyIsAtWork(s', Joined(g, t));
  }

  lemma {:induction false} FreedForest(s: Db, s': Db, g: View, t: Tree)
    requires Writing(s) && Writing(s') && Forest(s, g) && t in g.loose
    requires s'.nodes == s.nodes && Me(s').root == Me(s).root
    ensures Forest(s', Freed(g, t)) && Used(Freed(g, t)) == Used(g) - {t.page} && t.page in Used(g)
  {
    MemberPages(g.loose, t);
    SplitApart(s.nodes, g.loose, t);
    SplitPages(s.nodes, g.loose, t);
  }

  // free_node on the root of a detached tree.
  lemma {:induction false} FreeNodeStep(s: Db, g: View, t: Tree)
    requires AtWork(s, g) && t in g.loose && t.page in s.nodes
    ensures var s' := FreePage(s, t.page, s.nodes[t.page].slot);
            AtWork(s', Freed(g, t)) && Untouched(s, s', g)
  {
    ReadyIsAtWork(s, g);
    hide AtWork, Committed, Owning, Untouched, Forest, FreePage;
    var s' := FreePage(s, t.page, s.nodes[t.page].slot);
    FreedForest(s, s, g, t);
    FreePageKeeps(s, g, Used(g), t.page);
    FreedForest(s, s', g, t);
    SameChain(s', g, Freed(g, t), Used(g) - {t.page});
    SameHeader(s, s', g);
    ReadyIsAtWork(s', Freed(g, t));
  }

  lemma {:induction false} RewrittenForest(s: Db, s': Db, g: View, t: Tree, t': Tree)
    requires Writing(s) && Writing(s') && Forest(s, g) && t in g.loose
    requires Parts(Split(g.loose, t), t'.kids) && t'.page == t.page
    requires forall q :: q in Used(g) ==> q in s.nodes && q in s'.nodes && (q != t.page ==> s'.nodes[q] == s.nodes[q])
    requires Me(s').root == Me(s).root && t.page in s'.nodes && s'.nodes[t.page].node == Node(t'.data, Roots(t'.kids))
    ensures Forest(s', Joined(Freed(g, t), t')) && Used(Joined(Freed(g, t), t')) == Used(g)
  {
    FreedForest(s, s, g, t);
    hide Forest, Used;
    JoinedForest(s, s', Freed(g, t), t');
  }

  // insert_branch: a node this transaction wrote gets new content in place.
  lemma {:induction false} RewriteStep(s: Db, g: View, t: Tree, data: Data, kids: seq<Tree>)
    requires AtWork(s, g) && t in g.loose && t.page in s.nodes && !NeedsCow(s, t.page)
    requires Parts(Split(g.loose, t), kids)
    ensures var s' := WriteNode(s, t.page, s.nodes[t.page].slot, Node(data, Roots(kids)));
            AtWork(s', Joined(Freed(g, t), Tree(t.page, data, kids))) && Untouched(s, s', g)
  {
    hide Split, Roots, Untouched, Committed, Owning, Forest;
    ReadyIsAtWork(s, g);
    LooseRoot(g, t);
    UsedPage(s, g, Used(g), t.page);
    UsedNodes(s, g);
    hide AtWork, Committed, Owning, Untouched, Forest;
    var slot := s.nodes[t.page].slot;
    var node := Node(data, Roots(kids));
    var s' := WriteNode(s, t.page, slot, node);
    var t' := Tree(t.page, data, kids);
    WriteNodeKeeps(s, g, Used(g), t.page, slot, node);
    RewrittenForest(s, s', g, t, t');
    assert Used(g) + {t.page} == Used(g);
    SameChain(s', g, Joined(Freed(g, t), t'), Used(g));
    SameHeader(s, s', g);
    ReadyIsAtWork(s', Joined(Freed(g, t), t'));
  }

  lemma {:induction false} LooseRoot(g: View, t: Tree)
    requires HoleOk(g) && t in g.loose
    ensures t.page in Used(g)
  {
    MemberPages(g.loose, t);
  }

  lemma {:induction false} UsedNodes(s: Db, g: View)
    requires Ready(s, g)
    ensures forall q :: q in Used(g) ==> q in s.nodes
  {
  }

  // ----- cutting and hanging in

  ghost function Cut(g: View, fs: seq<Frame>): View {
    match g.main
    case None => g.(hole := Some([]))
    case Some(t) => if Path(t, fs) then g.(hole := Some(fs), loose := g.loose + {SubAt(t, fs)}) else g
  }

  // The writer turns to the subtree at the end of a path; nothing is written.
  lemma {:induction false} CutStep(s: Db, g: View, fs: seq<Frame>)
    requires AtWork(s, g) && g.hole.None?
    requires match g.main case None => fs == [] case Some(t) => Path(t, fs)
    ensures AtWork(s, Cut(g, fs))
  {
    hide AtWork, Path, SubAt, ForestPages, Committed, Proper;
    ReadyIsAtWork(s, g);
    var g' := Cut(g, fs);
    if g.main.Some? {
      var t := g.main.value;
      var sub := SubAt(t, fs);
      CutTree(s.nodes, t, fs);
      CutForest(s, g, sub);
    }
    assert Used(g') == Used(g);
    SameChain(s, g, g', Used(g));
    ReadyIsAtWork(s, g');
  }

  lemma {:induction false} CutForest(s: Db, g: View, sub: Tree)
    requires Writing(s) && Forest(s, g) && g.hole.None? && g.main.Some?
    requires Holds(s.nodes, sub) && Proper(sub) && PagesOf(sub) <= PagesOf(g.main.value)
    ensures Apart(s.nodes, g.loose + {sub})
    ensures ForestPages(g.loose + {sub}) == ForestPages(g.loose) + PagesOf(sub)
  {
    hide Holds;
    forall x | x in g.loose
      ensures PagesOf(x) !! PagesOf(sub)
    {
      MemberPages(g.loose, x);
    }
    forall q | q in ForestPages(g.loose) + PagesOf(sub)
      ensures q in ForestPages(g.loose + {sub})
    {
      if q in PagesOf(sub) {
        assert sub in g.loose + {sub};
      } else {
        var x :| x in g.loose && q in PagesOf(x);
        assert x in g.loose + {sub};
      }
    }
  }

  // The tree with n at the end of the path, on the pages it is stored on.
  ghost function Plugged(t: Tree, fs: seq<Frame>, n: Tree): Tree
    requires Path(t, fs)
    decreases |fs|
  {
    if fs == [] then n
    else Tree(t.page, t.data, t.kids[fs[0].link := Plugged(t.kids[fs[0].link], fs[1..], n)])
  }

  ghost function HungIn(g: View, t: Tree, n: Tree): View {
    g.(main := Some(t), hole := None, loose := g.loose - {n})
  }

  lemma {:induction false} WithoutTree(h: Heap, ts: set<Tree>, n: Tree)
    requires Apart(h, ts) && n in ts
    ensures Apart(h, ts - {n}) && ForestPages(ts - {n}) == ForestPages(ts) - PagesOf(n)
  {
    forall q | q in ForestPages(ts) - PagesOf(n)
      ensures q in ForestPages(ts - {n})
    {
      var x :| x in ts && q in PagesOf(x);
      MemberPages(ts - {n}, x);
    }
    forall q | q in ForestPages(ts - {n})
      ensures q in ForestPages(ts) - PagesOf(n)
    {
      var x :| x in ts - {n} && q in PagesOf(x);
      assert PagesOf(x) !! PagesOf(n);
    }
  }

  lemma {:induction false} ApartFrame(h: Heap, h': Heap, ts: set<Tree>)
    requires Apart(h, ts)
    requires forall q :: q in ForestPages(ts) ==> q in h && q in h' && h'[q] == h[q]
    ensures Apart(h', ts)
  {
    forall t | t in ts
      ensures Holds(h', t)
    {
      MemberPages(ts, t);
      HoldsFrame(h, h', t);
    }
  }

  // What hanging in leaves: the new main tree and the other detached trees.
  lemma {:induction false} HungForest(s: Db, s': Db, g: View, t': Tree, n: Tree)
    requires Writing(s) && Writing(s') && HoleOk(g) && Apart(s.nodes, g.loose) && n in g.loose
    requires Me(s').root == Some(t'.page) && Holds(s'.nodes, t') && Proper(t')
    requires PagesOf(t') !! ForestPages(g.loose) - PagesOf(n)
    requires forall q :: q in ForestPages(g.loose) - PagesOf(n) ==> q in s.nodes && q in s'.nodes && s'.nodes[q] == s.nodes[q]
    ensures Forest(s', HungIn(g, t', n))
    ensures Used(HungIn(g, t', n)) == PagesOf(t') + (ForestPages(g.loose) - PagesOf(n))
  {
    WithoutTree(s.nodes, g.loose, n);
    ApartFrame(s.nodes, s'.nodes, g.loose - {n});
  }

  lemma {:induction false} CanRelink(s: Db, g: View, n: Tree)
    requires Ready(s, g) && g.hole.Some? && n in g.loose && g.main.Some?
    ensures Path(g.main.value, g.hole.value)
    ensures Relinkable(s, Used(g), g.main.value, g.hole.value, n)
    ensures Rest(Used(g), g.main.value, g.hole.value, n) == ForestPages(g.loose) - PagesOf(n)
    ensures forall c :: c in g.chain ==> c in s.txns
  {
    MemberPages(g.loose, n);
  }

  lemma {:induction false} RelinkedForest(s: Db, s1: Db, s': Db, g: View, n: Tree)
    requires Ready(s, g) && g.hole.Some? && n in g.loose && g.main.Some? && Path(g.main.value, g.hole.value)
    requires Relinked(s, s1, g, Used(g), g.main.value, g.hole.value, n)
    requires Writing(s') && s'.nodes == s1.nodes
    requires Me(s').root == Some(Rebuilt(s, g.main.value, g.hole.value, n).page)
    ensures var t' := Rebuilt(s, g.main.value, g.hole.value, n);
            && Forest(s', HungIn(g, t', n))
            && Used(HungIn(g, t', n)) == Rest(Used(g), g.main.value, g.hole.value, n) + PagesOf(t')
  {
    hide Used, Rebuilt, HungIn, PagesOf;
    CanRelink(s, g, n);
    hide Committed, Owning, Untouched, AroundHolds;
    HungForest(s, s', g, Rebuilt(s, g.main.value, g.hole.value, n), n);
  }

  // update_offset: hang a detached tree into the hole, copying the path above it where an
  // older transaction still reads it.
  lemma {:induction false} PlugStep(s: Db, g: View, n: Tree)
    requires AtWork(s, g) && g.hole.Some? && n in g.loose && g.main.Some?
    ensures AtWork(UpdateOffset(s, g.hole.value, n.page),
                   HungIn(g, Rebuilt(s, g.main.value, g.hole.value, n), n))
    ensures Untouched(s, UpdateOffset(s, g.hole.value, n.page), g)
  {
    ReadyIsAtWork(s, g);
    hide AtWork, Committed, Owning, Untouched, Relinkable, Relink, MainOk, Rest;
    CanRelink(s, g, n);
    var t := g.main.value;
    var fs := g.hole.value;
    RelinkKeeps(s, g, Used(g), t, fs, n);
    var (s1, r) := Relink(s, fs, n.page);
    var t' := Rebuilt(s, t, fs, n);
    var used' := Rest(Used(g), t, fs, n) + PagesOf(t');
    SetRootKeeps(s1, g, used', Some(r));
    var s' := SetRoot(s1, Some(r));
    RelinkedForest(s, s1, s', g, n);
    SameChain(s', g, HungIn(g, t', n), used');
    UntouchedTwice(s, s1, s', g);
    SameHeader(s, s', g);
    ReadyIsAtWork(s', HungIn(g, t', n));
  }

  // The first node of an empty tree.
  lemma {:induction false} FirstNodeStep(s: Db, g: View, n: Tree)
    requires AtWork(s, g) && g.hole == Some([]) && n in g.loose && g.main.None?
    ensures AtWork(UpdateOffset(s, [], n.page), HungIn(g, n, n))
    ensures Untouched(s, UpdateOffset(s, [], n.page), g)
  {
    ReadyIsAtWork(s, g);
    SetRootKeeps(s, g, Used(g), Some(n.page));
    var s' := SetRoot(s, Some(n.page));
    MemberPages(g.loose, n);
    hide AtWork, Committed, Owning, Untouched;
    HungForest(s, s', g, n, n);
    assert Used(HungIn(g, n, n)) == Used(g);
    SameChain(s', g, HungIn(g, n, n), Used(g));
    SameHeader(s, s', g);
    ReadyIsAtWork(s', HungIn(g, n, n));
  }

  // The last node of the tree is gone: an empty root.
  lemma {:induction false} EmptyRootStep(s: Db, g: View)
    requires AtWork(s, g) && g.hole == Some([])
    ensures AtWork(SetRoot(s, None), g.(main := None, hole := None)) && Untouched(s, SetRoot(s, None), g)
  {
    ReadyIsAtWork(s, g);
    var g' := g.(main := None, hole := None);
    SetRootKeeps(s, g, Used(g), None);
    var s' := SetRoot(s, None);
    assert Used(g') == Used(g);
    assert Forest(s', g');
    hide AtWork, Committed, Owning, Untouched, Forest;
    SameChain(s', g, g', Used(g));
    SameHeader(s, s', g);
    ReadyIsAtWork(s', g');
  }

  lemma {:induction false} PluggedHolds(h: Heap, t: Tree, fs: seq<Frame>, n: Tree)
    requires Path(t, fs) && Proper(t) && AroundHolds(h, t, fs) && n.page == SubAt(t, fs).page
    requires Holds(h, n) && Proper(n) && Around(t, fs) !! PagesOf(n)
    ensures var t' := Plugged(t, fs, n);
            Holds(h, t') && Proper(t') && t'.page == t.page && PagesOf(t') == Around(t, fs) + PagesOf(n)
    decreases |fs|
  {
    hide Holds, PagesOf;
    if fs != [] {
      var l := fs[0].link;
      var kid := t.kids[l];
      AroundInside(kid, fs[1..]);
      PluggedHolds(h, kid, fs[1..], n);
      forall q | q in Siblings(t, l)
        ensures q in Around(t, fs) && q !in PagesOf(kid)
      {
        var i :| 0 <= i < |t.kids| && i != l && q in PagesOf(t.kids[i]);
        assert PagesOf(t.kids[i]) !! PagesOf(kid);
      }
      AttachSubtree(h, t, l, t.page, Plugged(kid, fs[1..], n));
    }
  }

  // A node rewritten in place still hangs where it hung: nothing above it is written.
  lemma {:induction false} SettleStep(s: Db, g: View, n: Tree)
    requires AtWork(s, g) && g.hole.Some? && n in g.loose && g.main.Some?
    requires n.page == SubAt(g.main.value, g.hole.value).page
    ensures AtWork(s, HungIn(g, Plugged(g.main.value, g.hole.value, n), n))
  {
    ReadyIsAtWork(s, g);
    var t' := Plugged(g.main.value, g.hole.value, n);
    SettledForest(s, g, n);
    hide AtWork, Committed, Owning, Forest, Used;
    SameChain(s, g, HungIn(g, t', n), Used(g));
    ReadyIsAtWork(s, HungIn(g, t', n));
  }

  lemma {:induction false} SettledForest(s: Db, g: View, n: Tree)
    requires Ready(s, g) && g.hole.Some? && n in g.loose && g.main.Some?
    requires n.page == SubAt(g.main.value, g.hole.value).page
    ensures var t' := Plugged(g.main.value, g.hole.value, n);
            Forest(s, HungIn(g, t', n)) && Used(HungIn(g, t', n)) == Used(g)
  {
    hide SubAt, Committed;
    UsedNodes(s, g);
    hide Committed, Owning;
    MemberPages(g.loose, n);
    PluggedHolds(s.nodes, g.main.value, g.hole.value, n);
    HungForest(s, s, g, Plugged(g.main.value, g.hole.value, n), n);
  }

  // Copy-on-write only moves pages: what the tree stores is the old content with the subtree
  // at the end of the path exchanged, wherever the copies ended up.
  lemma {:induction false} RebuiltShape(s: Db, t: Tree, fs: seq<Frame>, n: Tree)
    requires Writing(s) && Path(t, fs)
    ensures ShapeOf(Rebuilt(s, t, fs, n)) == Filled(ShapeOf(t), fs, ShapeOf(n))
    decreases |fs|
  {
    if fs != [] {
      var l := fs[0].link;
      RebuiltShape(s, t.kids[l], fs[1..], n);
      assert ShapeOf(Rebuilt(s, t, fs, n)).kids == ShapeOf(t).kids[l := Filled(ShapeOf(t.kids[l]), fs[1..], ShapeOf(n))];
    }
  }
}
