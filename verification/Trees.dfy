// Trie nodes as pages of a heap, and the trees that hang below a page.

module Trees {
  import opened Common
  import opened Memory

  datatype Data =
    | LeafData(suffix: seq<Byte>, value: seq<Byte>)
    | TrieData(compressed: seq<Byte>, keys: seq<int>)

  datatype Node = Node(data: Data, kids: seq<PageId>)

  // A page in use: the transaction that wrote it, its size class and the node on it.
  datatype Page = Page(txn: nat, slot: nat, node: Node)

  type Heap = map<PageId, Page>

  datatype Tree = Tree(page: PageId, data: Data, kids: seq<Tree>)

  // The heap stores exactly this tree.
  ghost predicate Holds(h: Heap, t: Tree)
    decreases t
  {
    && t.page in h
    && h[t.page].node.data == t.data
    && |h[t.page].node.kids| == |t.kids|
    && forall i :: 0 <= i < |t.kids| ==> h[t.page].node.kids[i] == t.kids[i].page && Holds(h, t.kids[i])
  }

  ghost function PagesOf(t: Tree): set<PageId>
    decreases t
  {
    {t.page} + set i, p | 0 <= i < |t.kids| && p in PagesOf(t.kids[i]) :: p
  }

  // No page occurs twice.
  ghost predicate Proper(t: Tree)
    decreases t
  {
    && (forall i :: 0 <= i < |t.kids| ==> Proper(t.kids[i]) && t.page !in PagesOf(t.kids[i]))
    && (forall i, j :: 0 <= i < j < |t.kids| ==> PagesOf(t.kids[i]) !! PagesOf(t.kids[j]))
  }

  // What a tree stores, regardless of the pages it is stored on.
  datatype Shape = Shape(data: Data, kids: seq<Shape>)

  ghost function ShapeOf(t: Tree): Shape
    decreases t
  {
    Shape(t.data, seq(|t.kids|, i requires 0 <= i < |t.kids| => ShapeOf(t.kids[i])))
  }

  // ----- reading

  function KeyIndex(keys: seq<int>, k: int): (r: Option<nat>)
    ensures r.Some? ==> r.value < |keys| && keys[r.value] == k
  {
    if keys == [] then None
    else if keys[0] == k then Some(0)
    else match KeyIndex(keys[1..], k)
         case None => None
         case Some(i) => Some(i + 1)
  }

  // _Transition::find: descend from page p; every step either strips a label or takes the
  // NONE branch. None when the key is absent (or the walk is longer than fuel).
  function Read(h: Heap, p: PageId, key: seq<Byte>, fuel: nat): Option<seq<Byte>>
    decreases fuel
  {
    if fuel == 0 || p !in h then None
    else match h[p].node.data
      case LeafData(suffix, value) => if suffix == key then Some(value) else None
      case TrieData(compressed, keys) =>
        if !(compressed <= key) then None
        else
          var rest := key[|compressed|..];
          match KeyIndex(keys, if rest == [] then NONE else rest[0])
          case None => None
          case Some(i) => if i < |h[p].node.kids| then Read(h, h[p].node.kids[i], rest, fuel - 1) else None
  }

  function ReadRoot(h: Heap, root: Option<PageId>, key: seq<Byte>, fuel: nat): Option<seq<Byte>> {
    match root case None => None case Some(p) => Read(h, p, key, fuel)
  }

  lemma {:induction false} SameTreeSameReads(h: Heap, h': Heap, t: Tree, key: seq<Byte>, fuel: nat)
    requires Holds(h, t) && Holds(h', t)
    ensures Read(h, t.page, key, fuel) == Read(h', t.page, key, fuel)
    decreases fuel
  {
    if fuel > 0 && t.data.TrieData? && t.data.compressed <= key {
      var rest := key[|t.data.compressed|..];
      var k := KeyIndex(t.data.keys, if rest == [] then NONE else rest[0]);
      if k.Some? && k.value < |t.kids| {
        SameTreeSameReads(h, h', t.kids[k.value], rest, fuel - 1);
      }
    }
  }

  lemma {:induction false} HoldsFrame(h: Heap, h': Heap, t: Tree)
    requires Holds(h, t)
    requires forall p :: p in PagesOf(t) ==> p in h && p in h' && h'[p].node == h[p].node
    ensures Holds(h', t)
    decreases t
  {
    assert t.page in PagesOf(t);
    forall i | 0 <= i < |t.kids|
      ensures Holds(h', t.kids[i])
    {
      assert forall p :: p in PagesOf(t.kids[i]) ==> p in PagesOf(t);
      HoldsFrame(h, h', t.kids[i]);
    }
  }

  lemma {:induction false} HeldPages(h: Heap, t: Tree)
    requires Holds(h, t)
    ensures forall p :: p in PagesOf(t) ==> p in h
    decreases t
  {
    forall i | 0 <= i < |t.kids|
      ensures forall p :: p in PagesOf(t.kids[i]) ==> p in h
    {
      HeldPages(h, t.kids[i]);
    }
  }

  // ----- a tree with one subtree taken out

  // A frame of the cursor stack: a trie page and the link that is followed from it.
  datatype Frame = Frame(page: PageId, link: nat)

  ghost predicate Path(t: Tree, fs: seq<Frame>)
    decreases |fs|
  {
    fs == [] || (fs[0].page == t.page && fs[0].link < |t.kids| && Path(t.kids[fs[0].link], fs[1..]))
  }

  ghost function SubAt(t: Tree, fs: seq<Frame>): Tree
    requires Path(t, fs)
    decreases |fs|
  {
    if fs == [] then t else SubAt(t.kids[fs[0].link], fs[1..])
  }

  ghost predicate AroundHolds(h: Heap, t: Tree, fs: seq<Frame>)
    requires Path(t, fs)
    decreases |fs|
  {
    fs == [] ||
    (&& t.page in h
     && h[t.page].node.data == t.data
     && |h[t.page].node.kids| == |t.kids|
     && (forall i :: 0 <= i < |t.kids| ==> h[t.page].node.kids[i] == t.kids[i].page)
     && (forall i :: 0 <= i < |t.kids| && i != fs[0].link ==> Holds(h, t.kids[i]))
     && AroundHolds(h, t.kids[fs[0].link], fs[1..]))
  }

  ghost function Siblings(t: Tree, link: nat): set<PageId> {
    set i, p | 0 <= i < |t.kids| && i != link && p in PagesOf(t.kids[i]) :: p
  }

  // The pages around the hole at the end of the path.
  ghost function Around(t: Tree, fs: seq<Frame>): set<PageId>
    requires Path(t, fs)
    decreases |fs|
  {
    if fs == [] then {}
    else {t.page}
         + Siblings(t, fs[0].link)
         + Around(t.kids[fs[0].link], fs[1..])
  }

  ghost function Filled(s: Shape, fs: seq<Frame>, x: Shape): Shape
    decreases |fs|
  {
    if fs == [] || fs[0].link >= |s.kids| then x
    else Shape(s.data, s.kids[fs[0].link := Filled(s.kids[fs[0].link], fs[1..], x)])
  }

  lemma {:induction false} KidsPages(t: Tree, l: nat)
    requires Proper(t) && l < |t.kids|
    ensures Proper(t.kids[l]) && PagesOf(t) == {t.page} + Siblings(t, l) + PagesOf(t.kids[l])
    ensures t.page !in PagesOf(t.kids[l]) && Siblings(t, l) !! PagesOf(t.kids[l])
  {
    forall i | 0 <= i < |t.kids| && i != l
      ensures PagesOf(t.kids[i]) !! PagesOf(t.kids[l])
    {
    }
  }

  lemma {:induction false} CutTree(h: Heap, t: Tree, fs: seq<Frame>)
    requires Path(t, fs) && Holds(h, t) && Proper(t)
    ensures AroundHolds(h, t, fs) && Holds(h, SubAt(t, fs)) && Proper(SubAt(t, fs))
    ensures PagesOf(t) == Around(t, fs) + PagesOf(SubAt(t, fs))
    ensures Around(t, fs) !! PagesOf(SubAt(t, fs))
    decreases |fs|
  {
    hide PagesOf, Siblings, Proper;
    if fs != [] {
      var kid := t.kids[fs[0].link];
      KidsPages(t, fs[0].link);
      CutTree(h, kid, fs[1..]);
    }
  }

  lemma {:induction false} AroundFrame(h: Heap, h': Heap, t: Tree, fs: seq<Frame>)
    requires Path(t, fs) && AroundHolds(h, t, fs)
    requires forall p :: p in Around(t, fs) ==> p in h && p in h' && h'[p].node == h[p].node
    ensures AroundHolds(h', t, fs)
    decreases |fs|
  {
    if fs != [] {
      assert t.page in Around(t, fs);
      forall i | 0 <= i < |t.kids| && i != fs[0].link
        ensures Holds(h', t.kids[i])
      {
        assert forall p :: p in PagesOf(t.kids[i]) ==> p in Around(t, fs);
        HoldsFrame(h, h', t.kids[i]);
      }
      AroundFrame(h, h', t.kids[fs[0].link], fs[1..]);
    }
  }

  lemma {:induction false} AroundPages(h: Heap, t: Tree, fs: seq<Frame>)
    requires Path(t, fs) && AroundHolds(h, t, fs)
    ensures forall p :: p in Around(t, fs) ==> p in h
    decreases |fs|
  {
    if fs != [] {
      forall i | 0 <= i < |t.kids| && i != fs[0].link
        ensures forall p :: p in PagesOf(t.kids[i]) ==> p in h
      {
        HeldPages(h, t.kids[i]);
      }
      AroundPages(h, t.kids[fs[0].link], fs[1..]);
    }
  }

  lemma {:induction false} AroundInside(t: Tree, fs: seq<Frame>)
    requires Path(t, fs)
    ensures Around(t, fs) <= PagesOf(t)
    decreases |fs|
  {
    if fs != [] {
      AroundInside(t.kids[fs[0].link], fs[1..]);
    }
  }

  lemma {:induction false} AttachedPages(t: Tree, link: nat, p: PageId, kid: Tree)
    requires link < |t.kids|
    ensures PagesOf(Tree(p, t.data, t.kids[link := kid])) == {p} + Siblings(t, link) + PagesOf(kid)
  {
    var t' := Tree(p, t.data, t.kids[link := kid]);
    forall q | q in {p} + Siblings(t, link) + PagesOf(kid)
      ensures q in PagesOf(t')
    {
      if q in PagesOf(kid) {
        assert t'.kids[link] == kid;
      } else if q != p {
        var i :| 0 <= i < |t.kids| && i != link && q in PagesOf(t.kids[i]);
        assert t'.kids[i] == t.kids[i];
      }
    }
    forall q | q in PagesOf(t')
      ensures q in {p} + Siblings(t, link) + PagesOf(kid)
    {
      if q != p {
        var i :| 0 <= i < |t'.kids| && q in PagesOf(t'.kids[i]);
      }
    }
  }

  lemma {:induction false} SiblingInside(t: Tree, link: nat, i: nat)
    requires i < |t.kids| && i != link
    ensures PagesOf(t.kids[i]) <= Siblings(t, link)
  {
  }

  lemma {:induction false} AttachedProper(t: Tree, link: nat, p: PageId, kid: Tree)
    requires Proper(t) && link < |t.kids| && Proper(kid)
    requires p !in Siblings(t, link) && p !in PagesOf(kid) && Siblings(t, link) !! PagesOf(kid)
    ensures Proper(Tree(p, t.data, t.kids[link := kid]))
  {
    var t' := Tree(p, t.data, t.kids[link := kid]);
    hide Siblings, PagesOf;
    forall i | 0 <= i < |t'.kids|
      ensures Proper(t'.kids[i]) && p !in PagesOf(t'.kids[i])
    {
      if i != link {
        SiblingInside(t, link, i);
      }
    }
    forall i, j | 0 <= i < j < |t'.kids|
      ensures PagesOf(t'.kids[i]) !! PagesOf(t'.kids[j])
    {
      if i == link {
        SiblingInside(t, link, j);
      } else if j == link {
        SiblingInside(t, link, i);
      } else {
        assert t'.kids[i] == t.kids[i] && t'.kids[j] == t.kids[j];
      }
    }
  }

  // A node on page p whose link leads to a new subtree, the other links unchanged.
  lemma {:induction false} AttachSubtree(h: Heap, t: Tree, link: nat, p: PageId, kid: Tree)
    requires Proper(t) && link < |t.kids|
    requires p in h && h[p].node.data == t.data && |h[p].node.kids| == |t.kids|
    requires forall i :: 0 <= i < |t.kids| ==>
               h[p].node.kids[i] == if i == link then kid.page else t.kids[i].page
    requires forall i :: 0 <= i < |t.kids| && i != link ==> Holds(h, t.kids[i])
    requires Holds(h, kid) && Proper(kid)
    requires p !in Siblings(t, link) && p !in PagesOf(kid) && Siblings(t, link) !! PagesOf(kid)
    ensures var t' := Tree(p, t.data, t.kids[link := kid]);
            Holds(h, t') && Proper(t') && PagesOf(t') == {p} + Siblings(t, link) + PagesOf(kid)
  {
    AttachedPages(t, link, p, kid);
    AttachedProper(t, link, p, kid);
  }

  // ----- detached trees

  ghost function ForestPages(ts: set<Tree>): set<PageId> {
    set t, p | t in ts && p in PagesOf(t) :: p
  }

  // Every tree is stored, and no page belongs to two of them.
  ghost predicate Apart(h: Heap, ts: set<Tree>) {
    && (forall t :: t in ts ==> Holds(h, t) && Proper(t))
    && (forall t, t' :: t in ts && t' in ts && t != t' ==> PagesOf(t) !! PagesOf(t'))
  }

  // Different trees of the set.
  ghost predicate Parts(ts: set<Tree>, kids: seq<Tree>) {
    && (forall i :: 0 <= i < |kids| ==> kids[i] in ts)
    && (forall i, j :: 0 <= i < j < |kids| ==> kids[i] != kids[j])
  }

  ghost function Join(ts: set<Tree>, t: Tree): set<Tree> {
    ts - (set k | k in t.kids) + {t}
  }

  ghost function Split(ts: set<Tree>, t: Tree): set<Tree> {
    ts - {t} + set k | k in t.kids
  }

  lemma {:induction false} MemberPages(ts: set<Tree>, t: Tree)
    requires t in ts
    ensures PagesOf(t) <= ForestPages(ts)
  {
  }

  lemma {:induction false} JoinPages(ts: set<Tree>, t: Tree)
    requires forall i :: 0 <= i < |t.kids| ==> t.kids[i] in ts
    ensures ForestPages(Join(ts, t)) == ForestPages(ts) + {t.page}
  {
    var ts' := Join(ts, t);
    forall q | q in ForestPages(ts')
      ensures q in ForestPages(ts) + {t.page}
    {
      var x :| x in ts' && q in PagesOf(x);
      if x == t && q != t.page {
        var i :| 0 <= i < |t.kids| && q in PagesOf(t.kids[i]);
      }
    }
    forall q | q in ForestPages(ts) + {t.page}
      ensures q in ForestPages(ts')
    {
      MemberPages(ts', t);
      if q != t.page {
        var x :| x in ts && q in PagesOf(x);
        if x in t.kids {
          assert q in PagesOf(t);
        } else {
          MemberPages(ts', x);
        }
      }
    }
  }

  lemma {:induction false} JoinApart(h: Heap, ts: set<Tree>, t: Tree)
    requires Apart(h, ts) && Parts(ts, t.kids) && t.page !in ForestPages(ts)
    requires t.page in h && h[t.page].node.data == t.data && |h[t.page].node.kids| == |t.kids|
    requires forall i :: 0 <= i < |t.kids| ==> h[t.page].node.kids[i] == t.kids[i].page
    ensures Apart(h, Join(ts, t))
  {
    forall x | x in ts
      ensures t.page !in PagesOf(x)
    {
      MemberPages(ts, x);
    }
    assert Holds(h, t) && Proper(t);
    forall x | x in ts && x !in t.kids
      ensures PagesOf(x) !! PagesOf(t)
    {
      forall i | 0 <= i < |t.kids|
        ensures PagesOf(x) !! PagesOf(t.kids[i])
      {
      }
    }
  }

  lemma {:induction false} KidInside(t: Tree, i: nat)
    requires i < |t.kids|
    ensures PagesOf(t.kids[i]) <= PagesOf(t)
  {
  }

  lemma {:induction false} SplitApart(h: Heap, ts: set<Tree>, t: Tree)
    requires Apart(h, ts) && t in ts
    ensures Apart(h, Split(ts, t))
  {
    hide PagesOf;
    var ts' := Split(ts, t);
    forall x, y | x in ts' && y in ts' && x != y
      ensures PagesOf(x) !! PagesOf(y)
    {
      if x in t.kids {
        var i :| 0 <= i < |t.kids| && t.kids[i] == x;
        KidInside(t, i);
      }
      if y in t.kids {
        var i :| 0 <= i < |t.kids| && t.kids[i] == y;
        KidInside(t, i);
      }
      assert x !in t.kids ==> PagesOf(x) !! PagesOf(t);
      assert y !in t.kids ==> PagesOf(y) !! PagesOf(t);
    }
  }

  lemma {:induction false} SplitPages(h: Heap, ts: set<Tree>, t: Tree)
    requires Apart(h, ts) && t in ts
    ensures ForestPages(Split(ts, t)) == ForestPages(ts) - {t.page}
  {
    var ts' := Split(ts, t);
    forall q | q in ForestPages(ts')
      ensures q in ForestPages(ts) && q != t.page
    {
      var x :| x in ts' && q in PagesOf(x);
      if x in t.kids {
        var i :| 0 <= i < |t.kids| && t.kids[i] == x;
        KidInside(t, i);
        MemberPages(ts, t);
      } else {
        MemberPages(ts, x);
        assert PagesOf(x) !! PagesOf(t) && t.page in PagesOf(t);
      }
    }
    forall q | q in ForestPages(ts) && q != t.page
      ensures q in ForestPages(ts')
    {
      var x :| x in ts && q in PagesOf(x);
      if x == t {
        var i :| 0 <= i < |t.kids| && q in PagesOf(t.kids[i]);
        MemberPages(ts', t.kids[i]);
      } else {
        MemberPages(ts', x);
      }
    }
    MemberPages(ts, t);
  }
}
