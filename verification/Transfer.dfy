// The sender of a hash trie: depth-first batches into bounded buffers, continued after each ACK.

module Transfer {
  import opened Common

  type Bytes = seq<Byte>

  datatype Node =
    | Leaf(tail: Bytes, big: bool)
    | Trie(compressed: Bytes, children: seq<Node>)

  // A node and the path of its parent.
  datatype Spot = Spot(path: Bytes, node: Node)

  // A transmitted trie node; its children from next on are still to be sent.
  datatype Pending = Pending(path: Bytes, node: Node, next: nat)

  // A path the receiver already has; isLeaf if only the value at that path.
  datatype Ack = Ack(path: Bytes, isLeaf: bool)

  ghost predicate WellFormed(n: Node)
    decreases n
  {
    n.Trie? ==> n.children != [] && forall i :: 0 <= i < |n.children| ==> WellFormed(n.children[i])
  }

  // ----- all nodes of a subtree

  ghost function All(path: Bytes, n: Node): multiset<Spot>
    decreases n, 1
  {
    multiset{Spot(path, n)} + if n.Leaf? then multiset{} else AllOf(path + n.compressed, n.children)
  }

  ghost function AllOf(path: Bytes, ns: seq<Node>): multiset<Spot>
    decreases ns, 0
  {
    if ns == [] then multiset{} else All(path, ns[0]) + AllOf(path, ns[1..])
  }

  ghost function Left(p: Pending): multiset<Spot> {
    if p.node.Trie? && p.next <= |p.node.children| then AllOf(p.path, p.node.children[p.next..]) else multiset{}
  }

  ghost function LeftOver(ps: seq<Pending>): multiset<Spot> {
    if ps == [] then multiset{} else LeftOver(ps[..|ps| - 1]) + Left(ps[|ps| - 1])
  }

  ghost predicate Open(p: Pending) {
    p.node.Trie? && p.next < |p.node.children| && WellFormed(p.node)
  }

  ghost predicate AllOpen(ps: seq<Pending>) {
    forall i :: 0 <= i < |ps| ==> Open(ps[i])
  }

  lemma {:induction false} LeftOverConcat(a: seq<Pending>, b: seq<Pending>)
    ensures LeftOver(a + b) == LeftOver(a) + LeftOver(b)
  {
    hide Left;
    if b == [] {
      assert a + b == a;
    } else {
      LeftOverConcat(a, b[..|b| - 1]);
      assert (a + b)[..|a + b| - 1] == a + b[..|b| - 1];
    }
  }

  lemma {:induction false} LeftOverOne(p: Pending)
    ensures LeftOver([p]) == Left(p)
  {
    assert [p][..0] == [];
  }

  // Sending one child takes that child's nodes off what is left.
  lemma {:induction false} LeftStep(p: Pending)
    requires p.node.Trie? && p.next < |p.node.children|
    ensures Left(p) == All(p.path, p.node.children[p.next]) + Left(p.(next := p.next + 1))
  {
    var c := p.node.children[p.next..];
    assert c[0] == p.node.children[p.next] && c[1..] == p.node.children[p.next + 1..];
  }

  lemma {:induction false} LeftNothing(p: Pending)
    requires p.node.Trie? && p.next == |p.node.children|
    ensures Left(p) == multiset{}
  {
  }

  // Everything still to be sent below a node lies under its path.
  lemma {:induction false} AllUnder(path: Bytes, n: Node, s: Spot)
    requires s in All(path, n)
    ensures path <= s.path
    decreases n, 1
  {
    if s != Spot(path, n) {
      AllOfUnder(path + n.compressed, n.children, s);
    }
  }

  lemma {:induction false} AllOfUnder(path: Bytes, ns: seq<Node>, s: Spot)
    requires s in AllOf(path, ns)
    ensures path <= s.path
    decreases ns, 0
  {
    if s in All(path, ns[0]) {
      AllUnder(path, ns[0], s);
    } else {
      AllOfUnder(path, ns[1..], s);
    }
  }

  lemma {:induction false} LeftOverUnder(ps: seq<Pending>, s: Spot) returns (i: nat)
    requires s in LeftOver(ps)
    ensures i < |ps| && s in Left(ps[i]) && ps[i].path <= s.path
  {
    i := |ps| - 1;
    if s in Left(ps[i]) {
      AllOfUnder(ps[i].path, ps[i].node.children[ps[i].next..], s);
    } else {
      i := LeftOverUnder(ps[..i], s);
    }
  }

  lemma {:induction false} LeftOverNone()
    ensures LeftOver([]) == multiset{}
  {
  }

  // What has been written to the buffer or noted for later.
  ghost function Out(wire: seq<Spot>, batch: seq<Pending>): multiset<Spot> {
    multiset(wire) + LeftOver(batch)
  }

  lemma {:induction false} OutNote(wire: seq<Spot>, batch: seq<Pending>, p: Pending)
    ensures Out(wire, batch + [p]) == Out(wire, batch) + Left(p)
  {
    LeftOverConcat(batch, [p]);
    LeftOverOne(p);
  }

  lemma {:induction false} OutSend(wire: seq<Spot>, batch: seq<Pending>, s: Spot)
    ensures Out(wire + [s], batch) == Out(wire, batch) + multiset{s}
  {
  }

  // ----- what one buffer holds

  // The nodes of a subtree in the order of the walk, down to this many levels below its root.
  ghost function Preorder(path: Bytes, n: Node, levels: nat): seq<Spot>
    decreases n, 1
  {
    [Spot(path, n)] + if n.Leaf? || levels == 0 then [] else PreorderOf(path + n.compressed, n.children, levels - 1)
  }

  ghost function PreorderOf(path: Bytes, ns: seq<Node>, levels: nat): seq<Spot>
    decreases ns, 0
  {
    if ns == [] then [] else Preorder(path, ns[0], levels) + PreorderOf(path, ns[1..], levels)
  }

  // As much of it as there is room for.
  ghost function Fitting(spots: seq<Spot>, room: nat): seq<Spot> {
    if |spots| <= room then spots else spots[..room]
  }

  // ----- big values

  // The paths of the leaves whose value is sent on its own, in the order of the walk.
  ghost function BigPaths(path: Bytes, n: Node): seq<Bytes>
    decreases n, 1
  {
    if n.Leaf? then (if n.big then [path + n.tail] else []) else BigPathsOf(path + n.compressed, n.children)
  }

  ghost function BigPathsOf(path: Bytes, ns: seq<Node>): seq<Bytes>
    decreases ns, 0
  {
    if ns == [] then [] else BigPaths(path, ns[0]) + BigPathsOf(path, ns[1..])
  }

  // Those among some nodes.
  ghost function BigsAmong(spots: seq<Spot>): seq<Bytes> {
    if spots == [] then []
    else
      var s := spots[|spots| - 1];
      BigsAmong(spots[..|spots| - 1]) + if s.node.Leaf? && s.node.big then [s.path + s.node.tail] else []
  }

  lemma {:induction false} BigsAmongJoin(a: seq<Spot>, b: seq<Spot>)
    ensures BigsAmong(a + b) == BigsAmong(a) + BigsAmong(b)
  {
    if b == [] {
      assert a + b == a;
    } else {
      BigsAmongJoin(a, b[..|b| - 1]);
      assert (a + b)[..|a + b| - 1] == a + b[..|b| - 1];
    }
  }

  // A walk over the whole subtree meets all its nodes, and its big leaves among them.
  ghost function Walk(path: Bytes, n: Node): seq<Spot>
    decreases n, 1
  {
    [Spot(path, n)] + if n.Leaf? then [] else WalkOf(path + n.compressed, n.children)
  }

  ghost function WalkOf(path: Bytes, ns: seq<Node>): seq<Spot>
    decreases ns, 0
  {
    if ns == [] then [] else Walk(path, ns[0]) + WalkOf(path, ns[1..])
  }

  lemma {:induction false} WalkMeetsAll(path: Bytes, n: Node)
    ensures multiset(Walk(path, n)) == All(path, n) && BigsAmong(Walk(path, n)) == BigPaths(path, n)
    decreases n, 1
  {
    var s := Spot(path, n);
    assert [s][..0] == [];
    if n.Trie? {
      WalkOfMeetsAll(path + n.compressed, n.children);
      BigsAmongJoin([s], WalkOf(path + n.compressed, n.children));
    } else {
      assert Walk(path, n) == [s];
    }
  }

  lemma {:induction false} WalkOfMeetsAll(path: Bytes, ns: seq<Node>)
    ensures multiset(WalkOf(path, ns)) == AllOf(path, ns) && BigsAmong(WalkOf(path, ns)) == BigPathsOf(path, ns)
    decreases ns, 0
  {
    if ns != [] {
      WalkMeetsAll(path, ns[0]);
      WalkOfMeetsAll(path, ns[1..]);
      BigsAmongJoin(Walk(path, ns[0]), WalkOf(path, ns[1..]));
    }
  }

  lemma {:induction false} TakenOut<T>(s: seq<T>, i: nat)
    requires i < |s|
    ensures multiset(s[..i] + s[i + 1..]) == multiset(s) - multiset{s[i]} && s == s[..i] + [s[i]] + s[i + 1..]
  {
    assert s == s[..i] + [s[i]] + s[i + 1..];
  }

  lemma {:induction false} BigsTakenOut(s: seq<Spot>, i: nat)
    requires i < |s|
    ensures multiset(BigsAmong(s)) == multiset(BigsAmong(s[..i] + s[i + 1..])) + multiset(BigsAmong([s[i]]))
  {
    TakenOut(s, i);
    BigsAmongJoin(s[..i] + [s[i]], s[i + 1..]);
    BigsAmongJoin(s[..i], [s[i]]);
    BigsAmongJoin(s[..i], s[i + 1..]);
  }

  // The order of the nodes does not matter.
  lemma {:induction false} BigsOfSame(a: seq<Spot>, b: seq<Spot>)
    requires multiset(a) == multiset(b)
    ensures multiset(BigsAmong(a)) == multiset(BigsAmong(b))
    decreases |a|
  {
    hide BigsAmong;
    if a == [] {
      assert |multiset(b)| == 0;
      assert |b| == 0;
    } else {
      assert a[0] in multiset(b);
      var i :| 0 <= i < |b| && b[i] == a[0];
      TakenOut(a, 0);
      TakenOut(b, i);
      BigsOfSame(a[..0] + a[1..], b[..i] + b[i + 1..]);
      BigsTakenOut(a, 0);
      BigsTakenOut(b, i);
    }
  }

  // Whoever has sent all nodes has met all big leaves.
  lemma {:induction false} AllBigs(sent: seq<Spot>, path: Bytes, n: Node)
    requires multiset(sent) == All(path, n)
    ensures multiset(BigsAmong(sent)) == multiset(BigPaths(path, n))
  {
    WalkMeetsAll(path, n);
    BigsOfSame(sent, Walk(path, n));
  }

  // a + b == c + d, and b is e + f: a grows by e.
  lemma {:induction false} Shift<T>(a: multiset<T>, b: multiset<T>, c: multiset<T>, e: multiset<T>, f: multiset<T>, g: multiset<T>)
    requires a + b == c && b == e + f && g == a + e
    ensures g + f == c
  {
  }

  // ----- acknowledgements

  predicate PrunedBy(ack: Ack, path: Bytes, leafExact: bool) {
    (!ack.isLeaf && ack.path <= path) || (leafExact && ack.isLeaf && ack.path == path)
  }

  predicate Pruned(acks: seq<Ack>, path: Bytes, leafExact: bool) {
    exists i :: 0 <= i < |acks| && PrunedBy(acks[i], path, leafExact)
  }

  // The buffer: what has been written, how many more nodes fit, whether one was refused, and the big values noted.
  datatype Buffer = Buffer(wire: seq<Spot>, room: nat, full: bool, bigs: seq<Bytes>)

  // Nodes are written in order while there is room; big leaves that were written are noted.
  ghost function Written(b: Buffer, spots: seq<Spot>): Buffer {
    var fit := Fitting(spots, b.room);
    Buffer(b.wire + fit, b.room - |fit|, b.full || |spots| > b.room, b.bigs + BigsAmong(fit))
  }

  lemma {:induction false} WrittenJoin(b: Buffer, x: seq<Spot>, y: seq<Spot>)
    ensures Written(Written(b, x), y) == Written(b, x + y)
  {
    var fit := Fitting(x, b.room);
    var more := Fitting(y, b.room - |fit|);
    BigsAmongJoin(fit, more);
    if |x| <= b.room {
      assert Fitting(x + y, b.room) == fit + more;
    } else {
      assert Fitting(x + y, b.room) == fit && more == [];
    }
    assert b.bigs + BigsAmong(fit) + BigsAmong(more) == b.bigs + (BigsAmong(fit) + BigsAmong(more));
    assert b.wire + fit + more == b.wire + (fit + more);
  }

  lemma {:induction false} WrittenNone(b: Buffer, spots: seq<Spot>)
    ensures Written(b, []) == b
    ensures b.room == 0 && (b.full || spots != []) ==> Written(b, spots) == b.(full := true)
  {
    assert spots[..0] == [];
  }

  lemma {:induction false} FromEmpty(room: nat, bigs: seq<Bytes>, spots: seq<Spot>)
    ensures Written(Buffer([], room, false, bigs), spots).wire == Fitting(spots, room)
    ensures Written(Buffer([], room, false, bigs), spots).bigs == bigs + BigsAmong(Fitting(spots, room))
    ensures spots != [] && room > 0 ==> Fitting(spots, room) != []
  {
  }

  lemma {:induction false} Preordered(path: Bytes, n: Node, levels: nat)
    ensures Preorder(path, n, levels) != []
  {
  }

  lemma {:induction false} OutEmpty(batch: seq<Pending>)
    ensures Out([], batch) == LeftOver(batch)
  {
  }

  lemma {:induction false} NoBigs()
    ensures BigsAmong([]) == []
  {
  }

  lemma {:induction false} WrittenOne(b: Buffer, s: Spot)
    ensures Written(b, [s]) ==
      if b.room == 0 then b.(full := true)
      else Buffer(b.wire + [s], b.room - 1, b.full, b.bigs + if s.node.Leaf? && s.node.big then [s.path + s.node.tail] else [])
  {
    assert [s][..0] == [];
    assert BigsAmong([s]) == [] + if s.node.Leaf? && s.node.big then [s.path + s.node.tail] else [];
    if b.room == 0 {
      assert Fitting([s], 0) == [];
      assert b.bigs + BigsAmong([]) == b.bigs;
    }
  }

  lemma {:induction false} PreorderJoin(path: Bytes, ns: seq<Node>, i: nat, levels: nat)
    requires i < |ns|
    ensures PreorderOf(path, ns[..i + 1], levels) == PreorderOf(path, ns[..i], levels) + Preorder(path, ns[i], levels)
  {
    if i == 0 {
      assert ns[..1] == [ns[0]];
      assert [ns[0]][1..] == [];
    } else {
      assert ns[..i + 1][1..] == ns[1..][..i] && ns[..i][1..] == ns[1..][..i - 1];
      PreorderJoin(path, ns[1..], i - 1, levels);
    }
  }

  lemma {:induction false} NothingYet(path: Bytes, ns: seq<Node>, levels: nat)
    ensures PreorderOf(path, ns[..0], levels) == [] && PreorderOf(path, [], levels) == []
  {
  }

  lemma {:induction false} PreorderRest(path: Bytes, ns: seq<Node>, i: nat, levels: nat)
    requires i <= |ns|
    ensures PreorderOf(path, ns, levels) == PreorderOf(path, ns[..i], levels) + PreorderOf(path, ns[i..], levels)
  {
    if i == 0 {
      assert ns[..0] == [] && ns[0..] == ns;
    } else {
      assert ns[..i][1..] == ns[1..][..i - 1] && ns[1..][i - 1..] == ns[i..];
      PreorderRest(path, ns[1..], i - 1, levels);
    }
  }

  // What an ACK leaves of the paths of big values, and of the nodes of the last buffer.
  function KeptBigs(acks: seq<Ack>, bigs: seq<Bytes>): seq<Bytes> {
    if bigs == [] then []
    else
      var b := bigs[|bigs| - 1];
      KeptBigs(acks, bigs[..|bigs| - 1]) + if Pruned(acks, b, true) then [] else [b]
  }

  function KeptNodes(acks: seq<Ack>, ps: seq<Pending>): seq<Pending> {
    if ps == [] then []
    else
      var p := ps[|ps| - 1];
      KeptNodes(acks, ps[..|ps| - 1]) + if Pruned(acks, p.path, false) then [] else [p]
  }

  lemma {:induction false} NoBigDropped(bigs: seq<Bytes>)
    ensures KeptBigs([], bigs) == bigs
  {
    if bigs != [] {
      NoBigDropped(bigs[..|bigs| - 1]);
      assert bigs == bigs[..|bigs| - 1] + [bigs[|bigs| - 1]];
    }
  }

  lemma {:induction false} OneMore<T>(a: seq<T>, b: seq<T>, c: seq<T>, x: T)
    requires multiset(a) + multiset(b) == multiset(c)
    ensures multiset(a + [x]) + multiset(b) == multiset(c + [x]) && multiset(a) + multiset(b + [x]) == multiset(c + [x])
    ensures a + [] == a && b + [] == b
  {
  }

  // What it takes off.
  ghost function DroppedBigs(acks: seq<Ack>, bigs: seq<Bytes>): seq<Bytes> {
    if bigs == [] then []
    else
      var b := bigs[|bigs| - 1];
      DroppedBigs(acks, bigs[..|bigs| - 1]) + if Pruned(acks, b, true) then [b] else []
  }

  lemma {:induction false} KeptAndDropped(acks: seq<Ack>, bigs: seq<Bytes>)
    ensures multiset(KeptBigs(acks, bigs)) + multiset(DroppedBigs(acks, bigs)) == multiset(bigs)
    ensures forall b :: b in DroppedBigs(acks, bigs) ==> Pruned(acks, b, true)
    ensures forall b :: b in KeptBigs(acks, bigs) ==> !Pruned(acks, b, true)
  {
    hide Pruned;
    if bigs != [] {
      var rest, b := bigs[..|bigs| - 1], bigs[|bigs| - 1];
      KeptAndDropped(acks, rest);
      assert bigs == rest + [b];
      OneMore(KeptBigs(acks, rest), DroppedBigs(acks, rest), rest, b);
    }
  }

  class Sender {
    const root: Option<Node>
    const maxDepth: nat
    var pending: seq<Pending>
    var lastBatch: seq<Pending>
    var pendingBig: seq<Bytes>
    var lastBig: seq<Bytes>
    // the transfer buffer, and how many more nodes it takes
    var wire: seq<Spot>
    var room: nat
    var full: bool

    constructor (root: Option<Node>, maxDepth: nat)
      ensures this.root == root && this.maxDepth == maxDepth
      ensures pending == [] && lastBatch == [] && pendingBig == [] && lastBig == [] && wire == []
    {
      this.root, this.maxDepth := root, maxDepth;
      pending, lastBatch, pendingBig, lastBig, wire := [], [], [], [], [];
      room, full := 0, false;
    }

    // An empty buffer; how many nodes fit depends on their sizes.
    method Begin(fits: nat)
      modifies `wire, `room, `full
      ensures wire == [] && room == fits && !full
    {
      wire, room, full := [], fits, false;
    }

    method AddNode(s: Spot) returns (ok: bool)
      modifies `wire, `room, `full
      ensures ok == (old(room) > 0)
      ensures ok ==> wire == old(wire) + [s] && room == old(room) - 1 && full == old(full)
      ensures !ok ==> wire == old(wire) && room == old(room) && full
    {
      ok := room > 0;
      if ok {
        wire, room := wire + [s], room - 1;
      } else {
        full := true;
      }
    }

    ghost function Levels(depth: nat): nat {
      if depth < maxDepth then maxDepth - depth else 0
    }

    ghost function State(): Buffer
      reads this
    {
      Buffer(wire, room, full, lastBig)
    }

    // Writes a subtree in the order of the walk as far as depth and room allow, and notes its big leaves; the rest
    // of it goes to the last batch.
    method WriteSubtree(path: Bytes, n: Node, depth: nat) returns (ok: bool)
      requires WellFormed(n) && AllOpen(lastBatch) && (full ==> room == 0)
      modifies `wire, `room, `full, `lastBatch, `lastBig
      ensures ok == (old(room) > 0) && AllOpen(lastBatch) && (full ==> room == 0)
      ensures !ok ==> wire == old(wire) && lastBatch == old(lastBatch) && full
      ensures State() == Written(old(State()), Preorder(path, n, Levels(depth)))
      ensures ok ==> Out(wire, lastBatch) == Out(old(wire), old(lastBatch)) + All(path, n)
      decreases n, 1
    {
      hide LeftOver, AllOf, Left, Out, Written, PreorderOf, BigsAmong;
      assert lastBig + [] == lastBig;
      var s := Spot(path, n);
      ghost var before := State();
      WrittenOne(before, s);
      ok := AddNode(s);
      if !ok {
        WrittenNone(before, Preorder(path, n, Levels(depth)));
        return;
      }
      OutSend(old(wire), lastBatch, s);
      if n.Leaf? {
        if n.big {
          lastBig := lastBig + [path + n.tail];
        }
        assert Preorder(path, n, Levels(depth)) == [s];
        return;
      }
      WriteChildren(path + n.compressed, n, depth);
      WrittenJoin(before, [s], if depth < maxDepth then PreorderOf(path + n.compressed, n.children, Levels(depth) - 1) else []);
    }

    method WriteChildren(inside: Bytes, n: Node, depth: nat)
      requires WellFormed(n) && n.Trie? && AllOpen(lastBatch) && (full ==> room == 0)
      modifies `wire, `room, `full, `lastBatch, `lastBig
      ensures AllOpen(lastBatch) && (full ==> room == 0)
      ensures State() ==
        Written(old(State()), if depth < maxDepth then PreorderOf(inside, n.children, Levels(depth) - 1) else [])
      ensures Out(wire, lastBatch) == Out(old(wire), old(lastBatch)) + AllOf(inside, n.children)
      decreases n, 0
    {
      hide All, AllOf, LeftOver, Left, Out, Written, Preorder, PreorderOf;
      LeftWhole(inside, n);
      ghost var goal, start := Out(wire, lastBatch) + AllOf(inside, n.children), State();
      WrittenNone(start, []);
      var i := 0;
      if depth < maxDepth {
        ghost var levels := Levels(depth) - 1;
        ghost var tried := 0;
        NothingYet(inside, n.children, levels);
        while i < |n.children| && !full
          invariant i <= |n.children| && tried == i && AllOpen(lastBatch) && (full ==> room == 0)
          invariant State() == Written(start, PreorderOf(inside, n.children[..i], levels))
          invariant Out(wire, lastBatch) + Left(Pending(inside, n, i)) == goal
          decreases |n.children| - i
        {
          ghost var before := Out(wire, lastBatch);
          LeftStep(Pending(inside, n, i));
          var more := WriteSubtree(inside, n.children[i], depth + 1);
          WrittenJoin(start, PreorderOf(inside, n.children[..i], levels), Preorder(inside, n.children[i], levels));
          PreorderJoin(inside, n.children, i, levels);
          tried := i + 1;
          if !more {
            break;
          }
          Shift(before, Left(Pending(inside, n, i)), goal, All(inside, n.children[i]), Left(Pending(inside, n, i + 1)), Out(wire, lastBatch));
          i := i + 1;
        }
        assert full || n.children[tried..] == [];
        PreorderRest(inside, n.children, tried, levels);
        WrittenJoin(start, PreorderOf(inside, n.children[..tried], levels), PreorderOf(inside, n.children[tried..], levels));
        WrittenNone(State(), PreorderOf(inside, n.children[tried..], levels));
      }
      if i < |n.children| {
        OutNote(wire, lastBatch, Pending(inside, n, i));
        lastBatch := lastBatch + [Pending(inside, n, i)];
      } else {
        LeftNothing(Pending(inside, n, i));
      }
    }

    // What is left of the newest pending node once its next child has been taken.
    ghost function Advanced(ps: seq<Pending>): seq<Pending>
      requires ps != [] && AllOpen(ps)
    {
      var p := ps[|ps| - 1];
      ps[..|ps| - 1] + if p.next + 1 < |p.node.children| then [p.(next := p.next + 1)] else []
    }

    // The next buffer: the root first, later the next child of the newest pending node; as much as fits.
    method FillBuffer(fits: nat)
      requires fits > 0 && AllOpen(pending) && AllOpen(lastBatch)
      requires root.Some? ==> WellFormed(root.value)
      modifies this
      ensures AllOpen(pending) && AllOpen(lastBatch) && pendingBig == old(pendingBig)
      ensures old(pending) == [] && root.None? ==> pending == [] && wire == [] && lastBatch == old(lastBatch) && lastBig == old(lastBig)
      ensures old(pending) == [] && root.Some? ==>
                && pending == [] && wire == Fitting(Preorder([], root.value, maxDepth), fits)
                && Out(wire, lastBatch) == LeftOver(old(lastBatch)) + All([], root.value)
      ensures old(pending) != [] ==>
                && pending == Advanced(old(pending)) && wire == Fitting(NextChild(old(pending)), fits)
                && Out(wire, lastBatch) + LeftOver(pending) == LeftOver(old(lastBatch)) + LeftOver(old(pending))
      ensures lastBig == old(lastBig) + BigsAmong(wire)
      ensures old(pending) != [] || root.Some? ==> |wire| > 0
    {
      hide All, AllOf, LeftOver, Left, BigsAmong, Written, Preorder, Fitting, Advanced, Out;
      Begin(fits);
      OutEmpty(lastBatch);
      if pending == [] {
        NoBigs();
        if root.Some? {
          FromEmpty(fits, lastBig, Preorder([], root.value, maxDepth));
          Preordered([], root.value, maxDepth);
          var ok := WriteSubtree([], root.value, 0);
        }
      } else {
        FillFromPending();
      }
    }

    // Into an empty buffer.
    method FillFromPending()
      requires pending != [] && AllOpen(pending) && AllOpen(lastBatch) && wire == [] && room > 0 && !full
      modifies `wire, `room, `full, `lastBatch, `lastBig, `pending
      ensures AllOpen(pending) && AllOpen(lastBatch)
      ensures pending == Advanced(old(pending)) && wire == Fitting(NextChild(old(pending)), old(room)) && |wire| > 0
      ensures Out(wire, lastBatch) + LeftOver(pending) == LeftOver(old(lastBatch)) + LeftOver(old(pending))
      ensures lastBig == old(lastBig) + BigsAmong(wire)
    {
      hide All, AllOf, LeftOver, Left, BigsAmong, Written, Preorder, Fitting, Out;
      var p := pending[|pending| - 1];
      ghost var rest := pending[..|pending| - 1];
      var q := p.(next := p.next + 1);
      LeftStep(p);
      LastLeft(rest, p);
      LastLeft(rest, q);
      OutEmpty(lastBatch);
      FromEmpty(room, lastBig, NextChild(pending));
      Preordered(p.path, p.node.children[p.next], maxDepth);
      assert pending == rest + [p];
      assert WellFormed(p.node.children[p.next]);
      var ok := WriteSubtree(p.path, p.node.children[p.next], 0);
      if q.next >= |p.node.children| {
        LeftNothing(q);
        pending := pending[..|pending| - 1];
        assert pending == rest + [];
      } else {
        pending := pending[|pending| - 1 := q];
        assert pending == rest + [q];
      }
    }

    ghost function NextChild(ps: seq<Pending>): seq<Spot>
      requires ps != [] && AllOpen(ps)
    {
      var p := ps[|ps| - 1];
      Preorder(p.path, p.node.children[p.next], maxDepth)
    }

    // Drops what the receiver already has and queues the rest.
    method ProcessAck(acks: seq<Ack>) returns (ghost dropped: multiset<Spot>)
      requires AllOpen(pending) && AllOpen(lastBatch)
      modifies `pending, `lastBatch, `pendingBig, `lastBig
      ensures AllOpen(pending) && lastBatch == [] && lastBig == []
      ensures pending == old(pending) + KeptNodes(acks, old(lastBatch))
      ensures pendingBig == old(pendingBig) + KeptBigs(acks, old(lastBig))
      ensures forall p :: p in KeptNodes(acks, old(lastBatch)) ==> !Pruned(acks, p.path, false)
      ensures forall b :: b in KeptBigs(acks, old(lastBig)) ==> !Pruned(acks, b, true)
      ensures LeftOver(pending) + dropped == LeftOver(old(pending)) + LeftOver(old(lastBatch))
      ensures forall s :: s in dropped ==> Pruned(acks, s.path, false)
      ensures acks == [] ==> dropped == multiset{}
    {
      hide All, AllOf, LeftOver, Left, Pruned, KeptNodes, KeptBigs;
      LeftOverNone();
      var kept;
      kept, dropped := KeepUnpruned(acks);
      LeftOverConcat(pending, kept);
      pending := pending + kept;
      lastBatch := [];
      KeptAndDropped(acks, lastBig);
      var keptBig := KeepBig(acks);
      pendingBig := pendingBig + keptBig;
      lastBig := [];
    }

    // Big values whose leaf the receiver has are not sent.
    method KeepBig(acks: seq<Ack>) returns (kept: seq<Bytes>)
      ensures kept == KeptBigs(acks, lastBig)
    {
      hide Pruned;
      kept := [];
      for i := 0 to |lastBig|
        invariant kept == KeptBigs(acks, lastBig[..i])
      {
        assert lastBig[..i + 1][..i] == lastBig[..i];
        if !Pruned(acks, lastBig[i], true) {
          kept := kept + [lastBig[i]];
        }
      }
      assert lastBig[..|lastBig|] == lastBig;
    }

    method KeepUnpruned(acks: seq<Ack>) returns (kept: seq<Pending>, ghost dropped: multiset<Spot>)
      requires AllOpen(lastBatch)
      ensures AllOpen(kept) && kept == KeptNodes(acks, lastBatch) && (forall p :: p in kept ==> !Pruned(acks, p.path, false)) && LeftOver(kept) + dropped == LeftOver(lastBatch)
      ensures forall s :: s in dropped ==> Pruned(acks, s.path, false)
      ensures acks == [] ==> dropped == multiset{}
    {
      hide All, AllOf, LeftOver, Left, Pruned;
      LeftOverNone();
      dropped, kept := multiset{}, [];
      for i := 0 to |lastBatch|
        invariant AllOpen(kept) && kept == KeptNodes(acks, lastBatch[..i]) && LeftOver(kept) + dropped == LeftOver(lastBatch[..i])
        invariant forall s :: s in dropped ==> Pruned(acks, s.path, false)
        invariant forall p :: p in kept ==> !Pruned(acks, p.path, false)
        invariant acks == [] ==> dropped == multiset{}
      {
        var p := lastBatch[i];
        assert lastBatch[..i + 1] == lastBatch[..i] + [p] && lastBatch[..i + 1][..i] == lastBatch[..i];
        LastLeft(lastBatch[..i], p);
        NothingPruned(acks, p.path, false);
        if Pruned(acks, p.path, false) {
          LeftPruned(acks, p);
          dropped := dropped + Left(p);
        } else {
          LastLeft(kept, p);
          kept := kept + [p];
        }
      }
      assert lastBatch[..|lastBatch|] == lastBatch;
    }
  }

  lemma {:induction false} NothingPruned(acks: seq<Ack>, path: Bytes, leafExact: bool)
    ensures acks == [] ==> !Pruned(acks, path, leafExact)
  {
  }

  lemma {:induction false} LeftPruned(acks: seq<Ack>, p: Pending)
    requires Open(p) && Pruned(acks, p.path, false)
    ensures forall s :: s in Left(p) ==> Pruned(acks, s.path, false)
  {
    forall s | s in Left(p)
      ensures Pruned(acks, s.path, false)
    {
      AllOfUnder(p.path, p.node.children[p.next..], s);
      PrunedBelow(acks, p.path, s.path);
    }
  }

  lemma {:induction false} LastLeft(ps: seq<Pending>, p: Pending)
    ensures LeftOver(ps + [p]) == LeftOver(ps) + Left(p)
  {
    LeftOverConcat(ps, [p]);
    LeftOverOne(p);
  }

  lemma {:induction false} LeftWhole(path: Bytes, n: Node)
    requires n.Trie?
    ensures Left(Pending(path, n, 0)) == AllOf(path, n.children)
  {
    assert n.children[0..] == n.children;
  }

  lemma {:induction false} PrunedBelow(acks: seq<Ack>, path: Bytes, below: Bytes)
    requires Pruned(acks, path, false) && path <= below
    ensures Pruned(acks, below, false)
  {
    var i :| 0 <= i < |acks| && PrunedBy(acks[i], path, false);
    assert PrunedBy(acks[i], below, false);
  }

  // ----- whole transfers

  // What the receiver reports after one buffer, and how much fits into the next one.
  datatype Round = Round(fits: nat, acks: seq<Ack>)

  // One buffer and its ACK move nodes from pending to sent or dropped, and the big leaves among them to what is sent later.
  method OneRound(sender: Sender, fits: nat, acks: seq<Ack>, first: bool) returns (ghost dropped: multiset<Spot>)
    requires fits > 0 && AllOpen(sender.pending) && sender.lastBatch == [] && sender.lastBig == []
    requires sender.root.Some? && WellFormed(sender.root.value) && (first <==> sender.pending == [])
    modifies sender
    ensures AllOpen(sender.pending) && sender.lastBatch == [] && sender.lastBig == [] && |sender.wire| > 0
    ensures multiset(sender.wire) + dropped + LeftOver(sender.pending) ==
      (if first then All([], sender.root.value) else LeftOver(old(sender.pending)))
    ensures sender.pendingBig == old(sender.pendingBig) + KeptBigs(acks, BigsAmong(sender.wire))
    ensures forall s :: s in dropped ==> Pruned(acks, s.path, false)
    ensures acks == [] ==> dropped == multiset{}
  {
    hide All, AllOf, LeftOver, Left, BigsAmong, KeptBigs, KeptNodes, Fitting;
    LeftOverNone();
    sender.FillBuffer(fits);
    ghost var wire, batch, mid := multiset(sender.wire), LeftOver(sender.lastBatch), LeftOver(sender.pending);
    assert sender.lastBig == BigsAmong(sender.wire);
    dropped := sender.ProcessAck(acks);
    Moves(wire, batch, mid, dropped, LeftOver(sender.pending));
  }

  lemma {:induction false} Moves<T>(wire: multiset<T>, batch: multiset<T>, mid: multiset<T>, dropped: multiset<T>, end: multiset<T>)
    requires end + dropped == mid + batch
    ensures wire + dropped + end == wire + batch + mid
  {
    assert wire + dropped + end == wire + (end + dropped);
    assert wire + batch + mid == wire + (mid + batch);
  }

  // One buffer after the other with ACKs that name no path: every node is sent exactly once, however many
  // nodes each buffer takes, and every big value is left to be sent, exactly once.
  method SendAll(root: Node, maxDepth: nat, fits: nat -> nat) returns (sent: seq<Spot>, bigs: seq<Bytes>)
    requires WellFormed(root) && forall n :: fits(n) > 0
    ensures multiset(sent) == All([], root) && multiset(bigs) == multiset(BigPaths([], root))
  {
    hide All, AllOf, LeftOver, Left, BigsAmong, KeptBigs;
    LeftOverNone();
    var sender := new Sender(Some(root), maxDepth);
    ghost var dropped := OneRound(sender, fits(0), [], true);
    NoBigDropped(BigsAmong(sender.wire));
    sent := sender.wire;
    var n := 1;
    while sender.pending != []
      invariant AllOpen(sender.pending) && sender.lastBatch == [] && sender.lastBig == []
      invariant sender.root == Some(root) && fresh(sender)
      invariant multiset(sent) + LeftOver(sender.pending) == All([], root)
      invariant sender.pendingBig == BigsAmong(sent)
      decreases |LeftOver(sender.pending)|
    {
      ghost var before := LeftOver(sender.pending);
      dropped := OneRound(sender, fits(n), [], false);
      n := n + 1;
      assert before == multiset(sender.wire) + LeftOver(sender.pending);
      assert |before| == |sender.wire| + |LeftOver(sender.pending)|;
      NoBigDropped(BigsAmong(sender.wire));
      BigsAmongJoin(sent, sender.wire);
      sent := sent + sender.wire;
    }
    bigs := sender.pendingBig;
    AllBigs(sent, [], root);
  }

  // What was acknowledged in some round.
  ghost predicate Acknowledged(rounds: seq<Round>, path: Bytes, leafExact: bool) {
    exists i :: 0 <= i < |rounds| && Pruned(rounds[i].acks, path, leafExact)
  }

  ghost predicate AllAcknowledged(rounds: seq<Round>, bigs: seq<Bytes>) {
    forall b :: b in bigs ==> Acknowledged(rounds, b, true)
  }

  // The big values of each buffer that its own ACK does not name.
  ghost function BigsLeft(wires: seq<seq<Spot>>, rounds: seq<Round>): seq<Bytes>
    requires |wires| <= |rounds|
  {
    if wires == [] then []
    else
      var n := |wires| - 1;
      BigsLeft(wires[..n], rounds) + KeptBigs(rounds[n].acks, BigsAmong(wires[n]))
  }

  // With ACKs after every buffer, what is not sent lies under an acknowledged path; the big values left to be sent
  // are those of the sent leaves that the ACK of their buffer does not name, and all others are acknowledged.
  method SendWithAcks(root: Node, maxDepth: nat, rounds: seq<Round>)
    returns (sent: seq<Spot>, bigs: seq<Bytes>, done: bool, ghost dropped: multiset<Spot>, ghost wires: seq<seq<Spot>>, ghost gone: seq<Bytes>)
    requires WellFormed(root) && rounds != [] && forall i :: 0 <= i < |rounds| ==> rounds[i].fits > 0
    ensures done ==> multiset(sent) + dropped == All([], root)
    ensures |rounds| >= |All([], root)| ==> done
    ensures multiset(sent) <= All([], root)
    ensures forall s :: s in dropped ==> Acknowledged(rounds, s.path, false)
    ensures |wires| <= |rounds| && sent == Flat(wires) && bigs == BigsLeft(wires, rounds)
    ensures AllAcknowledged(rounds, gone) && (done ==> multiset(bigs) + multiset(gone) == multiset(BigPaths([], root)))
  {
    hide All, AllOf, LeftOver, Left, Pruned, BigsAmong, KeptBigs, DroppedBigs, BigPaths, BigsLeft, Flat;
    LeftOverNone();
    NoBigs();
    var sender := new Sender(Some(root), maxDepth);
    dropped := OneRound(sender, rounds[0].fits, rounds[0].acks, true);
    sent, wires, gone := sender.wire, [sender.wire], DroppedBigs(rounds[0].acks, BigsAmong(sender.wire));
    FirstWire(sender.wire, rounds);
    var n := 1;
    while n < |rounds| && sender.pending != []
      invariant 1 <= n <= |rounds| && |wires| == n && sent == Flat(wires)
      invariant AllOpen(sender.pending) && sender.lastBatch == [] && sender.lastBig == []
      invariant sender.root == Some(root) && fresh(sender)
      invariant multiset(sent) + dropped + LeftOver(sender.pending) == All([], root) && |sent| >= n
      invariant forall s :: s in dropped ==> Acknowledged(rounds, s.path, false)
      invariant sender.pendingBig == BigsLeft(wires, rounds) && AllAcknowledged(rounds, gone)
      invariant multiset(sender.pendingBig) + multiset(gone) == multiset(BigsAmong(sent))
    {
      ghost var bigs0, sent0 := sender.pendingBig, sent;
      ghost var more := OneRound(sender, rounds[n].fits, rounds[n].acks, false);
      NextWire(wires, sender.wire, rounds, bigs0, gone, sent);
      dropped := dropped + more;
      gone := gone + DroppedBigs(rounds[n].acks, BigsAmong(sender.wire));
      sent, wires := sent + sender.wire, wires + [sender.wire];
      n := n + 1;
    }
    bigs, done := sender.pendingBig, sender.pending == [];
    if !done { LeftToSend(sender.pending); }
    Fewer(multiset(sent), dropped, LeftOver(sender.pending), All([], root));
    if done {
      var below := BigsDropped(sent, dropped, root, rounds);
      AcknowledgedBoth(rounds, gone, below);
      gone := gone + below;
    }
  }

  ghost function Flat(wires: seq<seq<Spot>>): seq<Spot> {
    if wires == [] then [] else Flat(wires[..|wires| - 1]) + wires[|wires| - 1]
  }

  lemma {:induction false} AcknowledgedBoth(rounds: seq<Round>, a: seq<Bytes>, b: seq<Bytes>)
    requires AllAcknowledged(rounds, a) && AllAcknowledged(rounds, b)
    ensures AllAcknowledged(rounds, a + b)
  {
  }

  lemma {:induction false} FirstWire(wire: seq<Spot>, rounds: seq<Round>)
    requires rounds != []
    ensures Flat([wire]) == wire && BigsLeft([wire], rounds) == KeptBigs(rounds[0].acks, BigsAmong(wire))
    ensures AllAcknowledged(rounds, DroppedBigs(rounds[0].acks, BigsAmong(wire)))
    ensures multiset(KeptBigs(rounds[0].acks, BigsAmong(wire))) + multiset(DroppedBigs(rounds[0].acks, BigsAmong(wire)))
         == multiset(BigsAmong(wire))
  {
    hide BigsAmong, KeptBigs, DroppedBigs, Pruned;
    assert [wire][..0] == [];
    KeptAndDropped(rounds[0].acks, BigsAmong(wire));
  }

  lemma {:induction false} NextWire(wires: seq<seq<Spot>>, wire: seq<Spot>, rounds: seq<Round>, bigs: seq<Bytes>, gone: seq<Bytes>, sent: seq<Spot>)
    requires |wires| < |rounds| && sent == Flat(wires) && bigs == BigsLeft(wires, rounds) && AllAcknowledged(rounds, gone)
    requires multiset(bigs) + multiset(gone) == multiset(BigsAmong(sent))
    ensures var n := |wires|; var kept := KeptBigs(rounds[n].acks, BigsAmong(wire)); var lost := DroppedBigs(rounds[n].acks, BigsAmong(wire));
      && Flat(wires + [wire]) == sent + wire && BigsLeft(wires + [wire], rounds) == bigs + kept
      && AllAcknowledged(rounds, gone + lost)
      && multiset(bigs + kept) + multiset(gone + lost) == multiset(BigsAmong(sent + wire))
  {
    hide BigsAmong, KeptBigs, DroppedBigs, Pruned;
    var n := |wires|;
    assert (wires + [wire])[..n] == wires;
    KeptAndDropped(rounds[n].acks, BigsAmong(wire));
    BigsAmongJoin(sent, wire);
    AcknowledgedBoth(rounds, gone, DroppedBigs(rounds[n].acks, BigsAmong(wire)));
  }

  // The big leaves among the dropped nodes are acknowledged too.
  lemma {:induction false} BigsDropped(sent: seq<Spot>, dropped: multiset<Spot>, root: Node, rounds: seq<Round>) returns (below: seq<Bytes>)
    requires multiset(sent) + dropped == All([], root)
    requires forall s :: s in dropped ==> Acknowledged(rounds, s.path, false)
    ensures AllAcknowledged(rounds, below)
    ensures multiset(BigsAmong(sent)) + multiset(below) == multiset(BigPaths([], root))
  {
    hide All, BigsAmong, BigPaths, Acknowledged;
    var spots := Enumerated(dropped);
    below := BigsAmong(spots);
    AllBigs(sent + spots, [], root);
    BigsAmongJoin(sent, spots);
    BigsAcknowledged(spots, rounds);
  }

  lemma {:induction false} Enumerated<T>(m: multiset<T>) returns (s: seq<T>)
    ensures multiset(s) == m
    decreases |m|
  {
    if |m| == 0 {
      s := [];
    } else {
      var x :| x in m;
      var t := Enumerated(m - multiset{x});
      s := t + [x];
    }
  }

  lemma {:induction false} BigsAcknowledged(spots: seq<Spot>, rounds: seq<Round>)
    requires forall s :: s in spots ==> Acknowledged(rounds, s.path, false)
    ensures AllAcknowledged(rounds, BigsAmong(spots))
  {
    if spots != [] {
      var s := spots[|spots| - 1];
      BigsAcknowledged(spots[..|spots| - 1], rounds);
      assert s in spots;
      if s.node.Leaf? {
        var i :| 0 <= i < |rounds| && Pruned(rounds[i].acks, s.path, false);
        PrunedBelow(rounds[i].acks, s.path, s.path + s.node.tail);
        PrunedExact(rounds[i].acks, s.path + s.node.tail);
      }
    }
  }

  lemma {:induction false} PrunedExact(acks: seq<Ack>, path: Bytes)
    requires Pruned(acks, path, false)
    ensures Pruned(acks, path, true)
  {
    var i :| 0 <= i < |acks| && PrunedBy(acks[i], path, false);
    assert PrunedBy(acks[i], path, true);
  }

  lemma {:induction false} Fewer<T>(a: multiset<T>, b: multiset<T>, c: multiset<T>, all: multiset<T>)
    requires a + b + c == all
    ensures |a| + |b| + |c| == |all|
  {
  }

  // As long as something is pending, there is something to send.
  lemma {:induction false} LeftToSend(ps: seq<Pending>)
    requires AllOpen(ps) && ps != []
    ensures |LeftOver(ps)| > 0
  {
    var p := ps[|ps| - 1];
    LeftStep(p);
    assert Spot(p.path, p.node.children[p.next]) in All(p.path, p.node.children[p.next]);
    assert Spot(p.path, p.node.children[p.next]) in LeftOver(ps);
  }
}
