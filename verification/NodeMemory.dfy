// The packed trie node: bitmaps and links in one block of memory, moved in place.

module NodeMemory {
  import opened Common
  import opened Bits
  import opened NodeView
  import opened NodeEdit

  // Memory in 4-byte cells: a lower bitmap is one cell, a link is two, on an even address.
  datatype Cell = Raw | Bitmap(bits: Bits) | Low(link: Link) | High(link: Link)

  function BitsOf(c: Cell): Bits {
    if c.Bitmap? then c.bits else []
  }

  // Rounded up to the 8-byte boundary.
  function Align(n: nat): (r: nat)
    ensures n <= r <= n + 1 && r % 2 == 0
  {
    n + n % 2
  }

  // memmove of n cells.
  function Moved(m: seq<Cell>, dst: nat, src: nat, n: nat): (r: seq<Cell>)
    requires dst + n <= |m| && src + n <= |m|
    ensures |r| == |m|
    ensures forall i :: dst <= i < dst + n ==> r[i] == m[src + i - dst]
    ensures forall i :: 0 <= i < dst || dst + n <= i < |m| ==> r[i] == m[i]
  {
    m[..dst] + m[src..src + n] + m[dst + n..]
  }

  method MemMove(mem: array<Cell>, dst: nat, src: nat, n: nat)
    requires dst + n <= mem.Length && src + n <= mem.Length
    modifies mem
    ensures mem[..] == Moved(old(mem[..]), dst, src, n)
  {
    forall i | 0 <= i < n {
      mem[dst + i] := mem[src + i];
    }
  }

  // The two cells of a link.
  function LinkCells(m: seq<Cell>, start: nat, j: nat): (Cell, Cell)
    requires start + 2 * j + 1 < |m|
  {
    (m[start + 2 * j], m[start + 2 * j + 1])
  }

  function BitCell(m: seq<Cell>, start: nat, i: nat): Cell
    requires start + i < |m|
  {
    m[start + i]
  }

  // The memory packs these bitmaps and links; the link at slot hole may hold anything.
  ghost predicate Packs(m: seq<Cell>, bs: nat, as_: nat, ls: seq<Bits>, ns: seq<Link>, hole: int) {
    bs + |ls| <= as_ && as_ + 2 * |ns| <= |m| && PacksBits(m, bs, ls) && PacksLinks(m, as_, ns, hole)
  }

  ghost predicate PacksBits(m: seq<Cell>, bs: nat, ls: seq<Bits>)
    requires bs + |ls| <= |m|
  {
    forall i :: 0 <= i < |ls| ==> BitCell(m, bs, i) == Bitmap(ls[i])
  }

  ghost predicate PacksLinks(m: seq<Cell>, as_: nat, ns: seq<Link>, hole: int)
    requires as_ + 2 * |ns| <= |m|
  {
    forall j :: 0 <= j < |ns| && j != hole ==> LinkCells(m, as_, j) == (Low(ns[j]), High(ns[j]))
  }

  // Cells outside lo .. hi - 1 are the same.
  ghost predicate SameOutside(a: seq<Cell>, b: seq<Cell>, lo: nat, hi: nat) {
    |a| == |b| && forall i :: 0 <= i < |a| && (i < lo || hi <= i) ==> a[i] == b[i]
  }

  // Links that moved up by one slot from the new slot on.
  lemma {:induction false} LinksOpened(m: seq<Cell>, r: seq<Cell>, from_: nat, to: nat, ns: seq<Link>, slot: nat, x: Link)
    requires from_ + 2 * |ns| <= |m| && to + 2 * |ns| + 2 <= |r| && slot <= |ns| && PacksLinks(m, from_, ns, -1)
    requires forall j :: 0 <= j < slot ==> LinkCells(r, to, j) == LinkCells(m, from_, j)
    requires forall j :: slot <= j < |ns| ==> LinkCells(r, to, j + 1) == LinkCells(m, from_, j)
    ensures PacksLinks(r, to, OpenAt(ns, slot, x), slot)
  {
    var o := OpenAt(ns, slot, x);
    forall j | 0 <= j < |o| && j != slot
      ensures LinkCells(r, to, j) == (Low(o[j]), High(o[j]))
    {
      var k := if j < slot then j else j - 1;
      assert o[j] == ns[k];
    }
  }

  lemma {:induction false} BitsOpened(m: seq<Cell>, r: seq<Cell>, bs: nat, ls: seq<Bits>, i: nat, l: Bits)
    requires |m| == |r| && bs + |ls| < |m| && i <= |ls| && PacksBits(m, bs, ls)
    requires forall j :: 0 <= j < i ==> BitCell(r, bs, j) == BitCell(m, bs, j)
    requires BitCell(r, bs, i) == Bitmap(l)
    requires forall j :: i < j <= |ls| ==> BitCell(r, bs, j) == BitCell(m, bs, j - 1)
    ensures PacksBits(r, bs, OpenAt(ls, i, l))
  {
    var o := OpenAt(ls, i, l);
    forall j | 0 <= j < |o|
      ensures BitCell(r, bs, j) == Bitmap(o[j])
    {
      var k := if j < i then j else j - 1;
      assert j != i ==> o[j] == ls[k];
    }
  }

  // The links make room in place.
  lemma {:induction false} OpenedInPlace(m: seq<Cell>, as_: nat, ns: seq<Link>, slot: nat, x: Link)
    requires as_ + 2 * |ns| + 2 <= |m| && slot <= |ns| && PacksLinks(m, as_, ns, -1)
    ensures var r := Moved(m, as_ + 2 * slot + 2, as_ + 2 * slot, 2 * (|ns| - slot));
      PacksLinks(r, as_, OpenAt(ns, slot, x), slot) && SameOutside(m, r, as_, as_ + 2 * |ns| + 2)
  {
    var r := Moved(m, as_ + 2 * slot + 2, as_ + 2 * slot, 2 * (|ns| - slot));
    hide Moved;
    LinksOpened(m, r, as_, as_, ns, slot, x);
  }

  lemma {:induction false} BitsKept(m: seq<Cell>, r: seq<Cell>, bs: nat, ls: seq<Bits>, as_: nat, hi: nat)
    requires bs + |ls| <= as_ && as_ <= |m| && PacksBits(m, bs, ls) && SameOutside(m, r, as_, hi)
    ensures PacksBits(r, bs, ls)
  {
    forall i | 0 <= i < |ls|
      ensures BitCell(r, bs, i) == BitCell(m, bs, i)
    {
    }
  }

  lemma {:induction false} LinksKept(m: seq<Cell>, r: seq<Cell>, as_: nat, ns: seq<Link>, lo: nat, hi: nat)
    requires hi <= as_ && as_ + 2 * |ns| <= |m| && PacksLinks(m, as_, ns, -1) && SameOutside(m, r, lo, hi)
    ensures PacksLinks(r, as_, ns, -1)
  {
    forall j | 0 <= j < |ns|
      ensures LinkCells(r, as_, j) == LinkCells(m, as_, j)
    {
    }
  }

  // A bitmap is inserted before the ones from i on.
  lemma {:induction false} GroupOpened(m: seq<Cell>, bs: nat, ls: seq<Bits>, i: nat, l: Bits)
    requires i <= |ls| && bs + |ls| < |m| && PacksBits(m, bs, ls)
    ensures var r := Moved(m, bs + i + 1, bs + i, |ls| - i)[bs + i := Bitmap(l)];
      PacksBits(r, bs, OpenAt(ls, i, l)) && SameOutside(m, r, bs, bs + |ls| + 1)
  {
    var r := Moved(m, bs + i + 1, bs + i, |ls| - i)[bs + i := Bitmap(l)];
    hide Moved;
    BitsOpened(m, r, bs, ls, i, l);
  }

  lemma {:induction false} SameTwice(a: seq<Cell>, b: seq<Cell>, c: seq<Cell>, lo: nat, mid: nat, lo2: nat, hi: nat)
    requires SameOutside(a, b, lo, mid) && SameOutside(b, c, lo2, hi) && lo <= lo2 && mid <= hi
    ensures SameOutside(a, c, lo, hi)
  {
  }

  // Setting one more bit of a bitmap and moving the links behind the slot up by one.
  lemma {:induction false} PackBit(m: seq<Cell>, bs: nat, as_: nat, ls: seq<Bits>, ns: seq<Link>, i: nat, l: Bits, slot: nat, x: Link)
    requires Packs(m, bs, as_, ls, ns, -1) && i < |ls| && slot <= |ns| && as_ + 2 * |ns| + 2 <= |m|
    ensures var r := Moved(m[bs + i := Bitmap(l)], as_ + 2 * slot + 2, as_ + 2 * slot, 2 * (|ns| - slot));
      Packs(r, bs, as_, ls[i := l], OpenAt(ns, slot, x), slot) && SameOutside(m, r, bs, as_ + 2 * |ns| + 2)
  {
    var m1 := m[bs + i := Bitmap(l)];
    assert SameOutside(m, m1, bs, bs + |ls|);
    assert PacksBits(m1, bs, ls[i := l]);
    hide Moved, PacksBits, PacksLinks, SameOutside;
    LinksKept(m, m1, as_, ns, bs, bs + |ls|);
    OpenedInPlace(m1, as_, ns, slot, x);
    var r := Moved(m1, as_ + 2 * slot + 2, as_ + 2 * slot, 2 * (|ns| - slot));
    BitsKept(m1, r, bs, ls[i := l], as_, as_ + 2 * |ns| + 2);
    SameTwice(m, m1, r, bs, bs + |ls|, as_, as_ + 2 * |ns| + 2);
  }

  // Only the links move up; used for NONE, which has no bitmap.
  lemma {:induction false} PackNone(m: seq<Cell>, bs: nat, as_: nat, ls: seq<Bits>, ns: seq<Link>, x: Link)
    requires Packs(m, bs, as_, ls, ns, -1) && as_ + 2 * |ns| + 2 <= |m|
    ensures var r := Moved(m, as_ + 2, as_, 2 * |ns|);
      Packs(r, bs, as_, ls, [x] + ns, 0) && SameOutside(m, r, bs, as_ + 2 * |ns| + 2)
  {
    var r := Moved(m, as_ + 2, as_, 2 * |ns|);
    OpenedInPlace(m, as_, ns, 0, x);
    assert OpenAt(ns, 0, x) == [x] + ns;
    hide Moved, PacksBits, PacksLinks;
    BitsKept(m, r, bs, ls, as_, as_ + 2 * |ns| + 2);
  }

  // The bitmaps grow into the padding: first the bitmaps, then the links.
  lemma {:induction false} PackGroupInGap(m: seq<Cell>, bs: nat, as_: nat, ls: seq<Bits>, ns: seq<Link>, i: nat, l: Bits, slot: nat, x: Link)
    requires Packs(m, bs, as_, ls, ns, -1) && i <= |ls| && slot <= |ns| && as_ + 2 * |ns| + 2 <= |m| && bs + |ls| < as_
    ensures var m1 := Moved(m, bs + i + 1, bs + i, |ls| - i)[bs + i := Bitmap(l)];
      var r := Moved(m1, as_ + 2 * slot + 2, as_ + 2 * slot, 2 * (|ns| - slot));
      Packs(r, bs, as_, OpenAt(ls, i, l), OpenAt(ns, slot, x), slot) && SameOutside(m, r, bs, as_ + 2 * |ns| + 2)
  {
    hide Moved, PacksBits, PacksLinks, SameOutside;
    var m1 := Moved(m, bs + i + 1, bs + i, |ls| - i)[bs + i := Bitmap(l)];
    var r := Moved(m1, as_ + 2 * slot + 2, as_ + 2 * slot, 2 * (|ns| - slot));
    GroupOpened(m, bs, ls, i, l);
    LinksKept(m, m1, as_, ns, bs, bs + |ls| + 1);
    OpenedInPlace(m1, as_, ns, slot, x);
    BitsKept(m1, r, bs, OpenAt(ls, i, l), as_, as_ + 2 * |ns| + 2);
    SameTwice(m, m1, r, bs, bs + |ls| + 1, as_, as_ + 2 * |ns| + 2);
  }

  // No padding left: the links move first, out of the way of the bitmaps.
  lemma {:induction false} PackGroupShift(m: seq<Cell>, bs: nat, as_: nat, ls: seq<Bits>, ns: seq<Link>, i: nat, l: Bits, slot: nat, x: Link)
    requires Packs(m, bs, as_, ls, ns, -1) && i <= |ls| && slot <= |ns| && as_ + 2 * |ns| + 4 <= |m| && bs + |ls| == as_
    ensures var m2 := Moved(Moved(m, as_ + 2 + 2 * slot + 2, as_ + 2 * slot, 2 * (|ns| - slot)), as_ + 2, as_, 2 * slot);
      var r := Moved(m2, bs + i + 1, bs + i, |ls| - i)[bs + i := Bitmap(l)];
      Packs(r, bs, as_ + 2, OpenAt(ls, i, l), OpenAt(ns, slot, x), slot) && SameOutside(m, r, bs, as_ + 2 * |ns| + 4)
  {
    hide Moved, PacksBits, PacksLinks, SameOutside;
    var m2 := Moved(Moved(m, as_ + 2 + 2 * slot + 2, as_ + 2 * slot, 2 * (|ns| - slot)), as_ + 2, as_, 2 * slot);
    var r := Moved(m2, bs + i + 1, bs + i, |ls| - i)[bs + i := Bitmap(l)];
    ShiftedLinks(m, as_, ns, slot, x);
    BitsKept(m, m2, bs, ls, as_, as_ + 2 * |ns| + 4);
    GroupOpened(m2, bs, ls, i, l);
    LinksKeptBut(m2, r, as_ + 2, OpenAt(ns, slot, x), slot, bs, bs + |ls| + 1);
    SameTwice2(m, m2, r, bs, as_, as_ + 2 * |ns| + 4, bs + |ls| + 1);
  }

  lemma {:induction false} ShiftedLinks(m: seq<Cell>, as_: nat, ns: seq<Link>, slot: nat, x: Link)
    requires as_ + 2 * |ns| + 4 <= |m| && slot <= |ns| && PacksLinks(m, as_, ns, -1)
    ensures var m2 := Moved(Moved(m, as_ + 2 + 2 * slot + 2, as_ + 2 * slot, 2 * (|ns| - slot)), as_ + 2, as_, 2 * slot);
      PacksLinks(m2, as_ + 2, OpenAt(ns, slot, x), slot) && SameOutside(m, m2, as_, as_ + 2 * |ns| + 4)
  {
    hide Moved, PacksLinks;
    var m1 := Moved(m, as_ + 2 + 2 * slot + 2, as_ + 2 * slot, 2 * (|ns| - slot));
    var m2 := Moved(m1, as_ + 2, as_, 2 * slot);
    forall j | 0 <= j < slot
      ensures LinkCells(m2, as_ + 2, j) == LinkCells(m, as_, j)
    {
      assert m2[as_ + 2 + 2 * j] == m1[as_ + 2 * j] && m2[as_ + 2 + 2 * j + 1] == m1[as_ + 2 * j + 1];
    }
    forall j: nat | slot <= j < |ns|
      ensures LinkCells(m2, as_ + 2, j + 1) == LinkCells(m, as_, j)
    {
      assert m2[as_ + 4 + 2 * j] == m1[as_ + 4 + 2 * j] && m2[as_ + 4 + 2 * j + 1] == m1[as_ + 4 + 2 * j + 1];
      assert LinkCells(m, as_, j) == (m1[as_ + 4 + 2 * j], m1[as_ + 4 + 2 * j + 1]);
    }
    forall i | 0 <= i < |m| && (i < as_ || as_ + 2 * |ns| + 4 <= i)
      ensures m2[i] == m[i]
    {
      assert m2[i] == m1[i];
    }
    LinksOpened(m, m2, as_, as_ + 2, ns, slot, x);
  }

  lemma {:induction false} LinksKeptBut(m: seq<Cell>, r: seq<Cell>, as_: nat, ns: seq<Link>, hole: int, lo: nat, hi: nat)
    requires hi <= as_ && as_ + 2 * |ns| <= |m| && PacksLinks(m, as_, ns, hole) && SameOutside(m, r, lo, hi)
    ensures PacksLinks(r, as_, ns, hole)
  {
    forall j | 0 <= j < |ns|
      ensures LinkCells(r, as_, j) == LinkCells(m, as_, j)
    {
    }
  }

  lemma {:induction false} SameTwice2(a: seq<Cell>, b: seq<Cell>, c: seq<Cell>, lo: nat, mid: nat, hi: nat, hi2: nat)
    requires SameOutside(a, b, mid, hi) && SameOutside(b, c, lo, hi2) && lo <= mid && hi2 <= hi
    ensures SameOutside(a, c, lo, hi)
  {
  }

  // The memory after a bit was set in bitmap i, after a bitmap was added in the padding, and after
  // one was added where no padding was left.
  function BitMemory(m: seq<Cell>, bs: nat, as_: nat, count: nat, i: nat, l: Bits, slot: nat): seq<Cell>
    requires slot <= count && as_ + 2 * count + 2 <= |m| && bs + i < |m|
  {
    Moved(m[bs + i := Bitmap(l)], as_ + 2 * slot + 2, as_ + 2 * slot, 2 * (count - slot))
  }

  function GapMemory(m: seq<Cell>, bs: nat, as_: nat, n: nat, count: nat, i: nat, l: Bits, slot: nat): seq<Cell>
    requires slot <= count && as_ + 2 * count + 2 <= |m| && i <= n && bs + n < |m|
  {
    Moved(GroupMade(m, bs + i, n - i, l), as_ + 2 * slot + 2, as_ + 2 * slot, 2 * (count - slot))
  }

  function GroupMade(m: seq<Cell>, at: nat, n: nat, l: Bits): (r: seq<Cell>)
    requires at + n + 1 <= |m|
    ensures |r| == |m|
  {
    Moved(m, at + 1, at, n)[at := Bitmap(l)]
  }

  // Links from the slot on moved by two, those before it by one.
  function LinksShifted(m: seq<Cell>, start: nat, count: nat, slot: nat): (r: seq<Cell>)
    requires slot <= count && start + 2 * count + 4 <= |m|
    ensures |r| == |m|
  {
    Moved(Moved(m, start + 2 + 2 * slot + 2, start + 2 * slot, 2 * (count - slot)), start + 2, start, 2 * slot)
  }

  function ShiftMemory(m: seq<Cell>, bs: nat, as_: nat, n: nat, count: nat, i: nat, l: Bits, slot: nat): seq<Cell>
    requires slot <= count && as_ + 2 * count + 4 <= |m| && i <= n && bs + n < |m|
  {
    GroupMade(LinksShifted(m, as_, count, slot), bs + i, n - i, l)
  }

  // The header and the memory together hold the node v; slot hole, if any, is still to be filled.
  datatype Header = Header(compressed: Bytes, none: bool, count: nat, upper: Bits, lowerStart: nat, arrayStart: nat)

  ghost predicate HoldsIn(m: seq<Cell>, h: Header, v: View, hole: int) {
    && Valid(v) && h.compressed == v.compressed && h.none == v.none && h.upper == v.upper && h.count == |v.links|
    && h.arrayStart == Align(h.lowerStart + |v.lowers|)
    && Packs(m, h.lowerStart, h.arrayStart, v.lowers, v.links, hole)
  }

  // Cells the node needs with the key added.
  function IncrementSize(h: Header, key: int): nat
    requires NONE <= key < 256 && |h.upper| == 8
  {
    Align(h.lowerStart + Count(h.upper) + if key != NONE && !h.upper[UBit(key)] then 1 else 0) + 2 * (h.count + 1)
  }

  lemma {:induction false} NoneHolds(m: seq<Cell>, h: Header, v: View, x: Link)
    requires HoldsIn(m, h, v, -1) && !v.none && IncrementSize(h, NONE) <= |m|
    ensures var r := Moved(m, h.arrayStart + 2, h.arrayStart, 2 * h.count);
      HoldsIn(r, h.(none := true, count := h.count + 1), Inserted(v, NONE, x), 0)
      && SameOutside(m, r, h.lowerStart, IncrementSize(h, NONE))
  {
    hide Packs, Moved, Sum, Count, SameOutside, Valid;
    InsertedValid(v, NONE, x);
    InsertedLowers(v, NONE, x);
    PackNone(m, h.lowerStart, h.arrayStart, v.lowers, v.links, x);
  }

  lemma {:induction false} InsertedLowers(v: View, key: int, x: Link)
    requires Valid(v) && NONE <= key < 256 && !IsSet(v, key)
    ensures Count(v.upper) == |v.lowers| && |v.upper| == 8
  {
  }

  lemma {:induction false} BitHolds(m: seq<Cell>, h: Header, v: View, key: Byte, x: Link, i: nat, slot: nat)
    requires HoldsIn(m, h, v, -1) && !IsSet(v, key) && v.upper[UBit(key)] && IncrementSize(h, key) <= |m|
    requires slot == Slot(v, key) <= h.count && i == LowerIndex(v, key)
    requires h.arrayStart + 2 * h.count + 2 <= |m|
    ensures HoldsIn(BitMemory(m, h.lowerStart, h.arrayStart, h.count, i, v.lowers[i][LBit(key) := true], slot),
                    h.(count := h.count + 1), Inserted(v, key, x), slot)
    ensures SameOutside(m, BitMemory(m, h.lowerStart, h.arrayStart, h.count, i, v.lowers[i][LBit(key) := true], slot),
                        h.lowerStart, IncrementSize(h, key))
  {
    hide Packs, Moved, Sum, Count, SameOutside, Slot, LowerIndex, IsSet, Valid;
    InsertedValid(v, key, x);
    InsertedLowers(v, key, x);
    PackBit(m, h.lowerStart, h.arrayStart, v.lowers, v.links, i, v.lowers[i][LBit(key) := true], slot, x);
  }

  lemma {:induction false} GroupHolds(m: seq<Cell>, h: Header, v: View, key: Byte, x: Link, i: nat, slot: nat, l: Bits)
    requires HoldsIn(m, h, v, -1) && !IsSet(v, key) && !v.upper[UBit(key)] && IncrementSize(h, key) <= |m|
    requires slot == Slot(v, key) <= h.count && i == LowerIndex(v, key) && l == OneBit(LBit(key))
    requires h.arrayStart + 2 * h.count + 2 <= |m|
    ensures h.lowerStart + |v.lowers| == h.arrayStart ==>
      h.arrayStart + 2 * h.count + 4 <= |m|
      && HoldsIn(ShiftMemory(m, h.lowerStart, h.arrayStart, |v.lowers|, h.count, i, l, slot),
                 h.(upper := h.upper[UBit(key) := true], arrayStart := h.arrayStart + 2, count := h.count + 1), Inserted(v, key, x), slot)
      && SameOutside(m, ShiftMemory(m, h.lowerStart, h.arrayStart, |v.lowers|, h.count, i, l, slot), h.lowerStart, IncrementSize(h, key))
    ensures h.lowerStart + |v.lowers| != h.arrayStart ==>
      && HoldsIn(GapMemory(m, h.lowerStart, h.arrayStart, |v.lowers|, h.count, i, l, slot),
                 h.(upper := h.upper[UBit(key) := true], count := h.count + 1), Inserted(v, key, x), slot)
      && SameOutside(m, GapMemory(m, h.lowerStart, h.arrayStart, |v.lowers|, h.count, i, l, slot), h.lowerStart, IncrementSize(h, key))
  {
    hide Packs, Moved, Sum, Count, SameOutside, Slot, LowerIndex, IsSet, OneBit, Valid;
    InsertedValid(v, key, x);
    InsertedLowers(v, key, x);
    if h.lowerStart + |v.lowers| == h.arrayStart {
      PackGroupShift(m, h.lowerStart, h.arrayStart, v.lowers, v.links, i, l, slot, x);
    } else {
      PackGroupInGap(m, h.lowerStart, h.arrayStart, v.lowers, v.links, i, l, slot, x);
    }
  }

  class Node {
    var mem: array<Cell>
    var head: Header

    ghost predicate Holds(v: View, hole: int)
      reads this, mem
    {
      HoldsIn(mem[..], head, v, hole)
    }

    method Open(slot: nat)
      requires slot <= head.count && head.arrayStart + 2 * (head.count + 1) <= mem.Length
      modifies mem
      ensures mem[..] == Moved(old(mem[..]), head.arrayStart + 2 * slot + 2, head.arrayStart + 2 * slot, 2 * (head.count - slot))
    {
      MemMove(mem, head.arrayStart + 2 * slot + 2, head.arrayStart + 2 * slot, 2 * (head.count - slot));
    }

    // Adds a branch in place and returns its array index; the slot is left to the caller.
    method InsertBranch(key: int, ghost v: View) returns (slot: nat)
      requires Holds(v, -1) && NONE <= key < 256 && !IsSet(v, key)
      requires IncrementSize(head, key) <= mem.Length
      modifies this, mem
      ensures mem == old(mem) && head.lowerStart == old(head.lowerStart)
      ensures forall x :: Holds(Inserted(v, key, x), slot)
      ensures slot == if key == NONE then 0 else Slot(v, key)
      ensures SameOutside(old(mem[..]), mem[..], head.lowerStart, old(IncrementSize(head, key)))
    {
      if key == NONE {
        ghost var m, h := mem[..], head;
        MoreCells(m, h, v, key);
        Open(0);
        head := head.(none := true, count := head.count + 1);
        hide HoldsIn, SameOutside, Inserted, Moved;
        forall x
          ensures Holds(Inserted(v, key, x), 0)
        {
          NoneHolds(m, h, v, x);
        }
        NoneHolds(m, h, v, 0);
        slot := 0;
      } else if head.upper[UBit(key)] {
        slot := InsertBit(key, v);
      } else {
        slot := InsertGroup(key, v);
      }
    }

    // The caller stores the link in the slot left open.
    method FillSlot(slot: nat, x: Link, ghost v: View)
      requires Holds(v, slot) && slot < |v.links| && v.links[slot] == x
      modifies mem
      ensures Holds(v, -1)
      ensures SameOutside(old(mem[..]), mem[..], head.arrayStart + 2 * slot, head.arrayStart + 2 * slot + 2)
    {
      hide Valid;
      ghost var m := mem[..];
      mem[head.arrayStart + 2 * slot] := Low(x);
      mem[head.arrayStart + 2 * slot + 1] := High(x);
      BitsKept(m, mem[..], head.lowerStart, v.lowers, head.arrayStart, |m|);
      forall j | 0 <= j < |v.links| && j != slot
        ensures LinkCells(mem[..], head.arrayStart, j) == LinkCells(m, head.arrayStart, j)
      {
      }
    }

    // The group is there: its bitmap gets one more bit.
    method InsertBit(key: Byte, ghost v: View) returns (slot: nat)
      requires Holds(v, -1) && !IsSet(v, key) && head.upper[UBit(key)]
      requires IncrementSize(head, key) <= mem.Length
      modifies this, mem
      ensures mem == old(mem) && head.lowerStart == old(head.lowerStart)
      ensures (forall x :: Holds(Inserted(v, key, x), slot)) && slot == Slot(v, key)
      ensures SameOutside(old(mem[..]), mem[..], head.lowerStart, old(IncrementSize(head, key)))
    {
      hide SameOutside, Inserted, Moved, Slot, LowerIndex, IsSet, IncrementSize, Count, HoldsIn, Valid;
      var lidx;
      slot, lidx := SlotOf(key, v);
      ghost var m, h := mem[..], head;
      MoreCells(m, h, v, key);
      ghost var l := v.lowers[lidx][LBit(key) := true];
      mem[head.lowerStart + lidx] := Bitmap(BitsOf(mem[head.lowerStart + lidx])[LBit(key) := true]);
      assert mem[..] == m[head.lowerStart + lidx := Bitmap(l)];
      Open(slot);
      head := head.(count := head.count + 1);
      forall x
        ensures Holds(Inserted(v, key, x), slot)
      {
        BitHolds(m, h, v, key, x, lidx, slot);
      }
      BitHolds(m, h, v, key, 0, lidx, slot);
    }

    // A new group: one more bitmap, and the links may have to make room for it.
    method InsertGroup(key: Byte, ghost v: View) returns (slot: nat)
      requires Holds(v, -1) && !IsSet(v, key) && !head.upper[UBit(key)]
      requires IncrementSize(head, key) <= mem.Length
      modifies this, mem
      ensures mem == old(mem) && head.lowerStart == old(head.lowerStart)
      ensures (forall x :: Holds(Inserted(v, key, x), slot)) && slot == Slot(v, key)
      ensures SameOutside(old(mem[..]), mem[..], head.lowerStart, old(IncrementSize(head, key)))
    {
      hide SameOutside, Inserted, Moved, Slot, LowerIndex, IsSet, IncrementSize, Count, HoldsIn, Valid, OneBit;
      var lidx;
      slot, lidx := SlotOf(key, v);
      ghost var m, h := mem[..], head;
      MoreCells(m, h, v, key);
      var bits := OneBit(LBit(key));
      var newStart := Align(head.lowerStart + Count(head.upper) + 1);
      if newStart > head.arrayStart {
        ShiftIn(slot, lidx, bits);
      } else {
        FillIn(slot, lidx, bits);
      }
      head := head.(upper := head.upper[UBit(key) := true], arrayStart := newStart, count := head.count + 1);
      forall x
        ensures Holds(Inserted(v, key, x), slot)
      {
        GroupHolds(m, h, v, key, x, lidx, slot, bits);
      }
      GroupHolds(m, h, v, key, 0, lidx, slot, bits);
    }

    // The links move first, then the bitmaps grow into their place.
    method ShiftIn(slot: nat, lidx: nat, bits: Bits)
      requires slot <= head.count && lidx <= Count(head.upper) && head.lowerStart + Count(head.upper) < mem.Length
      requires head.arrayStart + 2 * head.count + 4 <= mem.Length
      modifies mem
      ensures mem[..] == ShiftMemory(old(mem[..]), head.lowerStart, head.arrayStart, Count(head.upper), head.count, lidx, bits, slot)
    {
      hide Count, LinksShifted, GroupMade;
      var groups := Count(head.upper);
      ShiftLinks(head.arrayStart, slot, head.count);
      MoveAndSet(head.lowerStart + lidx, groups - lidx, bits);
    }

    method ShiftLinks(start: nat, slot: nat, count: nat)
      requires slot <= count && start + 2 * count + 4 <= mem.Length
      modifies mem
      ensures mem[..] == LinksShifted(old(mem[..]), start, count, slot)
    {
      hide Moved;
      MemMove(mem, start + 2 + 2 * slot + 2, start + 2 * slot, 2 * (count - slot));
      MemMove(mem, start + 2, start, 2 * slot);
    }

    method MoveAndSet(at: nat, n: nat, bits: Bits)
      requires at + n + 1 <= mem.Length
      modifies mem
      ensures mem[..] == GroupMade(old(mem[..]), at, n, bits)
    {
      hide Moved;
      MemMove(mem, at + 1, at, n);
      ghost var r := mem[..];
      mem[at] := Bitmap(bits);
      assert mem[..] == r[at := Bitmap(bits)];
    }

    // The bitmaps grow into the padding, then the links move.
    method FillIn(slot: nat, lidx: nat, bits: Bits)
      requires slot <= head.count && lidx <= Count(head.upper) && head.lowerStart + Count(head.upper) < mem.Length
      requires head.arrayStart + 2 * head.count + 2 <= mem.Length
      modifies mem
      ensures mem[..] == GapMemory(old(mem[..]), head.lowerStart, head.arrayStart, Count(head.upper), head.count, lidx, bits, slot)
    {
      var bs, groups := head.lowerStart, Count(head.upper);
      hide Moved, Count;
      MoveAndSet(bs + lidx, groups - lidx, bits);
      Open(slot);
    }

    method BitmapAt(i: nat, ghost v: View) returns (bits: Bits)
      requires Holds(v, -1) && i < |v.lowers|
      ensures bits == v.lowers[i] && |bits| == 32
    {
      assert BitCell(mem[..], head.lowerStart, i) == Bitmap(v.lowers[i]);
      bits := BitsOf(mem[head.lowerStart + i]);
    }

    // The index by the bitmaps in memory.
    method SlotOf(key: Byte, ghost v: View) returns (slot: nat, lidx: nat)
      requires Holds(v, -1)
      ensures slot == Slot(v, key) <= head.count && lidx == LowerIndex(v, key) <= |v.lowers|
      ensures head.lowerStart + |v.lowers| <= mem.Length
      ensures head.upper[UBit(key)] ==> lidx < |v.lowers| && mem[head.lowerStart + lidx] == Bitmap(v.lowers[lidx]) && |v.lowers[lidx]| == 32
    {
      hide UBit, One, Count;
      SlotInRange(v, key);
      IndexMonotone(head.upper, UBit(key), 8);
      IndexAll(head.upper);
      lidx := Index(head.upper, UBit(key));
      assert lidx == LowerIndex(v, key);
      slot := One(head.none);
      if head.upper[UBit(key)] {
        assert BitCell(mem[..], head.lowerStart, lidx) == Bitmap(v.lowers[lidx]);
        slot := slot + Index(BitsOf(mem[head.lowerStart + lidx]), LBit(key));
      }
      hide Valid, Count, Index, Sum;
      var before := SumBefore(v.lowers, lidx);
      slot := slot + before;
    }

    // The bits in the first n bitmaps.
    method SumBefore(ghost ls: seq<Bits>, n: nat) returns (sum: nat)
      requires n <= |ls| && head.lowerStart + |ls| <= mem.Length && PacksBits(mem[..], head.lowerStart, ls)
      ensures sum == Sum(ls[..n])
    {
      sum := 0;
      for i := 0 to n
        invariant sum == Sum(ls[..i])
      {
        assert BitCell(mem[..], head.lowerStart, i) == Bitmap(ls[i]);
        SumStep(ls, i);
        sum := sum + Count(BitsOf(mem[head.lowerStart + i]));
      }
    }
  }

  // There is room for everything the insertion moves.
  lemma {:induction false} MoreCells(m: seq<Cell>, h: Header, v: View, key: int)
    requires HoldsIn(m, h, v, -1) && NONE <= key < 256 && IncrementSize(h, key) <= |m|
    ensures h.arrayStart + 2 * (h.count + 1) <= |m| && h.lowerStart + |v.lowers| <= h.arrayStart
    ensures Valid(v) && |h.upper| == 8 && h.upper == v.upper && |v.lowers| == Count(h.upper) && h.lowerStart + |v.lowers| <= |m|
    ensures key != NONE && !h.upper[UBit(key)] ==>
      Align(h.lowerStart + Count(h.upper) + 1) + 2 * (h.count + 1) <= |m|
      && h.lowerStart + Count(h.upper) < |m|
      && Align(h.lowerStart + Count(h.upper) + 1) == (if h.lowerStart + |v.lowers| == h.arrayStart then h.arrayStart + 2 else h.arrayStart)
  {
  }
}
