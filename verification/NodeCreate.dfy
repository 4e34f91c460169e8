// Rebuilding a packed node elsewhere, with one branch more or one branch less.

module NodeCreate {
  import opened Common
  import opened Bits
  import opened NodeView
  import opened NodeEdit
  import opened NodeMemory

  // memcpy of n cells between two memories.
  function Copied(r: seq<Cell>, dst: nat, m: seq<Cell>, src: nat, n: nat): (w: seq<Cell>)
    requires dst + n <= |r| && src + n <= |m|
    ensures |w| == |r|
    ensures forall i :: dst <= i < dst + n ==> w[i] == m[src + i - dst]
    ensures forall i :: 0 <= i < dst || dst + n <= i < |r| ==> w[i] == r[i]
  {
    r[..dst] + m[src..src + n] + r[dst + n..]
  }

  method MemCpy(to: array<Cell>, dst: nat, mem: array<Cell>, src: nat, n: nat)
    requires dst + n <= to.Length && src + n <= mem.Length && to != mem
    modifies to
    ensures to[..] == Copied(old(to[..]), dst, mem[..], src, n)
  {
    forall i | 0 <= i < n {
      to[dst + i] := mem[src + i];
    }
  }

  // ----- copied bitmaps and links

  lemma {:induction false} BitsCopied(r: seq<Cell>, to: nat, m: seq<Cell>, bs: nat, ls: seq<Bits>)
    requires to + |ls| <= |r| && bs + |ls| <= |m| && PacksBits(m, bs, ls)
    ensures PacksBits(Copied(r, to, m, bs, |ls|), to, ls)
  {
    var w := Copied(r, to, m, bs, |ls|);
    forall i | 0 <= i < |ls|
      ensures BitCell(w, to, i) == BitCell(m, bs, i)
    {
    }
  }

  lemma {:induction false} BitsSet(r: seq<Cell>, to: nat, ls: seq<Bits>, i: nat, l: Bits)
    requires i < |ls| && to + |ls| <= |r| && PacksBits(r, to, ls)
    ensures PacksBits(r[to + i := Bitmap(l)], to, ls[i := l])
  {
  }

  // The bitmaps before i in place, the others one further.
  function OpenCopy(r: seq<Cell>, to: nat, m: seq<Cell>, bs: nat, n: nat, i: nat, l: Bits): seq<Cell>
    requires i <= n && to + n < |r| && bs + n <= |m|
  {
    Copied(Copied(r, to, m, bs, i), to + i + 1, m, bs + i, n - i)[to + i := Bitmap(l)]
  }

  lemma {:induction false} BitsOpenCopied(r: seq<Cell>, to: nat, m: seq<Cell>, bs: nat, ls: seq<Bits>, i: nat, l: Bits)
    requires i <= |ls| && to + |ls| < |r| && bs + |ls| <= |m| && PacksBits(m, bs, ls)
    ensures PacksBits(OpenCopy(r, to, m, bs, |ls|, i, l), to, OpenAt(ls, i, l))
  {
    var w, o := OpenCopy(r, to, m, bs, |ls|, i, l), OpenAt(ls, i, l);
    forall j | 0 <= j < |o|
      ensures BitCell(w, to, j) == Bitmap(o[j])
    {
      if j != i {
        var k := if j < i then j else j - 1;
        assert o[j] == ls[k] && BitCell(m, bs, k) == Bitmap(ls[k]);
      }
    }
  }

  // The bitmaps before i in place, those behind it one closer.
  function CloseCopy(r: seq<Cell>, to: nat, m: seq<Cell>, bs: nat, n: nat, i: nat): seq<Cell>
    requires i < n && to + n - 1 <= |r| && bs + n <= |m|
  {
    Copied(Copied(r, to, m, bs, i), to + i, m, bs + i + 1, n - i - 1)
  }

  lemma {:induction false} BitsCloseCopied(r: seq<Cell>, to: nat, m: seq<Cell>, bs: nat, ls: seq<Bits>, i: nat)
    requires i < |ls| && to + |ls| - 1 <= |r| && bs + |ls| <= |m| && PacksBits(m, bs, ls)
    ensures PacksBits(CloseCopy(r, to, m, bs, |ls|, i), to, CloseAt(ls, i))
  {
    var w, o := CloseCopy(r, to, m, bs, |ls|, i), CloseAt(ls, i);
    forall j | 0 <= j < |o|
      ensures BitCell(w, to, j) == Bitmap(o[j])
    {
      var k := if j < i then j else j + 1;
      assert o[j] == ls[k] && BitCell(m, bs, k) == Bitmap(ls[k]);
    }
  }

  function OpenLinks(r: seq<Cell>, to: nat, m: seq<Cell>, as_: nat, n: nat, slot: nat): seq<Cell>
    requires slot <= n && to + 2 * n + 2 <= |r| && as_ + 2 * n <= |m|
  {
    Copied(Copied(r, to, m, as_, 2 * slot), to + 2 * slot + 2, m, as_ + 2 * slot, 2 * (n - slot))
  }

  lemma {:induction false} LinksOpenCopied(r: seq<Cell>, to: nat, m: seq<Cell>, as_: nat, ns: seq<Link>, slot: nat, x: Link)
    requires slot <= |ns| && to + 2 * |ns| + 2 <= |r| && as_ + 2 * |ns| <= |m| && PacksLinks(m, as_, ns, -1)
    ensures PacksLinks(OpenLinks(r, to, m, as_, |ns|, slot), to, OpenAt(ns, slot, x), slot)
  {
    var w1 := Copied(r, to, m, as_, 2 * slot);
    var w := OpenLinks(r, to, m, as_, |ns|, slot);
    hide Copied;
    forall j: nat | j < slot
      ensures LinkCells(w, to, j) == LinkCells(m, as_, j)
    {
      assert w[to + 2 * j] == w1[to + 2 * j] && w[to + 2 * j + 1] == w1[to + 2 * j + 1];
    }
    forall j: nat | slot <= j < |ns|
      ensures LinkCells(w, to, j + 1) == LinkCells(m, as_, j)
    {
      assert w[to + 2 + 2 * j] == m[as_ + 2 * j] && w[to + 2 + 2 * j + 1] == m[as_ + 2 * j + 1];
    }
    LinksOpened(m, w, as_, to, ns, slot, x);
  }

  function CloseLinks(r: seq<Cell>, to: nat, m: seq<Cell>, as_: nat, n: nat, slot: nat): seq<Cell>
    requires slot < n && to + 2 * n - 2 <= |r| && as_ + 2 * n <= |m|
  {
    Copied(Copied(r, to, m, as_, 2 * slot), to + 2 * slot, m, as_ + 2 * slot + 2, 2 * (n - slot - 1))
  }

  lemma {:induction false} LinksCloseCopied(r: seq<Cell>, to: nat, m: seq<Cell>, as_: nat, ns: seq<Link>, slot: nat)
    requires slot < |ns| && to + 2 * |ns| - 2 <= |r| && as_ + 2 * |ns| <= |m| && PacksLinks(m, as_, ns, -1)
    ensures PacksLinks(CloseLinks(r, to, m, as_, |ns|, slot), to, CloseAt(ns, slot), -1)
  {
    var w1 := Copied(r, to, m, as_, 2 * slot);
    var w, o := CloseLinks(r, to, m, as_, |ns|, slot), CloseAt(ns, slot);
    hide Copied;
    forall j: nat | j < |o|
      ensures LinkCells(w, to, j) == (Low(o[j]), High(o[j]))
    {
      var k := if j < slot then j else j + 1;
      assert o[j] == ns[k] && LinkCells(m, as_, k) == (Low(ns[k]), High(ns[k]));
      if j < slot {
        assert w[to + 2 * j] == w1[to + 2 * j] && w[to + 2 * j + 1] == w1[to + 2 * j + 1];
      }
    }
  }

  // Bitmaps stay when only cells behind them are written.
  lemma {:induction false} BitsBefore(r: seq<Cell>, w: seq<Cell>, to: nat, ls: seq<Bits>)
    requires to + |ls| <= |r| == |w| && PacksBits(r, to, ls) && r[..to + |ls|] == w[..to + |ls|]
    ensures PacksBits(w, to, ls)
  {
    forall i | 0 <= i < |ls|
      ensures BitCell(w, to, i) == BitCell(r, to, i)
    {
      assert w[to + i] == w[..to + |ls|][to + i] == r[..to + |ls|][to + i];
    }
  }

  lemma {:induction false} OpenLinksBefore(r: seq<Cell>, to: nat, m: seq<Cell>, as_: nat, n: nat, slot: nat, k: nat)
    requires slot <= n && to + 2 * n + 2 <= |r| && as_ + 2 * n <= |m| && k <= to
    ensures OpenLinks(r, to, m, as_, n, slot)[..k] == r[..k]
  {
  }

  lemma {:induction false} CloseLinksBefore(r: seq<Cell>, to: nat, m: seq<Cell>, as_: nat, n: nat, slot: nat, k: nat)
    requires slot < n && to + 2 * n - 2 <= |r| && as_ + 2 * n <= |m| && k <= to
    ensures CloseLinks(r, to, m, as_, n, slot)[..k] == r[..k]
  {
  }

  // ----- create with one more branch

  // The bitmaps and the header of the node with the key; the links are still to come.
  function NewLowers(v: View, key: int): seq<Bits>
    requires Valid(v) && NONE <= key < 256
  {
    if key == NONE then v.lowers
    else
      var i := LowerIndex(v, key);
      if v.upper[UBit(key)] then v.lowers[i := v.lowers[i][LBit(key) := true]] else OpenAt(v.lowers, i, OneBit(LBit(key)))
  }

  function NewHead(h: Header, key: int): Header
    requires NONE <= key < 256 && |h.upper| == 8
  {
    var more := key != NONE && !h.upper[UBit(key)];
    h.(none := h.none || key == NONE,
       upper := if more then h.upper[UBit(key) := true] else h.upper,
       arrayStart := Align(h.lowerStart + Count(h.upper) + if more then 1 else 0),
       count := h.count + 1)
  }

  lemma {:induction false} InsertedParts(v: View, key: int, x: Link)
    requires Valid(v) && NONE <= key < 256 && !IsSet(v, key)
    ensures var slot := if key == NONE then 0 else Slot(v, key);
      && slot <= |v.links| && Inserted(v, key, x).links == OpenAt(v.links, slot, x)
      && Inserted(v, key, x).lowers == NewLowers(v, key)
      && Inserted(v, key, x).compressed == v.compressed && Inserted(v, key, x).none == (v.none || key == NONE)
      && Inserted(v, key, x).upper == if key != NONE && !v.upper[UBit(key)] then v.upper[UBit(key) := true] else v.upper
  {
    if key != NONE { SlotInRange(v, key); }
  }

  lemma {:induction false} NewLowersSize(v: View, key: int)
    requires Valid(v) && NONE <= key < 256
    ensures |NewLowers(v, key)| == Count(v.upper) + if key != NONE && !v.upper[UBit(key)] then 1 else 0
  {
  }

  // What is known of a held node.
  lemma {:induction false} HeldParts(m: seq<Cell>, h: Header, v: View)
    requires HoldsIn(m, h, v, -1)
    ensures Valid(v) && |h.upper| == 8 && h.upper == v.upper && |v.lowers| == Count(h.upper) && h.count == |v.links|
    ensures h.none == v.none && h.compressed == v.compressed && h.arrayStart == Align(h.lowerStart + |v.lowers|)
    ensures h.lowerStart + |v.lowers| <= |m| && h.arrayStart + 2 * h.count <= |m|
    ensures PacksBits(m, h.lowerStart, v.lowers) && PacksLinks(m, h.arrayStart, v.links, -1)
  {
  }

  lemma {:induction false} LinksAdded(r: seq<Cell>, bs: nat, ls: seq<Bits>, start: nat, m: seq<Cell>, as_: nat, ns: seq<Link>, slot: nat, x: Link)
    requires start == Align(bs + |ls|) && start + 2 * |ns| + 2 <= |r| && PacksBits(r, bs, ls)
    requires slot <= |ns| && as_ + 2 * |ns| <= |m| && PacksLinks(m, as_, ns, -1)
    ensures Packs(OpenLinks(r, start, m, as_, |ns|, slot), bs, start, ls, OpenAt(ns, slot, x), slot)
    ensures |OpenAt(ns, slot, x)| == |ns| + 1
  {
    hide Copied, PacksBits, PacksLinks, OpenLinks;
    LinksOpenCopied(r, start, m, as_, ns, slot, x);
    OpenLinksBefore(r, start, m, as_, |ns|, slot, bs + |ls|);
    OpenLinksLength(r, start, m, as_, |ns|, slot);
    BitsBefore(r, OpenLinks(r, start, m, as_, |ns|, slot), bs, ls);
  }

  lemma {:induction false} OpenLinksLength(r: seq<Cell>, to: nat, m: seq<Cell>, as_: nat, n: nat, slot: nat)
    requires slot <= n && to + 2 * n + 2 <= |r| && as_ + 2 * n <= |m|
    ensures |OpenLinks(r, to, m, as_, n, slot)| == |r|
  {
  }

  // There is room for the new node.
  lemma {:induction false} RoomFor(m: seq<Cell>, h: Header, v: View, key: int, size: nat)
    requires HoldsIn(m, h, v, -1) && NONE <= key < 256 && IncrementSize(h, key) <= size
    ensures Valid(v) && |h.upper| == 8 && h.upper == v.upper && h.count == |v.links| && h.arrayStart + 2 * h.count <= |m|
    ensures NewHead(h, key).arrayStart == Align(h.lowerStart + |NewLowers(v, key)|)
    ensures h.lowerStart + |NewLowers(v, key)| <= size && NewHead(h, key).arrayStart + 2 * h.count + 2 <= size
  {
    HeldParts(m, h, v);
    NewLowersSize(v, key);
  }

  // The header and the memory, once the bitmaps and the links are in place.
  lemma {:induction false} CreatedHolds(w: seq<Cell>, h: Header, v: View, key: int, x: Link, slot: nat)
    requires Valid(v) && NONE <= key < 256 && !IsSet(v, key) && slot == (if key == NONE then 0 else Slot(v, key)) <= |v.links|
    requires |h.upper| == 8 && h.upper == v.upper && h.none == v.none && h.compressed == v.compressed && h.count == |v.links|
    requires NewHead(h, key).arrayStart == Align(h.lowerStart + |NewLowers(v, key)|)
    requires Packs(w, h.lowerStart, NewHead(h, key).arrayStart, NewLowers(v, key), OpenAt(v.links, slot, x), slot)
    ensures HoldsIn(w, NewHead(h, key), Inserted(v, key, x), slot)
  {
    hide Slot, LowerIndex, IsSet, Count, Sum, OneBit, Packs, Inserted, Valid, NewLowers, NewHead, Align;
    NewHeadParts(h, key);
    InsertedValid(v, key, x);
    InsertedParts(v, key, x);
  }

  method CopyBitmaps(src: Node, key: int, to: array<Cell>, lidx: nat, ghost v: View)
    requires src.mem != to && src.Holds(v, -1) && NONE <= key < 256 && !IsSet(v, key)
    requires key != NONE ==> lidx == LowerIndex(v, key)
    requires src.head.lowerStart + |NewLowers(v, key)| <= to.Length
    modifies to
    ensures PacksBits(to[..], src.head.lowerStart, NewLowers(v, key))
  {
    HeldParts(src.mem[..], src.head, v);
    hide IsSet, Count, Sum, OneBit, Copied, PacksBits, PacksLinks, HoldsIn, Valid, Inserted;
    if key != NONE && !src.head.upper[UBit(key)] {
      CopyWithGroup(src, to, lidx, OneBit(LBit(key)), v);
    } else {
      ghost var r := to[..];
      MemCpy(to, src.head.lowerStart, src.mem, src.head.lowerStart, Count(src.head.upper));
      BitsCopied(r, src.head.lowerStart, src.mem[..], src.head.lowerStart, v.lowers);
      if key != NONE {
        var bits := src.BitmapAt(lidx, v);
        SetBitmap(to, src.head.lowerStart, lidx, bits[LBit(key) := true], v.lowers);
      }
    }
  }

  method SetBitmap(to: array<Cell>, bs: nat, i: nat, l: Bits, ghost ls: seq<Bits>)
    requires i < |ls| && bs + |ls| <= to.Length && PacksBits(to[..], bs, ls)
    modifies to
    ensures PacksBits(to[..], bs, ls[i := l])
  {
    ghost var w := to[..];
    to[bs + i] := Bitmap(l);
    assert to[..] == w[bs + i := Bitmap(l)];
    BitsSet(w, bs, ls, i, l);
  }

  method CopyWithGroup(src: Node, to: array<Cell>, i: nat, l: Bits, ghost v: View)
    requires src.mem != to && src.Holds(v, -1) && i <= |v.lowers| && src.head.lowerStart + |v.lowers| < to.Length
    modifies to
    ensures PacksBits(to[..], src.head.lowerStart, OpenAt(v.lowers, i, l))
  {
    HeldParts(src.mem[..], src.head, v);
    hide Count, Sum, Copied, PacksBits, PacksLinks, HoldsIn, Valid;
    ghost var m, r := src.mem[..], to[..];
    var bs, groups := src.head.lowerStart, Count(src.head.upper);
    CopyAround(src.mem, to, bs, groups, i);
    to[bs + i] := Bitmap(l);
    assert to[..] == OpenCopy(r, bs, m, bs, groups, i, l);
    BitsOpenCopied(r, bs, m, bs, v.lowers, i, l);
  }

  method CopyAround(mem: array<Cell>, to: array<Cell>, bs: nat, n: nat, i: nat)
    requires mem != to && i <= n && bs + n < to.Length && bs + n <= mem.Length
    modifies to
    ensures to[..] == Copied(Copied(old(to[..]), bs, mem[..], bs, i), bs + i + 1, mem[..], bs + i, n - i)
  {
    hide Copied;
    MemCpy(to, bs, mem, bs, i);
    MemCpy(to, bs + i + 1, mem, bs + i, n - i);
  }

  method CopyFront(src: Node, key: int, to: array<Cell>, ghost v: View) returns (slot: nat)
    requires src.mem != to && src.Holds(v, -1) && NONE <= key < 256 && !IsSet(v, key)
    requires src.head.lowerStart + |NewLowers(v, key)| <= to.Length
    modifies to
    ensures PacksBits(to[..], src.head.lowerStart, NewLowers(v, key))
    ensures slot == (if key == NONE then 0 else Slot(v, key)) && slot <= src.head.count
  {
    hide IsSet, Count, Sum, PacksBits, PacksLinks, HoldsIn, Inserted, NewLowers, Slot, LowerIndex;
    var lidx := 0;
    slot := 0;
    if key != NONE {
      slot, lidx := src.SlotOf(key, v);
    }
    CopyBitmaps(src, key, to, lidx, v);
  }

  // Builds src with one more branch into dst and returns the index of its slot.
  method CreateWith(src: Node, key: int, dst: Node, ghost v: View) returns (slot: nat)
    requires src != dst && src.mem != dst.mem && src.Holds(v, -1) && NONE <= key < 256 && !IsSet(v, key)
    requires IncrementSize(src.head, key) <= dst.mem.Length
    modifies dst, dst.mem
    ensures dst.mem == old(dst.mem) && dst.head.lowerStart == src.head.lowerStart
    ensures forall x :: dst.Holds(Inserted(v, key, x), slot)
    ensures slot == if key == NONE then 0 else Slot(v, key)
  {
    var h := src.head;
    ghost var m := src.mem[..];
    hide IsSet, Count, Sum, OneBit, Copied, Packs, PacksBits, PacksLinks, HoldsIn, Valid, Inserted, NewLowers, NewHead, Slot, LowerIndex, OpenLinks, IncrementSize, OpenAt, Align;
    HeldParts(m, h, v);
    RoomFor(m, h, v, key, dst.mem.Length);
    slot := CopyFront(src, key, dst.mem, v);
    ghost var r := dst.mem[..];
    CopyLinks(src, dst.mem, NewHead(h, key).arrayStart, slot);
    dst.head := NewHead(h, key);
    Created(m, h, v, key, slot, r);
    NewHeadParts(h, key);
  }

  lemma {:induction false} Created(m: seq<Cell>, h: Header, v: View, key: int, slot: nat, r: seq<Cell>)
    requires HoldsIn(m, h, v, -1) && NONE <= key < 256 && !IsSet(v, key) && slot == (if key == NONE then 0 else Slot(v, key)) <= h.count
    requires IncrementSize(h, key) <= |r| && |h.upper| == 8 && NewHead(h, key).arrayStart + 2 * h.count + 2 <= |r|
    requires h.lowerStart + |NewLowers(v, key)| <= |r| && PacksBits(r, h.lowerStart, NewLowers(v, key)) && h.arrayStart + 2 * h.count <= |m|
    ensures forall x :: HoldsIn(OpenLinks(r, NewHead(h, key).arrayStart, m, h.arrayStart, h.count, slot), NewHead(h, key), Inserted(v, key, x), slot)
  {
    hide HoldsIn, IncrementSize, NewHead, NewLowers;
    var start := NewHead(h, key).arrayStart;
    var w := OpenLinks(r, start, m, h.arrayStart, h.count, slot);
    HeldParts(m, h, v);
    RoomFor(m, h, v, key, |r|);
    hide *;
    forall x
      ensures HoldsIn(w, NewHead(h, key), Inserted(v, key, x), slot)
    {
      LinksAdded(r, h.lowerStart, NewLowers(v, key), start, m, h.arrayStart, v.links, slot, x);
      CreatedHolds(w, h, v, key, x, slot);
    }
  }

  lemma {:induction false} NewHeadParts(h: Header, key: int)
    requires NONE <= key < 256 && |h.upper| == 8
    ensures NewHead(h, key).lowerStart == h.lowerStart && NewHead(h, key).compressed == h.compressed && NewHead(h, key).count == h.count + 1
    ensures NewHead(h, key).none == (h.none || key == NONE)
    ensures NewHead(h, key).upper == if key != NONE && !h.upper[UBit(key)] then h.upper[UBit(key) := true] else h.upper
  {
  }

  method CopyLinks(src: Node, to: array<Cell>, start: nat, slot: nat)
    requires src.mem != to && slot <= src.head.count && start + 2 * src.head.count + 2 <= to.Length
    requires src.head.arrayStart + 2 * src.head.count <= src.mem.Length
    modifies to
    ensures to[..] == OpenLinks(old(to[..]), start, src.mem[..], src.head.arrayStart, src.head.count, slot)
  {
    hide Copied;
    MemCpy(to, start, src.mem, src.head.arrayStart, 2 * slot);
    MemCpy(to, start + 2 * slot + 2, src.mem, src.head.arrayStart + 2 * slot, 2 * (src.head.count - slot));
  }

  // ----- create_remove

  function CutLowers(v: View, key: int): seq<Bits>
    requires Valid(v) && NONE <= key < 256 && IsSet(v, key)
  {
    if key == NONE then v.lowers
    else
      var i := LowerIndex(v, key);
      var l := v.lowers[i][LBit(key) := false];
      if Count(l) == 0 then CloseAt(v.lowers, i) else v.lowers[i := l]
  }

  function CutUpper(v: View, key: int): Bits
    requires Valid(v) && NONE <= key < 256 && IsSet(v, key)
  {
    if key != NONE && Count(v.lowers[LowerIndex(v, key)][LBit(key) := false]) == 0 then v.upper[UBit(key) := false] else v.upper
  }

  lemma {:induction false} RemovedParts(v: View, key: int)
    requires Valid(v) && NONE <= key < 256 && IsSet(v, key)
    ensures var slot := if key == NONE then 0 else Slot(v, key);
      && slot < |v.links| && Removed(v, key).links == CloseAt(v.links, slot)
      && Removed(v, key).lowers == CutLowers(v, key) && Removed(v, key).upper == CutUpper(v, key)
      && Removed(v, key).compressed == v.compressed && Removed(v, key).none == (v.none && key != NONE)
  {
    RankInRange(v, key);
  }

  lemma {:induction false} ClearCount(b: Bits, i: nat)
    requires i < |b| && b[i]
    ensures Count(b[i := false]) == Count(b) - 1
  {
    SetCount(b[i := false], i);
    assert b[i := false][i := true] == b;
  }

  lemma {:induction false} CloseSum(ls: seq<Bits>, i: nat)
    requires i < |ls|
    ensures Sum(CloseAt(ls, i)) == Sum(ls) - Count(ls[i])
  {
    SumConcat(ls[..i], ls[i + 1..]);
    SumConcat(ls[..i + 1], ls[i + 1..]);
    SumStep(ls, i);
    assert ls == ls[..i + 1] + ls[i + 1..];
  }

  lemma {:induction false} CloseFilled(ls: seq<Bits>, i: nat)
    requires Filled(ls) && i < |ls|
    ensures Filled(CloseAt(ls, i))
  {
    var o := CloseAt(ls, i);
    assert forall j :: 0 <= j < |o| ==> o[j] == if j < i then ls[j] else ls[j + 1];
  }

  // The node without the last key of a group, and without another key.
  lemma {:induction false} ClosedSizes(v: View, key: Byte)
    requires Valid(v) && IsSet(v, key) && Count(v.lowers[LowerIndex(v, key)][LBit(key) := false]) == 0
    ensures var i := LowerIndex(v, key);
      && Filled(CloseAt(v.lowers, i)) && |CloseAt(v.lowers, i)| == Count(v.upper[UBit(key) := false])
      && Sum(CloseAt(v.lowers, i)) == Sum(v.lowers) - 1
  {
    var i := LowerIndex(v, key);
    assert Filled(v.lowers);
    ClearCount(v.lowers[i], LBit(key));
    hide Slot, Sum, Count, Index, LowerIndex;
    CloseSum(v.lowers, i);
    CloseFilled(v.lowers, i);
    ClearCount(v.upper, UBit(key));
  }

  lemma {:induction false} ClearedSizes(v: View, key: Byte)
    requires Valid(v) && IsSet(v, key) && Count(v.lowers[LowerIndex(v, key)][LBit(key) := false]) > 0
    ensures var i, l := LowerIndex(v, key), v.lowers[LowerIndex(v, key)][LBit(key) := false];
      Filled(v.lowers[i := l]) && Sum(v.lowers[i := l]) == Sum(v.lowers) - 1
  {
    var i := LowerIndex(v, key);
    var l := v.lowers[i][LBit(key) := false];
    assert Filled(v.lowers);
    ClearCount(v.lowers[i], LBit(key));
    hide Slot, Sum, Count, Index, LowerIndex;
    SumAround(v.lowers, i, l);
    OpenFilled(v.lowers, i, l);
  }

  lemma {:induction false} RemovedValid(v: View, key: int)
    requires Valid(v) && NONE <= key < 256 && IsSet(v, key)
    ensures Valid(Removed(v, key))
  {
    hide Removed, Slot, Sum, Count, Index, LowerIndex, CloseAt, Lower;
    RemovedParts(v, key);
    RemovedLinks(v, key);
    if key != NONE {
      if Count(v.lowers[LowerIndex(v, key)][LBit(key) := false]) == 0 {
        ClosedSizes(v, key);
      } else {
        ClearedSizes(v, key);
      }
    }
  }

  lemma {:induction false} RemovedLinks(v: View, key: int)
    requires Valid(v) && NONE <= key < 256 && IsSet(v, key)
    ensures var slot := if key == NONE then 0 else Slot(v, key); slot < |v.links| && |CloseAt(v.links, slot)| == |v.links| - 1
    ensures key == NONE ==> v.none
  {
    RemovedParts(v, key);
  }

  lemma {:induction false} LinksRemoved(r: seq<Cell>, bs: nat, ls: seq<Bits>, start: nat, m: seq<Cell>, as_: nat, ns: seq<Link>, slot: nat)
    requires start == Align(bs + |ls|) && start + 2 * |ns| - 2 <= |r| && bs + |ls| <= |r| && PacksBits(r, bs, ls)
    requires slot < |ns| && as_ + 2 * |ns| <= |m| && PacksLinks(m, as_, ns, -1)
    ensures Packs(CloseLinks(r, start, m, as_, |ns|, slot), bs, start, ls, CloseAt(ns, slot), -1)
  {
    hide Copied, PacksBits, PacksLinks, CloseLinks;
    LinksCloseCopied(r, start, m, as_, ns, slot);
    CloseLinksBefore(r, start, m, as_, |ns|, slot, bs + |ls|);
    CloseLinksLength(r, start, m, as_, |ns|, slot);
    BitsBefore(r, CloseLinks(r, start, m, as_, |ns|, slot), bs, ls);
  }

  lemma {:induction false} CloseLinksLength(r: seq<Cell>, to: nat, m: seq<Cell>, as_: nat, n: nat, slot: nat)
    requires slot < n && to + 2 * n - 2 <= |r| && as_ + 2 * n <= |m|
    ensures |CloseLinks(r, to, m, as_, n, slot)| == |r|
  {
  }

  // Builds src without the branch of key into dst.
  method CreateRemove(src: Node, key: int, dst: Node, ghost v: View)
    requires src != dst && src.mem != dst.mem && src.Holds(v, -1) && NONE <= key < 256 && IsSet(v, key)
    requires Align(src.head.lowerStart + |CutLowers(v, key)|) + 2 * (src.head.count - 1) <= dst.mem.Length
    modifies dst, dst.mem
    ensures dst.mem == old(dst.mem) && dst.head.lowerStart == src.head.lowerStart
    ensures dst.Holds(Removed(v, key), -1)
  {
    hide IsSet, Count, Sum, Copied, Packs, PacksBits, PacksLinks, HoldsIn, Removed, CutLowers, CutUpper, Slot, LowerIndex, CloseLinks, Align, Valid;
    var h := src.head;
    ghost var m := src.mem[..];
    HeldParts(m, h, v);
    RemovedParts(v, key);
    AlignRoom(h.lowerStart + |CutLowers(v, key)|);
    var slot, upper, groups := CutBitmaps(src, key, dst.mem, v);
    ghost var r := dst.mem[..];
    CopyLinksBut(src, dst.mem, Align(h.lowerStart + groups), slot);
    dst.head := h.(none := h.none && key != NONE, upper := upper, arrayStart := Align(h.lowerStart + groups), count := h.count - 1);
    RemovedInto(m, h, v, key, slot, r, dst.head);
  }

  lemma {:induction false} AlignRoom(n: nat)
    ensures n <= Align(n)
  {
  }

  lemma {:induction false} RemovedInto(m: seq<Cell>, h: Header, v: View, key: int, slot: nat, r: seq<Cell>, g: Header)
    requires HoldsIn(m, h, v, -1) && NONE <= key < 256 && IsSet(v, key) && slot == (if key == NONE then 0 else Slot(v, key)) < h.count
    requires g == h.(none := h.none && key != NONE, upper := CutUpper(v, key), arrayStart := Align(h.lowerStart + |CutLowers(v, key)|), count := h.count - 1)
    requires g.arrayStart + 2 * h.count - 2 <= |r| && h.lowerStart + |CutLowers(v, key)| <= |r| && h.arrayStart + 2 * h.count <= |m|
    requires PacksBits(r, h.lowerStart, CutLowers(v, key))
    ensures HoldsIn(CloseLinks(r, g.arrayStart, m, h.arrayStart, h.count, slot), g, Removed(v, key), -1)
  {
    hide IsSet, Count, Sum, Copied, Packs, PacksBits, PacksLinks, HoldsIn, Removed, CutLowers, CutUpper, Slot, LowerIndex, CloseLinks, CloseAt, Valid, Align;
    HeldParts(m, h, v);
    LinksRemoved(r, h.lowerStart, CutLowers(v, key), g.arrayStart, m, h.arrayStart, v.links, slot);
    RemovedHolds(CloseLinks(r, g.arrayStart, m, h.arrayStart, h.count, slot), g, v, key, slot);
  }

  lemma {:induction false} RemovedHolds(w: seq<Cell>, g: Header, v: View, key: int, slot: nat)
    requires Valid(v) && NONE <= key < 256 && IsSet(v, key) && slot == (if key == NONE then 0 else Slot(v, key)) < |v.links|
    requires g.compressed == v.compressed && g.none == (v.none && key != NONE) && g.upper == CutUpper(v, key) && g.count == |v.links| - 1
    requires g.arrayStart == Align(g.lowerStart + |CutLowers(v, key)|)
    requires Packs(w, g.lowerStart, g.arrayStart, CutLowers(v, key), CloseAt(v.links, slot), -1)
    ensures HoldsIn(w, g, Removed(v, key), -1)
  {
    hide Slot, LowerIndex, IsSet, Count, Sum, Packs, Removed, Valid, CutLowers, CutUpper, Align;
    RemovedValid(v, key);
    RemovedParts(v, key);
  }

  method CutBitmaps(src: Node, key: int, to: array<Cell>, ghost v: View) returns (slot: nat, upper: Bits, groups: nat)
    requires src.mem != to && src.Holds(v, -1) && NONE <= key < 256 && IsSet(v, key)
    requires src.head.lowerStart + |CutLowers(v, key)| <= to.Length
    modifies to
    ensures PacksBits(to[..], src.head.lowerStart, CutLowers(v, key))
    ensures slot == (if key == NONE then 0 else Slot(v, key)) && upper == CutUpper(v, key) && groups == |CutLowers(v, key)|
  {
    var h := src.head;
    HeldParts(src.mem[..], h, v);
    hide Sum, Copied, PacksBits, PacksLinks, HoldsIn, Slot, Count, LowerIndex, Index;
    var lidx := 0;
    slot := 0;
    upper, groups := h.upper, Count(h.upper);
    if key == NONE {
      CopyBits(src, to, v);
      return;
    }
    slot, lidx := src.SlotOf(key, v);
    var bits := src.BitmapAt(lidx, v);
    var l := bits[LBit(key) := false];
    if Count(l) == 0 {
      upper, groups := h.upper[UBit(key) := false], groups - 1;
      CopyWithoutGroup(src, to, lidx, v);
    } else {
      CopyBits(src, to, v);
      SetBitmap(to, h.lowerStart, lidx, l, v.lowers);
    }
  }

  method CopyBits(src: Node, to: array<Cell>, ghost v: View)
    requires src.mem != to && src.Holds(v, -1) && src.head.lowerStart + |v.lowers| <= to.Length
    modifies to
    ensures PacksBits(to[..], src.head.lowerStart, v.lowers)
  {
    HeldParts(src.mem[..], src.head, v);
    hide Count, Copied, PacksBits, PacksLinks, HoldsIn, Valid;
    ghost var r := to[..];
    MemCpy(to, src.head.lowerStart, src.mem, src.head.lowerStart, Count(src.head.upper));
    BitsCopied(r, src.head.lowerStart, src.mem[..], src.head.lowerStart, v.lowers);
  }

  method CopyWithoutGroup(src: Node, to: array<Cell>, i: nat, ghost v: View)
    requires src.mem != to && src.Holds(v, -1) && i < |v.lowers| && src.head.lowerStart + |v.lowers| - 1 <= to.Length
    modifies to
    ensures PacksBits(to[..], src.head.lowerStart, CloseAt(v.lowers, i))
  {
    HeldParts(src.mem[..], src.head, v);
    hide Count, Copied, PacksBits, PacksLinks, HoldsIn, Valid, CloseAt;
    ghost var r := to[..];
    var bs, groups := src.head.lowerStart, Count(src.head.upper);
    MemCpy(to, bs, src.mem, bs, i);
    MemCpy(to, bs + i, src.mem, bs + i + 1, groups - i - 1);
    BitsCloseCopied(r, bs, src.mem[..], bs, v.lowers, i);
  }

  method CopyLinksBut(src: Node, to: array<Cell>, start: nat, slot: nat)
    requires src.mem != to && slot < src.head.count && start + 2 * src.head.count - 2 <= to.Length
    requires src.head.arrayStart + 2 * src.head.count <= src.mem.Length
    modifies to
    ensures to[..] == CloseLinks(old(to[..]), start, src.mem[..], src.head.arrayStart, src.head.count, slot)
  {
    hide Copied;
    MemCpy(to, start, src.mem, src.head.arrayStart, 2 * slot);
    MemCpy(to, start + 2 * slot, src.mem, src.head.arrayStart + 2 * slot + 2, 2 * (src.head.count - slot - 1));
  }

  // Rebuilding and inserting in place give the same node: the same header, bitmaps and links.
  lemma {:induction false} SameNode(a: seq<Cell>, g: Header, b: seq<Cell>, h: Header, v: View, hole: int)
    requires HoldsIn(a, g, v, hole) && HoldsIn(b, h, v, hole) && g.lowerStart == h.lowerStart
    ensures g == h
    ensures forall i :: 0 <= i < |v.lowers| ==> BitCell(a, g.lowerStart, i) == BitCell(b, h.lowerStart, i)
    ensures forall j :: 0 <= j < |v.links| && j != hole ==> LinkCells(a, g.arrayStart, j) == LinkCells(b, h.arrayStart, j)
  {
  }

  // Adding a branch in place, storing its link and building the node without it again: the header
  // and every bitmap and link are those of the node it started from.
  method InsertFillRemove(src: Node, key: int, x: Link, dst: Node, ghost v: View)
    requires src != dst && src.mem != dst.mem && src.Holds(v, -1) && NONE <= key < 256 && !IsSet(v, key)
    requires IncrementSize(src.head, key) <= src.mem.Length && src.head.arrayStart + 2 * src.head.count <= dst.mem.Length
    modifies src, src.mem, dst, dst.mem
    ensures dst.Holds(v, -1) && dst.head == old(src.head)
    ensures forall i :: 0 <= i < |v.lowers| ==> BitCell(dst.mem[..], dst.head.lowerStart, i) == BitCell(old(src.mem[..]), dst.head.lowerStart, i)
    ensures forall j :: 0 <= j < |v.links| ==> LinkCells(dst.mem[..], dst.head.arrayStart, j) == LinkCells(old(src.mem[..]), dst.head.arrayStart, j)
  {
    hide IsSet, Inserted, Removed, CutLowers, Slot, Count, Sum, SameOutside, PacksBits, PacksLinks, OpenAt;
    ghost var m, h, u := src.mem[..], src.head, Inserted(v, key, x);
    InsertedParts(v, key, x);
    RemovedInserted(v, key, x);
    RemovedParts(u, key);
    var slot := src.InsertBranch(key, v);
    assert src.Holds(u, slot);
    OpenedHas(v.links, slot, x);
    src.FillSlot(slot, x, u);
    CreateRemove(src, key, dst, u);
    SameNode(m, h, dst.mem[..], dst.head, v, -1);
  }

  lemma {:induction false} OpenedHas<T>(s: seq<T>, i: nat, x: T)
    requires i <= |s|
    ensures |OpenAt(s, i, x)| == |s| + 1 && OpenAt(s, i, x)[i] == x
  {
  }
}
