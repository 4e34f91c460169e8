// Linked lists of free areas (memory/_memory.hpp, AreaList).

module AreaLists {
  import opened Tiling

  const MAX_ITER := 10

  // A header keeps the size of its area in 32 bits.
  const SIZE_LIMIT := 0x1_0000_0000

  type UInt32 = n: nat | n < 0x1_0000_0000

  // The header at the start of an area; next is 0 at the end of a list.
  datatype Area = Area(size: UInt32, next: nat)

  // What is left of a size when it is written to a header.
  function Stored(size: nat): UInt32 {
    size % SIZE_LIMIT
  }

  // The end of an area that its header does not account for.
  ghost function Unrecorded(offset: nat, size: nat): set<Chunk> {
    Behind(offset, Stored(size), size)
  }

  lemma {:induction false} RecordedIff(offset: nat, size: nat)
    ensures Stored(size) <= size && (Stored(size) == size <==> size < SIZE_LIMIT)
    ensures Unrecorded(offset, size) == {} <==> size < SIZE_LIMIT
  {
    if size >= SIZE_LIMIT {
      assert Chunk(offset + Stored(size), size - Stored(size)) in Unrecorded(offset, size);
    }
  }

  // What head and tail one buffer of a list holds.
  datatype Ends = Ends(head: nat, tail: nat)

  // The headers, by the offset of their area.
  class Memory {
    var areas: map<nat, Area>

    constructor ()
      ensures areas == map[]
    {
      areas := map[];
    }
  }

  ghost predicate Separate(chain: seq<Chunk>) {
    && (forall i :: 0 <= i < |chain| ==> chain[i].offset > 0)
    && (forall i, j :: 0 <= i < j < |chain| ==> Beside(chain[i], chain[j]))
  }

  ghost predicate ApartFrom(c: Chunk, chain: seq<Chunk>) {
    forall i :: 0 <= i < |chain| ==> Beside(c, chain[i])
  }

  ghost function First(chain: seq<Chunk>): nat {
    if chain == [] then 0 else chain[0].offset
  }

  ghost function Last(chain: seq<Chunk>): nat {
    if chain == [] then 0 else chain[|chain| - 1].offset
  }

  // The offset of the link that follows position i.
  ghost function NextOf(chain: seq<Chunk>, i: nat): nat
    requires i < |chain|
  {
    if i + 1 < |chain| then chain[i + 1].offset else 0
  }

  ghost predicate LinkedAt(areas: map<nat, Area>, chain: seq<Chunk>, i: nat)
    requires i < |chain|
  {
    && chain[i].offset in areas
    && areas[chain[i].offset].size == chain[i].size && areas[chain[i].offset].next == NextOf(chain, i)
  }

  // The headers link the areas of the chain one to the next and end with 0.
  ghost predicate Linked(areas: map<nat, Area>, chain: seq<Chunk>) {
    forall i :: 0 <= i < |chain| ==> LinkedAt(areas, chain, i)
  }

  // No other header differs.
  ghost predicate OnlyAt(before: map<nat, Area>, after: map<nat, Area>, changed: set<nat>) {
    forall o :: o in before && o !in changed ==> o in after && after[o] == before[o]
  }

  ghost function Offsets(chain: seq<Chunk>): set<nat> {
    set i | 0 <= i < |chain| :: chain[i].offset
  }

  ghost predicate NoneFits(chain: seq<Chunk>, size: nat, n: nat) {
    forall i :: 0 <= i < n && i < |chain| ==> chain[i].size < size
  }

  // What is left of an area when its front is taken.
  ghost function Rest(c: Chunk, size: nat): seq<Chunk> {
    if c.size > size then [Chunk(c.offset + size, c.size - size)] else []
  }

  ghost function Without(chain: seq<Chunk>, k: nat): seq<Chunk>
    requires k < |chain|
  {
    chain[..k] + chain[k + 1..]
  }

  // The chain after the front of area k was taken: the rest moves to the head.
  ghost function Taken(chain: seq<Chunk>, k: nat, size: nat): seq<Chunk>
    requires k < |chain|
  {
    Rest(chain[k], size) + Without(chain, k)
  }

  // The headers that change when the front of area k is taken.
  ghost function Touched(chain: seq<Chunk>, k: nat, size: nat): set<nat>
    requires k < |chain|
  {
    Offsets(chain) + if size < chain[k].size then {chain[k].offset + size} else {}
  }

  ghost function CutAt(whole: Chunk, size: nat): set<nat> {
    if size < whole.size then {whole.offset, whole.offset + size} else {}
  }

  // The tail is 0 only for the empty list.
  lemma {:induction false} SoleIsLast(chain: seq<Chunk>)
    requires Separate(chain)
    ensures Last(chain) == 0 <==> chain == []
  {
  }

  // ----- single changes to a chain

  lemma {:induction false} WithoutAt(chain: seq<Chunk>, k: nat, j: nat)
    requires k < |chain| && j < |Without(chain, k)|
    ensures |Without(chain, k)| == |chain| - 1
    ensures Without(chain, k)[j] == if j < k then chain[j] else chain[j + 1]
  {
  }

  // Leading a link past area k takes it out of the chain.
  lemma {:induction false} Unlinked(areas: map<nat, Area>, chain: seq<Chunk>, k: nat)
    requires Linked(areas, chain) && Separate(chain) && 0 < k < |chain|
    ensures chain[k - 1].offset in areas && Separate(Without(chain, k))
    ensures First(Without(chain, k)) == First(chain)
    ensures Last(Without(chain, k)) == if k == |chain| - 1 then chain[k - 1].offset else Last(chain)
    ensures Linked(areas[chain[k - 1].offset := areas[chain[k - 1].offset].(next := NextOf(chain, k))], Without(chain, k))
  {
    var rest := Without(chain, k);
    assert LinkedAt(areas, chain, k - 1);
    var after := areas[chain[k - 1].offset := areas[chain[k - 1].offset].(next := NextOf(chain, k))];
    forall j | 0 <= j < |rest|
      ensures LinkedAt(after, rest, j)
    {
      var i := if j < k then j else j + 1;
      assert LinkedAt(areas, chain, i);
      assert i < k - 1 ==> Beside(chain[i], chain[k - 1]);
      assert i > k - 1 ==> Beside(chain[k - 1], chain[i]);
    }
  }

  lemma {:induction false} Popped(areas: map<nat, Area>, chain: seq<Chunk>)
    requires Linked(areas, chain) && Separate(chain) && chain != []
    ensures Linked(areas, chain[1..]) && Separate(chain[1..])
    ensures chain[0].offset in areas && areas[chain[0].offset].next == First(chain[1..])
    ensures Last(chain[1..]) == if |chain| == 1 then 0 else Last(chain)
  {
    assert LinkedAt(areas, chain, 0);
    forall j | 0 <= j < |chain| - 1
      ensures LinkedAt(areas, chain[1..], j)
    {
      assert LinkedAt(areas, chain, j + 1);
    }
  }

  lemma {:induction false} Prepended(areas: map<nat, Area>, chain: seq<Chunk>, c: Chunk)
    requires Linked(areas, chain) && Separate(chain) && ApartFrom(c, chain) && c.offset > 0 && c.size < SIZE_LIMIT
    ensures Separate([c] + chain) && First([c] + chain) == c.offset
    ensures Last([c] + chain) == if chain == [] then c.offset else Last(chain)
    ensures Linked(areas[c.offset := Area(c.size, First(chain))], [c] + chain)
  {
    var after := areas[c.offset := Area(c.size, First(chain))];
    forall j | 0 <= j < |chain| + 1
      ensures LinkedAt(after, [c] + chain, j)
    {
      if j > 0 {
        assert LinkedAt(areas, chain, j - 1) && Beside(c, chain[j - 1]);
      }
    }
  }

  lemma {:induction false} Joined(areas: map<nat, Area>, chain: seq<Chunk>, other: seq<Chunk>)
    requires Linked(areas, chain) && Linked(areas, other) && chain != [] && other != []
    requires Separate(chain + other)
    ensures Last(chain) in areas && First(chain + other) == First(chain) && Last(chain + other) == Last(other)
    ensures Linked(areas[Last(chain) := areas[Last(chain)].(next := First(other))], chain + other)
  {
    var n := |chain|;
    var all := chain + other;
    assert LinkedAt(areas, chain, n - 1);
    var after := areas[Last(chain) := areas[Last(chain)].(next := First(other))];
    forall j | 0 <= j < |all|
      ensures LinkedAt(after, all, j)
    {
      assert j < n ==> LinkedAt(areas, chain, j);
      assert j >= n ==> LinkedAt(areas, other, j - n);
      assert j < n - 1 ==> Beside(all[j], all[n - 1]);
      assert j > n - 1 ==> Beside(all[n - 1], all[j]);
    }
  }

  // Headers that are not touched keep their chain.
  lemma {:induction false} StaysLinked(before: map<nat, Area>, after: map<nat, Area>, changed: set<nat>, chain: seq<Chunk>)
    requires Linked(before, chain) && OnlyAt(before, after, changed) && Offsets(chain) !! changed
    ensures Linked(after, chain)
  {
    forall i | 0 <= i < |chain|
      ensures LinkedAt(after, chain, i)
    {
      assert LinkedAt(before, chain, i) && chain[i].offset in Offsets(chain);
    }
  }

  // The rest of a split area is apart from whatever the area was apart from.
  lemma {:induction false} RestApart(chain: seq<Chunk>, k: nat, size: nat)
    requires Separate(chain) && k < |chain| && 0 < size < chain[k].size
    ensures ApartFrom(Chunk(chain[k].offset + size, chain[k].size - size), Without(chain, k))
    ensures Separate(Without(chain, k)) && forall i :: 0 <= i < |Without(chain, k)| ==> Without(chain, k)[i].offset != chain[k].offset
  {
    var rest := Without(chain, k);
    forall j | 0 <= j < |rest|
      ensures Beside(Chunk(chain[k].offset + size, chain[k].size - size), rest[j]) && rest[j].offset != chain[k].offset
    {
      WithoutAt(chain, k, j);
      assert if j < k then Beside(chain[j], chain[k]) else Beside(chain[k], chain[j + 1]);
    }
  }

  class AreaList {
    var buffers: seq<Ends>
    var active: nat
    ghost var chain: seq<Chunk>

    // The active buffer names the first and the last area of a chain that ends with 0.
    ghost predicate Valid(mem: Memory)
      reads this, mem
    {
      && |buffers| == 2 && active < 2
      && Separate(chain) && Linked(mem.areas, chain)
      && buffers[active] == Ends(First(chain), Last(chain))
    }

    constructor (mem: Memory)
      ensures Valid(mem) && chain == []
    {
      buffers, active, chain := [Ends(0, 0), Ends(0, 0)], 0, [];
    }

    method Init(mem: Memory)
      modifies this
      ensures Valid(mem) && chain == []
    {
      buffers, active, chain := [Ends(0, 0), Ends(0, 0)], 0, [];
    }

    function Head(): nat
      requires |buffers| == 2 && active < 2
      reads this
    {
      buffers[active].head
    }

    function Tail(): nat
      requires |buffers| == 2 && active < 2
      reads this
    {
      buffers[active].tail
    }

    // Fills the inactive buffer, then makes it the active one; the other buffer keeps its values.
    method AtomicSwitch(newHead: nat, newTail: nat)
      requires |buffers| == 2 && active < 2
      modifies `buffers, `active
      ensures |buffers| == 2 && active == 1 - old(active)
      ensures buffers[active] == Ends(newHead, newTail) && buffers[old(active)] == old(buffers[active])
    {
      var inactive := 1 - active;
      buffers := buffers[inactive := Ends(newHead, newTail)];
      active := inactive;
    }

    method Pop(mem: Memory) returns (area: nat)
      requires Valid(mem)
      modifies this
      ensures Valid(mem)
      ensures old(chain) == [] ==> area == 0 && chain == []
      ensures old(chain) != [] ==> area == old(chain)[0].offset && chain == old(chain)[1..]
      ensures old(chain) != [] ==> active == 1 - old(active) && buffers[old(active)] == old(buffers[active])
    {
      if Head() == 0 {
        return 0;
      }
      Popped(mem.areas, chain);
      area := Head();
      var newHead := mem.areas[area].next;
      var newTail := if newHead != 0 then Tail() else 0;
      AtomicSwitch(newHead, newTail);
      chain := chain[1..];
    }

    method Push(c: Chunk, mem: Memory)
      requires Valid(mem) && c.offset > 0 && c.size < SIZE_LIMIT && ApartFrom(c, chain)
      modifies this, mem
      ensures Valid(mem) && chain == [c] + old(chain)
      ensures OnlyAt(old(mem.areas), mem.areas, {c.offset})
      ensures active == 1 - old(active) && buffers[old(active)] == old(buffers[active])
    {
      Prepended(mem.areas, chain, c);
      mem.areas := mem.areas[c.offset := Area(c.size, Head())];
      var newTail := if Tail() != 0 then Tail() else c.offset;
      AtomicSwitch(c.offset, newTail);
      chain := [c] + chain;
    }

    // Takes the first area that is large enough, among the first ten, and puts what is left at the head.
    method FindAndRemove(size: nat, mem: Memory) returns (area: nat, ghost k: nat)
      requires Valid(mem) && size > 0
      modifies this, mem
      ensures Valid(mem)
      ensures area == 0 ==> NoneFits(chain, size, MAX_ITER) && chain == old(chain) && mem.areas == old(mem.areas)
      ensures area != 0 ==> k < MAX_ITER && k < |old(chain)| && NoneFits(old(chain), size, k) && old(chain)[k].size >= size
      ensures area != 0 ==> area == old(chain)[k].offset && chain == Taken(old(chain), k, size)
      ensures area != 0 ==> area in mem.areas && mem.areas[area].size == size
      ensures area != 0 ==> OnlyAt(old(mem.areas), mem.areas, Touched(old(chain), k, size))
    {
      var prev, cur, iter := 0, Head(), 0;
      k := 0;
      while cur != 0 && iter < MAX_ITER
        invariant iter <= |chain| && iter <= MAX_ITER && cur == First(chain[iter..])
        invariant prev == if iter == 0 then 0 else chain[iter - 1].offset
        invariant NoneFits(chain, size, iter)
        decreases MAX_ITER - iter
      {
        assert LinkedAt(mem.areas, chain, iter);
        if mem.areas[cur].size >= size {
          area, k := cur, iter;
          Remove(prev, cur, size, mem, k);
          return;
        }
        prev, cur, iter := cur, mem.areas[cur].next, iter + 1;
      }
      area := 0;
    }

    // Takes area k out of the list and cuts it to size.
    method Remove(prev: nat, cur: nat, size: nat, mem: Memory, ghost k: nat)
      requires Valid(mem) && k < |chain| && cur == chain[k].offset && 0 < size <= chain[k].size
      requires prev == if k == 0 then 0 else chain[k - 1].offset
      modifies this, mem
      ensures Valid(mem) && chain == Taken(old(chain), k, size)
      ensures cur in mem.areas && mem.areas[cur].size == size
      ensures OnlyAt(old(mem.areas), mem.areas, Touched(old(chain), k, size))
    {
      hide Linked, OnlyAt, Separate, Without, ApartFrom;
      assert chain[k].offset in Offsets(chain);
      var newHead, newTail := Unlink(prev, cur, mem, k);
      ghost var unlinked := mem.areas;
      if size < chain[k].size {
        RestApart(chain, k, size);
      }
      newHead, newTail := CutFront(cur, size, newHead, newTail, mem, Without(chain, k), chain[k]);
      OnlyAtTwice(old(mem.areas), unlinked, mem.areas, Offsets(chain), CutAt(chain[k], size), Touched(chain, k, size));
      AtomicSwitch(newHead, newTail);
      chain := Taken(chain, k, size);
    }

    // Cuts an area that was taken out to size; returns the new ends of the list.
    method CutFront(cur: nat, size: nat, head: nat, tail: nat, mem: Memory, ghost others: seq<Chunk>, ghost whole: Chunk)
      returns (newHead: nat, newTail: nat)
      requires Linked(mem.areas, others) && Separate(others) && head == First(others) && tail == Last(others)
      requires cur == whole.offset && cur in mem.areas && mem.areas[cur].size == whole.size && 0 < size <= whole.size
      requires size < whole.size ==> ApartFrom(Chunk(cur + size, whole.size - size), others)
      requires size < whole.size ==> forall i :: 0 <= i < |others| ==> others[i].offset != cur
      modifies mem
      ensures Linked(mem.areas, Rest(whole, size) + others) && Separate(Rest(whole, size) + others)
      ensures newHead == First(Rest(whole, size) + others) && newTail == Last(Rest(whole, size) + others)
      ensures cur in mem.areas && mem.areas[cur].size == size
      ensures OnlyAt(old(mem.areas), mem.areas, CutAt(whole, size))
    {
      hide Linked, OnlyAt, Separate, ApartFrom;
      newHead, newTail := head, tail;
      if mem.areas[cur].size > size {
        newHead := SplitFront(cur, size, newHead, mem, others, whole);
      } else {
        assert [] + others == others;
        OnlyAtSame(mem.areas, {});
      }
      SoleIsLast(others);
      if newTail == 0 && newHead != 0 {
        newTail := newHead;
      }
    }

    // What is left behind the front becomes the first area of the list.
    method SplitFront(cur: nat, size: nat, head: nat, mem: Memory, ghost others: seq<Chunk>, ghost whole: Chunk) returns (rest: nat)
      requires Linked(mem.areas, others) && Separate(others) && head == First(others)
      requires cur == whole.offset && cur in mem.areas && mem.areas[cur].size == whole.size && 0 < size < whole.size
      requires ApartFrom(Chunk(cur + size, whole.size - size), others)
      requires forall i :: 0 <= i < |others| ==> others[i].offset != cur
      modifies mem
      ensures rest == cur + size
      ensures Linked(mem.areas, [Chunk(rest, whole.size - size)] + others) && Separate([Chunk(rest, whole.size - size)] + others)
      ensures Last([Chunk(rest, whole.size - size)] + others) == if others == [] then rest else Last(others)
      ensures cur in mem.areas && mem.areas[cur].size == size
      ensures OnlyAt(old(mem.areas), mem.areas, {cur, rest})
    {
      rest := cur + size;
      var left := mem.areas[cur].size - size;
      Prepended(mem.areas, others, Chunk(rest, left));
      mem.areas := mem.areas[rest := Area(left, head)];
      SizeStaysOut(mem.areas, [Chunk(rest, left)] + others, cur, mem.areas[cur].(size := size));
      mem.areas := mem.areas[cur := mem.areas[cur].(size := size)];
    }

    // Leads the list past area k; returns its new ends.
    method Unlink(prev: nat, cur: nat, mem: Memory, ghost k: nat) returns (newHead: nat, newTail: nat)
      requires Valid(mem) && k < |chain| && cur == chain[k].offset
      requires prev == if k == 0 then 0 else chain[k - 1].offset
      modifies mem
      ensures Linked(mem.areas, Without(chain, k)) && Separate(Without(chain, k))
      ensures newHead == First(Without(chain, k)) && newTail == Last(Without(chain, k))
      ensures cur in mem.areas && mem.areas[cur].size == chain[k].size
      ensures OnlyAt(old(mem.areas), mem.areas, Offsets(chain))
    {
      newHead, newTail := Head(), Tail();
      assert LinkedAt(mem.areas, chain, k);
      LastOnce(chain, k);
      if prev != 0 {
        assert LinkedAt(mem.areas, chain, k - 1) && chain[k - 1].offset in Offsets(chain);
        assert Beside(chain[k - 1], chain[k]);
        Unlinked(mem.areas, chain, k);
        mem.areas := mem.areas[prev := mem.areas[prev].(next := mem.areas[cur].next)];
        if cur == Tail() {
          newTail := prev;
        }
      } else {
        Popped(mem.areas, chain);
        assert Without(chain, 0) == chain[1..];
        newHead := mem.areas[cur].next;
        if cur == Tail() {
          newTail := 0;
        }
      }
    }

    // Appends another chain.
    method Add(otherHead: nat, otherTail: nat, mem: Memory, ghost other: seq<Chunk>)
      requires Valid(mem) && Separate(chain + other) && Linked(mem.areas, other)
      requires otherHead == First(other) && otherTail == Last(other)
      modifies this, mem
      ensures Valid(mem) && chain == old(chain) + other
      ensures OnlyAt(old(mem.areas), mem.areas, Offsets(old(chain)))
    {
      SuffixSeparate(chain, other);
      if otherHead == 0 {
        assert other == [] && chain + other == chain;
        return;
      }
      if Head() == 0 {
        assert chain == [] && chain + other == other;
        AtomicSwitch(otherHead, otherTail);
      } else {
        Joined(mem.areas, chain, other);
        assert LinkedAt(mem.areas, chain, |chain| - 1) && Tail() in Offsets(chain);
        mem.areas := mem.areas[Tail() := mem.areas[Tail()].(next := otherHead)];
        AtomicSwitch(Head(), otherTail);
      }
      chain := chain + other;
    }
  }

  lemma {:induction false} LastOnce(chain: seq<Chunk>, k: nat)
    requires Separate(chain) && k < |chain|
    ensures chain[k].offset == Last(chain) <==> k == |chain| - 1
  {
    if k < |chain| - 1 {
      assert Beside(chain[k], chain[|chain| - 1]);
    }
  }

  lemma {:induction false} SuffixSeparate(chain: seq<Chunk>, other: seq<Chunk>)
    requires Separate(chain + other)
    ensures Separate(chain) && Separate(other)
  {
    var all, n := chain + other, |chain|;
    assert forall i :: 0 <= i < n ==> all[i] == chain[i];
    forall i | 0 <= i < |other|
      ensures other[i].offset > 0
    {
      assert all[n + i] == other[i];
    }
    forall i, j | 0 <= i < j < |other|
      ensures Beside(other[i], other[j])
    {
      assert Beside(all[n + i], all[n + j]);
    }
  }

  lemma {:induction false} SizeStaysOut(areas: map<nat, Area>, chain: seq<Chunk>, o: nat, a: Area)
    requires Linked(areas, chain) && forall i :: 0 <= i < |chain| ==> chain[i].offset != o
    ensures Linked(areas[o := a], chain)
  {
    var after := areas[o := a];
    forall i | 0 <= i < |chain|
      ensures LinkedAt(after, chain, i)
    {
      assert LinkedAt(areas, chain, i);
    }
  }

  lemma {:induction false} OnlyAtSame(a: map<nat, Area>, s: set<nat>)
    ensures OnlyAt(a, a, s)
  {
  }

  lemma {:induction false} OnlyAtMore(a: map<nat, Area>, b: map<nat, Area>, s: set<nat>, t: set<nat>)
    requires OnlyAt(a, b, s)
    ensures OnlyAt(a, b, s + t) && OnlyAt(a, b, t + s)
  {
  }

  lemma {:induction false} OnlyAtTwice(a: map<nat, Area>, b: map<nat, Area>, c: map<nat, Area>, s: set<nat>, t: set<nat>, u: set<nat>)
    requires OnlyAt(a, b, s) && OnlyAt(b, c, t) && s <= u && t <= u
    ensures OnlyAt(a, c, u)
  {
  }
}
