// The pool of free areas and the file it is cut from (memory/_memory.hpp, storage/_mmap.hpp).

module AreaPools {
  import opened Common
  import opened Tiling
  import opened AreaLists

  ghost function Elements(chain: seq<Chunk>): set<Chunk> {
    set i | 0 <= i < |chain| :: chain[i]
  }

  ghost predicate Sized(pieces: set<Chunk>, unit: nat)
    requires unit > 0
  {
    forall c :: c in pieces ==> c.size % unit == 0
  }

  // No area is in two places.
  ghost predicate InOnePlace(handed: set<Chunk>, single: seq<Chunk>, multi: seq<Chunk>) {
    && handed !! Elements(single) && handed !! Elements(multi)
    && Elements(single) !! Elements(multi)
  }

  ghost function All(handed: set<Chunk>, single: seq<Chunk>, multi: seq<Chunk>): set<Chunk> {
    handed + Elements(single) + Elements(multi)
  }

  function Max(a: nat, b: nat): nat {
    if a < b then b else a
  }

  // ----- moves of areas between the owners and the lists

  lemma {:induction false} ElementsWithout(chain: seq<Chunk>, k: nat)
    requires k < |chain| && Separate(chain)
    ensures Elements(chain) == Elements(Without(chain, k)) + {chain[k]} && chain[k] !in Elements(Without(chain, k))
  {
    var rest := Without(chain, k);
    forall j | 0 <= j < |rest|
      ensures rest[j] in Elements(chain) && rest[j] != chain[k]
    {
      WithoutAt(chain, k, j);
      assert if j < k then Beside(chain[j], chain[k]) else Beside(chain[k], chain[j + 1]);
    }
    forall i | 0 <= i < |chain| && i != k
      ensures chain[i] in Elements(rest)
    {
      WithoutAt(chain, k, if i < k then i else i - 1);
    }
  }

  lemma {:induction false} ElementsJoin(a: seq<Chunk>, b: seq<Chunk>)
    ensures Elements(a + b) == Elements(a) + Elements(b)
  {
    forall i | 0 <= i < |b|
      ensures b[i] in Elements(a + b)
    {
      assert (a + b)[|a| + i] == b[i];
    }
    forall i | 0 <= i < |a|
      ensures a[i] in Elements(a + b)
    {
      assert (a + b)[i] == a[i];
    }
  }

  // Two different pieces start at different offsets, and neither starts inside the other.
  lemma {:induction false} OffsetsApart(pieces: set<Chunk>, chain: seq<Chunk>, c: Chunk, o: nat)
    requires AllBeside(pieces) && Elements(chain) <= pieces && c in pieces && c !in Elements(chain) && (o == c.offset || In(o, c))
    ensures o !in Offsets(chain)
  {
    forall i | 0 <= i < |chain|
      ensures chain[i].offset != o
    {
      assert chain[i] in Elements(chain);
      assert Beside(chain[i], c);
    }
  }

  lemma {:induction false} ChainsApart(pieces: set<Chunk>, a: seq<Chunk>, b: seq<Chunk>)
    requires AllBeside(pieces) && Elements(a) <= pieces && Elements(b) <= pieces && Elements(a) !! Elements(b)
    ensures Offsets(a) !! Offsets(b)
  {
    forall i | 0 <= i < |b|
      ensures b[i].offset !in Offsets(a)
    {
      assert b[i] in Elements(b);
      OffsetsApart(pieces, a, b[i], b[i].offset);
    }
  }

  // The front of a free area goes to an owner, what is left stays in the list.
  lemma {:induction false} FrontTaken(handed: set<Chunk>, single: seq<Chunk>, multi: seq<Chunk>, lost: set<Chunk>,
                                      k: nat, size: nat, lo: nat, hi: nat)
    requires Fills(All(handed, single, multi), lost, lo, hi) && InOnePlace(handed, single, multi)
    requires Separate(multi) && k < |multi| && 0 < size <= multi[k].size
    ensures var c := Chunk(multi[k].offset, size);
      && c !in handed
      && Fills(All(handed + {c}, single, Taken(multi, k, size)), lost, lo, hi)
      && InOnePlace(handed + {c}, single, Taken(multi, k, size))
  {
    var c := Chunk(multi[k].offset, size);
    var rest := Without(multi, k);
    var whole := All(handed, single, multi);
    ElementsWithout(multi, k);
    ElementsJoin(Rest(multi[k], size), rest);
    if multi[k].size == size {
      assert Elements(Rest(multi[k], size)) == {};
      assert All(handed + {c}, single, Taken(multi, k, size)) == whole;
    } else {
      var e := Chunk(multi[k].offset + size, multi[k].size - size);
      assert Rest(multi[k], size) == [e];
      assert Elements([e]) == {e} by { assert [e][0] == e; }
      SplitFills(whole, lost, lo, hi, multi[k], c, e);
      assert All(handed + {c}, single, Taken(multi, k, size)) == Split(whole, multi[k], c, e);
    }
  }

  lemma {:induction false} TakenElsewhere(pieces: set<Chunk>, multi: seq<Chunk>, k: nat, size: nat, chain: seq<Chunk>)
    requires AllBeside(pieces) && Elements(multi) <= pieces && Elements(chain) <= pieces
    requires Elements(multi) !! Elements(chain) && k < |multi| && 0 < size <= multi[k].size
    ensures Offsets(chain) !! Touched(multi, k, size)
  {
    assert multi[k] in Elements(multi);
    ChainsApart(pieces, chain, multi);
    if size < multi[k].size {
      OffsetsApart(pieces, chain, multi[k], multi[k].offset + size);
    }
  }

  lemma {:induction false} Rejoined(pieces: set<Chunk>, chain: seq<Chunk>, other: seq<Chunk>)
    requires AllBeside(pieces) && Elements(chain) <= pieces && Elements(other) <= pieces && Elements(chain) !! Elements(other)
    requires Separate(chain) && Separate(other)
    ensures Separate(chain + other)
  {
    forall i, j | 0 <= i < |chain| && 0 <= j < |other|
      ensures Beside(chain[i], other[j])
    {
      assert chain[i] in Elements(chain) && other[j] in Elements(other);
    }
  }

  // A chain given back is free again, and nothing else changes hands.
  lemma {:induction false} Returned(handed: set<Chunk>, single: seq<Chunk>, multi: seq<Chunk>, other: seq<Chunk>)
    requires InOnePlace(handed, single, multi) && Elements(other) <= handed
    ensures All(handed - Elements(other), single + other, multi) == All(handed, single, multi)
    ensures InOnePlace(handed - Elements(other), single + other, multi)
    ensures All(handed - Elements(other), single, multi + other) == All(handed, single, multi)
    ensures InOnePlace(handed - Elements(other), single, multi + other)
    ensures Elements(single + other) == Elements(single) + Elements(other)
  {
    ElementsJoin(single, other);
    ElementsJoin(multi, other);
  }

  lemma {:induction false} ReturnFits(handed: set<Chunk>, single: seq<Chunk>, multi: seq<Chunk>, other: seq<Chunk>,
                                      lost: set<Chunk>, lo: nat, hi: nat)
    requires Fills(All(handed, single, multi), lost, lo, hi) && InOnePlace(handed, single, multi) && Elements(other) <= handed
    requires Separate(single) && Separate(multi) && Separate(other)
    ensures Separate(single + other) && Separate(multi + other)
    ensures Offsets(multi) !! Offsets(single) && Offsets(single) !! Offsets(multi)
  {
    var pieces := All(handed, single, multi);
    Rejoined(pieces, single, other);
    Rejoined(pieces, multi, other);
    ChainsApart(pieces, multi, single);
  }

  lemma {:induction false} HeadLinked(areas: map<nat, Area>, chain: seq<Chunk>)
    requires Linked(areas, chain) && Separate(chain) && chain != []
    ensures chain[0].offset > 0 && chain[0].offset in areas && areas[chain[0].offset].size == chain[0].size
  {
    assert LinkedAt(areas, chain, 0);
  }

  lemma {:induction false} HeadTaken(handed: set<Chunk>, single: seq<Chunk>, multi: seq<Chunk>)
    requires InOnePlace(handed, single, multi) && Separate(single) && single != []
    ensures All(handed + {single[0]}, single[1..], multi) == All(handed, single, multi)
    ensures InOnePlace(handed + {single[0]}, single[1..], multi)
    ensures single[0] !in handed && single[0] in Elements(single) && Elements(single[1..]) <= Elements(single)
  {
    assert Without(single, 0) == single[1..];
    ElementsWithout(single, 0);
  }

  // A header of this size that is linked to nothing.
  ghost predicate Lone(areas: map<nat, Area>, o: nat, size: nat) {
    o in areas && areas[o].size == size && areas[o].next == 0
  }

  // The sizes an area may be counted in; AREA_SIZE is a power of two of at most 2 MiB.
  ghost predicate IsUnit(unit: nat) {
    0 < unit < SIZE_LIMIT && SIZE_LIMIT % unit == 0
  }

  // Cut to 32 bits, whole units stay whole units.
  lemma {:induction false} StoredUnits(size: nat, unit: nat)
    requires IsUnit(unit) && size % unit == 0
    ensures Stored(size) % unit == 0
  {
    var k, m, q := size / unit, SIZE_LIMIT / unit, size / SIZE_LIMIT;
    assert size == k * unit && SIZE_LIMIT == m * unit;
    assert Stored(size) == size - q * SIZE_LIMIT;
    assert q * (m * unit) == (q * m) * unit;
    assert Stored(size) == (k - q * m) * unit;
    UnitTimes(k - q * m, unit);
  }

  lemma {:induction false} UnitsLeft(a: nat, b: nat, unit: nat)
    requires unit > 0 && a % unit == 0 && b % unit == 0 && a <= b
    ensures (b - a) % unit == 0
  {
    var p, q := a / unit, b / unit;
    assert b - a == (q - p) * unit;
    UnitTimes(q - p, unit);
  }

  class AreaPool {
    const unit: nat
    const start: nat
    const capacity: nat
    const mem: Memory
    const single: AreaList
    const multi: AreaList
    var fileSize: nat
    ghost var handed: set<Chunk>
    ghost var lost: set<Chunk>

    ghost function Pieces(): set<Chunk>
      reads this, single, multi
    {
      All(handed, single.chain, multi.chain)
    }

    // Free and handed-out areas are disjoint, in whole units, and together with what no header accounts for
    // fill the file from its first area to its end.
    ghost predicate Valid()
      reads this, mem, single, multi
    {
      && single != multi && IsUnit(unit) && 0 < start <= fileSize
      && single.Valid(mem) && multi.Valid(mem)
      && Fills(Pieces(), lost, start, fileSize) && InOnePlace(handed, single.chain, multi.chain) && Sized(Pieces(), unit)
      && forall c :: c in Elements(single.chain) ==> c.size == unit
    }

    // The areas alone fill the file.
    ghost predicate Complete()
      reads this, single, multi
    {
      Spans(Pieces(), start, fileSize)
    }

    lemma {:induction false} CompleteIff()
      requires Valid()
      ensures Complete() <==> lost == {}
    {
      SpansIff(Pieces(), lost, start, fileSize);
    }

    constructor (unit: nat, start: nat, capacity: nat)
      requires IsUnit(unit) && start > 0
      ensures Valid() && handed == {} && lost == {} && fileSize == start
      ensures this.unit == unit && this.start == start && this.capacity == capacity
      ensures single.chain == [] && multi.chain == []
      ensures fresh(mem) && fresh(single) && fresh(multi)
    {
      this.unit, this.start, this.capacity := unit, start, capacity;
      var m := new Memory();
      mem := m;
      single := new AreaList(m);
      multi := new AreaList(m);
      fileSize := start;
      handed, lost := {}, {};
    }

    // An area of one unit from the lists; 0 when neither has one.
    method TakeSingle() returns (area: nat, ghost k: nat)
      requires Valid()
      modifies `handed, mem, single, multi
      ensures Valid()
      ensures area == 0 ==> handed == old(handed) && multi.chain == old(multi.chain)
      ensures area == 0 ==> old(single.chain) == [] && NoneFits(old(multi.chain), unit, MAX_ITER)
      ensures area != 0 ==> handed == old(handed) + {Chunk(area, unit)} && Chunk(area, unit) !in old(handed)
      ensures area != 0 ==> Lone(mem.areas, area, unit)
      ensures old(single.chain) != [] ==>
                area == old(single.chain)[0].offset && area != 0 && single.chain == old(single.chain)[1..] && multi.chain == old(multi.chain)
      ensures old(single.chain) == [] ==>
                single.chain == [] && (area != 0 ==> CutFrom(old(multi.chain), k, unit, Some(area), multi.chain))
    {
      hide Linked, Fills, Sized, InOnePlace, Separate, All, NoneFits;
      if single.chain != [] {
        HeadTaken(handed, single.chain, multi.chain);
        HeadLinked(mem.areas, single.chain);
      }
      k := 0;
      area := single.Pop(mem);
      if area == 0 {
        area, k := TakeMulti(unit);
      } else {
        ghost var c := old(single.chain)[0];
        handed := handed + {c};
        ClearNext(area, c);
      }
    }

    // An area of this size from the list of larger areas; 0 when none of the first ten is large enough.
    method TakeMulti(size: nat) returns (area: nat, ghost k: nat)
      requires Valid() && size > 0 && size % unit == 0
      modifies `handed, mem, multi
      ensures Valid() && single.chain == old(single.chain)
      ensures area == 0 ==> handed == old(handed) && multi.chain == old(multi.chain) && NoneFits(multi.chain, size, MAX_ITER)
      ensures area != 0 ==> handed == old(handed) + {Chunk(area, size)} && Chunk(area, size) !in old(handed)
      ensures area != 0 ==> size < SIZE_LIMIT && Lone(mem.areas, area, size)
      ensures area != 0 ==> CutFrom(old(multi.chain), k, size, Some(area), multi.chain)
    {
      area, k := multi.FindAndRemove(size, mem);
      if area != 0 {
        ghost var before := old(multi.chain);
        FrontTaken(handed, single.chain, before, lost, k, size, start, fileSize);
        TakenElsewhere(old(Pieces()), before, k, size, single.chain);
        StaysLinked(old(mem.areas), mem.areas, Touched(before, k, size), single.chain);
        TakenSized(handed, single.chain, before, k, size, unit);
        handed := handed + {Chunk(area, size)};
        ClearNext(area, Chunk(area, size));
      }
    }

    // Callers receive an area that is linked to nothing.
    method ClearNext(area: nat, ghost c: Chunk)
      requires Valid() && c in handed && c.offset == area && area in mem.areas
      modifies mem
      ensures Valid() && mem.areas == old(mem.areas)[area := Area(old(mem.areas[area].size), 0)]
    {
      SetNext(area, 0, c);
    }

    // The owner of an area links it into a list of its own.
    method SetNext(area: nat, next: nat, ghost c: Chunk)
      requires Valid() && c in handed && c.offset == area && area in mem.areas
      modifies mem
      ensures Valid() && mem.areas == old(mem.areas)[area := Area(old(mem.areas[area].size), next)]
    {
      OffsetsApart(Pieces(), single.chain, c, area);
      OffsetsApart(Pieces(), multi.chain, c, area);
      mem.areas := mem.areas[area := mem.areas[area].(next := next)];
      StaysLinked(old(mem.areas), mem.areas, {area}, single.chain);
      StaysLinked(old(mem.areas), mem.areas, {area}, multi.chain);
    }

    // Owners give back a chain of areas of one unit.
    method ReturnSingle(head: nat, tail: nat, ghost other: seq<Chunk>)
      requires Valid() && Linked(mem.areas, other) && Separate(other) && head == First(other) && tail == Last(other)
      requires Elements(other) <= handed && forall c :: c in Elements(other) ==> c.size == unit
      modifies `handed, mem, single
      ensures Valid() && handed == old(handed) - Elements(other) && Pieces() == old(Pieces())
      ensures single.chain == old(single.chain) + other && multi.chain == old(multi.chain)
    {
      hide Linked, Fills, Sized, InOnePlace, Separate, All, OnlyAt, Elements, Offsets, First, Last;
      ReturnFits(handed, single.chain, multi.chain, other, lost, start, fileSize);
      Returned(handed, single.chain, multi.chain, other);
      single.Add(head, tail, mem, other);
      StaysLinked(old(mem.areas), mem.areas, Offsets(old(single.chain)), multi.chain);
      handed := handed - Elements(other);
    }

    method ReturnMulti(head: nat, tail: nat, ghost other: seq<Chunk>)
      requires Valid() && Linked(mem.areas, other) && Separate(other) && head == First(other) && tail == Last(other)
      requires Elements(other) <= handed
      modifies `handed, mem, multi
      ensures Valid() && handed == old(handed) - Elements(other) && Pieces() == old(Pieces())
      ensures multi.chain == old(multi.chain) + other && single.chain == old(single.chain)
    {
      hide Linked, Fills, Sized, InOnePlace, Separate, All, OnlyAt, Elements, Offsets, First, Last;
      ReturnFits(handed, single.chain, multi.chain, other, lost, start, fileSize);
      Returned(handed, single.chain, multi.chain, other);
      multi.Add(head, tail, mem, other);
      StaysLinked(old(mem.areas), mem.areas, Offsets(old(multi.chain)), single.chain);
      handed := handed - Elements(other);
    }

    // Extends the file by at least ten units; what is not asked for goes to the pool.
    method ResizeFile(size: nat) returns (r: Option<nat>)
      requires Valid() && size > 0 && size % unit == 0
      modifies `handed, `lost, `fileSize, mem, multi
      ensures Valid() && single.chain == old(single.chain)
      ensures r.Some? && old(Complete()) ==>
                (Complete() <==> size < SIZE_LIMIT && Growth(size, old(fileSize), unit) - size < SIZE_LIMIT)
      ensures r.None? <==> old(fileSize) + Growth(size, old(fileSize), unit) > capacity
      ensures r.None? ==> handed == old(handed) && multi.chain == old(multi.chain) && fileSize == old(fileSize) && lost == old(lost)
      ensures r.Some? ==> r.value == old(fileSize) && Lone(mem.areas, r.value, Stored(size))
      ensures r.Some? ==> handed == old(handed) + {Chunk(r.value, Stored(size))} && Chunk(r.value, Stored(size)) !in old(handed)
      ensures r.Some? ==> multi.chain == FreeRest(size, old(fileSize), unit) + old(multi.chain)
      ensures r.Some? ==> fileSize == old(fileSize) + Growth(size, old(fileSize), unit)
      ensures r.Some? ==> lost == old(lost) + LostBy(size, old(fileSize), unit) && old(lost) !! LostBy(size, old(fileSize), unit)
    {
      hide Complete, Linked, Fills, Sized, InOnePlace, Separate, OnlyAt, Elements, Offsets, First, Last, Stored, All;
      CompleteIff();
      LosesIff(size, fileSize, unit);
      var growth := Growth(size, fileSize, unit);
      if fileSize + growth > capacity {
        return None;
      }
      var offset := fileSize;
      HandEnd(size);
      if growth > size {
        UnitsLeft(size, growth, unit);
        PushRest(growth - size, offset);
      } else {
        assert [] + multi.chain == multi.chain;
      }
      CompleteIff();
      r := Some(offset);
    }

    // An area at the end of the file goes to its owner.
    method HandEnd(size: nat)
      requires Valid() && size > 0 && size % unit == 0
      modifies `handed, `lost, `fileSize, mem
      ensures Valid() && fileSize == old(fileSize) + size && Lone(mem.areas, old(fileSize), Stored(size))
      ensures handed == old(handed) + {Chunk(old(fileSize), Stored(size))} && Chunk(old(fileSize), Stored(size)) !in old(handed)
      ensures lost == old(lost) + Unrecorded(old(fileSize), size) && old(lost) !! Unrecorded(old(fileSize), size)
    {
      hide Linked, Separate, Stored, Fills, Sized, All, InOnePlace, Offsets, Unrecorded, OnlyAt, ApartFrom;
      var offset := fileSize;
      ghost var c := Chunk(offset, Stored(size));
      EndGrows(handed, single.chain, multi.chain, lost, start, fileSize, size, unit);
      EndIsNew(handed, single.chain, multi.chain, c, lost + Unrecorded(offset, size), start, fileSize + size);
      fileSize := fileSize + size;
      mem.areas := mem.areas[offset := Area(Stored(size), 0)];
      OnlyAtOne(old(mem.areas), offset, Area(Stored(size), 0));
      handed, lost := handed + {c}, lost + Unrecorded(offset, size);
      StaysLinked(old(mem.areas), mem.areas, {offset}, single.chain);
      StaysLinked(old(mem.areas), mem.areas, {offset}, multi.chain);
    }

    // The end of the file goes to the pool; the pool reads its size from the header just written.
    method PushRest(size: nat, owned: nat)
      requires Valid() && size > 0 && size % unit == 0 && owned < fileSize && owned in mem.areas
      modifies `lost, `fileSize, mem, multi
      ensures Valid() && fileSize == old(fileSize) + size && single.chain == old(single.chain)
      ensures multi.chain == [Chunk(old(fileSize), Stored(size))] + old(multi.chain)
      ensures owned in mem.areas && mem.areas[owned] == old(mem.areas[owned])
      ensures lost == old(lost) + Unrecorded(old(fileSize), size) && old(lost) !! Unrecorded(old(fileSize), size)
    {
      hide Linked, Separate, Stored, Fills, Sized, All, InOnePlace, Offsets, Unrecorded, OnlyAt, ApartFrom;
      var offset := fileSize;
      ghost var c := Chunk(offset, Stored(size));
      EndGrows(handed, single.chain, multi.chain, lost, start, fileSize, size, unit);
      EndIsNew(handed, single.chain, multi.chain, c, lost + Unrecorded(offset, size), start, fileSize + size);
      mem.areas := mem.areas[offset := Area(Stored(size), 0)];
      OnlyAtOne(old(mem.areas), offset, Area(Stored(size), 0));
      StaysLinked(old(mem.areas), mem.areas, {offset}, single.chain);
      StaysLinked(old(mem.areas), mem.areas, {offset}, multi.chain);
      ghost var before := mem.areas;
      multi.Push(Chunk(offset, mem.areas[offset].size), mem);
      StaysLinked(before, mem.areas, {offset}, single.chain);
      OnlyAtElse(before, mem.areas, {offset}, owned);
      fileSize, lost := fileSize + size, lost + Unrecorded(offset, size);
    }

    method AllocSingle() returns (r: Option<nat>)
      requires Valid()
      modifies `handed, `lost, `fileSize, mem, single, multi
      ensures Valid()
      ensures r.None? ==> handed == old(handed)
      ensures r.Some? ==> handed == old(handed) + {Chunk(r.value, unit)} && Chunk(r.value, unit) !in old(handed)
      ensures r.Some? ==> Lone(mem.areas, r.value, unit)
      ensures old(single.chain) != [] ==>
                && r == Some(old(single.chain)[0].offset) && single.chain == old(single.chain)[1..] && multi.chain == old(multi.chain)
                && fileSize == old(fileSize) && lost == old(lost)
      ensures old(single.chain) == [] ==>
                single.chain == [] && CutOrGrown(unit, r, old(multi.chain), old(fileSize), old(lost))
    {
      hide Linked, Fills, Sized, InOnePlace, Separate, OnlyAt, Elements, Offsets, First, Last, NoneFits, LostBy, FreeRest, CutFrom, Complete, Lone, All;
      ghost var free := multi.chain;
      var area, k := TakeSingle();
      if area != 0 {
        CutFits(free, k, unit, Some(area), multi.chain);
        return Some(area);
      }
      OneUnit(unit);
      r := ResizeFile(unit);
    }

    // The area is the front of the first of ten free areas that is large enough, or the file has grown for it if it may.
    ghost predicate CutOrGrown(size: nat, r: Option<nat>, free: seq<Chunk>, oldSize: nat, oldLost: set<Chunk>)
      requires unit > 0
      reads this, multi
    {
      if !NoneFits(free, size, MAX_ITER) then
        && fileSize == oldSize && lost == oldLost
        && exists k: nat :: CutFrom(free, k, size, r, multi.chain)
      else if oldSize + Growth(size, oldSize, unit) > capacity then
        r == None && fileSize == oldSize && lost == oldLost && multi.chain == free
      else
        && r == Some(oldSize) && fileSize == oldSize + Growth(size, oldSize, unit)
        && multi.chain == FreeRest(size, oldSize, unit) + free
        && lost == oldLost + LostBy(size, oldSize, unit) && oldLost !! LostBy(size, oldSize, unit)
    }

    method AllocMulti(size: nat) returns (r: Option<nat>, ghost padded: nat)
      requires Valid() && size > 0
      modifies `handed, `lost, `fileSize, mem, multi
      ensures Valid() && single.chain == old(single.chain)
      ensures size <= padded < size + unit && padded % unit == 0
      ensures r.None? ==> handed == old(handed)
      ensures r.Some? ==> handed == old(handed) + {Chunk(r.value, Stored(padded))} && Chunk(r.value, Stored(padded)) !in old(handed)
      ensures r.Some? ==> Lone(mem.areas, r.value, Stored(padded))
      ensures CutOrGrown(padded, r, old(multi.chain), old(fileSize), old(lost))
    {
      hide Linked, Fills, Sized, InOnePlace, Separate, OnlyAt, Elements, Offsets, First, Last;
      var whole := RoundUp(size, unit);
      padded := whole;
      var area, k := TakeMulti(whole);
      if area != 0 {
        return Some(area), padded;
      }
      r := ResizeFile(whole);
    }
  }

  // Area k is the first that is large enough.
  ghost predicate CutFrom(before: seq<Chunk>, k: nat, size: nat, r: Option<nat>, after: seq<Chunk>) {
    && k < |before| && k < MAX_ITER && NoneFits(before, size, k) && before[k].size >= size
    && r == Some(before[k].offset) && after == Taken(before, k, size)
  }

  lemma {:induction false} CutFits(before: seq<Chunk>, k: nat, size: nat, r: Option<nat>, after: seq<Chunk>)
    ensures CutFrom(before, k, size, r, after) ==> !NoneFits(before, size, MAX_ITER)
  {
  }

  // What the pool keeps when the file grows for an area of this size.
  ghost function FreeRest(size: nat, fileSize: nat, unit: nat): seq<Chunk>
    requires unit > 0
  {
    var rest := Growth(size, fileSize, unit) - size;
    if rest > 0 then [Chunk(fileSize + size, Stored(rest))] else []
  }

  // What the headers of the area and of the rest do not account for.
  ghost function LostBy(size: nat, fileSize: nat, unit: nat): set<Chunk>
    requires unit > 0
  {
    Unrecorded(fileSize, size) + Unrecorded(fileSize + size, Growth(size, fileSize, unit) - size)
  }

  lemma {:induction false} LosesIff(size: nat, fileSize: nat, unit: nat)
    requires unit > 0
    ensures LostBy(size, fileSize, unit) == {} <==> size < SIZE_LIMIT && Growth(size, fileSize, unit) - size < SIZE_LIMIT
  {
    RecordedIff(fileSize, size);
    RecordedIff(fileSize + size, Growth(size, fileSize, unit) - size);
  }

  // What a piece at the end of the file, recorded with its stored size, does to the pool's pieces.
  lemma {:induction false} EndGrows(handed: set<Chunk>, single: seq<Chunk>, multi: seq<Chunk>, lost: set<Chunk>,
                                    lo: nat, hi: nat, size: nat, unit: nat)
    requires IsUnit(unit) && Fills(All(handed, single, multi), lost, lo, hi) && Sized(All(handed, single, multi), unit)
    requires lo <= hi && size > 0 && size % unit == 0
    ensures var c := Chunk(hi, Stored(size)); var pieces := All(handed, single, multi);
      && Fills(pieces + {c}, lost + Unrecorded(hi, size), lo, hi + size) && Sized(pieces + {c}, unit) && c !in pieces
    ensures lost !! Unrecorded(hi, size)
  {
    hide Stored, AllBeside, AllApart, Clear;
    RecordedIff(hi, size);
    StoredUnits(size, unit);
    GrowFills(All(handed, single, multi), lost, lo, hi, Stored(size), size);
  }

  // It can be handed out, or go to the pool.
  lemma {:induction false} EndIsNew(handed: set<Chunk>, single: seq<Chunk>, multi: seq<Chunk>, c: Chunk, lost: set<Chunk>, lo: nat, hi: nat)
    requires InOnePlace(handed, single, multi)
    requires Fills(All(handed, single, multi) + {c}, lost, lo, hi) && c !in All(handed, single, multi)
    ensures {c.offset} !! Offsets(single) && {c.offset} !! Offsets(multi) && ApartFrom(c, multi) && c !in handed
    ensures All(handed + {c}, single, multi) == All(handed, single, multi) + {c} && InOnePlace(handed + {c}, single, multi)
    ensures All(handed, single, [c] + multi) == All(handed, single, multi) + {c} && InOnePlace(handed, single, [c] + multi)
  {
    var pieces := All(handed, single, multi) + {c};
    OffsetsApart(pieces, single, c, c.offset);
    OffsetsApart(pieces, multi, c, c.offset);
    forall i | 0 <= i < |multi|
      ensures Beside(c, multi[i])
    {
      assert multi[i] in Elements(multi);
    }
    ElementsJoin([c], multi);
    assert Elements([c]) == {c} by { assert [c][0] == c; }
  }

  lemma {:induction false} OnlyAtOne(areas: map<nat, Area>, o: nat, a: Area)
    ensures OnlyAt(areas, areas[o := a], {o})
  {
  }

  lemma {:induction false} OnlyAtElse(before: map<nat, Area>, after: map<nat, Area>, changed: set<nat>, o: nat)
    requires OnlyAt(before, after, changed) && o in before && o !in changed
    ensures o in after && after[o] == before[o]
  {
  }

  lemma {:induction false} TakenSized(handed: set<Chunk>, single: seq<Chunk>, multi: seq<Chunk>, k: nat, size: nat, unit: nat)
    requires unit > 0 && Sized(All(handed, single, multi), unit) && k < |multi| && 0 < size <= multi[k].size && size % unit == 0
    requires Separate(multi)
    ensures Sized(All(handed + {Chunk(multi[k].offset, size)}, single, Taken(multi, k, size)), unit)
  {
    ElementsWithout(multi, k);
    ElementsJoin(Rest(multi[k], size), Without(multi, k));
    assert multi[k] in All(handed, single, multi);
    UnitsLeft(size, multi[k].size, unit);
  }

  lemma {:induction false} OneUnit(unit: nat)
    requires unit > 0
    ensures unit % unit == 0
  {
    UnitTimes(1, unit);
  }

  // By how much the file grows: a quarter of its size, but at least ten units and what is asked for.
  function Growth(size: nat, fileSize: nat, unit: nat): (r: nat)
    requires unit > 0
    ensures r >= size && r >= 10 * unit && 4 * r + 3 >= fileSize && r % unit == 0
    ensures r < size + unit || r < 11 * unit || 4 * r < fileSize + 4 * unit
  {
    RoundUp(Max(Max(size, 10 * unit), fileSize / 4), unit)
  }
}
