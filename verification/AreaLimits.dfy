// Where the 32-bit size in the header of an area is too small
// (core/_util.hpp, AreaSlice; memory/_memory.hpp, Area; storage/_mmap.hpp, resize_file).

module AreaLimits {
  import opened Common
  import opened Tiling
  import opened AreaLists
  import opened AreaPools
  import opened Scanning
  import opened Rebuild

  const MIB := 0x10_0000

  // Growing by a quarter for one more area loses space exactly from 16 GiB on.
  lemma {:induction false} GrowthLosesIff(fileSize: nat, unit: nat)
    requires IsUnit(unit) && 10 * unit <= SIZE_LIMIT
    ensures LostBy(unit, fileSize, unit) != {} <==> fileSize / 4 > SIZE_LIMIT
  {
    var n := Max(Max(unit, 10 * unit), fileSize / 4);
    LosesIff(unit, fileSize, unit);
    WholeUnitsAbove(SIZE_LIMIT, RoundUp(n, unit), unit);
  }

  lemma {:induction false} WholeUnitsAbove(a: nat, b: nat, unit: nat)
    requires unit > 0 && a % unit == 0 && b % unit == 0
    ensures b > a ==> b >= a + unit
  {
    if a < b < a + unit {
      UnitsLeft(a, b, unit);
    }
  }

  lemma {:induction false} GrowthIs(size: nat, fileSize: nat, unit: nat, g: nat)
    requires unit > 0 && g % unit == 0 && g >= size && g >= 10 * unit && g >= fileSize / 4
    requires g < size + unit || g < 11 * unit || g < fileSize / 4 + unit
    ensures Growth(size, fileSize, unit) == g
  {
    var r := Growth(size, fileSize, unit);
    WholeUnitsAbove(r, g, unit);
    WholeUnitsAbove(g, r, unit);
  }

  // What a pool without free areas does when asked for 4094 MiB: the file grows by just that.
  method AllocLarge(pool: AreaPool)
    requires pool.Valid() && pool.unit == 2 * MIB && pool.multi.chain == []
    requires pool.fileSize <= 16376 * MIB && pool.fileSize + 4094 * MIB <= pool.capacity
    modifies pool, pool.mem, pool.multi
    ensures pool.Valid() && pool.multi.chain == [] && pool.single.chain == old(pool.single.chain)
    ensures pool.fileSize == old(pool.fileSize) + 4094 * MIB && pool.lost == old(pool.lost)
  {
    hide AreaPool.Valid;
    GrowthIs(4094 * MIB, pool.fileSize, 2 * MIB, 4094 * MIB);
    LosesIff(4094 * MIB, pool.fileSize, 2 * MIB);
    var r, padded := pool.AllocMulti(4094 * MIB);
    WholeUnitsAbove(4094 * MIB, padded, 2 * MIB);
    assert padded == 4094 * MIB;
  }

  // A quarter of the file is little more than 4094 MiB: all but one unit goes to the pool.
  method GrowByFour(pool: AreaPool)
    requires pool.Valid() && pool.unit == 2 * MIB && pool.multi.chain == [] && pool.single.chain == []
    requires pool.fileSize == 16378 * MIB && pool.capacity == 65536 * MIB
    modifies pool, pool.mem, pool.single, pool.multi
    ensures pool.Valid() && pool.multi.chain == [Chunk(16380 * MIB, 4094 * MIB)] && pool.single.chain == []
    ensures pool.fileSize == 20474 * MIB && pool.lost == old(pool.lost)
  {
    hide AreaPool.Valid;
    GrowthIs(2 * MIB, pool.fileSize, 2 * MIB, 4096 * MIB);
    LosesIff(2 * MIB, pool.fileSize, 2 * MIB);
    var r := pool.AllocSingle();
  }

  // The pool's only area is taken whole.
  method TakeAll(pool: AreaPool)
    requires pool.Valid() && pool.unit == 2 * MIB && pool.single.chain == []
    requires |pool.multi.chain| == 1 && pool.multi.chain[0].size == 4094 * MIB
    modifies pool, pool.mem, pool.multi
    ensures pool.Valid() && pool.multi.chain == [] && pool.single.chain == []
    ensures pool.fileSize == old(pool.fileSize) && pool.lost == old(pool.lost)
  {
    hide AreaPool.Valid, LostBy, FreeRest;
    ghost var free := pool.multi.chain;
    var r, padded := pool.AllocMulti(4094 * MIB);
    WholeUnitsAbove(4094 * MIB, padded, 2 * MIB);
    assert !NoneFits(free, padded, MAX_ITER) by { assert free[0].size >= padded; }
    ghost var k: nat :| CutFrom(free, k, padded, r, pool.multi.chain);
    assert k == 0;
  }

  // A quarter of the file is 5118.5 MiB: the header of the rest holds 1022 MiB of 5118.
  method GrowByFive(pool: AreaPool)
    requires pool.Valid() && pool.unit == 2 * MIB && pool.multi.chain == [] && pool.single.chain == []
    requires pool.fileSize == 20474 * MIB && pool.capacity == 65536 * MIB
    modifies pool, pool.mem, pool.single, pool.multi
    ensures pool.Valid() && pool.fileSize == 25594 * MIB
    ensures pool.multi.chain == [Chunk(20476 * MIB, 1022 * MIB)]
    ensures pool.lost == old(pool.lost) + {Chunk(21498 * MIB, 4096 * MIB)}
  {
    hide AreaPool.Valid;
    GrowthIs(2 * MIB, pool.fileSize, 2 * MIB, 5120 * MIB);
    var r := pool.AllocSingle();
    assert Stored(5118 * MIB) == 1022 * MIB;
  }

  // Areas of 4094 MiB up to more than 16 GiB, two of one unit, and 4 GiB are gone.
  method RunLosesSpace() returns (pool: AreaPool)
    ensures fresh(pool) && pool.Valid() && !pool.Complete()
    ensures pool.fileSize == 25594 * MIB && pool.lost == {Chunk(21498 * MIB, 4096 * MIB)}
  {
    hide AreaPool.Valid, AreaPool.Complete, AreaPool.Pieces;
    pool := new AreaPool(2 * MIB, 2 * MIB, 65536 * MIB);
    var i := 0;
    while i < 4
      invariant 0 <= i <= 4 && fresh(pool) && fresh(pool.mem) && fresh(pool.single) && fresh(pool.multi)
      invariant pool.Valid() && pool.unit == 2 * MIB && pool.capacity == 65536 * MIB
      invariant pool.fileSize == 2 * MIB + i * 4094 * MIB && pool.multi.chain == [] && pool.single.chain == [] && pool.lost == {}
    {
      AllocLarge(pool);
      i := i + 1;
    }
    GrowByFour(pool);
    TakeAll(pool);
    GrowByFive(pool);
    assert Chunk(21498 * MIB, 4096 * MIB) in pool.lost;
    pool.CompleteIff();
  }

  lemma {:induction false} OneRun(r: Run)
    requires MaxRun(seq(2048, i => true), r)
    ensures r == Run(0, 2048)
  {
    RunsApart(seq(2048, i => true), r, Run(0, 2048), r.start);
  }

  lemma {:induction false} OnlyTheWholeRun(ones: seq<Run>, many: seq<Run>)
    requires Found(seq(2048, i => true), ones, many, 2049)
    ensures ones == [] && Run(0, 2048) in many && forall r :: r in many ==> r == Run(0, 2048)
  {
    assert MaxRun(seq(2048, i => true), Run(0, 2048));
    if ones != [] {
      OneRun(ones[0]);
      assert false;
    }
    forall r | r in many
      ensures r == Run(0, 2048)
    {
      OneRun(r);
    }
  }

  lemma {:induction false} RearOf(c: Chunk)
    ensures Rears({c}) == Unrecorded(c.offset, c.size)
  {
  }

  lemma {:induction false} OneStretch(many: seq<Run>, r: Run, first: nat, unit: nat)
    requires r in many && forall s :: s in many ==> s == r
    ensures Stretches(many, first, unit) == {ToChunk(first, unit, r)} && Stretches([], first, unit) == {}
  {
  }

  // A rebuild that finds 4 GiB free in one run writes the size 0 to its header, and all of it is gone.
  lemma {:induction false} FreeFileLost(ones: seq<Run>, many: seq<Run>)
    requires Found(seq(2048, i => true), ones, many, 2049)
    ensures LostRuns(ones, many, 2 * MIB, 2 * MIB) == {Chunk(2 * MIB, 4096 * MIB)}
    ensures ones == [] && forall i :: 0 <= i < |many| ==> ToChunks(2 * MIB, 2 * MIB, many)[i] == Chunk(2 * MIB, 0)
  {
    hide Found, MaxRun, Stretches, Rears, Unrecorded;
    OnlyTheWholeRun(ones, many);
    OneStretch(many, Run(0, 2048), 2 * MIB, 2 * MIB);
    var c := ToChunk(2 * MIB, 2 * MIB, Run(0, 2048));
    assert c == Chunk(2 * MIB, 4096 * MIB);
    assert {} + {c} == {c};
    RearOf(c);
    NoneRecorded(2 * MIB, 4096 * MIB);
    forall i | 0 <= i < |many|
      ensures ToChunks(2 * MIB, 2 * MIB, many)[i] == Chunk(2 * MIB, 0)
    {
      assert many[i] in many;
    }
  }

  lemma {:induction false} NoneRecorded(offset: nat, size: nat)
    requires size == 4096 * MIB
    ensures Stored(size) == 0 && Unrecorded(offset, size) == {Chunk(offset, size)}
  {
  }
}
