// The rebuild as a whole: what is in use and the new free areas together fill the file
// (memory/_memory.hpp, _recover_areas).

module Rebuild {
  import opened Tiling
  import opened AreaLists
  import opened AreaPools
  import opened Recovery
  import opened Scanning

  ghost predicate Aligned(c: Chunk, first: nat, fileSize: nat, unit: nat)
    requires unit > 0
  {
    && first <= c.offset && (c.offset - first) % unit == 0 && c.offset + c.size <= fileSize
    && 0 < c.size && c.size % unit == 0
  }

  ghost predicate AllAligned(cs: seq<Chunk>, first: nat, fileSize: nat, unit: nat)
    requires unit > 0
  {
    forall i :: 0 <= i < |cs| ==> Aligned(cs[i], first, fileSize, unit)
  }

  // Address a lies in block b.
  ghost predicate InBlock(a: nat, b: nat, first: nat, unit: nat) {
    first + b * unit <= a < first + b * unit + unit
  }

  lemma {:induction false} BlockOf(a: nat, first: nat, unit: nat) returns (b: nat)
    requires unit > 0 && first <= a
    ensures InBlock(a, b, first, unit)
  {
    b := (a - first) / unit;
    assert a - first == b * unit + (a - first) % unit;
  }

  // ----- blocks and addresses

  lemma {:induction false} BlocksForm(start: nat, size: nat, unit: nat, o: nat) returns (j: nat)
    requires unit > 0 && o in Blocks(start, size, unit)
    ensures o == start + j * unit && j * unit < size
    decreases size
  {
    if o == start {
      j := 0;
    } else {
      var k := BlocksForm(start + unit, size - unit, unit, o);
      j := k + 1;
      assert j * unit == k * unit + unit;
    }
  }

  lemma {:induction false} BlocksHas(start: nat, size: nat, unit: nat, j: nat)
    requires unit > 0 && j * unit < size
    ensures start + j * unit in Blocks(start, size, unit)
    decreases j
  {
    if j > 0 {
      assert j * unit == (j - 1) * unit + unit;
      TimesPositive(j - 1, unit);
      BlocksHas(start + unit, size - unit, unit, j - 1);
    }
  }

  lemma {:induction false} TimesMinus(b: nat, p: nat, unit: nat)
    requires p <= b
    ensures (b - p) * unit == b * unit - p * unit
  {
  }

  lemma {:induction false} BlockInside(c: Chunk, first: nat, unit: nat, p: nat, a: nat, b: nat)
    requires unit > 0 && c.offset == first + p * unit && InBlock(a, b, first, unit) && In(a, c)
    ensures p <= b && (b - p) * unit < c.size && first + b * unit == c.offset + (b - p) * unit
  {
    if b < p {
      TimesLess(b, p, unit);
    } else {
      TimesMinus(b, p, unit);
    }
  }

  lemma {:induction false} BlockCovers(c: Chunk, first: nat, unit: nat, q: nat, j: nat, a: nat, b: nat)
    requires unit > 0 && c.size == q * unit && InBlock(a, b, first, unit)
    requires first + b * unit == c.offset + j * unit && j * unit < c.size
    ensures In(a, c)
  {
    TimesPositive(j, unit);
    if q < j {
      TimesLess(q, j, unit);
    } else if j < q {
      TimesLess(j, q, unit);
    }
  }

  // An area of whole blocks holds an address exactly if the address's block is among its blocks.
  lemma {:induction false} BlockMarked(c: Chunk, first: nat, fileSize: nat, unit: nat, a: nat, b: nat)
    requires unit > 0 && Aligned(c, first, fileSize, unit) && InBlock(a, b, first, unit)
    ensures In(a, c) <==> first + b * unit in Blocks(c.offset, c.size, unit)
  {
    hide InBlock, Blocks;
    var p, q := (c.offset - first) / unit, c.size / unit;
    assert c.offset == first + p * unit && c.size == q * unit;
    if In(a, c) {
      BlockInside(c, first, unit, p, a, b);
      BlocksHas(c.offset, c.size, unit, b - p);
    }
    if first + b * unit in Blocks(c.offset, c.size, unit) {
      var j := BlocksForm(c.offset, c.size, unit, first + b * unit);
      BlockCovers(c, first, unit, q, j, a, b);
    }
  }

  lemma {:induction false} InRun(first: nat, unit: nat, r: Run, a: nat, b: nat)
    requires unit > 0 && InBlock(a, b, first, unit)
    ensures In(a, ToChunk(first, unit, r)) <==> Within(b, r)
  {
    assert (r.start + r.blocks) * unit == r.start * unit + r.blocks * unit;
    if b < r.start { TimesLess(b, r.start, unit); }
    if b > r.start { TimesLess(r.start, b, unit); }
    if b < r.start + r.blocks { TimesLess(b, r.start + r.blocks, unit); }
    if b > r.start + r.blocks { TimesLess(r.start + r.blocks, b, unit); }
  }

  // ----- areas in use and free areas

  // What is known of the file once it has been scanned.
  ghost predicate Scanned(inUse: seq<Chunk>, free: seq<bool>, ones: seq<Run>, many: seq<Run>, first: nat, fileSize: nat, unit: nat)
  {
    && IsUnit(unit) && 0 < first <= fileSize && (fileSize - first) % unit == 0
    && Separate(inUse) && AllAligned(inUse, first, fileSize, unit)
    && CountsBlocks(free, first, fileSize, unit) && Frees(free, first, unit, ChainBlocks(inUse, unit))
    && Found(free, ones, many, |free| + 1) && NoSharedStart(ones, many)
  }

  ghost predicate InUseAt(inUse: seq<Chunk>, a: nat) {
    exists i :: 0 <= i < |inUse| && In(a, inUse[i])
  }

  lemma {:induction false} InUseIsMarked(inUse: seq<Chunk>, first: nat, fileSize: nat, unit: nat, a: nat, b: nat)
    requires unit > 0 && AllAligned(inUse, first, fileSize, unit) && InBlock(a, b, first, unit)
    ensures InUseAt(inUse, a) <==> first + b * unit in ChainBlocks(inUse, unit)
  {
    ChainBlocksIn(inUse, unit, first + b * unit);
    forall i | 0 <= i < |inUse|
      ensures In(a, inUse[i]) <==> first + b * unit in Blocks(inUse[i].offset, inUse[i].size, unit)
    {
      BlockMarked(inUse[i], first, fileSize, unit, a, b);
    }
  }

  lemma {:induction false} WholeBlocks(free: seq<bool>, first: nat, fileSize: nat, unit: nat)
    requires unit > 0 && first <= fileSize && (fileSize - first) % unit == 0 && CountsBlocks(free, first, fileSize, unit)
    ensures fileSize == first + |free| * unit
  {
    var n := (fileSize - first) / unit;
    assert fileSize == first + n * unit;
    if n < |free| { TimesLess(n, |free|, unit); }
    if n > |free| { if n > |free| + 1 { TimesLess(|free| + 1, n, unit); } }
  }

  // No address of a free run is in use.
  lemma {:induction false} RunIsFree(inUse: seq<Chunk>, free: seq<bool>, ones: seq<Run>, many: seq<Run>, first: nat, fileSize: nat, unit: nat,
                                     r: Run, a: nat)
    requires Scanned(inUse, free, ones, many, first, fileSize, unit) && MaxRun(free, r) && In(a, ToChunk(first, unit, r))
    ensures !InUseAt(inUse, a) && first <= a < fileSize
  {
    hide MaxRun, Frees, CountsBlocks, Found, Separate, AllAligned, InUseAt, NoSharedStart;
    TimesPositive(r.start, unit);
    var b := BlockOf(a, first, unit);
    InRun(first, unit, r, a, b);
    FreeBlock(free, r, b, first, unit, ChainBlocks(inUse, unit));
    InUseIsMarked(inUse, first, fileSize, unit, a, b);
    WholeBlocks(free, first, fileSize, unit);
    TimesLess(b, |free|, unit);
  }

  lemma {:induction false} FreeBlock(free: seq<bool>, r: Run, b: nat, first: nat, unit: nat, occupied: set<nat>)
    requires MaxRun(free, r) && Within(b, r) && Frees(free, first, unit, occupied)
    ensures b < |free| && first + b * unit !in occupied
  {
    assert free[b];
  }

  lemma {:induction false} RunsMeet(free: seq<bool>, first: nat, unit: nat, r: Run, s: Run, a: nat)
    requires unit > 0 && MaxRun(free, r) && MaxRun(free, s) && In(a, ToChunk(first, unit, r)) && In(a, ToChunk(first, unit, s))
    ensures r == s
  {
    TimesPositive(r.start, unit);
    var b := BlockOf(a, first, unit);
    InRun(first, unit, r, a, b);
    InRun(first, unit, s, a, b);
    RunsApart(free, r, s, b);
  }

  // Every address of the file is in use or in a listed run.
  lemma {:induction false} EveryAddress(inUse: seq<Chunk>, free: seq<bool>, ones: seq<Run>, many: seq<Run>, first: nat, fileSize: nat, unit: nat,
                                        a: nat)
    requires Scanned(inUse, free, ones, many, first, fileSize, unit) && first <= a < fileSize
    ensures InUseAt(inUse, a) || exists r :: (r in ones || r in many) && In(a, ToChunk(first, unit, r))
  {
    var b := BlockOf(a, first, unit);
    InUseIsMarked(inUse, first, fileSize, unit, a, b);
    WholeBlocks(free, first, fileSize, unit);
    if b >= |free| { if b > |free| { TimesLess(|free|, b, unit); } }
    if free[b] {
      var r := RunAround(free, b);
      InRun(first, unit, r, a, b);
      assert r in ones || r in many;
    }
  }

  // Two pieces of the file overlap only if they are the same piece.
  lemma {:induction false} MeetOnce(inUse: seq<Chunk>, free: seq<bool>, ones: seq<Run>, many: seq<Run>, first: nat, fileSize: nat, unit: nat,
                                    c: Chunk, d: Chunk, a: nat)
    requires Scanned(inUse, free, ones, many, first, fileSize, unit) && In(a, c) && In(a, d)
    requires c in inUse || exists r :: MaxRun(free, r) && c == ToChunk(first, unit, r)
    requires d in inUse || exists r :: MaxRun(free, r) && d == ToChunk(first, unit, r)
    ensures c == d && (c in inUse <==> d in inUse)
  {
    if c in inUse || d in inUse {
      assert InUseAt(inUse, a);
      if c !in inUse {
        var r :| MaxRun(free, r) && c == ToChunk(first, unit, r);
        RunIsFree(inUse, free, ones, many, first, fileSize, unit, r, a);
      } else if d !in inUse {
        var r :| MaxRun(free, r) && d == ToChunk(first, unit, r);
        RunIsFree(inUse, free, ones, many, first, fileSize, unit, r, a);
      } else {
        var i :| 0 <= i < |inUse| && inUse[i] == c;
        var j :| 0 <= j < |inUse| && inUse[j] == d;
        assert i < j ==> Beside(inUse[i], inUse[j]);
        assert j < i ==> Beside(inUse[j], inUse[i]);
      }
    } else {
      var r :| MaxRun(free, r) && c == ToChunk(first, unit, r);
      var s :| MaxRun(free, s) && d == ToChunk(first, unit, s);
      RunsMeet(free, first, unit, r, s, a);
    }
  }

  ghost function Stretches(rs: seq<Run>, first: nat, unit: nat): set<Chunk> {
    set r | r in rs :: ToChunk(first, unit, r)
  }

  // What is in use, and the free runs with all their blocks.
  ghost function Extents(inUse: seq<Chunk>, ones: seq<Run>, many: seq<Run>, first: nat, unit: nat): set<Chunk> {
    Elements(inUse) + Stretches(ones, first, unit) + Stretches(many, first, unit)
  }

  ghost predicate IsExtent(inUse: seq<Chunk>, free: seq<bool>, first: nat, unit: nat, c: Chunk) {
    c in inUse || exists r :: MaxRun(free, r) && c == ToChunk(first, unit, r)
  }

  lemma {:induction false} ExtentKinds(inUse: seq<Chunk>, free: seq<bool>, ones: seq<Run>, many: seq<Run>, first: nat, fileSize: nat, unit: nat,
                                       c: Chunk)
    requires Scanned(inUse, free, ones, many, first, fileSize, unit) && c in Extents(inUse, ones, many, first, unit)
    ensures IsExtent(inUse, free, first, unit, c) && c.size > 0 && c.size % unit == 0
  {
    if c !in inUse {
      var r :| (r in ones || r in many) && c == ToChunk(first, unit, r);
      assert MaxRun(free, r);
      TimesLess(0, r.blocks, unit);
      UnitTimes(r.blocks, unit);
    }
  }

  // Areas in use and free runs fill the file.
  lemma {:induction false} ExtentsSpan(inUse: seq<Chunk>, free: seq<bool>, ones: seq<Run>, many: seq<Run>, first: nat, fileSize: nat, unit: nat)
    requires Scanned(inUse, free, ones, many, first, fileSize, unit)
    ensures Spans(Extents(inUse, ones, many, first, unit), first, fileSize)
    ensures forall c :: c in Extents(inUse, ones, many, first, unit) ==> c.size % unit == 0
  {
    var extents := Extents(inUse, ones, many, first, unit);
    forall c | c in extents
      ensures IsExtent(inUse, free, first, unit, c) && c.size > 0 && c.size % unit == 0
    {
      ExtentKinds(inUse, free, ones, many, first, fileSize, unit, c);
    }
    forall c, d | c in extents && d in extents && c != d
      ensures Apart(c, d)
    {
      if !Apart(c, d) {
        var a := if c.offset < d.offset then d.offset else c.offset;
        assert In(a, c) && In(a, d);
        MeetOnce(inUse, free, ones, many, first, fileSize, unit, c, d, a);
      }
    }
    forall a: nat
      ensures Covered(a, extents) <==> first <= a < fileSize
    {
      CoveredWhere(inUse, free, ones, many, first, fileSize, unit, a);
    }
  }

  lemma {:induction false} CoveredWhere(inUse: seq<Chunk>, free: seq<bool>, ones: seq<Run>, many: seq<Run>, first: nat, fileSize: nat, unit: nat,
                                        a: nat)
    requires Scanned(inUse, free, ones, many, first, fileSize, unit)
    ensures Covered(a, Extents(inUse, ones, many, first, unit)) <==> first <= a < fileSize
  {
    var extents := Extents(inUse, ones, many, first, unit);
    if Covered(a, extents) {
      var c :| c in extents && In(a, c);
      ExtentKinds(inUse, free, ones, many, first, fileSize, unit, c);
      if c in inUse {
        var i :| 0 <= i < |inUse| && inUse[i] == c;
        assert Aligned(inUse[i], first, fileSize, unit);
      } else {
        var r :| MaxRun(free, r) && c == ToChunk(first, unit, r);
        RunIsFree(inUse, free, ones, many, first, fileSize, unit, r, a);
      }
    }
    if first <= a < fileSize {
      EveryAddress(inUse, free, ones, many, first, fileSize, unit, a);
      if InUseAt(inUse, a) {
        var i :| 0 <= i < |inUse| && In(a, inUse[i]);
        assert inUse[i] in extents;
      } else {
        var r :| (r in ones || r in many) && In(a, ToChunk(first, unit, r));
        assert ToChunk(first, unit, r) in extents;
      }
    }
  }

  // ----- free runs as their headers describe them

  ghost function Fronts(runs: set<Chunk>): set<Chunk> {
    set c | c in runs :: Recorded(c)
  }

  ghost function Rears(runs: set<Chunk>): set<Chunk> {
    set c, l | c in runs && l in Unrecorded(c.offset, c.size) :: l
  }

  // Each extent is an area in use, or the recorded front of a run with an unrecorded rear.
  ghost predicate PartOf(p: Chunk, e: Chunk) {
    0 < e.size && p.offset == e.offset && p.size <= e.size
  }

  lemma {:induction false} FrontOf(kept: set<Chunk>, runs: set<Chunk>, p: Chunk) returns (e: Chunk)
    requires AllApart(kept + runs) && p in kept + Fronts(runs)
    ensures e in kept + runs && PartOf(p, e) && (p == e || (e in runs && p == Recorded(e)))
  {
    if p in kept {
      e := p;
    } else {
      e :| e in runs && p == Recorded(e);
      RecordedIff(e.offset, e.size);
    }
  }

  lemma {:induction false} FrontsBeside(kept: set<Chunk>, runs: set<Chunk>, p: Chunk, q: Chunk)
    requires AllApart(kept + runs) && kept !! runs && p in kept + Fronts(runs) && q in kept + Fronts(runs) && p != q
    ensures Beside(p, q)
  {
    hide Stored;
    var e := FrontOf(kept, runs, p);
    var f := FrontOf(kept, runs, q);
    if e != f {
      assert Apart(e, f);
    }
  }

  lemma {:induction false} RearsApart(runs: set<Chunk>)
    requires AllApart(runs)
    ensures AllApart(Rears(runs))
  {
    hide Stored;
    var lost := Rears(runs);
    forall l, m | l in lost && m in lost && l != m
      ensures Apart(l, m)
    {
      var c :| c in runs && l in Unrecorded(c.offset, c.size);
      var d :| d in runs && m in Unrecorded(d.offset, d.size);
      assert c != d && Apart(c, d);
    }
  }

  lemma {:induction false} FrontsClear(kept: set<Chunk>, runs: set<Chunk>, p: Chunk, l: Chunk)
    requires AllApart(kept + runs) && kept !! runs && p in kept + Fronts(runs) && l in Rears(runs)
    ensures Apart(p, l) && p != l
  {
    hide Stored;
    var e := FrontOf(kept, runs, p);
    var c :| c in runs && l in Unrecorded(c.offset, c.size);
    if e != c {
      assert Apart(e, c);
    }
  }

  lemma {:induction false} CutCovers(kept: set<Chunk>, runs: set<Chunk>, a: nat)
    ensures Covered(a, kept + Fronts(runs)) || Covered(a, Rears(runs)) <==> Covered(a, kept + runs)
  {
    if Covered(a, kept + runs) {
      var c :| c in kept + runs && In(a, c);
      if c in kept {
        assert c in kept + Fronts(runs);
      } else {
        RecordedIff(c.offset, c.size);
        var rear := Chunk(c.offset + Stored(c.size), c.size - Stored(c.size));
        assert Recorded(c) in kept + Fronts(runs);
        assert In(a, Recorded(c)) || (In(a, rear) && rear in Rears(runs));
      }
    }
    if Covered(a, kept + Fronts(runs)) {
      var p :| p in kept + Fronts(runs) && In(a, p);
      if p !in kept {
        var c :| c in runs && p == Recorded(c);
        RecordedIff(c.offset, c.size);
        assert c in kept + runs && In(a, c);
      } else {
        assert p in kept + runs;
      }
    }
    if Covered(a, Rears(runs)) {
      var l :| l in Rears(runs) && In(a, l);
      var c :| c in runs && l in Unrecorded(c.offset, c.size);
      assert c in kept + runs && In(a, c);
    }
  }

  // Cutting the sizes of the runs to what headers hold loses just the rears.
  lemma {:induction false} CutFills(kept: set<Chunk>, runs: set<Chunk>, lo: nat, hi: nat)
    requires Spans(kept + runs, lo, hi) && kept !! runs
    ensures Fills(kept + Fronts(runs), Rears(runs), lo, hi)
  {
    hide Fronts, Rears;
    RearsApart(runs);
    forall p, q | p in kept + Fronts(runs) && q in kept + Fronts(runs) && p != q
      ensures Beside(p, q)
    {
      FrontsBeside(kept, runs, p, q);
    }
    forall p, l | p in kept + Fronts(runs) && l in Rears(runs)
      ensures Apart(p, l) && p != l
    {
      FrontsClear(kept, runs, p, l);
    }
    forall p | p in kept + Fronts(runs)
      ensures lo <= p.offset < hi
    {
      var e := FrontOf(kept, runs, p);
      assert In(e.offset, e);
      assert Covered(e.offset, kept + runs);
    }
    forall a: nat
      ensures Covered(a, kept + Fronts(runs)) || Covered(a, Rears(runs)) <==> lo <= a < hi
    {
      CutCovers(kept, runs, a);
    }
  }

  // The areas in use and the lists of the rebuilt pool.
  ghost function PiecesOf(inUse: seq<Chunk>, ones: seq<Run>, many: seq<Run>, first: nat, unit: nat): set<Chunk> {
    All(Elements(inUse), ToChunks(first, unit, ones), ToChunks(first, unit, many))
  }

  // What the headers of the rebuilt free areas do not account for.
  ghost function LostRuns(ones: seq<Run>, many: seq<Run>, first: nat, unit: nat): set<Chunk> {
    Rears(Stretches(ones, first, unit) + Stretches(many, first, unit))
  }

  // No run of free blocks is too long for the header of an area.
  ghost predicate RunsFit(free: seq<bool>, unit: nat) {
    forall r :: MaxRun(free, r) ==> r.blocks * unit < SIZE_LIMIT
  }

  // The rebuilt pool together with what is in use fills the file but for the rears of overlong runs.
  lemma {:induction false} RebuiltFills(inUse: seq<Chunk>, free: seq<bool>, ones: seq<Run>, many: seq<Run>, first: nat, fileSize: nat, unit: nat)
    requires Scanned(inUse, free, ones, many, first, fileSize, unit)
    ensures Fills(PiecesOf(inUse, ones, many, first, unit), LostRuns(ones, many, first, unit), first, fileSize)
    ensures Sized(PiecesOf(inUse, ones, many, first, unit), unit)
    ensures LostRuns(ones, many, first, unit) == {} <==> RunsFit(free, unit)
  {
    hide Stored, Found, MaxRun, Frees, CountsBlocks, Separate, AllAligned, NoSharedStart, ToChunks, Spans, Fills;
    var runs := Stretches(ones, first, unit) + Stretches(many, first, unit);
    ExtentsSpan(inUse, free, ones, many, first, fileSize, unit);
    RunsNotInUse(inUse, free, ones, many, first, fileSize, unit);
    PiecesAreFronts(inUse, ones, many, first, unit);
    assert Extents(inUse, ones, many, first, unit) == Elements(inUse) + runs;
    CutFills(Elements(inUse), runs, first, fileSize);
    forall p | p in PiecesOf(inUse, ones, many, first, unit)
      ensures p.size % unit == 0
    {
      if p !in Elements(inUse) {
        var c :| c in runs && p == Recorded(c);
        StoredUnits(c.size, unit);
      }
    }
    NothingLostIff(free, ones, many, first, unit);
  }

  lemma {:induction false} PiecesAreFronts(inUse: seq<Chunk>, ones: seq<Run>, many: seq<Run>, first: nat, unit: nat)
    ensures PiecesOf(inUse, ones, many, first, unit)
         == Elements(inUse) + Fronts(Stretches(ones, first, unit) + Stretches(many, first, unit))
  {
    ListIsFronts(ones, first, unit);
    ListIsFronts(many, first, unit);
  }

  lemma {:induction false} ListIsFronts(rs: seq<Run>, first: nat, unit: nat)
    ensures Elements(ToChunks(first, unit, rs)) == Fronts(Stretches(rs, first, unit))
  {
    forall r | r in rs
      ensures Recorded(ToChunk(first, unit, r)) in Elements(ToChunks(first, unit, rs))
    {
      ChunkListed(first, unit, rs, r);
    }
    forall i | 0 <= i < |rs|
      ensures ToChunks(first, unit, rs)[i] in Fronts(Stretches(rs, first, unit))
    {
      assert rs[i] in rs && ToChunk(first, unit, rs[i]) in Stretches(rs, first, unit);
    }
  }

  lemma {:induction false} NothingLostIff(free: seq<bool>, ones: seq<Run>, many: seq<Run>, first: nat, unit: nat)
    requires Found(free, ones, many, |free| + 1)
    ensures LostRuns(ones, many, first, unit) == {} <==> RunsFit(free, unit)
  {
    hide MaxRun, Stored;
    var runs := Stretches(ones, first, unit) + Stretches(many, first, unit);
    forall c | c in runs
      ensures Unrecorded(c.offset, c.size) == {} <==> c.size < SIZE_LIMIT
    {
      RecordedIff(c.offset, c.size);
    }
    if RunsFit(free, unit) {
      forall c | c in runs
        ensures c.size < SIZE_LIMIT
      {
        var r :| (r in ones || r in many) && c == ToChunk(first, unit, r);
        assert MaxRun(free, r);
      }
    } else {
      var r :| MaxRun(free, r) && r.blocks * unit >= SIZE_LIMIT;
      MaxRunEnds(free, r);
      var c := ToChunk(first, unit, r);
      assert c in runs;
      var l :| l in Unrecorded(c.offset, c.size);
      assert l in Rears(runs);
    }
  }

  lemma {:induction false} MaxRunEnds(free: seq<bool>, r: Run)
    requires MaxRun(free, r)
    ensures r.start + r.blocks < |free| + 1
  {
  }

  lemma {:induction false} RunsNotInUse(inUse: seq<Chunk>, free: seq<bool>, ones: seq<Run>, many: seq<Run>, first: nat, fileSize: nat, unit: nat)
    requires Scanned(inUse, free, ones, many, first, fileSize, unit)
    ensures Elements(inUse) !! Stretches(ones, first, unit) + Stretches(many, first, unit)
    ensures forall r :: r in ones || r in many ==> !InUseAt(inUse, ToChunk(first, unit, r).offset)
  {
    forall r | r in ones || r in many
      ensures !InUseAt(inUse, ToChunk(first, unit, r).offset) && ToChunk(first, unit, r) !in inUse
    {
      var c := ToChunk(first, unit, r);
      TimesLess(0, r.blocks, unit);
      assert In(c.offset, c);
      RunIsFree(inUse, free, ones, many, first, fileSize, unit, r, c.offset);
    }
  }

  lemma {:induction false} ChunkListed(first: nat, unit: nat, rs: seq<Run>, r: Run)
    requires r in rs
    ensures Recorded(ToChunk(first, unit, r)) in Elements(ToChunks(first, unit, rs))
  {
    var i :| 0 <= i < |rs| && rs[i] == r;
    assert ToChunks(first, unit, rs)[i] == Recorded(ToChunk(first, unit, r));
  }

  // No header of the lists lies in an area in use.
  lemma {:induction false} ListElsewhere(inUse: seq<Chunk>, rs: seq<Run>, first: nat, unit: nat)
    requires forall r :: r in rs ==> !InUseAt(inUse, ToChunk(first, unit, r).offset)
    requires forall i :: 0 <= i < |inUse| ==> inUse[i].size > 0
    ensures Offsets(inUse) !! Offsets(ToChunks(first, unit, rs)) && Elements(inUse) !! Elements(ToChunks(first, unit, rs))
  {
    var cs := ToChunks(first, unit, rs);
    forall i, j | 0 <= i < |inUse| && 0 <= j < |cs|
      ensures inUse[i].offset != cs[j].offset
    {
      assert rs[j] in rs && cs[j].offset == ToChunk(first, unit, rs[j]).offset;
      assert In(inUse[i].offset, inUse[i]);
    }
  }

  lemma {:induction false} OffsetsTell(a: seq<Chunk>, b: seq<Chunk>)
    requires Offsets(a) !! Offsets(b)
    ensures Elements(a) !! Elements(b)
  {
    forall i, j | 0 <= i < |a| && 0 <= j < |b|
      ensures a[i] != b[j]
    {
      assert a[i].offset in Offsets(a) && b[j].offset in Offsets(b);
    }
  }

  lemma {:induction false} RebuiltApart(inUse: seq<Chunk>, free: seq<bool>, ones: seq<Run>, many: seq<Run>, first: nat, fileSize: nat, unit: nat)
    requires Scanned(inUse, free, ones, many, first, fileSize, unit)
    ensures InOnePlace(Elements(inUse), ToChunks(first, unit, ones), ToChunks(first, unit, many))
    ensures Offsets(inUse) !! (Offsets(ToChunks(first, unit, ones)) + Offsets(ToChunks(first, unit, many)))
    ensures forall c :: c in Elements(ToChunks(first, unit, ones)) ==> c.size == unit
  {
    RunsNotInUse(inUse, free, ones, many, first, fileSize, unit);
    assert forall i :: 0 <= i < |inUse| ==> Aligned(inUse[i], first, fileSize, unit);
    ListElsewhere(inUse, ones, first, unit);
    ListElsewhere(inUse, many, first, unit);
    OffsetsDiffer(first, unit, ones, many);
    OffsetsTell(ToChunks(first, unit, ones), ToChunks(first, unit, many));
  }

  // ----- the whole procedure

  // The blocks of the file that nobody marked.
  ghost function BlockFlags(first: nat, fileSize: nat, unit: nat, occupied: set<nat>): (free: seq<bool>)
    requires unit > 0
    ensures Frees(free, first, unit, occupied)
  {
    seq(if fileSize < first then 0 else (fileSize - first) / unit, b requires 0 <= b => first + b * unit !in occupied)
  }

  lemma {:induction false} FlagsCount(first: nat, fileSize: nat, unit: nat, occupied: set<nat>)
    requires unit > 0
    ensures CountsBlocks(BlockFlags(first, fileSize, unit, occupied), first, fileSize, unit)
  {
    var n := |BlockFlags(first, fileSize, unit, occupied)|;
    if first <= fileSize {
      assert fileSize - first == n * unit + (fileSize - first) % unit;
      assert (n + 1) * unit == n * unit + unit;
    }
  }

  // The databases and the other users hold whole blocks of a file of whole blocks, none of them twice.
  ghost predicate Intact(areas: map<nat, Area>, dbs: seq<Owner>, owned: seq<Chains>, extra: seq<Chunk>, first: nat, fileSize: nat, unit: nat) {
    && IsUnit(unit) && first <= fileSize && (fileSize - first) % unit == 0
    && Owns(areas, dbs, owned) && Separate(Flat(owned) + extra) && AllAligned(Flat(owned) + extra, first, fileSize, unit)
  }

  lemma {:induction false} FlatHas(owned: seq<Chains>, i: nat)
    requires i < |owned|
    ensures Offsets(owned[i].single) <= Offsets(Flat(owned)) && Offsets(owned[i].multi) <= Offsets(Flat(owned))
    decreases |owned|
  {
    var n := |owned| - 1;
    var before := Flat(owned[..n]);
    OffsetsJoin(before, owned[n].single);
    OffsetsJoin(before + owned[n].single, owned[n].multi);
    if i < n {
      FlatHas(owned[..n], i);
      assert owned[..n][i] == owned[i];
    }
  }

  lemma {:induction false} OffsetsJoin(a: seq<Chunk>, b: seq<Chunk>)
    ensures Offsets(a + b) == Offsets(a) + Offsets(b)
  {
    forall i | 0 <= i < |b|
      ensures b[i].offset in Offsets(a + b)
    {
      assert (a + b)[|a| + i] == b[i];
    }
    forall i | 0 <= i < |a|
      ensures a[i].offset in Offsets(a + b)
    {
      assert (a + b)[i] == a[i];
    }
  }

  // Writing headers elsewhere leaves the lists of the databases alone.
  lemma {:induction false} OwnsStays(before: map<nat, Area>, after: map<nat, Area>, changed: set<nat>, dbs: seq<Owner>, owned: seq<Chains>)
    requires Owns(before, dbs, owned) && OnlyAt(before, after, changed) && Offsets(Flat(owned)) !! changed
    ensures Owns(after, dbs, owned)
  {
    forall i | 0 <= i < |dbs|
      ensures OwnsAt(after, dbs, owned, i)
    {
      assert OwnsAt(before, dbs, owned, i);
      FlatHas(owned, i);
      if dbs[i].offset != 0 {
        StaysLinked(before, after, changed, owned[i].single);
        StaysLinked(before, after, changed, owned[i].multi);
      }
    }
  }

  // Marks what the databases and others use and turns the rest of the file into free areas.
  method RecoverAreas(pool: AreaPool, dbs: seq<Owner>, extra: seq<Chunk>, ghost owned: seq<Chains>)
    returns (ghost free: seq<bool>, ghost occupied: set<nat>, ghost ones: seq<Run>, ghost many: seq<Run>)
    requires IsUnit(pool.unit) && pool.start > 0 && pool.single != pool.multi && Readable(pool.mem.areas)
    requires forall i :: 0 <= i < |dbs| ==> dbs[i].single < LIMIT && dbs[i].multi < LIMIT
    modifies pool`handed, pool`lost, pool.mem, pool.single, pool.multi
    ensures pool.single.Valid(pool.mem) && pool.multi.Valid(pool.mem)
    ensures pool.single.chain == ToChunks(pool.start, pool.unit, ones) && pool.multi.chain == ToChunks(pool.start, pool.unit, many)
    ensures CountsBlocks(free, pool.start, pool.fileSize, pool.unit) && Frees(free, pool.start, pool.unit, occupied)
    ensures Found(free, ones, many, |free| + 1)
    ensures Owns(old(pool.mem.areas), dbs, owned) ==> occupied == ChainBlocks(Flat(owned) + extra, pool.unit)
    ensures Intact(old(pool.mem.areas), dbs, owned, extra, pool.start, pool.fileSize, pool.unit) ==>
              && pool.Valid() && pool.handed == Elements(Flat(owned) + extra) && Owns(pool.mem.areas, dbs, owned)
              && pool.lost == LostRuns(ones, many, pool.start, pool.unit)
              && (pool.Complete() <==> RunsFit(free, pool.unit))
  {
    hide Linked, Separate, OnlyAt, Found, CountsBlocks, Frees, NoSharedStart, BlockFlags, Owns, AllAligned, Fills, InOnePlace, Sized,
         ChainBlocks, Flat, Offsets, Elements, ToChunks, LostRuns, RunsFit, AreaPool.Complete;
    pool.single.Init(pool.mem);
    pool.multi.Init(pool.mem);
    var marked := MarkOwned(dbs, pool.unit, pool.mem, owned);
    marked := MarkExtra(extra, pool.unit, marked);
    occupied := marked;
    ChainBlocksJoin(Flat(owned), extra, pool.unit);
    ones, many := RefillLists(pool, marked);
    free := BlockFlags(pool.start, pool.fileSize, pool.unit, occupied);
    pool.handed, pool.lost := Elements(Flat(owned) + extra), LostRuns(ones, many, pool.start, pool.unit);
    if Intact(old(pool.mem.areas), dbs, owned, extra, pool.start, pool.fileSize, pool.unit) {
      RebuiltFills(Flat(owned) + extra, free, ones, many, pool.start, pool.fileSize, pool.unit);
      RebuiltApart(Flat(owned) + extra, free, ones, many, pool.start, pool.fileSize, pool.unit);
      OffsetsJoin(Flat(owned), extra);
      OwnsStays(old(pool.mem.areas), pool.mem.areas, Offsets(pool.single.chain) + Offsets(pool.multi.chain), dbs, owned);
      pool.CompleteIff();
    }
  }

  lemma {:induction false} NoOffsets()
    ensures Offsets([]) == {}
  {
  }

  // The scan, and the two new lists handed to the pool.
  method RefillLists(pool: AreaPool, occupied: set<nat>) returns (ghost ones: seq<Run>, ghost many: seq<Run>)
    requires pool.unit > 0 && pool.start > 0 && pool.single != pool.multi
    requires pool.single.Valid(pool.mem) && pool.multi.Valid(pool.mem) && pool.single.chain == [] && pool.multi.chain == []
    modifies pool.mem, pool.single, pool.multi
    ensures pool.single.Valid(pool.mem) && pool.multi.Valid(pool.mem) && NoSharedStart(ones, many)
    ensures pool.single.chain == ToChunks(pool.start, pool.unit, ones) && pool.multi.chain == ToChunks(pool.start, pool.unit, many)
    ensures var free := BlockFlags(pool.start, pool.fileSize, pool.unit, occupied);
      CountsBlocks(free, pool.start, pool.fileSize, pool.unit) && Found(free, ones, many, |free| + 1)
    ensures OnlyAt(old(pool.mem.areas), pool.mem.areas, Offsets(pool.single.chain) + Offsets(pool.multi.chain))
  {
    hide Linked, Separate, OnlyAt, Found, Ascending, CountsBlocks, Frees, NoSharedStart, BlockFlags, Offsets;
    ghost var free := BlockFlags(pool.start, pool.fileSize, pool.unit, occupied);
    FlagsCount(pool.start, pool.fileSize, pool.unit, occupied);
    var scanner := new Scanner(pool.mem, pool.unit, pool.start);
    scanner.Scan(pool.fileSize, occupied, free);
    ones, many := scanner.ones, scanner.many;
    ChunksSeparate(pool.start, pool.unit, ones);
    ChunksSeparate(pool.start, pool.unit, many);
    ghost var scanned := pool.mem.areas;
    NothingLinked(scanned);
    AdoptLists(pool, scanner.single, scanner.multi, ToChunks(pool.start, pool.unit, ones), ToChunks(pool.start, pool.unit, many));
    OnlyAtTwice(old(pool.mem.areas), scanned, pool.mem.areas, scanner.Written(), {}, scanner.Written());
  }

  // The two new lists become those of the pool.
  method AdoptLists(pool: AreaPool, single: Ends, multi: Ends, ghost cs: seq<Chunk>, ghost ds: seq<Chunk>)
    requires pool.single != pool.multi && pool.single.Valid(pool.mem) && pool.multi.Valid(pool.mem)
    requires pool.single.chain == [] && pool.multi.chain == []
    requires Linked(pool.mem.areas, cs) && Separate(cs) && single == Ends(First(cs), Last(cs))
    requires Linked(pool.mem.areas, ds) && Separate(ds) && multi == Ends(First(ds), Last(ds))
    modifies pool.mem, pool.single, pool.multi
    ensures pool.single.Valid(pool.mem) && pool.multi.Valid(pool.mem) && pool.single.chain == cs && pool.multi.chain == ds
    ensures OnlyAt(old(pool.mem.areas), pool.mem.areas, {})
  {
    hide Linked, Separate, OnlyAt, Offsets;
    assert [] + cs == cs && [] + ds == ds;
    NoOffsets();
    ghost var scanned := pool.mem.areas;
    pool.single.Add(single.head, single.tail, pool.mem, cs);
    StaysLinked(scanned, pool.mem.areas, {}, ds);
    NothingLinked(pool.mem.areas);
    ghost var added := pool.mem.areas;
    pool.multi.Add(multi.head, multi.tail, pool.mem, ds);
    StaysLinked(added, pool.mem.areas, {}, cs);
    OnlyAtTwice(scanned, added, pool.mem.areas, {}, {}, {});
  }

  lemma {:induction false} NothingLinked(areas: map<nat, Area>)
    ensures Linked(areas, []) && Separate([])
  {
  }
}
