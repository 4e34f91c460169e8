// The second phase of the rebuild: free blocks become areas, lone ones and longer runs apart
// (memory/_memory.hpp, _recover_areas).

module Scanning {
  import opened Tiling
  import opened AreaLists

  // Consecutive blocks, counted from the first area of the file.
  datatype Run = Run(start: nat, blocks: nat)

  // A run of free blocks that cannot be extended.
  ghost predicate MaxRun(free: seq<bool>, r: Run) {
    && 0 < r.blocks && r.start + r.blocks <= |free|
    && (forall i :: r.start <= i < r.start + r.blocks ==> free[i])
    && (r.start == 0 || !free[r.start - 1])
    && (r.start + r.blocks == |free| || !free[r.start + r.blocks])
  }

  ghost predicate Within(b: nat, r: Run) {
    r.start <= b < r.start + r.blocks
  }

  // Every free block lies in one maximal run ...
  lemma {:induction false} RunAround(free: seq<bool>, b: nat) returns (r: Run)
    requires b < |free| && free[b]
    ensures MaxRun(free, r) && Within(b, r)
  {
    var lo: nat, hi: nat := b, b + 1;
    while lo > 0 && free[lo - 1]
      invariant lo <= b && forall i :: lo <= i <= b ==> free[i]
    {
      lo := lo - 1;
    }
    while hi < |free| && free[hi]
      invariant b < hi <= |free| && forall i :: lo <= i < hi ==> free[i]
    {
      hi := hi + 1;
    }
    r := Run(lo, hi - lo);
  }

  // ... and in no other.
  lemma {:induction false} RunsApart(free: seq<bool>, r: Run, s: Run, b: nat)
    requires MaxRun(free, r) && MaxRun(free, s) && Within(b, r) && Within(b, s)
    ensures r == s
  {
  }

  // ----- runs as areas

  lemma {:induction false} TimesLess(x: nat, y: nat, unit: nat)
    requires x < y
    ensures x * unit + unit <= y * unit
  {
    assert y * unit == (y - x - 1) * unit + x * unit + unit;
    TimesPositive(y - x - 1, unit);
  }

  lemma {:induction false} TimesPositive(x: nat, unit: nat)
    ensures x * unit >= 0
  {
  }

  ghost function ToChunk(first: nat, unit: nat, r: Run): Chunk {
    Chunk(first + r.start * unit, r.blocks * unit)
  }

  // The same as far as the header tells.
  ghost function Recorded(c: Chunk): Chunk {
    Chunk(c.offset, Stored(c.size))
  }

  ghost function ToChunks(first: nat, unit: nat, rs: seq<Run>): (cs: seq<Chunk>)
    ensures |cs| == |rs| && forall i :: 0 <= i < |rs| ==> cs[i] == Recorded(ToChunk(first, unit, rs[i]))
  {
    seq(|rs|, i requires 0 <= i < |rs| => Recorded(ToChunk(first, unit, rs[i])))
  }

  ghost predicate Ascending(rs: seq<Run>) {
    && (forall i :: 0 <= i < |rs| ==> rs[i].blocks > 0)
    && (forall i, j :: 0 <= i < j < |rs| ==> rs[i].start + rs[i].blocks <= rs[j].start)
  }

  // All runs end at block b or before.
  ghost predicate Before(rs: seq<Run>, b: nat) {
    forall i :: 0 <= i < |rs| ==> rs[i].start + rs[i].blocks <= b
  }

  lemma {:induction false} ChunksApart(first: nat, unit: nat, r: Run, s: Run)
    requires unit > 0 && r.start + r.blocks <= s.start && r.blocks > 0
    ensures Apart(ToChunk(first, unit, r), ToChunk(first, unit, s))
    ensures ToChunk(first, unit, r).offset != ToChunk(first, unit, s).offset && ToChunk(first, unit, r).size > 0
  {
    assert (r.start + r.blocks) * unit == r.start * unit + r.blocks * unit;
    if r.start + r.blocks < s.start { TimesLess(r.start + r.blocks, s.start, unit); }
    TimesLess(0, r.blocks, unit);
  }

  lemma {:induction false} ChunksSeparate(first: nat, unit: nat, rs: seq<Run>)
    requires unit > 0 && first > 0 && Ascending(rs)
    ensures Separate(ToChunks(first, unit, rs))
  {
    var cs := ToChunks(first, unit, rs);
    forall i | 0 <= i < |cs|
      ensures cs[i].offset > 0
    {
      TimesPositive(rs[i].start, unit);
      TimesLess(0, rs[i].blocks, unit);
    }
    forall i, j | 0 <= i < j < |cs|
      ensures Beside(cs[i], cs[j])
    {
      ChunksApart(first, unit, rs[i], rs[j]);
    }
  }

  lemma {:induction false} OneMore(first: nat, unit: nat, rs: seq<Run>, r: Run)
    ensures ToChunks(first, unit, rs + [r]) == ToChunks(first, unit, rs) + [Recorded(ToChunk(first, unit, r))]
  {
  }

  ghost predicate NoSharedStart(rs: seq<Run>, ss: seq<Run>) {
    forall i, j :: 0 <= i < |rs| && 0 <= j < |ss| ==> rs[i].start != ss[j].start
  }

  lemma {:induction false} OffsetsDiffer(first: nat, unit: nat, rs: seq<Run>, ss: seq<Run>)
    requires unit > 0 && NoSharedStart(rs, ss)
    ensures Offsets(ToChunks(first, unit, rs)) !! Offsets(ToChunks(first, unit, ss))
  {
    var cs, ds := ToChunks(first, unit, rs), ToChunks(first, unit, ss);
    forall i, j | 0 <= i < |cs| && 0 <= j < |ds|
      ensures cs[i].offset != ds[j].offset
    {
      if rs[i].start < ss[j].start { TimesLess(rs[i].start, ss[j].start, unit); } else { TimesLess(ss[j].start, rs[i].start, unit); }
    }
  }

  lemma {:induction false} Extended(rs: seq<Run>, ss: seq<Run>, s: nat, r: Run)
    requires Ascending(rs) && Ascending(ss) && Before(rs, s) && Before(ss, s) && r.start == s && r.blocks > 0
    requires NoSharedStart(rs, ss) || NoSharedStart(ss, rs)
    ensures Ascending(rs + [r]) && NoSharedStart(rs + [r], ss) && NoSharedStart(ss, rs + [r])
  {
  }

  // Appends an area to a list given by its ends; the header keeps 32 bits of its size.
  method LinkArea(ends: Ends, pos: nat, size: nat, mem: Memory, ghost chain: seq<Chunk>) returns (r: Ends)
    requires Linked(mem.areas, chain) && Separate(chain + [Chunk(pos, Stored(size))]) && ends == Ends(First(chain), Last(chain))
    modifies mem
    ensures Linked(mem.areas, chain + [Chunk(pos, Stored(size))])
    ensures r == Ends(First(chain + [Chunk(pos, Stored(size))]), pos)
    ensures OnlyAt(old(mem.areas), mem.areas, Offsets(chain) + {pos})
  {
    ghost var c := Chunk(pos, Stored(size));
    SuffixSeparate(chain, [c]);
    ApartInJoin(chain, c);
    mem.areas := mem.areas[pos := Area(Stored(size), 0)];
    StaysLinked(old(mem.areas), mem.areas, {pos}, chain);
    assert LinkedAt(mem.areas, [c], 0);
    if ends.head == 0 {
      assert chain == [] && chain + [c] == [c];
      r := Ends(pos, pos);
    } else {
      Joined(mem.areas, chain, [c]);
      assert LinkedAt(mem.areas, chain, |chain| - 1) && ends.tail in Offsets(chain);
      mem.areas := mem.areas[ends.tail := mem.areas[ends.tail].(next := pos)];
      r := Ends(ends.head, pos);
    }
  }

  lemma {:induction false} ApartInJoin(chain: seq<Chunk>, c: Chunk)
    requires Separate(chain + [c])
    ensures Offsets(chain) !! {c.offset}
  {
    forall i | 0 <= i < |chain|
      ensures chain[i].offset != c.offset
    {
      assert Beside((chain + [c])[i], (chain + [c])[|chain|]);
    }
  }

  // The blocks of the file up to its end, as far as they are whole.
  ghost predicate CountsBlocks(free: seq<bool>, first: nat, fileSize: nat, unit: nat) {
    && fileSize < first + (|free| + 1) * unit
    && (|free| > 0 ==> first + |free| * unit <= fileSize)
  }

  ghost predicate Frees(free: seq<bool>, first: nat, unit: nat, occupied: set<nat>) {
    forall b :: 0 <= b < |free| ==> (free[b] <==> first + b * unit !in occupied)
  }

  // All maximal runs that end before block b are listed, each in the list for its length.
  ghost predicate Found(free: seq<bool>, ones: seq<Run>, many: seq<Run>, b: nat) {
    && (forall i :: 0 <= i < |ones| ==> MaxRun(free, ones[i]) && ones[i].blocks == 1)
    && (forall i :: 0 <= i < |many| ==> MaxRun(free, many[i]) && many[i].blocks > 1)
    && forall r :: MaxRun(free, r) && r.start + r.blocks < b ==> r in ones || r in many
  }

  class Scanner {
    const mem: Memory
    const unit: nat
    const first: nat
    var single: Ends
    var multi: Ends
    var runStart: nat
    var runBlocks: nat
    ghost var ones: seq<Run>
    ghost var many: seq<Run>

    // Both lists hold the areas of their runs, in ascending order.
    ghost predicate Listed()
      reads this, mem
    {
      && unit > 0 && first > 0
      && Ascending(ones) && Ascending(many) && NoSharedStart(ones, many)
      && Linked(mem.areas, ToChunks(first, unit, ones)) && Linked(mem.areas, ToChunks(first, unit, many))
      && single == Ends(First(ToChunks(first, unit, ones)), Last(ToChunks(first, unit, ones)))
      && multi == Ends(First(ToChunks(first, unit, many)), Last(ToChunks(first, unit, many)))
    }

    ghost function Written(): set<nat>
      reads this
    {
      Offsets(ToChunks(first, unit, ones)) + Offsets(ToChunks(first, unit, many))
    }

    // The current run reaches from s to block b.
    ghost predicate Running(free: seq<bool>, s: nat, b: nat)
      reads this
    {
      && s + runBlocks == b <= |free|
      && (forall i :: s <= i < b ==> free[i])
      && (s == 0 || !free[s - 1])
      && (runBlocks > 0 ==> runStart == first + s * unit)
    }

    constructor (mem: Memory, unit: nat, first: nat)
      requires unit > 0 && first > 0
      ensures this.mem == mem && this.unit == unit && this.first == first
      ensures Listed() && ones == [] && many == [] && runBlocks == 0
    {
      this.mem, this.unit, this.first := mem, unit, first;
      single, multi, runStart, runBlocks := Ends(0, 0), Ends(0, 0), 0, 0;
      ones, many := [], [];
    }

    // The current run becomes an area of the list for its length.
    method FlushRun(ghost s: nat)
      requires Listed() && Before(ones, s) && Before(many, s) && (runBlocks > 0 ==> runStart == first + s * unit)
      modifies this, mem
      ensures Listed() && runBlocks == 0
      ensures ones == old(ones) + if old(runBlocks) == 1 then [Run(s, 1)] else []
      ensures many == old(many) + if old(runBlocks) > 1 then [Run(s, old(runBlocks))] else []
      ensures OnlyAt(old(mem.areas), mem.areas, Written())
    {
      hide Linked, Ascending, NoSharedStart, Before, OnlyAt, ToChunks, Offsets;
      OnlyAtSame(mem.areas, Written());
      if runBlocks == 1 {
        FlushOne(s);
      } else if runBlocks > 1 {
        FlushMany(s);
      } else {
        assert ones + [] == ones && many + [] == many;
      }
      runBlocks := 0;
    }

    method FlushOne(ghost s: nat)
      requires Listed() && Before(ones, s) && Before(many, s) && runBlocks == 1 && runStart == first + s * unit
      modifies `single, `ones, mem
      ensures Listed() && ones == old(ones) + [Run(s, 1)]
      ensures OnlyAt(old(mem.areas), mem.areas, Written())
    {
      hide Linked, Separate, Ascending, NoSharedStart, Before, OnlyAt, ToChunks, Offsets;
      ghost var r := Run(s, 1);
      Extended(ones, many, s, r);
      OneMore(first, unit, ones, r);
      ChunksSeparate(first, unit, ones + [r]);
      OffsetsDiffer(first, unit, ones + [r], many);
      OffsetsMore(first, unit, ones, r);
      single := LinkArea(single, runStart, unit, mem, ToChunks(first, unit, ones));
      StaysLinked(old(mem.areas), mem.areas, Offsets(ToChunks(first, unit, ones + [r])), ToChunks(first, unit, many));
      OnlyAtMore(old(mem.areas), mem.areas, Offsets(ToChunks(first, unit, ones + [r])), Offsets(ToChunks(first, unit, many)));
      ones := ones + [r];
    }

    method FlushMany(ghost s: nat)
      requires Listed() && Before(ones, s) && Before(many, s) && runBlocks > 1 && runStart == first + s * unit
      modifies `multi, `many, mem
      ensures Listed() && many == old(many) + [Run(s, runBlocks)]
      ensures OnlyAt(old(mem.areas), mem.areas, Written())
    {
      hide Linked, Separate, Ascending, NoSharedStart, Before, OnlyAt, ToChunks, Offsets;
      ghost var r := Run(s, runBlocks);
      Extended(many, ones, s, r);
      OneMore(first, unit, many, r);
      ChunksSeparate(first, unit, many + [r]);
      OffsetsDiffer(first, unit, many + [r], ones);
      OffsetsMore(first, unit, many, r);
      multi := LinkArea(multi, runStart, runBlocks * unit, mem, ToChunks(first, unit, many));
      StaysLinked(old(mem.areas), mem.areas, Offsets(ToChunks(first, unit, many + [r])), ToChunks(first, unit, ones));
      OnlyAtMore(old(mem.areas), mem.areas, Offsets(ToChunks(first, unit, many + [r])), Offsets(ToChunks(first, unit, ones)));
      many := many + [r];
    }

    // What holds before block b is looked at; the current run starts at s.
    ghost predicate At(free: seq<bool>, s: nat, b: nat)
      reads this, mem
    {
      Listed() && Running(free, s, b) && Before(ones, s) && Before(many, s) && Found(free, ones, many, b)
    }

    method ScanBlock(pos: nat, occupied: set<nat>, ghost free: seq<bool>, ghost s: nat, ghost b: nat) returns (ghost s': nat)
      requires At(free, s, b) && b < |free| && pos == first + b * unit && (free[b] <==> pos !in occupied)
      modifies this, mem
      ensures At(free, s', b + 1)
      ensures OnlyAt(old(mem.areas), mem.areas, Written()) && old(Written()) <= Written()
    {
      hide Found, OnlyAt, Linked, Ascending, NoSharedStart, ToChunks, Offsets;
      if pos in occupied {
        CloseRun(free, s, b);
        s' := b + 1;
      } else {
        OnlyAtSame(mem.areas, Written());
        ExtendRun(pos, free, s, b);
        s' := s;
      }
    }

    // Block b belongs to the current run.
    method ExtendRun(pos: nat, ghost free: seq<bool>, ghost s: nat, ghost b: nat)
      requires At(free, s, b) && b < |free| && free[b] && pos == first + b * unit
      modifies `runStart, `runBlocks
      ensures At(free, s, b + 1)
    {
      hide Found, OnlyAt, Before, Linked, Ascending, NoSharedStart, ToChunks, Offsets;
      FoundOn(free, ones, many, b);
      if runBlocks == 0 {
        runStart := pos;
      }
      runBlocks := runBlocks + 1;
    }

    // The run ends before block b.
    method CloseRun(ghost free: seq<bool>, ghost s: nat, ghost b: nat)
      requires At(free, s, b) && (b < |free| ==> !free[b])
      modifies this, mem
      ensures Listed() && runBlocks == 0 && Before(ones, b) && Before(many, b) && Found(free, ones, many, b + 1)
      ensures OnlyAt(old(mem.areas), mem.areas, Written()) && old(Written()) <= Written()
    {
      hide Found, OnlyAt, Before, Linked, Ascending, NoSharedStart, ToChunks, Offsets;
      ghost var ones0, many0 := ones, many;
      FoundAt(free, ones, many, s, runBlocks, b);
      BeforeMore(ones, many, s, runBlocks, b);
      FlushRun(s);
      MoreWritten(first, unit, ones0, many0, ones, many);
    }

    // One pass over the file.
    method Scan(fileSize: nat, occupied: set<nat>, ghost free: seq<bool>)
      requires Listed() && ones == [] && many == [] && runBlocks == 0
      requires CountsBlocks(free, first, fileSize, unit) && Frees(free, first, unit, occupied)
      modifies this, mem
      ensures Listed() && Found(free, ones, many, |free| + 1)
      ensures OnlyAt(old(mem.areas), mem.areas, Written())
    {
      hide CountsBlocks, Found, OnlyAt, Linked, Ascending, NoSharedStart, ToChunks, Offsets;
      var pos: nat := first;
      ghost var b, s := 0, 0;
      FoundNone(free);
      OnlyAtSame(mem.areas, Written());
      StartsAt(free, first, fileSize, unit);
      while pos + unit <= fileSize
        invariant At(free, s, b) && IsBlock(pos, b, first, unit)
        invariant pos + unit <= fileSize <==> b < |free|
        invariant OnlyAt(old(mem.areas), mem.areas, Written())
        decreases |free| - b
      {
        ghost var before, written := mem.areas, Written();
        s := ScanBlock(pos, occupied, free, s, b);
        OnlyAtTwice(old(mem.areas), before, mem.areas, written, Written(), Written());
        NextBlock(free, first, fileSize, unit, pos, b);
        pos := pos + unit;
        b := b + 1;
      }
      ghost var before, written := mem.areas, Written();
      CloseRun(free, s, b);
      OnlyAtTwice(old(mem.areas), before, mem.areas, written, Written(), Written());
    }
  }

  lemma {:induction false} BeforeMore(ones: seq<Run>, many: seq<Run>, s: nat, n: nat, b: nat)
    requires Before(ones, s) && Before(many, s) && s + n == b
    ensures Before(ones + if n == 1 then [Run(s, 1)] else [], b)
    ensures Before(many + if n > 1 then [Run(s, n)] else [], b)
  {
  }

  ghost predicate IsBlock(pos: nat, b: nat, first: nat, unit: nat) {
    pos == first + b * unit
  }

  lemma {:induction false} StartsAt(free: seq<bool>, first: nat, fileSize: nat, unit: nat)
    requires unit > 0 && CountsBlocks(free, first, fileSize, unit)
    ensures first + unit <= fileSize <==> 0 < |free|
    ensures IsBlock(first, 0, first, unit)
  {
    if |free| > 1 { TimesLess(1, |free|, unit); }
  }

  lemma {:induction false} NextBlock(free: seq<bool>, first: nat, fileSize: nat, unit: nat, pos: nat, b: nat)
    requires unit > 0 && CountsBlocks(free, first, fileSize, unit) && b < |free| && IsBlock(pos, b, first, unit)
    ensures IsBlock(pos + unit, b + 1, first, unit)
    ensures pos + unit + unit <= fileSize <==> b + 1 < |free|
  {
    assert (b + 1) * unit == b * unit + unit && (b + 2) * unit == b * unit + unit + unit;
    assert (|free| + 1) * unit == |free| * unit + unit;
    if b + 2 < |free| { TimesLess(b + 2, |free|, unit); }
  }

  lemma {:induction false} FoundNone(free: seq<bool>)
    ensures Found(free, [], [], 0)
  {
  }

  lemma {:induction false} MoreWritten(first: nat, unit: nat, ones: seq<Run>, many: seq<Run>, ones': seq<Run>, many': seq<Run>)
    requires ones <= ones' && many <= many'
    ensures Offsets(ToChunks(first, unit, ones)) <= Offsets(ToChunks(first, unit, ones'))
    ensures Offsets(ToChunks(first, unit, many)) <= Offsets(ToChunks(first, unit, many'))
  {
    OffsetsGrow(first, unit, ones, ones');
    OffsetsGrow(first, unit, many, many');
  }

  lemma {:induction false} OffsetsGrow(first: nat, unit: nat, rs: seq<Run>, rs': seq<Run>)
    requires rs <= rs'
    ensures Offsets(ToChunks(first, unit, rs)) <= Offsets(ToChunks(first, unit, rs'))
  {
    forall i | 0 <= i < |rs|
      ensures ToChunks(first, unit, rs)[i].offset in Offsets(ToChunks(first, unit, rs'))
    {
      assert ToChunks(first, unit, rs')[i] == ToChunks(first, unit, rs)[i];
    }
  }

  lemma {:induction false} OffsetsMore(first: nat, unit: nat, rs: seq<Run>, r: Run)
    ensures Offsets(ToChunks(first, unit, rs + [r])) == Offsets(ToChunks(first, unit, rs)) + {first + r.start * unit}
  {
    var cs, ds := ToChunks(first, unit, rs), ToChunks(first, unit, rs + [r]);
    assert ds[|rs|].offset == first + r.start * unit;
    forall i | 0 <= i < |cs|
      ensures cs[i].offset in Offsets(ds)
    {
      assert ds[i] == cs[i];
    }
  }

  // What the lists are after the run from s to b has been flushed at an occupied block or at the end.
  lemma {:induction false} FoundAt(free: seq<bool>, ones: seq<Run>, many: seq<Run>, s: nat, n: nat, b: nat)
    requires Found(free, ones, many, b) && s + n == b <= |free| && (b < |free| ==> !free[b])
    requires (forall i :: s <= i < b ==> free[i]) && (s == 0 || !free[s - 1])
    ensures Found(free, ones + if n == 1 then [Run(s, 1)] else [], many + if n > 1 then [Run(s, n)] else [], b + 1)
  {
    var ones' := ones + if n == 1 then [Run(s, 1)] else [];
    var many' := many + if n > 1 then [Run(s, n)] else [];
    forall r | MaxRun(free, r) && r.start + r.blocks < b + 1
      ensures r in ones' || r in many'
    {
      if r.start + r.blocks == b {
        assert Within(b - 1, r) && free[b - 1];
        assert n > 0 && MaxRun(free, Run(s, n));
        RunsApart(free, r, Run(s, n), b - 1);
        assert if n == 1 then ones'[|ones|] == r else many'[|many|] == r;
      }
    }
  }

  lemma {:induction false} FoundOn(free: seq<bool>, ones: seq<Run>, many: seq<Run>, b: nat)
    requires Found(free, ones, many, b) && b < |free| && free[b]
    ensures Found(free, ones, many, b + 1)
  {
    forall r | MaxRun(free, r) && r.start + r.blocks < b + 1
      ensures r in ones || r in many
    {
      assert r.start + r.blocks != b;
    }
  }
}
