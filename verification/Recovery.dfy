// Rebuilding the pool of free areas after a crash (memory/_memory.hpp, _recover_areas).

module Recovery {
  import opened Tiling
  import opened AreaLists
  import opened AreaPools

  // Offsets are 64 bits wide.
  const LIMIT := 0x1_0000_0000_0000_0000

  // Whatever lies at an offset can be read as a header.
  ghost predicate Readable(areas: map<nat, Area>) {
    forall o: nat :: o < LIMIT ==> o in areas && areas[o].next < LIMIT
  }

  // The offsets of the units an area of this size begins in, from start on.
  ghost function Blocks(start: nat, size: nat, unit: nat): (r: set<nat>)
    requires unit > 0
    ensures forall o :: o in r ==> start <= o < start + size
    decreases size
  {
    if size == 0 then {}
    else if size <= unit then {start}
    else {start} + Blocks(start + unit, size - unit, unit)
  }

  ghost function ChainBlocks(chain: seq<Chunk>, unit: nat): set<nat>
    requires unit > 0
  {
    if chain == [] then {}
    else ChainBlocks(chain[..|chain| - 1], unit) + Blocks(chain[|chain| - 1].offset, chain[|chain| - 1].size, unit)
  }

  lemma {:induction false} ChainBlocksIn(chain: seq<Chunk>, unit: nat, o: nat)
    requires unit > 0
    ensures o in ChainBlocks(chain, unit) <==> exists i :: 0 <= i < |chain| && o in Blocks(chain[i].offset, chain[i].size, unit)
  {
    if chain != [] {
      var n := |chain| - 1;
      ChainBlocksIn(chain[..n], unit, o);
      forall i | 0 <= i < n
        ensures chain[..n][i] == chain[i]
      {
      }
      if o in ChainBlocks(chain[..n], unit) {
        var i :| 0 <= i < n && o in Blocks(chain[..n][i].offset, chain[..n][i].size, unit);
        assert o in Blocks(chain[i].offset, chain[i].size, unit);
      }
    }
  }

  // ----- what is in use

  method MarkRange(start: nat, size: nat, unit: nat, occupied: set<nat>) returns (r: set<nat>)
    requires unit > 0
    ensures r == occupied + Blocks(start, size, unit)
  {
    r := occupied;
    if size == 0 {
      return;
    }
    var cur: nat, remaining: nat := start, size;
    while true
      invariant remaining > 0
      invariant r + Blocks(cur, remaining, unit) == occupied + Blocks(start, size, unit)
      decreases remaining
    {
      r := r + {cur};
      if remaining <= unit { break; }
      cur, remaining := cur + unit, remaining - unit;
    }
  }

  ghost function Unmarked(occupied: set<nat>): set<nat> {
    set o: nat | o < LIMIT && o !in occupied
  }

  ghost predicate Positive(chain: seq<Chunk>) {
    forall i :: 0 <= i < |chain| ==> chain[i].size > 0
  }

  // The chain an owner's list consists of, no block of which is marked yet.
  ghost predicate Clean(areas: map<nat, Area>, head: nat, chain: seq<Chunk>, occupied: set<nat>, unit: nat)
    requires unit > 0
  {
    && Linked(areas, chain) && Separate(chain) && Positive(chain) && head == First(chain)
    && ChainBlocks(chain, unit) !! occupied
  }

  // Every marked offset belongs to a header that can be reached from head.
  ghost predicate Reached(areas: map<nat, Area>, visited: seq<nat>, head: nat) {
    && (visited != [] ==> visited[0] == head)
    && (forall i :: 0 <= i < |visited| ==> visited[i] in areas && visited[i] != 0)
    && forall i, j :: 0 <= i && j == i + 1 && j < |visited| ==> visited[j] == areas[visited[i]].next
  }

  ghost function Marks(areas: map<nat, Area>, visited: seq<nat>, unit: nat): set<nat>
    requires unit > 0 && forall i :: 0 <= i < |visited| ==> visited[i] in areas
  {
    if visited == [] then {}
    else
      var o := visited[|visited| - 1];
      Marks(areas, visited[..|visited| - 1], unit) + {o} + Blocks(o, areas[o].size, unit)
  }

  // Where the walk goes on after what it has visited.
  ghost function Onward(areas: map<nat, Area>, visited: seq<nat>, head: nat): nat
    requires forall i :: 0 <= i < |visited| ==> visited[i] in areas
  {
    if visited == [] then head else areas[visited[|visited| - 1]].next
  }

  lemma {:induction false} ChainBlocksJoin(a: seq<Chunk>, b: seq<Chunk>, unit: nat)
    requires unit > 0
    ensures ChainBlocks(a + b, unit) == ChainBlocks(a, unit) + ChainBlocks(b, unit)
  {
    if b == [] {
      assert a + b == a;
    } else {
      var n := |b| - 1;
      ChainBlocksJoin(a, b[..n], unit);
      assert (a + b)[..|a + b| - 1] == a + b[..n];
    }
  }

  // Areas that share no address share no block.
  lemma {:induction false} ChainsApartBlocks(a: seq<Chunk>, b: seq<Chunk>, unit: nat)
    requires unit > 0 && Separate(a + b)
    ensures ChainBlocks(a, unit) !! ChainBlocks(b, unit)
  {
    forall o | o in ChainBlocks(a, unit)
      ensures o !in ChainBlocks(b, unit)
    {
      ChainBlocksIn(a, unit, o);
      ChainBlocksIn(b, unit, o);
      var i :| 0 <= i < |a| && o in Blocks(a[i].offset, a[i].size, unit);
      forall j | 0 <= j < |b|
        ensures o !in Blocks(b[j].offset, b[j].size, unit)
      {
        assert Apart((a + b)[i], (a + b)[|a| + j]);
      }
    }
  }

  // The next area of a clean chain.
  lemma {:induction false} NextArea(areas: map<nat, Area>, chain: seq<Chunk>, n: nat, cur: nat)
    requires Linked(areas, chain) && Separate(chain) && Positive(chain) && n <= |chain| && cur == First(chain[n..]) && cur != 0
    ensures n < |chain| && cur == chain[n].offset && chain[n].size > 0
    ensures cur in areas && areas[cur].size == chain[n].size && areas[cur].next == First(chain[n + 1..])
  {
    assert n < |chain|;
    assert LinkedAt(areas, chain, n);
  }

  lemma {:induction false} AtEnd(areas: map<nat, Area>, chain: seq<Chunk>, n: nat, cur: nat)
    requires Linked(areas, chain) && Separate(chain) && n <= |chain| && cur == First(chain[n..])
    ensures cur == 0 ==> n == |chain|
  {
    if n < |chain| {
      assert chain[n..][0] == chain[n];
      assert LinkedAt(areas, chain, n);
    }
  }

  // Its first block belongs to the chain, but to no area before it.
  lemma {:induction false} NotMetBefore(chain: seq<Chunk>, unit: nat, n: nat)
    requires unit > 0 && Separate(chain) && n < |chain| && chain[n].size > 0
    ensures chain[n].offset in ChainBlocks(chain, unit) && chain[n].offset !in ChainBlocks(chain[..n], unit)
  {
    hide ChainBlocks;
    var o := chain[n].offset;
    assert o in Blocks(o, chain[n].size, unit);
    ChainBlocksIn(chain, unit, o);
    assert chain == chain[..n] + chain[n..] && chain[n..][0] == chain[n];
    ChainsApartBlocks(chain[..n], chain[n..], unit);
    ChainBlocksIn(chain[n..], unit, o);
  }

  // On a clean chain the walk meets the next area unmarked and marks its blocks.
  lemma {:induction false} CleanStep(areas: map<nat, Area>, head: nat, chain: seq<Chunk>, occupied: set<nat>, unit: nat, n: nat, cur: nat)
    requires unit > 0 && Clean(areas, head, chain, occupied, unit) && n <= |chain| && cur == First(chain[n..]) && cur != 0
    ensures n < |chain| && cur == chain[n].offset && cur !in occupied + ChainBlocks(chain[..n], unit)
    ensures cur in areas && areas[cur].size == chain[n].size && areas[cur].next == First(chain[n + 1..])
    ensures ChainBlocks(chain[..n + 1], unit) == ChainBlocks(chain[..n], unit) + {cur} + Blocks(cur, areas[cur].size, unit)
  {
    hide Linked, Separate;
    NextArea(areas, chain, n, cur);
    NotMetBefore(chain, unit, n);
    assert chain[..n + 1][..n] == chain[..n];
    assert cur in Blocks(cur, chain[n].size, unit);
  }

  lemma {:induction false} StartsReached(areas: map<nat, Area>, head: nat, unit: nat)
    requires unit > 0
    ensures Reached(areas, [], head) && Marks(areas, [], unit) == {} && Onward(areas, [], head) == head
    ensures ChainBlocks([], unit) == {}
  {
  }

  // One more header is met.
  lemma {:induction false} ReachedMore(areas: map<nat, Area>, visited: seq<nat>, head: nat, cur: nat, unit: nat)
    requires unit > 0 && Reached(areas, visited, head) && cur in areas && cur != 0 && cur == Onward(areas, visited, head)
    ensures Reached(areas, visited + [cur], head) && Onward(areas, visited + [cur], head) == areas[cur].next
    ensures Marks(areas, visited + [cur], unit) == Marks(areas, visited, unit) + {cur} + Blocks(cur, areas[cur].size, unit)
  {
    hide Blocks;
    assert (visited + [cur])[..|visited|] == visited;
  }

  lemma {:induction false} FewerUnmarked(before: set<nat>, cur: nat, after: set<nat>)
    requires cur < LIMIT && cur !in before && before + {cur} <= after
    ensures Unmarked(after) < Unmarked(before)
  {
    assert cur in Unmarked(before) && cur !in Unmarked(after);
  }

  // Marks the areas of one owner's list; ends at a link that leads nowhere or to something marked.
  method Walk(head: nat, unit: nat, mem: Memory, occupied: set<nat>, ghost chain: seq<Chunk>)
    returns (r: set<nat>, ghost visited: seq<nat>)
    requires unit > 0 && head < LIMIT && Readable(mem.areas)
    ensures Reached(mem.areas, visited, head) && r == occupied + Marks(mem.areas, visited, unit)
    ensures Onward(mem.areas, visited, head) == 0 || Onward(mem.areas, visited, head) in r
    ensures Clean(mem.areas, head, chain, occupied, unit) ==> r == occupied + ChainBlocks(chain, unit)
  {
    hide Blocks, Marks, ChainBlocks, Linked, Separate, First, Onward;
    var cur := head;
    StartsReached(mem.areas, head, unit);
    r, visited := occupied, [];
    ghost var clean := Clean(mem.areas, head, chain, occupied, unit);
    while cur != 0
      invariant cur < LIMIT && Reached(mem.areas, visited, head) && cur == Onward(mem.areas, visited, head)
      invariant r == occupied + Marks(mem.areas, visited, unit)
      invariant clean ==> |visited| <= |chain| && cur == First(chain[|visited|..])
      invariant clean ==> r == occupied + ChainBlocks(chain[..|visited|], unit)
      decreases Unmarked(r)
    {
      if clean {
        CleanStep(mem.areas, head, chain, occupied, unit, |visited|, cur);
      }
      if cur in r { break; }
      ghost var before := r;
      r := r + {cur};
      var h := mem.areas[cur];
      r := MarkRange(cur, h.size, unit, r);
      ReachedMore(mem.areas, visited, head, cur, unit);
      FewerUnmarked(before, cur, r);
      visited := visited + [cur];
      cur := h.next;
    }
    if clean {
      AtEnd(mem.areas, chain, |visited|, cur);
      assert chain[..|chain|] == chain;
    }
  }

  // ----- all owners

  // A database and the heads of its two lists; offset 0 is an empty slot.
  datatype Owner = Owner(offset: nat, single: nat, multi: nat)

  datatype Chains = Chains(single: seq<Chunk>, multi: seq<Chunk>)

  ghost function Flat(owned: seq<Chains>): seq<Chunk> {
    if owned == [] then []
    else Flat(owned[..|owned| - 1]) + owned[|owned| - 1].single + owned[|owned| - 1].multi
  }

  ghost predicate OwnsAt(areas: map<nat, Area>, dbs: seq<Owner>, owned: seq<Chains>, i: nat)
    requires i < |dbs| == |owned|
  {
    if dbs[i].offset == 0 then owned[i] == Chains([], [])
    else
      && Linked(areas, owned[i].single) && Positive(owned[i].single) && dbs[i].single == First(owned[i].single)
      && Linked(areas, owned[i].multi) && Positive(owned[i].multi) && dbs[i].multi == First(owned[i].multi)
  }

  // Every database has its two lists, and no two areas share an address.
  ghost predicate Owns(areas: map<nat, Area>, dbs: seq<Owner>, owned: seq<Chains>) {
    && |dbs| == |owned| && Separate(Flat(owned))
    && forall i :: 0 <= i < |dbs| ==> OwnsAt(areas, dbs, owned, i)
  }

  lemma {:induction false} FlatPrefix(owned: seq<Chains>, n: nat)
    requires n < |owned| && Separate(Flat(owned))
    ensures Flat(owned[..n + 1]) == Flat(owned[..n]) + owned[n].single + owned[n].multi
    ensures Separate(Flat(owned[..n]) + owned[n].single + owned[n].multi)
    decreases |owned|
  {
    assert owned[..n + 1][..n] == owned[..n];
    if n + 1 == |owned| {
      assert owned[..n + 1] == owned;
    } else {
      var m := |owned| - 1;
      SuffixSeparate(Flat(owned[..m]) + owned[m].single, owned[m].multi);
      SuffixSeparate(Flat(owned[..m]), owned[m].single);
      FlatPrefix(owned[..m], n);
      assert owned[..m][..n] == owned[..n] && owned[..m][..n + 1] == owned[..n + 1];
    }
  }

  method MarkOwned(dbs: seq<Owner>, unit: nat, mem: Memory, ghost owned: seq<Chains>) returns (r: set<nat>)
    requires unit > 0 && Readable(mem.areas)
    requires forall i :: 0 <= i < |dbs| ==> dbs[i].single < LIMIT && dbs[i].multi < LIMIT
    ensures Owns(mem.areas, dbs, owned) ==> r == ChainBlocks(Flat(owned), unit)
  {
    r := {};
    ghost var clean := Owns(mem.areas, dbs, owned);
    var i := 0;
    while i < |dbs|
      invariant i <= |dbs|
      invariant clean ==> r == ChainBlocks(Flat(owned[..i]), unit)
    {
      if clean {
        OwnerStep(mem.areas, dbs, owned, i, unit, r);
      }
      if dbs[i].offset != 0 {
        ghost var visited;
        r, visited := Walk(dbs[i].single, unit, mem, r, if clean then owned[i].single else []);
        r, visited := Walk(dbs[i].multi, unit, mem, r, if clean then owned[i].multi else []);
      }
      i := i + 1;
    }
    if clean {
      assert owned[..|owned|] == owned;
    }
  }

  lemma {:induction false} OwnerStep(areas: map<nat, Area>, dbs: seq<Owner>, owned: seq<Chains>, i: nat, unit: nat, r: set<nat>)
    requires unit > 0 && Owns(areas, dbs, owned) && i < |dbs| && r == ChainBlocks(Flat(owned[..i]), unit)
    ensures ChainBlocks(Flat(owned[..i + 1]), unit) == r + ChainBlocks(owned[i].single, unit) + ChainBlocks(owned[i].multi, unit)
    ensures dbs[i].offset == 0 ==> owned[i] == Chains([], [])
    ensures dbs[i].offset != 0 ==> Clean(areas, dbs[i].single, owned[i].single, r, unit)
    ensures dbs[i].offset != 0 ==> Clean(areas, dbs[i].multi, owned[i].multi, r + ChainBlocks(owned[i].single, unit), unit)
  {
    assert OwnsAt(areas, dbs, owned, i);
    FlatPrefix(owned, i);
    var before, s, m := Flat(owned[..i]), owned[i].single, owned[i].multi;
    ChainBlocksJoin(before + s, m, unit);
    ChainBlocksJoin(before, s, unit);
    ChainsApartBlocks(before + s, m, unit);
    SuffixSeparate(before + s, m);
    ChainsApartBlocks(before, s, unit);
    SuffixSeparate(before, s);
  }

  // Marks what is in use without belonging to a database.
  method MarkExtra(extra: seq<Chunk>, unit: nat, occupied: set<nat>) returns (r: set<nat>)
    requires unit > 0
    ensures r == occupied + ChainBlocks(extra, unit)
  {
    r := occupied;
    var i := 0;
    while i < |extra|
      invariant i <= |extra| && r == occupied + ChainBlocks(extra[..i], unit)
    {
      assert extra[..i + 1][..i] == extra[..i];
      r := MarkRange(extra[i].offset, extra[i].size, unit, r);
      i := i + 1;
    }
    assert extra[..|extra|] == extra;
  }
}
