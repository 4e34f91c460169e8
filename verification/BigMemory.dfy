// Chunks for big values: the hot remainder, the free chunks and the live ones.

module BigMemory {
  import opened Common
  import opened Tiling

  const PAGE := 4096
  const HEADER := 16

  // A free chunk: whether another chunk follows it in its area, and when it was freed.
  datatype Entry = Entry(chunk: Chunk, successor: bool, txn: nat)

  datatype Header = Header(size: nat, successor: bool)

  // The first k bytes of a little-endian number, compared as memory.
  function LittleRank(n: nat, k: nat): nat {
    if k == 0 then 0 else n % 256 * Places(k - 1) + LittleRank(n / 256, k - 1)
  }

  function Places(k: nat): nat {
    if k == 0 then 1 else 256 * Places(k - 1)
  }

  // The key of the free trie: the size, then the bytes of the offset with the flag in its last bit.
  function OffsetRank(e: Entry): nat {
    LittleRank(e.chunk.offset + if e.successor then 1 else 0, 8)
  }

  predicate NotAfter(a: Entry, b: Entry) {
    a.chunk.size < b.chunk.size || (a.chunk.size == b.chunk.size && OffsetRank(a) <= OffsetRank(b))
  }

  ghost predicate ByKey(free: seq<Entry>) {
    forall i, j :: 0 <= i < j < |free| ==> NotAfter(free[i], free[j])
  }

  ghost function Chunks(free: seq<Entry>): set<Chunk> {
    set i | 0 <= i < |free| :: free[i].chunk
  }

  ghost predicate NoTwins(free: seq<Entry>) {
    forall i, j :: 0 <= i < j < |free| ==> free[i].chunk != free[j].chunk
  }

  ghost predicate Flagged(c: Chunk, successor: bool, areas: set<Chunk>) {
    successor <==> !EndsArea(c, areas)
  }

  // The first chunk that is large enough.
  function FirstFit(free: seq<Entry>, padded: nat): nat {
    if free == [] || free[0].chunk.size >= padded then 0 else 1 + FirstFit(free[1..], padded)
  }

  lemma {:induction false} FirstFitIs(free: seq<Entry>, padded: nat, n: nat)
    requires n <= |free| && (forall j :: 0 <= j < n ==> free[j].chunk.size < padded) && (n < |free| ==> free[n].chunk.size >= padded)
    ensures FirstFit(free, padded) == n
  {
    if n > 0 {
      FirstFitIs(free[1..], padded, n - 1);
    }
  }

  // No chunk before position end is large enough and out of sight of all readers.
  ghost predicate NoneRecyclable(free: seq<Entry>, padded: nat, startTxn: nat, end: int) {
    forall i :: 0 <= i < |free| && i < end && free[i].chunk.size >= padded ==> free[i].txn >= startTxn
  }

  // The first of ten that are large enough and that no reader can see.
  ghost predicate ChosenAt(free: seq<Entry>, padded: nat, startTxn: nat, i: nat) {
    && i < |free| && free[i].chunk.size >= padded && free[i].txn < startTxn
    && i < FirstFit(free, padded) + 10 && NoneRecyclable(free, padded, startTxn, i)
  }

  ghost predicate Chosen(free: seq<Entry>, padded: nat, startTxn: nat, e: Entry) {
    exists i: nat :: ChosenAt(free, padded, startTxn, i) && free[i] == e
  }

  lemma {:induction false} ChosenIs(free: seq<Entry>, padded: nat, startTxn: nat, i: nat)
    requires ChosenAt(free, padded, startTxn, i)
    ensures Chosen(free, padded, startTxn, free[i])
  {
  }

  ghost predicate NoneChosen(free: seq<Entry>, padded: nat, startTxn: nat) {
    NoneRecyclable(free, padded, startTxn, FirstFit(free, padded) + 10)
  }

  // Where a chunk comes from.
  datatype Origin = Hot | Recycled(entry: Entry) | NewArea

  // What a chunk that is not cut from the hot remainder is cut from.
  function Source(origin: Origin, area: Chunk): Chunk {
    if origin.Recycled? then origin.entry.chunk else area
  }

  function Taken(origin: Origin): multiset<Entry> {
    if origin.Recycled? then multiset{origin.entry} else multiset{}
  }

  // The front of a stretch; all of it if less than a page would be left.
  function Front(whole: Chunk, padded: nat): Chunk {
    if whole.size < padded + PAGE then whole else Chunk(whole.offset, padded)
  }

  function Rest(whole: Chunk, size: nat): Chunk {
    if size < whole.size then Chunk(whole.offset + size, whole.size - size) else Chunk(0, 0)
  }

  // A hot remainder that gives way becomes a free chunk that no reader has seen.
  function Shelved(hot: Chunk, successor: bool): multiset<Entry> {
    if hot.size > 0 then multiset{Entry(hot, successor, 0)} else multiset{}
  }

  class BigMemory {
    var hot: Chunk
    var hotSuccessor: bool
    var free: seq<Entry>
    var headers: map<nat, Header>
    ghost var live: set<Chunk>
    ghost var areas: set<Chunk>

    ghost function Pieces(): set<Chunk>
      reads this
    {
      live + Chunks(free) + if hot.size > 0 then {hot} else {}
    }

    // Live chunks, free chunks and the hot remainder tile the areas; every flag is right.
    ghost predicate Valid()
      reads this
    {
      && Tiles(Pieces(), areas)
      && ByKey(free) && NoTwins(free) && live !! Chunks(free)
      && (hot.size > 0 ==> hot !in live && hot !in Chunks(free) && Flagged(hot, hotSuccessor, areas))
      && (forall i :: 0 <= i < |free| ==> Flagged(free[i].chunk, free[i].successor, areas))
      && (forall c :: c in live ==>
            c.offset in headers && headers[c.offset].size == c.size && Flagged(c, headers[c.offset].successor, areas))
    }

    // The same with one chunk in hand that is neither live nor free.
    ghost predicate Holding(c: Chunk, successor: bool)
      reads this
    {
      && Tiles(Pieces() + {c}, areas) && c !in Pieces() && Flagged(c, successor, areas)
      && ByKey(free) && NoTwins(free) && live !! Chunks(free)
      && (hot.size > 0 ==> hot !in live && hot !in Chunks(free) && Flagged(hot, hotSuccessor, areas))
      && (forall i :: 0 <= i < |free| ==> Flagged(free[i].chunk, free[i].successor, areas))
      && (forall d :: d in live ==>
            d.offset in headers && headers[d.offset].size == d.size && Flagged(d, headers[d.offset].successor, areas))
    }

    constructor ()
      ensures Valid() && live == {} && areas == {} && free == []
    {
      hot, hotSuccessor, free, headers := Chunk(0, 0), false, [], map[];
      live, areas := {}, {};
    }

    // Puts a chunk into the free trie, by size and offset.
    method AddChunk(e: Entry)
      requires ByKey(free) && NoTwins(free) && e.chunk !in Chunks(free)
      modifies `free
      ensures ByKey(free) && NoTwins(free) && Chunks(free) == old(Chunks(free)) + {e.chunk}
      ensures e in free && forall i :: 0 <= i < |free| ==> free[i] == e || free[i] in old(free)
      ensures multiset(free) == multiset(old(free)) + multiset{e}
    {
      var i := 0;
      while i < |free| && NotAfter(free[i], e)
        invariant i <= |free|
        invariant forall j :: 0 <= j < i ==> NotAfter(free[j], e)
      {
        i := i + 1;
      }
      InsertedEntry(free, i, e);
      assert free == free[..i] + free[i..];
      free := free[..i] + [e] + free[i..];
    }

    // Among the first ten free chunks that are large enough, the first one that no reader can still see.
    method FindFree(padded: nat, startTxn: nat) returns (found: int)
      requires ByKey(free)
      ensures -1 <= found < |free|
      ensures found >= 0 ==> free[found].chunk.size >= padded && free[found].txn < startTxn
      ensures NoneRecyclable(free, padded, startTxn, if found >= 0 then found else FirstFit(free, padded) + 10)
      ensures found >= 0 ==> found < FirstFit(free, padded) + 10
    {
      var i := 0;
      while i < |free| && free[i].chunk.size < padded
        invariant i <= |free| && forall j :: 0 <= j < i ==> free[j].chunk.size < padded
      {
        i := i + 1;
      }
      FirstFitIs(free, padded, i);
      var tries := 0;
      while tries < 10 && i < |free|
        invariant i <= |free| && i == FirstFit(free, padded) + tries && tries <= 10
        invariant i < |free| ==> free[i].chunk.size >= padded
        invariant NoneRecyclable(free, padded, startTxn, i)
      {
        if free[i].txn < startTxn {
          return i;
        }
        i := i + 1;
        tries := tries + 1;
      }
      found := -1;
    }

    // Hands out a chunk for a value; area is what the area allocator returns if it is asked.
    method Alloc(size: nat, startTxn: nat, area: Chunk) returns (c: Chunk, ghost origin: Origin)
      requires Valid()
      requires area.size >= RoundUp(HEADER + size, PAGE) && forall r :: r in areas ==> Apart(area, r)
      modifies this
      ensures Valid() && c.size >= HEADER + size
      ensures live == old(live) + {c} && c !in old(live) && forall d :: d in old(live) ==> Apart(c, d)
      ensures areas == old(areas) + if origin.NewArea? then {area} else {}
      ensures var padded := RoundUp(HEADER + size, PAGE);
                if old(hot).size >= padded then
                  && origin.Hot? && c == Chunk(old(hot).offset, padded) && hot == Rest(old(hot), padded) && free == old(free)
                else
                  && !origin.Hot? && c == Front(Source(origin, area), padded) && c.size < padded + PAGE
                  && hot == (if c == Source(origin, area) then old(hot) else Rest(Source(origin, area), padded))
                  && multiset(free) + Taken(origin) ==
                       multiset(old(free)) + (if c == Source(origin, area) then multiset{} else Shelved(old(hot), old(hotSuccessor)))
                  && (origin.Recycled? ==> Chosen(old(free), padded, startTxn, origin.entry))
                  && (origin.NewArea? ==> NoneChosen(old(free), padded, startTxn))
    {
      hide Tiles, Flagged, ByKey, NoTwins, Apart, Chosen, NoneChosen, Shelved;
      var padded := RoundUp(HEADER + size, PAGE);
      if hot.size >= padded {
        origin := Hot;
        c := AllocHot(padded);
      } else {
        c, origin := AllocElsewhere(padded, startTxn, area);
      }
    }

    // From a free chunk or else from a new area.
    method AllocElsewhere(padded: nat, startTxn: nat, area: Chunk) returns (c: Chunk, ghost origin: Origin)
      requires Valid() && 0 < padded <= area.size && forall r :: r in areas ==> Apart(area, r)
      modifies this
      ensures Valid() && !origin.Hot? && c == Front(Source(origin, area), padded) && padded <= c.size < padded + PAGE
      ensures live == old(live) + {c} && c !in old(live) && forall d :: d in old(live) ==> Apart(c, d)
      ensures areas == old(areas) + if origin.NewArea? then {area} else {}
      ensures hot == if c == Source(origin, area) then old(hot) else Rest(Source(origin, area), padded)
      ensures multiset(free) + Taken(origin) ==
                multiset(old(free)) + (if c == Source(origin, area) then multiset{} else Shelved(old(hot), old(hotSuccessor)))
      ensures origin.Recycled? ==> Chosen(old(free), padded, startTxn, origin.entry)
      ensures origin.NewArea? ==> NoneChosen(old(free), padded, startTxn)
    {
      hide Holding, Valid, NoneRecyclable, FirstFit, Apart, Shelved, Chosen, NoneChosen;
      var whole, successor;
      whole, successor, origin := TakeSource(padded, startTxn, area);
      c := KeepRest(whole, successor, padded);
    }

    method TakeSource(padded: nat, startTxn: nat, area: Chunk) returns (whole: Chunk, successor: bool, ghost origin: Origin)
      requires Valid() && 0 < padded <= area.size && forall r :: r in areas ==> Apart(area, r)
      modifies `free, `areas
      ensures !origin.Hot? && whole == Source(origin, area) && whole.size >= padded && Holding(whole, successor)
      ensures areas == old(areas) + if origin.NewArea? then {area} else {}
      ensures multiset(free) + Taken(origin) == multiset(old(free))
      ensures origin.Recycled? ==> Chosen(old(free), padded, startTxn, origin.entry)
      ensures origin.NewArea? ==> NoneChosen(old(free), padded, startTxn)
    {
      hide Tiles, Flagged, NoTwins, NoneRecyclable, FirstFit, Apart, Holding, Chosen;
      var i := FindFree(padded, startTxn);
      if i >= 0 {
        ChosenIs(free, padded, startTxn, i);
        origin := Recycled(free[i]);
        whole, successor := TakeFree(i);
      } else {
        origin, successor := NewArea, false;
        whole := TakeArea(area);
      }
    }

    // The front of the hot remainder.
    method AllocHot(padded: nat) returns (c: Chunk)
      requires Valid() && 0 < padded <= hot.size
      modifies this
      ensures Valid() && c == Chunk(old(hot).offset, padded) && areas == old(areas)
      ensures hot == Rest(old(hot), padded) && free == old(free)
      ensures live == old(live) + {c} && c !in old(live) && forall d :: d in old(live) ==> Apart(c, d)
    {
      ghost var pieces := Pieces();
      c := Chunk(hot.offset, padded);
      var successor;
      if hot.size == padded {
        successor := hotSuccessor;
        hot, hotSuccessor := Chunk(0, 0), false;
        live := live + {c};
        assert Pieces() == pieces;
      } else {
        var rest := Chunk(hot.offset + padded, hot.size - padded);
        SplitTiles(pieces, areas, hot, c, rest);
        SplitEnds(pieces, areas, hot, c, rest);
        successor, hot := true, rest;
        live := live + {c};
        assert Pieces() == pieces - {old(hot)} + {c, rest};
      }
      WriteHeader(c, successor);
    }

    method TakeFree(i: nat) returns (c: Chunk, successor: bool)
      requires Valid() && i < |free|
      modifies `free
      ensures c == old(free)[i].chunk && Holding(c, successor) && multiset(free) + multiset{old(free)[i]} == multiset(old(free))
    {
      ghost var pieces := Pieces();
      RemovedEntry(free, i);
      assert free == free[..i] + [free[i]] + free[i + 1..];
      c, successor := free[i].chunk, free[i].successor;
      free := free[..i] + free[i + 1..];
      assert Pieces() + {c} == pieces;
    }

    method TakeArea(area: Chunk) returns (c: Chunk)
      requires Valid() && area.size > 0 && forall r :: r in areas ==> Apart(area, r)
      modifies `areas
      ensures c == area && areas == old(areas) + {area} && Holding(c, false)
    {
      AreaTiles(Pieces(), areas, area);
      assert forall i :: 0 <= i < |free| ==> free[i].chunk in Pieces();
      areas := areas + {area};
      assert area in areas;
      c := area;
    }

    // Uses the front of the chunk; a rest of at least a page becomes the hot remainder.
    method KeepRest(whole: Chunk, successor: bool, padded: nat) returns (c: Chunk)
      requires Holding(whole, successor) && 0 < padded <= whole.size
      modifies this
      ensures Valid() && c == Front(whole, padded) && areas == old(areas)
      ensures c == whole ==> hot == old(hot) && free == old(free)
      ensures c != whole ==> hot == Rest(whole, padded) && multiset(free) == multiset(old(free)) + Shelved(old(hot), old(hotSuccessor))
      ensures live == old(live) + {c} && c !in old(live) && forall d :: d in old(live) ==> Apart(c, d)
    {
      if whole.size - padded < PAGE {
        c := whole;
        UseWhole(whole, successor);
      } else {
        ShelveHot(whole, successor);
        c := UseFront(whole, successor, padded);
      }
    }

    method UseWhole(c: Chunk, successor: bool)
      requires Holding(c, successor)
      modifies this
      ensures Valid() && areas == old(areas) && hot == old(hot) && free == old(free)
      ensures live == old(live) + {c} && c !in old(live) && forall d :: d in old(live) ==> Apart(c, d)
    {
      live := live + {c};
      assert Pieces() == old(Pieces()) + {c};
      WriteHeader(c, successor);
    }

    method UseFront(whole: Chunk, successor: bool, padded: nat) returns (c: Chunk)
      requires Holding(whole, successor) && hot.size == 0 && 0 < padded < whole.size
      modifies this
      ensures Valid() && c == Chunk(whole.offset, padded) && areas == old(areas) && hot == Rest(whole, padded) && free == old(free)
      ensures live == old(live) + {c} && c !in old(live) && forall d :: d in old(live) ==> Apart(c, d)
    {
      c := Chunk(whole.offset, padded);
      var rest := Chunk(whole.offset + padded, whole.size - padded);
      ghost var pieces := Pieces() + {whole};
      SplitTiles(pieces, areas, whole, c, rest);
      SplitEnds(pieces, areas, whole, c, rest);
      hot, hotSuccessor := rest, successor;
      live := live + {c};
      assert Pieces() == pieces - {whole} + {c, rest};
      WriteHeader(c, true);
    }

    // The old hot remainder goes to the free chunks.
    method ShelveHot(ghost whole: Chunk, ghost successor: bool)
      requires Holding(whole, successor)
      modifies `hot, `hotSuccessor, `free
      ensures Holding(whole, successor) && hot.size == 0 && Pieces() == old(Pieces())
      ensures multiset(free) == multiset(old(free)) + Shelved(old(hot), old(hotSuccessor))
    {
      if hot.size > 0 {
        ghost var pieces := Pieces();
        AddChunk(Entry(hot, hotSuccessor, 0));
        hot, hotSuccessor := Chunk(0, 0), false;
        assert Pieces() == pieces;
      }
    }

    // Gives a live chunk back; its header says how large it is.
    method Free(c: Chunk, txn: nat)
      requires Valid() && c in live
      modifies this
      ensures Valid() && live == old(live) - {c} && areas == old(areas) && hot == old(hot)
      ensures multiset(free) == multiset(old(free)) + multiset{Entry(c, !EndsArea(c, areas), txn)}
    {
      ghost var pieces := Pieces();
      var h := headers[c.offset];
      var e := Entry(Chunk(c.offset, h.size), h.successor, txn);
      AddChunk(e);
      live := live - {c};
      assert Pieces() == pieces;
    }

    method WriteHeader(c: Chunk, successor: bool)
      requires Tiles(Pieces(), areas) && c in live && Flagged(c, successor, areas)
      modifies `headers
      ensures headers == old(headers)[c.offset := Header(c.size, successor)]
      ensures forall d :: d in live && d != c ==> d.offset != c.offset
    {
      headers := headers[c.offset := Header(c.size, successor)];
      forall d | d in live && d != c
        ensures d.offset != c.offset
      {
        assert Apart(c, d) && c in Pieces() && d in Pieces();
      }
    }
  }

  // ----- the list of free chunks

  lemma {:induction false} InsertedEntry(free: seq<Entry>, i: nat, e: Entry)
    requires i <= |free| && ByKey(free) && NoTwins(free) && e.chunk !in Chunks(free)
    requires (forall j :: 0 <= j < i ==> NotAfter(free[j], e)) && (i < |free| ==> NotAfter(e, free[i]))
    ensures e in free[..i] + [e] + free[i..]
    ensures var r := free[..i] + [e] + free[i..];
      ByKey(r) && NoTwins(r) && Chunks(r) == Chunks(free) + {e.chunk} && forall j :: 0 <= j < |r| ==> r[j] == e || r[j] in free
  {
    var r := free[..i] + [e] + free[i..];
    forall j, k | 0 <= j < k < |r|
      ensures NotAfter(r[j], r[k]) && r[j].chunk != r[k].chunk
    {
      assert j < i ==> r[j] == free[j];
      assert j > i ==> r[j] == free[j - 1];
      assert k < i ==> r[k] == free[k];
      assert k > i ==> r[k] == free[k - 1];
      assert j < i ==> free[j].chunk in Chunks(free);
      assert k > i ==> free[k - 1].chunk in Chunks(free) && NotAfter(e, free[k - 1]);
    }
    InsertedChunks(free, i, e);
    assert forall j :: 0 <= j < |r| ==> r[j] == if j < i then free[j] else if j == i then e else free[j - 1];
  }

  lemma {:induction false} InsertedChunks(free: seq<Entry>, i: nat, e: Entry)
    requires i <= |free|
    ensures Chunks(free[..i] + [e] + free[i..]) == Chunks(free) + {e.chunk}
  {
    var r := free[..i] + [e] + free[i..];
    forall c | c in Chunks(free) + {e.chunk}
      ensures c in Chunks(r)
    {
      if c == e.chunk {
        assert r[i].chunk == c;
      } else {
        var j :| 0 <= j < |free| && free[j].chunk == c;
        assert r[if j < i then j else j + 1].chunk == c;
      }
    }
    forall j | 0 <= j < |r|
      ensures r[j].chunk in Chunks(free) + {e.chunk}
    {
      if j < i { assert free[j].chunk in Chunks(free); } else if j > i { assert free[j - 1].chunk in Chunks(free); }
    }
  }

  lemma {:induction false} RemovedEntry(free: seq<Entry>, i: nat)
    requires i < |free| && ByKey(free) && NoTwins(free)
    ensures var r := free[..i] + free[i + 1..];
      ByKey(r) && NoTwins(r) && Chunks(r) == Chunks(free) - {free[i].chunk} && forall j :: 0 <= j < |r| ==> r[j] in free
    ensures free[i].chunk in Chunks(free)
  {
    var r := free[..i] + free[i + 1..];
    assert forall j :: 0 <= j < |r| ==> r[j] == if j < i then free[j] else free[j + 1];
    forall c | c in Chunks(free) && c != free[i].chunk
      ensures c in Chunks(r)
    {
      var j :| 0 <= j < |free| && free[j].chunk == c;
      assert r[if j < i then j else j - 1].chunk == c;
    }
  }
}
