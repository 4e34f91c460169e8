// Disjoint stretches of memory that fill the areas they were cut from.

module Tiling {
  // A stretch of memory.
  datatype Chunk = Chunk(offset: nat, size: nat)

  predicate In(a: nat, c: Chunk) {
    c.offset <= a < c.offset + c.size
  }

  ghost predicate Apart(c: Chunk, d: Chunk) {
    c.offset + c.size <= d.offset || d.offset + d.size <= c.offset
  }

  ghost predicate AllApart(cs: set<Chunk>) {
    && (forall c :: c in cs ==> c.size > 0)
    && (forall c, d :: c in cs && d in cs && c != d ==> Apart(c, d))
  }

  ghost predicate Covered(a: nat, cs: set<Chunk>) {
    exists c :: c in cs && In(a, c)
  }

  ghost predicate Inside(c: Chunk, r: Chunk) {
    r.offset <= c.offset && c.offset + c.size <= r.offset + r.size
  }

  // The pieces are disjoint, each inside one area, and fill exactly the areas.
  ghost predicate Tiles(pieces: set<Chunk>, areas: set<Chunk>) {
    && AllApart(pieces) && AllApart(areas)
    && (forall c :: c in pieces ==> exists r :: r in areas && Inside(c, r))
    && forall a :: Covered(a, pieces) <==> Covered(a, areas)
  }

  // Does the chunk end where an area ends?
  ghost predicate EndsArea(c: Chunk, areas: set<Chunk>) {
    exists r :: r in areas && r.offset + r.size == c.offset + c.size
  }

  // ----- changes that keep the tiling

  ghost predicate SplitInto(c: Chunk, d: Chunk, e: Chunk) {
    0 < d.size && 0 < e.size && d.offset == c.offset && e.offset == c.offset + d.size && c.size == d.size + e.size
  }

  ghost function Split(pieces: set<Chunk>, c: Chunk, d: Chunk, e: Chunk): set<Chunk> {
    pieces - {c} + {d, e}
  }

  // Cutting one piece in two changes neither disjointness nor what is covered.
  lemma {:induction false} SplitCovers(pieces: set<Chunk>, c: Chunk, d: Chunk, e: Chunk)
    requires AllApart(pieces) && c in pieces && SplitInto(c, d, e)
    ensures AllApart(Split(pieces, c, d, e))
    ensures d !in pieces && e !in pieces && d != e
    ensures forall a :: Covered(a, Split(pieces, c, d, e)) <==> Covered(a, pieces)
  {
    var ps := Split(pieces, c, d, e);
    assert Apart(d, e) && In(c.offset, c);
    forall p | p in pieces && p != c
      ensures Apart(p, d) && Apart(p, e) && p != d && p != e
    {
      assert Apart(p, c);
    }
    assert d != c && e != c;
    forall a
      ensures Covered(a, ps) <==> Covered(a, pieces)
    {
      assert In(a, c) <==> In(a, d) || In(a, e);
      if Covered(a, pieces) {
        var p :| p in pieces && In(a, p);
        if p != c { assert p in ps; } else if In(a, d) { assert d in ps; } else { assert e in ps; }
      }
      if Covered(a, ps) {
        var p :| p in ps && In(a, p);
        if p == d || p == e { assert c in pieces && In(a, c); } else { assert p in pieces; }
      }
    }
  }

  lemma {:induction false} SplitTiles(pieces: set<Chunk>, areas: set<Chunk>, c: Chunk, d: Chunk, e: Chunk)
    requires Tiles(pieces, areas) && c in pieces && SplitInto(c, d, e)
    ensures Tiles(Split(pieces, c, d, e), areas)
    ensures d !in pieces && e !in pieces
  {
    SplitCovers(pieces, c, d, e);
    var r :| r in areas && Inside(c, r);
    assert Inside(d, r) && Inside(e, r);
  }

  lemma {:induction false} AreaTiles(pieces: set<Chunk>, areas: set<Chunk>, r: Chunk)
    requires Tiles(pieces, areas) && r.size > 0 && forall s :: s in areas ==> Apart(r, s)
    ensures Tiles(pieces + {r}, areas + {r}) && r !in pieces && r !in areas
    ensures forall p :: p in pieces ==> Apart(p, r) && (EndsArea(p, areas + {r}) <==> EndsArea(p, areas))
  {
    forall p | p in pieces
      ensures Apart(p, r) && p != r
    {
      PieceApart(pieces, areas, p, r);
    }
    forall c | c in pieces + {r}
      ensures exists s :: s in areas + {r} && Inside(c, s)
    {
      if c in pieces {
        var s :| s in areas && Inside(c, s);
        assert s in areas + {r};
      } else {
        assert r in areas + {r} && Inside(r, r);
      }
    }
    forall a
      ensures Covered(a, pieces + {r}) <==> Covered(a, areas + {r})
    {
      assert Covered(a, pieces + {r}) <==> Covered(a, pieces) || In(a, r) by { CoveredMore(a, pieces, r); }
      assert Covered(a, areas + {r}) <==> Covered(a, areas) || In(a, r) by { CoveredMore(a, areas, r); }
    }
    forall p | p in pieces
      ensures EndsArea(p, areas + {r}) <==> EndsArea(p, areas)
    {
      assert Apart(p, r) && p.size > 0;
      if EndsArea(p, areas) {
        var s :| s in areas && s.offset + s.size == p.offset + p.size;
        assert s in areas + {r};
      }
    }
  }

  lemma {:induction false} CoveredMore(a: nat, cs: set<Chunk>, r: Chunk)
    ensures Covered(a, cs + {r}) <==> Covered(a, cs) || In(a, r)
  {
    if Covered(a, cs) {
      var c :| c in cs && In(a, c);
      assert c in cs + {r};
    }
    assert r in cs + {r};
  }

  // A piece shares no address with an area it was not cut from.
  lemma {:induction false} PieceApart(pieces: set<Chunk>, areas: set<Chunk>, p: Chunk, r: Chunk)
    requires Tiles(pieces, areas) && p in pieces && r.size > 0 && forall s :: s in areas ==> Apart(r, s)
    ensures Apart(p, r)
  {
    var s :| s in areas && Inside(p, s);
    assert Apart(r, s);
  }

  // After a split the second part ends where the whole did, the first part does not end an area.
  lemma {:induction false} SplitEnds(pieces: set<Chunk>, areas: set<Chunk>, c: Chunk, d: Chunk, e: Chunk)
    requires Tiles(pieces, areas) && c in pieces && SplitInto(c, d, e)
    ensures EndsArea(e, areas) <==> EndsArea(c, areas)
    ensures !EndsArea(d, areas)
  {
    var r :| r in areas && Inside(c, r);
    forall s | s in areas
      ensures s.offset + s.size != d.offset + d.size
    {
      assert s == r || Apart(s, r);
    }
    if EndsArea(e, areas) {
      var s :| s in areas && s.offset + s.size == e.offset + e.size;
      assert s.offset + s.size == c.offset + c.size;
    }
    if EndsArea(c, areas) {
      var s :| s in areas && s.offset + s.size == c.offset + c.size;
      assert s.offset + s.size == e.offset + e.size;
    }
  }

  // ----- one region cut into pieces

  // The pieces are disjoint and fill exactly the addresses from lo up to hi.
  ghost predicate Spans(pieces: set<Chunk>, lo: nat, hi: nat) {
    && AllApart(pieces)
    && forall a: nat :: Covered(a, pieces) <==> lo <= a < hi
  }

  // They share no address and do not start at the same one.
  ghost predicate Beside(c: Chunk, d: Chunk) {
    Apart(c, d) && c.offset != d.offset
  }

  ghost predicate AllBeside(cs: set<Chunk>) {
    forall c, d :: c in cs && d in cs && c != d ==> Beside(c, d)
  }

  ghost predicate Clear(cs: set<Chunk>, ds: set<Chunk>) {
    forall c, d :: c in cs && d in ds && c != d ==> Apart(c, d)
  }

  // The pieces, which may be empty, and what was lost are disjoint and fill the addresses from lo up to hi.
  ghost predicate Fills(pieces: set<Chunk>, lost: set<Chunk>, lo: nat, hi: nat) {
    && AllBeside(pieces) && AllApart(lost) && Clear(pieces, lost) && pieces !! lost
    && (forall c :: c in pieces ==> lo <= c.offset < hi)
    && forall a: nat :: Covered(a, pieces) || Covered(a, lost) <==> lo <= a < hi
  }

  // The pieces alone fill the region exactly if nothing was lost.
  lemma {:induction false} SpansIff(pieces: set<Chunk>, lost: set<Chunk>, lo: nat, hi: nat)
    requires Fills(pieces, lost, lo, hi)
    ensures Spans(pieces, lo, hi) <==> lost == {}
  {
    if lost == {} {
      forall c | c in pieces
        ensures c.size > 0
      {
        assert Covered(c.offset, pieces);
        var p :| p in pieces && In(c.offset, p);
        assert p != c ==> Beside(p, c);
      }
    } else {
      var l :| l in lost;
      assert In(l.offset, l);
      assert Covered(l.offset, lost);
      if Covered(l.offset, pieces) {
        var p :| p in pieces && In(l.offset, p);
        assert false;
      }
    }
  }

  lemma {:induction false} SplitFills(pieces: set<Chunk>, lost: set<Chunk>, lo: nat, hi: nat, c: Chunk, d: Chunk, e: Chunk)
    requires Fills(pieces, lost, lo, hi) && c in pieces && SplitInto(c, d, e)
    ensures Fills(Split(pieces, c, d, e), lost, lo, hi)
    ensures d !in pieces && e !in pieces && d != e
  {
    var ps := Split(pieces, c, d, e);
    assert Beside(d, e);
    forall p | p in pieces && p != c
      ensures Beside(p, d) && Beside(p, e)
    {
      assert Beside(p, c);
    }
    forall l | l in lost
      ensures Apart(d, l) && Apart(e, l) && d != l && e != l
    {
      assert Apart(c, l);
    }
    assert In(d.offset, c) && In(e.offset, c) && Covered(e.offset, pieces);
    forall a: nat
      ensures Covered(a, ps) <==> Covered(a, pieces)
    {
      SplitAt(pieces, c, d, e, a);
    }
  }

  lemma {:induction false} SplitAt(pieces: set<Chunk>, c: Chunk, d: Chunk, e: Chunk, a: nat)
    requires c in pieces && SplitInto(c, d, e)
    ensures Covered(a, Split(pieces, c, d, e)) <==> Covered(a, pieces)
  {
    var ps := Split(pieces, c, d, e);
    assert In(a, c) <==> In(a, d) || In(a, e);
    if Covered(a, pieces) {
      var p :| p in pieces && In(a, p);
      if p != c { assert p in ps; } else if In(a, d) { assert d in ps; } else { assert e in ps; }
    }
    if Covered(a, ps) {
      var p :| p in ps && In(a, p);
      if p == d || p == e { assert c in pieces && In(a, c); } else { assert p in pieces; }
    }
  }

  // What lies behind the first part of a chunk.
  ghost function Behind(offset: nat, part: nat, size: nat): set<Chunk> {
    if part < size then {Chunk(offset + part, size - part)} else {}
  }

  // A new piece at the end extends the region by its size; what the piece does not hold is lost.
  lemma {:induction false} GrowFills(pieces: set<Chunk>, lost: set<Chunk>, lo: nat, hi: nat, part: nat, size: nat)
    requires Fills(pieces, lost, lo, hi) && lo <= hi && part <= size && size > 0
    ensures Fills(pieces + {Chunk(hi, part)}, lost + Behind(hi, part, size), lo, hi + size)
    ensures Chunk(hi, part) !in pieces && Behind(hi, part, size) !! lost
  {
    var c, rest := Chunk(hi, part), Behind(hi, part, size);
    forall p | p in pieces
      ensures Beside(p, c) && forall l :: l in rest ==> Apart(p, l) && p != l
    {
      PieceWithin(pieces, lost, lo, hi, p);
    }
    forall q | q in lost
      ensures Apart(c, q) && c != q && forall l :: l in rest ==> Apart(q, l) && q != l
    {
      LostWithin(pieces, lost, lo, hi, q);
    }
    forall a: nat
      ensures Covered(a, pieces + {c}) || Covered(a, lost + rest) <==> lo <= a < hi + size
    {
      CoveredMore(a, pieces, c);
      if part < size {
        CoveredMore(a, lost, Chunk(hi + part, size - part));
      } else {
        assert lost + rest == lost;
      }
    }
  }

  lemma {:induction false} PieceWithin(pieces: set<Chunk>, lost: set<Chunk>, lo: nat, hi: nat, p: Chunk)
    requires Fills(pieces, lost, lo, hi) && p in pieces
    ensures lo <= p.offset < hi && p.offset + p.size <= hi
  {
    if p.size > 0 {
      assert In(p.offset + p.size - 1, p);
      assert Covered(p.offset + p.size - 1, pieces);
    }
  }

  lemma {:induction false} LostWithin(pieces: set<Chunk>, lost: set<Chunk>, lo: nat, hi: nat, p: Chunk)
    requires Fills(pieces, lost, lo, hi) && p in lost
    ensures lo <= p.offset && p.offset + p.size <= hi
  {
    assert In(p.offset, p) && In(p.offset + p.size - 1, p);
    assert Covered(p.offset, lost) && Covered(p.offset + p.size - 1, lost);
  }

  // ----- rounding up to a unit

  function RoundUp(n: nat, unit: nat): (r: nat)
    requires unit > 0
    ensures n <= r < n + unit && r % unit == 0
  {
    var q := (n + unit - 1) / unit;
    RoundUpIs(n, unit, q);
    q * unit
  }

  lemma {:induction false} RoundUpIs(n: nat, unit: nat, q: nat)
    requires unit > 0 && q == (n + unit - 1) / unit
    ensures n <= q * unit < n + unit && (q * unit) % unit == 0
  {
    var y := n + unit - 1;
    assert y == q * unit + y % unit;
    UnitTimes(q, unit);
  }

  lemma {:induction false} Grows(unit: nat, k: nat)
    requires k >= 1
    ensures k * unit >= unit
  {
  }

  lemma {:induction false} UnitTimes(k: int, unit: nat)
    requires unit > 0
    ensures (k * unit) % unit == 0
  {
    var d, r := (k * unit) / unit, (k * unit) % unit;
    assert k * unit == d * unit + r;
    assert (k - d) * unit == r;
    if k - d >= 1 { Grows(unit, k - d); }
    if d - k >= 1 { Grows(unit, d - k); }
  }
}
