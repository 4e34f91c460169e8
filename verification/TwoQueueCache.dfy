// The 2Q cache on linked lists, hash maps and byte counters (memory/_twoquecache.hpp).

module TwoQueueCache {
  import opened TwoQueue
  import opened IntrusiveLists

  ghost predicate InPool(entries: map<nat, Entry>, chain: seq<nat>) {
    forall i :: 0 <= i < |chain| ==> chain[i] in entries
  }

  // The map leads from every key of the list to its entry, and nowhere else.
  ghost predicate MapOk(m: map<nat, nat>, entries: map<nat, Entry>, chain: seq<nat>) {
    && InPool(entries, chain)
    && (forall i :: 0 <= i < |chain| ==> entries[chain[i]].key in m && m[entries[chain[i]].key] == chain[i])
    && (forall k :: k in m ==> m[k] in chain && m[k] in entries && entries[m[k]].key == k)
  }

  // The map finds a key exactly if the list holds it, at the place the list has it.
  lemma {:induction false} MapFinds(m: map<nat, nat>, entries: map<nat, Entry>, chain: seq<nat>, k: nat)
    requires MapOk(m, entries, chain)
    ensures k in m <==> k in Keys(Items(entries, chain))
    ensures var i := Index(Keys(Items(entries, chain)), k); k in m ==> i < |chain| && chain[i] == m[k]
  {
    var keys := Keys(Items(entries, chain));
    if k in m {
      var i :| 0 <= i < |chain| && chain[i] == m[k];
      assert keys[i] == k;
      var j := Index(keys, k);
      assert keys[j] == k && chain[j] == m[entries[chain[j]].key];
    }
  }

  lemma {:induction false} MapDropped(m: map<nat, nat>, entries: map<nat, Entry>, chain: seq<nat>, i: nat)
    requires MapOk(m, entries, chain) && Distinct(chain) && i < |chain|
    ensures MapOk(m - {entries[chain[i]].key}, entries, Dropped(chain, i))
    ensures Items(entries, Dropped(chain, i)) == Dropped(Items(entries, chain), i)
  {
    var rest, m', k := Dropped(chain, i), m - {entries[chain[i]].key}, entries[chain[i]].key;
    forall j | 0 <= j < |rest|
      ensures rest[j] in entries && entries[rest[j]].key in m' && m'[entries[rest[j]].key] == rest[j]
    {
      var h := if j < i then j else j + 1;
      assert rest[j] == chain[h] && chain[h] != chain[i];
    }
    forall x | x in m'
      ensures m'[x] in rest
    {
      var h :| 0 <= h < |chain| && chain[h] == m[x];
      assert h != i;
      assert rest[if h < i then h else h - 1] == m[x];
    }
  }

  lemma {:induction false} MapAdded(m: map<nat, nat>, entries: map<nat, Entry>, chain: seq<nat>, p: nat)
    requires MapOk(m, entries, chain) && p in entries && entries[p].key !in m
    ensures MapOk(m[entries[p].key := p], entries, chain + [p])
    ensures Items(entries, chain + [p]) == Items(entries, chain) + [Item(entries[p].key, entries[p].size)]
  {
    assert (chain + [p])[|chain|] == p;
    forall i | 0 <= i < |chain|
      ensures (chain + [p])[i] == chain[i]
    {
    }
  }

  lemma {:induction false} MapSame(m: map<nat, nat>, before: map<nat, Entry>, after: map<nat, Entry>, changed: set<nat>, chain: seq<nat>)
    requires MapOk(m, before, chain) && OnlyLinks(before, after, changed)
    ensures MapOk(m, after, chain) && Items(after, chain) == Items(before, chain)
  {
  }

  // More entries, or one entry less, do not matter to a list that does not hold it.
  lemma {:induction false} OtherEntry(m: map<nat, nat>, before: map<nat, Entry>, after: map<nat, Entry>, chain: seq<nat>, p: nat)
    requires MapOk(m, before, chain) && Linked(before, chain) && p !in chain
    requires forall q :: q in before && q != p ==> q in after && after[q] == before[q]
    ensures MapOk(m, after, chain) && Linked(after, chain) && Items(after, chain) == Items(before, chain)
  {
    forall i | 0 <= i < |chain|
      ensures LinkedAt(after, chain, i)
    {
      assert LinkedAt(before, chain, i) && chain[i] in chain;
    }
  }

  // ----- chains merged from what is kept and what goes

  ghost predicate Merge(chain: seq<nat>, kept: seq<nat>, gone: seq<nat>)
    decreases |chain|
  {
    if chain == [] then kept == [] && gone == []
    else
      || (kept != [] && kept[0] == chain[0] && Merge(chain[1..], kept[1..], gone))
      || (gone != [] && gone[0] == chain[0] && Merge(chain[1..], kept, gone[1..]))
  }

  lemma {:induction false} MergeMore(chain: seq<nat>, kept: seq<nat>, gone: seq<nat>, p: nat)
    requires Merge(chain, kept, gone)
    ensures Merge(chain + [p], kept + [p], gone) && Merge(chain + [p], kept, gone + [p])
    decreases |chain|
  {
    if chain == [] {
      assert ([p])[1..] == [];
    } else {
      assert (chain + [p])[1..] == chain[1..] + [p];
      if kept != [] && kept[0] == chain[0] && Merge(chain[1..], kept[1..], gone) {
        MergeMore(chain[1..], kept[1..], gone, p);
        assert (kept + [p])[1..] == kept[1..] + [p];
      } else {
        MergeMore(chain[1..], kept, gone[1..], p);
        assert (gone + [p])[1..] == gone[1..] + [p];
      }
    }
  }

  lemma {:induction false} MergeRest(chain: seq<nat>, kept: seq<nat>, gone: seq<nat>, rest: seq<nat>)
    requires Merge(chain, kept, gone)
    ensures Merge(chain + rest, kept + rest, gone)
    decreases |rest|
  {
    if rest == [] {
      assert chain + rest == chain && kept + rest == kept;
    } else {
      MergeMore(chain, kept, gone, rest[0]);
      MergeRest(chain + [rest[0]], kept + [rest[0]], gone, rest[1..]);
      assert chain + [rest[0]] + rest[1..] == chain + rest && kept + [rest[0]] + rest[1..] == kept + rest;
    }
  }

  // Where the first of those that go is in the chain.
  lemma {:induction false} MergeFirst(chain: seq<nat>, kept: seq<nat>, gone: seq<nat>) returns (k: nat)
    requires Merge(chain, kept, gone) && gone != []
    ensures k < |chain| && chain[k] == gone[0] && Merge(Dropped(chain, k), kept, gone[1..])
    decreases |chain|
  {
    if gone[0] == chain[0] && Merge(chain[1..], kept, gone[1..]) {
      k := 0;
      assert Dropped(chain, 0) == chain[1..];
    } else {
      var j := MergeFirst(chain[1..], kept[1..], gone);
      k := j + 1;
      assert Dropped(chain, k)[1..] == Dropped(chain[1..], j) && Dropped(chain, k)[0] == chain[0];
    }
  }

  lemma {:induction false} MergeKept(chain: seq<nat>, kept: seq<nat>)
    requires Merge(chain, kept, [])
    ensures chain == kept
    decreases |chain|
  {
    if chain != [] {
      MergeKept(chain[1..], kept[1..]);
      assert chain == [chain[0]] + chain[1..] && kept == [kept[0]] + kept[1..];
    }
  }

  // ----- a list and its map change together

  ghost predicate Part(m: map<nat, nat>, entries: map<nat, Entry>, chain: seq<nat>) {
    MapOk(m, entries, chain) && Linked(entries, chain) && Distinct(chain)
  }

  // Keys and sizes are as before.
  ghost predicate SameEntries(before: map<nat, Entry>, after: map<nat, Entry>) {
    forall q :: q in before ==> q in after && after[q].key == before[q].key && after[q].size == before[q].size
  }

  ghost predicate NotIn(p: nat, chain: seq<nat>) {
    p !in chain
  }

  ghost predicate NoShared(a: seq<nat>, b: seq<nat>) {
    forall p :: p in a ==> p !in b
  }

  // The other list of the pool is not touched by unlinking or linking entries that are not its own.
  lemma {:induction false} OtherPart(m: map<nat, nat>, before: map<nat, Entry>, after: map<nat, Entry>, changed: set<nat>, chain: seq<nat>)
    requires Part(m, before, chain) && OnlyLinks(before, after, changed) && forall p :: p in chain ==> p !in changed
    ensures Part(m, after, chain) && Items(after, chain) == Items(before, chain)
  {
    StaysLinked(before, after, changed, chain);
    MapSame(m, before, after, changed, chain);
  }

  lemma {:induction false} PartDropped(m: map<nat, nat>, before: map<nat, Entry>, after: map<nat, Entry>, chain: seq<nat>, k: nat)
    requires Part(m, before, chain) && k < |chain| && OnlyLinks(before, after, AllOf(chain))
    requires Linked(after, Dropped(chain, k)) && Distinct(Dropped(chain, k))
    ensures chain[k] in before && chain[k] in after && after[chain[k]].key == before[chain[k]].key && after[chain[k]].size == before[chain[k]].size
    ensures Part(m - {before[chain[k]].key}, after, Dropped(chain, k))
    ensures Items(after, Dropped(chain, k)) == Dropped(Items(before, chain), k)
    ensures Items(before, chain)[k] == Item(after[chain[k]].key, after[chain[k]].size)
  {
    MapDropped(m, before, chain, k);
    MapSame(m - {before[chain[k]].key}, before, after, AllOf(chain), Dropped(chain, k));
  }

  lemma {:induction false} PartMoved(m: map<nat, nat>, before: map<nat, Entry>, after: map<nat, Entry>, chain: seq<nat>, k: nat)
    requires Part(m, before, chain) && k < |chain| && OnlyLinks(before, after, AllOf(chain))
    requires Linked(after, Dropped(chain, k) + [chain[k]]) && Distinct(Dropped(chain, k) + [chain[k]])
    ensures Part(m, after, Dropped(chain, k) + [chain[k]])
    ensures Items(after, Dropped(chain, k) + [chain[k]]) == Dropped(Items(before, chain), k) + [Items(before, chain)[k]]
  {
    var p, moved := chain[k], Dropped(chain, k) + [chain[k]];
    var key := before[p].key;
    MapDropped(m, before, chain, k);
    MapAdded(m - {key}, before, Dropped(chain, k), p);
    assert (m - {key})[key := p] == m;
    MapSame(m, before, after, AllOf(chain), moved);
  }

  lemma {:induction false} MovedApart(a: seq<nat>, b: seq<nat>, k: nat)
    requires NoShared(a, b) && k < |a| && Distinct(a)
    ensures NoShared(Dropped(a, k) + [a[k]], b) && NoShared(b, Dropped(a, k) + [a[k]])
  {
    DroppedApart(a, b, k);
  }

  lemma {:induction false} PartAdded(m: map<nat, nat>, before: map<nat, Entry>, after: map<nat, Entry>, changed: set<nat>, chain: seq<nat>, p: nat)
    requires Part(m, before, chain) && p in before && before[p].key !in m && OnlyLinks(before, after, changed)
    requires Linked(after, chain + [p]) && Distinct(chain + [p])
    ensures p in after && after[p].key == before[p].key
    ensures Part(m[before[p].key := p], after, chain + [p])
    ensures Items(after, chain + [p]) == Items(before, chain) + [Item(before[p].key, before[p].size)]
  {
    MapAdded(m, before, chain, p);
    MapSame(m[before[p].key := p], before, after, changed, chain + [p]);
  }

  lemma {:induction false} DroppedApart(a: seq<nat>, b: seq<nat>, k: nat)
    requires NoShared(a, b) && k < |a| && Distinct(a)
    ensures NoShared(Dropped(a, k), b) && NotIn(a[k], b) && NotIn(a[k], Dropped(a, k))
    ensures forall p :: p in b ==> p !in AllOf(a)
  {
    assert a[k] in a;
    forall j | 0 <= j < |Dropped(a, k)|
      ensures Dropped(a, k)[j] in a && Dropped(a, k)[j] != a[k]
    {
      assert Dropped(a, k)[j] == a[if j < k then j else j + 1];
    }
  }

  class TwoQCache {
    const lim: Limits
    const entries: Pool
    const ghosts: Pool
    const a1in: IntrusiveList
    const a1out: IntrusiveList
    const am: IntrusiveList
    var a1inMap: map<nat, nat>
    var a1outMap: map<nat, nat>
    var amMap: map<nat, nat>
    var size: nat
    var a1inSize: nat

    // Lists and maps agree, and no entry is in both lists.
    ghost predicate Parts()
      reads this, entries, ghosts, a1in, a1out, am
    {
      && entries != ghosts && a1in != am && a1in != a1out && am != a1out
      && entries.Bounded() && ghosts.Bounded()
      && a1in.Valid(entries) && am.Valid(entries) && a1out.Valid(ghosts)
      && Part(a1inMap, entries.entries, a1in.chain) && Part(amMap, entries.entries, am.chain)
      && Part(a1outMap, ghosts.entries, a1out.chain)
      && NoShared(a1in.chain, am.chain) && NoShared(am.chain, a1in.chain)
    }

    ghost function Abs(): Cache
      requires Parts()
      reads this, entries, ghosts, a1in, a1out, am
    {
      Cache(Items(entries.entries, a1in.chain), Keys(Items(ghosts.entries, a1out.chain)), Items(entries.entries, am.chain))
    }

    ghost predicate Counted()
      requires Parts()
      reads this, entries, ghosts, a1in, a1out, am
    {
      size == Bytes(Abs().a1in) + Bytes(Abs().am) && a1inSize == Bytes(Abs().a1in)
    }

    // The counters are the byte sums, and no key is in two places.
    ghost predicate Valid()
      reads this, entries, ghosts, a1in, a1out, am
    {
      Parts() && Counted() && Once(Abs())
    }

    constructor (limits: Limits)
      ensures Valid() && lim == limits && Abs() == Cache([], [], [])
      ensures fresh(entries) && fresh(ghosts) && fresh(a1in) && fresh(a1out) && fresh(am)
    {
      lim := limits;
      var e := new Pool();
      var g := new Pool();
      entries, ghosts := e, g;
      a1in := new IntrusiveList(e);
      am := new IntrusiveList(e);
      a1out := new IntrusiveList(g);
      a1inMap, a1outMap, amMap := map[], map[], map[];
      size, a1inSize := 0, 0;
    }

    // ----- single moves

    // Takes entry p out of A1in; it stays in the pool.
    method UnlinkA1in(p: nat, ghost k: nat)
      requires Parts() && k < |a1in.chain| && p == a1in.chain[k]
      modifies `a1inMap, entries`entries, a1in
      ensures Parts() && Abs() == old(Abs()).(a1in := Dropped(old(Abs()).a1in, k)) && a1in.chain == Dropped(old(a1in.chain), k)
      ensures p != 0 && p in entries.entries && old(Abs()).a1in[k] == Item(entries.entries[p].key, entries.entries[p].size)
      ensures NotIn(p, a1in.chain) && NotIn(p, am.chain)
      ensures a1inMap == old(a1inMap) - {entries.entries[p].key}
      ensures SameEntries(old(entries.entries), entries.entries)
    {
      hide Linked, Distinct, MapOk, NoShared, NotIn;
      ghost var before := entries.entries;
      DroppedApart(a1in.chain, am.chain, k);
      SharedBoth(a1in.chain, am.chain);
      ChainLinked(before, a1in.chain, k);
      a1in.Unlink(p, entries, k);
      PartDropped(a1inMap, before, entries.entries, old(a1in.chain), k);
      OtherPart(amMap, before, entries.entries, AllOf(old(a1in.chain)), am.chain);
      SharedBoth(a1in.chain, am.chain);
      a1inMap := a1inMap - {entries.entries[p].key};
    }

    method UnlinkAm(p: nat, ghost k: nat)
      requires Parts() && k < |am.chain| && p == am.chain[k]
      modifies `amMap, entries`entries, am
      ensures Parts() && Abs() == old(Abs()).(am := Dropped(old(Abs()).am, k)) && am.chain == Dropped(old(am.chain), k)
      ensures p != 0 && p in entries.entries && old(Abs()).am[k] == Item(entries.entries[p].key, entries.entries[p].size)
      ensures NotIn(p, a1in.chain) && NotIn(p, am.chain) && amMap == old(amMap) - {entries.entries[p].key}
    {
      hide Linked, Distinct, MapOk, NoShared, NotIn;
      ghost var before := entries.entries;
      DroppedApart(am.chain, a1in.chain, k);
      ChainLinked(before, am.chain, k);
      am.Unlink(p, entries, k);
      PartDropped(amMap, before, entries.entries, old(am.chain), k);
      OtherPart(a1inMap, before, entries.entries, AllOf(old(am.chain)), a1in.chain);
      SharedBoth(am.chain, a1in.chain);
      amMap := amMap - {entries.entries[p].key};
    }

    method PushAm(p: nat)
      requires Parts() && p != 0 && p in entries.entries && NotIn(p, a1in.chain) && NotIn(p, am.chain)
      requires entries.entries[p].key !in amMap
      modifies `amMap, entries`entries, am
      ensures Parts() && Abs() == old(Abs()).(am := old(Abs()).am + [Item(old(entries.entries[p].key), old(entries.entries[p].size))])
    {
      hide Linked, Distinct, MapOk;
      ghost var before := entries.entries;
      am.PushBack(p, entries);
      PartAdded(amMap, before, entries.entries, {p, old(am.tail)}, old(am.chain), p);
      ZeroNotIn(before, a1in.chain);
      OtherPart(a1inMap, before, entries.entries, {p, old(am.tail)}, a1in.chain);
      amMap := amMap[entries.entries[p].key := p];
    }

    method PushA1in(p: nat)
      requires Parts() && p != 0 && p in entries.entries && NotIn(p, a1in.chain) && NotIn(p, am.chain)
      requires entries.entries[p].key !in a1inMap
      modifies `a1inMap, entries`entries, a1in
      ensures Parts() && Abs() == old(Abs()).(a1in := old(Abs()).a1in + [Item(old(entries.entries[p].key), old(entries.entries[p].size))])
    {
      hide Linked, Distinct, MapOk;
      ghost var before := entries.entries;
      a1in.PushBack(p, entries);
      PartAdded(a1inMap, before, entries.entries, {p, old(a1in.tail)}, old(a1in.chain), p);
      ZeroNotIn(before, am.chain);
      OtherPart(amMap, before, entries.entries, {p, old(a1in.tail)}, am.chain);
      a1inMap := a1inMap[entries.entries[p].key := p];
    }

    method NewEntry(key: nat, bytes: nat) returns (p: nat)
      requires Parts()
      modifies entries
      ensures Parts() && Abs() == old(Abs()) && p != 0 && p in entries.entries && NotIn(p, a1in.chain) && NotIn(p, am.chain)
      ensures entries.entries[p].key == key && entries.entries[p].size == bytes
    {
      hide Distinct, Linked, MapOk;
      ghost var before := entries.entries;
      p := entries.Alloc(key, bytes);
      FreshNotIn(a1inMap, before, a1in.chain, p);
      FreshNotIn(amMap, before, am.chain, p);
      OtherEntry(a1inMap, before, entries.entries, a1in.chain, p);
      OtherEntry(amMap, before, entries.entries, am.chain, p);
    }

    method FreeEntry(p: nat)
      requires Parts() && p in entries.entries && NotIn(p, a1in.chain) && NotIn(p, am.chain)
      modifies entries`entries
      ensures Parts() && Abs() == old(Abs())
      ensures forall q :: q in old(entries.entries) && q != p ==> q in entries.entries && entries.entries[q] == old(entries.entries[q])
    {
      hide Distinct, Linked, MapOk;
      ghost var before := entries.entries;
      entries.Free(p);
      OtherEntry(a1inMap, before, entries.entries, a1in.chain, p);
      OtherEntry(amMap, before, entries.entries, am.chain, p);
    }

    method PushGhost(key: nat)
      requires Parts() && key !in a1outMap
      modifies `a1outMap, ghosts, a1out
      ensures Parts() && Abs() == old(Abs()).(a1out := old(Abs()).a1out + [key])
    {
      hide Distinct, Linked, MapOk;
      var g := NewGhost(key);
      ghost var between, chain := ghosts.entries, a1out.chain;
      PartInPool(a1outMap, between, chain);
      a1out.PushBack(g, ghosts);
      PartAdded(a1outMap, between, ghosts.entries, {g, old(a1out.tail)}, chain, g);
      KeysAdded(Items(between, chain), Item(key, 0));
      a1outMap := a1outMap[key := g];
    }

    method NewGhost(key: nat) returns (g: nat)
      requires Parts()
      modifies ghosts
      ensures Parts() && Abs() == old(Abs()) && g != 0 && g in ghosts.entries && NotIn(g, a1out.chain)
      ensures ghosts.entries[g].key == key && ghosts.entries[g].size == 0
    {
      hide Distinct, Linked, MapOk;
      ghost var before := ghosts.entries;
      g := ghosts.Alloc(key, 0);
      FreshNotIn(a1outMap, before, a1out.chain, g);
      OtherEntry(a1outMap, before, ghosts.entries, a1out.chain, g);
    }

    method DropGhost(g: nat, ghost k: nat)
      requires Parts() && k < |a1out.chain| && g == a1out.chain[k]
      modifies `a1outMap, ghosts`entries, a1out
      ensures Parts() && Abs() == old(Abs()).(a1out := Dropped(old(Abs()).a1out, k))
    {
      UnlinkGhost(g, k);
      FreeGhost(g);
    }

    method UnlinkGhost(g: nat, ghost k: nat)
      requires Parts() && k < |a1out.chain| && g == a1out.chain[k]
      modifies `a1outMap, ghosts`entries, a1out
      ensures Parts() && Abs() == old(Abs()).(a1out := Dropped(old(Abs()).a1out, k))
      ensures g in ghosts.entries && NotIn(g, a1out.chain)
    {
      hide Linked, Distinct, MapOk, NotIn, NoShared;
      ghost var before, chain := ghosts.entries, a1out.chain;
      ChainLinked(before, chain, k);
      PartInPool(a1outMap, before, chain);
      KeysOfDropped(Items(before, chain), k);
      DroppedNotIn(chain, k);
      a1out.Unlink(g, ghosts, k);
      PartDropped(a1outMap, before, ghosts.entries, chain, k);
      a1outMap := a1outMap - {ghosts.entries[g].key};
    }

    method FreeGhost(g: nat)
      requires Parts() && g in ghosts.entries && NotIn(g, a1out.chain)
      modifies ghosts`entries
      ensures Parts() && Abs() == old(Abs())
    {
      hide Distinct, Linked, MapOk;
      ghost var before := ghosts.entries;
      ghosts.Free(g);
      OtherEntry(a1outMap, before, ghosts.entries, a1out.chain, g);
    }

    // ----- get

    // Asking for an entry of A1in promotes it; one of Am becomes the most recently used. 0 if there is none.
    method Get(k: nat) returns (p: nat)
      requires Valid()
      modifies this, entries, a1in, am
      ensures Valid() && Abs() == TwoQueue.Get(old(Abs()), k)
      ensures p != 0 <==> Cached(old(Abs()), k)
    {
      hide Linked, Distinct, Part, NoShared, Once, Tally, Bytes, Keys, Index, Dropped, At;
      ghost var c := Abs();
      PartInPool(a1inMap, entries.entries, a1in.chain);
      KeyPlaces(a1inMap, amMap, a1outMap, entries.entries, ghosts.entries, a1in.chain, am.chain, a1out.chain, k);
      GetKeepsOnce(c, k);
      GetIs(c, k);
      if k in a1inMap {
        p := a1inMap[k];
        a1inSize := a1inSize - entries.entries[p].size;
        Promote(p, Index(Keys(c.a1in), k));
      } else if k in amMap {
        p := amMap[k];
        TouchAm(p, Index(Keys(c.am), k));
      } else {
        p := 0;
      }
    }

    // splice_back from A1in to Am.
    method Promote(p: nat, ghost i: nat)
      requires Parts() && i < |a1in.chain| && p == a1in.chain[i] && Abs().a1in[i].key !in amMap
      modifies `a1inMap, `amMap, entries, a1in, am
      ensures Parts() && p != 0
      ensures Abs() == old(Abs()).(a1in := Dropped(old(Abs()).a1in, i), am := old(Abs()).am + [old(Abs()).a1in[i]])
    {
      hide Linked, Distinct, MapOk, NoShared, Dropped;
      UnlinkA1in(p, i);
      PushAm(p);
    }

    // move_to_back
    method TouchAm(p: nat, ghost i: nat)
      requires Parts() && i < |am.chain| && p == am.chain[i]
      modifies entries`entries, am
      ensures Parts() && p != 0
      ensures Abs() == old(Abs()).(am := Dropped(old(Abs()).am, i) + [old(Abs()).am[i]])
    {
      hide Linked, Distinct, MapOk, NoShared, NotIn;
      ghost var before, chain := entries.entries, am.chain;
      ChainLinked(before, chain, i);
      DroppedApart(chain, a1in.chain, i);
      am.MoveToBack(p, entries, i);
      PartMoved(amMap, before, entries.entries, chain, i);
      OtherPart(a1inMap, before, entries.entries, AllOf(chain), a1in.chain);
      MovedApart(chain, a1in.chain, i);
    }

    // ----- put

    method Put(k: nat, bytes: nat, evictable: set<nat>)
      requires Valid()
      modifies this, entries, ghosts, a1in, a1out, am
      ensures Valid() && Abs() == TwoQueue.Put(old(Abs()), k, bytes, lim, evictable)
    {
      hide Part, NoShared, Once, Tally, Bytes, Insert, Prune;
      KeyPlaces(a1inMap, amMap, a1outMap, entries.entries, ghosts.entries, a1in.chain, am.chain, a1out.chain, k);
      if k in a1inMap || k in amMap {
        return;
      }
      InsertNew(k, bytes);
      PruneAll(evictable);
    }

    method InsertNew(k: nat, bytes: nat)
      requires Valid() && !Cached(Abs(), k) && k !in a1inMap && k !in amMap
      modifies this, entries, ghosts, a1in, a1out, am
      ensures Valid() && Abs() == Insert(old(Abs()), k, bytes)
    {
      hide Linked, Distinct, Part, NoShared, Once, Tally, Bytes, Keys, Index, Insert, Dropped, Items;
      ghost var c := Abs();
      InsertKeepsOnce(c, k, bytes);
      InsertBytes(c, k, bytes);
      InsertIs(c, k, bytes);
      KeyPlaces(a1inMap, amMap, a1outMap, entries.entries, ghosts.entries, a1in.chain, am.chain, a1out.chain, k);
      size := size + bytes;
      if k in a1outMap {
        InsertAgain(k, bytes, Index(c.a1out, k));
      } else {
        InsertFirst(k, bytes);
        a1inSize := a1inSize + bytes;
      }
    }

    // A key among the ghosts comes back into Am.
    method InsertAgain(k: nat, bytes: nat, ghost i: nat)
      requires Parts() && k in a1outMap && i < |a1out.chain| && a1outMap[k] == a1out.chain[i] && k !in amMap
      modifies `a1outMap, `amMap, entries, ghosts, a1out, am
      ensures Parts() && Abs() == old(Abs()).(a1out := Dropped(old(Abs()).a1out, i), am := old(Abs()).am + [Item(k, bytes)])
    {
      hide Part, NoShared, Keys, Dropped;
      DropGhost(a1outMap[k], i);
      var p := NewEntry(k, bytes);
      PushAm(p);
    }

    method InsertFirst(k: nat, bytes: nat)
      requires Parts() && k !in a1inMap
      modifies `a1inMap, entries, a1in
      ensures Parts() && Abs() == old(Abs()).(a1in := old(Abs()).a1in + [Item(k, bytes)])
    {
      hide Part, NoShared, Keys;
      var p := NewEntry(k, bytes);
      PushA1in(p);
    }

    // prune
    method PruneAll(evictable: set<nat>)
      requires Valid()
      modifies this, entries, ghosts, a1in, a1out, am
      ensures Valid() && Abs() == Prune(old(Abs()), lim, evictable)
    {
      hide Linked, Distinct, Part, NoShared, Once, Tally, Bytes, Keep, Gone, Newest, Keys, Items;
      MaintainA1in(evictable);
      MaintainA1out();
      PruneAm(evictable);
    }

    // ----- A1in

    method MaintainA1in(evictable: set<nat>)
      requires Valid()
      modifies this, entries, ghosts, a1in, a1out
      ensures Valid() && am.chain == old(am.chain)
      ensures var ex := Bytes(old(Abs()).a1in) - lim.a1in;
        Abs() == old(Abs()).(a1in := Keep(old(Abs()).a1in, ex, evictable), a1out := old(Abs()).a1out + Keys(Gone(old(Abs()).a1in, ex, evictable)))
    {
      hide Linked, Distinct, Part, NoShared, Once, Tally, Bytes, Keep, Gone, Merge;
      ghost var c := Abs();
      if a1inSize <= lim.a1in {
        KeepAll(c.a1in, Bytes(c.a1in) - lim.a1in, evictable);
        assert c.a1out + Keys([]) == c.a1out;
        return;
      }
      PassSplits(c.a1in, Bytes(c.a1in) - lim.a1in, evictable);
      var toEvict, kept := MarkA1in(evictable);
      EvictAll(toEvict, kept);
    }

    // One pass over A1in; the byte counters change at once.
    method MarkA1in(evictable: set<nat>) returns (toEvict: seq<nat>, ghost kept: seq<nat>)
      requires Valid()
      modifies `size, `a1inSize
      ensures Parts() && Abs() == old(Abs()) && Merge(a1in.chain, kept, toEvict)
      ensures InPool(entries.entries, toEvict) && InPool(entries.entries, kept)
      ensures var ex := Bytes(Abs().a1in) - lim.a1in;
        && Items(entries.entries, toEvict) == Gone(Abs().a1in, ex, evictable)
        && Items(entries.entries, kept) == Keep(Abs().a1in, ex, evictable)
        && size == old(size) - Bytes(Gone(Abs().a1in, ex, evictable)) && a1inSize == old(a1inSize) - Bytes(Gone(Abs().a1in, ex, evictable))
    {
      hide Once, Tally, Bytes, Keep, Gone, Merge, MapOk, NoShared, Marking, Items;
      ghost var chain := a1in.chain;
      PartInPool(a1inMap, entries.entries, chain);
      ghost var ex := Bytes(Items(entries.entries, chain)) - lim.a1in;
      ghost var i := 0;
      var e, target := a1in.head, a1inSize;
      toEvict, kept := [], [];
      MarkingStarts(entries.entries, chain, ex, evictable);
      while e != 0 && target > lim.a1in
        invariant i <= |chain| && e == At(chain, i) && target == a1inSize && Parts() && Abs() == old(Abs())
        invariant Marking(entries.entries, chain, i, ex, target - lim.a1in, toEvict, kept, evictable)
        invariant a1inSize + BytesAt(entries.entries, toEvict) == old(a1inSize)
        invariant size + BytesAt(entries.entries, toEvict) == old(size)
        decreases |chain| - i
      {
        assert LinkedAt(entries.entries, chain, i);
        MarkingGoes(entries.entries, chain, i, ex, target - lim.a1in, toEvict, kept, evictable);
        var x := entries.entries[e];
        if x.key in evictable {
          target := target - x.size;
          size := size - x.size;
          a1inSize := a1inSize - x.size;
          toEvict := toEvict + [e];
        } else {
          kept := kept + [e];
        }
        e := x.next;
        i := i + 1;
      }
      NotNull(chain, i);
      MarkingEnds(entries.entries, chain, i, ex, target - lim.a1in, toEvict, kept, evictable);
      kept := kept + chain[i..];
    }

    // Turns the marked entries into ghosts.
    method EvictAll(toEvict: seq<nat>, ghost kept: seq<nat>)
      requires Parts() && Once(Abs()) && Merge(a1in.chain, kept, toEvict)
      requires InPool(entries.entries, toEvict) && InPool(entries.entries, kept)
      modifies `a1inMap, `a1outMap, entries, ghosts, a1in, a1out
      ensures Parts() && Once(Abs()) && am.chain == old(am.chain)
      ensures Abs() == old(Abs()).(a1in := Items(old(entries.entries), kept), a1out := old(Abs()).a1out + Keys(Items(old(entries.entries), toEvict)))
    {
      hide Linked, Distinct, Part, NoShared, Once, Tally, Merge, SameOn, Keys, Dropped, Bytes, Items;
      ghost var start := entries.entries;
      var n: nat := 0;
      PartInPool(a1inMap, start, a1in.chain);
      SameOnStarts(start, a1in.chain);
      KeysNone();
      assert toEvict[0..] == toEvict && Items(start, toEvict[..0]) == [];
      while n < |toEvict|
        invariant n <= |toEvict| && Parts() && Once(Abs()) && Merge(a1in.chain, kept, toEvict[n..])
        invariant SameOn(start, entries.entries, a1in.chain) && am.chain == old(am.chain) && Abs().am == old(Abs()).am
        invariant Abs().a1out == old(Abs()).a1out + Keys(Items(start, toEvict[..n]))
      {
        assert toEvict[n..][1..] == toEvict[n + 1..];
        KeysMore(start, toEvict, n);
        Assoc(old(Abs()).a1out, Keys(Items(start, toEvict[..n])), [start[toEvict[n]].key]);
        EvictNext(toEvict[n], toEvict[n..], kept, start);
        n := n + 1;
      }
      assert toEvict[n..] == [] && toEvict[..n] == toEvict;
      MergeKept(a1in.chain, kept);
      SameItemsOn(start, entries.entries, kept);
    }

    method EvictNext(p: nat, ghost gone: seq<nat>, ghost kept: seq<nat>, ghost start: map<nat, Entry>)
      requires Parts() && Once(Abs()) && Merge(a1in.chain, kept, gone) && gone != [] && p == gone[0]
      requires SameOn(start, entries.entries, a1in.chain) && p in start
      modifies `a1inMap, `a1outMap, entries, ghosts, a1in, a1out
      ensures Parts() && Once(Abs()) && Merge(a1in.chain, kept, gone[1..]) && am.chain == old(am.chain)
      ensures Abs().am == old(Abs()).am && Abs().a1out == old(Abs()).a1out + [start[p].key]
      ensures SameOn(start, entries.entries, a1in.chain)
    {
      hide Linked, Distinct, Part, NoShared, Once, Tally, Merge, SameOn, Keys, Dropped, Bytes;
      ghost var k := MergeFirst(a1in.chain, kept, gone);
      ghost var chain, before := a1in.chain, entries.entries;
      SameKey(start, before, chain, k);
      PartInPool(a1inMap, before, chain);
      EvictOne(p, k);
      SameOnTwice(start, before, entries.entries, chain, k);
    }

    // One marked entry: its key goes to the ghosts, the entry to the pool.
    method EvictOne(p: nat, ghost k: nat)
      requires Parts() && Once(Abs()) && k < |a1in.chain| && p == a1in.chain[k]
      modifies `a1inMap, `a1outMap, entries, ghosts, a1in, a1out
      ensures Parts() && Once(Abs()) && a1in.chain == Dropped(old(a1in.chain), k) && am.chain == old(am.chain)
      ensures Abs() == old(Abs()).(a1in := Dropped(old(Abs()).a1in, k), a1out := old(Abs()).a1out + [old(Abs()).a1in[k].key])
      ensures SameOn(old(entries.entries), entries.entries, a1in.chain)
    {
      hide Linked, Distinct, Part, NoShared, NotIn, Once, Tally, Keys, Dropped, Index;
      ghost var c := Abs();
      EvictKeepsOnce(c, k);
      PartInPool(a1inMap, entries.entries, a1in.chain);
      var key := entries.entries[p].key;
      KeyPlaces(a1inMap, amMap, a1outMap, entries.entries, ghosts.entries, a1in.chain, am.chain, a1out.chain, key);
      KeyIn(c.a1in, k);
      PushGhost(key);
      UnlinkA1in(p, k);
      FreeEntry(p);
      PartInPool(a1inMap, entries.entries, a1in.chain);
      SameByItems(old(entries.entries), entries.entries, old(a1in.chain), k);
    }

    // ----- ghosts and Am

    method MaintainA1out()
      requires Valid()
      modifies `a1outMap, ghosts, a1out
      ensures Valid() && Abs() == old(Abs()).(a1out := Newest(old(Abs()).a1out, lim.a1out)) && am.chain == old(am.chain)
    {
      hide Linked, Distinct, Part, NoShared, Once, Tally, Bytes, Newest, Keys;
      ghost var c := Abs();
      while a1out.count > lim.a1out && a1out.count > 0
        invariant Valid() && Abs().a1in == c.a1in && Abs().am == c.am && am.chain == old(am.chain)
        invariant Newest(Abs().a1out, lim.a1out) == Newest(c.a1out, lim.a1out)
        decreases a1out.count
      {
        OldestGoes(Abs(), lim.a1out);
        DropGhost(a1out.head, 0);
      }
      NewestDone(Abs().a1out, lim.a1out);
    }

    // Evicts from Am until the cache fits or everything is pinned.
    method PruneAm(evictable: set<nat>)
      requires Valid()
      modifies `size, `amMap, entries, am
      ensures Valid()
      ensures Abs() == old(Abs()).(am := Keep(old(Abs()).am, Bytes(old(Abs()).a1in) + Bytes(old(Abs()).am) - lim.capacity, evictable))
    {
      hide Linked, Distinct, Part, NoShared, Once, Tally, Bytes, Keep, Keys, Items, Dropped;
      ghost var c := Abs();
      ghost var ex := Bytes(c.a1in) + Bytes(c.am) - lim.capacity;
      while size > lim.capacity && am.count > 0
        invariant Valid() && Abs().a1in == c.a1in && Abs().a1out == c.a1out
        invariant Keep(Abs().am, size - lim.capacity, evictable) == Keep(c.am, ex, evictable)
        decreases am.count
      {
        var p, k := FirstEvictable(evictable);
        if p == 0 {
          KeepPinned(Abs().am, size - lim.capacity, evictable);
          return;
        }
        KeepRestart(Abs().am, size - lim.capacity, evictable, k);
        RemoveAm(p, k);
      }
      KeepDone(Abs().am, size - lim.capacity, evictable);
    }

    method FirstEvictable(evictable: set<nat>) returns (p: nat, ghost k: nat)
      requires Valid()
      ensures p != 0 ==> k < |am.chain| && p == am.chain[k] && Abs().am[k].key in evictable
      ensures p != 0 ==> forall j :: 0 <= j < k ==> Abs().am[j].key !in evictable
      ensures p == 0 ==> forall x :: x in Abs().am ==> x.key !in evictable
    {
      hide NoShared, Once, Tally, Bytes, MapOk;
      k := 0;
      p := am.head;
      while p != 0
        invariant k <= |am.chain| && p == At(am.chain, k)
        invariant forall j :: 0 <= j < k ==> Abs().am[j].key !in evictable
        decreases |am.chain| - k
      {
        assert LinkedAt(entries.entries, am.chain, k);
        if entries.entries[p].key in evictable {
          assert p in am.chain;
          return;
        }
        p := entries.entries[p].next;
        k := k + 1;
      }
      NullAtEnd(am.chain, k);
    }

    method RemoveAm(p: nat, ghost k: nat)
      requires Valid() && k < |am.chain| && p == am.chain[k]
      modifies `size, `amMap, entries, am
      ensures Valid() && Abs() == old(Abs()).(am := Dropped(old(Abs()).am, k)) && size == old(size) - old(Abs()).am[k].size
      ensures am.count == old(am.count) - 1
    {
      hide Linked, Distinct, Part, NoShared, NotIn, Once, Tally, Bytes, Keys;
      ghost var c := Abs();
      PartInPool(amMap, entries.entries, am.chain);
      BytesDropped(c.am, k);
      RemoveKeepsOnce(c, k);
      size := size - entries.entries[p].size;
      UnlinkAm(p, k);
      FreeEntry(p);
    }
  }

  ghost predicate SameOn(before: map<nat, Entry>, after: map<nat, Entry>, chain: seq<nat>) {
    forall p :: p in chain ==> p in before && p in after && after[p].key == before[p].key && after[p].size == before[p].size
  }

  lemma {:induction false} SameByItems(before: map<nat, Entry>, after: map<nat, Entry>, chain: seq<nat>, k: nat)
    requires InPool(before, chain) && k < |chain| && InPool(after, Dropped(chain, k))
    requires Items(after, Dropped(chain, k)) == Dropped(Items(before, chain), k)
    ensures SameOn(before, after, Dropped(chain, k))
  {
    var rest := Dropped(chain, k);
    forall j | 0 <= j < |rest|
      ensures rest[j] in before && after[rest[j]].key == before[rest[j]].key && after[rest[j]].size == before[rest[j]].size
    {
      var i := if j < k then j else j + 1;
      assert rest[j] == chain[i] && Items(after, rest)[j] == Items(before, chain)[i];
    }
  }

  lemma {:induction false} SameKey(before: map<nat, Entry>, after: map<nat, Entry>, chain: seq<nat>, k: nat)
    requires SameOn(before, after, chain) && k < |chain|
    ensures chain[k] in before && chain[k] in after && after[chain[k]].key == before[chain[k]].key
  {
    assert chain[k] in chain;
  }

  lemma {:induction false} Assoc(a: seq<nat>, b: seq<nat>, c: seq<nat>)
    ensures (a + b) + c == a + (b + c)
  {
  }

  lemma {:induction false} SameOnTwice(a: map<nat, Entry>, b: map<nat, Entry>, c: map<nat, Entry>, chain: seq<nat>, k: nat)
    requires SameOn(a, b, chain) && k < |chain| && SameOn(b, c, Dropped(chain, k))
    ensures SameOn(a, c, Dropped(chain, k))
  {
    forall j | 0 <= j < |Dropped(chain, k)|
      ensures Dropped(chain, k)[j] in chain
    {
      assert Dropped(chain, k)[j] == chain[if j < k then j else j + 1];
    }
  }

  lemma {:induction false} SameItemsOn(a: map<nat, Entry>, b: map<nat, Entry>, chain: seq<nat>)
    requires SameOn(a, b, chain)
    ensures InPool(a, chain) && InPool(b, chain) && Items(b, chain) == Items(a, chain)
  {
  }

  lemma {:induction false} BytesOne(x: Item)
    ensures Bytes([x]) == x.size
  {
    assert [x][1..] == [];
  }

  lemma {:induction false} MergeNothing(chain: seq<nat>)
    ensures Merge(chain[..0], [], [])
  {
  }

  lemma {:induction false} KeyIn(items: seq<Item>, k: nat)
    requires k < |items|
    ensures items[k].key in Keys(items)
  {
    assert Keys(items)[k] == items[k].key;
  }

  lemma {:induction false} NullAtEnd(chain: seq<nat>, k: nat)
    requires Distinct(chain) && k <= |chain| && At(chain, k) == 0
    ensures k == |chain|
  {
  }

  // The entry the map gives is where the list has the key.
  ghost predicate FoundAt(m: map<nat, nat>, keys: seq<nat>, chain: seq<nat>, k: nat) {
    k in m ==> Index(keys, k) < |chain| == |keys| && m[k] == chain[Index(keys, k)]
  }

  // Where a key can be found, and that it is found in one place only.
  lemma {:induction false} KeyPlaces(inMap: map<nat, nat>, amMap: map<nat, nat>, outMap: map<nat, nat>, entries: map<nat, Entry>,
                                     ghosts: map<nat, Entry>, a1in: seq<nat>, am: seq<nat>, a1out: seq<nat>, k: nat)
    requires Part(inMap, entries, a1in) && Part(amMap, entries, am) && Part(outMap, ghosts, a1out)
    requires Once(Cache(Items(entries, a1in), Keys(Items(ghosts, a1out)), Items(entries, am)))
    ensures k in inMap <==> k in Keys(Items(entries, a1in))
    ensures k in amMap <==> k in Keys(Items(entries, am))
    ensures k in outMap <==> k in Keys(Items(ghosts, a1out))
    ensures k in inMap ==> k !in amMap && k !in outMap
    ensures k in amMap ==> k !in outMap
    ensures FoundAt(inMap, Keys(Items(entries, a1in)), a1in, k) && FoundAt(amMap, Keys(Items(entries, am)), am, k)
    ensures FoundAt(outMap, Keys(Items(ghosts, a1out)), a1out, k)
  {
    MapFinds(inMap, entries, a1in, k);
    MapFinds(amMap, entries, am, k);
    MapFinds(outMap, ghosts, a1out, k);
    var c := Cache(Items(entries, a1in), Keys(Items(ghosts, a1out)), Items(entries, am));
    assert Tally(c)[k] == multiset(Keys(c.a1in))[k] + multiset(c.a1out)[k] + multiset(Keys(c.am))[k];
  }

  lemma {:induction false} ItemsMore(entries: map<nat, Entry>, chain: seq<nat>, p: nat)
    requires InPool(entries, chain) && p in entries
    ensures InPool(entries, chain + [p]) && Items(entries, chain + [p]) == Items(entries, chain) + [Item(entries[p].key, entries[p].size)]
    ensures Bytes(Items(entries, chain + [p])) == Bytes(Items(entries, chain)) + entries[p].size
  {
    BytesJoin(Items(entries, chain), [Item(entries[p].key, entries[p].size)]);
    BytesOne(Item(entries[p].key, entries[p].size));
  }

  lemma {:induction false} KeysMore(entries: map<nat, Entry>, chain: seq<nat>, n: nat)
    requires InPool(entries, chain) && n < |chain|
    ensures Keys(Items(entries, chain[..n + 1])) == Keys(Items(entries, chain[..n])) + [entries[chain[n]].key]
  {
  }

  // One more entry looked at.
  lemma {:induction false} MarkStep(items: seq<Item>, i: nat, ex0: int, ex: int, marked: seq<Item>, kept: seq<Item>, evictable: set<nat>)
    requires i < |items| && ex > 0
    requires marked + Gone(items[i..], ex, evictable) == Gone(items, ex0, evictable)
    requires kept + Keep(items[i..], ex, evictable) == Keep(items, ex0, evictable)
    ensures var x := items[i];
      if x.key in evictable
      then (marked + [x]) + Gone(items[i + 1..], ex - x.size, evictable) == Gone(items, ex0, evictable)
           && kept + Keep(items[i + 1..], ex - x.size, evictable) == Keep(items, ex0, evictable)
           && Bytes(marked) + x.size <= Bytes(items)
      else marked + Gone(items[i + 1..], ex, evictable) == Gone(items, ex0, evictable)
           && (kept + [x]) + Keep(items[i + 1..], ex, evictable) == Keep(items, ex0, evictable)
  {
    var x, rest := items[i], items[i + 1..];
    assert items[i..][0] == x && items[i..][1..] == rest;
    PassSoFar(items[i..], ex, evictable);
    if x.key in evictable {
      var g := Gone(rest, ex - x.size, evictable);
      assert marked + ([x] + g) == (marked + [x]) + g;
      PassSplits(items, ex0, evictable);
      BytesJoin(marked + [x], g);
      BytesJoin(marked, [x]);
      BytesOne(x);
    } else {
      var h := Keep(rest, ex, evictable);
      assert kept + ([x] + h) == (kept + [x]) + h;
    }
  }

  // The rest is not looked at any more or was already.
  lemma {:induction false} RestKept(entries: map<nat, Entry>, chain: seq<nat>, i: nat, kept: seq<nat>, gone: seq<nat>, ex: int, evictable: set<nat>)
    requires InPool(entries, chain) && i <= |chain| && InPool(entries, kept) && InPool(entries, gone) && Merge(chain[..i], kept, gone)
    requires i == |chain| || ex <= 0
    ensures Merge(chain, kept + chain[i..], gone) && InPool(entries, kept + chain[i..])
    ensures Gone(Items(entries, chain)[i..], ex, evictable) == []
    ensures Items(entries, kept + chain[i..]) == Items(entries, kept) + Keep(Items(entries, chain)[i..], ex, evictable)
  {
    hide Keep, Gone, Merge;
    var rest := Items(entries, chain)[i..];
    if i < |chain| {
      KeepAll(rest, ex, evictable);
    } else {
      assert rest == [];
      PassNothing(ex, evictable);
    }
    MergeRest(chain[..i], kept, gone, chain[i..]);
    assert chain[..i] + chain[i..] == chain;
    assert Items(entries, kept + chain[i..]) == Items(entries, kept) + rest;
  }

  lemma {:induction false} PassNothing(ex: int, evictable: set<nat>)
    ensures Keep([], ex, evictable) == [] && Gone([], ex, evictable) == []
  {
  }

  ghost function BytesAt(entries: map<nat, Entry>, chain: seq<nat>): nat {
    if InPool(entries, chain) then Bytes(Items(entries, chain)) else 0
  }

  // What the pass has decided for the first i entries.
  ghost predicate Marking(entries: map<nat, Entry>, chain: seq<nat>, i: nat, ex0: int, ex: int, gone: seq<nat>, kept: seq<nat>, evictable: set<nat>) {
    && InPool(entries, chain) && InPool(entries, gone) && InPool(entries, kept) && i <= |chain| && Merge(chain[..i], kept, gone)
    && Items(entries, gone) + Gone(Items(entries, chain)[i..], ex, evictable) == Gone(Items(entries, chain), ex0, evictable)
    && Items(entries, kept) + Keep(Items(entries, chain)[i..], ex, evictable) == Keep(Items(entries, chain), ex0, evictable)
  }

  lemma {:induction false} MarkingStarts(entries: map<nat, Entry>, chain: seq<nat>, ex: int, evictable: set<nat>)
    requires InPool(entries, chain)
    ensures Marking(entries, chain, 0, ex, ex, [], [], evictable) && BytesAt(entries, []) == 0
  {
    assert Items(entries, chain)[0..] == Items(entries, chain) && Items(entries, []) == [];
    MergeNothing(chain);
    assert [] + Gone(Items(entries, chain), ex, evictable) == Gone(Items(entries, chain), ex, evictable);
    assert [] + Keep(Items(entries, chain), ex, evictable) == Keep(Items(entries, chain), ex, evictable);
  }

  lemma {:induction false} MarkingGoes(entries: map<nat, Entry>, chain: seq<nat>, i: nat, ex0: int, ex: int, gone: seq<nat>, kept: seq<nat>,
                                       evictable: set<nat>)
    requires Marking(entries, chain, i, ex0, ex, gone, kept, evictable) && i < |chain| && ex > 0
    ensures chain[i] in entries
    ensures var x := entries[chain[i]];
      if x.key in evictable
      then Marking(entries, chain, i + 1, ex0, ex - x.size, gone + [chain[i]], kept, evictable)
           && BytesAt(entries, gone + [chain[i]]) == BytesAt(entries, gone) + x.size
           && BytesAt(entries, gone) + x.size <= BytesAt(entries, chain)
      else Marking(entries, chain, i + 1, ex0, ex, gone, kept + [chain[i]], evictable)
  {
    hide Gone, Keep, Merge, Bytes;
    var items := Items(entries, chain);
    MarkStep(items, i, ex0, ex, Items(entries, gone), Items(entries, kept), evictable);
    MergeMore(chain[..i], kept, gone, chain[i]);
    assert chain[..i] + [chain[i]] == chain[..i + 1];
    ItemsMore(entries, gone, chain[i]);
    ItemsMore(entries, kept, chain[i]);
  }

  lemma {:induction false} MarkingEnds(entries: map<nat, Entry>, chain: seq<nat>, i: nat, ex0: int, ex: int, gone: seq<nat>, kept: seq<nat>,
                                       evictable: set<nat>)
    requires Marking(entries, chain, i, ex0, ex, gone, kept, evictable) && (i == |chain| || ex <= 0)
    ensures Merge(chain, kept + chain[i..], gone) && InPool(entries, gone) && InPool(entries, kept + chain[i..])
    ensures Items(entries, gone) == Gone(Items(entries, chain), ex0, evictable) && BytesAt(entries, gone) == Bytes(Items(entries, gone))
    ensures Items(entries, kept + chain[i..]) == Keep(Items(entries, chain), ex0, evictable)
  {
    RestKept(entries, chain, i, kept, gone, ex, evictable);
    assert Items(entries, gone) + [] == Items(entries, gone);
  }

  lemma {:induction false} NotNull(chain: seq<nat>, i: nat)
    requires Distinct(chain) && i <= |chain|
    ensures At(chain, i) == 0 <==> i == |chain|
  {
  }

  lemma {:induction false} SameOnStarts(entries: map<nat, Entry>, chain: seq<nat>)
    requires InPool(entries, chain)
    ensures SameOn(entries, entries, chain)
  {
  }

  lemma {:induction false} KeysNone()
    ensures Keys([]) == []
  {
  }

  lemma {:induction false} NewestDone(s: seq<nat>, n: nat)
    requires |s| <= n
    ensures Newest(s, n) == s
  {
  }

  ghost predicate Promoted(c: Cache, k: nat, i: nat)
    requires i < |c.a1in|
  {
    && c.a1in[i].key == k && TwoQueue.Get(c, k) == c.(a1in := Dropped(c.a1in, i), am := c.am + [c.a1in[i]])
    && Bytes(TwoQueue.Get(c, k).a1in) == Bytes(c.a1in) - c.a1in[i].size
  }

  // What Get does, by where the key is.
  lemma {:induction false} GetIs(c: Cache, k: nat)
    ensures var (i, j) := (Index(Keys(c.a1in), k), Index(Keys(c.am), k));
      && (k in Keys(c.a1in) ==> i < |c.a1in| && Promoted(c, k, i))
      && (k !in Keys(c.a1in) && k in Keys(c.am) ==> j < |c.am| && TwoQueue.Get(c, k) == c.(am := Dropped(c.am, j) + [c.am[j]]))
      && (!Cached(c, k) ==> TwoQueue.Get(c, k) == c)
    ensures Bytes(TwoQueue.Get(c, k).a1in) + Bytes(TwoQueue.Get(c, k).am) == Bytes(c.a1in) + Bytes(c.am)
  {
    hide Bytes, Dropped;
    GetBytes(c, k);
    var i := Index(Keys(c.a1in), k);
    if i < |c.a1in| {
      BytesDropped(c.a1in, i);
    }
  }

  lemma {:induction false} InsertIs(c: Cache, k: nat, size: nat)
    ensures k in c.a1out ==> Index(c.a1out, k) < |c.a1out|
    ensures k in c.a1out ==> Insert(c, k, size) == c.(a1out := Dropped(c.a1out, Index(c.a1out, k)), am := c.am + [Item(k, size)])
    ensures k !in c.a1out ==> Insert(c, k, size) == c.(a1in := c.a1in + [Item(k, size)])
  {
  }

  lemma {:induction false} GetKeepsOnce(c: Cache, k: nat)
    requires Once(c)
    ensures Once(TwoQueue.Get(c, k))
  {
    GetKeepsItems(c, k);
  }

  lemma {:induction false} GetBytes(c: Cache, k: nat)
    ensures Bytes(TwoQueue.Get(c, k).a1in) + Bytes(TwoQueue.Get(c, k).am) == Bytes(c.a1in) + Bytes(c.am)
  {
    var i, j := Index(Keys(c.a1in), k), Index(Keys(c.am), k);
    if i < |c.a1in| {
      BytesDropped(c.a1in, i);
      BytesJoin(c.am, [c.a1in[i]]);
      BytesOne(c.a1in[i]);
    } else if j < |c.am| {
      BytesDropped(c.am, j);
      BytesJoin(Dropped(c.am, j), [c.am[j]]);
      BytesOne(c.am[j]);
    }
  }

  lemma {:induction false} InsertKeepsOnce(c: Cache, k: nat, size: nat)
    requires Once(c) && !Cached(c, k)
    ensures Once(Insert(c, k, size))
  {
    InsertTally(c, k, size);
  }

  lemma {:induction false} InsertBytes(c: Cache, k: nat, size: nat)
    ensures Bytes(Insert(c, k, size).a1in) == Bytes(c.a1in) + if k in c.a1out then 0 else size
    ensures Bytes(Insert(c, k, size).am) == Bytes(c.am) + if k in c.a1out then size else 0
  {
    BytesJoin(c.a1in, [Item(k, size)]);
    BytesJoin(c.am, [Item(k, size)]);
    BytesOne(Item(k, size));
  }

  lemma {:induction false} EvictKeepsOnce(c: Cache, k: nat)
    requires Once(c) && k < |c.a1in|
    ensures Once(c.(a1in := Dropped(c.a1in, k), a1out := c.a1out + [c.a1in[k].key]))
  {
    TakeOut(c.a1in, k);
    var d := c.(a1in := Dropped(c.a1in, k), a1out := c.a1out + [c.a1in[k].key]);
    assert Tally(d) == Tally(c);
  }

  lemma {:induction false} RemoveKeepsOnce(c: Cache, k: nat)
    requires Once(c) && k < |c.am|
    ensures Once(c.(am := Dropped(c.am, k)))
  {
    TakeOut(c.am, k);
    assert Tally(c.(am := Dropped(c.am, k))) <= Tally(c);
  }

  lemma {:induction false} OldestGoes(c: Cache, n: nat)
    requires |c.a1out| > n
    ensures Newest(Dropped(c.a1out, 0), n) == Newest(c.a1out, n)
    ensures Once(c) ==> Once(c.(a1out := Dropped(c.a1out, 0)))
  {
    TakeOutOf(c.a1out, 0);
    TallyLess(c, Dropped(c.a1out, 0));
    NewestBehind(c.a1out, n);
  }

  lemma {:induction false} TallyLess(c: Cache, a1out: seq<nat>)
    requires multiset(a1out) <= multiset(c.a1out)
    ensures Tally(c.(a1out := a1out)) <= Tally(c)
  {
  }

  lemma {:induction false} NewestBehind(s: seq<nat>, n: nat)
    requires |s| > n
    ensures Newest(Dropped(s, 0), n) == Newest(s, n)
  {
    assert Dropped(s, 0) == s[1..];
  }

  lemma {:induction false} KeepDone(items: seq<Item>, excess: int, evictable: set<nat>)
    requires excess <= 0 || items == []
    ensures Keep(items, excess, evictable) == items
  {
    KeepAll(items, if items == [] then 0 else excess, evictable);
  }

  lemma {:induction false} DroppedNotIn(chain: seq<nat>, k: nat)
    requires k < |chain| && Distinct(chain)
    ensures NotIn(chain[k], Dropped(chain, k))
  {
    forall j | 0 <= j < |Dropped(chain, k)|
      ensures Dropped(chain, k)[j] != chain[k]
    {
      assert Dropped(chain, k)[j] == chain[if j < k then j else j + 1];
    }
  }

  lemma {:induction false} PartInPool(m: map<nat, nat>, entries: map<nat, Entry>, chain: seq<nat>)
    requires Part(m, entries, chain)
    ensures forall i :: 0 <= i < |chain| ==> chain[i] in entries
  {
  }

  lemma {:induction false} SharedBoth(a: seq<nat>, b: seq<nat>)
    ensures NoShared(a, b) <==> NoShared(b, a)
  {
  }

  lemma {:induction false} ZeroNotIn(entries: map<nat, Entry>, chain: seq<nat>)
    requires Distinct(chain)
    ensures 0 !in chain
  {
  }

  lemma {:induction false} FreshNotIn(m: map<nat, nat>, entries: map<nat, Entry>, chain: seq<nat>, p: nat)
    requires MapOk(m, entries, chain) && p !in entries
    ensures NotIn(p, chain)
  {
  }

  lemma {:induction false} KeysAdded(items: seq<Item>, x: Item)
    ensures Keys(items + [x]) == Keys(items) + [x.key]
  {
  }

  lemma {:induction false} KeysOfDropped(items: seq<Item>, k: nat)
    requires k < |items|
    ensures Keys(Dropped(items, k)) == Dropped(Keys(items), k)
  {
  }
}
