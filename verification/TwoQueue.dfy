// The 2Q cache on values (memory/_twoquecache.hpp): recent entries, ghosts of evicted ones, and
// entries that were asked for again.

module TwoQueue {
  datatype Item = Item(key: nat, size: nat)

  datatype Cache = Cache(a1in: seq<Item>, a1out: seq<nat>, am: seq<Item>)

  // a1in and capacity in bytes, a1out in entries.
  datatype Limits = Limits(capacity: nat, a1in: nat, a1out: nat)

  function Bytes(items: seq<Item>): nat {
    if items == [] then 0 else items[0].size + Bytes(items[1..])
  }

  function Keys(items: seq<Item>): (r: seq<nat>)
    ensures |r| == |items| && forall i :: 0 <= i < |r| ==> r[i] == items[i].key
  {
    seq(|items|, i requires 0 <= i < |items| => items[i].key)
  }

  // One pass from the front: while bytes have to go, entries that can be evicted go.
  function Keep(items: seq<Item>, excess: int, evictable: set<nat>): seq<Item> {
    if items == [] then []
    else if excess > 0 && items[0].key in evictable then Keep(items[1..], excess - items[0].size, evictable)
    else [items[0]] + Keep(items[1..], excess, evictable)
  }

  function Gone(items: seq<Item>, excess: int, evictable: set<nat>): seq<Item> {
    if items == [] then []
    else if excess > 0 && items[0].key in evictable then [items[0]] + Gone(items[1..], excess - items[0].size, evictable)
    else Gone(items[1..], excess, evictable)
  }

  function Newest<T>(s: seq<T>, n: nat): seq<T> {
    if |s| > n then s[|s| - n..] else s
  }

  // maintain_a1in_size, maintain_a1out_size and the eviction from Am.
  function Prune(c: Cache, lim: Limits, evictable: set<nat>): Cache {
    var excess := Bytes(c.a1in) - lim.a1in;
    var a1in := Keep(c.a1in, excess, evictable);
    var a1out := Newest(c.a1out + Keys(Gone(c.a1in, excess, evictable)), lim.a1out);
    Cache(a1in, a1out, Keep(c.am, Bytes(a1in) + Bytes(c.am) - lim.capacity, evictable))
  }

  function Index(keys: seq<nat>, k: nat): (i: nat)
    ensures i <= |keys| && (i < |keys| ==> keys[i] == k)
    ensures i == |keys| <==> k !in keys
  {
    if keys == [] || keys[0] == k then 0 else 1 + Index(keys[1..], k)
  }

  function Dropped<T>(s: seq<T>, i: nat): seq<T>
    requires i < |s|
  {
    s[..i] + s[i + 1..]
  }

  predicate Cached(c: Cache, k: nat) {
    k in Keys(c.a1in) || k in Keys(c.am)
  }

  // An entry that is asked for moves to the end of Am.
  function Get(c: Cache, k: nat): Cache {
    var i, j := Index(Keys(c.a1in), k), Index(Keys(c.am), k);
    if i < |c.a1in| then c.(a1in := Dropped(c.a1in, i), am := c.am + [c.a1in[i]])
    else if j < |c.am| then c.(am := Dropped(c.am, j) + [c.am[j]])
    else c
  }

  function Insert(c: Cache, k: nat, size: nat): Cache {
    var g := Index(c.a1out, k);
    if g < |c.a1out| then c.(a1out := Dropped(c.a1out, g), am := c.am + [Item(k, size)])
    else c.(a1in := c.a1in + [Item(k, size)])
  }

  function Put(c: Cache, k: nat, size: nat, lim: Limits, evictable: set<nat>): Cache {
    if Cached(c, k) then c else Prune(Insert(c, k, size), lim, evictable)
  }

  // ----- one pass

  lemma {:induction false} KeepAll(items: seq<Item>, excess: int, evictable: set<nat>)
    requires excess <= 0
    ensures Keep(items, excess, evictable) == items && Gone(items, excess, evictable) == []
  {
    if items != [] {
      KeepAll(items[1..], excess, evictable);
    }
  }

  // What goes and what stays make up what was there.
  lemma {:induction false} PassSplits(items: seq<Item>, excess: int, evictable: set<nat>)
    ensures multiset(Keep(items, excess, evictable)) + multiset(Gone(items, excess, evictable)) == multiset(items)
    ensures Bytes(Keep(items, excess, evictable)) + Bytes(Gone(items, excess, evictable)) == Bytes(items)
    ensures forall x :: x in Gone(items, excess, evictable) ==> x.key in evictable
  {
    if items != [] {
      assert items == [items[0]] + items[1..];
      var e := if excess > 0 && items[0].key in evictable then excess - items[0].size else excess;
      PassSplits(items[1..], e, evictable);
    }
  }

  // The pass frees enough, or everything that is left is pinned.
  lemma {:induction false} PassSuffices(items: seq<Item>, excess: int, evictable: set<nat>)
    ensures Bytes(Gone(items, excess, evictable)) >= excess || forall x :: x in Keep(items, excess, evictable) ==> x.key !in evictable
  {
    if items != [] {
      var e := if excess > 0 && items[0].key in evictable then excess - items[0].size else excess;
      PassSuffices(items[1..], e, evictable);
    }
  }

  // Nothing goes that could have stayed: before the last eviction bytes still had to go.
  lemma {:induction false} PassStops(items: seq<Item>, excess: int, evictable: set<nat>)
    requires Gone(items, excess, evictable) != []
    ensures var g := Gone(items, excess, evictable); Bytes(g[..|g| - 1]) < excess
  {
    var g := Gone(items, excess, evictable);
    if excess > 0 && items[0].key in evictable {
      var rest := Gone(items[1..], excess - items[0].size, evictable);
      if rest != [] {
        PassStops(items[1..], excess - items[0].size, evictable);
        assert g[..|g| - 1] == [items[0]] + rest[..|rest| - 1];
      } else {
        assert g[..|g| - 1] == [];
      }
    } else {
      PassStops(items[1..], excess, evictable);
    }
  }

  lemma {:induction false} KeysSplit(items: seq<Item>, excess: int, evictable: set<nat>)
    ensures multiset(Keys(Keep(items, excess, evictable))) + multiset(Keys(Gone(items, excess, evictable))) == multiset(Keys(items))
  {
    hide Keys;
    if items != [] {
      var x, rest := items[0], items[1..];
      var e := if excess > 0 && x.key in evictable then excess - x.size else excess;
      KeysSplit(rest, e, evictable);
      KeysFirst(x, Keep(rest, e, evictable));
      KeysFirst(x, Gone(rest, e, evictable));
      KeysFirst(x, rest);
      assert items == [x] + rest;
    }
  }

  lemma {:induction false} KeysFirst(x: Item, rest: seq<Item>)
    ensures multiset(Keys([x] + rest)) == multiset{x.key} + multiset(Keys(rest))
  {
    assert Keys([x] + rest) == [x.key] + Keys(rest);
  }

  lemma {:induction false} TakeOutOf<T>(s: seq<T>, i: nat)
    requires i < |s|
    ensures multiset(Dropped(s, i)) + multiset{s[i]} == multiset(s)
  {
    assert s == s[..i] + [s[i]] + s[i + 1..];
  }

  lemma {:induction false} TakeOut(items: seq<Item>, i: nat)
    requires i < |items|
    ensures multiset(Dropped(items, i)) + multiset{items[i]} == multiset(items)
    ensures multiset(Keys(Dropped(items, i))) + multiset{items[i].key} == multiset(Keys(items))
  {
    TakeOutOf(items, i);
    TakeOutOf(Keys(items), i);
    assert Keys(Dropped(items, i)) == Dropped(Keys(items), i);
  }

  // Starting over after each eviction gives the same as one pass.
  lemma {:induction false} KeepRestart(items: seq<Item>, excess: int, evictable: set<nat>, i: nat)
    requires excess > 0 && i < |items| && items[i].key in evictable && forall j :: 0 <= j < i ==> items[j].key !in evictable
    ensures Keep(items, excess, evictable) == Keep(Dropped(items, i), excess - items[i].size, evictable)
  {
    if i == 0 {
      assert Dropped(items, 0) == items[1..];
    } else {
      KeepRestart(items[1..], excess, evictable, i - 1);
      assert Dropped(items, i) == [items[0]] + Dropped(items[1..], i - 1);
    }
  }

  lemma {:induction false} KeepPinned(items: seq<Item>, excess: int, evictable: set<nat>)
    requires forall x :: x in items ==> x.key !in evictable
    ensures Keep(items, excess, evictable) == items
  {
    if items != [] {
      KeepPinned(items[1..], excess, evictable);
    }
  }

  lemma {:induction false} BytesJoin(a: seq<Item>, b: seq<Item>)
    ensures Bytes(a + b) == Bytes(a) + Bytes(b)
  {
    if a == [] {
      assert a + b == b;
    } else {
      BytesJoin(a[1..], b);
      assert (a + b)[1..] == a[1..] + b;
    }
  }

  lemma {:induction false} BytesDropped(items: seq<Item>, i: nat)
    requires i < |items|
    ensures Bytes(Dropped(items, i)) == Bytes(items) - items[i].size
  {
    assert items == items[..i] + ([items[i]] + items[i + 1..]);
    BytesJoin(items[..i], [items[i]] + items[i + 1..]);
    BytesJoin(items[..i], items[i + 1..]);
  }

  // The pass up to position i, and what it still has to do.
  lemma {:induction false} PassSoFar(items: seq<Item>, excess: int, evictable: set<nat>)
    requires items != []
    ensures var x := items[0];
      if excess > 0 && x.key in evictable
      then Gone(items, excess, evictable) == [x] + Gone(items[1..], excess - x.size, evictable)
           && Keep(items, excess, evictable) == Keep(items[1..], excess - x.size, evictable)
      else Gone(items, excess, evictable) == Gone(items[1..], excess, evictable)
           && Keep(items, excess, evictable) == [x] + Keep(items[1..], excess, evictable)
  {
  }

  // ----- no key is in two places

  function Tally(c: Cache): multiset<nat> {
    multiset(Keys(c.a1in)) + multiset(c.a1out) + multiset(Keys(c.am))
  }

  ghost predicate Once(c: Cache) {
    forall k :: Tally(c)[k] <= 1
  }

  lemma {:induction false} NewestLess(s: seq<nat>, n: nat)
    ensures multiset(Newest(s, n)) <= multiset(s) && |Newest(s, n)| <= n
  {
    if |s| > n {
      assert s == s[..|s| - n] + s[|s| - n..];
    }
  }

  lemma {:induction false} KeysJoin(a: seq<Item>, b: seq<Item>)
    ensures Keys(a + b) == Keys(a) + Keys(b)
  {
  }

  lemma {:induction false} Less3(a: multiset<nat>, a1: multiset<nat>, a2: multiset<nat>, b: multiset<nat>, b1: multiset<nat>,
                                 c: multiset<nat>, c1: multiset<nat>, c2: multiset<nat>)
    requires a1 + a2 == a && b1 <= b + a2 && c1 + c2 == c
    ensures a1 + b1 + c1 <= a + b + c
  {
  }

  lemma {:induction false} PruneTally(c: Cache, lim: Limits, evictable: set<nat>)
    ensures Tally(Prune(c, lim, evictable)) <= Tally(c)
  {
    hide Keep, Gone, Bytes, Newest;
    var excess := Bytes(c.a1in) - lim.a1in;
    var keep, gone := Keep(c.a1in, excess, evictable), Gone(c.a1in, excess, evictable);
    KeysSplit(c.a1in, excess, evictable);
    var out := Newest(c.a1out + Keys(gone), lim.a1out);
    NewestLess(c.a1out + Keys(gone), lim.a1out);
    var e := Bytes(keep) + Bytes(c.am) - lim.capacity;
    KeysSplit(c.am, e, evictable);
    assert multiset(c.a1out + Keys(gone)) == multiset(c.a1out) + multiset(Keys(gone));
    Less3(multiset(Keys(c.a1in)), multiset(Keys(keep)), multiset(Keys(gone)), multiset(c.a1out), multiset(out),
          multiset(Keys(c.am)), multiset(Keys(Keep(c.am, e, evictable))), multiset(Keys(Gone(c.am, e, evictable))));
  }

  lemma {:induction false} AddLast(items: seq<Item>, x: Item)
    ensures multiset(items + [x]) == multiset(items) + multiset{x}
    ensures multiset(Keys(items + [x])) == multiset(Keys(items)) + multiset{x.key}
  {
    KeysJoin(items, [x]);
    assert Keys([x]) == [x.key];
  }

  lemma {:induction false} InsertTally(c: Cache, k: nat, size: nat)
    ensures Tally(Insert(c, k, size)) == if k in c.a1out then Tally(c) else Tally(c) + multiset{k}
  {
    hide Dropped, Keys;
    var g := Index(c.a1out, k);
    if g < |c.a1out| {
      AddLast(c.am, Item(k, size));
      TakeOutOf(c.a1out, g);
      MovesOver(multiset(Keys(c.a1in)), multiset(Dropped(c.a1out, g)), multiset{k}, multiset(Keys(c.am)));
    } else {
      AddLast(c.a1in, Item(k, size));
      MovesOut(multiset(Keys(c.a1in)), multiset{k}, multiset(c.a1out), multiset(Keys(c.am)));
    }
  }

  lemma {:induction false} MovesOver<T>(a: multiset<T>, b: multiset<T>, x: multiset<T>, c: multiset<T>)
    ensures a + b + (c + x) == a + (b + x) + c
  {
  }

  lemma {:induction false} MovesOut<T>(a: multiset<T>, x: multiset<T>, b: multiset<T>, c: multiset<T>)
    ensures (a + x) + b + c == a + b + c + x
  {
  }

  lemma {:induction false} PutKeepsOnce(c: Cache, k: nat, size: nat, lim: Limits, evictable: set<nat>)
    requires Once(c)
    ensures Once(Put(c, k, size, lim, evictable))
  {
    if !Cached(c, k) {
      InsertTally(c, k, size);
      PruneTally(Insert(c, k, size), lim, evictable);
      assert k !in Keys(c.a1in) && k !in Keys(c.am);
    }
  }

  lemma {:induction false} GetKeepsItems(c: Cache, k: nat)
    ensures multiset(Get(c, k).a1in) + multiset(Get(c, k).am) == multiset(c.a1in) + multiset(c.am)
    ensures Tally(Get(c, k)) == Tally(c) && Get(c, k).a1out == c.a1out
    ensures Cached(c, k) ==> Get(c, k).am != [] && Get(c, k).am[|Get(c, k).am| - 1].key == k
  {
    hide Dropped, Keys, Index;
    var i, j := Index(Keys(c.a1in), k), Index(Keys(c.am), k);
    if i < |c.a1in| {
      MovedOver(c.a1in, c.am, i);
      Between(Keys(c.a1in), Keys(c.am), Keys(Get(c, k).a1in), Keys(Get(c, k).am), c.a1out);
    } else if j < |c.am| {
      TakeOut(c.am, j);
      AddLast(Dropped(c.am, j), c.am[j]);
    }
  }

  lemma {:induction false} Between<T>(a: seq<T>, b: seq<T>, c: seq<T>, d: seq<T>, m: seq<T>)
    requires multiset(c) + multiset(d) == multiset(a) + multiset(b)
    ensures multiset(c) + multiset(m) + multiset(d) == multiset(a) + multiset(m) + multiset(b)
  {
    Swap(multiset(a), multiset(m), multiset(b));
    Swap(multiset(c), multiset(m), multiset(d));
  }

  lemma {:induction false} Swap<T>(a: multiset<T>, m: multiset<T>, b: multiset<T>)
    ensures a + m + b == (a + b) + m
  {
  }

  lemma {:induction false} MovedOver(a: seq<Item>, b: seq<Item>, i: nat)
    requires i < |a|
    ensures multiset(Dropped(a, i)) + multiset(b + [a[i]]) == multiset(a) + multiset(b)
    ensures multiset(Keys(Dropped(a, i))) + multiset(Keys(b + [a[i]])) == multiset(Keys(a)) + multiset(Keys(b))
  {
    hide Dropped, Keys;
    TakeOut(a, i);
    AddLast(b, a[i]);
    Moves(multiset(Dropped(a, i)), multiset{a[i]}, multiset(b));
    Moves(multiset(Keys(Dropped(a, i))), multiset{a[i].key}, multiset(Keys(b)));
  }

  lemma {:induction false} Moves<T>(a: multiset<T>, x: multiset<T>, b: multiset<T>)
    ensures a + (b + x) == (a + x) + b
  {
  }

  // After an insertion every part is within its limit, or nothing that is left of it can be evicted.
  lemma {:induction false} PutMeetsLimits(c: Cache, k: nat, size: nat, lim: Limits, evictable: set<nat>)
    requires !Cached(c, k)
    ensures var r := Put(c, k, size, lim, evictable);
      && (Bytes(r.a1in) <= lim.a1in || forall x :: x in r.a1in ==> x.key !in evictable)
      && |r.a1out| <= lim.a1out
      && (Bytes(r.a1in) + Bytes(r.am) <= lim.capacity || forall x :: x in r.am ==> x.key !in evictable)
  {
    hide Keep, Gone, Bytes, Newest, Insert, Cached;
    var d := Insert(c, k, size);
    var excess := Bytes(d.a1in) - lim.a1in;
    PassSplits(d.a1in, excess, evictable);
    PassSuffices(d.a1in, excess, evictable);
    NewestLess(d.a1out + Keys(Gone(d.a1in, excess, evictable)), lim.a1out);
    var e := Bytes(Keep(d.a1in, excess, evictable)) + Bytes(d.am) - lim.capacity;
    PassSplits(d.am, e, evictable);
    PassSuffices(d.am, e, evictable);
  }

  // No entry is evicted needlessly: before the last eviction from A1in, and from Am, the bytes were over the limit.
  lemma {:induction false} PutEvictsInNeed(c: Cache, k: nat, size: nat, lim: Limits, evictable: set<nat>)
    requires !Cached(c, k)
    ensures var (d, r) := (Insert(c, k, size), Put(c, k, size, lim, evictable));
      var gone := Gone(d.a1in, Bytes(d.a1in) - lim.a1in, evictable);
      var more := Gone(d.am, Bytes(r.a1in) + Bytes(d.am) - lim.capacity, evictable);
      && multiset(r.a1in) + multiset(gone) == multiset(d.a1in) && multiset(r.am) + multiset(more) == multiset(d.am)
      && (gone != [] ==> Bytes(r.a1in) + gone[|gone| - 1].size > lim.a1in)
      && (more != [] ==> Bytes(r.a1in) + Bytes(r.am) + more[|more| - 1].size > lim.capacity)
  {
    hide Keep, Gone, Bytes, Newest, Cached, Insert;
    var d, r := Insert(c, k, size), Put(c, k, size, lim, evictable);
    LastInNeed(d.a1in, Bytes(d.a1in) - lim.a1in, evictable);
    LastInNeed(d.am, Bytes(r.a1in) + Bytes(d.am) - lim.capacity, evictable);
  }

  lemma {:induction false} LastInNeed(items: seq<Item>, excess: int, evictable: set<nat>)
    ensures multiset(Keep(items, excess, evictable)) + multiset(Gone(items, excess, evictable)) == multiset(items)
    ensures var (keep, gone) := (Keep(items, excess, evictable), Gone(items, excess, evictable));
      && Bytes(keep) + Bytes(gone) == Bytes(items)
      && (gone != [] ==> Bytes(items) - Bytes(keep) - gone[|gone| - 1].size < excess)
  {
    hide Keep, Gone;
    PassSplits(items, excess, evictable);
    var gone := Gone(items, excess, evictable);
    if gone != [] {
      PassStops(items, excess, evictable);
      var n := |gone| - 1;
      assert gone == gone[..n] + [gone[n]];
      BytesJoin(gone[..n], [gone[n]]);
      assert Bytes([gone[n]]) == gone[n].size by { assert [gone[n]][1..] == []; }
    }
  }

  // Only entries that can be evicted disappear, and nothing appears but the new one.
  lemma {:induction false} PutLosesOnlyEvictable(c: Cache, k: nat, size: nat, lim: Limits, evictable: set<nat>, x: Item)
    requires !Cached(c, k)
    ensures var r := Put(c, k, size, lim, evictable);
      && (x in r.a1in || x in r.am ==> x == Item(k, size) || x in c.a1in || x in c.am)
      && (x == Item(k, size) || x in c.a1in || x in c.am ==> x in r.a1in || x in r.am || x.key in evictable)
  {
    hide Keep, Gone, Bytes, Newest, Cached;
    var d := Insert(c, k, size);
    var excess := Bytes(d.a1in) - lim.a1in;
    var keep, gone := Keep(d.a1in, excess, evictable), Gone(d.a1in, excess, evictable);
    PassMembers(d.a1in, excess, evictable, x);
    PassMembers(d.am, Bytes(keep) + Bytes(d.am) - lim.capacity, evictable, x);
  }

  lemma {:induction false} PassMembers(items: seq<Item>, excess: int, evictable: set<nat>, x: Item)
    ensures x in items <==> x in Keep(items, excess, evictable) || x in Gone(items, excess, evictable)
    ensures x in Gone(items, excess, evictable) ==> x.key in evictable
  {
    PassSplits(items, excess, evictable);
    assert x in multiset(items) <==> x in multiset(Keep(items, excess, evictable)) || x in multiset(Gone(items, excess, evictable));
  }
}
