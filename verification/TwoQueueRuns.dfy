// Which entries a 2Q cache gives up: in each part the ones that have gone unused longest.

module TwoQueueRuns {
  import opened TwoQueue

  function Evictable(items: seq<Item>, evictable: set<nat>): seq<Item> {
    if items == [] then [] else (if items[0].key in evictable then [items[0]] else []) + Evictable(items[1..], evictable)
  }

  function Pinned(items: seq<Item>, evictable: set<nat>): seq<Item> {
    if items == [] then [] else (if items[0].key in evictable then [] else [items[0]]) + Pinned(items[1..], evictable)
  }

  // A pass takes whatever can go from a front part and leaves the rest alone.
  lemma {:induction false} PassTakesFront(items: seq<Item>, excess: int, evictable: set<nat>) returns (n: nat)
    ensures n <= |items| && Gone(items, excess, evictable) == Evictable(items[..n], evictable)
    ensures Keep(items, excess, evictable) == Pinned(items[..n], evictable) + items[n..]
  {
    if items == [] {
      n := 0;
    } else if excess <= 0 {
      KeepAll(items, excess, evictable);
      n := 0;
      assert items[..0] == [] && items[0..] == items;
    } else {
      var e := if items[0].key in evictable then excess - items[0].size else excess;
      var m := PassTakesFront(items[1..], e, evictable);
      n := m + 1;
      assert items[..n][1..] == items[1..][..m] && items[n..] == items[1..][m..] && items[..n][0] == items[0];
    }
  }

  lemma {:induction false} EvictableIn(items: seq<Item>, evictable: set<nat>, x: Item)
    ensures x in Evictable(items, evictable) <==> x in items && x.key in evictable
    ensures x in Pinned(items, evictable) <==> x in items && x.key !in evictable
  {
    if items != [] {
      EvictableIn(items[1..], evictable, x);
      assert items == [items[0]] + items[1..];
    }
  }

  // Whatever goes lay in front of everything that could have gone and stays.
  lemma {:induction false} FrontGoes(items: seq<Item>, excess: int, evictable: set<nat>, i: nat, j: nat)
    requires i < |items| && j < |items| && forall a, b :: 0 <= a < b < |items| ==> items[a] != items[b]
    requires items[i] in Gone(items, excess, evictable) && items[j] in Keep(items, excess, evictable) && items[j].key in evictable
    ensures i < j
  {
    var n := PassTakesFront(items, excess, evictable);
    EvictableIn(items[..n], evictable, items[i]);
    EvictableIn(items[..n], evictable, items[j]);
    var a :| 0 <= a < n && items[..n][a] == items[i];
    assert items[a] == items[i] && a == i;
    var b :| 0 <= b < |items[n..]| && items[n..][b] == items[j];
    assert items[n + b] == items[j] && n + b == j;
  }

  // ----- runs

  datatype Request = Ask(key: nat) | Store(key: nat, size: nat, evictable: set<nat>)

  // The cache, when each key entered A1in, when each key was last asked for or came back, and the time.
  datatype Clock = Clock(cache: Cache, entered: map<nat, nat>, used: map<nat, nat>, now: nat)

  function Served(c: Cache, r: Request, lim: Limits): Cache {
    match r
    case Ask(k) => Get(c, k)
    case Store(k, size, evictable) => Put(c, k, size, lim, evictable)
  }

  function Tick(c: Clock, r: Request, lim: Limits): Clock {
    var cache := Served(c.cache, r, lim);
    match r
    case Ask(k) => Clock(cache, c.entered, if Cached(c.cache, k) then c.used[k := c.now] else c.used, c.now + 1)
    case Store(k, _, _) =>
      if Cached(c.cache, k) then Clock(cache, c.entered, c.used, c.now + 1)
      else if k in c.cache.a1out then Clock(cache, c.entered, c.used[k := c.now], c.now + 1)
      else Clock(cache, c.entered[k := c.now], c.used, c.now + 1)
  }

  // Each part lists its entries by age.
  ghost predicate ByAge(items: seq<Item>, times: map<nat, nat>, now: nat) {
    && (forall i :: 0 <= i < |items| ==> items[i].key in times && times[items[i].key] < now)
    && forall i, j :: 0 <= i < j < |items| ==> times[items[i].key] < times[items[j].key]
  }

  ghost predicate Aged(c: Clock) {
    Once(c.cache) && ByAge(c.cache.a1in, c.entered, c.now) && ByAge(c.cache.am, c.used, c.now)
  }

  lemma {:induction false} AgedDrop(items: seq<Item>, times: map<nat, nat>, now: nat, i: nat)
    requires ByAge(items, times, now) && i < |items|
    ensures ByAge(Dropped(items, i), times, now)
  {
    var d := Dropped(items, i);
    assert forall j :: 0 <= j < |d| ==> d[j] == items[if j < i then j else j + 1];
  }

  lemma {:induction false} AgedMore(items: seq<Item>, times: map<nat, nat>, now: nat, x: Item)
    requires ByAge(items, times, now) && forall i :: 0 <= i < |items| ==> items[i].key != x.key
    ensures ByAge(items + [x], times[x.key := now], now + 1)
  {
  }

  lemma {:induction false} AgedOn(items: seq<Item>, times: map<nat, nat>, now: nat, k: nat)
    requires ByAge(items, times, now)
    ensures ByAge(items, times, now + 1)
    ensures (forall i :: 0 <= i < |items| ==> items[i].key != k) ==> ByAge(items, times[k := now], now + 1)
  {
  }

  lemma {:induction false} AgedKeep(items: seq<Item>, times: map<nat, nat>, now: nat, excess: int, evictable: set<nat>)
    requires ByAge(items, times, now)
    ensures ByAge(Keep(items, excess, evictable), times, now)
  {
    if items != [] {
      var rest := items[1..];
      assert ByAge(rest, times, now) by { assert forall i :: 0 <= i < |rest| ==> rest[i] == items[i + 1]; }
      var e := if excess > 0 && items[0].key in evictable then excess - items[0].size else excess;
      AgedKeep(rest, times, now, e, evictable);
      if !(excess > 0 && items[0].key in evictable) {
        var keep := Keep(rest, excess, evictable);
        forall i | 0 <= i < |keep|
          ensures times[items[0].key] < times[keep[i].key]
        {
          PassMembers(rest, excess, evictable, keep[i]);
          var j :| 0 <= j < |rest| && rest[j] == keep[i];
          assert items[j + 1] == keep[i];
        }
      }
    }
  }

  lemma {:induction false} OnceApart(c: Cache, k: nat)
    requires Once(c)
    ensures k in Keys(c.a1in) ==> k !in Keys(c.am) && k !in c.a1out
    ensures k in Keys(c.am) ==> k !in c.a1out
  {
    assert Tally(c)[k] == multiset(Keys(c.a1in))[k] + multiset(c.a1out)[k] + multiset(Keys(c.am))[k];
    assert k in Keys(c.a1in) ==> k in multiset(Keys(c.a1in));
    assert k in c.a1out ==> k in multiset(c.a1out);
    assert k in Keys(c.am) ==> k in multiset(Keys(c.am));
  }

  lemma {:induction false} NotAmong(items: seq<Item>, k: nat)
    requires k !in Keys(items)
    ensures forall i :: 0 <= i < |items| ==> items[i].key != k
  {
    forall i | 0 <= i < |items|
      ensures items[i].key != k
    {
      assert Keys(items)[i] in Keys(items);
    }
  }

  lemma {:induction false} AskKeepsAged(c: Clock, k: nat, lim: Limits)
    requires Aged(c)
    ensures Aged(Tick(c, Ask(k), lim))
  {
    hide Dropped, Once, ByAge;
    GetKeepsOnce(c.cache, k);
    var i, j := Index(Keys(c.cache.a1in), k), Index(Keys(c.cache.am), k);
    AgedOn(c.cache.a1in, c.entered, c.now, k);
    AgedOn(c.cache.am, c.used, c.now, k);
    if i < |c.cache.a1in| {
      assert Keys(c.cache.a1in)[i] == k;
      AgedDrop(c.cache.a1in, c.entered, c.now, i);
      AgedOn(Dropped(c.cache.a1in, i), c.entered, c.now, k);
      OnceApart(c.cache, k);
      NotAmong(c.cache.am, k);
      AgedMore(c.cache.am, c.used, c.now, c.cache.a1in[i]);
    } else if j < |c.cache.am| {
      assert Keys(c.cache.am)[j] == k;
      AgedDrop(c.cache.am, c.used, c.now, j);
      OthersDiffer(c.cache.am, c.used, c.now, j);
      AgedMore(Dropped(c.cache.am, j), c.used, c.now, c.cache.am[j]);
    }
  }

  lemma {:induction false} GetKeepsOnce(c: Cache, k: nat)
    requires Once(c)
    ensures Once(Get(c, k))
  {
    GetKeepsItems(c, k);
  }

  lemma {:induction false} OthersDiffer(items: seq<Item>, times: map<nat, nat>, now: nat, i: nat)
    requires ByAge(items, times, now) && i < |items|
    ensures forall j :: 0 <= j < |Dropped(items, i)| ==> Dropped(items, i)[j].key != items[i].key
  {
    var d := Dropped(items, i);
    forall j | 0 <= j < |d|
      ensures d[j].key != items[i].key
    {
      assert d[j] == items[if j < i then j else j + 1];
    }
  }

  // The parts before anything is evicted.
  lemma {:induction false} InsertAged(c: Clock, k: nat, size: nat, evictable: set<nat>, lim: Limits)
    requires Aged(c) && !Cached(c.cache, k)
    ensures var d, t := Insert(c.cache, k, size), Tick(c, Store(k, size, evictable), lim);
      ByAge(d.a1in, t.entered, t.now) && ByAge(d.am, t.used, t.now)
  {
    hide Dropped, Once, ByAge, Put;
    NotAmong(c.cache.a1in, k);
    NotAmong(c.cache.am, k);
    AgedOn(c.cache.a1in, c.entered, c.now, k);
    AgedOn(c.cache.am, c.used, c.now, k);
    AgedMore(c.cache.a1in, c.entered, c.now, Item(k, size));
    AgedMore(c.cache.am, c.used, c.now, Item(k, size));
  }

  lemma {:induction false} PutParts(c: Cache, k: nat, size: nat, lim: Limits, evictable: set<nat>)
    requires !Cached(c, k)
    ensures var d, r := Insert(c, k, size), Put(c, k, size, lim, evictable);
      && r.a1in == Keep(d.a1in, Bytes(d.a1in) - lim.a1in, evictable)
      && r.am == Keep(d.am, Bytes(r.a1in) + Bytes(d.am) - lim.capacity, evictable)
  {
  }

  lemma {:induction false} StoreKeepsAged(c: Clock, k: nat, size: nat, evictable: set<nat>, lim: Limits)
    requires Aged(c)
    ensures Aged(Tick(c, Store(k, size, evictable), lim))
  {
    hide ByAge, Once, Keep, Bytes, Insert, Prune;
    PutKeepsOnce(c.cache, k, size, lim, evictable);
    if Cached(c.cache, k) {
      AgedOn(c.cache.a1in, c.entered, c.now, k);
      AgedOn(c.cache.am, c.used, c.now, k);
    } else {
      InsertAged(c, k, size, evictable, lim);
      PutParts(c.cache, k, size, lim, evictable);
      hide Put;
      var d, t := Insert(c.cache, k, size), Tick(c, Store(k, size, evictable), lim);
      AgedKeep(d.a1in, t.entered, t.now, Bytes(d.a1in) - lim.a1in, evictable);
      AgedKeep(d.am, t.used, t.now, Bytes(t.cache.a1in) + Bytes(d.am) - lim.capacity, evictable);
    }
  }

  lemma {:induction false} TickKeepsAged(c: Clock, r: Request, lim: Limits)
    requires Aged(c)
    ensures Aged(Tick(c, r, lim))
  {
    hide Aged, Tick;
    match r {
      case Ask(k) => AskKeepsAged(c, k, lim);
      case Store(k, size, evictable) => StoreKeepsAged(c, k, size, evictable, lim);
    }
  }

  function After(c: Clock, rs: seq<Request>, lim: Limits): Clock {
    if rs == [] then c else Tick(After(c, rs[..|rs| - 1], lim), rs[|rs| - 1], lim)
  }

  // In every run of an empty cache both parts list their entries by age.
  lemma {:induction false} RunKeepsAged(rs: seq<Request>, lim: Limits)
    ensures Aged(After(Clock(Cache([], [], []), map[], map[], 0), rs, lim))
  {
    if rs != [] {
      RunKeepsAged(rs[..|rs| - 1], lim);
      TickKeepsAged(After(Clock(Cache([], [], []), map[], map[], 0), rs[..|rs| - 1], lim), rs[|rs| - 1], lim);
    }
  }

  lemma {:induction false} OldestGoes(items: seq<Item>, times: map<nat, nat>, now: nat, excess: int, evictable: set<nat>, x: Item, y: Item)
    requires ByAge(items, times, now) && x in items && x !in Keep(items, excess, evictable)
    requires y in Keep(items, excess, evictable) && y.key in evictable
    ensures x.key in times && y.key in times && times[x.key] < times[y.key]
  {
    PassMembers(items, excess, evictable, x);
    PassMembers(items, excess, evictable, y);
    var i: nat :| i < |items| && items[i] == x;
    var j: nat :| j < |items| && items[j] == y;
    FrontGoes(items, excess, evictable, i, j);
  }

  // What an insertion evicts from Am has not been asked for as long as anything that it could have evicted instead; what
  // it evicts from A1in came in before anything that it could have evicted instead.
  lemma {:induction false} LeastRecentlyUsedGoes(rs: seq<Request>, k: nat, size: nat, evictable: set<nat>, lim: Limits, x: Item, y: Item)
    requires var c := After(Clock(Cache([], [], []), map[], map[], 0), rs, lim); !Cached(c.cache, k)
    requires y.key in evictable
    ensures var c := After(Clock(Cache([], [], []), map[], map[], 0), rs, lim);
      var d, t := Insert(c.cache, k, size), Tick(c, Store(k, size, evictable), lim);
      && (x in d.am && x !in t.cache.am && y in t.cache.am ==> x.key in t.used && y.key in t.used && t.used[x.key] < t.used[y.key])
      && (x in d.a1in && x !in t.cache.a1in && y in t.cache.a1in ==>
            x.key in t.entered && y.key in t.entered && t.entered[x.key] < t.entered[y.key])
  {
    hide ByAge, Aged, Keep, Bytes, After, Insert, Cached, Put;
    var c := After(Clock(Cache([], [], []), map[], map[], 0), rs, lim);
    var d, t := Insert(c.cache, k, size), Tick(c, Store(k, size, evictable), lim);
    RunKeepsAged(rs, lim);
    InsertAged(c, k, size, evictable, lim);
    PutParts(c.cache, k, size, lim, evictable);
    if x in d.am && x !in t.cache.am && y in t.cache.am {
      OldestGoes(d.am, t.used, t.now, Bytes(t.cache.a1in) + Bytes(d.am) - lim.capacity, evictable, x, y);
    }
    if x in d.a1in && x !in t.cache.a1in && y in t.cache.a1in {
      OldestGoes(d.a1in, t.entered, t.now, Bytes(d.a1in) - lim.a1in, evictable, x, y);
    }
  }

  lemma {:induction false} GhostsOf(items: seq<Item>, excess: int, out: seq<nat>, n: nat, evictable: set<nat>, x: Item)
    ensures var r := Newest(out + Keys(Gone(items, excess, evictable)), n);
      && (x in Gone(items, excess, evictable) && |r| < n ==> x.key in r)
      && (x.key in r ==> x.key in out || x.key in Keys(items))
  {
    var gone := Gone(items, excess, evictable);
    if x in gone {
      var i: nat :| i < |gone| && gone[i] == x;
      assert (out + Keys(gone))[|out| + i] == x.key;
    }
    if x.key in Keys(gone) {
      var i: nat :| i < |gone| && gone[i].key == x.key;
      PassMembers(items, excess, evictable, gone[i]);
      var j: nat :| j < |items| && items[j] == gone[i];
      assert Keys(items)[j] == x.key;
    }
  }

  // A key that comes back while it is remembered goes to Am, any other to A1in; what A1in gives up is remembered.
  lemma {:induction false} SecondChance(c: Cache, k: nat, size: nat, lim: Limits, evictable: set<nat>, x: Item)
    requires !Cached(c, k)
    ensures var r := Put(c, k, size, lim, evictable);
      && (Item(k, size) in r.am ==> k in c.a1out) && (Item(k, size) in r.a1in ==> k !in c.a1out)
      && (x in c.a1in && x !in r.a1in && |r.a1out| < lim.a1out ==> x.key in r.a1out)
      && (x.key in r.a1out ==> x.key in c.a1out || x.key in Keys(c.a1in) || x.key == k)
  {
    hide Keep, Gone, Bytes, Newest, Keys;
    var d, r := Insert(c, k, size), Put(c, k, size, lim, evictable);
    var excess := Bytes(d.a1in) - lim.a1in;
    NotAmong(c.a1in, k);
    NotAmong(c.am, k);
    PassMembers(d.a1in, excess, evictable, Item(k, size));
    PassMembers(d.am, Bytes(r.a1in) + Bytes(d.am) - lim.capacity, evictable, Item(k, size));
    PassMembers(d.a1in, excess, evictable, x);
    GhostsOf(d.a1in, excess, d.a1out, lim.a1out, evictable, x);
    Inserted(c, k, size, x.key);
  }

  lemma {:induction false} Inserted(c: Cache, k: nat, size: nat, q: nat)
    ensures q in Insert(c, k, size).a1out ==> q in c.a1out
    ensures q in Keys(Insert(c, k, size).a1in) ==> q in Keys(c.a1in) || q == k
  {
    KeysJoin(c.a1in, [Item(k, size)]);
  }
}
