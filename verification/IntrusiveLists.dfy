// Doubly linked lists through the entries of a pool (memory/_twoquecache.hpp).

module IntrusiveLists {
  import opened TwoQueue

  // An entry; its address is a number and 0 is null.
  datatype Entry = Entry(key: nat, size: nat, prev: nat, next: nat)

  class Pool {
    var entries: map<nat, Entry>
    var top: nat

    ghost predicate Bounded()
      reads this
    {
      forall p :: p in entries ==> 0 < p <= top
    }

    constructor ()
      ensures entries == map[] && Bounded()
    {
      entries, top := map[], 0;
    }

    method Alloc(key: nat, size: nat) returns (p: nat)
      requires Bounded()
      modifies this
      ensures Bounded() && p != 0 && p !in old(entries) && entries == old(entries)[p := Entry(key, size, 0, 0)]
    {
      top := top + 1;
      p := top;
      entries := entries[p := Entry(key, size, 0, 0)];
    }

    method Free(p: nat)
      requires Bounded()
      modifies `entries
      ensures Bounded() && entries == old(entries) - {p}
    {
      entries := entries - {p};
    }
  }

  ghost predicate Distinct(chain: seq<nat>) {
    0 !in chain && forall i, j :: 0 <= i < j < |chain| ==> chain[i] != chain[j]
  }

  ghost function At(chain: seq<nat>, i: int): nat {
    if 0 <= i < |chain| then chain[i] else 0
  }

  ghost predicate LinkedAt(entries: map<nat, Entry>, chain: seq<nat>, i: nat)
    requires i < |chain|
  {
    chain[i] in entries && entries[chain[i]].prev == At(chain, i - 1) && entries[chain[i]].next == At(chain, i + 1)
  }

  ghost predicate Linked(entries: map<nat, Entry>, chain: seq<nat>) {
    forall i :: 0 <= i < |chain| ==> LinkedAt(entries, chain, i)
  }

  // Nothing but links differs, and those only at these addresses.
  ghost predicate OnlyLinks(before: map<nat, Entry>, after: map<nat, Entry>, changed: set<nat>) {
    && after.Keys == before.Keys
    && (forall p :: p in before ==> after[p].key == before[p].key && after[p].size == before[p].size)
    && (forall p :: p in before && p !in changed ==> after[p] == before[p])
  }

  ghost function Items(entries: map<nat, Entry>, chain: seq<nat>): (r: seq<Item>)
    requires forall i :: 0 <= i < |chain| ==> chain[i] in entries
    ensures |r| == |chain| && forall i :: 0 <= i < |r| ==> r[i] == Item(entries[chain[i]].key, entries[chain[i]].size)
  {
    seq(|chain|, i requires 0 <= i < |chain| => Item(entries[chain[i]].key, entries[chain[i]].size))
  }

  lemma {:induction false} StaysLinked(before: map<nat, Entry>, after: map<nat, Entry>, changed: set<nat>, chain: seq<nat>)
    requires Linked(before, chain) && OnlyLinks(before, after, changed) && forall p :: p in chain ==> p !in changed
    ensures Linked(after, chain)
  {
    forall i | 0 <= i < |chain|
      ensures LinkedAt(after, chain, i)
    {
      assert LinkedAt(before, chain, i) && chain[i] in chain;
    }
  }

  class IntrusiveList {
    var head: nat
    var tail: nat
    var count: nat
    ghost var chain: seq<nat>

    ghost predicate Valid(pool: Pool)
      reads this, pool
    {
      && Distinct(chain) && Linked(pool.entries, chain)
      && head == At(chain, 0) && tail == At(chain, |chain| - 1) && count == |chain|
    }

    constructor (pool: Pool)
      ensures Valid(pool) && chain == []
    {
      head, tail, count, chain := 0, 0, 0, [];
    }

    method PushBack(p: nat, pool: Pool)
      requires Valid(pool) && p in pool.entries && p !in chain && p != 0
      modifies this, pool`entries
      ensures Valid(pool) && chain == old(chain) + [p]
      ensures OnlyLinks(old(pool.entries), pool.entries, {p, old(tail)})
      ensures old(tail) == 0 || old(tail) in old(chain)
    {
      LastLinked(pool.entries, chain);
      ghost var before := pool.entries;
      pool.entries := pool.entries[p := pool.entries[p].(prev := tail, next := 0)];
      if tail != 0 {
        pool.entries := pool.entries[tail := pool.entries[tail].(next := p)];
      } else {
        head := p;
      }
      tail := p;
      count := count + 1;
      Appended(before, pool.entries, chain, p);
      chain := chain + [p];
    }

    method Unlink(p: nat, pool: Pool, ghost k: nat)
      requires Valid(pool) && k < |chain| && p == chain[k]
      modifies this, pool`entries
      ensures Valid(pool) && chain == Dropped(old(chain), k) && p !in chain
      ensures OnlyLinks(old(pool.entries), pool.entries, AllOf(old(chain)))
    {
      hide Linked, Distinct, AllOf, OnlyLinks;
      ghost var before := pool.entries;
      Neighbours(pool.entries, chain, k);
      Bypass(p, pool);
      assert Bypassed(before, pool.entries, chain, k);
      count := count - 1;
      Unlinked(before, pool.entries, chain, k);
      OnlyNeighbours(before, pool.entries, chain, k);
      chain := Dropped(chain, k);
    }

    // Leads the links past an entry and clears its own.
    method Bypass(p: nat, pool: Pool)
      requires p in pool.entries
      requires var e := pool.entries[p];
        && e.prev != p && e.next != p && (e.prev != 0 ==> e.prev in pool.entries && e.prev != e.next)
        && (e.next != 0 ==> e.next in pool.entries)
      modifies `head, `tail, pool`entries
      ensures pool.entries.Keys == old(pool.entries).Keys
      ensures var e := old(pool.entries)[p];
        && head == (if e.prev == 0 then e.next else old(head)) && tail == (if e.next == 0 then e.prev else old(tail))
        && (e.prev != 0 ==> pool.entries[e.prev] == old(pool.entries)[e.prev].(next := e.next))
        && (e.next != 0 ==> pool.entries[e.next] == old(pool.entries)[e.next].(prev := e.prev))
        && pool.entries[p] == e.(prev := 0, next := 0)
        && forall q :: q in old(pool.entries) && q != p && (q == 0 || (q != e.prev && q != e.next)) ==> pool.entries[q] == old(pool.entries)[q]
    {
      var e := pool.entries[p];
      if e.prev != 0 {
        pool.entries := pool.entries[e.prev := pool.entries[e.prev].(next := e.next)];
      } else {
        head := e.next;
      }
      if e.next != 0 {
        pool.entries := pool.entries[e.next := pool.entries[e.next].(prev := e.prev)];
      } else {
        tail := e.prev;
      }
      pool.entries := pool.entries[p := pool.entries[p].(prev := 0, next := 0)];
    }

    method MoveToBack(p: nat, pool: Pool, ghost k: nat)
      requires Valid(pool) && k < |chain| && p == chain[k]
      modifies this, pool`entries
      ensures Valid(pool) && chain == Dropped(old(chain), k) + [p]
      ensures OnlyLinks(old(pool.entries), pool.entries, AllOf(old(chain)))
    {
      LastIs(chain, k);
      if p == tail {
        assert Dropped(chain, k) + [p] == chain;
        return;
      }
      ghost var before := pool.entries;
      ChainLinked(pool.entries, chain, k);
      Unlink(p, pool, k);
      ghost var between := pool.entries;
      PushBack(p, pool);
      LinksTwice(before, between, pool.entries, AllOf(old(chain)), {p, At(chain, |chain| - 2)}, AllOf(old(chain)));
    }
  }

  ghost function AllOf(chain: seq<nat>): set<nat> {
    set i | 0 <= i < |chain| :: chain[i]
  }

  lemma {:induction false} LinksTwice(a: map<nat, Entry>, b: map<nat, Entry>, c: map<nat, Entry>, s: set<nat>, t: set<nat>, u: set<nat>)
    requires OnlyLinks(a, b, s) && OnlyLinks(b, c, t) && s <= u && forall p :: p in t && p in a ==> p in u
    ensures OnlyLinks(a, c, u)
  {
  }

  lemma {:induction false} LastLinked(entries: map<nat, Entry>, chain: seq<nat>)
    requires Linked(entries, chain) && Distinct(chain)
    ensures At(chain, |chain| - 1) == 0 <==> chain == []
    ensures chain != [] ==> At(chain, |chain| - 1) in entries && At(chain, |chain| - 1) in chain
  {
    if chain != [] {
      assert LinkedAt(entries, chain, |chain| - 1);
    }
  }

  lemma {:induction false} ChainLinked(entries: map<nat, Entry>, chain: seq<nat>, k: nat)
    requires Linked(entries, chain) && Distinct(chain) && k < |chain|
    ensures chain[k] in entries && chain[k] != 0
  {
    assert LinkedAt(entries, chain, k) && chain[k] in chain;
  }

  lemma {:induction false} LastIs(chain: seq<nat>, k: nat)
    requires Distinct(chain) && k < |chain|
    ensures chain[k] == At(chain, |chain| - 1) <==> k == |chain| - 1
  {
  }

  lemma {:induction false} Appended(before: map<nat, Entry>, after: map<nat, Entry>, chain: seq<nat>, p: nat)
    requires Linked(before, chain) && Distinct(chain) && p !in chain && p != 0 && p in before
    requires p in after && after[p].prev == At(chain, |chain| - 1) && after[p].next == 0
    requires chain != [] ==> chain[|chain| - 1] in before && after.Keys == before.Keys && after[chain[|chain| - 1]] == before[chain[|chain| - 1]].(next := p)
    requires forall q :: q in before && q != p && q != At(chain, |chain| - 1) ==> q in after && after[q] == before[q]
    ensures Linked(after, chain + [p]) && Distinct(chain + [p])
  {
    var n, all := |chain|, chain + [p];
    forall i | 0 <= i < |all|
      ensures LinkedAt(after, all, i)
    {
      if i < n {
        assert LinkedAt(before, chain, i) && chain[i] in chain;
        assert i < n - 1 ==> chain[i] != chain[n - 1];
      }
    }
  }

  lemma {:induction false} Neighbours(entries: map<nat, Entry>, chain: seq<nat>, k: nat)
    requires Linked(entries, chain) && Distinct(chain) && k < |chain|
    ensures chain[k] in entries && entries[chain[k]].prev == At(chain, k - 1) && entries[chain[k]].next == At(chain, k + 1)
    ensures k > 0 ==> At(chain, k - 1) != 0 && At(chain, k - 1) in entries && At(chain, k - 1) in AllOf(chain)
    ensures k + 1 < |chain| ==> At(chain, k + 1) != 0 && At(chain, k + 1) in entries && At(chain, k + 1) in AllOf(chain)
    ensures At(chain, k - 1) != chain[k] && At(chain, k + 1) != chain[k] && chain[k] in AllOf(chain) && chain[k] != 0
    ensures k > 0 && k + 1 < |chain| ==> At(chain, k - 1) != At(chain, k + 1)
  {
    assert LinkedAt(entries, chain, k) && chain[k] in chain;
    if k > 0 { assert LinkedAt(entries, chain, k - 1) && chain[k - 1] in chain; }
    if k + 1 < |chain| { assert LinkedAt(entries, chain, k + 1) && chain[k + 1] in chain; }
  }

  // The links lead past entry k and its own are cleared.
  ghost predicate Bypassed(before: map<nat, Entry>, after: map<nat, Entry>, chain: seq<nat>, k: nat)
    requires k < |chain|
  {
    var p, l, r := chain[k], At(chain, k - 1), At(chain, k + 1);
    && after.Keys == before.Keys && p in before && after[p] == before[p].(prev := 0, next := 0)
    && (l != 0 && l in before ==> after[l] == before[l].(next := r))
    && (r != 0 && r in before ==> after[r] == before[r].(prev := l))
    && forall q :: q in before && q != p && (q == 0 || (q != l && q != r)) ==> after[q] == before[q]
  }

  lemma {:induction false} OnlyNeighbours(before: map<nat, Entry>, after: map<nat, Entry>, chain: seq<nat>, k: nat)
    requires Linked(before, chain) && Distinct(chain) && k < |chain| && Bypassed(before, after, chain, k)
    ensures OnlyLinks(before, after, AllOf(chain))
  {
    hide Linked, Distinct;
    Neighbours(before, chain, k);
    assert At(chain, k - 1) != 0 ==> k > 0;
    assert At(chain, k + 1) != 0 ==> k + 1 < |chain|;
  }

  // Every other entry is linked to what is next to it once entry k is gone.
  lemma {:induction false} UnlinkedAt(before: map<nat, Entry>, after: map<nat, Entry>, chain: seq<nat>, k: nat, j: nat)
    requires Linked(before, chain) && Distinct(chain) && k < |chain| && Bypassed(before, after, chain, k) && j < |chain| - 1
    ensures LinkedAt(after, Dropped(chain, k), j)
  {
    var rest, i := Dropped(chain, k), if j < k then j else j + 1;
    assert LinkedAt(before, chain, i) && rest[j] == chain[i] && chain[i] in chain;
    assert At(rest, j - 1) == At(chain, if j < k + 1 then j - 1 else j) && At(rest, j + 1) == At(chain, if j + 1 < k then j + 1 else j + 2);
    assert i < k ==> chain[i] != chain[k] && (i < k - 1 ==> chain[i] != chain[k - 1]) && (k + 1 < |chain| ==> chain[i] != chain[k + 1]);
    assert i > k ==> (i > k + 1 ==> chain[i] != chain[k + 1]) && (k > 0 ==> chain[i] != chain[k - 1]);
  }

  lemma {:induction false} Unlinked(before: map<nat, Entry>, after: map<nat, Entry>, chain: seq<nat>, k: nat)
    requires Linked(before, chain) && Distinct(chain) && k < |chain| && Bypassed(before, after, chain, k)
    ensures Linked(after, Dropped(chain, k)) && Distinct(Dropped(chain, k)) && chain[k] !in Dropped(chain, k)
    ensures At(Dropped(chain, k), 0) == if k == 0 then At(chain, 1) else At(chain, 0)
    ensures At(Dropped(chain, k), |chain| - 2) == if k == |chain| - 1 then At(chain, k - 1) else At(chain, |chain| - 1)
  {
    hide Bypassed, LinkedAt;
    var rest := Dropped(chain, k);
    forall j | 0 <= j < |rest|
      ensures LinkedAt(after, rest, j)
    {
      UnlinkedAt(before, after, chain, k, j);
    }
    forall j | 0 <= j < |rest|
      ensures rest[j] != chain[k] && rest[j] != 0
    {
      assert rest[j] == chain[if j < k then j else j + 1];
    }
  }
}
