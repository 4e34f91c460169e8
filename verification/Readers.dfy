// A reader of a committed transaction gets the same answers for as long as it stays, whatever the
// writers do after it has come: editing behind prepare_commit and committing that included.

module Readers {
  import opened Common
  import opened Memory
  import opened Trees
  import opened Store
  import opened Invariants
  import opened TxnSteps
  import opened Snapshots
  import opened AfterPrepare
  import opened Runs
  import PageRuns

  ghost function KeepTree(s: Db, g: View, c: PageId): Heap {
    map p | p in SnapPages(g, c) && p in s.nodes :: s.nodes[p]
  }

  // A reader of c with the whole tree of c.
  ghost function ReaderOf(s: Db, g: View, c: PageId): PageRuns.Reader
    requires c in s.txns
  {
    PageRuns.Reader(c, s.txns[c].id, s.txns[c].root, KeepTree(s, g, c))
  }

  lemma {:induction false} ChainIsChain(s: Db, g: View)
    requires ChainOk(s, g)
    ensures PageRuns.ChainIs(s, g.chain)
  {
    forall i, j | 0 <= i && j == i + 1 && j < |g.chain|
      ensures s.txns[g.chain[i]].next == Some(g.chain[j])
    {
    }
  }

  // Whoever is read is in use, and its tree is where it was.
  lemma {:induction false} ReaderIntact(s: Db, g: View, c: PageId)
    requires Committed(s, g) && c in g.chain && c in s.txns && s.txns[c].refs > 0
    ensures Live(s, c) && SnapOk(s, g, c) && PageRuns.Intact(s, ReaderOf(s, g, c)) && s.txns[c].id <= ReadId(s)
    ensures KeepTree(s, g, c).Keys == SnapPages(g, c)
  {
    var i :| 0 <= i < |g.chain| && g.chain[i] == c;
    assert Live(s, c);
    assert SnapOk(s, g, c);
  }

  // An allocator state that may go on allocating spares the tree of whoever is in use.
  lemma {:induction false} SafeGuards(s: Db, g: View, m: Mem, top: nat, c: PageId)
    requires MemSafe(s, g, m, top) && c in g.chain && Live(s, c)
    ensures PageRuns.Guards(m, SnapPages(g, c), s.txns[c].id) && Tidy(m)
  {
  }

  lemma {:induction false} SafeGuardsChain(s: Db, g: View, m: Mem, top: nat, keep: set<PageId>, id: nat)
    requires MemSafe(s, g, m, top) && PageRuns.Guards(m, keep, id) && id <= ReadId(s)
    ensures PageRuns.Guards(m, keep + PageRuns.Members(g.chain), id)
  {
    assert forall p :: p in PageRuns.Members(g.chain) ==> p in g.chain;
  }

  // The committed state queues no member of the chain.
  lemma {:induction false} ReadClear(s: Db, g: View, x: PageId)
    requires Committed(s, g) && Reserved(s, g, x, s.txns[s.readTxn].mem)
    ensures PageRuns.Clear(s.txns[s.readTxn].mem, PageRuns.Members(g.chain) + {x})
  {
    hide Tidy, SnapOk, IsFree;
    var m := s.txns[s.readTxn].mem;
    forall e | e in Entries(m)
      ensures e.page !in PageRuns.Members(g.chain) + {x}
    {
      EntryFree(m, e);
    }
  }

  lemma {:induction false} EntryFree(m: Mem, e: Garbage)
    requires e in Entries(m)
    ensures IsFree(m, e.page)
  {
  }

  lemma {:induction false} IdleQuiet(s: Db, g: View, c: PageId)
    requires Committed(s, g) && Idle(s, g) && c in g.chain && c in s.txns && s.txns[c].refs > 0
    ensures s.readTxn in s.txns && PageRuns.Quiet(s, g.chain, ReaderOf(s, g, c))
  {
    hide Tidy, SnapOk, PageRuns.Clear, PageRuns.Guards, PageRuns.Members;
    ReaderIntact(s, g, c);
    SafeGuards(s, g, s.txns[s.readTxn].mem, ReadId(s), c);
    ReadClear(s, g, s.nextTxn.value);
  }

  // Where the writer's own chain begins.
  lemma {:induction false} OwnStart(s: Db, g: View, used: set<PageId>) returns (k: nat)
    requires Committed(s, g) && Owning(s, g, used)
    ensures Writing(s) && k < |g.chain| && Me(s).start == g.chain[k]
    ensures forall i :: k <= i < |g.chain| ==> Live(s, g.chain[i])
    ensures forall c :: c in g.chain && Live(s, c) ==> c in g.chain[k..]
  {
    hide SnapOk, MemSafe, Reserved;
    k :| 0 <= k < |g.chain| && g.chain[k] == Me(s).start;
    forall c | c in g.chain && Live(s, c)
      ensures c in g.chain[k..]
    {
      var i :| 0 <= i < |g.chain| && g.chain[i] == c;
      assert i >= k;
      assert g.chain[k..][i - k] == c;
    }
  }

  // Neither the writer's allocator state nor the copy queues a member of the chain in use.
  lemma {:induction false} LiveClear(s: Db, g: View, m: Mem, k: nat, more: set<PageId>)
    requires k <= |g.chain| && forall i :: k <= i < |g.chain| ==> g.chain[i] < m.frontier && !IsFree(m, g.chain[i])
    requires forall p :: p in more ==> p < m.frontier && !IsFree(m, p)
    ensures PageRuns.Clear(m, PageRuns.Members(g.chain[k..]) + more)
  {
    hide IsFree;
    var tail := g.chain[k..];
    forall p | p in PageRuns.Members(tail) + more
      ensures p < m.frontier && !IsFree(m, p)
    {
      if p !in more {
        var i :| 0 <= i < |tail| && tail[i] == p;
        assert g.chain[k + i] == p;
      }
    }
    forall e | e in Entries(m)
      ensures e.page !in PageRuns.Members(tail) + more
    {
      EntryFree(m, e);
    }
  }

  lemma {:induction false} OwnClear(s: Db, g: View, used: set<PageId>, k: nat)
    requires Committed(s, g) && Owning(s, g, used) && k <= |g.chain|
    requires forall i :: k <= i < |g.chain| ==> Live(s, g.chain[i])
    ensures Writing(s) && PageRuns.Clear(Me(s).mem, PageRuns.Members(g.chain[k..]) + {s.active.value})
  {
    hide SnapOk, Tidy, IsFree, PageRuns.Clear;
    forall i | k <= i < |g.chain|
      ensures g.chain[i] < Me(s).mem.frontier && !IsFree(Me(s).mem, g.chain[i])
    {
      assert g.chain[i] in g.chain;
    }
    LiveClear(s, g, Me(s).mem, k, {s.active.value});
  }

  lemma {:induction false} ActiveBusy(s: Db, g: View, used: set<PageId>, k: nat, c: PageId)
    requires Committed(s, g) && Owning(s, g, used) && k < |g.chain| && Me(s).start == g.chain[k]
    requires forall i :: k <= i < |g.chain| ==> Live(s, g.chain[i])
    requires c in g.chain[k..] && c in g.chain && c in s.txns && s.txns[c].refs > 0
    requires Prepared(s) ==> PageRuns.PreparedPage(s, PageRuns.Watch(g.chain, k), ReaderOf(s, g, c))
    ensures Writing(s) && s.readTxn in s.txns && PageRuns.Busy(s, PageRuns.Watch(g.chain, k), ReaderOf(s, g, c))
  {
    hide Tidy, SnapOk, PageRuns.Clear, PageRuns.Guards, PageRuns.Members, PageRuns.PreparedPage;
    ReaderIntact(s, g, c);
    SafeGuards(s, g, s.txns[s.readTxn].mem, ReadId(s), c);
    ReadClear(s, g, s.active.value);
    SafeGuards(s, g, Me(s).mem, Me(s).id, c);
    SafeGuardsChain(s, g, Me(s).mem, Me(s).id, SnapPages(g, c), s.txns[c].id);
    OwnClear(s, g, used, k);
  }

  // Behind prepare_commit: the copy is older, but it has never queued anything in use.
  lemma {:induction false} CopyClear(s: Db, g: View, k: nat)
    requires Awaits(s, g) && k <= |g.chain| && forall i :: k <= i < |g.chain| ==> Live(s, g.chain[i])
    ensures s.nextTxn.Some? && s.nextTxn.value in s.txns
    ensures PageRuns.Clear(s.txns[s.nextTxn.value].mem, PageRuns.Members(g.chain[k..]) + {s.active.value, s.nextTxn.value})
  {
    hide SnapOk, Tidy, IsFree, PageRuns.Clear, Forest, Descends;
    var m0 := s.txns[s.nextTxn.value].mem;
    forall i | k <= i < |g.chain|
      ensures g.chain[i] < m0.frontier && !IsFree(m0, g.chain[i])
    {
      LiveNotCopied(s, g, g.chain[i]);
    }
    LiveClear(s, g, m0, k, {s.active.value, s.nextTxn.value});
  }

  lemma {:induction false} LiveNotCopied(s: Db, g: View, c: PageId)
    requires Awaits(s, g) && c in g.chain && Live(s, c)
    ensures var m0 := s.txns[s.nextTxn.value].mem; c < m0.frontier && !IsFree(m0, c)
  {
    hide Forest, SnapOk, Tidy, Reserved;
    var m0 := s.txns[s.nextTxn.value].mem;
    forall e | e in Entries(m0)
      ensures e.page != c
    {
      StillQueued(m0, Me(s).mem, s.startId, e);
      assert e in Entries(Me(s).mem) ==> IsFree(Me(s).mem, e.page);
    }
  }

  lemma {:induction false} AwaitsPage(s: Db, g: View, k: nat, c: PageId)
    requires Awaits(s, g) && k < |g.chain| && (forall i :: k <= i < |g.chain| ==> Live(s, g.chain[i]))
    requires c in g.chain && c in s.txns && s.txns[c].refs > 0
    ensures Writing(s) && s.readTxn in s.txns && PageRuns.PreparedPage(s, PageRuns.Watch(g.chain, k), ReaderOf(s, g, c))
  {
    hide Tidy, SnapOk, PageRuns.Clear, PageRuns.Guards, PageRuns.Members, Forest, Descends;
    ReaderIntact(s, g, c);
    var n := s.nextTxn.value;
    CopyClear(s, g, k);
    SafeGuards(s, g, s.txns[n].mem, Me(s).id, c);
    LiveClear(s, g, Me(s).mem, |g.chain|, {n});
    JustMore(Me(s).mem, g.chain, n);
    assert PageRuns.Members(g.chain[k..]) + {s.active.value, n} == PageRuns.Members(g.chain[k..]) + {s.active.value} + {n};
  }

  lemma {:induction false} JustMore(m: Mem, chain: seq<PageId>, n: PageId)
    requires PageRuns.Clear(m, PageRuns.Members(chain[|chain|..]) + {n})
    ensures PageRuns.Clear(m, {n})
  {
  }

  // Every reader of a sound state is shielded.
  lemma {:induction false} SoundShields(s: Db, g: View, c: PageId) returns (w: PageRuns.Watch)
    requires Sound(s, g) && c in g.chain && c in s.txns && s.txns[c].refs > 0
    ensures PageRuns.Shield(s, w, ReaderOf(s, g, c))
  {
    hide Forest, SnapOk, MemSafe, Reserved, Descends, PageRuns.ChainIs, PageRuns.Intact, PageRuns.Quiet, PageRuns.Busy, PageRuns.PreparedPage;
    SoundCommitted(s, g);
    ChainIsChain(s, g);
    ReaderIntact(s, g, c);
    if s.active.None? {
      w := PageRuns.Watch(g.chain, 0);
      IdleQuiet(s, g, c);
    } else {
      UsedInHeap(s, g);
      var k := OwnStart(s, g, Used(g));
      w := PageRuns.Watch(g.chain, k);
      if Prepared(s) {
        AwaitsPage(s, g, k, c);
      }
      ActiveBusy(s, g, Used(g), k, c);
    }
  }

  // ----- whatever happens next

  // No page of the tree of a transaction that is read is ever written, in any run of page writes,
  // allocations, frees, starts, prepares, commits and rollbacks.
  lemma {:induction false} PinnedPagesIntact(s: Db, g: View, c: PageId, ts: seq<Db>, ps: seq<PageRuns.PageOp>, j: nat)
    requires Sound(s, g) && c in g.chain && PageRuns.Run(ts, ps) && ts[0] == s && PageRuns.ReadThroughout(ts, c) && j < |ts|
    ensures c in s.txns && c in ts[j].txns && ts[j].txns[c].root == s.txns[c].root
    ensures forall p :: p in SnapPages(g, c) ==> p in s.nodes && p in ts[j].nodes && ts[j].nodes[p] == s.nodes[p]
  {
    hide Sound, PageRuns.StepAt, SnapOk;
    assert c in ts[0].txns && ts[0].txns[c].refs > 0;
    SoundCommitted(s, g);
    ReaderIntact(s, g, c);
    var w := SoundShields(s, g, c);
    var w' := PageRuns.RunShields(ts, ps, w, ReaderOf(s, g, c), j);
    assert PageRuns.Intact(ts[j], ReaderOf(s, g, c));
    forall p | p in SnapPages(g, c)
      ensures p in s.nodes && p in ts[j].nodes && ts[j].nodes[p] == s.nodes[p]
    {
      assert p in KeepTree(s, g, c);
    }
  }

  lemma {:induction false} PinnedForEver(s: Db, g: View, c: PageId, ts: seq<Db>, ps: seq<PageRuns.PageOp>, key: seq<Byte>, fuel: nat)
    requires Sound(s, g) && c in g.chain && PageRuns.Run(ts, ps) && ts[0] == s && PageRuns.ReadThroughout(ts, c)
    ensures c in s.txns && c in ts[|ts| - 1].txns
    ensures ReadRoot(ts[|ts| - 1].nodes, ts[|ts| - 1].txns[c].root, key, fuel) == ReadRoot(s.nodes, s.txns[c].root, key, fuel)
  {
    hide Sound, PageRuns.StepAt;
    assert c in ts[0].txns && ts[0].txns[c].refs > 0;
    SoundCommitted(s, g);
    ReaderIntact(s, g, c);
    PinnedPagesIntact(s, g, c, ts, ps, |ts| - 1);
    if g.snaps[c].Some? {
      HoldsFrame(s.nodes, ts[|ts| - 1].nodes, g.snaps[c].value);
      SameTreeSameReads(s.nodes, ts[|ts| - 1].nodes, g.snaps[c].value, key, fuel);
    }
  }
}
