// Who reads which transaction. Every pin a cursor takes is entered in a book and crossed out when the cursor gives
// it back; the counters of the store are what the book says.

module Pins {
  import opened Common
  import opened Memory
  import opened Trees
  import opened Store
  import opened Invariants
  import opened TxnSteps
  import opened Snapshots
  import opened AfterPrepare
  import opened Runs
  import opened Readers
  import PageRuns

  // The pins that have been taken and not given back, and the transaction each is on.
  type Book = map<nat, PageId>

  ghost function Holders(b: Book, c: PageId): set<nat> {
    set h | h in b && b[h] == c
  }

  // What a step means to the book. A rollback turns the page of its transaction into the next one, and the
  // cursor takes a new pin.
  datatype Event = Taken(txn: PageId) | Returned(txn: PageId) | Voided(txn: PageId) | NoEvent

  function PinsActive(s: Db): Event {
    if s.active.Some? then Taken(s.active.value) else NoEvent
  }

  function RollsBack(s: Db, cursor: nat): Event {
    if s.active.Some? && s.cursor == cursor && s.readTxn in s.txns then Voided(s.active.value) else NoEvent
  }

  function EventOf(s: Db, op: Op): Event {
    match op
    case Pin => Taken(s.readTxn)
    case PinActive => PinsActive(s)
    case Unpin(c) => Returned(c)
    case RollbackTxn(cursor) => RollsBack(s, cursor)
    case _ => NoEvent
  }

  function PageEventOf(s: Db, op: PageRuns.PageOp): Event {
    match op
    case Pin => Taken(s.readTxn)
    case PinActive => PinsActive(s)
    case Unpin(c) => Returned(c)
    case RollbackTxn(cursor) => RollsBack(s, cursor)
    case _ => NoEvent
  }

  // The entry that is made or crossed out.
  ghost predicate Booked(b: Book, e: Event, b': Book) {
    match e
    case Taken(c) => exists h: nat :: h !in b && b' == b[h := c]
    case Returned(c) => exists h: nat :: h in b && b[h] == c && b' == b - {h}
    case Voided(c) => b' == b - Holders(b, c)
    case NoEvent => b' == b
  }

  function Change(e: Event, c: PageId): int {
    match e
    case Taken(x) => if x == c then 1 else 0
    case Returned(x) => if x == c then -1 else 0
    case _ => 0
  }

  lemma {:induction false} OneTaken(b: Book, h: nat, x: PageId, c: PageId)
    requires h !in b
    ensures |Holders(b[h := x], c)| == |Holders(b, c)| + if x == c then 1 else 0
  {
    assert Holders(b[h := x], c) == if x == c then Holders(b, c) + {h} else Holders(b, c);
  }

  lemma {:induction false} OneReturned(b: Book, h: nat, c: PageId)
    requires h in b
    ensures |Holders(b - {h}, c)| == |Holders(b, c)| - if b[h] == c then 1 else 0
  {
    assert Holders(b - {h}, c) == Holders(b, c) - {h};
    assert b[h] == c <==> h in Holders(b, c);
  }

  lemma {:induction false} HoldersChange(b: Book, e: Event, b': Book, c: PageId)
    requires Booked(b, e, b') && e != Voided(c)
    ensures |Holders(b', c)| == |Holders(b, c)| + Change(e, c)
  {
    match e {
      case Taken(x) =>
        var h: nat :| h !in b && b' == b[h := x];
        OneTaken(b, h, x, c);
      case Returned(x) =>
        var h: nat :| h in b && b[h] == x && b' == b - {h};
        OneReturned(b, h, c);
      case Voided(x) =>
        assert Holders(b', c) == Holders(b, c);
      case NoEvent =>
    }
  }

  lemma {:induction false} HeldIsCounted(b: Book, h: nat)
    requires h in b
    ensures |Holders(b, b[h])| > 0
  {
    assert h in Holders(b, b[h]);
  }

  // ----- what the steps do to the counters

  // No transaction is new, and no counter differs.
  ghost predicate SameCounts(s: Db, s': Db) {
    forall c :: c in s'.txns ==> c in s.txns && s'.txns[c].refs == s.txns[c].refs
  }

  ghost predicate CountsElse(s: Db, s': Db, x: PageId) {
    forall c :: c in s'.txns && c != x ==> c in s.txns && s'.txns[c].refs == s.txns[c].refs
  }

  lemma {:induction false} SetLinkCounts(s: Db, f: Frame, n: PageId)
    requires Writing(s)
    ensures SameCounts(s, SetLink(s, f, n).0)
  {
  }

  lemma {:induction false} RelinkCounts(s: Db, fs: seq<Frame>, n: PageId)
    requires Writing(s)
    ensures SameCounts(s, Relink(s, fs, n).0)
    decreases |fs|
  {
    hide SetLink;
    if fs != [] {
      RelinkCounts(s, fs[1..], n);
      var (s1, c) := Relink(s, fs[1..], n);
      SetLinkCounts(s1, fs[0], c);
    }
  }

  lemma {:induction false} CollectCounts(s: Db, c: PageId, last: PageId, fuel: nat)
    requires Writing(s)
    ensures SameCounts(s, Collect(s, c, last, fuel))
    decreases fuel
  {
    if c in s.txns && !(c == last || s.txns[c].refs > 0 || fuel == 0 || s.txns[c].next.None?) {
      CollectCounts(FreePage(s, c, s.txns[c].slot), s.txns[c].next.value, last, fuel - 1);
    }
  }

  lemma {:induction false} StartCounts(s: Db, cursor: nat)
    ensures SameCounts(s, StartTransaction(s, cursor))
  {
    if s.active.None? && s.nextTxn.Some? && s.nextTxn.value in s.txns && s.readTxn in s.txns {
      CollectCounts(Begun(s, cursor), s.txns[s.readTxn].start, s.readTxn, ChainLength(s));
    }
  }

  lemma {:induction false} PrepareCounts(s: Db, cursor: nat)
    ensures PrepareCommit(s, cursor) == s || (PrepareCommit(s, cursor).nextTxn.Some?
      && CountsElse(s, PrepareCommit(s, cursor), PrepareCommit(s, cursor).nextTxn.value))
  {
  }

  lemma {:induction false} EditCounts(s: Db, op: Op)
    requires IsEdit(op) && Writing(s)
    ensures SameCounts(s, Apply(s, op))
  {
    hide Relink;
    if op.HangIn? {
      RelinkCounts(s, op.path, op.tree.page);
    }
  }

  predicate EndsOrPrepares(op: Op) {
    op.Prepare? || op.CommitTxn? || op.RollbackTxn?
  }

  predicate PageEndsOrPrepares(op: PageRuns.PageOp) {
    op.Prepare? || op.CommitTxn? || op.RollbackTxn?
  }

  // Only the page kept for the next transaction is reset; every other counter changes by what was pinned or given back.
  lemma {:induction false} CountsChange(s: Db, op: Op, c: PageId)
    requires IsEdit(op) ==> Writing(s)
    requires op.Unpin? ==> op.txn in s.txns && s.txns[op.txn].refs > 0
    requires c in Apply(s, op).txns && (EndsOrPrepares(op) && Apply(s, op) != s ==> Apply(s, op).nextTxn != Some(c))
    ensures c in s.txns && Apply(s, op).txns[c].refs == s.txns[c].refs + Change(EventOf(s, op), c)
  {
    hide StartTransaction, PrepareCommit;
    match op {
      case Start(cursor) => StartCounts(s, cursor);
      case Prepare(cursor) => PrepareCounts(s, cursor);
      case CommitTxn(cursor) => PrepareCounts(s, cursor);
      case RollbackTxn(_) =>
      case Pin =>
      case PinActive =>
      case Unpin(_) =>
      case _ => EditCounts(s, op);
    }
  }

  lemma {:induction false} PageCountsChange(s: Db, op: PageRuns.PageOp, c: PageId)
    requires PageRuns.IsWrite(op) ==> Writing(s)
    requires op.Unpin? ==> op.txn in s.txns && s.txns[op.txn].refs > 0
    requires c in PageRuns.Do(s, op).txns && (PageEndsOrPrepares(op) && PageRuns.Do(s, op) != s ==> PageRuns.Do(s, op).nextTxn != Some(c))
    ensures c in s.txns && PageRuns.Do(s, op).txns[c].refs == s.txns[c].refs + Change(PageEventOf(s, op), c)
  {
    hide StartTransaction, PrepareCommit;
    match op {
      case Start(cursor) => StartCounts(s, cursor);
      case Prepare(cursor) => PrepareCounts(s, cursor);
      case CommitTxn(cursor) => PrepareCounts(s, cursor);
      case _ =>
    }
  }

  // ----- the book is right

  // Only committed transactions in the chain and the one being written are read, and their counters count the pins.
  ghost predicate Balanced(s: Db, g: View, b: Book) {
    && (forall h :: h in b ==> b[h] in g.chain || s.active == Some(b[h]))
    && forall c :: c in g.chain || s.active == Some(c) ==> c in s.txns && s.txns[c].refs == |Holders(b, c)|
  }

  // Where the pages of transactions lie.
  lemma {:induction false} SoundPages(s: Db, g: View)
    requires Sound(s, g)
    ensures forall c :: c in g.chain || s.active == Some(c) ==> c in s.txns
    ensures s.active.Some? ==> s.active.value !in g.chain
    ensures s.active.None? || Prepared(s) ==>
      s.nextTxn.Some? && s.nextTxn.value in s.txns && s.nextTxn.value !in g.chain && s.nextTxn != s.active && s.txns[s.nextTxn.value].refs == 0
    ensures s.readTxn in g.chain
  {
    hide Forest, MemSafe, SnapOk, Descends;
    SoundCommitted(s, g);
    ReadIsLive(s, g);
  }

  lemma {:induction false} CollectActive(s: Db, c: PageId, last: PageId, fuel: nat)
    requires Writing(s)
    ensures Collect(s, c, last, fuel).active == s.active
    decreases fuel
  {
    if c in s.txns && !(c == last || s.txns[c].refs > 0 || fuel == 0 || s.txns[c].next.None?) {
      CollectActive(FreePage(s, c, s.txns[c].slot), s.txns[c].next.value, last, fuel - 1);
    }
  }

  lemma {:induction false} StartActive(s: Db, cursor: nat)
    ensures StartTransaction(s, cursor).active == s.active || (s.active.None? && StartTransaction(s, cursor).active == s.nextTxn)
  {
    hide Collect;
    if s.active.None? && s.nextTxn.Some? && s.nextTxn.value in s.txns && s.readTxn in s.txns {
      CollectActive(Begun(s, cursor), s.txns[s.readTxn].start, s.readTxn, ChainLength(s));
    }
  }

  lemma {:induction false} RelinkActive(s: Db, fs: seq<Frame>, n: PageId)
    requires Writing(s)
    ensures Relink(s, fs, n).0.active == s.active
    decreases |fs|
  {
    if fs != [] {
      RelinkActive(s, fs[1..], n);
    }
  }

  lemma {:induction false} EditActive(s: Db, g: View, op: Op)
    requires IsEdit(op) && Guard(s, g, op)
    ensures Apply(s, op).active == s.active && Track(s, g, op).chain == g.chain
  {
    hide Relink;
    if op.HangIn? {
      RelinkActive(s, op.path, op.tree.page);
    }
  }

  lemma {:induction false} CommitActive(s: Db, g: View, cursor: nat)
    requires s.active.Some? && s.cursor == cursor && g.hole.None?
    ensures var s1 := PrepareCommit(s, cursor); s1.active == s.active
    ensures Commit(s, cursor).active.None?
  {
  }

  // Where the chain comes from, and what becomes of the transaction being written.
  ghost predicate PagesFollow(s: Db, g: View, e: Event, s': Db, g': View) {
    && (forall c :: c in g'.chain ==> c in g.chain || s.active == Some(c))
    && (s'.active == s.active || (s.active.None? && s'.active == s.nextTxn) || s'.active.None?)
    && (s.active.Some? && s'.active.None? ==> s.active.value in g'.chain || e == Voided(s.active.value))
  }

  lemma {:induction false} CommitFollows(s: Db, g: View, op: Op)
    requires Guard(s, g, op) && op.CommitTxn? && Sound(s, g) && CommitsCurrent(s, op)
    ensures PagesFollow(s, g, EventOf(s, op), Apply(s, op), Track(s, g, op))
  {
    hide Forest, MemSafe, SnapOk, Descends, PrepareCommit;
    if s.active.Some? && s.cursor == op.cursor {
      CommitActive(s, g, op.cursor);
      CommitSwitches(s, g, op);
    }
  }

  lemma {:induction false} CommitSwitches(s: Db, g: View, op: Op)
    requires Guard(s, g, op) && op.CommitTxn? && Sound(s, g) && CommitsCurrent(s, op) && s.active.Some? && s.cursor == op.cursor
    ensures var s1 := PrepareCommit(s, op.cursor);
      Writing(s1) && 0 <= OldestIndex(s1, g) <= |g.chain| && Track(s, g, op) == Switched(s1, g)
  {
    hide Inv, Awaits, PrepareCommit, Commit, Switched, OldestIndex;
    if Prepared(s) {
      CurrentInv(s, g);
    }
    CommitStepKeeps(s, g, op.cursor);
  }

  lemma {:induction false} StepFollows(s: Db, g: View, op: Op)
    requires Sound(s, g) && Guard(s, g, op) && CommitsCurrent(s, op)
    ensures PagesFollow(s, g, EventOf(s, op), Apply(s, op), Track(s, g, op))
  {
    if IsEdit(op) {
      hide Sound, Guard, Apply, Track;
      EditActive(s, g, op);
    } else if op.CommitTxn? {
      CommitFollows(s, g, op);
    } else {
      OthersFollow(s, g, op);
    }
  }

  lemma {:induction false} OthersFollow(s: Db, g: View, op: Op)
    requires Sound(s, g) && Guard(s, g, op) && !IsEdit(op) && !op.CommitTxn?
    ensures PagesFollow(s, g, EventOf(s, op), Apply(s, op), Track(s, g, op))
  {
    hide Sound, StartTransaction, PrepareCommit;
    match op {
      case Start(cursor) => StartActive(s, cursor);
      case Prepare(cursor) => PrepareActive(s, cursor);
      case RollbackTxn(_) => SoundPages(s, g);
      case _ =>
    }
  }

  lemma {:induction false} PrepareActive(s: Db, cursor: nat)
    ensures PrepareCommit(s, cursor).active == s.active
  {
  }

  lemma {:induction false} PrepareHeader(s: Db, op: Op)
    requires EndsOrPrepares(op) && Apply(s, op) != s
    ensures op.Prepare? ==> var s' := Apply(s, op); s'.readTxn == s.readTxn && Some(s'.preparedTxn) == s.active == s'.active
    ensures !op.Prepare? ==> Apply(s, op).active.None?
  {
  }

  lemma {:induction false} NextApart(s: Db, g: View, op: Op, c: PageId)
    requires Sound(s, g) && Guard(s, g, op) && CommitsCurrent(s, op) && EndsOrPrepares(op) && Apply(s, op) != s
    requires c in Track(s, g, op).chain || Apply(s, op).active == Some(c)
    ensures Apply(s, op).nextTxn != Some(c)
  {
    hide Sound, Inv, Awaits, Track, Guard, PrepareCommit;
    SoundPages(s, g);
    PrepareHeader(s, op);
    StepKeeps(s, g, op);
    SoundPages(Apply(s, op), Track(s, g, op));
  }

  // Whoever is read is in the chain afterwards.
  lemma {:induction false} ReadStays(s: Db, g: View, op: Op, c: PageId)
    requires Sound(s, g) && Guard(s, g, op) && CommitsCurrent(s, op) && c in g.chain && c in s.txns && s.txns[c].refs > 0
    ensures c in Track(s, g, op).chain
  {
    hide Sound, Apply, Track, Guard;
    StepKeeps(s, g, op);
    SoundCommitted(s, g);
    assert Live(s, c);
  }

  lemma {:induction false} ReaderTrack(s: Db, g: View, op: Op)
    requires Guard(s, g, op) && EventOf(s, op).Taken?
    ensures Track(s, g, op) == g && Apply(s, op).active == s.active && (EventOf(s, op).txn == s.readTxn || Some(EventOf(s, op).txn) == s.active)
  {
  }

  // Every pin is on a transaction of the chain, or on the one being written.
  lemma {:induction false} PinsStay(s: Db, g: View, op: Op, b: Book, b': Book, h: nat)
    requires Sound(s, g) && Guard(s, g, op) && CommitsCurrent(s, op) && Balanced(s, g, b) && Booked(b, EventOf(s, op), b') && h in b'
    ensures b'[h] in Track(s, g, op).chain || Apply(s, op).active == Some(b'[h])
  {
    hide Sound, Apply, Track, Guard, EventOf;
    var c, e := b'[h], EventOf(s, op);
    SoundPages(s, g);
    StepFollows(s, g, op);
    if h in b && b[h] == c {
      HeldIsCounted(b, h);
      if c in g.chain {
        ReadStays(s, g, op, c);
      } else {
        assert s.active == Some(c);
        assert e == Voided(c) ==> h in Holders(b, c);
      }
    } else {
      ReaderTrack(s, g, op);
    }
  }

  // Every counter counts.
  lemma {:induction false} CountsStay(s: Db, g: View, op: Op, b: Book, b': Book, c: PageId)
    requires Sound(s, g) && Guard(s, g, op) && CommitsCurrent(s, op) && Balanced(s, g, b) && Booked(b, EventOf(s, op), b')
    requires c in Track(s, g, op).chain || Apply(s, op).active == Some(c)
    ensures c in Apply(s, op).txns && Apply(s, op).txns[c].refs == |Holders(b', c)|
  {
    hide Sound, Apply, Track, EventOf, Holders;
    SoundPages(s, g);
    StepFollows(s, g, op);
    StepKeeps(s, g, op);
    SoundPages(Apply(s, op), Track(s, g, op));
    if EndsOrPrepares(op) && Apply(s, op) != s {
      NextApart(s, g, op, c);
    }
    CountsChange(s, op, c);
    NotVoided(s, g, op, c);
    HoldersChange(b, EventOf(s, op), b', c);
    if !(c in g.chain || s.active == Some(c)) {
      NobodyYet(s, g, b, c);
    }
    StartsQuietly(s, op);
  }

  lemma {:induction false} NobodyYet(s: Db, g: View, b: Book, c: PageId)
    requires Balanced(s, g, b) && c !in g.chain && s.active != Some(c)
    ensures |Holders(b, c)| == 0
  {
    assert Holders(b, c) == {};
  }

  lemma {:induction false} NotVoided(s: Db, g: View, op: Op, c: PageId)
    requires Sound(s, g) && Guard(s, g, op) && CommitsCurrent(s, op)
    requires c in Track(s, g, op).chain || Apply(s, op).active == Some(c)
    ensures EventOf(s, op) != Voided(c)
  {
    hide Sound;
    SoundPages(s, g);
  }

  lemma {:induction false} StartsQuietly(s: Db, op: Op)
    requires IsEdit(op) ==> Writing(s)
    ensures s.active.None? && Apply(s, op).active.Some? ==> EventOf(s, op) == NoEvent
  {
  }

  lemma {:induction false} BalancedStep(s: Db, g: View, op: Op, b: Book, b': Book)
    requires Sound(s, g) && Guard(s, g, op) && CommitsCurrent(s, op) && Balanced(s, g, b) && Booked(b, EventOf(s, op), b')
    ensures Balanced(Apply(s, op), Track(s, g, op), b')
  {
    hide Sound, Apply, Track, EventOf, Holders, Booked;
    forall h | h in b'
      ensures b'[h] in Track(s, g, op).chain || Apply(s, op).active == Some(b'[h])
    {
      PinsStay(s, g, op, b, b', h);
    }
    forall c | c in Track(s, g, op).chain || Apply(s, op).active == Some(c)
      ensures c in Apply(s, op).txns && Apply(s, op).txns[c].refs == |Holders(b', c)|
    {
      CountsStay(s, g, op, b, b', c);
    }
  }

  // ----- runs

  // The book is kept from the first step on.
  ghost predicate Books(ss: seq<Db>, ops: seq<Op>, bs: seq<Book>) {
    && |bs| == |ss| == |ops| + 1 && bs[0] == map[]
    && forall i :: 0 <= i < |ops| ==> Booked(bs[i], EventOf(ss[i], ops[i]), bs[i + 1])
  }

  // In every run every counter is the number of pins that have not been given back.
  lemma {:induction false} RunBalanced(ss: seq<Db>, gs: seq<View>, ops: seq<Op>, bs: seq<Book>, i: nat)
    requires Run(ss, gs, ops) && AllCurrent(ss, ops) && Books(ss, ops, bs) && i < |ss|
    ensures Balanced(ss[i], gs[i], bs[i])
  {
    hide Sound, Balanced, Booked;
    if i == 0 {
      InitBalanced(ss[0], gs[0]);
    } else {
      RunBalanced(ss, gs, ops, bs, i - 1);
      RunKeepsSound(ss, gs, ops, i - 1);
      assert Steps(ss[i - 1], gs[i - 1], ops[i - 1], ss[i - 1 + 1], gs[i - 1 + 1]);
      assert Booked(bs[i - 1], EventOf(ss[i - 1], ops[i - 1]), bs[i - 1 + 1]);
      BalancedStep(ss[i - 1], gs[i - 1], ops[i - 1], bs[i - 1], bs[i]);
    }
  }

  lemma {:induction false} InitBalanced(s: Db, g: View)
    requires (exists slots: nat, slot: nat :: slot < slots && s == Init(slots, slot)) && g == View([0], map[0 := None], None, None, {})
    ensures Balanced(s, g, map[])
  {
    assert Holders(map[], 0) == {};
  }

  // What has been taken minus what has been given back between two states.
  ghost function Net(ss: seq<Db>, ops: seq<Op>, c: PageId, i: nat, j: nat): int
    requires i <= j < |ss| == |ops| + 1
  {
    if i == j then 0 else Net(ss, ops, c, i, j - 1) + Change(EventOf(ss[j - 1], ops[j - 1]), c)
  }

  // The counter of a transaction changes by its pins minus its unpins.
  lemma {:induction false} CountsArePins(ss: seq<Db>, gs: seq<View>, ops: seq<Op>, bs: seq<Book>, c: PageId, i: nat, j: nat)
    requires Run(ss, gs, ops) && AllCurrent(ss, ops) && Books(ss, ops, bs) && i <= j < |ss|
    requires c in gs[i].chain && c in gs[j].chain
    requires forall k :: i <= k < j ==> EventOf(ss[k], ops[k]) != Voided(c)
    ensures c in ss[i].txns && c in ss[j].txns && ss[j].txns[c].refs == ss[i].txns[c].refs + Net(ss, ops, c, i, j)
  {
    hide AllCurrent, Balanced, Holders, EventOf, Steps;
    RunBalanced(ss, gs, ops, bs, i);
    RunBalanced(ss, gs, ops, bs, j);
    HoldersNet(ss, ops, bs, c, i, j);
    InChain(ss[i], gs[i], bs[i], c);
    InChain(ss[j], gs[j], bs[j], c);
  }

  lemma {:induction false} InChain(s: Db, g: View, b: Book, c: PageId)
    requires Balanced(s, g, b) && c in g.chain
    ensures c in s.txns && s.txns[c].refs == |Holders(b, c)|
  {
  }

  lemma {:induction false} HoldersNet(ss: seq<Db>, ops: seq<Op>, bs: seq<Book>, c: PageId, i: nat, j: nat)
    requires Books(ss, ops, bs) && i <= j < |ss|
    requires forall k :: i <= k < j ==> EventOf(ss[k], ops[k]) != Voided(c)
    ensures |Holders(bs[j], c)| == |Holders(bs[i], c)| + Net(ss, ops, c, i, j)
    decreases j
  {
    hide Holders, EventOf;
    if i < j {
      HoldersNet(ss, ops, bs, c, i, j - 1);
      assert Booked(bs[j - 1], EventOf(ss[j - 1], ops[j - 1]), bs[j - 1 + 1]);
      HoldersChange(bs[j - 1], EventOf(ss[j - 1], ops[j - 1]), bs[j], c);
    }
  }

  // A book can be kept of every run: whatever is given back had been taken.
  lemma {:induction false} EveryRunHasABook(ss: seq<Db>, gs: seq<View>, ops: seq<Op>) returns (bs: seq<Book>)
    requires Run(ss, gs, ops) && AllCurrent(ss, ops)
    ensures Books(ss, ops, bs)
    decreases |ops|
  {
    if ops == [] {
      bs := [map[]];
    } else {
      var n := |ops| - 1;
      RunPart(ss, gs, ops);
      var cs := EveryRunHasABook(ss[..n + 1], gs[..n + 1], ops[..n]);
      RunBalanced(ss[..n + 1], gs[..n + 1], ops[..n], cs, n);
      var b := NextPage(ss[n], gs[n], ops[n], cs[n]);
      bs := cs + [b];
      forall i | 0 <= i < |ops|
        ensures Booked(bs[i], EventOf(ss[i], ops[i]), bs[i + 1])
      {
        if i < n {
          assert Booked(cs[i], EventOf(ss[..n + 1][i], ops[..n][i]), cs[i + 1]);
        }
      }
    }
  }

  lemma {:induction false} RunPart(ss: seq<Db>, gs: seq<View>, ops: seq<Op>)
    requires Run(ss, gs, ops) && AllCurrent(ss, ops) && ops != []
    ensures var n := |ops| - 1; Run(ss[..n + 1], gs[..n + 1], ops[..n]) && AllCurrent(ss[..n + 1], ops[..n])
    ensures Guard(ss[|ops| - 1], gs[|ops| - 1], ops[|ops| - 1])
  {
    var n := |ops| - 1;
    assert Steps(ss[n], gs[n], ops[n], ss[n + 1], gs[n + 1]);
    forall i | 0 <= i < n
      ensures Steps(ss[..n + 1][i], gs[..n + 1][i], ops[..n][i], ss[..n + 1][i + 1], gs[..n + 1][i + 1])
    {
      assert Steps(ss[i], gs[i], ops[i], ss[i + 1], gs[i + 1]);
    }
  }

  lemma {:induction false} NextPage(s: Db, g: View, op: Op, b: Book) returns (b': Book)
    requires Guard(s, g, op) && Balanced(s, g, b)
    ensures Booked(b, EventOf(s, op), b')
  {
    match EventOf(s, op) {
      case Taken(c) =>
        var h := Unused(b.Keys);
        b' := b[h := c];
      case Returned(c) =>
        assert Holders(b, c) != {};
        var h :| h in Holders(b, c);
        b' := b - {h};
      case Voided(c) => b' := b - Holders(b, c);
      case NoEvent => b' := b;
    }
  }

  lemma {:induction false} Unused(hs: set<nat>) returns (h: nat)
    ensures h !in hs && forall x :: x in hs ==> x < h
  {
    if hs == {} {
      h := 0;
    } else {
      var x :| x in hs;
      var y := Unused(hs - {x});
      h := if x < y then y else x + 1;
      forall z | z in hs
        ensures z < h
      {
        assert z == x || z in hs - {x};
      }
    }
  }

  // ----- one pin

  ghost predicate PageBooks(ts: seq<Db>, ps: seq<PageRuns.PageOp>, cs: seq<Book>) {
    && |cs| == |ts| == |ps| + 1
    && forall i :: 0 <= i < |ps| ==> Booked(cs[i], PageEventOf(ts[i], ps[i]), cs[i + 1])
  }

  // This pin on c is never given back.
  ghost predicate Holds(cs: seq<Book>, h: nat, c: PageId) {
    forall i :: 0 <= i < |cs| ==> h in cs[i] && cs[i][h] == c
  }

  lemma {:induction false} ShieldPages(s: Db, op: PageRuns.PageOp, w: PageRuns.Watch, w': PageRuns.Watch, r: PageRuns.Reader)
    requires PageRuns.Shield(s, w, r) && PageRuns.Allowed(s, op) && PageRuns.Shield(PageRuns.Do(s, op), w', r)
    ensures r.txn in PageRuns.Do(s, op).txns
    ensures PageEndsOrPrepares(op) && PageRuns.Do(s, op) != s ==> PageRuns.Do(s, op).nextTxn != Some(r.txn)
    ensures PageEventOf(s, op) != Voided(r.txn)
  {
    hide PageRuns.MemOk, PrepareCommit;
    if PageEndsOrPrepares(op) && PageRuns.Do(s, op) != s {
      PagePrepareHeader(s, op);
      ShieldNext(PageRuns.Do(s, op), w', r);
    }
  }

  lemma {:induction false} PagePrepareHeader(s: Db, op: PageRuns.PageOp)
    requires PageEndsOrPrepares(op) && PageRuns.Do(s, op) != s
    ensures op.Prepare? ==> var s' := PageRuns.Do(s, op); s'.readTxn == s.readTxn && Some(s'.preparedTxn) == s'.active
    ensures !op.Prepare? ==> PageRuns.Do(s, op).active.None?
  {
  }

  lemma {:induction false} ShieldNext(s: Db, w: PageRuns.Watch, r: PageRuns.Reader)
    requires PageRuns.Shield(s, w, r) && (s.active.None? || Some(s.preparedTxn) == s.active)
    ensures s.nextTxn != Some(r.txn)
  {
    hide PageRuns.MemOk;
    assert s.readTxn in w.chain;
  }

  // As long as somebody holds a pin on c, its counter is right and it is shielded.
  lemma {:induction false} PinShields(ts: seq<Db>, ps: seq<PageRuns.PageOp>, cs: seq<Book>, h: nat, w: PageRuns.Watch, r: PageRuns.Reader, i: nat)
    returns (w': PageRuns.Watch)
    requires PageRuns.Run(ts, ps) && PageBooks(ts, ps, cs) && Holds(cs, h, r.txn) && i < |ts|
    requires PageRuns.Shield(ts[0], w, r) && ts[0].txns[r.txn].refs == |Holders(cs[0], r.txn)|
    ensures PageRuns.Shield(ts[i], w', r) && r.txn in ts[i].txns && ts[i].txns[r.txn].refs == |Holders(cs[i], r.txn)| > 0
  {
    hide PageRuns.Shield, PageRuns.Do, PageEventOf, Booked, Holders;
    HeldIsCounted(cs[i], h);
    if i == 0 {
      w' := w;
      PageRuns.ChainHasRead(ts[0], w, r);
    } else {
      var v := PinShields(ts, ps, cs, h, w, r, i - 1);
      assert PageRuns.StepAt(ts, ps, i - 1);
      w' := PageRuns.StepShields(ts[i - 1], ps[i - 1], v, r);
      ShieldPages(ts[i - 1], ps[i - 1], v, w', r);
      PageCountsChange(ts[i - 1], ps[i - 1], r.txn);
      assert Booked(cs[i - 1], PageEventOf(ts[i - 1], ps[i - 1]), cs[i - 1 + 1]);
      HoldersChange(cs[i - 1], PageEventOf(ts[i - 1], ps[i - 1]), cs[i], r.txn);
    }
  }

  // The main result: a cursor that has pinned a committed transaction gets the same answer to every lookup for as long
  // as it does not give its pin back itself, whatever other cursors pin and give back and whatever writers do.
  lemma {:induction false} PinnedReaderSeesSameMap(ss: seq<Db>, gs: seq<View>, ops: seq<Op>, bs: seq<Book>,
                                                   ts: seq<Db>, ps: seq<PageRuns.PageOp>, cs: seq<Book>,
                                                   h: nat, c: PageId, key: seq<Byte>, fuel: nat)
    requires Run(ss, gs, ops) && AllCurrent(ss, ops) && Books(ss, ops, bs)
    requires PageRuns.Run(ts, ps) && PageBooks(ts, ps, cs) && ts[0] == ss[|ss| - 1] && cs[0] == bs[|bs| - 1]
    requires Holds(cs, h, c) && ts[0].active != Some(c)
    ensures c in ts[0].txns && c in ts[|ts| - 1].txns
    ensures ReadRoot(ts[|ts| - 1].nodes, ts[|ts| - 1].txns[c].root, key, fuel) == ReadRoot(ts[0].nodes, ts[0].txns[c].root, key, fuel)
  {
    hide Sound, Steps, PageRuns.StepAt, ReadRoot, Holders, Booked, PageRuns.Shield;
    var n := |ss| - 1;
    RunKeepsSound(ss, gs, ops, n);
    RunBalanced(ss, gs, ops, bs, n);
    PinCounted(ss[n], gs[n], bs[n], h);
    var r := ReaderOf(ss[n], gs[n], c);
    var w := SoundShields(ss[n], gs[n], c);
    forall i | 0 <= i < |ts|
      ensures c in ts[i].txns && ts[i].txns[c].refs > 0
    {
      var w' := PinShields(ts, ps, cs, h, w, r, i);
    }
    PinnedForEver(ss[n], gs[n], c, ts, ps, key, fuel);
  }

  lemma {:induction false} PinCounted(s: Db, g: View, b: Book, h: nat)
    requires Balanced(s, g, b) && h in b && s.active != Some(b[h])
    ensures b[h] in g.chain && b[h] in s.txns && s.txns[b[h]].refs == |Holders(b, b[h])| > 0
  {
    HeldIsCounted(b, h);
  }
}
