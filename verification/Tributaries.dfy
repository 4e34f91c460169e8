// What becomes of the commits: each is held by the slot it was made in until a merge puts what the slot holds
// into the main database.

module Tributaries {
  import opened Common
  import opened Confluence

  // Commits are numbered as they are made. held: what the tributary of each slot contains; main: what has been
  // merged, in order; late: slots a release has marked for a merge again after they were merged.
  datatype Log = Log(held: seq<seq<nat>>, main: seq<nat>, made: nat, late: set<SlotId>, twice: bool)

  // The slot a successful merge empties into the main database.
  function MergedSlot(s: State, x: Step): Option<SlotId>
    requires Enabled(s, x)
  {
    match x
    case FinishMerge(t, failed) => if failed then None else Some(s.tasks[t].picked[s.tasks[t].j])
    case _ => None
  }

  // The slot that a release marks although its merge has finished since the release looked at it.
  function Overtakes(s: State, l: Log, x: Step): Option<SlotId>
    requires Enabled(s, x) && |l.held| == |s.slots|
  {
    match x
    case EndRelease(t) =>
      var k := s.threads[t].slot;
      if s.slots[k] == MERGED && l.held[k] != [] then Some(k) else None
    case _ => None
  }

  function Commit(l: Log, k: SlotId, commit: bool): Log
    requires k < |l.held|
  {
    if commit then l.(held := l.held[k := l.held[k] + [l.made]], made := l.made + 1) else l
  }

  function Reset(l: Log, k: SlotId): Log
    requires k < |l.held|
  {
    l.(held := l.held[k := []])
  }

  // What a step does with the commits.
  function Note(s: State, l: Log, x: Step): Log
    requires Enabled(s, x) && |l.held| == |s.slots|
  {
    match x
    case NewSlot(_) => l.(held := l.held + [[]])
    case Claim(_, k) => if s.slots[k] == MERGED then Reset(l, k) else l
    case Detach(_, k, commit) => Commit(l, k, commit)
    case Publish(_, k, commit) => Commit(l, k, commit)
    case Recycle(k) => Reset(l, k)
    case EndRelease(t) => if Overtakes(s, l, x).Some? then l.(late := l.late + {Overtakes(s, l, x).value}) else l
    case FinishMerge(_, failed) =>
      if failed then l
      else
        var k := MergedSlot(s, x).value;
        l.(main := l.main + l.held[k], late := l.late - {k}, twice := l.twice || k in l.late)
    case _ => l
  }

  // ----- what every step keeps

  ghost predicate NoTwins(cs: seq<nat>) {
    forall i, j :: 0 <= i < j < |cs| ==> cs[i] != cs[j]
  }

  ghost predicate Disjoint(a: seq<nat>, b: seq<nat>) {
    forall c :: c in a ==> c !in b
  }

  // A slot that is merged or empty holds nothing but what is in the main database.
  ghost predicate SlotOk(s: State, l: Log, k: SlotId)
    requires k < |s.slots| == |l.held|
  {
    && (s.slots[k] in {EMPTY, FIRST_WRITING} ==> l.held[k] == [])
    && (s.slots[k] == MERGED ==> forall c :: c in l.held[k] ==> c in l.main)
    && (k in l.late ==> s.slots[k] in {WRITING, ATTACHED, MERGING} && !Disjoint(l.held[k], l.main))
    && (k !in l.late && s.slots[k] != MERGED ==> Disjoint(l.held[k], l.main))
    && NoTwins(l.held[k]) && (forall c :: c in l.held[k] ==> c < l.made)
  }

  ghost predicate HeldApart(l: Log) {
    forall k, m :: 0 <= k < m < |l.held| ==> Disjoint(l.held[k], l.held[m])
  }

  // Every commit is in the main database or held.
  ghost predicate NoneLost(l: Log) {
    forall c: nat :: c < l.made ==> c in l.main || exists k :: 0 <= k < |l.held| && c in l.held[k]
  }

  // Whoever has claimed a slot for a merge finds it MERGING.
  ghost predicate ClaimedMerging(s: State) {
    forall t :: t in s.tasks && s.tasks[t].Merging? && s.tasks[t].own ==>
      s.tasks[t].j < |s.tasks[t].picked| && HasSlot(s, s.tasks[t].picked[s.tasks[t].j]) && s.slots[s.tasks[t].picked[s.tasks[t].j]] == MERGING
  }

  ghost predicate LogOk(s: State, l: Log) {
    && |l.held| == |s.slots| && (forall k :: k in l.late ==> k < |s.slots|)
    && (forall k :: 0 <= k < |s.slots| ==> SlotOk(s, l, k))
    && HeldApart(l) && NoneLost(l) && (forall c :: c in l.main ==> c < l.made)
    && (l.twice <==> !NoTwins(l.main)) && ClaimedMerging(s)
  }

  // The slot whose state a step may change.
  function Target(s: State, x: Step): Option<SlotId>
    requires Enabled(s, x)
  {
    match x
    case NewSlot(_) => Some(|s.slots|)
    case Claim(_, k) => Some(k)
    case Detach(_, k, _) => Some(k)
    case Publish(_, k, _) => Some(k)
    case EndRelease(t) => Some(s.threads[t].slot)
    case Recycle(k) => Some(k)
    case ClaimForMerge(t) =>
      var pc := s.tasks[t];
      if pc.j < |pc.picked| then Some(pc.picked[pc.j]) else None
    case FinishMerge(t, _) => Some(s.tasks[t].picked[s.tasks[t].j])
    case _ => None
  }

  lemma {:induction false} SlotsElse(s: State, x: Step, k: SlotId)
    requires Enabled(s, x) && Target(s, x) != Some(k)
    ensures |s.slots| <= |Next(s, x).slots| && (k < |s.slots| <==> k < |Next(s, x).slots|)
    ensures k < |s.slots| ==> Next(s, x).slots[k] == s.slots[k]
  {
  }

  lemma {:induction false} LogElse(s: State, l: Log, x: Step, k: SlotId)
    requires Enabled(s, x) && |l.held| == |s.slots| && Target(s, x) != Some(k) && k < |s.slots|
    ensures |Note(s, l, x).held| == |Next(s, x).slots| && Note(s, l, x).held[k] == l.held[k] && (k in Note(s, l, x).late <==> k in l.late)
    ensures l.made <= Note(s, l, x).made
  {
  }

  // What a merge adds to the main database.
  function Added(s: State, l: Log, x: Step): seq<nat>
    requires Enabled(s, x) && |l.held| == |s.slots|
  {
    if MergedSlot(s, x).Some? then l.held[MergedSlot(s, x).value] else []
  }

  lemma {:induction false} MainGrows(s: State, l: Log, x: Step)
    requires Enabled(s, x) && |l.held| == |s.slots|
    ensures Note(s, l, x).main == l.main + Added(s, l, x)
    ensures MergedSlot(s, x).Some? ==> Target(s, x) == MergedSlot(s, x) && MergedSlot(s, x).value < |s.slots|
  {
    assert l.main + [] == l.main;
  }

  // A slot that is not touched stays as it was, also when a merge empties another one.
  lemma {:induction false} OtherSlotOk(s: State, l: Log, x: Step, k: SlotId)
    requires Enabled(s, x) && LogOk(s, l) && Target(s, x) != Some(k) && k < |Next(s, x).slots| == |Note(s, l, x).held|
    ensures SlotOk(Next(s, x), Note(s, l, x), k)
  {
    hide Enabled, Next, Note, Target, MergedSlot, NoneLost, ClaimedMerging;
    SlotsElse(s, x, k);
    LogElse(s, l, x, k);
    MainGrows(s, l, x);
    if MergedSlot(s, x).Some? {
      ApartFrom(l, k, MergedSlot(s, x).value);
    }
    assert SlotOk(s, l, k);
  }

  lemma {:induction false} ApartFrom(l: Log, k: SlotId, m: SlotId)
    requires HeldApart(l) && k < |l.held| && m < |l.held| && k != m
    ensures Disjoint(l.held[k], l.held[m]) && Disjoint(l.held[m], l.held[k])
  {
    assert if k < m then Disjoint(l.held[k], l.held[m]) else Disjoint(l.held[m], l.held[k]);
  }

  lemma {:induction false} TargetSlotOk(s: State, l: Log, x: Step, k: SlotId)
    requires Enabled(s, x) && LogOk(s, l) && Target(s, x) == Some(k) && k < |Next(s, x).slots| == |Note(s, l, x).held|
    ensures SlotOk(Next(s, x), Note(s, l, x), k)
  {
    if ThreadStep(x) {
      ThreadSlotOk(s, l, x, k);
    } else {
      hide NoneLost, HeldApart;
      assert k < |s.slots| ==> SlotOk(s, l, k);
      if x.FinishMerge? {
        MergeOk(s, l, x.task, x.failed, k);
      }
    }
  }

  lemma {:induction false} ThreadSlotOk(s: State, l: Log, x: Step, k: SlotId)
    requires Enabled(s, x) && LogOk(s, l) && ThreadStep(x) && Target(s, x) == Some(k) && k < |Next(s, x).slots| == |Note(s, l, x).held|
    ensures SlotOk(Next(s, x), Note(s, l, x), k)
  {
    hide NoneLost, HeldApart, ClaimedMerging;
    if k < |s.slots| {
      assert SlotOk(s, l, k);
      match x {
        case Detach(_, _, commit) => CommitOk(s, l, k);
        case Publish(_, _, commit) => CommitOk(s, l, k);
        case EndRelease(_) => assert l.held[k] != [] ==> l.held[k][0] in l.held[k];
        case _ =>
      }
    }
  }

  lemma {:induction false} CommitOk(s: State, l: Log, k: SlotId)
    requires LogOk(s, l) && k < |s.slots| && s.slots[k] in {FIRST_WRITING, WRITING}
    ensures var h := l.held[k] + [l.made];
      && NoTwins(h) && (forall c :: c in h ==> c < l.made + 1)
      && (Disjoint(h, l.main) <==> Disjoint(l.held[k], l.main))
  {
    hide NoneLost, HeldApart, ClaimedMerging;
    assert SlotOk(s, l, k);
    var h := l.held[k] + [l.made];
    assert forall c :: c in h <==> c in l.held[k] || c == l.made;
    forall i, j | 0 <= i < j < |h|
      ensures h[i] != h[j]
    {
      assert h[i] in l.held[k];
    }
  }

  lemma {:induction false} MergeOk(s: State, l: Log, t: TaskId, failed: bool, k: SlotId)
    requires LogOk(s, l) && Enabled(s, FinishMerge(t, failed)) && Target(s, FinishMerge(t, failed)) == Some(k)
    ensures k < |s.slots| && s.slots[k] == MERGING && SlotOk(Next(s, FinishMerge(t, failed)), Note(s, l, FinishMerge(t, failed)), k)
  {
    hide NoneLost, HeldApart;
    assert SlotOk(s, l, k);
  }

  lemma {:induction false} KeepsApart(s: State, l: Log, x: Step)
    requires Enabled(s, x) && LogOk(s, l)
    ensures HeldApart(Note(s, l, x))
  {
    hide NoneLost, ClaimedMerging;
    var l' := Note(s, l, x);
    forall k, m | 0 <= k < m < |l'.held|
      ensures Disjoint(l'.held[k], l'.held[m])
    {
      HeldFrom(s, l, x, k);
      HeldFrom(s, l, x, m);
      if m < |l.held| {
        ApartFrom(l, k, m);
        assert SlotOk(s, l, k) && SlotOk(s, l, m);
      }
    }
  }

  // At most one slot gets the new commit.
  function Committed(x: Step): Option<SlotId> {
    match x
    case Detach(_, k, commit) => if commit then Some(k) else None
    case Publish(_, k, commit) => if commit then Some(k) else None
    case _ => None
  }

  lemma {:induction false} HeldFrom(s: State, l: Log, x: Step, k: SlotId)
    requires Enabled(s, x) && |l.held| == |s.slots| && k < |Note(s, l, x).held|
    ensures k < |l.held| || Note(s, l, x).held[k] == []
    ensures k < |l.held| && Committed(x) == Some(k) ==> forall c :: c in Note(s, l, x).held[k] ==> c in l.held[k] || c == l.made
    ensures k < |l.held| && Committed(x) != Some(k) ==> forall c :: c in Note(s, l, x).held[k] ==> c in l.held[k]
  {
  }

  // Nothing disappears: a slot is only reset when what it holds has been merged.
  lemma {:induction false} KeepsAll(s: State, l: Log, x: Step)
    requires Enabled(s, x) && LogOk(s, l)
    ensures NoneLost(Note(s, l, x))
  {
    hide ClaimedMerging, HeldApart;
    var l' := Note(s, l, x);
    MainGrows(s, l, x);
    forall c: nat | c < l'.made
      ensures c in l'.main || exists k :: 0 <= k < |l'.held| && c in l'.held[k]
    {
      if c == l.made {
        var k := NewCommit(s, l, x);
        assert c in l'.held[k];
      } else if c !in l.main {
        var k :| 0 <= k < |l.held| && c in l.held[k];
        assert SlotOk(s, l, k);
        StillHeld(s, l, x, k, c);
        assert c in l'.held[k];
      }
    }
  }

  lemma {:induction false} NewCommit(s: State, l: Log, x: Step) returns (k: SlotId)
    requires Enabled(s, x) && |l.held| == |s.slots| && l.made < Note(s, l, x).made
    ensures k < |Note(s, l, x).held| && l.made in Note(s, l, x).held[k]
  {
    k := Committed(x).value;
  }

  lemma {:induction false} StillHeld(s: State, l: Log, x: Step, k: SlotId, c: nat)
    requires Enabled(s, x) && |l.held| == |s.slots| && k < |l.held| && c in l.held[k]
    requires s.slots[k] == MERGED ==> c in l.main
    requires c !in l.main
    ensures k < |Note(s, l, x).held| && c in Note(s, l, x).held[k]
  {
  }

  lemma {:induction false} KeepsMain(s: State, l: Log, x: Step)
    requires Enabled(s, x) && LogOk(s, l)
    ensures var l' := Note(s, l, x);
      && (forall c :: c in l'.main ==> c < l'.made) && l.made <= l'.made && (forall k :: k in l'.late ==> k < |Next(s, x).slots|)
      && (l'.twice <==> !NoTwins(l'.main))
  {
    hide NoneLost, HeldApart;
    MainGrows(s, l, x);
    if MergedSlot(s, x).Some? {
      var k := MergedSlot(s, x).value;
      assert SlotOk(s, l, k);
      JoinedTwins(l.main, l.held[k]);
    }
  }

  lemma {:induction false} JoinedTwins(a: seq<nat>, b: seq<nat>)
    requires NoTwins(b)
    ensures NoTwins(a + b) <==> NoTwins(a) && Disjoint(b, a)
  {
    var ab := a + b;
    if i: nat, j: nat :| i < |a| && j < |b| && a[i] == b[j] {
      assert ab[i] == ab[|a| + j];
    }
    if i: nat, j: nat :| i < j < |a| && a[i] == a[j] {
      assert ab[i] == ab[j];
    }
    if NoTwins(a) && Disjoint(b, a) {
      forall i, j | 0 <= i < j < |ab|
        ensures ab[i] != ab[j]
      {
        if j >= |a| {
          assert ab[j] in b;
          if i < |a| {
            assert ab[i] in a;
          }
        }
      }
    }
  }

  predicate Claims(pc: Task) {
    pc.Merging? && pc.own
  }

  // A slot that is being merged stays MERGING until the merge has finished.
  lemma {:induction false} StaysMerging(s: State, x: Step, k: SlotId)
    requires Enabled(s, x) && HasSlot(s, k) && s.slots[k] == MERGING && !x.FinishMerge?
    ensures HasSlot(Next(s, x), k) && Next(s, x).slots[k] == MERGING
  {
  }

  lemma {:induction false} OwnClaim(s: State, x: Step)
    requires Enabled(s, x) && !ThreadStep(x) && x.task in Next(s, x).tasks && Claims(Next(s, x).tasks[x.task])
    ensures var pc := Next(s, x).tasks[x.task];
      pc.j < |pc.picked| && HasSlot(Next(s, x), pc.picked[pc.j]) && Next(s, x).slots[pc.picked[pc.j]] == MERGING
  {
  }

  lemma {:induction false} KeepsClaimed(s: State, x: Step)
    requires Enabled(s, x) && Inv(s) && ClaimedMerging(s)
    ensures ClaimedMerging(Next(s, x))
  {
    hide Enabled, Next, NoOrphan, Requests, Counted;
    var s' := Next(s, x);
    forall t: TaskId | t in s'.tasks && s'.tasks[t].Merging? && s'.tasks[t].own
      ensures s'.tasks[t].j < |s'.tasks[t].picked| && HasSlot(s', s'.tasks[t].picked[s'.tasks[t].j]) && s'.slots[s'.tasks[t].picked[s'.tasks[t].j]] == MERGING
    {
      if !ThreadStep(x) && x.task == t {
        OwnClaim(s, x);
      } else {
        SameTask(s, x, t);
        if x.FinishMerge? {
          MergesAlone(s, x, t);
        }
        StaysMerging(s, x, s.tasks[t].picked[s.tasks[t].j]);
      }
    }
  }

  lemma {:induction false} MergesAlone(s: State, x: Step, t: TaskId)
    requires Enabled(s, x) && OneOwner(s) && x.FinishMerge? && t in s.tasks && s.tasks[t].Merging?
    ensures x.task == t
  {
    assert Owns(s, ByTask(t)) && Owns(s, ByTask(x.task));
  }

  lemma {:induction false} NoteKeepsLogOk(s: State, l: Log, x: Step)
    requires Enabled(s, x) && Inv(s) && LogOk(s, l)
    ensures LogOk(Next(s, x), Note(s, l, x))
  {
    hide Inv, Note, Next, HeldApart, NoneLost, ClaimedMerging, SlotOk, NoTwins, Enabled;
    KeepsApart(s, l, x);
    KeepsAll(s, l, x);
    KeepsMain(s, l, x);
    KeepsClaimed(s, x);
    HeldLength(s, l, x);
    forall k | 0 <= k < |Next(s, x).slots|
      ensures SlotOk(Next(s, x), Note(s, l, x), k)
    {
      if Target(s, x) == Some(k) {
        TargetSlotOk(s, l, x, k);
      } else {
        OtherSlotOk(s, l, x, k);
      }
    }
  }

  lemma {:induction false} HeldLength(s: State, l: Log, x: Step)
    requires Enabled(s, x) && |l.held| == |s.slots|
    ensures |Note(s, l, x).held| == |Next(s, x).slots|
  {
  }

  // ----- runs

  // A run with its commits; the slots may hold commits from before.
  ghost predicate Logged(ss: seq<State>, xs: seq<Step>, ls: seq<Log>) {
    && Run(ss, xs) && |ls| == |ss| == |xs| + 1 && LogOk(ss[0], ls[0]) && ls[0].main == [] && ls[0].late == {}
    && forall i :: 0 <= i < |xs| ==> NoteAt(ss, xs, ls, i)
  }

  ghost predicate NoteAt(ss: seq<State>, xs: seq<Step>, ls: seq<Log>, i: nat)
    requires |ls| == |ss| == |xs| + 1 && i < |xs|
  {
    && Enabled(ss[i], xs[i]) && ss[i + 1] == Next(ss[i], xs[i])
    && |ls[i].held| == |ss[i].slots| && ls[i + 1] == Note(ss[i], ls[i], xs[i])
  }

  lemma {:induction false} RunKeepsLog(ss: seq<State>, xs: seq<Step>, ls: seq<Log>, i: nat)
    requires Logged(ss, xs, ls) && i < |ss|
    ensures LogOk(ss[i], ls[i])
  {
    if i > 0 {
      RunKeepsLog(ss, xs, ls, i - 1);
      RunKeepsInv(ss, xs, i - 1);
      assert NoteAt(ss, xs, ls, i - 1);
      NoteKeepsLogOk(ss[i - 1], ls[i - 1], xs[i - 1]);
    }
  }

  // The main result: in every interleaving every commit is in the main database, or in a slot that is still to be merged.
  lemma {:induction false} NothingLost(ss: seq<State>, xs: seq<Step>, ls: seq<Log>, i: nat, c: nat)
    requires Logged(ss, xs, ls) && i < |ss| && c < ls[i].made
    ensures c in ls[i].main || exists k :: 0 <= k < |ls[i].held| && k < |ss[i].slots| && c in ls[i].held[k] && ss[i].slots[k] in {WRITING, ATTACHED, MERGING}
    ensures forall k, d :: 0 <= k < |ss[i].slots| && k < |ls[i].held| && d in ls[i].held[k] && ss[i].slots[k] in {MERGED, EMPTY, FIRST_WRITING} ==> d in ls[i].main
  {
    hide Run, HeldApart, ClaimedMerging, NoTwins;
    RunKeepsLog(ss, xs, ls, i);
    if c !in ls[i].main {
      var k :| 0 <= k < |ls[i].held| && c in ls[i].held[k];
      assert SlotOk(ss[i], ls[i], k);
    }
    forall k, d | 0 <= k < |ss[i].slots| && k < |ls[i].held| && d in ls[i].held[k] && ss[i].slots[k] in {MERGED, EMPTY, FIRST_WRITING}
      ensures d in ls[i].main
    {
      assert SlotOk(ss[i], ls[i], k);
    }
  }

  // Between j and m a release has marked a merged slot, and it was merged again.
  ghost predicate Overtaken(ss: seq<State>, xs: seq<Step>, ls: seq<Log>, j: nat, m: nat)
    requires |ls| == |ss| == |xs| + 1 && j < m < |xs| && NoteAt(ss, xs, ls, j) && NoteAt(ss, xs, ls, m)
  {
    Overtakes(ss[j], ls[j], xs[j]).Some? && Overtakes(ss[j], ls[j], xs[j]) == MergedSlot(ss[m], xs[m])
  }

  lemma {:induction false} LateStep(s: State, l: Log, x: Step, k: SlotId)
    requires Enabled(s, x) && |l.held| == |s.slots|
    ensures k in l.late && MergedSlot(s, x) != Some(k) ==> k in Note(s, l, x).late
    ensures Overtakes(s, l, x) == Some(k) ==> k in Note(s, l, x).late
    ensures k in Note(s, l, x).late ==> k in l.late || Overtakes(s, l, x) == Some(k)
    ensures l.twice ==> Note(s, l, x).twice
    ensures Note(s, l, x).twice && !l.twice ==> MergedSlot(s, x).Some? && MergedSlot(s, x).value in l.late
  {
  }

  lemma {:induction false} LateFrom(ss: seq<State>, xs: seq<Step>, ls: seq<Log>, k: SlotId, i: nat) returns (j: nat)
    requires Logged(ss, xs, ls) && i < |ss| && k in ls[i].late
    ensures j < i && NoteAt(ss, xs, ls, j) && Overtakes(ss[j], ls[j], xs[j]) == Some(k)
  {
    hide Run, LogOk, Note, Next, Enabled, MergedSlot, Overtakes;
    assert NoteAt(ss, xs, ls, i - 1);
    LateStep(ss[i - 1], ls[i - 1], xs[i - 1], k);
    if k in ls[i - 1].late {
      j := LateFrom(ss, xs, ls, k, i - 1);
    } else {
      j := i - 1;
    }
  }

  lemma {:induction false} LateStays(ss: seq<State>, xs: seq<Step>, ls: seq<Log>, k: SlotId, j: nat, i: nat)
    requires Logged(ss, xs, ls) && j < i < |ss| && NoteAt(ss, xs, ls, j) && Overtakes(ss[j], ls[j], xs[j]) == Some(k)
    requires forall m :: j < m < i ==> NoteAt(ss, xs, ls, m) && MergedSlot(ss[m], xs[m]) != Some(k)
    ensures k in ls[i].late
    decreases i
  {
    hide Run, LogOk, Note, Next, Enabled, MergedSlot, Overtakes;
    assert NoteAt(ss, xs, ls, i - 1);
    LateStep(ss[i - 1], ls[i - 1], xs[i - 1], k);
    if i > j + 1 {
      LateStays(ss, xs, ls, k, j, i - 1);
    }
  }

  lemma {:induction false} TwiceStays(ss: seq<State>, xs: seq<Step>, ls: seq<Log>, m: nat, i: nat)
    requires Logged(ss, xs, ls) && m <= i < |ss| && ls[m].twice
    ensures ls[i].twice
    decreases i
  {
    hide Run, LogOk, Note, Next, Enabled;
    if m < i {
      TwiceStays(ss, xs, ls, m, i - 1);
      assert NoteAt(ss, xs, ls, i - 1);
      LateStep(ss[i - 1], ls[i - 1], xs[i - 1], 0);
    }
  }

  lemma {:induction false} TwiceFrom(ss: seq<State>, xs: seq<Step>, ls: seq<Log>, i: nat) returns (j: nat, m: nat)
    requires Logged(ss, xs, ls) && i < |ss| && ls[i].twice
    ensures j < m < i && NoteAt(ss, xs, ls, j) && NoteAt(ss, xs, ls, m) && Overtaken(ss, xs, ls, j, m)
  {
    hide Run, SlotOk, HeldApart, NoneLost, ClaimedMerging, Note, Next, Enabled, MergedSlot, Overtakes;
    if i == 0 {
      assert false;
    } else {
      assert NoteAt(ss, xs, ls, i - 1);
      LateStep(ss[i - 1], ls[i - 1], xs[i - 1], 0);
      if ls[i - 1].twice {
        j, m := TwiceFrom(ss, xs, ls, i - 1);
      } else {
        m := i - 1;
        j := LateFrom(ss, xs, ls, MergedSlot(ss[m], xs[m]).value, m);
      }
    }
  }

  // The first merge of slot k behind step j.
  lemma {:induction false} FirstMerge(ss: seq<State>, xs: seq<Step>, ls: seq<Log>, k: SlotId, j: nat, m: nat) returns (f: nat)
    requires Logged(ss, xs, ls) && j < m < |xs| && NoteAt(ss, xs, ls, m) && MergedSlot(ss[m], xs[m]) == Some(k)
    ensures j < f <= m && NoteAt(ss, xs, ls, f) && MergedSlot(ss[f], xs[f]) == Some(k)
    ensures forall q :: j < q < f ==> NoteAt(ss, xs, ls, q) && MergedSlot(ss[q], xs[q]) != Some(k)
    decreases m
  {
    hide Run, LogOk, Note, Next, Enabled, MergedSlot;
    f := j + 1;
    assert NoteAt(ss, xs, ls, f);
    while MergedSlot(ss[f], xs[f]) != Some(k)
      invariant j < f <= m && NoteAt(ss, xs, ls, f)
      invariant forall q :: j < q < f ==> NoteAt(ss, xs, ls, q) && MergedSlot(ss[q], xs[q]) != Some(k)
      decreases m - f
    {
      f := f + 1;
      assert NoteAt(ss, xs, ls, f);
    }
  }

  // A commit gets into the main database twice exactly if a release marks a slot whose merge has finished since the
  // release looked at it, and the slot is merged after that.
  lemma {:induction false} MergedTwiceIff(ss: seq<State>, xs: seq<Step>, ls: seq<Log>, i: nat)
    requires Logged(ss, xs, ls) && i < |ss|
    ensures !NoTwins(ls[i].main) <==>
      exists j: nat, m: nat :: j < m < i && NoteAt(ss, xs, ls, j) && NoteAt(ss, xs, ls, m) && Overtaken(ss, xs, ls, j, m)
  {
    RunKeepsLog(ss, xs, ls, i);
    hide Run, NoteAt, Note, Next, Enabled, SlotOk, HeldApart, NoneLost, ClaimedMerging, NoTwins, Overtaken;
    if ls[i].twice {
      var j, m := TwiceFrom(ss, xs, ls, i);
    }
    if j: nat, m: nat :| j < m < i && NoteAt(ss, xs, ls, j) && NoteAt(ss, xs, ls, m) && Overtaken(ss, xs, ls, j, m) {
      MergesTwice(ss, xs, ls, j, m);
      TwiceStays(ss, xs, ls, m + 1, i);
    }
  }

  lemma {:induction false} MergesTwice(ss: seq<State>, xs: seq<Step>, ls: seq<Log>, j: nat, m: nat)
    requires Logged(ss, xs, ls) && j < m < |xs| && NoteAt(ss, xs, ls, j) && NoteAt(ss, xs, ls, m) && Overtaken(ss, xs, ls, j, m)
    ensures ls[m + 1].twice
  {
    hide Run, Next, Note, LogOk, Enabled, MergedSlot, Overtakes;
    var k := MergedSlot(ss[m], xs[m]).value;
    var f := FirstMerge(ss, xs, ls, k, j, m);
    LateStays(ss, xs, ls, k, j, f);
    TwiceAt(ss[f], ls[f], xs[f], k);
    TwiceStays(ss, xs, ls, f + 1, m + 1);
  }

  lemma {:induction false} TwiceAt(s: State, l: Log, x: Step, k: SlotId)
    requires Enabled(s, x) && |l.held| == |s.slots| && MergedSlot(s, x) == Some(k) && k in l.late
    ensures Note(s, l, x).twice
  {
  }
}
