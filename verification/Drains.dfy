// What a drain request that returns has waited for.

module Drains {
  import opened Common
  import opened Confluence

  // Slots that were MERGING when request r was raised and that no merge has finished with since.
  ghost predicate Waits(s: State, due: set<SlotId>) {
    forall k :: k in due ==> HasSlot(s, k) && s.slots[k] == MERGING
  }

  // A pass for request r or a later one has found them all so far, or is done with them.
  predicate PassOk(pc: Task, r: nat, due: set<SlotId>) {
    match pc
    case Scanning(sig, count, i, _, picked) => sig >= r ==> forall k :: k in due ==> k < count && (k < i ==> k in picked)
    case Merging(sig, _, picked, j, _) => sig >= r ==> j <= |picked| && forall k :: k in due ==> k in picked[j..]
    case Publishing(sig, _) => sig >= r ==> due == {}
    case _ => true
  }

  function Picked(pc: Task): seq<SlotId> {
    if pc.Scanning? || pc.Merging? then pc.picked else []
  }

  // Only slots that exist are picked.
  ghost predicate PickedExist(s: State) {
    forall t, k :: t in s.tasks && k in Picked(s.tasks[t]) ==> HasSlot(s, k)
  }

  lemma {:induction false} SlotsGrow(s: State, x: Step)
    requires Enabled(s, x)
    ensures |s.slots| <= |Next(s, x).slots|
  {
  }

  lemma {:induction false} OwnPicked(s: State, x: Step, k: SlotId)
    requires Enabled(s, x) && !ThreadStep(x) && x.task in Next(s, x).tasks && k in Picked(Next(s, x).tasks[x.task])
    ensures x.task in s.tasks && (k in Picked(s.tasks[x.task]) || HasSlot(s, k))
  {
  }

  lemma {:induction false} StillExist(s: State, x: Step)
    requires Enabled(s, x) && PickedExist(s)
    ensures PickedExist(Next(s, x))
  {
    hide Enabled, Next;
    var s' := Next(s, x);
    SlotsGrow(s, x);
    forall t: TaskId, k: SlotId | t in s'.tasks && k in Picked(s'.tasks[t])
      ensures HasSlot(s', k)
    {
      if !ThreadStep(x) && x.task == t {
        OwnPicked(s, x, k);
      } else {
        SameTask(s, x, t);
        assert t in s.tasks && k in Picked(s.tasks[t]);
      }
      assert HasSlot(s, k);
    }
  }

  lemma {:induction false} AlwaysExist(ss: seq<State>, xs: seq<Step>, i: nat)
    requires Run(ss, xs) && i < |ss|
    ensures PickedExist(ss[i])
  {
    if i > 0 {
      AlwaysExist(ss, xs, i - 1);
      assert ss[i - 1 + 1] == Next(ss[i - 1], xs[i - 1]);
      StillExist(ss[i - 1], xs[i - 1]);
    }
  }

  ghost predicate Due(s: State, r: nat, due: set<SlotId>) {
    && Waits(s, due) && r <= s.signal && PickedExist(s)
    && (forall t :: t in s.tasks ==> PassOk(s.tasks[t], r, due))
    && (s.done >= r ==> due == {})
  }

  // The slot a merge has finished with, in success or failure.
  function Finished(s: State, x: Step): set<SlotId>
    requires Enabled(s, x)
  {
    match x
    case FinishMerge(t, _) => {s.tasks[t].picked[s.tasks[t].j]}
    case _ => {}
  }

  lemma {:induction false} ThreadsWaitOn(s: State, x: Step, due: set<SlotId>)
    requires Enabled(s, x) && ThreadStep(x) && Waits(s, due)
    ensures Waits(Next(s, x), due - Finished(s, x))
  {
  }

  lemma {:induction false} TasksWaitOn(s: State, x: Step, due: set<SlotId>)
    requires Enabled(s, x) && !ThreadStep(x) && Waits(s, due)
    ensures Waits(Next(s, x), due - Finished(s, x))
  {
  }

  lemma {:induction false} WaitsOn(s: State, x: Step, due: set<SlotId>)
    requires Enabled(s, x) && Waits(s, due)
    ensures Waits(Next(s, x), due - Finished(s, x))
  {
    if ThreadStep(x) {
      ThreadsWaitOn(s, x, due);
    } else {
      TasksWaitOn(s, x, due);
    }
  }

  lemma {:induction false} PassGoesOn(s: State, x: Step, r: nat, due: set<SlotId>, t: TaskId)
    requires Enabled(s, x) && Due(s, r, due) && !x.Abort? && t in Next(s, x).tasks
    ensures PassOk(Next(s, x).tasks[t], r, due - Finished(s, x))
  {
    hide Enabled, Next;
    if !ThreadStep(x) && x.task == t {
      OwnPassGoesOn(s, x, r, due);
    } else {
      SameTask(s, x, t);
      if t in s.tasks {
        assert PassOk(s.tasks[t], r, due);
        LessDue(s.tasks[t], r, due, Finished(s, x));
      }
    }
  }

  lemma {:induction false} LessDue(pc: Task, r: nat, due: set<SlotId>, gone: set<SlotId>)
    requires PassOk(pc, r, due)
    ensures PassOk(pc, r, due - gone)
  {
  }

  lemma {:induction false} OwnPassGoesOn(s: State, x: Step, r: nat, due: set<SlotId>)
    requires Enabled(s, x) && Due(s, r, due) && !x.Abort? && !ThreadStep(x) && x.task in Next(s, x).tasks
    ensures PassOk(Next(s, x).tasks[x.task], r, due - Finished(s, x))
  {
    var pc := s.tasks[x.task];
    assert PassOk(pc, r, due);
    match x {
      case Scan(_, take) => ScanGoesOn(s, pc, take, r, due);
      case ClaimForMerge(_) =>
        if pc.j < |pc.picked| {
          assert pc.picked[pc.j] in Picked(pc);
          NextPicked(pc.picked, pc.j);
        }
      case FinishMerge(_, _) => NextPicked(pc.picked, pc.j);
      case _ =>
    }
  }

  lemma {:induction false} NextPicked(picked: seq<SlotId>, j: nat)
    requires j < |picked|
    ensures forall k :: k in picked[j..] && k != picked[j] ==> k in picked[j + 1..]
  {
    assert picked[j..] == [picked[j]] + picked[j + 1..];
  }

  lemma {:induction false} ScanGoesOn(s: State, pc: Task, take: bool, r: nat, due: set<SlotId>)
    requires pc.Scanning? && Waits(s, due) && PassOk(pc, r, due)
    ensures PassOk(ScanOne(s, pc, take), r, due)
  {
    assert pc.picked[0..] == pc.picked;
  }

  lemma {:induction false} DueGoesOn(s: State, x: Step, r: nat, due: set<SlotId>)
    requires Enabled(s, x) && Due(s, r, due) && !x.Abort?
    ensures Due(Next(s, x), r, due - Finished(s, x))
  {
    WaitsOn(s, x, due);
    StillExist(s, x);
    forall t | t in Next(s, x).tasks
      ensures PassOk(Next(s, x).tasks[t], r, due - Finished(s, x))
    {
      PassGoesOn(s, x, r, due, t);
    }
    if x.RaiseDone? {
      assert PassOk(s.tasks[x.task], r, due);
    }
  }

  // The slots a merge waits for at this moment.
  ghost function MergingSlots(s: State): set<SlotId> {
    set k: nat | k < |s.slots| && s.slots[k] == MERGING
  }

  // No pass that is under way answers a request that has just been raised.
  lemma {:induction false} RaisedDue(s: State, x: Step)
    requires Enabled(s, x) && Inv(s) && PickedExist(s) && x.Signal?
    ensures Due(Next(s, x), Next(s, x).signal, MergingSlots(Next(s, x)))
  {
    var s' := Next(s, x);
    StillExist(s, x);
    forall t | t in s'.tasks
      ensures PassOk(s'.tasks[t], s'.signal, MergingSlots(s'))
    {
      assert SigOk(s, s.tasks[t]);
    }
  }

  // Some merge between states i and j has finished with slot k.
  ghost predicate Served(ss: seq<State>, xs: seq<Step>, i: nat, j: nat, k: SlotId)
    requires |ss| == |xs| + 1 && j <= |xs|
  {
    exists m :: i <= m < j && Enabled(ss[m], xs[m]) && k in Finished(ss[m], xs[m])
  }

  // What is still due at state j of what was at state i.
  lemma {:induction false} DueAt(ss: seq<State>, xs: seq<Step>, i: nat, j: nat) returns (due: set<SlotId>)
    requires Run(ss, xs) && 0 < i <= j < |ss| && xs[i - 1].Signal? && forall m :: i <= m < j ==> !xs[m].Abort?
    ensures Due(ss[j], ss[i].signal, due)
    ensures forall k :: k in MergingSlots(ss[i]) && k !in due ==> Served(ss, xs, i, j, k)
    decreases j
  {
    hide Enabled, Next, Due, Finished;
    if i == j {
      RunKeepsInv(ss, xs, i - 1);
      AlwaysExist(ss, xs, i - 1);
      assert ss[i - 1 + 1] == Next(ss[i - 1], xs[i - 1]);
      RaisedDue(ss[i - 1], xs[i - 1]);
      due := MergingSlots(ss[i]);
    } else {
      var before := DueAt(ss, xs, i, j - 1);
      assert ss[j - 1 + 1] == Next(ss[j - 1], xs[j - 1]);
      DueGoesOn(ss[j - 1], xs[j - 1], ss[i].signal, before);
      due := before - Finished(ss[j - 1], xs[j - 1]);
      forall k | k in MergingSlots(ss[i]) && k !in due
        ensures Served(ss, xs, i, j, k)
      {
        if k !in before {
          assert Served(ss, xs, i, j - 1, k);
        }
      }
    }
  }

  // When a request is answered, a merge has finished with every slot that was MERGING when the request was raised,
  // unless an exception has ended a pass in between.
  lemma {:induction false} RequestServed(ss: seq<State>, xs: seq<Step>, i: nat, j: nat, t: ThreadId, k: SlotId)
    requires Run(ss, xs) && 0 < i <= j < |ss| && xs[i - 1].Signal?
    requires t in ss[j].threads && ss[j].threads[t].Waiting? && Enabled(ss[j], Return(t)) && ss[j].threads[t].ticket >= ss[i].signal
    requires k < |ss[i].slots| && ss[i].slots[k] == MERGING
    ensures Served(ss, xs, i, j, k) || exists m :: i <= m < j && xs[m].Abort?
  {
    if forall m :: i <= m < j ==> !xs[m].Abort? {
      var due := DueAt(ss, xs, i, j);
      assert ss[j].done >= ss[i].signal;
      assert k in MergingSlots(ss[i]);
    }
  }

  // ----- forced passes

  // Slots a forced pass has to see to: attached or marked, and not taken up again by their cursors.
  ghost predicate Idle(s: State, due: set<SlotId>) {
    forall k :: k in due ==> HasSlot(s, k) && s.slots[k] in {ATTACHED, MERGING}
  }

  predicate ForcedOk(pc: Task, due: set<SlotId>) {
    match pc
    case Scanning(_, count, i, _, picked) => forall k :: k in due ==> k < count && (k < i ==> k in picked)
    case Merging(_, _, picked, j, _) => j <= |picked| && forall k :: k in due ==> k in picked[j..]
    case _ => due == {}
  }

  // Slots that a step takes off the list: merged or failed to merge, or claimed by their cursor.
  function Settled(s: State, x: Step): set<SlotId>
    requires Enabled(s, x)
  {
    match x
    case Claim(_, k) => {k}
    case _ => Finished(s, x)
  }

  // The scan of a forced pass takes attached slots too.
  predicate Forces(x: Step, t: TaskId) {
    x.Scan? && x.task == t ==> x.take
  }

  lemma {:induction false} ThreadsLeaveIdle(s: State, x: Step, k: SlotId)
    requires Enabled(s, x) && ThreadStep(x) && HasSlot(s, k) && s.slots[k] in {ATTACHED, MERGING} && k !in Settled(s, x)
    ensures HasSlot(Next(s, x), k) && Next(s, x).slots[k] in {ATTACHED, MERGING}
  {
  }

  lemma {:induction false} TasksLeaveIdle(s: State, x: Step, k: SlotId)
    requires Enabled(s, x) && !ThreadStep(x) && HasSlot(s, k) && s.slots[k] in {ATTACHED, MERGING} && k !in Settled(s, x)
    ensures HasSlot(Next(s, x), k) && Next(s, x).slots[k] in {ATTACHED, MERGING}
  {
  }

  lemma {:induction false} IdleOn(s: State, x: Step, due: set<SlotId>)
    requires Enabled(s, x) && Idle(s, due)
    ensures Idle(Next(s, x), due - Settled(s, x))
  {
    hide Enabled, Next, Settled;
    forall k | k in due - Settled(s, x)
      ensures HasSlot(Next(s, x), k) && Next(s, x).slots[k] in {ATTACHED, MERGING}
    {
      if ThreadStep(x) {
        ThreadsLeaveIdle(s, x, k);
      } else {
        TasksLeaveIdle(s, x, k);
      }
    }
  }

  lemma {:induction false} ForcedScan(s: State, pc: Task, due: set<SlotId>)
    requires pc.Scanning? && Idle(s, due) && ForcedOk(pc, due)
    ensures ForcedOk(ScanOne(s, pc, true), due)
  {
    assert pc.picked[0..] == pc.picked;
  }

  predicate InPass(pc: Task) {
    pc.Scanning? || pc.Merging?
  }

  lemma {:induction false} ForcedOn(s: State, x: Step, t: TaskId, due: set<SlotId>)
    requires Enabled(s, x) && PickedExist(s) && Idle(s, due) && t in s.tasks && InPass(s.tasks[t]) && ForcedOk(s.tasks[t], due)
    requires !x.Abort? && Forces(x, t)
    ensures t in Next(s, x).tasks && ForcedOk(Next(s, x).tasks[t], due - Settled(s, x))
  {
    hide Enabled, Next;
    if !ThreadStep(x) && x.task == t {
      OwnForcedOn(s, x, due);
    } else {
      OtherStep(s, x, t);
      FewerDue(s.tasks[t], due, Settled(s, x));
    }
  }

  lemma {:induction false} FewerDue(pc: Task, due: set<SlotId>, gone: set<SlotId>)
    requires InPass(pc) && ForcedOk(pc, due)
    ensures ForcedOk(pc, due - gone)
  {
  }

  lemma {:induction false} OtherStep(s: State, x: Step, t: TaskId)
    requires Enabled(s, x) && t in s.tasks && (ThreadStep(x) || x.task != t)
    ensures t in Next(s, x).tasks && Next(s, x).tasks[t] == s.tasks[t]
  {
    hide At;
    if !ThreadStep(x) {
      TasksElse(s, x, t);
    } else if !x.Submit? {
      ThreadStepsKeepTasks(s, x);
    }
  }

  lemma {:induction false} OwnForcedOn(s: State, x: Step, due: set<SlotId>)
    requires Enabled(s, x) && PickedExist(s) && Idle(s, due) && !ThreadStep(x) && x.task in s.tasks && InPass(s.tasks[x.task])
    requires ForcedOk(s.tasks[x.task], due) && !x.Abort? && Forces(x, x.task)
    ensures x.task in Next(s, x).tasks && ForcedOk(Next(s, x).tasks[x.task], due - Settled(s, x))
  {
    var pc := s.tasks[x.task];
    match x {
      case Scan(_, take) => ForcedScan(s, pc, due);
      case ClaimForMerge(_) =>
        if pc.j < |pc.picked| {
          assert pc.picked[pc.j] in Picked(pc);
          NextPicked(pc.picked, pc.j);
        }
      case FinishMerge(_, _) => NextPicked(pc.picked, pc.j);
      case _ =>
    }
  }

  // Between states i and j slot k was merged, or its merge failed, or its cursor took it up again.
  ghost predicate SettledBetween(ss: seq<State>, xs: seq<Step>, i: nat, j: nat, k: SlotId)
    requires |ss| == |xs| + 1 && j <= |xs|
  {
    exists m :: i <= m < j && Enabled(ss[m], xs[m]) && k in Settled(ss[m], xs[m])
  }

  ghost function IdleSlots(s: State): set<SlotId> {
    set k: nat | k < |s.slots| && s.slots[k] in {ATTACHED, MERGING}
  }

  lemma {:induction false} ForcedAt(ss: seq<State>, xs: seq<Step>, i: nat, j: nat, t: TaskId) returns (due: set<SlotId>)
    requires Run(ss, xs) && 0 < i <= j < |ss| && xs[i - 1] == BeginDrain(t)
    requires forall m :: i <= m < j ==> !xs[m].Abort? && Forces(xs[m], t) && t in ss[m].tasks && InPass(ss[m].tasks[t])
    ensures Idle(ss[j], due) && t in ss[j].tasks && ForcedOk(ss[j].tasks[t], due)
    ensures forall k :: k in IdleSlots(ss[i]) && k !in due ==> SettledBetween(ss, xs, i, j, k)
    decreases j
  {
    hide Enabled, Next, Idle, ForcedOk, Settled, Forces;
    if i == j {
      assert ss[i - 1 + 1] == Next(ss[i - 1], xs[i - 1]);
      due := IdleSlots(ss[i]);
      PassBegins(ss[i - 1], t);
    } else {
      var before := ForcedAt(ss, xs, i, j - 1, t);
      assert ss[j - 1 + 1] == Next(ss[j - 1], xs[j - 1]);
      AlwaysExist(ss, xs, j - 1);
      IdleOn(ss[j - 1], xs[j - 1], before);
      ForcedOn(ss[j - 1], xs[j - 1], t, before);
      due := before - Settled(ss[j - 1], xs[j - 1]);
      forall k | k in IdleSlots(ss[i]) && k !in due
        ensures SettledBetween(ss, xs, i, j, k)
      {
        if k !in before {
          assert SettledBetween(ss, xs, i, j - 1, k);
        }
      }
    }
  }

  lemma {:induction false} PassBegins(s: State, t: TaskId)
    requires Enabled(s, BeginDrain(t))
    ensures var s' := Next(s, BeginDrain(t));
      Idle(s', IdleSlots(s')) && t in s'.tasks && ForcedOk(s'.tasks[t], IdleSlots(s'))
  {
  }

  // A forced pass that is not ended by an exception leaves no slot attached or marked that was so when it began, unless
  // its merge has failed or its cursor has gone on with it.
  lemma {:induction false} ForcedPassServes(ss: seq<State>, xs: seq<Step>, i: nat, j: nat, t: TaskId, k: SlotId)
    requires Run(ss, xs) && 0 < i < j < |ss| && xs[i - 1] == BeginDrain(t)
    requires forall m :: i <= m < j ==> !xs[m].Abort? && Forces(xs[m], t) && t in ss[m].tasks && InPass(ss[m].tasks[t])
    requires t in ss[j].tasks && ss[j].tasks[t].Publishing?
    requires k < |ss[i].slots| && ss[i].slots[k] in {ATTACHED, MERGING}
    ensures SettledBetween(ss, xs, i, j, k)
  {
    var due := ForcedAt(ss, xs, i, j, t);
    assert k in IdleSlots(ss[i]);
  }

  // ----- from a publication to the next rest

  // The slot a step marks for a merge.
  function Marked(s: State, x: Step): Option<SlotId>
    requires Enabled(s, x)
  {
    match x
    case Publish(_, k, _) => Some(k)
    case EndRelease(t) => Some(s.threads[t].slot)
    case _ => None
  }

  lemma {:induction false} MarkedMerges(s: State, x: Step)
    requires Enabled(s, x) && Marked(s, x).Some?
    ensures HasSlot(Next(s, x), Marked(s, x).value) && Next(s, x).slots[Marked(s, x).value] == MERGING
  {
  }

  lemma {:induction false} ServedStays(ss: seq<State>, xs: seq<Step>, i: nat, j: nat, k: SlotId)
    requires Run(ss, xs) && i < j < |ss|
    ensures Served(ss, xs, i, j - 1, k) ==> Served(ss, xs, i, j, k)
  {
    hide Enabled, Next, Finished;
  }

  lemma {:induction false} StillMerging(ss: seq<State>, xs: seq<Step>, i: nat, j: nat, k: SlotId)
    requires Run(ss, xs) && i <= j < |ss| && HasSlot(ss[i], k) && ss[i].slots[k] == MERGING && !Served(ss, xs, i, j, k)
    ensures HasSlot(ss[j], k) && ss[j].slots[k] == MERGING
    decreases j
  {
    hide Enabled, Next, Finished;
    if i < j {
      ServedStays(ss, xs, i, j, k);
      StillMerging(ss, xs, i, j - 1, k);
      assert ss[j - 1 + 1] == Next(ss[j - 1], xs[j - 1]);
      assert k !in Finished(ss[j - 1], xs[j - 1]);
      WaitsOn(ss[j - 1], xs[j - 1], {k});
    }
  }

  // Whatever a commit, a rollback or a cursor that goes has marked is merged, or its merge has failed, by the time the
  // merge machinery is at rest.
  lemma {:induction false} PublishedIsMerged(ss: seq<State>, xs: seq<Step>, i: nat, j: nat)
    requires Run(ss, xs) && i < j < |ss| && Enabled(ss[i], xs[i]) && Marked(ss[i], xs[i]).Some? && Quiet(ss[j])
    ensures Served(ss, xs, i + 1, j, Marked(ss[i], xs[i]).value)
  {
    hide Next, Marked, Served, Enabled;
    var k := Marked(ss[i], xs[i]).value;
    assert ss[i + 1] == Next(ss[i], xs[i]);
    MarkedMerges(ss[i], xs[i]);
    if !Served(ss, xs, i + 1, j, k) {
      StillMerging(ss, xs, i + 1, j, k);
      NoMergingSlotOrphaned(ss, xs, j);
    }
  }
}
