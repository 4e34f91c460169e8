// The merge task of a confluence database: any number of threads publish MERGING slots and
// wake one coalesced task. Every load, store, fetch_add and compare-exchange on the shared
// atomics is one step; the steps of all threads and tasks interleave freely.

module Confluence {
  import opened Common

  type SlotId = nat
  type ThreadId = nat
  type TaskId = nat

  // _TributaryHeader::state
  datatype SlotState = EMPTY | FIRST_WRITING | WRITING | ATTACHED | MERGING | MERGED

  // Where a thread stands in _schedule_merge, _schedule_merge_task and _request_drain_and_wait.
  datatype Thread =
    | Idle
    | Published(slot: SlotId)           // W1 done: state = MERGING stored, signal not yet bumped
    | Releasing(slot: SlotId)           // _release_write_source: ATTACHED was read, not yet stored
    | Waking                            // about to bump the signal without a slot of its own (age sweep, full table)
    | Requesting                        // _request_drain_and_wait before its fetch_add
    | Signalled(req: Option<nat>)       // W2 done: about to compare-exchange _merge_task_active
    | Counting(req: Option<nat>)        // exchange won: about to count the task as in flight
    | Submitting(req: Option<nat>)      // about to queue the task
    | Waiting(ticket: nat)              // blocked until _merge_done >= ticket

  // Where a merge task stands in _run_merge_task.
  datatype Task =
    | Queued
    | Loading                                                               // top of the outer loop
    | Draining(sig: nat)                                                    // top of the inner loop
    | Scanning(sig: nat, count: nat, i: nat, seen: bool, picked: seq<SlotId>)
    | Merging(sig: nat, seen: bool, picked: seq<SlotId>, j: nat, own: bool) // own: picked[j] was claimed
    | Publishing(sig: nat, seen: bool)                                      // about to raise _merge_done
    | Clearing(sig: nat)                                                    // J1
    | Rechecking(sig: nat)                                                  // J2: signal
    | Rescanning(count: nat, i: nat)                                        // J2: _has_merging_slot
    | Rewinning                                                             // J2 gate
    | Retiring

  datatype State = State(
    slots: seq<SlotState>,
    threads: map<ThreadId, Thread>,
    tasks: map<TaskId, Task>,
    active: bool,        // _merge_task_active
    signal: nat,         // _merge_signal
    done: nat,           // _merge_done
    inflight: nat)       // _merge_task_inflight

  predicate HasSlot(s: State, k: SlotId) { k < |s.slots| }

  predicate At(s: State, t: ThreadId, pc: Thread) {
    t in s.threads && s.threads[t] == pc
  }

  predicate Runs(s: State, t: TaskId) {
    t in s.tasks
  }

  function Go(s: State, t: ThreadId, pc: Thread): State {
    s.(threads := s.threads[t := pc])
  }

  function Move(s: State, t: TaskId, pc: Task): State {
    s.(tasks := s.tasks[t := pc])
  }

  function SetSlot(s: State, k: SlotId, x: SlotState): State
    requires HasSlot(s, k)
  {
    s.(slots := s.slots[k := x])
  }

  datatype Step =
    // threads
    | NewSlot(t: ThreadId)                      // _alloc_new_slot
    | Claim(t: ThreadId, slot: SlotId)          // EMPTY -> FIRST_WRITING, ATTACHED -> WRITING, MERGED -> FIRST_WRITING
    | Detach(t: ThreadId, slot: SlotId, commit: bool)   // commit below the threshold, else rollback: -> ATTACHED
    | Publish(t: ThreadId, slot: SlotId, commit: bool)  // commit, else first rollback or failed start: W1
    | BeginRelease(t: ThreadId, slot: SlotId)
    | EndRelease(t: ThreadId)                   // stores MERGING whatever the slot is by now
    | Recycle(slot: SlotId)                     // the last pin of a MERGED slot goes
    | BeginWake(t: ThreadId)
    | BeginRequest(t: ThreadId)
    | Signal(t: ThreadId)                       // W2
    | TryActivate(t: ThreadId)                  // the compare-exchange
    | Count(t: ThreadId)
    | Submit(t: ThreadId, task: TaskId)
    | Return(t: ThreadId)                       // the wait is over
    // tasks
    | Begin(task: TaskId)
    | LoadSignal(task: TaskId)
    | BeginDrain(task: TaskId)
    | Scan(task: TaskId, take: bool)            // take: an ATTACHED slot is forced or aged
    | ClaimForMerge(task: TaskId)
    | FinishMerge(task: TaskId, failed: bool)
    | Abort(task: TaskId)                       // an exception leaves the drain
    | RaiseDone(task: TaskId)
    | Clear(task: TaskId)                       // J1
    | Recheck(task: TaskId)                     // J2
    | Rescan(task: TaskId)
    | Rewin(task: TaskId)                       // J2 gate
    | Retire(task: TaskId)

  predicate Enabled(s: State, x: Step) {
    match x
    case NewSlot(t) => At(s, t, Idle)
    case Claim(t, k) => At(s, t, Idle) && HasSlot(s, k) && s.slots[k] in {EMPTY, ATTACHED, MERGED}
    case Detach(t, k, commit) => At(s, t, Idle) && HasSlot(s, k) && (s.slots[k] == WRITING || (s.slots[k] == FIRST_WRITING && commit))
    case Publish(t, k, commit) => At(s, t, Idle) && HasSlot(s, k) && (s.slots[k] == FIRST_WRITING || (s.slots[k] == WRITING && commit))
    case BeginRelease(t, k) => At(s, t, Idle) && HasSlot(s, k) && s.slots[k] == ATTACHED
    case EndRelease(t) => t in s.threads && s.threads[t].Releasing? && HasSlot(s, s.threads[t].slot)
    case Recycle(k) => HasSlot(s, k) && s.slots[k] == MERGED
    case BeginWake(t) => At(s, t, Idle)
    case BeginRequest(t) => At(s, t, Idle)
    case Signal(t) =>
      t in s.threads && (s.threads[t].Published? || s.threads[t].Waking? || s.threads[t].Requesting?)
    case TryActivate(t) => t in s.threads && s.threads[t].Signalled?
    case Count(t) => t in s.threads && s.threads[t].Counting?
    case Submit(t, task) => t in s.threads && s.threads[t].Submitting? && task !in s.tasks
    case Return(t) => t in s.threads && s.threads[t].Waiting? && s.done >= s.threads[t].ticket
    case Begin(t) => Runs(s, t) && s.tasks[t].Queued?
    case LoadSignal(t) => Runs(s, t) && s.tasks[t].Loading?
    case BeginDrain(t) => Runs(s, t) && s.tasks[t].Draining?
    case Scan(t, _) => Runs(s, t) && s.tasks[t].Scanning?
    case ClaimForMerge(t) => Runs(s, t) && s.tasks[t].Merging? && !s.tasks[t].own
    case FinishMerge(t, _) =>
      Runs(s, t) && s.tasks[t].Merging? && s.tasks[t].own && s.tasks[t].j < |s.tasks[t].picked|
      && HasSlot(s, s.tasks[t].picked[s.tasks[t].j])
    case Abort(t) => Runs(s, t) && (s.tasks[t].Draining? || s.tasks[t].Scanning? || (s.tasks[t].Merging? && !s.tasks[t].own))
    case RaiseDone(t) => Runs(s, t) && s.tasks[t].Publishing?
    case Clear(t) => Runs(s, t) && s.tasks[t].Clearing?
    case Recheck(t) => Runs(s, t) && s.tasks[t].Rechecking?
    case Rescan(t) => Runs(s, t) && s.tasks[t].Rescanning?
    case Rewin(t) => Runs(s, t) && s.tasks[t].Rewinning?
    case Retire(t) => Runs(s, t) && s.tasks[t].Retiring?
  }

  function AfterSignal(pc: Thread, signal: nat): Thread {
    Signalled(if pc.Requesting? then Some(signal + 1) else None)
  }

  function AfterSchedule(req: Option<nat>): Thread {
    if req.Some? then Waiting(req.value) else Idle
  }

  function ScanOne(s: State, pc: Task, take: bool): Task
    requires pc.Scanning?
  {
    if pc.i >= pc.count || !HasSlot(s, pc.i) then Merging(pc.sig, pc.seen, pc.picked, 0, false)
    else
      var x := s.slots[pc.i];
      Scanning(pc.sig, pc.count, pc.i + 1, pc.seen || x == MERGING,
               if x == MERGING || (x == ATTACHED && take) then pc.picked + [pc.i] else pc.picked)
  }

  function Next(s: State, x: Step): State
    requires Enabled(s, x)
  {
    match x
    case NewSlot(t) => s.(slots := s.slots + [FIRST_WRITING])
    case Claim(t, k) => SetSlot(s, k, if s.slots[k] == ATTACHED then WRITING else FIRST_WRITING)
    case Detach(t, k, _) => SetSlot(s, k, ATTACHED)
    case Publish(t, k, _) => Go(SetSlot(s, k, MERGING), t, Published(k))
    case BeginRelease(t, k) => Go(s, t, Releasing(k))
    case EndRelease(t) => Go(SetSlot(s, s.threads[t].slot, MERGING), t, Published(s.threads[t].slot))
    case Recycle(k) => SetSlot(s, k, EMPTY)
    case BeginWake(t) => Go(s, t, Waking)
    case BeginRequest(t) => Go(s, t, Requesting)
    case Signal(t) => Go(s.(signal := s.signal + 1), t, AfterSignal(s.threads[t], s.signal))
    case TryActivate(t) =>
      if s.active then Go(s, t, AfterSchedule(s.threads[t].req))
      else Go(s.(active := true), t, Counting(s.threads[t].req))
    case Count(t) => Go(s.(inflight := s.inflight + 1), t, Submitting(s.threads[t].req))
    case Submit(t, task) => Move(Go(s, t, AfterSchedule(s.threads[t].req)), task, Queued)
    case Return(t) => Go(s, t, Idle)
    case Begin(t) => Move(s, t, Loading)
    case LoadSignal(t) => Move(s, t, Draining(s.signal))
    case BeginDrain(t) => Move(s, t, Scanning(s.tasks[t].sig, |s.slots|, 0, false, []))
    case Scan(t, take) => Move(s, t, ScanOne(s, s.tasks[t], take))
    case ClaimForMerge(t) =>
      var pc := s.tasks[t];
      if pc.j >= |pc.picked| || !HasSlot(s, pc.picked[pc.j]) then Move(s, t, Publishing(pc.sig, pc.seen))
      else
        var k := pc.picked[pc.j];
        if s.slots[k] == ATTACHED || s.slots[k] == MERGING then Move(SetSlot(s, k, MERGING), t, pc.(own := true))
        else Move(s, t, pc.(j := pc.j + 1))
    case FinishMerge(t, failed) =>
      var pc := s.tasks[t];
      Move(SetSlot(s, pc.picked[pc.j], if failed then ATTACHED else MERGED), t, pc.(j := pc.j + 1, own := false))
    case Abort(t) => Move(s, t, Publishing(s.tasks[t].sig, false))
    case RaiseDone(t) =>
      var pc := s.tasks[t];
      Move(s.(done := if pc.sig > s.done then pc.sig else s.done), t,
           if pc.seen then Draining(pc.sig) else Clearing(pc.sig))
    case Clear(t) => Move(s.(active := false), t, Rechecking(s.tasks[t].sig))
    case Recheck(t) => Move(s, t, if s.signal != s.tasks[t].sig then Rewinning else Rescanning(|s.slots|, 0))
    case Rescan(t) =>
      var pc := s.tasks[t];
      Move(s, t, if pc.i >= pc.count || !HasSlot(s, pc.i) then Retiring
                 else if s.slots[pc.i] == MERGING then Rewinning
                 else Rescanning(pc.count, pc.i + 1))
    case Rewin(t) => if s.active then Move(s, t, Retiring) else Move(s.(active := true), t, Loading)
    case Retire(t) => s.(tasks := s.tasks - {t}, inflight := if s.inflight > 0 then s.inflight - 1 else 0)
  }

  // ----- what every run keeps

  // This thread won the exchange and has not queued its task yet.
  predicate OwnsThread(pc: Thread) {
    pc.Counting? || pc.Submitting?
  }

  // This task has been submitted or has re-won the exchange, and has not passed J1 since.
  predicate OwnsTask(pc: Task) {
    !(pc.Rechecking? || pc.Rescanning? || pc.Rewinning? || pc.Retiring?)
  }

  datatype Owner = ByThread(t: ThreadId) | ByTask(k: TaskId)

  predicate Owns(s: State, o: Owner) {
    match o
    case ByThread(t) => t in s.threads && OwnsThread(s.threads[t])
    case ByTask(k) => k in s.tasks && OwnsTask(s.tasks[k])
  }

  // _merge_task_active is set exactly when there is an owner, and there is at most one.
  ghost predicate OneOwner(s: State) {
    && (s.active <==> exists o :: Owns(s, o))
    && (forall o, o' :: Owns(s, o) && Owns(s, o') ==> o == o')
  }

  // The thread is between W1 and its compare-exchange.
  predicate WillWake(pc: Thread) {
    pc.Published? || pc.Signalled?
  }

  // The task is past J1 but will still look at slot k or knows that there is more to do.
  predicate WillRecheck(pc: Task, k: SlotId) {
    pc.Rechecking? || pc.Rewinning? || (pc.Rescanning? && pc.i <= k < pc.count)
  }

  // A MERGING slot nobody owns a task for is about to wake or to be found by somebody.
  ghost predicate Covered(s: State, k: SlotId) {
    || (exists t :: t in s.threads && WillWake(s.threads[t]))
    || (exists x :: x in s.tasks && WillRecheck(s.tasks[x], k))
  }

  ghost predicate NoOrphan(s: State) {
    forall k: nat :: HasSlot(s, k) && s.slots[k] == MERGING && !s.active ==> Covered(s, k)
  }

  // A drain request that was raised but not yet answered.
  predicate Behind(pc: Task, signal: nat) {
    pc.Rewinning? || (pc.Rechecking? && pc.sig != signal)
  }

  ghost predicate Answering(s: State) {
    || (exists t :: t in s.threads && s.threads[t].Signalled?)
    || (exists x :: x in s.tasks && Behind(s.tasks[x], s.signal))
  }

  // The signal a task works for was raised, and past RaiseDone it is answered.
  predicate SigOk(s: State, pc: Task) {
    && (pc.Draining? || pc.Scanning? || pc.Merging? || pc.Publishing? || pc.Clearing? || pc.Rechecking? ==> pc.sig <= s.signal)
    && (pc.Clearing? || pc.Rechecking? ==> pc.sig <= s.done)
  }

  // Only generations that were raised are waited for.
  predicate RequestOk(s: State, pc: Thread) {
    && (pc.Waiting? ==> pc.ticket <= s.signal)
    && ((pc.Signalled? || OwnsThread(pc)) && pc.req.Some? ==> pc.req.value <= s.signal)
  }

  ghost predicate Requests(s: State) {
    && s.done <= s.signal
    && (forall x :: x in s.tasks ==> SigOk(s, s.tasks[x]))
    && (forall t :: t in s.threads ==> RequestOk(s, s.threads[t]))
    && (s.done < s.signal && !s.active ==> Answering(s))
  }

  ghost predicate Counted(s: State) {
    s.inflight == |s.tasks| + |SubmittingThreads(s)|
  }

  ghost function SubmittingThreads(s: State): set<ThreadId> {
    set t | t in s.threads && s.threads[t].Submitting?
  }

  ghost predicate Inv(s: State) {
    OneOwner(s) && NoOrphan(s) && Requests(s) && Counted(s)
  }

  predicate ThreadStep(x: Step) {
    x.NewSlot? || x.Claim? || x.Detach? || x.Publish? || x.BeginRelease? || x.EndRelease? || x.Recycle? || x.BeginWake?
    || x.BeginRequest? || x.Signal? || x.TryActivate? || x.Count? || x.Submit? || x.Return?
  }

  lemma {:induction false} ThreadsKeepOwner(s: State, x: Step)
    requires Enabled(s, x) && OneOwner(s) && ThreadStep(x)
    ensures OneOwner(Next(s, x))
  {
    var s' := Next(s, x);
    if x.TryActivate? && !s.active {
      assert Owns(s', ByThread(x.t));
      assert forall o :: Owns(s', o) && o != ByThread(x.t) ==> Owns(s, o);
    } else if x.Count? {
      assert Owns(s, ByThread(x.t)) && Owns(s', ByThread(x.t));
      assert forall o :: Owns(s', o) ==> Owns(s, o);
    } else if x.Submit? {
      assert Owns(s, ByThread(x.t)) && Owns(s', ByTask(x.task));
      var gone, queued := ByThread(x.t), ByTask(x.task);
      assert forall o :: Owns(s', o) && o != queued ==> Owns(s, o) && o != gone;
    } else {
      assert forall o :: Owns(s', o) <==> Owns(s, o);
    }
  }

  lemma {:induction false} TasksKeepOwner(s: State, x: Step)
    requires Enabled(s, x) && OneOwner(s) && !ThreadStep(x)
    ensures OneOwner(Next(s, x))
  {
    var s' := Next(s, x);
    if x.Clear? {
      assert Owns(s, ByTask(x.task));
      assert forall o :: Owns(s', o) ==> Owns(s, o);
      assert !Owns(s', ByTask(x.task));
    } else if x.Rewin? && !s.active {
      assert Owns(s', ByTask(x.task));
      assert forall o :: Owns(s', o) && o != ByTask(x.task) ==> Owns(s, o);
    } else {
      assert forall o :: Owns(s', o) <==> Owns(s, o);
    }
  }

  // A MERGING slot stays covered by the same thread or task, unless that one moved on.
  lemma {:induction false} ThreadsKeepNoOrphan(s: State, x: Step)
    requires Enabled(s, x) && OneOwner(s) && NoOrphan(s) && ThreadStep(x)
    ensures NoOrphan(Next(s, x))
  {
    var s' := Next(s, x);
    forall k: nat | HasSlot(s', k) && s'.slots[k] == MERGING && !s'.active
      ensures Covered(s', k)
    {
      if x.Publish? || x.EndRelease? || x.Signal? {
        assert x.t in s'.threads && WillWake(s'.threads[x.t]);
      } else {
        if x.Submit? {
          assert Owns(s, ByThread(x.t));
        }
        StaysCovered(s, x, k);
      }
    }
  }

  lemma {:induction false} StaysCovered(s: State, x: Step, k: nat)
    requires Enabled(s, x) && Covered(s, k) && !s.active && !Next(s, x).active
    requires !x.TryActivate? && !x.Clear? && !x.Rewin?
    requires HasSlot(Next(s, x), k) && Next(s, x).slots[k] == MERGING
    ensures Covered(Next(s, x), k)
  {
    var s' := Next(s, x);
    if t :| t in s.threads && WillWake(s.threads[t]) {
      assert t in s'.threads && WillWake(s'.threads[t]);
    } else {
      var y :| y in s.tasks && WillRecheck(s.tasks[y], k);
      assert y in s'.tasks && WillRecheck(s'.tasks[y], k);
    }
  }

  lemma {:induction false} TasksKeepNoOrphan(s: State, x: Step)
    requires Enabled(s, x) && OneOwner(s) && NoOrphan(s) && !ThreadStep(x)
    ensures NoOrphan(Next(s, x))
  {
    var s' := Next(s, x);
    forall k: nat | HasSlot(s', k) && s'.slots[k] == MERGING && !s'.active
      ensures Covered(s', k)
    {
      if x.Clear? {
        assert x.task in s'.tasks && WillRecheck(s'.tasks[x.task], k);
      } else {
        if x.ClaimForMerge? || x.FinishMerge? {
          assert Owns(s, ByTask(x.task));
        }
        StaysCovered(s, x, k);
      }
    }
  }

  // ----- drain requests

  // A step changes at most the thread and the task it belongs to.
  lemma {:induction false} ThreadStepsKeepTasks(s: State, x: Step)
    requires Enabled(s, x) && ThreadStep(x) && !x.Submit?
    ensures Next(s, x).tasks == s.tasks
  {
  }

  lemma {:induction false} TaskStepsKeepThreads(s: State, x: Step)
    requires Enabled(s, x) && !ThreadStep(x)
    ensures Next(s, x).threads == s.threads && x.task in s.tasks && (x.task in Next(s, x).tasks <==> !x.Retire?)
    ensures Next(s, x).inflight == if x.Retire? && s.inflight > 0 then s.inflight - 1 else s.inflight
  {
  }

  lemma {:induction false} TasksElse(s: State, x: Step, y: TaskId)
    requires Enabled(s, x) && !ThreadStep(x) && x.task != y
    ensures y in Next(s, x).tasks <==> y in s.tasks
    ensures y in s.tasks ==> Next(s, x).tasks[y] == s.tasks[y]
  {
  }

  lemma {:induction false} ThreadsElse(s: State, x: Step, t: ThreadId)
    requires Enabled(s, x) && ThreadStep(x) && (x.Recycle? || x.t != t)
    ensures t in Next(s, x).threads <==> t in s.threads
    ensures t in s.threads ==> Next(s, x).threads[t] == s.threads[t]
  {
  }

  // Whatever does not move a task leaves it where it is, or queues it.
  lemma {:induction false} SameTask(s: State, x: Step, t: TaskId)
    requires Enabled(s, x) && t in Next(s, x).tasks && (ThreadStep(x) || x.task != t)
    ensures Next(s, x).tasks[t] == Queued || (t in s.tasks && Next(s, x).tasks[t] == s.tasks[t])
  {
    hide At;
    if !ThreadStep(x) {
      TasksElse(s, x, t);
    } else if !x.Submit? {
      ThreadStepsKeepTasks(s, x);
    }
  }

  lemma {:induction false} TasksKeepSigOk(s: State, x: Step, y: TaskId)
    requires Enabled(s, x) && s.done <= s.signal && (forall z :: z in s.tasks ==> SigOk(s, s.tasks[z]))
    requires s.done <= Next(s, x).done && s.signal <= Next(s, x).signal && y in Next(s, x).tasks
    ensures SigOk(Next(s, x), Next(s, x).tasks[y])
  {
    hide At;
    if ThreadStep(x) {
      if x.Submit? {
        assert y != x.task ==> y in s.tasks && SigOk(s, s.tasks[y]);
      } else {
        ThreadStepsKeepTasks(s, x);
      }
    } else if x.task != y {
      TasksElse(s, x, y);
    } else {
      OwnSigOk(s, x);
    }
  }

  lemma {:induction false} OwnSigOk(s: State, x: Step)
    requires Enabled(s, x) && !ThreadStep(x) && s.done <= s.signal && x.task in s.tasks && SigOk(s, s.tasks[x.task])
    requires x.task in Next(s, x).tasks
    ensures SigOk(Next(s, x), Next(s, x).tasks[x.task])
  {
  }

  lemma {:induction false} ThreadsKeepRequestOk(s: State, x: Step, t: ThreadId)
    requires Enabled(s, x) && (forall u :: u in s.threads ==> RequestOk(s, s.threads[u])) && t in Next(s, x).threads
    requires s.signal <= Next(s, x).signal
    ensures RequestOk(Next(s, x), Next(s, x).threads[t])
  {
    hide At;
    if !ThreadStep(x) {
      TaskStepsKeepThreads(s, x);
    } else if !x.Recycle? && x.t == t {
      assert t in s.threads ==> RequestOk(s, s.threads[t]);
    } else {
      ThreadsElse(s, x, t);
    }
  }

  lemma {:induction false} CountersGrow(s: State, x: Step)
    requires Enabled(s, x) && s.done <= s.signal && (forall y :: y in s.tasks ==> SigOk(s, s.tasks[y]))
    ensures Next(s, x).done <= Next(s, x).signal && s.done <= Next(s, x).done && s.signal <= Next(s, x).signal
  {
    hide At;
    if x.RaiseDone? {
      assert SigOk(s, s.tasks[x.task]);
    }
  }

  lemma {:induction false} KeepsSignals(s: State, x: Step)
    requires Enabled(s, x) && Requests(s)
    ensures var s' := Next(s, x);
            && s'.done <= s'.signal && s.done <= s'.done && s.signal <= s'.signal
            && (forall y :: y in s'.tasks ==> SigOk(s', s'.tasks[y]))
            && (forall t :: t in s'.threads ==> RequestOk(s', s'.threads[t]))
  {
    hide At, Answering, Enabled, Next, SigOk, RequestOk;
    var s' := Next(s, x);
    CountersGrow(s, x);
    forall y | y in s'.tasks
      ensures SigOk(s', s'.tasks[y])
    {
      TasksKeepSigOk(s, x, y);
    }
    forall t | t in s'.threads
      ensures RequestOk(s', s'.threads[t])
    {
      ThreadsKeepRequestOk(s, x, t);
    }
  }

  lemma {:induction false} KeepsAnswering(s: State, x: Step)
    requires Enabled(s, x) && Requests(s) && OneOwner(s)
    ensures Next(s, x).done < Next(s, x).signal && !Next(s, x).active ==> Answering(Next(s, x))
  {
    var s' := Next(s, x);
    if s'.done < s'.signal && !s'.active {
      if x.Signal? {
        assert x.t in s'.threads && s'.threads[x.t].Signalled?;
      } else if x.Clear? {
        assert SigOk(s, s.tasks[x.task]);
        assert x.task in s'.tasks && Behind(s'.tasks[x.task], s'.signal);
      } else {
        if x.RaiseDone? {
          assert Owns(s, ByTask(x.task));
        }
        StaysAnswering(s, x);
      }
    }
  }

  lemma {:induction false} StaysAnswering(s: State, x: Step)
    requires Enabled(s, x) && Answering(s) && !s.active && !Next(s, x).active && s.done < s.signal
    requires !x.Signal? && !x.TryActivate? && !x.Clear? && !x.Rewin? && !x.RaiseDone?
    requires forall y :: y in s.tasks ==> SigOk(s, s.tasks[y])
    ensures Answering(Next(s, x))
  {
    var s' := Next(s, x);
    if t :| t in s.threads && s.threads[t].Signalled? {
      assert t in s'.threads && s'.threads[t].Signalled?;
    } else {
      var y :| y in s.tasks && Behind(s.tasks[y], s.signal);
      assert y in s'.tasks && Behind(s'.tasks[y], s'.signal);
    }
  }

  // ----- the task counter

  lemma {:induction false} CountKeepsCounted(s: State, x: Step)
    requires Enabled(s, x) && Counted(s) && x.Count?
    ensures Counted(Next(s, x))
  {
    assert SubmittingThreads(Next(s, x)) == SubmittingThreads(s) + {x.t};
  }

  lemma {:induction false} SubmitKeepsCounted(s: State, x: Step)
    requires Enabled(s, x) && Counted(s) && x.Submit?
    ensures Counted(Next(s, x))
  {
    var s' := Next(s, x);
    assert x.t in SubmittingThreads(s) && SubmittingThreads(s') == SubmittingThreads(s) - {x.t};
    assert s'.tasks.Keys == s.tasks.Keys + {x.task};
    assert |s'.tasks| == |s'.tasks.Keys| && |s.tasks| == |s.tasks.Keys|;
  }

  lemma {:induction false} OthersKeepSubmitting(s: State, x: Step)
    requires Enabled(s, x) && !x.Count? && !x.Submit?
    ensures SubmittingThreads(Next(s, x)) == SubmittingThreads(s)
  {
    if ThreadStep(x) {
      forall t
        ensures t in SubmittingThreads(Next(s, x)) <==> t in SubmittingThreads(s)
      {
        if x.Recycle? || x.t != t { ThreadsElse(s, x, t); }
      }
    } else {
      TaskStepsKeepThreads(s, x);
    }
  }

  lemma {:induction false} OthersKeepTasks(s: State, x: Step)
    requires Enabled(s, x) && !x.Submit? && !x.Count?
    ensures Next(s, x).tasks.Keys == if x.Retire? then s.tasks.Keys - {x.task} else s.tasks.Keys
    ensures x.Retire? ==> x.task in s.tasks.Keys
    ensures Next(s, x).inflight == if x.Retire? && s.inflight > 0 then s.inflight - 1 else s.inflight
  {
    if ThreadStep(x) {
      ThreadStepsKeepTasks(s, x);
    } else {
      TaskStepsKeepThreads(s, x);
      forall y: TaskId
        ensures y in Next(s, x).tasks.Keys <==> y in s.tasks.Keys && !(x.Retire? && y == x.task)
      {
        if y != x.task { TasksElse(s, x, y); }
      }
    }
  }

  lemma {:induction false} OthersKeepCounted(s: State, x: Step)
    requires Enabled(s, x) && Counted(s) && !x.Count? && !x.Submit?
    ensures Counted(Next(s, x))
  {
    hide Enabled, Next, SubmittingThreads;
    var s' := Next(s, x);
    OthersKeepSubmitting(s, x);
    OthersKeepTasks(s, x);
    assert |s'.tasks| == |s'.tasks.Keys| && |s.tasks| == |s.tasks.Keys|;
  }

  lemma {:induction false} StepKeepsInv(s: State, x: Step)
    requires Enabled(s, x) && Inv(s)
    ensures Inv(Next(s, x))
  {
    if ThreadStep(x) {
      ThreadsKeepOwner(s, x);
      ThreadsKeepNoOrphan(s, x);
    } else {
      TasksKeepOwner(s, x);
      TasksKeepNoOrphan(s, x);
    }
    hide OneOwner, NoOrphan, Counted, Answering;
    KeepsSignals(s, x);
    KeepsAnswering(s, x);
    if x.Count? {
      CountKeepsCounted(s, x);
    } else if x.Submit? {
      SubmitKeepsCounted(s, x);
    } else {
      OthersKeepCounted(s, x);
    }
  }

  // ----- runs

  // No thread has begun, no task exists; the slots are whatever recovery left.
  ghost predicate Fresh(s: State) {
    && (forall t :: t in s.threads ==> s.threads[t].Idle?) && s.tasks == map[]
    && !s.active && s.signal == s.done == s.inflight == 0
    && (forall k: nat :: HasSlot(s, k) ==> s.slots[k] != MERGING)
  }

  ghost predicate Run(ss: seq<State>, xs: seq<Step>) {
    && |ss| == |xs| + 1 && Fresh(ss[0])
    && forall i :: 0 <= i < |xs| ==> Enabled(ss[i], xs[i]) && ss[i + 1] == Next(ss[i], xs[i])
  }

  lemma {:induction false} RunKeepsInv(ss: seq<State>, xs: seq<Step>, i: nat)
    requires Run(ss, xs) && i < |ss|
    ensures Inv(ss[i])
  {
    if i == 0 {
      assert SubmittingThreads(ss[0]) == {};
    } else {
      RunKeepsInv(ss, xs, i - 1);
      assert ss[i - 1 + 1] == Next(ss[i - 1], xs[i - 1]);
      StepKeepsInv(ss[i - 1], xs[i - 1]);
    }
  }

  // No thread is between publishing a slot and the end of its schedule call, and no task is
  // queued or running.
  ghost predicate Quiet(s: State) {
    && s.tasks == map[]
    && (forall t :: t in s.threads ==> s.threads[t].Idle? || s.threads[t].Releasing? || s.threads[t].Waiting?
                                       || s.threads[t].Waking? || s.threads[t].Requesting?)
  }

  // The main result: whenever the merge machinery is at rest, no slot waits for a merge that
  // nobody will start, in every interleaving of any number of threads and tasks.
  lemma {:induction false} NoMergingSlotOrphaned(ss: seq<State>, xs: seq<Step>, i: nat)
    requires Run(ss, xs) && i < |ss| && Quiet(ss[i])
    ensures forall k: nat :: HasSlot(ss[i], k) ==> ss[i].slots[k] != MERGING
    ensures !ss[i].active && ss[i].inflight == 0
  {
    RunKeepsInv(ss, xs, i);
    var s := ss[i];
    assert forall o :: !Owns(s, o);
    assert SubmittingThreads(s) == {};
  }

  // A blocked drain request is never forgotten: at rest its generation has been reached.
  lemma {:induction false} NoRequestLost(ss: seq<State>, xs: seq<Step>, i: nat, t: ThreadId)
    requires Run(ss, xs) && i < |ss| && Quiet(ss[i]) && t in ss[i].threads && ss[i].threads[t].Waiting?
    ensures Enabled(ss[i], Return(t))
  {
    RunKeepsInv(ss, xs, i);
    assert forall o :: !Owns(ss[i], o);
  }

  // The flag is set exactly while one submitter, one queued task or one running task owns it.
  lemma {:induction false} ActiveHasOneOwner(ss: seq<State>, xs: seq<Step>, i: nat)
    requires Run(ss, xs) && i < |ss|
    ensures ss[i].active <==> exists o :: Owns(ss[i], o)
    ensures forall o, o' :: Owns(ss[i], o) && Owns(ss[i], o') ==> o == o'
    ensures ss[i].inflight == |ss[i].tasks| + |SubmittingThreads(ss[i])|
  {
    RunKeepsInv(ss, xs, i);
  }

  // Two tasks never drain at the same time.
  lemma {:induction false} DrainsAreSerial(ss: seq<State>, xs: seq<Step>, i: nat, a: TaskId, b: TaskId)
    requires Run(ss, xs) && i < |ss| && a in ss[i].tasks && b in ss[i].tasks
    requires ss[i].tasks[a].Merging? && ss[i].tasks[b].Merging?
    ensures a == b
  {
    RunKeepsInv(ss, xs, i);
    assert Owns(ss[i], ByTask(a)) && Owns(ss[i], ByTask(b));
  }
}
