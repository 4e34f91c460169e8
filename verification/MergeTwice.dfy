// A run in which a commit is merged twice: a cursor that lets its slot go looks at it, finds it ATTACHED, and marks it
// for a merge when it has just been merged.

module MergeTwice {
  import opened Common
  import opened Confluence
  import opened Tributaries

  // A run of some length and where it ends.
  ghost predicate Reaches(ss: seq<State>, xs: seq<Step>, ls: seq<Log>, s: State, l: Log) {
    Logged(ss, xs, ls) && ss[|ss| - 1] == s && ls[|ls| - 1] == l
  }

  lemma {:induction false} Extend(ss: seq<State>, xs: seq<Step>, ls: seq<Log>, s: State, l: Log, x: Step)
    returns (ss': seq<State>, xs': seq<Step>, ls': seq<Log>)
    requires Reaches(ss, xs, ls, s, l) && Enabled(s, x) && |l.held| == |s.slots|
    ensures Reaches(ss', xs', ls', Next(s, x), Note(s, l, x)) && xs' == xs + [x]
  {
    hide LogOk, Enabled, Next, Note;
    ss', xs', ls' := ss + [Next(s, x)], xs + [x], ls + [Note(s, l, x)];
    forall i | 0 <= i < |xs'|
      ensures NoteAt(ss', xs', ls', i) && Enabled(ss'[i], xs'[i]) && ss'[i + 1] == Next(ss'[i], xs'[i])
    {
      if i < |xs| {
        assert NoteAt(ss, xs, ls, i);
      }
    }
  }

  // One slot, two threads, one task.
  function Of(slot: SlotState, a: Thread, b: Thread, tasks: map<TaskId, Task>, active: bool, signal: nat, done: nat, inflight: nat): State {
    State([slot], map[0 := a, 1 := b], tasks, active, signal, done, inflight)
  }

  function Start(): State {
    State([], map[0 := Idle, 1 := Idle], map[], false, 0, 0, 0)
  }

  lemma {:induction false} Started() returns (ss: seq<State>, xs: seq<Step>, ls: seq<Log>)
    ensures Reaches(ss, xs, ls, Start(), Log([], [], 0, {}, false))
  {
    ss, xs, ls := [Start()], [], [Log([], [], 0, {}, false)];
  }

  lemma {:induction false} ThreadMoves(s: State, slot: SlotState, a: Thread, b: Thread, p: Thread)
    requires s.slots == [slot] && s.threads == map[0 := a, 1 := b]
    ensures Go(s, 0, p).threads == map[0 := p, 1 := b] && Go(s, 1, p).threads == map[0 := a, 1 := p]
  {
  }

  lemma {:induction false} SlotMoves(s: State, slot: SlotState)
    requires |s.slots| == 1
    ensures SetSlot(s, 0, slot).slots == [slot]
  {
  }

  // Thread 0 commits.
  lemma {:induction false} OneCommit() returns (ss: seq<State>, xs: seq<Step>, ls: seq<Log>)
    ensures Reaches(ss, xs, ls, Of(ATTACHED, Idle, Idle, map[], false, 0, 0, 0), Log([[0]], [], 1, {}, false))
  {
    hide Reaches;
    ss, xs, ls := Started();
    var s1, l1 := Of(FIRST_WRITING, Idle, Idle, map[], false, 0, 0, 0), Log([[]], [], 0, {}, false);
    assert Next(Start(), NewSlot(0)) == s1;
    assert Note(Start(), Log([], [], 0, {}, false), NewSlot(0)) == l1;
    ss, xs, ls := Extend(ss, xs, ls, Start(), Log([], [], 0, {}, false), NewSlot(0));
    SlotMoves(s1, ATTACHED);
    var none: seq<nat> := [];
    assert none + [0] == [0] && l1.held[0 := [0]] == [[0]];
    ss, xs, ls := Extend(ss, xs, ls, s1, l1, Detach(0, 0, true));
  }

  // It begins to let go of its slot; thread 1 submits a task for a sweep.
  lemma {:induction false} Submitted() returns (ss: seq<State>, xs: seq<Step>, ls: seq<Log>)
    ensures Reaches(ss, xs, ls, Of(ATTACHED, Releasing(0), Idle, map[0 := Queued], true, 1, 0, 1), Log([[0]], [], 1, {}, false))
  {
    hide Reaches;
    var l, r := Log([[0]], [], 1, {}, false), Releasing(0);
    ss, xs, ls := OneCommit();
    var s := Of(ATTACHED, Idle, Idle, map[], false, 0, 0, 0);
    ThreadMoves(s, ATTACHED, Idle, Idle, r);
    ss, xs, ls := Extend(ss, xs, ls, s, l, BeginRelease(0, 0));
    s := Of(ATTACHED, r, Idle, map[], false, 0, 0, 0);
    ThreadMoves(s, ATTACHED, r, Idle, Waking);
    ss, xs, ls := Extend(ss, xs, ls, s, l, BeginWake(1));
    s := Of(ATTACHED, r, Waking, map[], false, 0, 0, 0);
    ThreadMoves(s, ATTACHED, r, Waking, Signalled(None));
    ss, xs, ls := Extend(ss, xs, ls, s, l, Signal(1));
    ss, xs, ls := Activated(ss, xs, ls, l);
  }

  lemma {:induction false} Activated(ss: seq<State>, xs: seq<Step>, ls: seq<Log>, l: Log)
    returns (ss': seq<State>, xs': seq<Step>, ls': seq<Log>)
    requires Reaches(ss, xs, ls, Of(ATTACHED, Releasing(0), Signalled(None), map[], false, 1, 0, 0), l) && |l.held| == 1
    ensures Reaches(ss', xs', ls', Of(ATTACHED, Releasing(0), Idle, map[0 := Queued], true, 1, 0, 1), l)
  {
    hide Reaches;
    var r := Releasing(0);
    var s := Of(ATTACHED, r, Signalled(None), map[], false, 1, 0, 0);
    ThreadMoves(s, ATTACHED, r, Signalled(None), Counting(None));
    ss', xs', ls' := Extend(ss, xs, ls, s, l, TryActivate(1));
    s := Of(ATTACHED, r, Counting(None), map[], true, 1, 0, 0);
    ThreadMoves(s, ATTACHED, r, Counting(None), Submitting(None));
    ss', xs', ls' := Extend(ss', xs', ls', s, l, Count(1));
    s := Of(ATTACHED, r, Submitting(None), map[], true, 1, 0, 1);
    ThreadMoves(s, ATTACHED, r, Submitting(None), Idle);
    var none: map<TaskId, Task> := map[];
    assert none[0 := Queued] == map[0 := Queued];
    ss', xs', ls' := Extend(ss', xs', ls', s, l, Submit(1, 0));
  }

  function OneTask(slot: SlotState, a: Thread, task: Task, active: bool, done: nat): State {
    Of(slot, a, Idle, map[0 := task], active, 1, done, 1)
  }

  lemma {:induction false} TaskMoves(slot: SlotState, a: Thread, task: Task, active: bool, done: nat, task': Task)
    ensures Move(OneTask(slot, a, task, active, done), 0, task') == OneTask(slot, a, task', active, done)
  {
    assert map[0 := task][0 := task'] == map[0 := task'];
  }

  // A pass picks the slot ...
  lemma {:induction false} Begun(ss: seq<State>, xs: seq<Step>, ls: seq<Log>, slot: SlotState, a: Thread, done: nat, l: Log)
    returns (ss': seq<State>, xs': seq<Step>, ls': seq<Log>)
    requires Reaches(ss, xs, ls, OneTask(slot, a, Loading, true, done), l) && |l.held| == 1
    ensures Reaches(ss', xs', ls', OneTask(slot, a, Scanning(1, 1, 0, false, []), true, done), l)
  {
    hide Reaches;
    TaskMoves(slot, a, Loading, true, done, Draining(1));
    ss', xs', ls' := Extend(ss, xs, ls, OneTask(slot, a, Loading, true, done), l, LoadSignal(0));
    TaskMoves(slot, a, Draining(1), true, done, Scanning(1, 1, 0, false, []));
    ss', xs', ls' := Extend(ss', xs', ls', OneTask(slot, a, Draining(1), true, done), l, BeginDrain(0));
  }

  lemma {:induction false} Scanned(ss: seq<State>, xs: seq<Step>, ls: seq<Log>, slot: SlotState, a: Thread, done: nat, l: Log)
    returns (ss': seq<State>, xs': seq<Step>, ls': seq<Log>)
    requires Reaches(ss, xs, ls, OneTask(slot, a, Scanning(1, 1, 0, false, []), true, done), l) && |l.held| == 1 && slot in {ATTACHED, MERGING}
    ensures Reaches(ss', xs', ls', OneTask(slot, a, Merging(1, slot == MERGING, [0], 0, false), true, done), l)
  {
    hide Reaches;
    var seen := slot == MERGING;
    TaskMoves(slot, a, Scanning(1, 1, 0, false, []), true, done, Scanning(1, 1, 1, seen, [0]));
    assert [] + [0] == [0];
    ss', xs', ls' := Extend(ss, xs, ls, OneTask(slot, a, Scanning(1, 1, 0, false, []), true, done), l, Scan(0, true));
    TaskMoves(slot, a, Scanning(1, 1, 1, seen, [0]), true, done, Merging(1, seen, [0], 0, false));
    ss', xs', ls' := Extend(ss', xs', ls', OneTask(slot, a, Scanning(1, 1, 1, seen, [0]), true, done), l, Scan(0, true));
  }

  // ... and claims it.
  lemma {:induction false} Passed(ss: seq<State>, xs: seq<Step>, ls: seq<Log>, slot: SlotState, a: Thread, done: nat, l: Log)
    returns (ss': seq<State>, xs': seq<Step>, ls': seq<Log>)
    requires Reaches(ss, xs, ls, OneTask(slot, a, Loading, true, done), l) && |l.held| == 1 && slot in {ATTACHED, MERGING}
    ensures Reaches(ss', xs', ls', OneTask(MERGING, a, Merging(1, slot == MERGING, [0], 0, true), true, done), l)
  {
    hide Reaches;
    var seen := slot == MERGING;
    ss', xs', ls' := Begun(ss, xs, ls, slot, a, done, l);
    ss', xs', ls' := Scanned(ss', xs', ls', slot, a, done, l);
    SlotMoves(OneTask(slot, a, Merging(1, seen, [0], 0, false), true, done), MERGING);
    TaskMoves(MERGING, a, Merging(1, seen, [0], 0, false), true, done, Merging(1, seen, [0], 0, true));
    ss', xs', ls' := Extend(ss', xs', ls', OneTask(slot, a, Merging(1, seen, [0], 0, false), true, done), l, ClaimForMerge(0));
  }

  // The task merges the slot.
  lemma {:induction false} Merged() returns (ss: seq<State>, xs: seq<Step>, ls: seq<Log>)
    ensures Reaches(ss, xs, ls, OneTask(MERGED, Releasing(0), Merging(1, false, [0], 1, false), true, 0), Log([[0]], [0], 1, {}, false))
  {
    hide Reaches;
    var l, r := Log([[0]], [], 1, {}, false), Releasing(0);
    ss, xs, ls := Submitted();
    TaskMoves(ATTACHED, r, Queued, true, 0, Loading);
    ss, xs, ls := Extend(ss, xs, ls, OneTask(ATTACHED, r, Queued, true, 0), l, Begin(0));
    ss, xs, ls := Passed(ss, xs, ls, ATTACHED, r, 0, l);
    FinishStep(r, 0, false, l, Log([[0]], [0], 1, {}, false));
    ss, xs, ls := Extend(ss, xs, ls, OneTask(MERGING, r, Merging(1, false, [0], 0, true), true, 0), l, FinishMerge(0, false));
  }

  // A successful merge of the slot.
  lemma {:induction false} FinishStep(a: Thread, done: nat, seen: bool, l: Log, l': Log)
    requires l.held == [[0]] && l' == Log([[0]], l.main + [0], l.made, l.late - {0}, l.twice || 0 in l.late)
    ensures var s := OneTask(MERGING, a, Merging(1, seen, [0], 0, true), true, done);
      && Enabled(s, FinishMerge(0, false)) && Note(s, l, FinishMerge(0, false)) == l'
      && Next(s, FinishMerge(0, false)) == OneTask(MERGED, a, Merging(1, seen, [0], 1, false), true, done)
  {
    SlotMoves(OneTask(MERGING, a, Merging(1, seen, [0], 0, true), true, done), MERGED);
    TaskMoves(MERGED, a, Merging(1, seen, [0], 0, true), true, done, Merging(1, seen, [0], 1, false));
  }

  // Only then does thread 0 mark it, and the task finds it again.
  lemma {:induction false} Marked() returns (ss: seq<State>, xs: seq<Step>, ls: seq<Log>)
    ensures Reaches(ss, xs, ls, OneTask(MERGING, Published(0), Loading, true, 1), Log([[0]], [0], 1, {0}, false))
  {
    hide Reaches, Enabled, Next, Note;
    var l, late := Log([[0]], [0], 1, {}, false), Log([[0]], [0], 1, {0}, false);
    var p: Thread := Published(0);
    ss, xs, ls := Merged();
    MarkStep();
    ss, xs, ls := Extend(ss, xs, ls, OneTask(MERGED, Releasing(0), Merging(1, false, [0], 1, false), true, 0), l, EndRelease(0));
    PassEnds();
    ss, xs, ls := Extend(ss, xs, ls, OneTask(MERGING, p, Merging(1, false, [0], 1, false), true, 0), late, ClaimForMerge(0));
    ss, xs, ls := Cleared(ss, xs, ls, p, late);
    ss, xs, ls := Rechecked(ss, xs, ls, p, late);
  }

  lemma {:induction false} MarkStep()
    ensures var s := OneTask(MERGED, Releasing(0), Merging(1, false, [0], 1, false), true, 0); var l := Log([[0]], [0], 1, {}, false);
      && Enabled(s, EndRelease(0)) && Note(s, l, EndRelease(0)) == l.(late := {0})
      && Next(s, EndRelease(0)) == OneTask(MERGING, Published(0), Merging(1, false, [0], 1, false), true, 0)
  {
    var s := OneTask(MERGED, Releasing(0), Merging(1, false, [0], 1, false), true, 0);
    SlotMoves(s, MERGING);
    ThreadMoves(SetSlot(s, 0, MERGING), MERGING, Releasing(0), Idle, Published(0));
    assert {} + {0} == {0};
  }

  lemma {:induction false} PassEnds()
    ensures var s := OneTask(MERGING, Published(0), Merging(1, false, [0], 1, false), true, 0); var l := Log([[0]], [0], 1, {0}, false);
      && Enabled(s, ClaimForMerge(0)) && Note(s, l, ClaimForMerge(0)) == l
      && Next(s, ClaimForMerge(0)) == OneTask(MERGING, Published(0), Publishing(1, false), true, 0)
  {
    TaskMoves(MERGING, Published(0), Merging(1, false, [0], 1, false), true, 0, Publishing(1, false));
  }

  lemma {:induction false} Cleared(ss: seq<State>, xs: seq<Step>, ls: seq<Log>, p: Thread, l: Log)
    returns (ss': seq<State>, xs': seq<Step>, ls': seq<Log>)
    requires Reaches(ss, xs, ls, OneTask(MERGING, p, Publishing(1, false), true, 0), l) && |l.held| == 1
    ensures Reaches(ss', xs', ls', OneTask(MERGING, p, Rechecking(1), false, 1), l)
  {
    hide Reaches;
    TaskMoves(MERGING, p, Publishing(1, false), true, 1, Clearing(1));
    ss', xs', ls' := Extend(ss, xs, ls, OneTask(MERGING, p, Publishing(1, false), true, 0), l, RaiseDone(0));
    TaskMoves(MERGING, p, Clearing(1), false, 1, Rechecking(1));
    ss', xs', ls' := Extend(ss', xs', ls', OneTask(MERGING, p, Clearing(1), true, 1), l, Clear(0));
  }

  // A step of the task that only moves it.
  ghost predicate TaskStep(p: Thread, task: Task, active: bool, x: Step, task': Task, active': bool, l: Log) {
    var s := OneTask(MERGING, p, task, active, 1);
    Enabled(s, x) && |l.held| == 1 && Next(s, x) == OneTask(MERGING, p, task', active', 1) && Note(s, l, x) == l
  }

  lemma {:induction false} RecheckStep(p: Thread, l: Log)
    requires |l.held| == 1
    ensures TaskStep(p, Rechecking(1), false, Recheck(0), Rescanning(1, 0), false, l)
  {
    TaskMoves(MERGING, p, Rechecking(1), false, 1, Rescanning(1, 0));
  }

  lemma {:induction false} RescanStep(p: Thread, l: Log)
    requires |l.held| == 1
    ensures TaskStep(p, Rescanning(1, 0), false, Rescan(0), Rewinning, false, l)
  {
    TaskMoves(MERGING, p, Rescanning(1, 0), false, 1, Rewinning);
  }

  lemma {:induction false} RewinStep(p: Thread, l: Log)
    requires |l.held| == 1
    ensures TaskStep(p, Rewinning, false, Rewin(0), Loading, true, l)
  {
    TaskMoves(MERGING, p, Rewinning, true, 1, Loading);
  }

  lemma {:induction false} Rechecked(ss: seq<State>, xs: seq<Step>, ls: seq<Log>, p: Thread, l: Log)
    returns (ss': seq<State>, xs': seq<Step>, ls': seq<Log>)
    requires Reaches(ss, xs, ls, OneTask(MERGING, p, Rechecking(1), false, 1), l) && |l.held| == 1
    ensures Reaches(ss', xs', ls', OneTask(MERGING, p, Loading, true, 1), l)
  {
    hide Reaches, Enabled, Next, Note;
    RecheckStep(p, l);
    ss', xs', ls' := Extend(ss, xs, ls, OneTask(MERGING, p, Rechecking(1), false, 1), l, Recheck(0));
    RescanStep(p, l);
    ss', xs', ls' := Extend(ss', xs', ls', OneTask(MERGING, p, Rescanning(1, 0), false, 1), l, Rescan(0));
    RewinStep(p, l);
    ss', xs', ls' := Extend(ss', xs', ls', OneTask(MERGING, p, Rewinning, false, 1), l, Rewin(0));
  }

  // Commit 0 is in the main database twice.
  lemma {:induction false} ReleaseMergesTwice() returns (ss: seq<State>, xs: seq<Step>, ls: seq<Log>)
    ensures Logged(ss, xs, ls) && ls[|ls| - 1].main == [0, 0] && ls[|ls| - 1].made == 1
  {
    var l := Log([[0]], [0], 1, {0}, false);
    var p: Thread := Published(0);
    ss, xs, ls := Marked();
    ss, xs, ls := Passed(ss, xs, ls, MERGING, p, 1, l);
    FinishStep(p, 1, true, l, Log([[0]], [0, 0], 1, {}, true));
    ss, xs, ls := Extend(ss, xs, ls, OneTask(MERGING, p, Merging(1, true, [0], 0, true), true, 1), l, FinishMerge(0, false));
  }
}
