// A run that loses a snapshot: edits behind prepare_commit are committed with the outdated copy, and
// the next writer is handed a page that a reader of that commit looks at.

module LostSnapshot {
  import opened Common
  import opened Memory
  import opened Trees
  import opened Store
  import opened Invariants
  import opened WriterSteps
  import opened Edits
  import opened TxnSteps
  import opened Snapshots
  import opened Runs

  // A run of a store with one size class that edits after prepare_commit.
  const FIRST := Node(LeafData([], [1]), [])
  const SECOND := Node(LeafData([], [2]), [])

  function Record(id: nat, root: Option<PageId>, start: PageId, next: Option<PageId>, refs: nat, frontier: nat,
                  queue: seq<Garbage>): Txn {
    Txn(id, 0, root, start, next, refs, Mem(frontier, [queue]))
  }

  const T0 := Record(1, None, 0, Some(1), 0, 2, [])

  const S0 := Init(1, 0)
  const S1 := Db(map[], map[0 := T0.(next := None), 1 := Record(2, None, 0, None, 0, 2, [])],
                 0, 0, None, 1, Some(1), 1)
  const S2 := Db(map[], map[0 := T0, 1 := Record(2, None, 0, None, 0, 3, []), 2 := Record(2, None, 0, None, 0, 3, [])],
                 0, 1, Some(2), 1, Some(1), 1)
  const S4 := Db(map[3 := Page(2, 0, FIRST)],
                 map[0 := T0, 1 := Record(2, None, 0, None, 0, 4, []), 2 := Record(2, None, 0, None, 0, 3, [])],
                 0, 1, Some(2), 1, Some(1), 1)
  const S5 := S4.(txns := S4.txns[1 := Record(2, Some(3), 0, None, 0, 4, [])])
  const S6 := S5.(readTxn := 1, cursor := 0, active := None)
  const S7 := S6.(txns := S6.txns[1 := Record(2, Some(3), 0, None, 1, 4, [])])
  const S8 := Db(S7.nodes, S7.txns[2 := Record(3, None, 1, None, 0, 3, [Garbage(0, 3)])], 1, 1, None, 2, Some(2), 2)
  const S9 := S8.(nodes := map[3 := Page(3, 0, SECOND)],
                  txns := S8.txns[2 := Record(3, None, 1, None, 0, 4, [Garbage(0, 3)])])

  lemma {:induction false} CounterStart()
    ensures Apply(S0, Start(1)) == S1
  {
    assert S0.txns[0] == T0.(next := None) && S0.txns[1] == T0.(next := None);
    assert ChainLength(S0) == 0;
  }

  lemma {:induction false} CounterPrepare()
    ensures Apply(S1, Prepare(1)) == S2
  {
    assert AllocPage(S1, 0).1 == 2;
    assert Apply(S1, Prepare(1)).txns == S2.txns;
  }

  lemma {:induction false} CounterEdit()
    ensures Apply(S2, AllocNode(0, FIRST.data, [])) == S4 && NewNode(S2, 0, Node(FIRST.data, Roots([]))).1 == 3
    ensures Apply(S4, HangIn([], Tree(3, FIRST.data, []))) == S5
  {
    assert Apply(S2, AllocNode(0, FIRST.data, [])).txns == S4.txns;
    assert Apply(S2, AllocNode(0, FIRST.data, [])).nodes == S4.nodes;
  }

  lemma {:induction false} CounterCommit()
    ensures Apply(S5, CommitTxn(1)) == S6 && Apply(S6, Pin) == S7
  {
  }

  lemma {:induction false} CounterRestart()
    ensures Apply(S7, Start(2)) == S8
  {
    assert ChainLength(S7) == 1;
    var b := S7.(active := Some(2), nextTxn := None, cursor := 2,
                 txns := S7.txns[2 := Record(3, None, 0, None, 0, 3, [])]);
    var f := FreePage(b, 0, 0);
    var q: seq<seq<Garbage>> := [[]];
    assert q[0] + [Garbage(0, 3)] == [Garbage(0, 3)];
    assert q[0 := q[0] + [Garbage(0, 3)]] == [[Garbage(0, 3)]];
    assert f == b.(txns := b.txns[2 := Record(3, None, 0, None, 0, 3, [Garbage(0, 3)])]);
    assert Collect(f, 1, 1, 0).txns == S8.txns;
    assert Collect(f, 1, 1, 0) == S8;
    assert Collect(b, 0, 1, 1) == Collect(f, 1, 1, 0);
  }

  lemma {:induction false} CounterOverwrite()
    ensures Apply(S8, AllocNode(0, SECOND.data, [])) == S9
  {
    assert Apply(S8, AllocNode(0, SECOND.data, [])).txns == S9.txns;
    assert Apply(S8, AllocNode(0, SECOND.data, [])).nodes == S9.nodes;
  }

  const LEAF := Tree(3, FIRST.data, [])
  ghost const V0 := View([0], map[0 := None], None, None, {})
  ghost const V3 := V0.(hole := Some([]))
  ghost const V4 := V3.(loose := {LEAF})
  ghost const V5 := V0.(main := Some(LEAF))
  ghost const V6 := View([0, 1], map[0 := None, 1 := Some(LEAF)], None, None, {})
  ghost const V8 := V6.(main := Some(LEAF))

  lemma {:induction false} CounterStep0()
    ensures Steps(S0, V0, Start(1), S1, V0)
  {
    CounterStart();
  }

  lemma {:induction false} CounterStep1()
    ensures Steps(S1, V0, Prepare(1), S2, V0)
  {
    CounterPrepare();
  }

  lemma {:induction false} CounterStep2()
    ensures Steps(S2, V0, CutOut([]), S2, V3)
  {
  }

  lemma {:induction false} CounterStep3()
    ensures Steps(S2, V3, AllocNode(0, FIRST.data, []), S4, V4)
  {
    CounterEdit();
    assert V3.loose == {} && Join({}, LEAF) == {LEAF};
  }

  lemma {:induction false} CounterStep4()
    ensures Steps(S4, V4, HangIn([], LEAF), S5, V5)
  {
    CounterEdit();
    assert V4.loose - {LEAF} == {};
  }

  lemma {:induction false} CounterStep5()
    ensures Steps(S5, V5, CommitTxn(1), S6, V6)
  {
    CounterCommit();
    assert PrepareCommit(S5, 1) == S5;
    assert OldestIndex(S5, V5) == 0;
    assert Switched(S5, V5) == V6;
  }

  lemma {:induction false} CounterStep7()
    ensures Steps(S7, V6, Start(2), S8, V8)
  {
    CounterRestart();
  }

  lemma {:induction false} CounterReads(ss: seq<Db>)
    requires |ss| == 10 && ss[7] == S7 && ss[8] == S8 && ss[9] == S9
    ensures ss[7].readTxn == 1 && ReadThroughout(ss, 1, 7, 9)
    ensures ReadRoot(ss[7].nodes, ss[7].txns[1].root, [], 1) == Some([1])
    ensures ReadRoot(ss[9].nodes, ss[9].txns[1].root, [], 1) == Some([2])
  {
  }

  lemma {:induction false} CounterStep6()
    ensures Steps(S6, V6, Pin, S7, V6)
  {
    CounterCommit();
  }

  lemma {:induction false} NineSteps(ss: seq<Db>, gs: seq<View>, ops: seq<Op>)
    requires |ss| == |gs| == 10 && |ops| == 9
    requires Steps(ss[0], gs[0], ops[0], ss[1], gs[1]) && Steps(ss[1], gs[1], ops[1], ss[2], gs[2])
    requires Steps(ss[2], gs[2], ops[2], ss[3], gs[3]) && Steps(ss[3], gs[3], ops[3], ss[4], gs[4])
    requires Steps(ss[4], gs[4], ops[4], ss[5], gs[5]) && Steps(ss[5], gs[5], ops[5], ss[6], gs[6])
    requires Steps(ss[6], gs[6], ops[6], ss[7], gs[7]) && Steps(ss[7], gs[7], ops[7], ss[8], gs[8])
    requires Steps(ss[8], gs[8], ops[8], ss[9], gs[9])
    ensures forall i :: 0 <= i < 9 ==> Steps(ss[i], gs[i], ops[i], ss[i + 1], gs[i + 1])
  {
    hide Steps;
    forall i | 0 <= i < 9
      ensures Steps(ss[i], gs[i], ops[i], ss[i + 1], gs[i + 1])
    {
      assert i == 0 || i == 1 || i == 2 || i == 3 || i == 4 || i == 5 || i == 6 || i == 7 || i == 8;
    }
  }

  // The counterexample: prepare, edit, commit. The next transaction starts from the stale
  // clone and writes over the page that a reader of the committed one looks at.
  lemma {:induction false} EditAfterPrepareLosesSnapshot() returns (ss: seq<Db>, gs: seq<View>, ops: seq<Op>)
    ensures Run(ss, gs, ops) && !AllCurrent(ss, ops) && |ss| == 10
    ensures ss[7].readTxn == 1 && ReadThroughout(ss, 1, 7, 9)
    ensures ReadRoot(ss[7].nodes, ss[7].txns[1].root, [], 1) == Some([1])
    ensures ReadRoot(ss[9].nodes, ss[9].txns[1].root, [], 1) == Some([2])
  {
    hide Steps, Track, ReadRoot, ReadThroughout;
    var g9 := CounterView();
    ops := [Start(1), Prepare(1), CutOut([]), AllocNode(0, FIRST.data, []), HangIn([], LEAF), CommitTxn(1), Pin,
            Start(2), AllocNode(0, SECOND.data, [])];
    ss := [S0, S1, S2, S2, S4, S5, S6, S7, S8, S9];
    gs := [V0, V0, V0, V3, V4, V5, V6, V6, V8, g9];
    CounterReads(ss);
    CounterStep0();
    CounterStep1();
    CounterStep2();
    CounterStep3();
    CounterStep4();
    CounterStep5();
    CounterStep6();
    CounterStep7();
    NineSteps(ss, gs, ops);
    assert !CommitsCurrent(ss[5], ops[5]);
  }

  lemma {:induction false} CounterView() returns (g: View)
    ensures Steps(S8, V8, AllocNode(0, SECOND.data, []), S9, g)
  {
    CounterOverwrite();
    g := Track(S8, V8, AllocNode(0, SECOND.data, []));
  }
}
