// The cursor: a stack of transitions from the root, the key bytes consumed and those left.

module Cursors {
  import opened Common
  import opened Prefix
  import opened Trie
  import opened Zipper
  import opened Search
  import opened Frames
  import opened Insertion
  import opened Removal

  const UNSET := -1

  ghost function Listing(root: Option<Node>): seq<Entry> {
    if root.None? then [] else Entries([], root.value)
  }

  ghost function Reversed(es: seq<Entry>): seq<Entry> {
    if es == [] then [] else Reversed(es[1..]) + [es[0]]
  }

  ghost function Contents(root: Option<Node>): map<Bytes, Bytes> {
    ToMap(Listing(root))
  }

  // A label is split although the key has no byte left there.
  predicate SplitsAtKeyEnd(f: Frame, rest: Bytes) {
    f.node.Trie? && f.prefix < |f.node.compressed| && rest == []
  }

  // ----- removal: the frame on top is about to lose the branch it followed

  ghost predicate Leaving(root: Option<Node>, fs: seq<Frame>, current: Bytes, prefix: nat) {
    && Anchored(root, fs) && WellFormed(Top(fs).node) && Steady(fs) && Marked(Top(fs))
    && current == Spelled(fs) + Top(fs).node.compressed
    && (prefix == 0 <==> Child(Top(fs)).key == NONE)
  }

  ghost function LeftOf(fs: seq<Frame>): seq<Entry>
    requires fs != [] && Linked(fs) && HasLink(Top(fs))
  {
    Before(fs) + BranchEntries(Spelled(fs) + Top(fs).node.compressed, Top(fs).node.branches[..Top(fs).link])
  }

  ghost function RightOf(fs: seq<Frame>): seq<Entry>
    requires fs != [] && Linked(fs) && HasLink(Top(fs))
  {
    BranchEntries(Spelled(fs) + Top(fs).node.compressed, Top(fs).node.branches[Top(fs).link + 1..]) + After(fs)
  }

  // Entries passed over because branch_key was not set: the empty key leaves a root without label.
  ghost function MissedTop(p: Bytes, f: Frame): seq<Entry>
    requires HasLink(f) && WellFormed(f.node)
  {
    if f.node.compressed == [] && Child(f).key == NONE && |f.node.branches| > 2 then
      WithoutAscending(f.node.branches, f.link);
      var w := Without(f.node.branches, f.link);
      BranchEntries(p, w[..UpTo(w, f.branchKey)])
    else []
  }

  ghost function Missed(fs: seq<Frame>): seq<Entry>
    requires fs != [] && HasLink(Top(fs)) && WellFormed(Top(fs).node) && Linked(fs)
  {
    MissedTop(Spelled(fs), Top(fs))
  }

  ghost function Skipped(fs: seq<Frame>): seq<Entry>
    requires fs != [] && Linked(fs)
  {
    if |fs| > 1 && WellFormed(Top(Up(fs)).node) then Missed(Up(fs)) else []
  }

  // The cursor is on the entry that has the given ones before it, or past the end.
  ghost predicate Landed(root: Option<Node>, fs: seq<Frame>, current: Bytes, left: seq<Entry>, remaining: int) {
    if remaining == 0 then fs == [] && current == []
    else fs != [] && Arrived(root, fs, current) && Before(fs) == left
  }

  // The same from the right.
  ghost predicate LandedBack(root: Option<Node>, fs: seq<Frame>, current: Bytes, remaining: int, right: seq<Entry>) {
    if remaining == 0 then fs == [] && current == []
    else fs != [] && Arrived(root, fs, current) && After(fs) == right
  }

  // The new key is just what the cursor has consumed.
  predicate Repeats(fs: seq<Frame>, current: Bytes, key: Bytes) {
    fs != [] && current == key
  }

  // Whether next finds the successor of the entry an insertion has made.
  predicate InsertGoesRight(fs: seq<Frame>, rest: Bytes) {
    if Found(fs) then GoesRight(fs)
    else fs != [] && SplitsAtKeyEnd(Top(fs), rest) ==> Top(fs).branchKey < Top(fs).node.compressed[Top(fs).prefix]
  }

  // Frame m is the last one that starts within the bytes a new key shares with the consumed ones.
  predicate StartsAt(fs: seq<Frame>, current: Bytes, key: Bytes, m: nat) {
    && m < |fs| && fs[m].keypos < CommonPrefix(key, current)
    && forall j :: m < j < |fs| ==> fs[j].keypos >= CommonPrefix(key, current)
  }

  // If the new search ends in frame m, the branch_key there is still the old one.
  predicate KeepsByte(fs: seq<Frame>, current: Bytes, key: Bytes, m: nat) {
    !Repeats(fs, current, key) && StartsAt(fs, current, key, m)
  }

  // A search for the key is not taken for a repetition of another one.
  predicate SearchesAnew(fs: seq<Frame>, current: Bytes, rest: Bytes, key: Bytes) {
    !Repeats(fs, current, key) || rest == [] || Top(fs).cmp == -1
  }

  class Cursor {
    var root: Option<Node>
    var stack: seq<Frame>
    var currentKey: Bytes
    var restKey: Bytes

    ghost predicate Valid()
      reads this
    {
      Consistent(root, stack, currentKey, restKey)
    }

    // The key of the last search, or of the entry the cursor is on.
    ghost function Key(): Bytes
      reads this
    {
      currentKey + restKey
    }

    constructor (root: Option<Node>)
      requires root.Some? ==> WellFormed(root.value)
      ensures Valid() && this.root == root && stack == []
    {
      this.root := root;
      stack, currentKey, restKey := [], [], [];
    }

    method AdvanceKey(n: nat)
      requires n <= |restKey|
      modifies `currentKey, `restKey
      ensures currentKey == old(currentKey) + old(restKey)[..n] && restKey == old(restKey)[n..]
      ensures currentKey + restKey == old(currentKey + restKey)
    {
      currentKey, restKey := currentKey + restKey[..n], restKey[n..];
    }

    // A new transition; its branch_key is whatever the slot held before.
    method Push(n: Node) returns (stale: Byte)
      modifies `stack
      ensures stack == old(stack) + [Frame(n, |currentKey|, 0, UNDEFINED, stale, UNSET)]
    {
      stale := *;
      stack := stack + [Frame(n, |currentKey|, 0, UNDEFINED, stale, UNSET)];
    }

    method Pop()
      requires stack != [] && Top(stack).keypos <= |currentKey|
      modifies `stack, `currentKey
      ensures stack == Up(old(stack)) && currentKey == old(currentKey)[..Top(old(stack)).keypos]
    {
      currentKey := currentKey[..Top(stack).keypos];
      stack := Up(stack);
    }

    method SetTop(f: Frame)
      requires stack != []
      modifies `stack
      ensures stack == Retop(old(stack), f)
    {
      stack := Retop(stack, f);
    }

    // ----- find

    // Descends from the top frame as far as the rest of the key leads.
    method FindTop()
      requires Anchored(root, stack) && Tracks(stack, Key()) && currentKey == Spelled(stack) && Steady(stack)
      modifies `stack, `currentKey, `restKey
      ensures Valid() && Key() == old(Key()) && stack != [] && Located(stack, Key()) && Steady(stack)
      ensures |stack| >= |old(stack)|
      ensures |stack| == |old(stack)| && Top(stack).cmp != NOT_FOUND ==> Top(stack).branchKey == old(Top(stack)).branchKey
      decreases Top(stack).node
    {
      ghost var fs, rest := stack, restKey;
      KeyposIsLength(fs);
      var n := Top(stack).node;
      var p := CommonPrefix(restKey, Stem(n));
      var f := Top(stack).(prefix := p, cmp := Sign(restKey, Stem(n)));
      AdvanceKey(p);
      if n.Leaf? || p < |n.compressed| {
        SetTop(f);
      } else if restKey == [] {
        if HasNone(n.branches) {
          SignZero(rest, n.compressed);
          assert rest[..p] == rest && n.compressed[..p] == n.compressed;
          FollowLink(f, 0);
          return;
        }
        f := f.(cmp := -1);
        SetTop(f);
      } else {
        var idx := ArrayIndex(n.branches, restKey[0]);
        if idx >= 0 {
          assert rest[..p] == n.compressed;
          FollowLink(f.(cmp := 0, branchKey := restKey[0]), idx);
          return;
        }
        f := f.(cmp := NOT_FOUND, branchKey := restKey[0]);
        SetTop(f);
      }
      StopHere(root, fs, f, rest);
    }

    method FollowLink(f: Frame, idx: nat)
      requires Anchored(root, stack) && Tracks(stack, Key()) && Steady(stack)
      requires f.node == Top(stack).node && f.keypos == Top(stack).keypos == |Spelled(stack)|
      requires f.node.Trie? && idx < |f.node.branches| && f.prefix == |f.node.compressed| && f.cmp == 0
      requires f.node.branches[idx].key == KeyOf(restKey) && (restKey != [] ==> f.branchKey == restKey[0])
      requires currentKey == Spelled(stack) + f.node.compressed
      modifies `stack, `currentKey, `restKey
      ensures Valid() && Key() == old(Key()) && stack != [] && Located(stack, Key()) && Steady(stack)
      ensures |stack| > |old(stack)|
      decreases Top(stack).node, 0
    {
      ghost var fs, key := stack, Key();
      var g := f.(link := idx);
      SetTop(g);
      var stale := Push(f.node.branches[idx].node);
      assert key[|Spelled(fs) + f.node.compressed|..] == restKey;
      GoDown(root, fs, g, Top(stack), key);
      assert f.node.branches[idx].node < f.node;
      FindTop();
    }

    // Starts a search as deep in the stack as the new key allows; true if it is the current key.
    method KeepStack(ghost was: Bytes) returns (done: bool)
      requires stack != [] && Consistent(root, stack, currentKey, was)
      modifies `stack, `currentKey, `restKey
      ensures done <==> old(restKey) == old(currentKey)
      ensures done ==> stack == old(stack) && currentKey == old(currentKey) && restKey == []
      ensures !done && stack == [] ==> restKey == old(restKey)
      ensures !done && stack != [] ==> Anchored(root, stack) && Tracks(stack, Key()) && Steady(stack)
      ensures !done && stack != [] ==> currentKey == Spelled(stack) && Key() == old(restKey)
      ensures !done ==> forall m: nat :: StartsAt(old(stack), old(currentKey), old(restKey), m) ==>
                |stack| == m + 1 && Top(stack).branchKey == old(stack)[m].branchKey
    {
      hide WellFormed, Linked, Spelled, Tracks, Steady, CommonPrefix;
      ghost var key := restKey;
      var same := CommonPrefix(restKey, currentKey);
      WholePrefix(restKey, currentKey);
      if same == |restKey| && same == |currentKey| {
        restKey := [];
        return true;
      }
      done := false;
      var i := |stack|;
      while i > 0 && stack[i - 1].keypos >= same
        invariant 0 <= i <= |stack|
        invariant forall j :: i <= j < |stack| ==> stack[j].keypos >= same
      {
        i := i - 1;
      }
      if i == 0 {
        stack := [];
        return;
      }
      ghost var fs, current := stack, currentKey;
      stack := stack[..i];
      var f := Top(stack).(prefix := 0, cmp := UNDEFINED);
      SetTop(f);
      Rewound(root, fs, current, was, key, i, f);
      restKey := restKey[f.keypos..];
      currentKey := currentKey[..f.keypos];
      assert Key() == key;
    }

    // find: the outcome depends on the trie and the key alone, not on where the cursor was. The
    // exception is a search for exactly the bytes the last failed search had consumed.
    method Find(key: Bytes)
      requires Valid()
      modifies `stack, `currentKey, `restKey
      ensures Valid() <==> SearchesAnew(old(stack), old(currentKey), old(restKey), key)
      ensures Repeats(old(stack), old(currentKey), key) ==> stack == old(stack) && currentKey == old(currentKey) && restKey == []
      ensures root.None? ==> stack == [] && restKey == key
      ensures root.Some? ==> stack != [] && Key() == key
      ensures root.Some? ==> Steady(stack) || stack == old(stack)
      ensures root.Some? && !Repeats(old(stack), old(currentKey), key) ==> Steady(stack)
      ensures forall m: nat :: KeepsByte(old(stack), old(currentKey), key, m) && |stack| == m + 1 && Top(stack).cmp != NOT_FOUND ==>
                Top(stack).branchKey == old(stack)[m].branchKey
    {
      ghost var was := restKey;
      restKey := key;
      if stack != [] {
        var done := KeepStack(was);
        if done {
          AlreadyFound(root, stack, currentKey, was);
          assert Key() == key;
          return;
        }
      }
      if stack == [] {
        if root.None? {
          return;
        }
        currentKey := [];
        var stale := Push(root.value);
        assert Spelled(stack) == [];
        assert Key() == key;
      }
      FindTop();
    }

    // ----- first and last

    method LeafStep()
      requires Anchored(root, stack) && Top(stack).node.Leaf? && Spelled(stack) <= currentKey
      modifies `stack, `currentKey
      ensures Arrived(root, stack, currentKey)
      ensures Before(stack) == old(Before(stack)) && After(stack) == old(After(stack))
      ensures |stack| == |old(stack)| && Up(stack) == Up(old(stack))
      ensures Top(stack).node == Top(old(stack)).node && Top(stack).keypos == Top(old(stack)).keypos
    {
      ghost var fs := stack;
      KeyposIsLength(fs);
      ArrivedLeaf(root, fs);
      var f := Top(stack);
      currentKey := currentKey[..f.keypos] + f.node.suffix;
      SetTop(f.(prefix := |f.node.suffix|, cmp := 0));
    }

    // Down the first branches to a leaf. The frames below the current one stay.
    method FirstTop()
      requires Anchored(root, stack) && currentKey == Spelled(stack)
      modifies `stack, `currentKey
      ensures Arrived(root, stack, currentKey) && Before(stack) == old(Before(stack))
      ensures |stack| >= |old(stack)| && stack[..|old(stack)| - 1] == Up(old(stack))
      ensures stack[|old(stack)| - 1].node == Top(old(stack)).node && stack[|old(stack)| - 1].keypos == Top(old(stack)).keypos
      ensures KnowsFrom(stack, |old(stack)| - 1)
      decreases Top(stack).node
    {
      hide WellFormed, BranchEntries, Entries, Spelled, Linked, Before, After;
      var f := Top(stack);
      if f.node.Leaf? {
        LeafStep();
        return;
      }
      ghost var fs := stack;
      var m := |stack| - 1;
      TopWellFormed(fs);
      HasBranches(f.node);
      EnterFirst(f.(prefix := |f.node.compressed|, cmp := 0, link := 0));
      Remember(m);
      NoEntries(Spelled(fs) + f.node.compressed, f.node.branches);
    }

    // Sets the top frame, enters its branch and goes down the first branches from there.
    method EnterFirst(f: Frame)
      requires Anchored(root, stack) && currentKey == Spelled(stack)
      requires f.node == Top(stack).node && f.keypos == Top(stack).keypos
      requires HasLink(f) && f.cmp == 0 && f.prefix == |f.node.compressed|
      modifies `stack, `currentKey
      ensures Arrived(root, stack, currentKey)
      ensures Before(stack) == old(Before(stack)) + BranchEntries(old(Spelled(stack)) + f.node.compressed, f.node.branches[..f.link])
      ensures |stack| > |old(stack)| && stack[..|old(stack)| - 1] == Up(old(stack)) && stack[|old(stack)| - 1] == f
      ensures KnowsFrom(stack, |old(stack)|)
      decreases Top(stack).node, 0
    {
      hide WellFormed, BranchEntries, Entries, Spelled, Linked, Before, After;
      ghost var fs := stack;
      currentKey := currentKey + f.node.compressed;
      SetTop(f);
      var stale := Push(f.node.branches[f.link].node);
      ghost var h := Top(stack);
      assert |currentKey| == f.keypos + f.prefix by { KeyposIsLength(fs); }
      EnterKeeps(root, fs, f, h);
      assert f.node.branches[f.link].node < f.node;
      FirstTop();
      assert stack[..|fs| - 1] == stack[..|fs|][..|fs| - 1];
      assert stack[|fs| - 1] == stack[..|fs|][|fs| - 1];
    }

    // Stores the byte that leads to the child of frame m, if the key goes on there.
    method Remember(m: nat)
      requires Arrived(root, stack, currentKey) && m + 1 < |stack| && KnowsFrom(stack, m + 1)
      requires stack[m].prefix == |Stem(stack[m].node)| && stack[m].cmp == 0
      modifies `stack
      ensures Arrived(root, stack, currentKey) && KnowsFrom(stack, m)
      ensures Before(stack) == old(Before(stack)) && After(stack) == old(After(stack))
      ensures |stack| == |old(stack)| && stack[..m] == old(stack)[..m]
      ensures stack[m] == old(stack)[m].(branchKey := stack[m].branchKey)
    {
      MarkArrives(root, stack, currentKey, m);
      if stack[m + 1].keypos < |currentKey| {
        stack := Mark(stack, m, currentKey[stack[m + 1].keypos]);
      }
    }

    // Down the last branches to a leaf.
    method LastTop()
      requires Anchored(root, stack) && currentKey == Spelled(stack)
      modifies `stack, `currentKey
      ensures Arrived(root, stack, currentKey) && After(stack) == old(After(stack))
      ensures |stack| >= |old(stack)| && stack[..|old(stack)| - 1] == Up(old(stack))
      ensures stack[|old(stack)| - 1].node == Top(old(stack)).node && stack[|old(stack)| - 1].keypos == Top(old(stack)).keypos
      ensures KnowsFrom(stack, |old(stack)| - 1)
      decreases Top(stack).node
    {
      hide WellFormed, BranchEntries, Entries, Spelled, Linked, Before, After;
      var f := Top(stack);
      if f.node.Leaf? {
        LeafStep();
        return;
      }
      ghost var fs := stack;
      var m := |stack| - 1;
      TopWellFormed(fs);
      HasBranches(f.node);
      EnterLast(f.(prefix := |f.node.compressed|, cmp := 0, link := |f.node.branches| - 1));
      Remember(m);
      NoEntries(Spelled(fs) + f.node.compressed, f.node.branches);
    }

    method EnterLast(f: Frame)
      requires Anchored(root, stack) && currentKey == Spelled(stack)
      requires f.node == Top(stack).node && f.keypos == Top(stack).keypos
      requires HasLink(f) && f.cmp == 0 && f.prefix == |f.node.compressed|
      modifies `stack, `currentKey
      ensures Arrived(root, stack, currentKey)
      ensures After(stack) == BranchEntries(old(Spelled(stack)) + f.node.compressed, f.node.branches[f.link + 1..]) + old(After(stack))
      ensures |stack| > |old(stack)| && stack[..|old(stack)| - 1] == Up(old(stack)) && stack[|old(stack)| - 1] == f
      ensures KnowsFrom(stack, |old(stack)|)
      decreases Top(stack).node, 0
    {
      hide WellFormed, BranchEntries, Entries, Spelled, Linked, Before, After;
      ghost var fs := stack;
      currentKey := currentKey + f.node.compressed;
      SetTop(f);
      var stale := Push(f.node.branches[f.link].node);
      ghost var h := Top(stack);
      assert |currentKey| == f.keypos + f.prefix by { KeyposIsLength(fs); }
      EnterKeeps(root, fs, f, h);
      assert f.node.branches[f.link].node < f.node;
      LastTop();
      assert stack[..|fs| - 1] == stack[..|fs|][..|fs| - 1];
      assert stack[|fs| - 1] == stack[..|fs|][|fs| - 1];
    }

    method First()
      requires root.Some? ==> WellFormed(root.value)
      modifies `stack, `currentKey, `restKey
      ensures Valid() && (stack == [] <==> Listing(root) == []) && Steady(stack)
      ensures stack != [] ==> Arrived(root, stack, currentKey) && restKey == [] && Before(stack) == []
    {
      stack, restKey, currentKey := [], [], [];
      if root.None? {
        return;
      }
      HasEntries([], root.value);
      var stale := Push(root.value);
      FirstTop();
      ArrivedConsistent(root, stack, currentKey);
    }

    method Last()
      requires root.Some? ==> WellFormed(root.value)
      modifies `stack, `currentKey, `restKey
      ensures Valid() && (stack == [] <==> Listing(root) == []) && Steady(stack)
      ensures stack != [] ==> Arrived(root, stack, currentKey) && restKey == [] && After(stack) == []
    {
      stack, restKey, currentKey := [], [], [];
      if root.None? {
        return;
      }
      HasEntries([], root.value);
      var stale := Push(root.value);
      LastTop();
      ArrivedConsistent(root, stack, currentKey);
    }

    // ----- next

    method StepRight()
      requires Poised(root, stack, currentKey) && Top(stack).node.Trie? && Top(stack).cmp == 0
      requires Top(stack).link + 1 < |Top(stack).node.branches|
      modifies `stack, `currentKey
      ensures Arrived(root, stack, currentKey) && Steady(stack) && Before(stack) == old(Behind(stack))
    {
      hide WellFormed, BranchEntries, Entries, Spelled, Linked, Before, After, Knows;
      var f := Top(stack).(link := Top(stack).link + 1);
      ghost var fs := stack;
      var m := |stack| - 1;
      KeyposIsLength(fs);
      currentKey := currentKey[..f.keypos];
      EnterFirst(f);
      Remember(m);
      KeptSteady(fs, stack, m);
    }

    // Down the branch with the closest key behind the one searched for, if there is one.
    method NextBranch() returns (ok: bool)
      requires Poised(root, stack, currentKey) && Top(stack).node.Trie? && Top(stack).cmp != 0
      requires Top(stack).prefix == |Top(stack).node.compressed|
      modifies `stack, `currentKey
      ensures ok ==> Arrived(root, stack, currentKey) && Steady(stack) && Before(stack) == old(Behind(stack))
      ensures !ok ==> old(Todo(Spelled(stack), Top(stack))) == [] && old(Spelled(stack)) <= currentKey && stack == old(stack)
      ensures !ok ==> currentKey == old(Spelled(stack) + Top(stack).node.compressed)
    {
      hide WellFormed, BranchEntries, Entries, Spelled, Linked, Before, After, Knows, Marked, MarkedPath;
      var f := Top(stack);
      ghost var fs := stack;
      var m := |stack| - 1;
      KeyposIsLength(fs);
      NoEntries(Spelled(fs) + f.node.compressed, f.node.branches);
      currentKey := currentKey[..f.keypos];
      TopAscending(fs);
      var next := NextKey(f.node.branches, f.branchKey);
      ok := next != OUT_OF_RANGE;
      if ok {
        NextKeyIndex(f.node.branches, f.branchKey);
        f := f.(cmp := 0, branchKey := next, link := ArrayIndex(f.node.branches, next));
        EnterFirst(f);
        MarkArrives(root, stack, currentKey, m);
        KeptSteady(fs, stack, m);
      } else {
        currentKey := currentKey + f.node.compressed;
      }
    }

    // Moves within the top node; false if nothing is left there.
    method NextTop() returns (ok: bool)
      requires Poised(root, stack, currentKey) || OnEntry(root, stack, currentKey)
      modifies `stack, `currentKey
      ensures ok ==> Arrived(root, stack, currentKey) && Steady(stack) && Before(stack) == old(Behind(stack))
      ensures Found(old(stack)) ==> !ok
      ensures !ok ==> old(Todo(Spelled(stack), Top(stack))) == [] && old(Spelled(stack)) <= currentKey
      ensures !ok ==> stack != [] && Up(stack) == Up(old(stack)) && Top(stack).keypos == Top(old(stack)).keypos
    {
      hide WellFormed, BranchEntries, Entries, Spelled, Linked, Before, After, Knows, Marked, MarkedPath;
      var f := Top(stack);
      ghost var fs := stack;
      var m := |stack| - 1;
      KeyposIsLength(fs);
      if f.node.Leaf? {
        ok := f.cmp < 0;
        if ok { LeafStep(); }
        return;
      }
      ghost var p := Spelled(fs);
      NoEntries(p + f.node.compressed, f.node.branches);
      if f.cmp == 0 {
        ok := f.link + 1 < |f.node.branches|;
        if ok {
          StepRight();
        } else {
          SetTop(f.(link := f.link + 1));
        }
        return;
      }
      if f.prefix < |f.node.compressed| {
        currentKey := currentKey[..f.keypos];
        ok := f.cmp < 0;
        if ok {
          FirstTop();
          KeptSteady(fs, stack, m);
        }
        return;
      }
      ok := NextBranch();
    }

    // next lands on the closest entry behind the cursor, exactly when the frame above the top goes
    // on behind the branch it took; it always does, unless an insertion split a label there.
    method Next()
      requires stack != [] ==> Poised(root, stack, currentKey) || OnEntry(root, stack, currentKey)
      modifies `stack, `currentKey, `restKey
      ensures restKey == [] && Steady(stack)
      ensures old(stack) == [] ==> stack == [] && currentKey == old(currentKey)
      ensures old(stack) != [] ==> (if stack == [] then currentKey == [] else Arrived(root, stack, currentKey))
      ensures old(stack) != [] && old(Steady(stack)) ==> old(GoesRight(stack))
      ensures old(stack) != [] ==> (old(GoesRight(stack)) <==> Landed(root, stack, currentKey, old(Behind(stack)), |old(Ahead(stack))|))
    {
      hide WellFormed, BranchEntries, Entries, Spelled, Linked, Before, After, Knows, Marked, Done, Todo, RightOfLink;
      restKey := [];
      ghost var fs0 := stack;
      if stack != [] {
        BehindAhead(stack);
        if Steady(stack) { SteadyUp(stack); }
      }
      while stack != []
        invariant restKey == [] && (stack == fs0 || Steady(stack))
        invariant stack != [] ==> Poised(root, stack, currentKey) || (stack == fs0 && OnEntry(root, stack, currentKey))
        invariant fs0 == [] ==> stack == [] && currentKey == old(currentKey)
        invariant fs0 != [] && stack != [] && stack != fs0 ==> (GoesRight(fs0) <==> |Behind(stack)| == |Behind(fs0)|)
        invariant fs0 != [] && stack != [] && GoesRight(fs0) ==> Behind(stack) == Behind(fs0) && Ahead(stack) == Ahead(fs0)
        invariant fs0 != [] && stack == [] ==> (GoesRight(fs0) <==> Ahead(fs0) == []) && currentKey == []
        invariant fs0 != [] && Steady(fs0) ==> GoesRight(fs0)
        decreases |stack|
      {
        ghost var fs := stack;
        var ok := NextTop();
        if ok {
          ArrivedAhead(root, fs, stack, currentKey);
          return;
        }
        if Steady(fs) { SteadyUp(fs); }
        Unwind(root, fs, stack, currentKey);
        BehindAhead(fs);
        Pop();
      }
    }

    // ----- prev

    method StepLeft()
      requires Poised(root, stack, currentKey) && Top(stack).node.Trie? && Top(stack).cmp == 0 && Top(stack).link > 0
      modifies `stack, `currentKey
      ensures Arrived(root, stack, currentKey) && Steady(stack) && After(stack) == old(Later(stack))
    {
      hide WellFormed, BranchEntries, Entries, Spelled, Linked, Before, After, Knows;
      var f := Top(stack).(link := Top(stack).link - 1);
      ghost var fs := stack;
      var m := |stack| - 1;
      KeyposIsLength(fs);
      currentKey := currentKey[..f.keypos];
      EnterLast(f);
      Remember(m);
      KeptSteady(fs, stack, m);
    }

    // Down the branch with the closest key before the one searched for, if there is one.
    method PrevBranch() returns (ok: bool)
      requires Poised(root, stack, currentKey) && Top(stack).node.Trie? && Top(stack).cmp != 0
      requires Top(stack).prefix == |Top(stack).node.compressed|
      modifies `stack, `currentKey
      ensures ok ==> Arrived(root, stack, currentKey) && Steady(stack) && After(stack) == old(Later(stack))
      ensures !ok ==> old(Prior(Spelled(stack), Top(stack))) == [] && old(Spelled(stack)) <= currentKey && stack == old(stack)
      ensures !ok ==> currentKey == old(Spelled(stack) + Top(stack).node.compressed)
    {
      hide WellFormed, BranchEntries, Entries, Spelled, Linked, Before, After, Knows, Marked, MarkedPath;
      var f := Top(stack);
      ghost var fs := stack;
      var m := |stack| - 1;
      KeyposIsLength(fs);
      NoEntries(Spelled(fs) + f.node.compressed, f.node.branches);
      currentKey := currentKey[..f.keypos];
      TopAscending(fs);
      var prev := PrevKey(f.node.branches, f.branchKey);
      ok := prev != OUT_OF_RANGE;
      if ok {
        PrevKeyIndex(f.node.branches, f.branchKey);
        f := f.(cmp := 0, branchKey := AsByte(prev), link := ArrayIndex(f.node.branches, prev));
        EnterLast(f);
        MarkArrives(root, stack, currentKey, m);
        BranchByte(root, stack, currentKey, m);
        KnowsNone(stack, m);
        KeptSteady(fs, stack, m);
      } else {
        currentKey := currentKey + f.node.compressed;
      }
    }

    method PrevTop() returns (ok: bool)
      requires Poised(root, stack, currentKey) || OnEntry(root, stack, currentKey)
      modifies `stack, `currentKey
      ensures ok ==> Arrived(root, stack, currentKey) && Steady(stack) && After(stack) == old(Later(stack))
      ensures Found(old(stack)) ==> !ok
      ensures !ok ==> old(Prior(Spelled(stack), Top(stack))) == [] && old(Spelled(stack)) <= currentKey
      ensures !ok ==> stack != [] && Up(stack) == Up(old(stack)) && Top(stack).keypos == Top(old(stack)).keypos
    {
      hide WellFormed, BranchEntries, Entries, Spelled, Linked, Before, After, Knows, Marked, MarkedPath;
      var f := Top(stack);
      ghost var fs := stack;
      var m := |stack| - 1;
      KeyposIsLength(fs);
      if f.node.Leaf? {
        ok := f.cmp > 0;
        if ok { LeafStep(); }
        return;
      }
      ghost var p := Spelled(fs);
      NoEntries(p + f.node.compressed, f.node.branches);
      if f.cmp == 0 {
        ok := f.link > 0;
        if ok {
          StepLeft();
        } else {
          SetTop(f.(link := f.link - 1));
        }
        return;
      }
      if f.prefix < |f.node.compressed| {
        currentKey := currentKey[..f.keypos];
        ok := f.cmp > 0;
        if ok {
          LastTop();
          KeptSteady(fs, stack, m);
        }
        return;
      }
      ok := PrevBranch();
    }

    // prev lands on the closest entry before the cursor, exactly when every frame above the top
    // knows its branch: after an insertion that split a label at the end of the key it never does.
    method Prev()
      requires stack != [] ==> Poised(root, stack, currentKey) || OnEntry(root, stack, currentKey)
      modifies `stack, `currentKey, `restKey
      ensures restKey == [] && Steady(stack)
      ensures old(stack) == [] ==> stack == [] && currentKey == old(currentKey)
      ensures old(stack) != [] ==> (if stack == [] then currentKey == [] else Arrived(root, stack, currentKey))
      ensures old(stack) != [] ==> (old(Steady(stack)) <==> LandedBack(root, stack, currentKey, |old(Earlier(stack))|, old(Later(stack))))
    {
      hide WellFormed, BranchEntries, Entries, Spelled, Linked, Before, After, Knows, Marked, Prior, Rest;
      restKey := [];
      ghost var fs0 := stack;
      if stack != [] {
        EarlierLater(stack);
      }
      while stack != []
        invariant restKey == [] && (stack == fs0 || Steady(stack))
        invariant stack != [] ==> Poised(root, stack, currentKey) || (stack == fs0 && OnEntry(root, stack, currentKey))
        invariant fs0 == [] ==> stack == [] && currentKey == old(currentKey)
        invariant fs0 != [] && stack != [] && stack != fs0 ==> (Steady(fs0) <==> |Earlier(stack)| == |Earlier(fs0)|)
        invariant fs0 != [] && stack != [] && Steady(fs0) ==> Earlier(stack) == Earlier(fs0) && Later(stack) == Later(fs0)
        invariant fs0 != [] && stack == [] ==> (Steady(fs0) <==> Earlier(fs0) == []) && currentKey == []
        decreases |stack|
      {
        ghost var fs := stack;
        EarlierLater(fs);
        var ok := PrevTop();
        if ok {
          ArrivedEarlier(root, fs, stack, currentKey);
          return;
        }
        if Steady(fs) { SteadyUp(fs); }
        UnwindBack(root, fs, stack, currentKey);
        Pop();
      }
    }

    // ----- whole iterations

    // first and next visit every entry once, in ascending order of the keys.
    method ListForward() returns (es: seq<Entry>)
      requires root.Some? ==> WellFormed(root.value)
      modifies `stack, `currentKey, `restKey
      ensures es == Listing(root) && SortedEntries(es) && stack == []
    {
      hide WellFormed, BranchEntries, Entries, Spelled, Linked, Before, After, Knows, Todo, Done;
      if root.Some? { EntriesSorted([], root.value); }
      es := [];
      First();
      while stack != []
        invariant stack != [] ==> root.Some? && Arrived(root, stack, currentKey) && Steady(stack) && Before(stack) == es
        invariant stack == [] ==> es == Listing(root)
        decreases |Listing(root)| - |es|
      {
        ArrivedEntry(root, stack, currentKey);
        ArrivedSides(root, stack, currentKey);
        es := es + [Entry(currentKey, Top(stack).node.value)];
        Next();
      }
    }

    // last and prev visit them in the reverse order.
    method ListBackward() returns (es: seq<Entry>)
      requires root.Some? ==> WellFormed(root.value)
      modifies `stack, `currentKey, `restKey
      ensures es == Reversed(Listing(root)) && stack == []
    {
      hide WellFormed, BranchEntries, Entries, Spelled, Linked, Before, After, Knows, Prior, Rest;
      es := [];
      ghost var tail: seq<Entry> := [];
      Last();
      while stack != []
        invariant es == Reversed(tail)
        invariant stack != [] ==> root.Some? && Arrived(root, stack, currentKey) && Steady(stack) && After(stack) == tail
        invariant stack == [] ==> tail == Listing(root)
        decreases |Listing(root)| - |tail|
      {
        ArrivedEntry(root, stack, currentKey);
        ArrivedSidesBack(root, stack, currentKey);
        es := es + [Entry(currentKey, Top(stack).node.value)];
        PrependReversed(Entry(currentKey, Top(stack).node.value), tail);
        tail := [Entry(currentKey, Top(stack).node.value)] + tail;
        Prev();
      }
    }

    // ----- insert

    // Stores a value under the key of the last search and leaves the cursor there. Without a
    // position in a non-empty trie there is no key to store under.
    method Insert(value: Bytes) returns (ok: bool)
      requires Valid()
      modifies this
      ensures ok == (old(stack) != [] || old(root).None?)
      ensures !ok ==> root == old(root) && stack == old(stack) && currentKey == old(currentKey) && restKey == old(restKey)
      ensures ok ==> Valid() && Contents(root) == old(Contents(root))[old(Key()) := value]
      ensures ok ==> OnEntry(root, stack, currentKey) && currentKey == old(Key()) && restKey == [] && Top(stack).node.value == value
      ensures ok ==> (Steady(stack) <==>
                if Found(old(stack)) then Steady(old(stack)) else !(old(stack) != [] && SplitsAtKeyEnd(Top(old(stack)), old(restKey))))
      ensures ok ==> (GoesRight(stack) <==> InsertGoesRight(old(stack), old(restKey)))
    {
      hide WellFormed, Entries, BranchEntries, Grown, Linked, Spelled, ToMap, Knows, Replug;
      ok := true;
      if stack == [] {
        if root.Some? {
          return false;
        }
        assert Key() == restKey;
        FirstExec(value);
      } else {
        InsertPlaces(root, stack, currentKey, restKey, value);
        if Top(stack).node.Leaf? {
          ChangeLeaf(value);
        } else if Top(stack).prefix < |Top(stack).node.compressed| {
          SplitCompressed(value);
        } else {
          AddToArray(value);
        }
      }
      if Steady(stack) { SteadyUp(stack); }
      ArrivedConsistent(root, stack, currentKey);
    }

    method FirstExec(value: Bytes)
      requires root.None? && stack == [] && currentKey == []
      modifies this
      ensures Arrived(root, stack, currentKey) && Steady(stack) && currentKey == old(restKey) && restKey == []
      ensures root == Some(Spine(old(restKey), value)) && Contents(root) == old(Contents(root))[old(restKey) := value]
      ensures MarkedPath(stack) && Steady(Up(stack)) && Top(stack).node.value == value
    {
      ghost var key := restKey;
      OneEntryMap(key, value);
      var n := Spine(restKey, value);
      root := Some(n);
      var stale := Push(n);
      if |restKey| > MAX_LABEL {
        FillBigKey(value);
        CreateLeaf(value);
        assert KnowsFrom(stack, 0) by { assert stack[0] == stack[..1][0]; }
      } else {
        SetTop(Top(stack).(prefix := |restKey|, cmp := 0));
        AdvanceKey(|restKey|);
      }
    }

    // A node of the 255-byte chain: the label is full, the next byte leads on.
    method FillBigKey(ghost value: Bytes)
      requires Anchored(root, stack) && |restKey| > MAX_LABEL && Top(stack).node == Spine(restKey, value) && currentKey == Spelled(stack)
      modifies `stack, `currentKey, `restKey
      ensures Anchored(root, stack) && Knows(Top(stack)) && Child(Top(stack)) == SpineBranch(restKey, value)
      ensures Spelled(stack) == old(Spelled(stack)) && currentKey == Spelled(stack) + Top(stack).node.compressed
      ensures currentKey + restKey == old(currentKey + restKey) && |restKey| < old(|restKey|)
      ensures |stack| == |old(stack)| && Up(stack) == Up(old(stack))
    {
      ghost var fs := stack;
      var f := Top(stack).(prefix := MAX_LABEL, cmp := 0, branchKey := restKey[MAX_LABEL], link := 0);
      SetTop(f);
      RetopKeeps(fs, f);
      AdvanceKey(MAX_LABEL);
    }

    // Follows the new branch down to the new leaf.
    method CreateLeaf(ghost value: Bytes)
      requires Anchored(root, stack) && HasLink(Top(stack)) && Child(Top(stack)) == SpineBranch(restKey, value)
      requires Top(stack).prefix == |Top(stack).node.compressed| && currentKey == Spelled(stack) + Top(stack).node.compressed
      modifies `stack, `currentKey, `restKey
      ensures Arrived(root, stack, currentKey) && currentKey == old(currentKey + restKey) && restKey == []
      ensures |stack| > |old(stack)| && stack[..|old(stack)|] == old(stack) && KnowsFrom(stack, |old(stack)|)
      ensures old(restKey) == [] ==> |stack| == |old(stack)| + 1
      ensures Top(stack).node.value == value
    {
      hide WellFormed, Linked, Spelled, Knows, Before, After, BranchEntries, Entries, Fits;
      ghost var fs, key := stack, currentKey + restKey;
      while |restKey| > MAX_LABEL
        invariant Anchored(root, stack) && HasLink(Top(stack)) && Child(Top(stack)) == SpineBranch(restKey, value)
        invariant Top(stack).prefix == |Top(stack).node.compressed| && currentKey == Spelled(stack) + Top(stack).node.compressed
        invariant currentKey + restKey == key && |stack| >= |fs| && stack[..|fs|] == fs
        invariant forall i :: |fs| <= i < |stack| ==> Knows(stack[i])
        invariant old(restKey) == [] ==> restKey == [] && |stack| == |fs|
        decreases |restKey|
      {
        ghost var gs := stack;
        var stale := Push(Child(Top(stack)).node);
        KeyposIsLength(gs);
        PushKeeps(gs, Top(stack));
        FillBigKey(value);
        assert stack[..|gs|] == gs;
        KnowsMarked(Top(stack));
      }
      PushLeaf(value);
    }

    method PushLeaf(ghost value: Bytes)
      requires Anchored(root, stack) && HasLink(Top(stack)) && Child(Top(stack)) == SpineBranch(restKey, value) && |restKey| <= MAX_LABEL
      requires Top(stack).prefix == |Top(stack).node.compressed| && currentKey == Spelled(stack) + Top(stack).node.compressed
      modifies `stack, `currentKey, `restKey
      ensures Arrived(root, stack, currentKey) && currentKey == old(currentKey + restKey) && restKey == []
      ensures |stack| == |old(stack)| + 1 && stack[..|old(stack)|] == old(stack) && Top(stack).node.value == value
    {
      hide WellFormed, Linked, Spelled, Before, After, BranchEntries, Entries, Fits;
      ghost var gs := stack;
      var stale := Push(Child(Top(stack)).node);
      KeyposIsLength(gs);
      PushKeeps(gs, Top(stack));
      var f := Top(stack).(prefix := |restKey|, cmp := 0);
      ghost var hs := stack;
      SetTop(f);
      RetopKeeps(hs, f);
      assert stack[..|gs|] == gs;
      AdvanceKey(|restKey|);
    }

    // The parents point to the new node; the top frame stands on it.
    method Place(f: Frame)
      requires stack != [] && root.Some? && Anchored(root, stack) && WellFormed(f.node) && FitsTop(stack, f.node)
      requires f.keypos == Top(stack).keypos
      modifies `root, `stack
      ensures Anchored(root, stack) && Spelled(stack) == old(Spelled(stack))
      ensures root == Some(Replug(old(stack), f.node)[0].node)
      ensures |stack| == |old(stack)| && Top(stack) == f
      ensures Before(stack) == old(Before(stack)) && After(stack) == old(After(stack))
      ensures forall i :: 0 <= i < |stack| - 1 && Knows(old(stack)[i]) ==> Knows(stack[i])
      ensures forall i :: 0 <= i < |stack| - 1 && Marked(old(stack)[i]) ==> Marked(stack[i])
      ensures forall i :: 0 <= i < |stack| - 1 && !Knows(old(stack)[i]) ==> !Knows(stack[i])
      ensures GoesRight(stack) <==> old(GoesRight(stack))
      ensures forall i :: 0 <= i < |stack| ==> stack[i].prefix == old(stack)[i].prefix || i == |stack| - 1
    {
      hide WellFormed, Linked, Spelled, Before, After;
      ghost var fs := stack;
      ReplugAnchored(root, fs, f.node);
      ReplugFrames(fs, f.node);
      ReplugKeepsAround(fs, f.node);
      ReplugKnows(fs, f.node);
      stack := Replug(stack, f.node);
      root := Some(stack[0].node);
      ghost var gs := stack;
      SetTop(f);
      RetopKeeps(gs, f);
      assert forall i :: 0 <= i < |fs| - 1 ==> stack[i] == gs[i];
    }

    method ChangeLeaf(value: Bytes)
      requires stack != [] && Valid() && Top(stack).node.Leaf?
      modifies this
      ensures Arrived(root, stack, currentKey) && currentKey == old(Key()) && restKey == []
      ensures root == Some(Replug(old(stack), Grown(Top(old(stack)), old(restKey), value))[0].node)
      ensures MarkedPath(stack) && Steady(Up(stack)) && Top(stack).node.value == value
      ensures Steady(stack) <==> !Found(old(stack)) || Steady(old(stack))
      ensures GoesRight(stack) <==> !Found(old(stack)) || GoesRight(old(stack))
    {
      hide WellFormed, Linked, Spelled, Located, Replug, Before, After;
      ghost var fs := stack;
      var f := Top(stack);
      GrownFitsTop(root, fs, currentKey, restKey, value);
      if f.cmp == 0 {
        FoundComplete(root, fs, currentKey, restKey);
        Place(f.(node := Leaf(f.node.suffix, value)));
        return;
      }
      MissingSteady(root, fs, currentKey, restKey);
      var nkey, okey := KeyOf(restKey), KeyOf(f.node.suffix[f.prefix..]);
      var n := Split(f.node, f.prefix, restKey, value);
      Place(Frame(n, f.keypos, f.prefix, 0, AsByte(nkey), if okey < nkey then 1 else 0));
      ghost var gs := stack;
      CreateLeaf(value);
      NewSteady(gs, stack);
    }

    // The cmp of the split node stays as the search left it.
    method SplitCompressed(value: Bytes)
      requires stack != [] && Valid() && Top(stack).node.Trie? && Top(stack).prefix < |Top(stack).node.compressed|
      modifies this
      ensures Arrived(root, stack, currentKey) && currentKey == old(Key()) && restKey == []
      ensures root == Some(Replug(old(stack), Grown(Top(old(stack)), old(restKey), value))[0].node)
      ensures MarkedPath(stack) && Steady(Up(stack)) && Top(stack).node.value == value
      ensures Steady(stack) <==> old(restKey) != []
      ensures GoesRight(stack) <==> old(restKey) != [] || old(Top(stack)).branchKey < old(Top(stack)).node.compressed[old(Top(stack)).prefix]
    {
      hide WellFormed, Linked, Spelled, Located, Replug, Before, After;
      ghost var fs := stack;
      var f := Top(stack);
      GrownFitsTop(root, fs, currentKey, restKey, value);
      MissingSteady(root, fs, currentKey, restKey);
      var key, okey := KeyOf(restKey), f.node.compressed[f.prefix];
      var n := Split(f.node, f.prefix, restKey, value);
      var branchKey := if restKey != [] then restKey[0] else f.branchKey;
      Place(Frame(n, f.keypos, f.prefix, f.cmp, branchKey, if okey < key then 1 else 0));
      ghost var gs, rest := stack, restKey;
      CreateLeaf(value);
      assert stack[|fs| - 1] == gs[|fs| - 1];
      assert Steady(stack) ==> Knows(stack[|fs| - 1]);
      if rest == [] {
        assert Up(stack) == gs;
      } else {
        NewSteady(gs, stack);
      }
    }

    method AddToArray(value: Bytes)
      requires stack != [] && Valid() && Top(stack).node.Trie? && Top(stack).prefix == |Top(stack).node.compressed|
      modifies this
      ensures Arrived(root, stack, currentKey) && currentKey == old(Key()) && restKey == []
      ensures root == Some(Replug(old(stack), Grown(Top(old(stack)), old(restKey), value))[0].node)
      ensures Steady(stack) && MarkedPath(stack) && Steady(Up(stack)) && Top(stack).node.value == value
    {
      hide WellFormed, Linked, Spelled, Located, Replug, Before, After;
      ghost var fs := stack;
      var f := Top(stack);
      GrownFitsTop(root, fs, currentKey, restKey, value);
      MissingSteady(root, fs, currentKey, restKey);
      TopAscending(fs);
      var key: int := if restKey != [] then f.branchKey else NONE;
      var b := Branch(key, Spine(restKey, value));
      Place(f.(node := f.node.(branches := Widened(f.node.branches, b)), cmp := 0, link := UpTo(f.node.branches, key)));
      ghost var gs := stack;
      CreateLeaf(value);
      NewSteady(gs, stack);
    }

    // ----- remove

    // Removes the entry the cursor is on and moves to its successor. Only below a root without
    // label, when the empty key goes and two or more branches stay, may entries be skipped.
    method Remove() returns (ok: bool)
      requires Valid()
      modifies this
      ensures ok == Found(old(stack))
      ensures !ok ==> root == old(root) && stack == old(stack) && currentKey == old(currentKey) && restKey == old(restKey)
      ensures ok ==> Valid() && Contents(root) == old(Contents(root)) - {old(currentKey)}
      ensures ok ==> Steady(stack) && Landed(root, stack, currentKey, old(Before(stack)) + old(Skipped(stack)), |old(After(stack))| - |old(Skipped(stack))|)
      ensures ok && old(currentKey) != [] ==> Landed(root, stack, currentKey, old(Before(stack)), |old(After(stack))|)
    {
      hide WellFormed, Entries, BranchEntries, Linked, Spelled, Before, After, ToMap, Skipped;
      ok := Found(stack);
      if ok {
        FoundComplete(root, stack, currentKey, restKey);
        ArrivedEntry(root, stack, currentKey);
        EntriesSorted([], root.value);
        ghost var fs, current, left, right := stack, currentKey, Before(stack), After(stack);
        RemovedMap(left, Entry(currentKey, Top(stack).node.value), right);
        NothingSkipped(root, fs, currentKey);
        RemoveNode();
        if stack != [] {
          ArrivedConsistent(root, stack, currentKey);
        }
      }
    }

    method RemoveNode()
      requires stack != [] && Anchored(root, stack) && Spelled(stack) <= currentKey && restKey == []
      requires MarkedPath(stack) && Steady(Up(stack)) && Top(stack).prefix == |Stem(Top(stack).node)|
      modifies this
      ensures (root.Some? ==> WellFormed(root.value)) && restKey == [] && Steady(stack)
      ensures Listing(root) == old(Before(stack)) + old(After(stack))
      ensures Landed(root, stack, currentKey, old(Before(stack)) + old(Skipped(stack)), |old(After(stack))| - |old(Skipped(stack))|)
      decreases |stack|
    {
      hide WellFormed, Entries, BranchEntries, Linked, Spelled, Before, After, Skipped, Leaving, Missed, LeftOf, RightOf, Marked, Knows;
      ghost var fs := stack;
      KeyposIsLength(fs);
      if |stack| == 1 {
        AloneAround(fs);
        root := None;
        Pop();
        return;
      }
      var prefix := Top(stack).prefix;
      ParentAround(root, fs, currentKey);
      Pop();
      if |Top(stack).node.branches| == 1 {
        OnlyChild(root, fs);
        RemoveNode();
      } else if |Top(stack).node.branches| == 2 {
        Combine(prefix);
      } else {
        ReduceArray(prefix);
      }
    }

    // Drops the branch that was followed and goes on behind it.
    method ReduceArray(prefix: nat)
      requires Leaving(root, stack, currentKey, prefix) && restKey == [] && |Top(stack).node.branches| > 1
      requires |Top(stack).node.branches| == 2 ==> Top(stack).node.branches[1 - Top(stack).link].key != NONE && Top(stack).node.compressed != []
      modifies this
      ensures root.Some? && WellFormed(root.value) && restKey == [] && Steady(stack)
      ensures Listing(root) == old(LeftOf(stack)) + old(RightOf(stack))
      ensures Landed(root, stack, currentKey, old(LeftOf(stack)) + old(Missed(stack)), |old(RightOf(stack))| - |old(Missed(stack))|)
    {
      hide WellFormed, Entries, BranchEntries, Linked, Spelled, Before, After;
      ghost var fs, was := stack, root;
      var f := Top(stack);
      TopAscending(fs);
      var branch: int := if prefix != 0 then f.branchKey else NONE;
      UpToUnique(f.node.branches, f.link, ArrayIndex(f.node.branches, branch));
      ReducedFits(root, fs);
      var i := ArrayIndex(f.node.branches, branch);
      var n := f.node.(branches := Without(f.node.branches, i));
      var g := f.(node := n, cmp := -1, prefix := if prefix != 0 then f.prefix else 0);
      Place(g);
      ReducedSides(was, fs, currentKey, prefix, stack);
      assert Poised(root, stack, currentKey);
      BehindAhead(stack);
      Next();
    }

    // Two branches, one goes: the other one takes over the label, unless that gets too long.
    method Combine(prefix: nat)
      requires Leaving(root, stack, currentKey, prefix) && restKey == [] && |Top(stack).node.branches| == 2
      modifies this
      ensures root.Some? && WellFormed(root.value) && restKey == [] && Steady(stack)
      ensures Listing(root) == old(LeftOf(stack)) + old(RightOf(stack))
      ensures Landed(root, stack, currentKey, old(LeftOf(stack)), |old(RightOf(stack))|)
    {
      hide WellFormed, Entries, BranchEntries, Linked, Spelled, Before, After;
      ghost var fs, was := stack, root;
      var f := Top(stack);
      var goNext := f.link != 0;
      var rem := f.node.branches[if goNext then 0 else 1].node;
      CombinedFits(root, fs);
      if |f.node.compressed| + |Stem(rem)| > MAX_LABEL {
        ReduceArray(prefix);
        return;
      }
      var g := f.(node := Merged(f.node.compressed, rem), cmp := 1);
      KeyposIsLength(fs);
      Place(g);
      CombinedSides(was, fs, currentKey, prefix, stack);
      BehindAhead(stack);
      if goNext {
        Next();
      } else {
        currentKey := currentKey[..f.keypos];
        ghost var m, gs := |stack| - 1, stack;
        FirstTop();
        KeptSteady(gs, stack, m);
        ArrivedEntry(root, stack, currentKey);
      }
    }
  }

  lemma {:induction false} HasBranches(n: Node)
    requires WellFormed(n) && n.Trie?
    ensures n.branches != [] && n.branches[|n.branches| - 1].key != NONE
  {
    if |n.branches| > 1 {
      assert n.branches[0].key < n.branches[|n.branches| - 1].key;
    }
  }

  lemma {:induction false} PrependReversed(e: Entry, es: seq<Entry>)
    ensures Reversed([e] + es) == Reversed(es) + [e]
  {
    assert ([e] + es)[1..] == es;
  }

  lemma {:induction false} NextKeyIndex(bs: seq<Branch>, key: int)
    requires Ascending(bs)
    ensures NextKey(bs, key) == OUT_OF_RANGE ==> UpTo(bs, key) == |bs|
    ensures NextKey(bs, key) != OUT_OF_RANGE ==> ArrayIndex(bs, NextKey(bs, key)) == UpTo(bs, key) < |bs|
  {
    var u := UpTo(bs, key);
    if u < |bs| {
      UpToUnique(bs, u, ArrayIndex(bs, bs[u].key));
    }
  }

  function AsByte(key: int): Byte
    requires NONE <= key < 256
  {
    if key == NONE then 255 else key
  }

  lemma {:induction false} PrevKeyIndex(bs: seq<Branch>, key: int)
    requires Ascending(bs)
    ensures PrevKey(bs, key) == OUT_OF_RANGE ==> Below(bs, key) == 0
    ensures PrevKey(bs, key) != OUT_OF_RANGE ==> ArrayIndex(bs, PrevKey(bs, key)) == Below(bs, key) - 1
  {
    var u := Below(bs, key);
    if u > 0 {
      UpToUnique(bs, u - 1, ArrayIndex(bs, bs[u - 1].key));
    }
  }

  lemma {:induction false} KnowsNone(fs: seq<Frame>, m: nat)
    requires m + 1 < |fs| && KnowsFrom(fs, m + 1) && HasLink(fs[m])
    requires fs[m].cmp == 0 && fs[m].prefix == |fs[m].node.compressed| && NONE <= Child(fs[m]).key < 256
    requires fs[m].branchKey == AsByte(Child(fs[m]).key)
    ensures KnowsFrom(fs, m)
  {
  }

  // The frames below m are those of a steady stack.
  lemma {:induction false} KeptSteady(fs: seq<Frame>, gs: seq<Frame>, m: nat)
    requires Steady(fs) && |fs| == m + 1 && |gs| > m && gs[..m] == fs[..m] && KnowsFrom(gs, m)
    ensures Steady(gs)
  {
    forall i | 0 <= i < |gs| - 1
      ensures Knows(gs[i])
    {
      if i < m {
        assert gs[i] == gs[..m][i] == fs[i];
      }
    }
  }

  // Something is ahead of a cursor that moved on.
  lemma {:induction false} ArrivedAhead(root: Option<Node>, fs: seq<Frame>, gs: seq<Frame>, current: Bytes)
    requires Anchored(root, fs) && WellFormed(Top(fs).node) && Arrived(root, gs, current) && Before(gs) == Behind(fs)
    ensures Ahead(fs) != []
  {
    BehindAhead(fs);
    ArrivedEntry(root, gs, current);
  }

  // Nothing left in the top node: the sides are those of the parent, if it goes on behind the branch.
  lemma {:induction false} Unwind(root: Option<Node>, fs: seq<Frame>, gs: seq<Frame>, current: Bytes)
    requires Anchored(root, fs) && MarkedPath(fs) && Steady(Up(fs)) && WellFormed(Top(fs).node) && Todo(Spelled(fs), Top(fs)) == []
    requires gs != [] && Up(gs) == Up(fs) && Top(gs).keypos == Top(fs).keypos && Spelled(fs) <= current
    ensures Top(gs).keypos <= |current|
    ensures |fs| == 1 ==> Up(gs) == [] && GoesRight(fs) && Ahead(fs) == [] && current[..Top(gs).keypos] == []
    ensures |fs| > 1 ==> Poised(root, Up(gs), current[..Top(gs).keypos]) && WellFormed(Top(Up(gs)).node)
    ensures |fs| > 1 ==> (GoesRight(fs) <==> |Behind(Up(gs))| == |Behind(fs)|)
    ensures |fs| > 1 && GoesRight(fs) ==> Behind(Up(gs)) == Behind(fs) && Ahead(Up(gs)) == Ahead(fs)
  {
    KeyposIsLength(fs);
    if |fs| > 1 {
      PopPoised(root, fs, current);
      assert Marked(fs[|fs| - 2]);
      LeaveRight(fs);
    }
  }

  lemma {:induction false} ArrivedEarlier(root: Option<Node>, fs: seq<Frame>, gs: seq<Frame>, current: Bytes)
    requires Anchored(root, fs) && WellFormed(Top(fs).node) && Arrived(root, gs, current) && After(gs) == Later(fs)
    ensures Earlier(fs) != []
  {
    EarlierLater(fs);
    ArrivedEntry(root, gs, current);
    assert |Entries([], root.value)| == |Before(gs)| + 1 + |After(gs)|;
  }

  lemma {:induction false} UnwindBack(root: Option<Node>, fs: seq<Frame>, gs: seq<Frame>, current: Bytes)
    requires Anchored(root, fs) && MarkedPath(fs) && Steady(Up(fs)) && WellFormed(Top(fs).node) && Prior(Spelled(fs), Top(fs)) == []
    requires gs != [] && Up(gs) == Up(fs) && Top(gs).keypos == Top(fs).keypos && Spelled(fs) <= current
    ensures Top(gs).keypos <= |current|
    ensures |fs| == 1 ==> Up(gs) == [] && Steady(fs) && Earlier(fs) == [] && current[..Top(gs).keypos] == []
    ensures |fs| > 1 ==> Poised(root, Up(gs), current[..Top(gs).keypos]) && WellFormed(Top(Up(gs)).node)
    ensures |fs| > 1 ==> (Steady(fs) <==> |Earlier(Up(gs))| == |Earlier(fs)|)
    ensures |fs| > 1 && Steady(fs) ==> Earlier(Up(gs)) == Earlier(fs) && Later(Up(gs)) == Later(fs)
  {
    KeyposIsLength(fs);
    if |fs| > 1 {
      PopPoised(root, fs, current);
      assert Marked(fs[|fs| - 2]);
      LeaveLeft(fs);
      SteadyParts(fs);
    }
  }

  // On an entry, next continues behind it and prev before it.
  lemma {:induction false} ArrivedSides(root: Option<Node>, fs: seq<Frame>, current: Bytes)
    requires Arrived(root, fs, current) && Steady(fs)
    ensures Poised(root, fs, current)
    ensures Behind(fs) == Before(fs) + [Entry(current, Top(fs).node.value)] && Ahead(fs) == After(fs)
  {
    TopWellFormed(fs);
  }

  lemma {:induction false} ArrivedSidesBack(root: Option<Node>, fs: seq<Frame>, current: Bytes)
    requires Arrived(root, fs, current) && Steady(fs)
    ensures Poised(root, fs, current)
    ensures Earlier(fs) == Before(fs) && Later(fs) == [Entry(current, Top(fs).node.value)] + After(fs)
  {
    TopWellFormed(fs);
  }

  // ----- insertion

  lemma {:induction false} OneEntryMap(key: Bytes, value: Bytes)
    ensures WellFormed(Spine(key, value)) && Contents(Some(Spine(key, value))) == Contents(None)[key := value]
  {
    SpineEntries([], key, value);
    assert [] + key == key;
    var e := Entry(key, value);
    assert [e][..0] == [];
    assert ToMap([e]) == ToMap([e][..0])[e.key := e.value];
  }

  lemma {:induction false} RestOfKey(root: Option<Node>, fs: seq<Frame>, current: Bytes, rest: Bytes) returns (r: Bytes)
    requires fs != [] && Consistent(root, fs, current, rest)
    ensures WellFormed(Top(fs).node) && Ends(Top(fs), r) && Top(fs).prefix <= |r| && r[Top(fs).prefix..] == rest
    ensures Spelled(fs) + r == current + rest
    ensures r[..Top(fs).prefix] == Stem(Top(fs).node)[..Top(fs).prefix]
  {
    TopWellFormed(fs);
    var f := Top(fs);
    r := Stem(f.node)[..f.prefix] + rest;
    assert current + rest == Spelled(fs) + r && (Spelled(fs) + r)[|Spelled(fs)|..] == r;
  }

  lemma {:induction false} GrownFitsTop(root: Option<Node>, fs: seq<Frame>, current: Bytes, rest: Bytes, value: Bytes)
    requires fs != [] && Consistent(root, fs, current, rest)
    ensures WellFormed(Top(fs).node) && WellFormed(Grown(Top(fs), rest, value)) && FitsTop(fs, Grown(Top(fs), rest, value))
    ensures Top(fs).node.Trie? && Top(fs).prefix == |Top(fs).node.compressed| && rest != [] ==> Top(fs).branchKey == rest[0]
    ensures Top(fs).node.Leaf? && Top(fs).cmp != 0 ==> KeyOf(rest) != KeyOf(Top(fs).node.suffix[Top(fs).prefix..])
    ensures Top(fs).node.Trie? && Top(fs).prefix < |Top(fs).node.compressed| ==>
      KeyOf(rest) != Top(fs).node.compressed[Top(fs).prefix] && Top(fs).cmp != 0
  {
    var f := Top(fs);
    var r := RestOfKey(root, fs, current, rest);
    var left, mid, right := GrownPlaces(Spelled(fs), f, r, value);
    SignZero(r, Stem(f.node));
    if r != Stem(f.node) {
      SplitKeys(f.node, r);
    }
    WholePrefix(r, Stem(f.node));
    if |fs| > 1 {
      TopWellFormed(fs);
      assert (current + rest)[|Spelled(fs)|..] == r;
      GrownFits(f, r, value, Child(Top(Up(fs))).key);
    }
  }

  // The map afterwards.
  lemma {:induction false} InsertPlaces(root: Option<Node>, fs: seq<Frame>, current: Bytes, rest: Bytes, value: Bytes)
    requires fs != [] && Consistent(root, fs, current, rest)
    ensures WellFormed(Top(fs).node)
    ensures Contents(Some(Replug(fs, Grown(Top(fs), rest, value))[0].node)) == Contents(root)[current + rest := value]
  {
    var f, p := Top(fs), Spelled(fs);
    var r := RestOfKey(root, fs, current, rest);
    var left, mid, right := GrownPlaces(p, f, r, value);
    GrownFitsTop(root, fs, current, rest, value);
    var n := Grown(f, rest, value);
    var e := Entry(current + rest, value);
    var m := Replug(fs, n)[0].node;
    ReplugWellFormed(fs, n);
    EntriesSorted([], root.value);
    EntriesSorted([], m);
    hide WellFormed, Grown, Consistent, Replug, Spelled, Linked, Before, After, Entries, ToMap, SortedEntries, Ends;
    ReplugEntries(fs, n);
    Zip(fs);
    Regroup(Before(fs), left, mid, right, After(fs));
    Regroup(Before(fs), left, [e], right, After(fs));
    InsertedMap(Before(fs) + left, mid, right + After(fs), e);
  }

  lemma {:induction false} FoundComplete(root: Option<Node>, fs: seq<Frame>, current: Bytes, rest: Bytes)
    requires fs != [] && Consistent(root, fs, current, rest) && Found(fs)
    ensures rest == [] && Arrived(root, fs, current)
  {
    var r := RestOfKey(root, fs, current, rest);
    SignZero(r, Top(fs).node.suffix);
    CommonPrefixUnique(r, r, |r|);
    assert r[|r|..] == [];
  }

  // Only a search that found its key may have forgotten the branch above it.
  lemma {:induction false} MissingSteady(root: Option<Node>, fs: seq<Frame>, current: Bytes, rest: Bytes)
    requires fs != [] && Consistent(root, fs, current, rest) && !Found(fs)
    ensures Steady(fs)
  {
    forall i | 0 <= i < |fs| - 1
      ensures Knows(fs[i])
    {
      if i < |fs| - 2 {
        assert Knows(Up(fs)[i]);
      } else {
        LastKnows(root, fs, current, rest);
      }
    }
  }

  lemma {:induction false} LastKnows(root: Option<Node>, fs: seq<Frame>, current: Bytes, rest: Bytes)
    requires |fs| > 1 && Consistent(root, fs, current, rest) && !Found(fs)
    ensures Knows(fs[|fs| - 2])
  {
    var f, b := Top(fs), Child(Top(Up(fs)));
    var r := RestOfKey(root, fs, current, rest);
    TopWellFormed(fs);
    assert (current + rest)[|Spelled(fs)|..] == r;
    assert Marked(fs[|fs| - 2]);
    SignZero(r, Stem(f.node));
    assert b.key == NONE ==> r == Stem(f.node);
  }

  lemma {:induction false} KnowsMarked(f: Frame)
    requires Knows(f)
    ensures HasLink(f) && f.prefix == |f.node.compressed|
  {
  }

  lemma {:induction false} NewSteady(fs: seq<Frame>, gs: seq<Frame>)
    requires fs != [] && Steady(fs) && Knows(Top(fs)) && |gs| > |fs| && gs[..|fs|] == fs && KnowsFrom(gs, |fs|)
    ensures Steady(gs) && Steady(Up(gs)) && MarkedPath(gs)
  {
    assert forall i :: 0 <= i < |fs| ==> gs[i] == gs[..|fs|][i];
    forall i | 0 <= i < |gs| - 1
      ensures Knows(gs[i])
    {
      if i < |fs| - 1 { assert gs[i] == fs[i]; } else if i == |fs| - 1 { assert gs[i] == Top(fs); }
    }
  }

  // ----- removal

  lemma {:induction false} AloneAround(fs: seq<Frame>)
    requires |fs| == 1
    ensures Linked(fs) && Before(fs) == [] && After(fs) == [] && Skipped(fs) == [] && Spelled(fs) == []
  {
  }

  lemma {:induction false} ParentAround(root: Option<Node>, fs: seq<Frame>, current: Bytes)
    requires |fs| > 1 && Anchored(root, fs) && Spelled(fs) <= current && MarkedPath(fs) && Steady(Up(fs))
    requires Top(fs).prefix == |Stem(Top(fs).node)|
    ensures Top(fs).keypos == |Spelled(fs)|
    ensures Leaving(root, Up(fs), current[..Top(fs).keypos], Top(fs).prefix) && Anchored(root, Up(fs)) && HasLink(Top(Up(fs)))
    ensures LeftOf(Up(fs)) == Before(fs) && RightOf(Up(fs)) == After(fs) && Skipped(fs) == Missed(Up(fs))
    ensures Top(Up(fs)).prefix == |Stem(Top(Up(fs)).node)| && MarkedPath(Up(fs)) && Steady(Up(Up(fs)))
    ensures |Top(Up(fs)).node.branches| > 0 && (|Top(Up(fs)).node.branches| <= 2 ==> Skipped(fs) == [])
    ensures Spelled(Up(fs)) <= current[..Top(fs).keypos]
  {
    KeyposIsLength(fs);
    TopWellFormed(fs);
    assert Up(fs)[0] == fs[0];
    TopWellFormed(Up(fs));
    assert Marked(fs[|fs| - 2]);
    assert current[..|Spelled(fs)|] == Spelled(fs);
    assert forall i :: 0 <= i < |fs| - 2 ==> Up(fs)[i] == fs[i];
    assert forall i :: 0 <= i < |fs| - 3 ==> Up(Up(fs))[i] == Up(fs)[i];
  }

  // The parent of an only child goes with it.
  lemma {:induction false} OnlyChild(root: Option<Node>, fs: seq<Frame>)
    requires |fs| > 1 && Anchored(root, fs) && HasLink(Top(Up(fs))) && |Top(Up(fs)).node.branches| == 1
    ensures Before(Up(fs)) == Before(fs) && After(Up(fs)) == After(fs) && Skipped(Up(fs)) == []
  {
    NoEntries(Spelled(fs), Top(Up(fs)).node.branches);
    var gs := Up(fs);
    if |gs| > 1 {
      assert gs[0] == fs[0];
      TopWellFormed(gs);
      assert Child(Top(Up(gs))).key != NONE;
    }
  }

  lemma {:induction false} ReducedFits(root: Option<Node>, fs: seq<Frame>)
    requires Anchored(root, fs) && WellFormed(Top(fs).node) && HasLink(Top(fs)) && |Top(fs).node.branches| > 1
    requires |Top(fs).node.branches| == 2 ==> Top(fs).node.branches[1 - Top(fs).link].key != NONE
    ensures var n := Top(fs).node.(branches := Without(Top(fs).node.branches, Top(fs).link)); WellFormed(n) && FitsTop(fs, n)
  {
    WithoutWellFormed(Top(fs).node, Top(fs).link);
    TopWellFormed(fs);
  }

  // After the branch is gone, the frame points between its neighbours.
  lemma {:induction false} ReducedSides(root: Option<Node>, fs: seq<Frame>, current: Bytes, prefix: nat, gs: seq<Frame>)
    requires Leaving(root, fs, current, prefix) && |Top(fs).node.branches| > 1
    requires |Top(fs).node.branches| == 2 ==> Top(fs).node.compressed != []
    requires gs != [] && Linked(gs) && Before(gs) == Before(fs) && After(gs) == After(fs) && Spelled(gs) == Spelled(fs)
    requires Top(gs).node == Top(fs).node.(branches := Without(Top(fs).node.branches, Top(fs).link)) && WellFormed(Top(gs).node)
    requires Top(gs).cmp == -1 && Top(gs).prefix == (if prefix != 0 then Top(fs).prefix else 0) && Top(gs).branchKey == Top(fs).branchKey
    ensures Behind(gs) == LeftOf(fs) + Missed(fs)
    ensures Behind(gs) + Ahead(gs) == LeftOf(fs) + RightOf(fs)
  {
    hide Linked, Spelled, Before, After, Done, Todo, Entries, BranchEntries, WellFormed, Steady, MissedTop;
    var f, g, p := Top(fs), Top(gs), Spelled(fs);
    ReducedTop(p, f, g, prefix);
    ghost var left := BranchEntries(p + f.node.compressed, f.node.branches[..f.link]);
    Assoc(Before(fs), left, Missed(fs));
    Regroup5(Before(fs), Done(p, g), Todo(p, g), left, BranchEntries(p + f.node.compressed, f.node.branches[f.link + 1..]), After(fs));
  }

  lemma {:induction false} ReducedTop(p: Bytes, f: Frame, g: Frame, prefix: nat)
    requires WellFormed(f.node) && Marked(f) && (prefix == 0 <==> Child(f).key == NONE)
    requires |f.node.branches| > 1 && (|f.node.branches| == 2 ==> f.node.compressed != [])
    requires g.node == f.node.(branches := Without(f.node.branches, f.link)) && WellFormed(g.node)
    requires g.cmp == -1 && g.prefix == (if prefix != 0 then f.prefix else 0) && g.branchKey == f.branchKey
    ensures var q := p + f.node.compressed;
      Done(p, g) == BranchEntries(q, f.node.branches[..f.link]) + MissedTop(p, f)
      && Done(p, g) + Todo(p, g) == BranchEntries(q, f.node.branches[..f.link]) + BranchEntries(q, f.node.branches[f.link + 1..])
  {
    var bs, i, q := f.node.branches, f.link, p + f.node.compressed;
    var w := g.node.branches;
    WithoutEntries(q, bs, i);
    DoneTodo(p, g);
    assert w == Without(bs, i) && w[..i] == bs[..i];
    if prefix != 0 {
      WithoutUpTo(bs, i);
      Nothing(BranchEntries(q, bs[..i]));
    } else {
      TopFirst(f);
      NoEntries(q, bs);
      NoEntries(q, w);
      ReducedFirst(p, f, g);
    }
  }

  lemma {:induction false} ReducedFirst(p: Bytes, f: Frame, g: Frame)
    requires WellFormed(f.node) && HasLink(f) && Child(f).key == NONE && f.link == 0
    requires |f.node.branches| > 1 && (|f.node.branches| == 2 ==> f.node.compressed != [])
    requires g.node == f.node.(branches := Without(f.node.branches, f.link)) && WellFormed(g.node)
    requires g.cmp == -1 && g.prefix == 0 && g.branchKey == f.branchKey
    ensures Done(p, g) == [] + MissedTop(p, f)
  {
    hide BranchEntries, Entries, WellFormed;
    Nothing(MissedTop(p, f));
    if f.node.compressed == [] {
      assert p + f.node.compressed == p;
    } else {
      NoEntries(p + f.node.compressed, g.node.branches);
    }
  }

  lemma {:induction false} TopFirst(f: Frame)
    requires WellFormed(f.node) && HasLink(f) && Child(f).key == NONE
    ensures f.link == 0
  {
    var bs := f.node.branches;
    assert bs[0].key <= bs[f.link].key;
    UpToUnique(bs, 0, f.link);
  }

  lemma {:induction false} Regroup5<T>(a: seq<T>, b: seq<T>, c: seq<T>, d: seq<T>, e: seq<T>, z: seq<T>)
    requires b + c == d + e
    ensures (a + b) + (c + z) == (a + d) + (e + z)
  {
    assert (a + b) + (c + z) == a + (b + c) + z;
    assert (a + d) + (e + z) == a + (d + e) + z;
  }

  lemma {:induction false} CombinedFits(root: Option<Node>, fs: seq<Frame>)
    requires Anchored(root, fs) && WellFormed(Top(fs).node) && HasLink(Top(fs)) && |Top(fs).node.branches| == 2
    ensures var rem, c := Top(fs).node.branches[1 - Top(fs).link], Top(fs).node.compressed;
      if |c| + |Stem(rem.node)| > MAX_LABEL then rem.key != NONE && c != []
      else WellFormed(Merged(c, rem.node)) && FitsTop(fs, Merged(c, rem.node)) && (rem.node.Trie? ==> Stem(rem.node) != [])
  {
    TopWellFormed(fs);
    var rem, c := Top(fs).node.branches[1 - Top(fs).link], Top(fs).node.compressed;
    assert Fits(rem) && WellFormed(rem.node);
    if |fs| > 1 {
      assert c != [];
      assert Stem(Merged(c, rem.node))[0] == c[0];
    }
  }

  lemma {:induction false} CombinedSides(root: Option<Node>, fs: seq<Frame>, current: Bytes, prefix: nat, gs: seq<Frame>)
    requires Leaving(root, fs, current, prefix) && |Top(fs).node.branches| == 2
    requires gs != [] && Linked(gs) && Before(gs) == Before(fs) && After(gs) == After(fs) && Spelled(gs) == Spelled(fs)
    requires Top(gs).node == Merged(Top(fs).node.compressed, Top(fs).node.branches[1 - Top(fs).link].node) && WellFormed(Top(gs).node)
    requires Top(gs).cmp == 1 && Top(gs).prefix == Top(fs).prefix
    requires Top(gs).node.Trie? ==> Stem(Top(fs).node.branches[1 - Top(fs).link].node) != []
    ensures Behind(gs) + Ahead(gs) == LeftOf(fs) + RightOf(fs)
    ensures Top(fs).link != 0 ==> Behind(gs) == LeftOf(fs)
    ensures Top(fs).link == 0 ==> Before(gs) == LeftOf(fs) && |RightOf(fs)| > 0
  {
    hide Linked, Spelled, Before, After, Done, Todo, Entries, BranchEntries, WellFormed, Steady;
    var f, g, p := Top(fs), Top(gs), Spelled(fs);
    CombinedTop(p, f, g);
    ghost var left := BranchEntries(p + f.node.compressed, f.node.branches[..f.link]);
    Nothing(Before(fs));
    Regroup5(Before(fs), Done(p, g), Todo(p, g), left, BranchEntries(p + f.node.compressed, f.node.branches[f.link + 1..]), After(fs));
  }

  lemma {:induction false} CombinedTop(p: Bytes, f: Frame, g: Frame)
    requires WellFormed(f.node) && Marked(f) && |f.node.branches| == 2 && WellFormed(g.node)
    requires g.node == Merged(f.node.compressed, f.node.branches[1 - f.link].node) && g.cmp == 1 && g.prefix == f.prefix
    requires g.node.Trie? ==> Stem(f.node.branches[1 - f.link].node) != []
    ensures var q, bs, i := p + f.node.compressed, f.node.branches, f.link;
      Done(p, g) + Todo(p, g) == BranchEntries(q, bs[..i]) + BranchEntries(q, bs[i + 1..])
      && (i != 0 ==> Done(p, g) == BranchEntries(q, bs[..i]))
      && (i == 0 ==> BranchEntries(q, bs[..i]) == [] && |BranchEntries(q, bs[i + 1..])| > 0)
  {
    var bs, rem := f.node.branches, f.node.branches[1 - f.link];
    var q := p + f.node.compressed;
    MergedEntries(p, f.node.compressed, rem.node);
    HasEntries(q, rem.node);
    AllDone(p, g);
    hide BranchEntries, Entries, WellFormed;
    OneEntries(q, rem);
    NoEntries(q, bs);
    if f.link == 0 {
      assert bs[1..] == [rem];
    } else {
      assert bs[..1] == [rem] && bs[2..] == bs[|bs|..];
    }
  }

  lemma {:induction false} AllDone(p: Bytes, g: Frame)
    requires WellFormed(g.node) && g.cmp == 1 && (g.node.Trie? ==> g.prefix < |g.node.compressed|)
    ensures Done(p, g) == Entries(p, g.node) && Todo(p, g) == []
  {
    if g.node.Trie? {
      assert g.node.branches[..|g.node.branches|] == g.node.branches;
      NoEntries(p + g.node.compressed, g.node.branches);
    }
  }

  // A non-empty key is removed without skipping anything.
  lemma {:induction false} NothingSkipped(root: Option<Node>, fs: seq<Frame>, current: Bytes)
    requires Arrived(root, fs, current)
    ensures current != [] ==> Skipped(fs) == []
  {
    if |fs| > 1 && current != [] {
      TopWellFormed(fs);
      var gs := Up(fs);
      assert gs[0] == fs[0];
      TopWellFormed(gs);
      if |gs| == 1 {
        assert Spelled(fs) == [] + gs[0].node.compressed;
      } else {
        assert Top(gs).node.compressed != [];
      }
    }
  }

  lemma {:induction false} NoEntries(p: Bytes, bs: seq<Branch>)
    ensures BranchEntries(p, bs[..0]) == [] && BranchEntries(p, bs[|bs|..]) == []
  {
  }
}
