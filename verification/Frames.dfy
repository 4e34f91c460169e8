// How single changes to the stack affect what it denotes.

module Frames {
  import opened Common
  import opened Prefix
  import opened Trie
  import opened Zipper
  import opened Search

  // The same stack with other fields in its top frame.
  function Retop(fs: seq<Frame>, f: Frame): seq<Frame>
    requires fs != []
  {
    Up(fs) + [f]
  }

  lemma {:induction false} RetopKeeps(fs: seq<Frame>, f: Frame)
    requires fs != [] && Linked(fs) && f.node == Top(fs).node && f.keypos == Top(fs).keypos
    ensures Up(Retop(fs, f)) == Up(fs) && Top(Retop(fs, f)) == f
    ensures Linked(Retop(fs, f)) && Spelled(Retop(fs, f)) == Spelled(fs)
    ensures Before(Retop(fs, f)) == Before(fs) && After(Retop(fs, f)) == After(fs)
    ensures forall key :: Tracks(fs, key) ==> Tracks(Retop(fs, f), key)
    ensures Retop(fs, f)[0].node == fs[0].node && Retop(fs, f)[0].keypos == fs[0].keypos
  {
    assert Up(Retop(fs, f)) == Up(fs);
  }

  lemma {:induction false} PushKeeps(fs: seq<Frame>, g: Frame)
    requires fs != [] && Linked(fs) && Parent(Top(fs), g)
    ensures Up(fs + [g]) == fs && Top(fs + [g]) == g
    ensures Linked(fs + [g]) && Spelled(fs + [g]) == Spelled(fs) + Top(fs).node.compressed
    ensures Before(fs + [g]) == Before(fs) + BranchEntries(Spelled(fs + [g]), Top(fs).node.branches[..Top(fs).link])
    ensures After(fs + [g]) == BranchEntries(Spelled(fs + [g]), Top(fs).node.branches[Top(fs).link + 1..]) + After(fs)
  {
    assert Up(fs + [g]) == fs;
  }

  // Remembering the branch byte in an inner frame changes nothing else.
  function Mark(fs: seq<Frame>, i: nat, b: Byte): seq<Frame>
    requires i < |fs|
  {
    fs[i := fs[i].(branchKey := b)]
  }

  lemma {:induction false} MarkKeeps(fs: seq<Frame>, i: nat, b: Byte)
    requires i < |fs| && Linked(fs)
    ensures Linked(Mark(fs, i, b)) && Spelled(Mark(fs, i, b)) == Spelled(fs)
    ensures Before(Mark(fs, i, b)) == Before(fs) && After(Mark(fs, i, b)) == After(fs)
    decreases |fs|
  {
    if |fs| > 1 {
      if i < |fs| - 1 {
        MarkKeeps(Up(fs), i, b);
        assert Up(Mark(fs, i, b)) == Mark(Up(fs), i, b);
      } else {
        assert Up(Mark(fs, i, b)) == Up(fs);
      }
    }
  }

  // Frames from lo on, except the top, know their branch.
  predicate KnowsFrom(fs: seq<Frame>, lo: nat) {
    forall i :: lo <= i < |fs| - 1 ==> Knows(fs[i])
  }

  predicate MarkedPath(fs: seq<Frame>) {
    forall i :: 0 <= i < |fs| - 1 ==> Marked(fs[i])
  }

  predicate Anchored(root: Option<Node>, fs: seq<Frame>) {
    && root.Some? && WellFormed(root.value)
    && fs != [] && fs[0].node == root.value && fs[0].keypos == 0 && Linked(fs)
  }

  // A cursor on an entry.
  ghost predicate Arrived(root: Option<Node>, fs: seq<Frame>, current: Bytes) {
    && Anchored(root, fs)
    && Top(fs).node.Leaf? && Top(fs).cmp == 0 && Top(fs).prefix == |Top(fs).node.suffix|
    && current == Spelled(fs) + Top(fs).node.suffix
  }

  // Between two operations: at the end of a search or on an entry.
  ghost predicate Consistent(root: Option<Node>, fs: seq<Frame>, current: Bytes, rest: Bytes) {
    && (root.Some? ==> WellFormed(root.value))
    && (fs == [] ==> current == [])
    && (fs != [] ==>
          && Anchored(root, fs) && WellFormed(Top(fs).node) && Located(fs, current + rest) && MarkedPath(fs) && Steady(Up(fs))
          && Top(fs).prefix <= |Stem(Top(fs).node)| && current == Spelled(fs) + Stem(Top(fs).node)[..Top(fs).prefix])
  }

  // Wherever a search started, it leaves what a search from the root leaves.
  lemma {:induction false} ResumedIsFresh(root: Option<Node>, fs: seq<Frame>, current: Bytes, rest: Bytes,
                                          gs: seq<Frame>, current': Bytes, rest': Bytes)
    requires fs != [] && gs != [] && Consistent(root, fs, current, rest) && Consistent(root, gs, current', rest')
    requires current + rest == current' + rest'
    ensures SamePath(fs, gs) && current == current' && rest == rest'
  {
    LocatedUnique(fs, gs, current + rest);
    assert current == current';
    assert rest == (current + rest)[|current|..];
  }

  lemma {:induction false} ReplugAnchored(root: Option<Node>, fs: seq<Frame>, n: Node)
    requires Anchored(root, fs) && WellFormed(n) && FitsTop(fs, n)
    ensures Anchored(Some(Replug(fs, n)[0].node), Replug(fs, n))
    ensures Top(Replug(fs, n)) == Top(fs).(node := n)
  {
    ReplugWellFormed(fs, n);
    ReplugFrames(fs, n);
    ReplugTop(fs, n);
  }

  lemma {:induction false} ReplugKnows(fs: seq<Frame>, n: Node)
    requires fs != [] && Linked(fs)
    ensures forall i :: 0 <= i < |fs| - 1 && Knows(fs[i]) ==> Knows(Replug(fs, n)[i])
    ensures forall i :: 0 <= i < |fs| - 1 && Marked(fs[i]) ==> Marked(Replug(fs, n)[i])
    ensures forall i :: 0 <= i < |fs| - 1 && !Knows(fs[i]) ==> !Knows(Replug(fs, n)[i])
    ensures forall i :: 0 <= i < |fs| - 1 ==> (RightOfLink(fs[i]) <==> RightOfLink(Replug(fs, n)[i]))
    decreases |fs|
  {
    if |fs| > 1 {
      var w := WithChild(Top(Up(fs)), n);
      ReplugKnows(Up(fs), w);
      ReplugTop(fs, n);
      ReplugTop(Up(fs), w);
      var r := Replug(fs, n);
      assert r[|fs| - 2] == Top(Up(fs)).(node := w);
      forall i | 0 <= i < |fs| - 2
        ensures r[i] == Replug(Up(fs), w)[i] && fs[i] == Up(fs)[i]
      {
      }
    }
  }

  // ----- which keys a stack follows

  // The labels above the top fix every branch taken.
  lemma {:induction false} InnerTracks(fs: seq<Frame>, x: Bytes)
    requires fs != [] && Linked(fs) && WellFormed(fs[0].node)
    requires |fs| > 1 ==> Stem(Top(fs).node) != [] && Spelled(fs) + [Stem(Top(fs).node)[0]] <= x
    ensures Tracks(fs, x)
    decreases |fs|
  {
    if |fs| > 1 {
      TopWellFormed(fs);
      var s := Spelled(fs);
      assert x[|s|] == (s + [Stem(Top(fs).node)[0]])[|s|];
      assert s <= x by { assert x[..|s|] == (s + [Stem(Top(fs).node)[0]])[..|s|] == s; }
      UpTracks(fs, x);
    }
  }

  lemma {:induction false} UpTracks(fs: seq<Frame>, x: Bytes)
    requires |fs| > 1 && Linked(fs) && WellFormed(fs[0].node) && Spelled(fs) <= x
    ensures Tracks(Up(fs), x)
    decreases |fs|, 0
  {
    var u := Up(fs);
    if |u| > 1 {
      TopWellFormed(u);
      var s, c := Spelled(u), Top(u).node.compressed;
      assert c != [];
      assert s + [c[0]] <= s + c <= x;
      InnerTracks(u, x);
    }
  }

  lemma {:induction false} SpelledPart(fs: seq<Frame>, i: nat)
    requires 0 < i <= |fs| && Linked(fs)
    ensures Linked(fs[..i]) && Spelled(fs[..i]) <= Spelled(fs)
    ensures i < |fs| ==> fs[i - 1].node.Trie? && Spelled(fs[..i]) + fs[i - 1].node.compressed <= Spelled(fs)
    decreases |fs|
  {
    if i < |fs| {
      SpelledPart(Up(fs), i);
      assert Up(fs)[..i] == fs[..i];
    } else {
      assert fs[..i] == fs;
    }
  }

  // An entry the cursor stands on.
  lemma {:induction false} ArrivedEntry(root: Option<Node>, fs: seq<Frame>, current: Bytes)
    requires Arrived(root, fs, current)
    ensures Entries([], root.value) == Before(fs) + [Entry(current, Top(fs).node.value)] + After(fs)
  {
    Zip(fs);
  }

  lemma {:induction false} ArrivedConsistent(root: Option<Node>, fs: seq<Frame>, current: Bytes)
    requires Arrived(root, fs, current) && MarkedPath(fs) && Steady(Up(fs))
    ensures Consistent(root, fs, current, []) && Found(fs)
  {
    var s, f := Spelled(fs), Top(fs);
    assert current + [] == current && current[|s|..] == f.node.suffix;
    CommonPrefixUnique(f.node.suffix, f.node.suffix, |f.node.suffix|);
    TopWellFormed(fs);
    if |fs| > 1 {
      if f.node.suffix == [] {
        UpTracks(fs, current);
      } else {
        assert s + [f.node.suffix[0]] <= current;
        InnerTracks(fs, current);
      }
    }
  }

  // A search that ends in the top frame leaves the cursor consistent.
  lemma {:induction false} StopHere(root: Option<Node>, fs: seq<Frame>, f: Frame, rest: Bytes)
    requires Anchored(root, fs) && Tracks(fs, Spelled(fs) + rest) && Steady(fs)
    requires f.node == Top(fs).node && f.keypos == Top(fs).keypos && Ends(f, rest)
    ensures f.prefix <= |rest|
    ensures Consistent(root, Retop(fs, f), Spelled(fs) + rest[..f.prefix], rest[f.prefix..])
    ensures Steady(Retop(fs, f)) && Located(Retop(fs, f), Spelled(fs) + rest)
  {
    var gs, s := Retop(fs, f), Spelled(fs);
    TopWellFormed(fs);
    RetopKeeps(fs, f);
    assert forall i :: 0 <= i < |fs| - 1 ==> gs[i] == fs[i];
    assert (s + rest[..f.prefix]) + rest[f.prefix..] == s + rest;
    assert (s + rest)[|s|..] == rest;
    assert rest[..f.prefix] == Stem(f.node)[..f.prefix];
  }

  // Going down one branch keeps following the key.
  lemma {:induction false} GoDown(root: Option<Node>, fs: seq<Frame>, f: Frame, h: Frame, key: Bytes)
    requires Anchored(root, fs) && Tracks(fs, key) && Steady(fs)
    requires f.node == Top(fs).node && f.keypos == Top(fs).keypos && Parent(f, h) && Knows(f)
    requires Spelled(fs) + f.node.compressed <= key
    requires Child(f).key == KeyOf(key[|Spelled(fs) + f.node.compressed|..])
    ensures Anchored(root, Retop(fs, f) + [h]) && Steady(Retop(fs, f) + [h])
    ensures Spelled(Retop(fs, f) + [h]) == Spelled(fs) + f.node.compressed
    ensures Tracks(Retop(fs, f) + [h], key)
  {
    var gs := Retop(fs, f);
    RetopKeeps(fs, f);
    PushKeeps(gs, h);
    assert forall i :: 0 <= i < |fs| - 1 ==> (gs + [h])[i] == fs[i];
    assert (gs + [h])[|fs| - 1] == f;
  }

  // What keep_stack keeps: the frames that start before the two keys part follow the new key too.
  lemma {:induction false} KeptFollows(root: Option<Node>, fs: seq<Frame>, current: Bytes, rest: Bytes, key: Bytes, i: nat)
    requires fs != [] && Consistent(root, fs, current, rest) && 0 < i <= |fs|
    requires fs[i - 1].keypos < CommonPrefix(key, current)
    ensures Anchored(root, fs[..i]) && Steady(fs[..i])
    ensures |Spelled(fs[..i])| == fs[i - 1].keypos <= |current|
    ensures current[..fs[i - 1].keypos] == Spelled(fs[..i]) && Tracks(fs[..i], key)
  {
    hide WellFormed, Linked, Spelled, Located, Knows, Marked, CommonPrefix, Tracks;
    var gs := fs[..i];
    SpelledPart(fs, i);
    KeyposIsLength(gs);
    assert current[..|Spelled(gs)|] == Spelled(gs);
    SharedBytes(key, current, |Spelled(gs)|);
    if i > 1 {
      NextByte(root, fs, current, rest, i);
      assert Spelled(gs) + [Stem(Top(gs).node)[0]] <= key;
    }
    InnerTracks(gs, key);
    KeptSteadyPart(root, fs, current, rest, i);
  }

  lemma {:induction false} SharedBytes(key: Bytes, current: Bytes, n: nat)
    requires n < CommonPrefix(key, current)
    ensures key[..n] == current[..n] && key[n] == current[n]
  {
    var same := CommonPrefix(key, current);
    assert key[..n] == key[..same][..n] && current[..n] == current[..same][..n];
    assert key[n] == key[..same][n] && current[n] == current[..same][n];
  }

  // The byte after a kept frame's start is the first one of its label.
  lemma {:induction false} NextByte(root: Option<Node>, fs: seq<Frame>, current: Bytes, rest: Bytes, i: nat)
    requires fs != [] && Consistent(root, fs, current, rest) && 1 < i <= |fs| && Linked(fs[..i]) && |Spelled(fs[..i])| < |current|
    ensures Stem(Top(fs[..i]).node) != [] && current[|Spelled(fs[..i])|] == Stem(Top(fs[..i]).node)[0]
  {
    var gs := fs[..i];
    SpelledPart(fs, i);
    TopWellFormed(gs);
    var s, n := Spelled(gs), Top(gs).node;
    if i == |fs| {
      assert gs == fs;
      assert current == s + Stem(n)[..Top(fs).prefix];
    } else {
      assert s + Stem(n) <= Spelled(fs) <= current;
      assert current[|s|] == (s + Stem(n))[|s|];
    }
  }

  lemma {:induction false} KeptSteadyPart(root: Option<Node>, fs: seq<Frame>, current: Bytes, rest: Bytes, i: nat)
    requires fs != [] && Consistent(root, fs, current, rest) && 0 < i <= |fs|
    requires Linked(fs[..i]) && |Spelled(fs[..i])| < |current|
    ensures Steady(fs[..i])
  {
    forall j | 0 <= j < i - 1
      ensures Knows(fs[..i][j])
    {
      if j < |fs| - 2 {
        assert Knows(Up(fs)[j]);
      } else {
        assert fs[..i] == fs;
        UnknowingIsLast(root, fs, current, rest);
      }
    }
  }

  lemma {:induction false} RetopSteady(fs: seq<Frame>, f: Frame)
    requires fs != [] && Steady(fs)
    ensures Steady(Retop(fs, f))
  {
    assert forall j :: 0 <= j < |fs| - 1 ==> Retop(fs, f)[j] == fs[j];
  }

  lemma {:induction false} Rewound(root: Option<Node>, fs: seq<Frame>, current: Bytes, rest: Bytes, key: Bytes, i: nat, f: Frame)
    requires fs != [] && Consistent(root, fs, current, rest) && 0 < i <= |fs|
    requires fs[i - 1].keypos < CommonPrefix(key, current)
    requires f.node == fs[i - 1].node && f.keypos == fs[i - 1].keypos
    ensures f.keypos <= |current| && f.keypos <= |key|
    ensures Anchored(root, Retop(fs[..i], f)) && Steady(Retop(fs[..i], f)) && Tracks(Retop(fs[..i], f), key)
    ensures Spelled(Retop(fs[..i], f)) == current[..f.keypos] == key[..f.keypos]
  {
    var gs := fs[..i];
    hide Consistent, WellFormed, Spelled, Linked, Tracks, Knows, Before, After, CommonPrefix;
    KeptFollows(root, fs, current, rest, key, i);
    SharedBytes(key, current, f.keypos);
    RetopKeeps(gs, f);
    RetopSteady(gs, f);
  }

  // Only above a leaf without suffix may the branch taken be forgotten.
  lemma {:induction false} UnknowingIsLast(root: Option<Node>, fs: seq<Frame>, current: Bytes, rest: Bytes)
    requires |fs| > 1 && Consistent(root, fs, current, rest)
    ensures Knows(fs[|fs| - 2]) || (Top(fs).node.Leaf? && Top(fs).node.suffix == [] && current == Spelled(fs))
  {
    TopWellFormed(fs);
    assert Marked(fs[|fs| - 2]);
  }

  // ----- the already-found test of find compares only the consumed bytes

  // After a search for current + rest, the stack is also right for current alone iff
  // nothing was left or the key was smaller than the node it stopped in.
  lemma {:induction false} AlreadyFound(root: Option<Node>, fs: seq<Frame>, current: Bytes, rest: Bytes)
    requires fs != [] && Consistent(root, fs, current, rest)
    ensures Located(fs, current) <==> rest == [] || Top(fs).cmp == -1
  {
    var s, f := Spelled(fs), Top(fs);
    var c := Stem(f.node)[..f.prefix];
    var r := c + rest;
    assert current + rest == s + r && current[|s|..] == c && (s + r)[|s|..] == r;
    if rest == [] {
      assert current + rest == current;
    } else {
      EndsBoth(f, c, rest);
      if f.cmp == -1 {
        StemTracks(fs, current, r);
      }
    }
  }

  lemma {:induction false} EndsBoth(f: Frame, c: Bytes, rest: Bytes)
    requires rest != [] && Ends(f, c + rest) && f.prefix <= |Stem(f.node)| && c == Stem(f.node)[..f.prefix]
    ensures Ends(f, c) <==> f.cmp == -1
    ensures f.cmp == -1 ==> f.prefix < |Stem(f.node)|
  {
    CommonPrefixUnique(c, Stem(f.node), f.prefix);
    SignZero(c + rest, Stem(f.node));
    SignZero(c, Stem(f.node));
    assert f.prefix == |c|;
  }

  lemma {:induction false} StemTracks(fs: seq<Frame>, current: Bytes, r: Bytes)
    requires fs != [] && Linked(fs) && WellFormed(fs[0].node) && Tracks(fs, Spelled(fs) + r)
    requires Top(fs).prefix == CommonPrefix(r, Stem(Top(fs).node)) < |Stem(Top(fs).node)|
    requires current == Spelled(fs) + Stem(Top(fs).node)[..Top(fs).prefix]
    ensures Tracks(fs, current)
  {
    TopWellFormed(fs);
    if |fs| > 1 {
      assert (Spelled(fs) + r)[|Spelled(fs)|..] == r;
      assert r[0] == Stem(Top(fs).node)[0];
      assert Spelled(fs) + [Stem(Top(fs).node)[0]] <= current;
      InnerTracks(fs, current);
    }
  }

  // ----- moving to neighbouring entries

  // Ready for next and prev: the top frame says where to go on.
  ghost predicate Poised(root: Option<Node>, fs: seq<Frame>, current: Bytes) {
    && Anchored(root, fs) && WellFormed(Top(fs).node) && Steady(fs) && Spelled(fs) <= current
    && (Top(fs).node.Trie? ==> Top(fs).prefix <= |Top(fs).node.compressed|)
    && (Top(fs).node.Trie? && Top(fs).cmp == 0 ==>
          HasLink(Top(fs)) && Top(fs).prefix == |Top(fs).node.compressed| && current == Spelled(fs) + Top(fs).node.compressed)
  }

  lemma {:induction false} ConsistentPoised(root: Option<Node>, fs: seq<Frame>, current: Bytes, rest: Bytes)
    requires fs != [] && Consistent(root, fs, current, rest) && Steady(fs)
    ensures Poised(root, fs, current)
  {
    TopWellFormed(fs);
    SignZero((current + rest)[|Spelled(fs)|..], Stem(Top(fs).node));
    WholePrefix((current + rest)[|Spelled(fs)|..], Stem(Top(fs).node));
  }

  // On an entry, as every operation but next and prev leaves the cursor: only the frame right
  // above the leaf may have forgotten which branch it took.
  ghost predicate OnEntry(root: Option<Node>, fs: seq<Frame>, current: Bytes) {
    Arrived(root, fs, current) && WellFormed(Top(fs).node) && MarkedPath(fs) && Steady(Up(fs))
  }

  lemma {:induction false} SteadyUp(fs: seq<Frame>)
    requires fs != [] && Steady(fs)
    ensures MarkedPath(fs) && Steady(Up(fs)) && GoesRight(fs)
  {
    assert forall i :: 0 <= i < |fs| - 1 ==> Knows(fs[i]);
    assert forall i :: 0 <= i < |fs| - 2 ==> Up(fs)[i] == fs[i];
  }

  lemma {:induction false} SteadyParts(fs: seq<Frame>)
    requires |fs| > 1 && Steady(Up(fs))
    ensures Steady(fs) <==> Knows(fs[|fs| - 2])
  {
    forall i | 0 <= i < |fs| - 1
      ensures Knows(fs[|fs| - 2]) ==> Knows(fs[i])
    {
      if i < |fs| - 2 { assert Up(fs)[i] == fs[i]; }
    }
  }

  lemma {:induction false} PopPoised(root: Option<Node>, fs: seq<Frame>, current: Bytes)
    requires |fs| > 1 && Anchored(root, fs) && MarkedPath(fs) && Steady(Up(fs)) && Spelled(fs) <= current
    ensures Top(fs).keypos == |Spelled(fs)| && Poised(root, Up(fs), current[..Top(fs).keypos])
  {
    KeyposIsLength(fs);
    TopWellFormed(Up(fs));
    assert current[..|Spelled(fs)|] == Spelled(fs);
    assert Marked(fs[|fs| - 2]);
  }

  // On the way to an entry, each branch byte can be read off the key.
  lemma {:induction false} BranchByte(root: Option<Node>, fs: seq<Frame>, current: Bytes, i: nat)
    requires Arrived(root, fs, current) && i + 1 < |fs|
    ensures HasLink(fs[i]) && fs[i + 1].keypos <= |current|
    ensures KeyOf(current[fs[i + 1].keypos..]) == Child(fs[i]).key
  {
    var gs := fs[..i + 2];
    SpelledPart(fs, i + 2);
    KeyposIsLength(gs);
    TopWellFormed(gs);
    var s, n := Spelled(gs), Top(gs).node;
    assert Top(Up(gs)) == fs[i] && Top(gs) == fs[i + 1];
    if i + 2 == |fs| {
      assert gs == fs;
      assert current[|s|..] == n.suffix;
    } else {
      assert s + n.compressed <= current;
      assert current[|s|] == (s + n.compressed)[|s|];
    }
  }

  // A frame whose child has been entered, with a freshly remembered branch byte.
  lemma {:induction false} MarkArrives(root: Option<Node>, fs: seq<Frame>, current: Bytes, m: nat)
    requires Arrived(root, fs, current) && m + 1 < |fs| && KnowsFrom(fs, m + 1)
    requires fs[m].prefix == |Stem(fs[m].node)| && fs[m].cmp == 0
    ensures fs[m + 1].keypos <= |current| && HasLink(fs[m])
    ensures fs[m + 1].keypos == |current| ==> KnowsFrom(fs, m)
    ensures fs[m + 1].keypos < |current| ==>
      Arrived(root, Mark(fs, m, current[fs[m + 1].keypos]), current) && KnowsFrom(Mark(fs, m, current[fs[m + 1].keypos]), m)
      && Before(Mark(fs, m, current[fs[m + 1].keypos])) == Before(fs) && After(Mark(fs, m, current[fs[m + 1].keypos])) == After(fs)
    ensures fs[m].branchKey == Child(fs[m]).key ==> KnowsFrom(fs, m)
  {
    BranchByte(root, fs, current, m);
    if fs[m + 1].keypos < |current| {
      MarkKeeps(fs, m, current[fs[m + 1].keypos]);
    }
  }

  lemma {:induction false} ArrivedLeaf(root: Option<Node>, fs: seq<Frame>)
    requires Anchored(root, fs) && Top(fs).node.Leaf?
    ensures var f := Top(fs).(prefix := |Top(fs).node.suffix|, cmp := 0);
      Arrived(root, Retop(fs, f), Spelled(fs) + Top(fs).node.suffix) && Before(Retop(fs, f)) == Before(fs) && After(Retop(fs, f)) == After(fs)
  {
    RetopKeeps(fs, Top(fs).(prefix := |Top(fs).node.suffix|, cmp := 0));
  }

  // Entering the child behind a link.
  lemma {:induction false} EnterKeeps(root: Option<Node>, fs: seq<Frame>, f: Frame, h: Frame)
    requires Anchored(root, fs) && f.node == Top(fs).node && f.keypos == Top(fs).keypos && Parent(f, h)
    ensures Anchored(root, Retop(fs, f) + [h]) && Spelled(Retop(fs, f) + [h]) == Spelled(fs) + f.node.compressed
    ensures Before(Retop(fs, f) + [h]) == Before(fs) + BranchEntries(Spelled(fs) + f.node.compressed, f.node.branches[..f.link])
    ensures After(Retop(fs, f) + [h]) == BranchEntries(Spelled(fs) + f.node.compressed, f.node.branches[f.link + 1..]) + After(fs)
    ensures Up(Retop(fs, f) + [h]) == Retop(fs, f)
  {
    RetopKeeps(fs, f);
    PushKeeps(Retop(fs, f), h);
  }
}
