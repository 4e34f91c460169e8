// The cursor's stack as a path into the trie: what lies before it and after it, and what the
// trie becomes when the node on top is replaced.

module Zipper {
  import opened Common
  import opened Trie

  // One transition of the stack. link is the index of the branch followed, branchKey its key.
  datatype Frame = Frame(node: Node, keypos: nat, prefix: nat, cmp: int, branchKey: Byte, link: int)

  predicate HasLink(f: Frame) {
    f.node.Trie? && 0 <= f.link < |f.node.branches|
  }

  function Child(f: Frame): Branch
    requires HasLink(f)
  {
    f.node.branches[f.link]
  }

  predicate Parent(f: Frame, g: Frame) {
    && HasLink(f) && f.prefix == |f.node.compressed|
    && Child(f).node == g.node && g.keypos == f.keypos + f.prefix
  }

  function Top(fs: seq<Frame>): Frame
    requires fs != []
  {
    fs[|fs| - 1]
  }

  function Up(fs: seq<Frame>): seq<Frame>
    requires fs != []
  {
    fs[..|fs| - 1]
  }

  predicate Linked(fs: seq<Frame>) {
    |fs| > 1 ==> Parent(Top(Up(fs)), Top(fs)) && Linked(Up(fs))
  }

  // The key bytes of all nodes above the top.
  ghost function Spelled(fs: seq<Frame>): Bytes
    requires fs != [] && Linked(fs)
  {
    if |fs| == 1 then [] else Spelled(Up(fs)) + Top(Up(fs)).node.compressed
  }

  // The entries below branches left and right of the path.
  ghost function Before(fs: seq<Frame>): seq<Entry>
    requires fs != [] && Linked(fs)
  {
    if |fs| == 1 then [] else
      Before(Up(fs)) + BranchEntries(Spelled(fs), Top(Up(fs)).node.branches[..Top(Up(fs)).link])
  }

  ghost function After(fs: seq<Frame>): seq<Entry>
    requires fs != [] && Linked(fs)
  {
    if |fs| == 1 then [] else
      BranchEntries(Spelled(fs), Top(Up(fs)).node.branches[Top(Up(fs)).link + 1..]) + After(Up(fs))
  }

  lemma {:induction false} Regroup<T>(a: seq<T>, b: seq<T>, c: seq<T>, d: seq<T>, e: seq<T>)
    ensures a + (b + c + d) + e == (a + b) + c + (d + e)
  {
  }

  lemma {:induction false} Zip(fs: seq<Frame>)
    requires fs != [] && Linked(fs)
    ensures Entries([], fs[0].node) == Before(fs) + Entries(Spelled(fs), Top(fs).node) + After(fs)
    decreases |fs|
  {
    if |fs| > 1 {
      var f, up := Top(Up(fs)), Up(fs);
      Zip(up);
      BranchEntriesAt(Spelled(fs), f.node.branches, f.link);
      var left, right := BranchEntries(Spelled(fs), f.node.branches[..f.link]), BranchEntries(Spelled(fs), f.node.branches[f.link + 1..]);
      var e := Entries(Spelled(fs), Top(fs).node);
      assert Entries(Spelled(up), f.node) == left + e + right;
      assert Before(fs) == Before(up) + left && After(fs) == right + After(up) && up[0] == fs[0];
      hide *;
      Regroup(Before(up), left, e, right, After(up));
    }
  }

  lemma {:induction false} KeyposIsLength(fs: seq<Frame>)
    requires fs != [] && Linked(fs) && fs[0].keypos == 0
    ensures |Spelled(fs)| == Top(fs).keypos
    decreases |fs|
  {
    if |fs| > 1 {
      KeyposIsLength(Up(fs));
    }
  }

  lemma {:induction false} TopWellFormed(fs: seq<Frame>)
    requires fs != [] && Linked(fs) && WellFormed(fs[0].node)
    ensures WellFormed(Top(fs).node)
    ensures |fs| > 1 ==> Fits(Child(Top(Up(fs))))
    decreases |fs|
  {
    if |fs| > 1 {
      TopWellFormed(Up(fs));
    }
  }

  // ----- replacing the top

  function WithChild(f: Frame, n: Node): Node
    requires HasLink(f)
  {
    f.node.(branches := f.node.branches[f.link := Branch(Child(f).key, n)])
  }

  // The stack after its top node became n and every parent points to its new child.
  function Replug(fs: seq<Frame>, n: Node): (r: seq<Frame>)
    requires fs != [] && Linked(fs)
    ensures |r| == |fs|
  {
    if |fs| == 1 then [fs[0].(node := n)]
    else Replug(Up(fs), WithChild(Top(Up(fs)), n)) + [Top(fs).(node := n)]
  }

  lemma {:induction false} ReplugTop(fs: seq<Frame>, n: Node)
    requires fs != [] && Linked(fs)
    ensures Top(Replug(fs, n)) == Top(fs).(node := n)
    ensures |fs| > 1 ==> Up(Replug(fs, n)) == Replug(Up(fs), WithChild(Top(Up(fs)), n))
  {
    if |fs| > 1 {
      var up := Replug(Up(fs), WithChild(Top(Up(fs)), n));
      assert (up + [Top(fs).(node := n)])[..|up|] == up;
    }
  }

  lemma {:induction false} ReplugFrames(fs: seq<Frame>, n: Node)
    requires fs != [] && Linked(fs)
    ensures forall i :: 0 <= i < |fs| ==> Replug(fs, n)[i] == fs[i].(node := Replug(fs, n)[i].node)
    ensures Linked(Replug(fs, n))
    decreases |fs|
  {
    if |fs| > 1 {
      var f := Top(Up(fs));
      var up := Replug(Up(fs), WithChild(f, n));
      ReplugFrames(Up(fs), WithChild(f, n));
      ReplugTop(fs, n);
      ReplugTop(Up(fs), WithChild(f, n));
    }
  }

  // Replacing the top changes no other entry of the trie.
  lemma {:induction false} ReplugKeepsAround(fs: seq<Frame>, n: Node)
    requires fs != [] && Linked(fs) && Linked(Replug(fs, n))
    ensures Spelled(Replug(fs, n)) == Spelled(fs)
    ensures Before(Replug(fs, n)) == Before(fs) && After(Replug(fs, n)) == After(fs)
    decreases |fs|
  {
    if |fs| > 1 {
      var f := Top(Up(fs));
      var r := Replug(fs, n);
      ReplugTop(fs, n);
      ReplugFrames(Up(fs), WithChild(f, n));
      ReplugKeepsAround(Up(fs), WithChild(f, n));
      ReplugTop(Up(fs), WithChild(f, n));
      assert Top(Up(r)).node.compressed == f.node.compressed && Top(Up(r)).link == f.link;
      assert Top(Up(r)).node.branches[..f.link] == f.node.branches[..f.link];
      assert Top(Up(r)).node.branches[f.link + 1..] == f.node.branches[f.link + 1..];
    }
  }

  lemma {:induction false} ReplugEntries(fs: seq<Frame>, n: Node)
    requires fs != [] && Linked(fs)
    ensures Linked(Replug(fs, n)) && Spelled(Replug(fs, n)) == Spelled(fs)
    ensures Before(Replug(fs, n)) == Before(fs) && After(Replug(fs, n)) == After(fs)
    ensures Entries([], Replug(fs, n)[0].node) == Before(fs) + Entries(Spelled(fs), n) + After(fs)
  {
    ReplugFrames(fs, n);
    ReplugKeepsAround(fs, n);
    ReplugTop(fs, n);
    Zip(Replug(fs, n));
  }

  // A replaced child that still starts with its branch byte keeps the trie well formed.
  predicate FitsTop(fs: seq<Frame>, n: Node)
    requires fs != []
  {
    |fs| > 1 && HasLink(Top(Up(fs))) ==> Fits(Branch(Child(Top(Up(fs))).key, n))
  }

  lemma {:induction false} ReplugWellFormed(fs: seq<Frame>, n: Node)
    requires fs != [] && Linked(fs) && WellFormed(fs[0].node) && WellFormed(n) && FitsTop(fs, n)
    ensures WellFormed(Replug(fs, n)[0].node)
    decreases |fs|
  {
    if |fs| > 1 {
      var f := Top(Up(fs));
      TopWellFormed(Up(fs));
      var w := WithChild(f, n);
      assert forall i :: 0 <= i < |w.branches| ==> w.branches[i].key == f.node.branches[i].key;
      assert WellFormed(w);
      if |fs| > 2 {
        TopWellFormed(Up(fs));
        assert Stem(w) == Stem(f.node);
      }
      ReplugWellFormed(Up(fs), w);
      assert Replug(fs, n)[0] == Replug(Up(fs), w)[0];
    }
  }
}
