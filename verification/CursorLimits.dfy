// Inputs for which the cursor does not do what its callers may expect; the conditions in
// Cursors shut these out.

module CursorLimits {
  import opened Common
  import opened Prefix
  import opened Trie
  import opened Zipper
  import opened Search
  import opened Frames
  import opened Removal
  import opened Cursors
  import Insertion
  import opened CursorRuns

  lemma {:induction false} ShortSpelled(fs: seq<Frame>)
    requires fs != [] && Linked(fs)
    ensures |fs| == 1 ==> Spelled(fs) == []
    ensures |fs| == 2 ==> Spelled(fs) == fs[0].node.compressed && Parent(fs[0], fs[1])
  {
    if |fs| == 2 {
      assert Spelled(fs) == [] + fs[0].node.compressed;
    }
  }

  // The trie holds the key [1]. After the failed search for [1, 2], a search for [1] stops at
  // once with the old outcome: not found.
  method RepeatedSearchMissesKey(v: Bytes) returns (c: Cursor)
    ensures fresh(c) && c.Key() == [1] && [1] in Contents(c.root) && c.stack != [] && !Found(c.stack) && !c.Valid()
  {
    var n := Leaf([1], v);
    c := new Cursor(Some(n));
    LongerKeyEnds(v);
    EntriesSorted([], n);
    MapOfEntries(Entries([], n));
    assert Entries([], n) == [Entry([1], v)] by { assert [] + n.suffix == [1]; }
    assert Entry([1], v) in Entries([], n);
    c.Find([1, 2]);
    LocatedUnique(c.stack, [Frame(n, 0, 1, 1, 0, UNSET)], [1, 2]);
    ShortSpelled(c.stack);
    assert c.currentKey == [] + [1][..1] == [1];
    c.Find([1]);
  }

  lemma {:induction false} LongerKeyEnds(v: Bytes)
    ensures Located([Frame(Leaf([1], v), 0, 1, 1, 0, UNSET)], [1, 2])
  {
    var k: Bytes, l: Bytes := [1, 2], [1];
    assert k[..1] == l[..1] && k[0..] == k;
    CommonPrefixUnique(k, l, 1);
  }

  // Keys [1, 2, 5] and [1, 2, 9]; a search for [1, 2, 9] leaves branch_key 9 in the root frame.
  method FullKeySearch(v: Bytes, w: Bytes) returns (c: Cursor)
    ensures fresh(c) && c.Valid() && c.root == Some(TwoKeys(v, w)) && c.currentKey == [1, 2, 9] && c.restKey == []
    ensures |c.stack| == 2 && c.stack[0].node == TwoKeys(v, w) && c.stack[0].branchKey == 9 && c.stack[1].keypos == 2
  {
    hide WellFormed, Linked, Tracks, Ends, Before, After;
    var n := TwoKeys(v, w);
    c := new Cursor(Some(n));
    c.Find([1, 2, 9]);
    FullKeyEnds(v, w);
    LocatedUnique(c.stack, [Frame(n, 0, 2, 0, 9, 1), Frame(Leaf([9], w), 2, 1, 0, 0, UNSET)], [1, 2, 9]);
    assert Knows(c.stack[0]);
    ShortSpelled(c.stack);
    assert c.currentKey == [1, 2] + [9][..1] == [1, 2, 9];
  }

  // From there, the search for [1] starts from the root frame, which keeps its branch_key 9.
  method LongThenShortSearch(v: Bytes, w: Bytes) returns (c: Cursor)
    ensures fresh(c) && c.Valid() && c.root == Some(TwoKeys(v, w)) && c.currentKey == [1] && c.restKey == []
    ensures |c.stack| == 1 && c.stack[0] == Frame(TwoKeys(v, w), 0, 1, -1, 9, c.stack[0].link)
  {
    hide WellFormed, Linked, Tracks, Ends, Before, After;
    var n := TwoKeys(v, w);
    c := FullKeySearch(v, w);
    ShorterShares();
    assert StartsAt(c.stack, c.currentKey, [1], 0);
    c.Find([1]);
    ShortKeyEnds(v, w);
    LocatedUnique(c.stack, [Frame(n, 0, 1, -1, 9, UNSET)], [1]);
    ShortSpelled(c.stack);
    assert c.currentKey == [] + [1, 2][..1] == [1];
  }

  method StemAfterFullKey(v: Bytes, w: Bytes) returns (c: Cursor)
    ensures fresh(c) && c.Valid() && c.root == Some(TwoKeys(v, w)) && c.Key() == [1, 2]
    ensures |c.stack| == 1 && c.stack[0] == Frame(TwoKeys(v, w), 0, 2, -1, 9, c.stack[0].link)
  {
    hide WellFormed, Linked, Tracks, Ends, Before, After;
    c := FullKeySearch(v, w);
    StemShared();
    assert StartsAt(c.stack, c.currentKey, [1, 2], 0);
    c.Find([1, 2]);
    StemEnds(v, w);
    LocatedUnique(c.stack, [Frame(TwoKeys(v, w), 0, 2, -1, 9, UNSET)], [1, 2]);
  }

  // After a search for [1, 2, 9], the search for [1, 2] ends at the root frame, which keeps its
  // branch_key 9, and next passes over both keys behind [1, 2].
  method ShortFindLosesNext(v: Bytes, w: Bytes) returns (c: Cursor)
    ensures fresh(c) && Contents(c.root) == map[[1, 2, 5] := v, [1, 2, 9] := w]
    ensures NotGreater(Listing(c.root), [1, 2]) == [] && !Landed(c.root, c.stack, c.currentKey, [], |Listing(c.root)|)
  {
    hide WellFormed, Linked, Tracks, Ends, After, Contents, Listing, Landed, NotGreater, Located;
    c := StemAfterFullKey(v, w);
    TwoKeysEntries(v, w);
    PoisedOrOnEntry(c.root, c.stack, c.currentKey, c.restKey);
    BehindSearch(c.root, c.stack, [1, 2]);
    NextAfterSearch(c);
  }

  // Inserting [1] there splits the label, and next takes 9 for the branch of the new entry: it
  // passes over both keys behind it.
  method SplitAtKeyEndLosesNext(u: Bytes, v: Bytes, w: Bytes) returns (c: Cursor, at: seq<Frame>)
    ensures fresh(c) && Contents(c.root) == map[[1, 2, 5] := v, [1, 2, 9] := w][[1] := u]
    ensures OnEntry(c.root, at, [1]) && Listing(c.root) == Behind(at) + Ahead(at)
    ensures !Landed(c.root, c.stack, c.currentKey, Behind(at), |Ahead(at)|)
  {
    hide WellFormed, Contents, Listing, ToMap, Entries, BranchEntries, Linked, Tracks, Ends, Before, After, Behind, Ahead, TwoKeys, Landed;
    c := LongThenShortSearch(v, w);
    TwoKeysEntries(v, w);
    LabelOfTwo(v, w);
    assert SplitsAtKeyEnd(Top(c.stack), c.restKey) && !InsertGoesRight(c.stack, c.restKey);
    assert c.Key() == [1];
    var ok := c.Insert(u);
    at := c.stack;
    SidesOnEntry(c.root, at, [1]);
    c.Next();
  }

  lemma {:induction false} LabelOfTwo(v: Bytes, w: Bytes)
    ensures TwoKeys(v, w).Trie? && TwoKeys(v, w).compressed == [1, 2]
  {
  }

  lemma {:induction false} SidesOnEntry(root: Option<Node>, fs: seq<Frame>, current: Bytes)
    requires OnEntry(root, fs, current)
    ensures Listing(root) == Behind(fs) + Ahead(fs)
  {
    BehindAhead(fs);
  }

  function TwoKeys(v: Bytes, w: Bytes): (n: Node)
    ensures WellFormed(n)
  {
    var a, b := Leaf([5], v), Leaf([9], w);
    assert WellFormed(a) && WellFormed(b);
    Trie([1, 2], [Branch(5, a), Branch(9, b)])
  }

  lemma {:induction false} TwoKeysEntries(v: Bytes, w: Bytes)
    ensures Contents(Some(TwoKeys(v, w))) == map[[1, 2, 5] := v, [1, 2, 9] := w]
  {
    var n := TwoKeys(v, w);
    Insertion.TwoEntries([1, 2], n.branches[0], n.branches[1]);
    assert [] + n.compressed == [1, 2] && [1, 2] + [5] == [1, 2, 5] && [1, 2] + [9] == [1, 2, 9];
    hide Entries, BranchEntries, ToMap;
    TwoEntryMap(Entry([1, 2, 5], v), Entry([1, 2, 9], w));
  }

  lemma {:induction false} TwoEntryMap(x: Entry, y: Entry)
    ensures ToMap([x] + [y]) == map[x.key := x.value][y.key := y.value]
  {
    assert ([x] + [y])[..1] == [x] && [x][..0] == [];
    assert ToMap([x]) == map[][x.key := x.value];
  }

  lemma {:induction false} ThreeEntryMap(x: Entry, y: Entry, z: Entry)
    ensures ToMap([x] + ([y] + [z])) == map[x.key := x.value][y.key := y.value][z.key := z.value]
  {
    TwoEntryMap(x, y);
    assert ([x] + ([y] + [z]))[..2] == [x] + [y];
  }

  lemma {:induction false} FullKeyEnds(v: Bytes, w: Bytes)
    ensures Located([Frame(TwoKeys(v, w), 0, 2, 0, 9, 1), Frame(Leaf([9], w), 2, 1, 0, 0, UNSET)], [1, 2, 9])
  {
    var fs := [Frame(TwoKeys(v, w), 0, 2, 0, 9, 1), Frame(Leaf([9], w), 2, 1, 0, 0, UNSET)];
    var k: Bytes, l: Bytes := [1, 2, 9], [9];
    assert Up(fs) == [fs[0]];
    assert Parent(fs[0], fs[1]);
    ShortSpelled(fs);
    ShortSpelled(Up(fs));
    assert k[..2] == [1, 2] && k[2..] == l && k[0..] == k;
    CommonPrefixUnique(l, l, 1);
  }

  lemma {:induction false} ShorterShares()
    ensures CommonPrefix([1], [1, 2, 9]) == 1
  {
    var k: Bytes, l: Bytes := [1], [1, 2, 9];
    assert k[..1] == l[..1];
    CommonPrefixUnique(k, l, 1);
  }

  lemma {:induction false} StemShared()
    ensures CommonPrefix([1, 2], [1, 2, 9]) == 2
  {
    var k: Bytes, l: Bytes := [1, 2], [1, 2, 9];
    assert k[..2] == l[..2] == [1, 2];
    CommonPrefixUnique(k, l, 2);
  }

  lemma {:induction false} StemEnds(v: Bytes, w: Bytes)
    ensures Located([Frame(TwoKeys(v, w), 0, 2, -1, 9, UNSET)], [1, 2])
  {
    var k: Bytes := [1, 2];
    assert k[0..] == k && k[..2] == k;
    CommonPrefixUnique(k, k, 2);
  }

  lemma {:induction false} ShortKeyEnds(v: Bytes, w: Bytes)
    ensures Located([Frame(TwoKeys(v, w), 0, 1, -1, 9, UNSET)], [1])
  {
    var k: Bytes, l: Bytes := [1], [1, 2];
    assert k[..1] == l[..1] && k[0..] == k;
    CommonPrefixUnique(k, l, 1);
  }

  lemma {:induction false} MapTriple(m: map<Bytes, Bytes>, a: Bytes, b: Bytes, c: Bytes, u: Bytes, v: Bytes, w: Bytes)
    requires a != b && a != c && b != c && m == map[a := u, b := v, c := w]
    ensures m[a] == u && m[b] == v && m[c] == w && forall k :: k in m <==> k == a || k == b || k == c
    ensures m == map[b := v, c := w][a := u] && m - {a} == map[b := v, c := w]
  {
  }

  // The trie holds the empty key, [1] and [2] below a root without label. Removing the empty key
  // asks next to go on behind the root frame's branch_key, which the search never set: if the
  // slot holds 1 or more, next passes over the key [1].
  method RemovingEmptyKeySkips(u: Bytes, v: Bytes, w: Bytes) returns (c: Cursor, at: seq<Frame>)
    ensures fresh(c) && Contents(c.root) == map[[1] := v, [2] := w]
    ensures |at| == 2 && (at[0].branchKey >= 1 <==> !Landed(c.root, c.stack, c.currentKey, [], 2))
  {
    hide WellFormed, Contents, ToMap, Entries, BranchEntries, Linked, Tracks, Ends, Before, After, Skipped;
    var n := ThreeKeys(u, v, w);
    c := new Cursor(Some(n));
    c.Find([]);
    EmptyKeyEnds(u, v, w);
    at := c.stack;
    LocatedUnique(at, [Frame(n, 0, 0, 0, 0, 0), Frame(Leaf([], u), 0, 0, 0, 0, UNSET)], []);
    ShortSpelled(at);
    assert c.currentKey == [];
    ThreeKeysEntries(u, v, w);
    EmptyKeySkips(at, u, v, w);
    ghost var x: Bytes, y: Bytes, z: Bytes := [], [1], [2];
    assert x != y && x != z && y != z by { assert y[0] != z[0]; }
    MapTriple(map[x := u, y := v, z := w], x, y, z, u, v, w);
    var ok := c.Remove();
  }

  function ThreeKeys(u: Bytes, v: Bytes, w: Bytes): (n: Node)
    ensures WellFormed(n)
  {
    var a, b, c := Leaf([], u), Leaf([1], v), Leaf([2], w);
    assert WellFormed(a) && WellFormed(b) && WellFormed(c);
    Trie([], [Branch(NONE, a), Branch(1, b), Branch(2, c)])
  }

  lemma {:induction false} EmptyKeyEnds(u: Bytes, v: Bytes, w: Bytes)
    ensures Located([Frame(ThreeKeys(u, v, w), 0, 0, 0, 0, 0), Frame(Leaf([], u), 0, 0, 0, 0, UNSET)], [])
  {
    var fs := [Frame(ThreeKeys(u, v, w), 0, 0, 0, 0, 0), Frame(Leaf([], u), 0, 0, 0, 0, UNSET)];
    assert Up(fs) == [fs[0]];
    assert Parent(fs[0], fs[1]);
    ShortSpelled(fs);
    ShortSpelled(Up(fs));
  }

  lemma {:induction false} ThreeKeysEntries(u: Bytes, v: Bytes, w: Bytes)
    ensures Contents(Some(ThreeKeys(u, v, w))) == map[[] := u, [1] := v, [2] := w]
  {
    var bs := ThreeKeys(u, v, w).branches;
    assert bs == [bs[0]] + [bs[1], bs[2]];
    BranchEntriesConcat([], [bs[0]], [bs[1], bs[2]]);
    Insertion.OneEntries([], bs[0]);
    Insertion.TwoEntries([], bs[1], bs[2]);
    assert [] + [1] == [1] && [] + [2] == [2] && [] + ThreeKeys(u, v, w).compressed == [];
    hide Entries, BranchEntries, ToMap;
    ThreeEntryMap(Entry([], u), Entry([1], v), Entry([2], w));
  }

  lemma {:induction false} EmptyKeySkips(fs: seq<Frame>, u: Bytes, v: Bytes, w: Bytes)
    requires |fs| == 2 && Linked(fs) && fs[0].node == ThreeKeys(u, v, w) && fs[0].link == 0
    ensures Before(fs) == [] && |After(fs)| == 2
    ensures Skipped(fs) != [] <==> fs[0].branchKey >= 1
  {
    var n := fs[0].node;
    var bs := n.branches;
    ShortSpelled(fs);
    ShortSpelled(Up(fs));
    assert bs[1..] == [bs[1], bs[2]];
    Insertion.TwoEntries([], bs[1], bs[2]);
    assert After(fs) == Entries([], bs[1].node) + Entries([], bs[2].node) + [];
    WithoutAscending(bs, 0);
    var rest := Without(bs, 0);
    assert rest[0] == bs[1] && rest[1] == bs[2];
    var m := UpTo(rest, fs[0].branchKey);
    if fs[0].branchKey >= 1 {
      HasEntries([], rest[0].node);
      BranchEntriesAt([], rest[..m], 0);
    }
  }
}
