// Several cursor operations in a row.

module CursorRuns {
  import opened Common
  import opened Prefix
  import opened Trie
  import opened Zipper
  import opened Search
  import opened Frames
  import opened Cursors
  import opened Removal

  // The entries up to the first one with a greater key.
  ghost function NotGreater(es: seq<Entry>, key: Bytes): (r: seq<Entry>)
    ensures r <= es && forall i :: 0 <= i < |r| ==> !Less(key, r[i].key)
    ensures |r| < |es| ==> Less(key, es[|r|].key)
  {
    if es == [] || Less(key, es[0].key) then []
    else
      var r := NotGreater(es[1..], key);
      assert ([es[0]] + r)[..|r| + 1] == [es[0]] + r && es[..|r| + 1] == [es[0]] + es[1..][..|r|];
      [es[0]] + r
  }

  // Where a search has stopped, next goes on at the first greater key.
  predicate GoesGreater(fs: seq<Frame>)
    requires fs != []
  {
    GoesRight(fs) && (Oriented(Top(fs)) || (Top(fs).node.branches != [] && Top(fs).branchKey < Top(fs).node.branches[0].key))
  }

  lemma {:induction false} NotGreaterIs(a: seq<Entry>, b: seq<Entry>, key: Bytes)
    requires (forall i :: 0 <= i < |a| ==> !Less(key, a[i].key)) && AllGreater(b, key)
    ensures NotGreater(a + b, key) == a
  {
    var es, r := a + b, NotGreater(a + b, key);
    assert forall i :: 0 <= i < |a| ==> es[i] == a[i];
    assert b != [] ==> es[|a|] == b[0];
    assert forall i :: 0 <= i < |r| ==> r[i] == es[i];
    assert r == es[..|r|];
  }

  lemma {:induction false} LessNotBack(es: seq<Entry>, key: Bytes)
    requires AllLess(es, key)
    ensures forall i :: 0 <= i < |es| ==> !Less(key, es[i].key)
  {
    forall i | 0 <= i < |es|
      ensures !Less(key, es[i].key)
    {
      if Less(key, es[i].key) {
        LessTransitive(key, es[i].key, key);
        LessIrreflexive(key);
      }
    }
  }

  // A finished search: behind the cursor is what is not greater than the key, unless the key ended
  // at a node without NONE branch whose branch_key is not below the first branch.
  lemma {:induction false} BehindSearch(root: Option<Node>, fs: seq<Frame>, key: Bytes)
    requires Anchored(root, fs) && Located(fs, key) && WellFormed(Top(fs).node)
    ensures Oriented(Top(fs)) ==> Behind(fs) == NotGreater(Listing(root), key)
    ensures !Oriented(Top(fs)) ==> Before(fs) == NotGreater(Listing(root), key)
  {
    hide Linked, Spelled, Before, After, Done, Todo, Entries, BranchEntries, WellFormed, Located, Tracks, Ends, Less, NotGreater;
    BehindAhead(fs);
    Zip(fs);
    if Oriented(Top(fs)) {
      SearchSides(fs, key);
      LessNotBack(Earlier(fs), key);
      LessIrreflexive(key);
      NotGreaterIs(Behind(fs), Ahead(fs), key);
    } else {
      ExhaustedSides(fs, key);
      LessNotBack(Before(fs), key);
      Assoc(Before(fs), Entries(Spelled(fs), Top(fs).node), After(fs));
      NotGreaterIs(Before(fs), Entries(Spelled(fs), Top(fs).node) + After(fs), key);
    }
  }

  // There next starts behind the branches up to the branch_key.
  lemma {:induction false} BehindExhausted(root: Option<Node>, fs: seq<Frame>, key: Bytes)
    requires Anchored(root, fs) && Located(fs, key) && WellFormed(Top(fs).node) && !Oriented(Top(fs))
    ensures Top(fs).node.branches != []
    ensures Top(fs).branchKey < Top(fs).node.branches[0].key <==> |Behind(fs)| == |Before(fs)|
    ensures Behind(fs)[..|Before(fs)|] == Before(fs)
  {
    var f, q := Top(fs), Spelled(fs) + Top(fs).node.compressed;
    var bs := f.node.branches;
    ChildrenWellFormed(f.node);
    BranchCount(q, bs, DoneBranches(f), 0);
    DoneTodoParts(Spelled(fs), f);
    NoEntries(q, bs);
  }

  // next after find lands on the first entry with a greater key, exactly when the place the search
  // stopped at says so.
  method FindThenNext(c: Cursor, key: Bytes) returns (at: seq<Frame>)
    requires c.Valid() && c.root.Some? && SearchesAnew(c.stack, c.currentKey, c.restKey, key)
    modifies c`stack, c`currentKey, c`restKey
    ensures at != [] && Located(at, key) && at[0].node == c.root.value
    ensures var left := NotGreater(Listing(c.root), key);
      GoesGreater(at) <==> Landed(c.root, c.stack, c.currentKey, left, |Listing(c.root)| - |left|)
  {
    hide WellFormed, Linked, Tracks, Ends, GoesGreater, NotGreater, Listing, Landed, SearchesAnew;
    c.Find(key);
    at := c.stack;
    NextAfterSearch(c);
  }

  // The second half, from wherever a search has stopped.
  method NextAfterSearch(c: Cursor)
    requires c.Valid() && c.root.Some? && c.stack != []
    modifies c`stack, c`currentKey, c`restKey
    ensures var left := NotGreater(Listing(c.root), old(c.Key()));
      old(GoesGreater(c.stack)) <==> Landed(c.root, c.stack, c.currentKey, left, |Listing(c.root)| - |left|)
  {
    hide WellFormed, BranchEntries, Entries, Spelled, Linked, Before, After, Knows, Marked, Done, Todo, RightOfLink, Tracks, Ends, NotGreater;
    ghost var at := c.stack;
    PoisedOrOnEntry(c.root, at, c.currentKey, c.restKey);
    BehindSearch(c.root, at, c.Key());
    BehindAhead(at);
    if !Oriented(Top(at)) {
      BehindExhausted(c.root, at, c.Key());
      ExhaustedSteady(c.root, at, c.currentKey, c.restKey);
    }
    c.Next();
  }

  lemma {:induction false} ExhaustedSteady(root: Option<Node>, fs: seq<Frame>, current: Bytes, rest: Bytes)
    requires fs != [] && Consistent(root, fs, current, rest) && !Oriented(Top(fs))
    ensures GoesRight(fs)
  {
    MissingSteady(root, fs, current, rest);
    SteadyUp(fs);
  }

  // Whatever came before, next and prev can go on.
  lemma {:induction false} PoisedOrOnEntry(root: Option<Node>, fs: seq<Frame>, current: Bytes, rest: Bytes)
    requires fs != [] && Consistent(root, fs, current, rest)
    ensures Poised(root, fs, current) || OnEntry(root, fs, current)
    ensures Anchored(root, fs) && WellFormed(Top(fs).node)
  {
    if Found(fs) {
      FoundComplete(root, fs, current, rest);
    } else {
      MissingSteady(root, fs, current, rest);
      ConsistentPoised(root, fs, current, rest);
    }
  }

  // A search from where the cursor is ends like one from the root.
  method FindAgrees(c: Cursor, key: Bytes) returns (d: Cursor)
    requires c.Valid() && c.root.Some? && SearchesAnew(c.stack, c.currentKey, c.restKey, key)
    modifies c`stack, c`currentKey, c`restKey
    ensures fresh(d) && d.root == c.root && SamePath(c.stack, d.stack)
    ensures c.currentKey == d.currentKey && c.restKey == d.restKey && c.currentKey + c.restKey == key
    ensures Found(c.stack) <==> key in Contents(c.root)
  {
    d := new Cursor(c.root);
    d.Find(key);
    c.Find(key);
    ResumedIsFresh(c.root, c.stack, c.currentKey, c.restKey, d.stack, d.currentKey, d.restKey);
    FoundIffPresent(c.stack, key);
    MapOfListing(c.root, key);
  }

  lemma {:induction false} MapOfListing(root: Option<Node>, key: Bytes)
    requires root.Some? && WellFormed(root.value)
    ensures key in Contents(root) <==> exists e :: e in Entries([], root.value) && e.key == key
  {
    var es := Entries([], root.value);
    EntriesSorted([], root.value);
    MapOfEntries(es);
    assert key in ToMap(es) ==> Entry(key, ToMap(es)[key]) in es;
  }
}
