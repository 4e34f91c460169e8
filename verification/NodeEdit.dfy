// Adding and removing one branch key of a node.

module NodeEdit {
  import opened Common
  import opened Bits
  import opened NodeView

  function OpenAt<T>(s: seq<T>, i: nat, x: T): seq<T>
    requires i <= |s|
  {
    s[..i] + [x] + s[i..]
  }

  function CloseAt<T>(s: seq<T>, i: nat): seq<T>
    requires i < |s|
  {
    s[..i] + s[i + 1..]
  }

  function OneBit(b: nat): Bits
    requires b < 32
  {
    seq(32, i => i == b)
  }

  // The index of the lower bitmap of a key's group.
  function LowerIndex(v: View, key: Byte): (r: nat)
    requires Valid(v)
    ensures r <= |v.lowers| && (v.upper[UBit(key)] ==> r < |v.lowers| && v.lowers[r] == Lower(v, UBit(key)))
  {
    IndexMonotone(v.upper, UBit(key), 8);
    IndexAll(v.upper);
    LowerAt(v, UBit(key));
    Index(v.upper, UBit(key))
  }

  lemma {:induction false} LowerAt(v: View, g: nat)
    requires Valid(v) && g < 8
    ensures v.upper[g] ==> Index(v.upper, g) < |v.lowers| && v.lowers[Index(v.upper, g)] == Lower(v, g)
  {
    if v.upper[g] { IndexOfSet(v.upper, g); }
  }

  // What create and insert_branch make of a node; x is what the new slot holds.
  function Inserted(v: View, key: int, x: Link): View
    requires Valid(v) && NONE <= key < 256 && !IsSet(v, key)
  {
    if key == NONE then v.(none := true, links := [x] + v.links)
    else
      var g, i := UBit(key), LowerIndex(v, key);
      SlotInRange(v, key);
      var links := OpenAt(v.links, Slot(v, key), x);
      if v.upper[g] then v.(lowers := v.lowers[i := v.lowers[i][LBit(key) := true]], links := links)
      else v.(upper := v.upper[g := true], lowers := OpenAt(v.lowers, i, OneBit(LBit(key))), links := links)
  }

  // What create_remove makes of it.
  function Removed(v: View, key: int): View
    requires Valid(v) && NONE <= key < 256 && IsSet(v, key)
  {
    RankInRange(v, key);
    if key == NONE then v.(none := false, links := v.links[1..])
    else
      var g, i := UBit(key), LowerIndex(v, key);
      var l := v.lowers[i][LBit(key) := false];
      var links := CloseAt(v.links, Slot(v, key));
      if Count(l) == 0 then v.(upper := v.upper[g := false], lowers := CloseAt(v.lowers, i), links := links)
      else v.(lowers := v.lowers[i := l], links := links)
  }

  lemma {:induction false} SlotInRange(v: View, key: Byte)
    requires Valid(v)
    ensures Slot(v, key) <= |v.links|
  {
    SlotIsRank(v, key);
    LinksAreKeys(v);
    CountMonotone(v, key, 256);
  }

  // ----- sums

  lemma {:induction false} SumConcat(a: seq<Bits>, b: seq<Bits>)
    ensures Sum(a + b) == Sum(a) + Sum(b)
  {
    if b == [] {
      assert a + b == a;
    } else {
      SumConcat(a, b[..|b| - 1]);
      assert (a + b)[..|a + b| - 1] == a + b[..|b| - 1];
    }
  }

  lemma {:induction false} SumAround(ls: seq<Bits>, i: nat, l: Bits)
    requires i <= |ls|
    ensures Sum(OpenAt(ls, i, l)) == Sum(ls) + Count(l)
    ensures i < |ls| ==> Sum(ls[i := l]) == Sum(ls) - Count(ls[i]) + Count(l)
  {
    hide Sum;
    SumConcat(ls[..i], [l] + ls[i..]);
    SumConcat([l], ls[i..]);
    SumConcat(ls[..i], ls[i..]);
    assert ls == ls[..i] + ls[i..] && OpenAt(ls, i, l) == ls[..i] + ([l] + ls[i..]);
    SumOne(l);
    if i < |ls| {
      SumOne(ls[i]);
      SumConcat([ls[i]], ls[i + 1..]);
      SumConcat([l], ls[i + 1..]);
      SumConcat(ls[..i], [l] + ls[i + 1..]);
      assert ls[i..] == [ls[i]] + ls[i + 1..] && ls[i := l] == ls[..i] + ([l] + ls[i + 1..]);
    }
  }

  lemma {:induction false} SumOne(l: Bits)
    ensures Sum([l]) == Count(l)
  {
    assert [l][..0] == [];
  }

  lemma {:induction false} OneBitCount(b: nat)
    requires b < 32
    ensures Count(OneBit(b)) == 1
    ensures OneBit(b) == seq(32, _ => false)[b := true]
  {
    var z := seq(32, _ => false);
    assert OneBit(b) == z[b := true];
    CountZero(z);
    SetCount(z, b);
  }

  // ----- the node after an insertion

  ghost predicate Filled(ls: seq<Bits>) {
    forall i :: 0 <= i < |ls| ==> |ls[i]| == 32 && Count(ls[i]) > 0
  }

  lemma {:induction false} OpenFilled(ls: seq<Bits>, i: nat, l: Bits)
    requires Filled(ls) && i <= |ls| && |l| == 32 && Count(l) > 0
    ensures Filled(OpenAt(ls, i, l)) && (i < |ls| ==> Filled(ls[i := l]))
  {
    var o := OpenAt(ls, i, l);
    assert forall j :: 0 <= j < |o| ==> o[j] == if j < i then ls[j] else if j == i then l else ls[j - 1];
  }

  lemma {:induction false} InsertedValid(v: View, key: int, x: Link)
    requires Valid(v) && NONE <= key < 256 && !IsSet(v, key)
    ensures Valid(Inserted(v, key, x))
  {
    if key != NONE {
      if v.upper[UBit(key)] { PresentGroupValid(v, key, x); } else { NewGroupValid(v, key, x); }
    }
  }

  lemma {:induction false} PresentGroupValid(v: View, key: Byte, x: Link)
    requires Valid(v) && !IsSet(v, key) && v.upper[UBit(key)]
    ensures Valid(Inserted(v, key, x))
  {
    var i := LowerIndex(v, key);
    var l := v.lowers[i][LBit(key) := true];
    SlotInRange(v, key);
    SetCount(v.lowers[i], LBit(key));
    assert Filled(v.lowers);
    hide Count, Sum, IsSet, Slot, LowerIndex;
    OpenFilled(v.lowers, i, l);
    SumAround(v.lowers, i, l);
  }

  lemma {:induction false} NewGroupValid(v: View, key: Byte, x: Link)
    requires Valid(v) && !IsSet(v, key) && !v.upper[UBit(key)]
    ensures Valid(Inserted(v, key, x))
  {
    var i := LowerIndex(v, key);
    var l := OneBit(LBit(key));
    SlotInRange(v, key);
    assert Filled(v.lowers);
    hide Count, Sum, IsSet, Slot, LowerIndex;
    OneBitCount(LBit(key));
    SetCount(v.upper, UBit(key));
    OpenFilled(v.lowers, i, l);
    SumAround(v.lowers, i, l);
  }

  lemma {:induction false} InsertedGroup(v: View, key: Byte, x: Link, h: nat)
    requires Valid(v) && !IsSet(v, key) && h < 8 && Valid(Inserted(v, key, x))
    ensures Group(Inserted(v, key, x), h) == if h == UBit(key) then Group(v, h)[LBit(key) := true] else Group(v, h)
  {
    if v.upper[UBit(key)] { PresentGroup(v, key, x, h); } else { NewGroup(v, key, x, h); }
  }

  lemma {:induction false} PresentGroup(v: View, key: Byte, x: Link, h: nat)
    requires Valid(v) && !IsSet(v, key) && h < 8 && Valid(Inserted(v, key, x)) && v.upper[UBit(key)]
    ensures Group(Inserted(v, key, x), h) == if h == UBit(key) then Group(v, h)[LBit(key) := true] else Group(v, h)
  {
    var g, w := UBit(key), Inserted(v, key, x);
    SlotInRange(v, key);
    assert w.upper == v.upper && w.lowers == v.lowers[Index(v.upper, g) := Lower(v, g)[LBit(key) := true]];
    hide Count, Index, Slot, IsSet, Inserted;
    LowerAt(v, h);
    LowerAt(w, h);
    if v.upper[h] && h != g {
      RankApart(v.upper, g, h);
    }
  }

  lemma {:induction false} NewGroup(v: View, key: Byte, x: Link, h: nat)
    requires Valid(v) && !IsSet(v, key) && h < 8 && Valid(Inserted(v, key, x)) && !v.upper[UBit(key)]
    ensures Group(Inserted(v, key, x), h) == if h == UBit(key) then Group(v, h)[LBit(key) := true] else Group(v, h)
  {
    var g, w := UBit(key), Inserted(v, key, x);
    SlotInRange(v, key);
    var i := Index(v.upper, g);
    assert w.upper == v.upper[g := true] && w.lowers == OpenAt(v.lowers, i, OneBit(LBit(key)));
    hide Count, Index, Slot, IsSet, Inserted, OneBit;
    OneBitCount(LBit(key));
    LowerAt(v, h);
    LowerAt(w, h);
    SetIndex(v.upper, g, h);
    if h != g && v.upper[h] {
      RankApart(w.upper, g, h);
      SetIndex(v.upper, g, g);
    }
  }

  lemma {:induction false} RankApart(b: Bits, i: nat, j: nat)
    requires i < |b| && j < |b| && b[i] && b[j] && i != j
    ensures Index(b, i) != Index(b, j)
    ensures i < j <==> Index(b, i) < Index(b, j)
  {
    IndexStep(b, i);
    IndexStep(b, j);
    if i < j { IndexMonotone(b, i + 1, j); } else { IndexMonotone(b, j + 1, i); }
  }

  // Exactly the new key has been added.
  lemma {:induction false} InsertedKeys(v: View, key: int, x: Link, k: int)
    requires Valid(v) && NONE <= key < 256 && NONE <= k < 256 && !IsSet(v, key)
    ensures Valid(Inserted(v, key, x))
    ensures IsSet(Inserted(v, key, x), k) <==> IsSet(v, k) || k == key
  {
    InsertedValid(v, key, x);
    if k >= 0 {
      var w, g := Inserted(v, key, x), UBit(k);
      SetInGroup(v, k, g, LBit(k));
      SetInGroup(w, k, g, LBit(k));
      if key >= 0 {
        InsertedGroup(v, key, x, g);
      } else {
        assert Group(w, g) == Group(v, g);
      }
    }
  }

  lemma {:induction false} InsertedCount(v: View, key: int, x: Link, n: nat)
    requires Valid(v) && NONE <= key < 256 && !IsSet(v, key) && n <= 256
    ensures Valid(Inserted(v, key, x))
    ensures CountKeys(Inserted(v, key, x), n) == CountKeys(v, n) + One(0 <= key < n)
    decreases n
  {
    hide Valid, Inserted, IsSet;
    InsertedValid(v, key, x);
    if n > 0 {
      InsertedCount(v, key, x, n - 1);
      InsertedKeys(v, key, x, n - 1);
      assert CountKeys(Inserted(v, key, x), n) == CountKeys(Inserted(v, key, x), n - 1) + One(IsSet(Inserted(v, key, x), n - 1));
    }
  }

  lemma {:induction false} RankOfInserted(v: View, key: int, x: Link, k: int)
    requires Valid(v) && NONE <= key < 256 && NONE <= k < 256 && !IsSet(v, key)
    ensures Valid(Inserted(v, key, x))
    ensures Rank(Inserted(v, key, x), k) == Rank(v, k) + One(key < k)
  {
    InsertedValid(v, key, x);
    if k >= 0 { InsertedCount(v, key, x, k); }
  }

  // The links of all other keys stay with them, and the new slot is the new key's.
  lemma {:induction false} InsertedLinks(v: View, key: int, x: Link, k: int)
    requires Valid(v) && NONE <= key < 256 && NONE <= k < 256 && !IsSet(v, key) && (IsSet(v, k) || k == key)
    ensures Valid(Inserted(v, key, x)) && 0 <= ArrayIndex(Inserted(v, key, x), k) < |v.links| + 1 == |Inserted(v, key, x).links|
    ensures k == key ==> Inserted(v, key, x).links[ArrayIndex(Inserted(v, key, x), k)] == x
    ensures k != key ==> 0 <= ArrayIndex(v, k) < |v.links|
    ensures k != key ==> Inserted(v, key, x).links[ArrayIndex(Inserted(v, key, x), k)] == v.links[ArrayIndex(v, k)]
  {
    hide Valid, Inserted, IsSet, Rank, ArrayIndex;
    var w := Inserted(v, key, x);
    InsertedKeys(v, key, x, k);
    RankOfInserted(v, key, x, k);
    RankInRange(w, k);
    OpenedAtRank(v, key, x);
    if k != key {
      RankInRange(v, k);
      RanksApart(v, key, k);
    }
  }

  lemma {:induction false} OpenedAtRank(v: View, key: int, x: Link)
    requires Valid(v) && NONE <= key < 256 && !IsSet(v, key)
    ensures Rank(v, key) <= |v.links| && Inserted(v, key, x).links == OpenAt(v.links, Rank(v, key), x)
  {
    if key >= 0 {
      SlotIsRank(v, key);
      SlotInRange(v, key);
    }
  }

  lemma {:induction false} RanksApart(v: View, key: int, k: int)
    requires Valid(v) && NONE <= key < 256 && NONE <= k < 256 && IsSet(v, k) && k != key
    ensures k < key ==> Rank(v, k) < Rank(v, key)
    ensures key < k ==> Rank(v, key) <= Rank(v, k)
  {
    hide Valid;
    if k < key && k >= 0 { CountMonotone(v, k + 1, key); }
    if key < k && key >= 0 { CountMonotone(v, key, k); }
  }

  // create_remove of the same key restores the node.
  lemma {:induction false} RemovedInserted(v: View, key: int, x: Link)
    requires Valid(v) && NONE <= key < 256 && !IsSet(v, key)
    ensures Valid(Inserted(v, key, x)) && IsSet(Inserted(v, key, x), key)
    ensures Removed(Inserted(v, key, x), key) == v
  {
    InsertedKeys(v, key, x, key);
    if key == NONE {
      assert Inserted(v, key, x).links[1..] == v.links;
    } else {
      RestoredLinks(v, key, x);
      if v.upper[UBit(key)] { RestoredBit(v, key, x); } else { RestoredGroup(v, key, x); }
    }
  }

  lemma {:induction false} RestoredLinks(v: View, key: Byte, x: Link)
    requires Valid(v) && !IsSet(v, key)
    ensures Valid(Inserted(v, key, x)) && Slot(Inserted(v, key, x), key) == Slot(v, key) < |Inserted(v, key, x).links|
    ensures CloseAt(Inserted(v, key, x).links, Slot(v, key)) == v.links
  {
    hide Valid, Inserted, IsSet, Slot, CloseAt;
    RankOfInserted(v, key, x, key);
    SlotIsRank(v, key);
    SlotIsRank(Inserted(v, key, x), key);
    OpenedAtRank(v, key, x);
    ClosedOpened(v.links, Slot(v, key), x);
  }

  lemma {:induction false} RestoredBit(v: View, key: Byte, x: Link)
    requires Valid(v) && !IsSet(v, key) && v.upper[UBit(key)] && Valid(Inserted(v, key, x)) && IsSet(Inserted(v, key, x), key)
    ensures Removed(Inserted(v, key, x), key) == v
  {
    var w, i, b := Inserted(v, key, x), LowerIndex(v, key), LBit(key);
    RestoredLinks(v, key, x);
    hide Slot, Count, Sum;
    assert w.lowers[i][b := false] == v.lowers[i];
    assert w.lowers[i := v.lowers[i]] == v.lowers;
  }

  lemma {:induction false} RestoredGroup(v: View, key: Byte, x: Link)
    requires Valid(v) && !IsSet(v, key) && !v.upper[UBit(key)] && Valid(Inserted(v, key, x)) && IsSet(Inserted(v, key, x), key)
    ensures Removed(Inserted(v, key, x), key) == v
  {
    var w, g, i, b := Inserted(v, key, x), UBit(key), LowerIndex(v, key), LBit(key);
    RestoredLinks(v, key, x);
    SetIndex0(v.upper, g);
    OneBitCount(b);
    CountZero(OneBit(b)[b := false]);
    hide Slot, Sum;
    assert v.upper[g := true][g := false] == v.upper;
    ClosedOpened(v.lowers, i, OneBit(b));
  }

  lemma {:induction false} SetIndex0(b: Bits, i: nat)
    requires i < |b|
    ensures Index(b[i := true], i) == Index(b, i)
  {
    assert b[i := true][..i] == b[..i];
  }

  lemma {:induction false} ClosedOpened<T>(s: seq<T>, i: nat, x: T)
    requires i <= |s|
    ensures CloseAt(OpenAt(s, i, x), i) == s
  {
  }
}
