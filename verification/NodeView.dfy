// A trie node's bitmaps and link array, and the sorted map from branch keys to links they encode.

module NodeView {
  import opened Common
  import opened Bits

  type Bytes = seq<Byte>
  type Link = nat

  const OUT_OF_RANGE := -2

  // upper says which groups of 32 keys are present, lowers holds one bitmap for each of them.
  datatype View = View(compressed: Bytes, none: bool, upper: Bits, lowers: seq<Bits>, links: seq<Link>)

  function Sum(ls: seq<Bits>): (r: nat) {
    if ls == [] then 0 else Sum(ls[..|ls| - 1]) + Count(ls[|ls| - 1])
  }

  function One(b: bool): nat {
    if b then 1 else 0
  }

  ghost predicate Valid(v: View) {
    && |v.compressed| <= 255
    && |v.upper| == 8 && |v.lowers| == Count(v.upper)
    && (forall i :: 0 <= i < |v.lowers| ==> |v.lowers[i]| == 32 && Count(v.lowers[i]) > 0)
    && |v.links| == One(v.none) + Sum(v.lowers)
  }

  function UBit(key: Byte): (r: nat)
    ensures r < 8 && r * 32 <= key < (r + 1) * 32
  {
    key / 32
  }

  function LBit(key: Byte): (r: nat)
    ensures r < 32 && key == UBit(key) * 32 + r
  {
    key % 32
  }

  function Lower(v: View, g: nat): (r: Bits)
    requires Valid(v) && g < 8 && v.upper[g]
    ensures |r| == 32 && Count(r) > 0
  {
    IndexOfSet(v.upper, g);
    v.lowers[Index(v.upper, g)]
  }

  lemma {:induction false} GroupOf(k: Byte, g: nat, b: nat)
    requires g < 8 && b < 32 && k == g * 32 + b
    ensures UBit(k) == g && LBit(k) == b
  {
  }

  // ----- membership, rank, neighbours, as the code computes them

  predicate IsSet(v: View, key: int)
    requires Valid(v) && NONE <= key < 256
  {
    if key == NONE then v.none else v.upper[UBit(key)] && Lower(v, UBit(key))[LBit(key)]
  }

  // The array index a key has or would get.
  function Slot(v: View, key: Byte): nat
    requires Valid(v)
  {
    var lidx := Index(v.upper, UBit(key));
    IndexMonotone(v.upper, UBit(key), 8);
    IndexAll(v.upper);
    One(v.none) + Sum(v.lowers[..lidx]) + if v.upper[UBit(key)] then Index(Lower(v, UBit(key)), LBit(key)) else 0
  }

  function ArrayIndex(v: View, key: int): int
    requires Valid(v) && NONE <= key < 256
  {
    if key == NONE then (if v.none then 0 else -1)
    else if IsSet(v, key) then Slot(v, key) else -1
  }

  function NextLower(v: View, key: Byte): int
    requires Valid(v)
  {
    var g := Next(v.upper, UBit(key));
    if g < 0 then OUT_OF_RANGE else g * 32 + First(Lower(v, g))
  }

  function NextKey(v: View, key: int): int
    requires Valid(v) && NONE <= key < 256
  {
    if key == NONE then
      var g := First(v.upper);
      if g < 0 then OUT_OF_RANGE else g * 32 + First(Lower(v, g))
    else if !v.upper[UBit(key)] then NextLower(v, key)
    else
      var b := Next(Lower(v, UBit(key)), LBit(key));
      if b < 0 then NextLower(v, key) else UBit(key) * 32 + b
  }

  function PrevLower(v: View, key: Byte): int
    requires Valid(v)
  {
    var g := Prev(v.upper, UBit(key));
    if g < 0 then (if v.none then NONE else OUT_OF_RANGE) else g * 32 + Last(Lower(v, g))
  }

  function PrevKey(v: View, key: int): int
    requires Valid(v) && NONE <= key < 256
  {
    if key == NONE then OUT_OF_RANGE
    else if !v.upper[UBit(key)] then PrevLower(v, key)
    else
      var b := Prev(Lower(v, UBit(key)), LBit(key));
      if b < 0 then PrevLower(v, key) else UBit(key) * 32 + b
  }

  // ----- rank

  // How many byte keys below n are present.
  ghost function CountKeys(v: View, n: nat): (r: nat)
    requires Valid(v) && n <= 256
    ensures r <= n
  {
    if n == 0 then 0 else CountKeys(v, n - 1) + One(IsSet(v, n - 1))
  }

  ghost function Rank(v: View, key: int): nat
    requires Valid(v) && NONE <= key < 256
  {
    if key == NONE then 0 else One(v.none) + CountKeys(v, key)
  }

  // The 32 bits of a group, whether it is present or not.
  ghost function Group(v: View, g: nat): (r: Bits)
    requires Valid(v) && g < 8
    ensures |r| == 32
  {
    if v.upper[g] then Lower(v, g) else seq(32, _ => false)
  }

  lemma {:induction false} SetInGroup(v: View, k: Byte, g: nat, b: nat)
    requires Valid(v) && g < 8 && b < 32 && k == g * 32 + b
    ensures IsSet(v, k) == Group(v, g)[b]
  {
    GroupOf(k, g, b);
  }

  lemma {:induction false} CountInGroup(v: View, g: nat, b: nat)
    requires Valid(v) && g < 8 && b <= 32
    ensures CountKeys(v, g * 32 + b) == CountKeys(v, g * 32) + Index(Group(v, g), b)
    decreases b
  {
    hide Valid, Group, Count, IsSet;
    if b == 0 {
      IndexNone(Group(v, g));
    } else {
      CountInGroup(v, g, b - 1);
      SetInGroup(v, g * 32 + b - 1, g, b - 1);
      IndexStep(Group(v, g), b - 1);
    }
  }

  lemma {:induction false} IndexNone(b: Bits)
    ensures Index(b, 0) == 0
  {
    assert b[..0] == [];
  }

  lemma {:induction false} GroupCount(v: View, g: nat)
    requires Valid(v) && g < 8
    ensures Index(v.upper, g) <= |v.lowers|
    ensures v.upper[g] ==> Index(v.upper, g) < |v.lowers| && Count(v.lowers[Index(v.upper, g)]) == Index(Group(v, g), 32)
    ensures !v.upper[g] ==> Index(Group(v, g), 32) == 0
    ensures Index(v.upper, g + 1) == Index(v.upper, g) + One(v.upper[g])
  {
    IndexMonotone(v.upper, g, 8);
    IndexAll(v.upper);
    IndexStep(v.upper, g);
    if v.upper[g] {
      IndexOfSet(v.upper, g);
    } else {
      CountZero(Group(v, g));
    }
    IndexAll(Group(v, g));
  }

  lemma {:induction false} SumStep(ls: seq<Bits>, i: nat)
    requires i < |ls|
    ensures Sum(ls[..i + 1]) == Sum(ls[..i]) + Count(ls[i])
  {
    assert ls[..i + 1][..i] == ls[..i];
  }

  lemma {:induction false} CountOfGroups(v: View, g: nat)
    requires Valid(v) && g <= 8
    ensures |v.upper| == 8 && Index(v.upper, g) <= |v.lowers|
    ensures CountKeys(v, g * 32) == Sum(v.lowers[..Index(v.upper, g)])
    decreases g
  {
    if g == 0 {
      IndexNone(v.upper);
    } else {
      var h := g - 1;
      CountOfGroups(v, h);
      CountInGroup(v, h, 32);
      GroupCount(v, h);
      var i := Index(v.upper, h);
      assert h + 1 == g && h * 32 + 32 == g * 32;
      hide Valid, Group, Count, IsSet, Index, CountKeys, Sum;
      if v.upper[h] {
        SumStep(v.lowers, i);
        assert Index(v.upper, g) == i + 1;
      } else {
        assert Index(v.upper, g) == i;
      }
    }
  }

  // The index computed from the bitmaps is the rank of the key.
  lemma {:induction false} SlotIsRank(v: View, key: Byte)
    requires Valid(v)
    ensures Slot(v, key) == Rank(v, key)
  {
    hide Valid, Count, IsSet, Index, CountKeys, Sum, Lower;
    var g, b := UBit(key), LBit(key);
    CountOfGroups(v, g);
    CountInGroup(v, g, b);
    AbsentGroup(v, g, b);
    assert g * 32 + b == key;
    if v.upper[g] { assert Group(v, g) == Lower(v, g); }
  }

  lemma {:induction false} AbsentGroup(v: View, g: nat, b: nat)
    requires Valid(v) && g < 8 && b <= 32
    ensures !v.upper[g] ==> Index(Group(v, g), b) == 0
  {
    if !v.upper[g] {
      GroupCount(v, g);
      IndexMonotone(Group(v, g), b, 32);
    }
  }

  lemma {:induction false} CountMonotone(v: View, m: nat, n: nat)
    requires Valid(v) && m <= n <= 256
    ensures CountKeys(v, m) <= CountKeys(v, n)
    decreases n
  {
    if m < n { CountMonotone(v, m, n - 1); }
  }

  // Present keys take the slots 0 .. count - 1 in ascending order, NONE first.
  lemma {:induction false} RankOrder(v: View, a: int, b: int)
    requires Valid(v) && NONE <= a < b < 256 && IsSet(v, a) && IsSet(v, b)
    ensures 0 <= ArrayIndex(v, a) < ArrayIndex(v, b) < |v.links|
  {
    hide Valid, ArrayIndex, Lower, Slot;
    RankInRange(v, b);
    RankInRange(v, a);
    if a >= 0 {
      hide IsSet;
      CountMonotone(v, a + 1, b);
    }
  }

  // One link for each present key.
  lemma {:induction false} LinksAreKeys(v: View)
    requires Valid(v)
    ensures |v.links| == One(v.none) + CountKeys(v, 256)
  {
    CountOfGroups(v, 8);
    IndexAll(v.upper);
    assert v.lowers[..|v.lowers|] == v.lowers;
  }

  lemma {:induction false} RankInRange(v: View, key: int)
    requires Valid(v) && NONE <= key < 256 && IsSet(v, key)
    ensures 0 <= ArrayIndex(v, key) == Rank(v, key) < |v.links|
  {
    LinksAreKeys(v);
    hide Valid, Lower, Slot;
    if key >= 0 {
      SlotIsRank(v, key);
      CountMonotone(v, key + 1, 256);
    }
  }

  // ----- neighbours

  lemma {:induction false} FirstInGroup(v: View, g: nat)
    requires Valid(v) && g < 8 && v.upper[g]
    ensures var k := g * 32 + First(Lower(v, g)); 0 <= k < 256 && IsSet(v, k)
    ensures forall j :: g * 32 <= j < g * 32 + First(Lower(v, g)) ==> !IsSet(v, j)
  {
    IndexOfSet(v.upper, g);
    var f := First(Lower(v, g));
    GroupOf(g * 32 + f, g, f);
    forall j | g * 32 <= j < g * 32 + f
      ensures !IsSet(v, j)
    {
      GroupOf(j, g, j - g * 32);
    }
  }

  lemma {:induction false} LastInGroup(v: View, g: nat)
    requires Valid(v) && g < 8 && v.upper[g]
    ensures var k := g * 32 + Last(Lower(v, g)); 0 <= k < 256 && IsSet(v, k)
    ensures forall j :: g * 32 + Last(Lower(v, g)) < j < (g + 1) * 32 ==> !IsSet(v, j)
  {
    IndexOfSet(v.upper, g);
    var f := Last(Lower(v, g));
    GroupOf(g * 32 + f, g, f);
    forall j | g * 32 + f < j < (g + 1) * 32
      ensures !IsSet(v, j)
    {
      GroupOf(j, g, j - g * 32);
    }
  }

  lemma {:induction false} NextLowerIs(v: View, key: Byte)
    requires Valid(v)
    ensures NextLower(v, key) == OUT_OF_RANGE ==> forall j :: (UBit(key) + 1) * 32 <= j < 256 ==> !IsSet(v, j)
    ensures NextLower(v, key) != OUT_OF_RANGE ==>
      && key < NextLower(v, key) < 256 && IsSet(v, NextLower(v, key))
      && forall j :: (UBit(key) + 1) * 32 <= j < NextLower(v, key) ==> !IsSet(v, j)
  {
    var g := Next(v.upper, UBit(key));
    if g >= 0 {
      FirstInGroup(v, g);
    }
    forall j | (UBit(key) + 1) * 32 <= j < if g < 0 then 256 else g * 32
      ensures !IsSet(v, j)
    {
      assert UBit(key) < UBit(j);
    }
  }

  // next finds the closest present key above any byte or NONE.
  lemma {:induction false} NextIsSuccessor(v: View, key: int)
    requires Valid(v) && NONE <= key < 256
    ensures NextKey(v, key) == OUT_OF_RANGE ==> forall j :: key < j < 256 ==> !IsSet(v, j)
    ensures NextKey(v, key) != OUT_OF_RANGE ==>
      key < NextKey(v, key) < 256 && IsSet(v, NextKey(v, key)) && forall j :: key < j < NextKey(v, key) ==> !IsSet(v, j)
  {
    if key == NONE {
      NextOfNone(v);
    } else if v.upper[UBit(key)] {
      NextInGroup(v, key);
    } else {
      NextLowerIs(v, key);
      forall j | key < j < (UBit(key) + 1) * 32
        ensures !IsSet(v, j)
      {
        assert UBit(j) == UBit(key);
      }
    }
  }

  lemma {:induction false} NextOfNone(v: View)
    requires Valid(v)
    ensures NextKey(v, NONE) == OUT_OF_RANGE ==> forall j :: NONE < j < 256 ==> !IsSet(v, j)
    ensures NextKey(v, NONE) != OUT_OF_RANGE ==>
      0 <= NextKey(v, NONE) < 256 && IsSet(v, NextKey(v, NONE)) && forall j :: NONE < j < NextKey(v, NONE) ==> !IsSet(v, j)
  {
    var g := First(v.upper);
    CountZero(v.upper);
    if g >= 0 { FirstInGroup(v, g); }
    forall j | NONE < j < if g < 0 then 256 else g * 32
      ensures !IsSet(v, j)
    {
      assert !v.upper[UBit(j)];
    }
  }

  lemma {:induction false} NextInGroup(v: View, key: Byte)
    requires Valid(v) && v.upper[UBit(key)]
    ensures NextKey(v, key) == OUT_OF_RANGE ==> forall j :: key < j < 256 ==> !IsSet(v, j)
    ensures NextKey(v, key) != OUT_OF_RANGE ==>
      key < NextKey(v, key) < 256 && IsSet(v, NextKey(v, key)) && forall j :: key < j < NextKey(v, key) ==> !IsSet(v, j)
  {
    var g := UBit(key);
    var b := Next(Lower(v, g), LBit(key));
    NextLowerIs(v, key);
    hide Valid, Lower, Count;
    if b >= 0 { SetInGroup(v, g * 32 + b, g, b); }
    forall j | key < j < if b < 0 then (g + 1) * 32 else g * 32 + b
      ensures !IsSet(v, j)
    {
      SetInGroup(v, j, g, j - g * 32);
    }
  }

  lemma {:induction false} PrevLowerIs(v: View, key: Byte)
    requires Valid(v)
    ensures PrevLower(v, key) == OUT_OF_RANGE ==> !v.none
    ensures PrevLower(v, key) == OUT_OF_RANGE || PrevLower(v, key) == NONE ==> forall j :: 0 <= j < UBit(key) * 32 ==> !IsSet(v, j)
    ensures PrevLower(v, key) != OUT_OF_RANGE ==>
      && NONE <= PrevLower(v, key) < key && IsSet(v, PrevLower(v, key))
      && forall j :: PrevLower(v, key) < j < UBit(key) * 32 ==> !IsSet(v, j)
  {
    var g := Prev(v.upper, UBit(key));
    if g >= 0 {
      LastInGroup(v, g);
    }
    forall j | (if g < 0 then 0 else (g + 1) * 32) <= j < UBit(key) * 32
      ensures !IsSet(v, j)
    {
      assert UBit(j) < UBit(key);
    }
  }

  // prev finds the closest present key below any byte.
  lemma {:induction false} PrevIsPredecessor(v: View, key: int)
    requires Valid(v) && NONE <= key < 256
    ensures PrevKey(v, key) == OUT_OF_RANGE ==> forall j :: NONE <= j < key ==> !IsSet(v, j)
    ensures PrevKey(v, key) != OUT_OF_RANGE ==>
      NONE <= PrevKey(v, key) < key && IsSet(v, PrevKey(v, key)) && forall j :: PrevKey(v, key) < j < key ==> !IsSet(v, j)
  {
    if key != NONE {
      PrevLowerIs(v, key);
      var g := UBit(key);
      if !v.upper[g] {
        forall j | g * 32 <= j < key
          ensures !IsSet(v, j)
        {
          assert UBit(j) == g;
        }
      } else {
        IndexOfSet(v.upper, g);
        var b := Prev(Lower(v, g), LBit(key));
        if b >= 0 { GroupOf(g * 32 + b, g, b); }
        forall j | (if b < 0 then g * 32 else g * 32 + b + 1) <= j < key
          ensures !IsSet(v, j)
        {
          GroupOf(j, g, j - g * 32);
        }
      }
    }
  }
}
