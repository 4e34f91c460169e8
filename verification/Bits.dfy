// Rank and select on bitmaps.

module Bits {

  type Bits = seq<bool>

  function Count(b: Bits): (r: nat)
    ensures r <= |b|
  {
    if b == [] then 0 else Count(b[..|b| - 1]) + if b[|b| - 1] then 1 else 0
  }

  // How many bits are set below position i.
  function Index(b: Bits, i: nat): (r: nat)
    requires i <= |b|
    ensures r <= i
  {
    Count(b[..i])
  }

  lemma {:induction false} IndexStep(b: Bits, i: nat)
    requires i < |b|
    ensures Index(b, i + 1) == Index(b, i) + if b[i] then 1 else 0
  {
    assert b[..i + 1][..i] == b[..i];
  }

  lemma {:induction false} IndexMonotone(b: Bits, i: nat, j: nat)
    requires i <= j <= |b|
    ensures Index(b, i) <= Index(b, j)
    decreases j
  {
    if i < j {
      IndexMonotone(b, i, j - 1);
      IndexStep(b, j - 1);
    }
  }

  lemma {:induction false} IndexAll(b: Bits)
    ensures Index(b, |b|) == Count(b)
  {
    assert b[..|b|] == b;
  }

  // A set bit has a rank below the count.
  lemma {:induction false} IndexOfSet(b: Bits, i: nat)
    requires i < |b| && b[i]
    ensures Index(b, i) < Count(b)
  {
    IndexStep(b, i);
    IndexMonotone(b, i + 1, |b|);
    IndexAll(b);
  }

  // Setting a clear bit shifts the ranks behind it by one.
  lemma {:induction false} SetIndex(b: Bits, i: nat, j: nat)
    requires i < |b| && !b[i] && j <= |b|
    ensures Index(b[i := true], j) == Index(b, j) + if i < j then 1 else 0
    decreases j
  {
    var c := b[i := true];
    if j > 0 {
      SetIndex(b, i, j - 1);
      IndexStep(b, j - 1);
      IndexStep(c, j - 1);
    }
  }

  lemma {:induction false} SetCount(b: Bits, i: nat)
    requires i < |b| && !b[i]
    ensures Count(b[i := true]) == Count(b) + 1
  {
    SetIndex(b, i, |b|);
    IndexAll(b);
    IndexAll(b[i := true]);
  }

  lemma {:induction false} CountZero(b: Bits)
    ensures Count(b) == 0 <==> forall i :: 0 <= i < |b| ==> !b[i]
  {
    if b != [] {
      CountZero(b[..|b| - 1]);
      assert forall i :: 0 <= i < |b| - 1 ==> b[..|b| - 1][i] == b[i];
    }
  }

  // The closest set bit above and below a position, or -1.
  function Next(b: Bits, i: int): (r: int)
    requires -1 <= i
    ensures r == -1 || (i < r < |b| && b[r])
    ensures forall j :: i < j < |b| && b[j] ==> r != -1 && r <= j
    decreases |b| - i
  {
    if i + 1 >= |b| then -1 else if b[i + 1] then i + 1 else Next(b, i + 1)
  }

  function Prev(b: Bits, i: nat): (r: int)
    requires i <= |b|
    ensures r == -1 || (0 <= r < i && b[r])
    ensures forall j :: 0 <= j < i && b[j] ==> r != -1 && j <= r
  {
    if i == 0 then -1 else if b[i - 1] then i - 1 else Prev(b, i - 1)
  }

  function First(b: Bits): (r: int)
    ensures r == -1 <==> Count(b) == 0
    ensures r == -1 || (0 <= r < |b| && b[r] && forall j :: 0 <= j < r ==> !b[j])
  {
    CountZero(b);
    Next(b, -1)
  }

  function Last(b: Bits): (r: int)
    ensures r == -1 <==> Count(b) == 0
    ensures r == -1 || (0 <= r < |b| && b[r] && forall j :: r < j < |b| ==> !b[j])
  {
    CountZero(b);
    Prev(b, |b|)
  }
}
