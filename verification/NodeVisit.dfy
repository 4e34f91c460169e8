// for_each_branch: one scan over the bitmaps, in key order, with the array index running along.

module NodeVisit {
  import opened Common
  import opened Bits
  import opened NodeView

  datatype Visit = Visit(key: int, index: nat)

  // The first visits are those of the keys below n, each with its own array index.
  ghost predicate Visited(v: View, vs: seq<Visit>, n: nat)
    requires Valid(v) && n <= 256
  {
    && |vs| == One(v.none) + CountKeys(v, n)
    && forall i :: 0 <= i < |vs| ==> Own(v, vs[i], i)
  }

  ghost predicate Own(v: View, x: Visit, i: nat)
    requires Valid(v)
  {
    NONE <= x.key < 256 && IsSet(v, x.key) && x.index == i == ArrayIndex(v, x.key)
  }

  lemma {:induction false} NoKeysBetween(v: View, m: nat, n: nat)
    requires Valid(v) && m <= n <= 256 && forall k :: m <= k < n ==> !IsSet(v, k)
    ensures CountKeys(v, m) == CountKeys(v, n)
    decreases n
  {
    if m < n { NoKeysBetween(v, m, n - 1); }
  }

  method ForEachBranch(v: View) returns (vs: seq<Visit>)
    requires Valid(v)
    ensures |vs| == |v.links|
    ensures forall i :: 0 <= i < |vs| ==> Own(v, vs[i], i)
    ensures forall i, j :: 0 <= i < j < |vs| ==> vs[i].key < vs[j].key
    ensures forall k :: NONE <= k < 256 && IsSet(v, k) ==> exists i :: 0 <= i < |vs| && vs[i].key == k
  {
    hide Valid, Visited, NoKeys;
    vs := NoneVisit(v);
    var n := 0;
    var g := Next(v.upper, -1);
    NextGroup(v, -1);
    while g >= 0
      invariant g == -1 || (0 <= g < 8 && v.upper[g] && n <= g * 32)
      invariant 0 <= n <= 256 && Visited(v, vs, n)
      invariant NoKeys(v, n, if g < 0 then 256 else g * 32)
      decreases if g < 0 then 0 else 9 - g
    {
      vs := VisitNext(v, vs, n, g);
      n := g * 32 + 32;
      NextGroup(v, g);
      g := Next(v.upper, g);
    }
    Finish(v, vs, n);
  }

  ghost predicate NoKeys(v: View, m: int, n: int)
    requires Valid(v) && 0 <= m && n <= 256
  {
    forall k :: m <= k < n ==> !IsSet(v, k)
  }

  lemma {:induction false} Finish(v: View, vs: seq<Visit>, n: nat)
    requires Valid(v) && n <= 256 && Visited(v, vs, n) && NoKeys(v, n, 256)
    ensures |vs| == |v.links|
    ensures forall i :: 0 <= i < |vs| ==> Own(v, vs[i], i)
    ensures forall i, j :: 0 <= i < j < |vs| ==> vs[i].key < vs[j].key
    ensures forall k :: NONE <= k < 256 && IsSet(v, k) ==> exists i :: 0 <= i < |vs| && vs[i].key == k
  {
    NoKeysBetween(v, n, 256);
    LinksAreKeys(v);
    InOrder(v, vs);
  }

  method VisitNext(v: View, before: seq<Visit>, n: nat, g: nat) returns (vs: seq<Visit>)
    requires Valid(v) && g < 8 && v.upper[g] && n <= g * 32 && Visited(v, before, n) && NoKeys(v, n, g * 32)
    ensures Visited(v, vs, g * 32 + 32)
  {
    NoKeysBetween(v, n, g * 32);
    vs := VisitGroup(v, before, g);
  }

  method NoneVisit(v: View) returns (vs: seq<Visit>)
    requires Valid(v)
    ensures Visited(v, vs, 0) && |v.upper| == 8
  {
    vs := if v.none then [Visit(NONE, 0)] else [];
  }

  // Between a present group and the next one there are no keys.
  lemma {:induction false} NextGroup(v: View, g: int)
    requires Valid(v) && -1 <= g < 8
    ensures NoKeys(v, (g + 1) * 32, if Next(v.upper, g) < 0 then 256 else Next(v.upper, g) * 32)
  {
    forall k | (g + 1) * 32 <= k < if Next(v.upper, g) < 0 then 256 else Next(v.upper, g) * 32
      ensures !IsSet(v, k)
    {
      assert g < UBit(k);
    }
  }

  method VisitGroup(v: View, before: seq<Visit>, g: nat) returns (vs: seq<Visit>)
    requires Valid(v) && g < 8 && v.upper[g] && Visited(v, before, g * 32)
    ensures Visited(v, vs, g * 32 + 32)
  {
    hide Valid, Lower, Count, ArrayIndex, CountKeys;
    vs := before;
    var bits := Lower(v, g);
    var n := 0;
    var b := Next(bits, -1);
    while b >= 0
      invariant b == -1 || (0 <= b < 32 && bits[b] && n <= b)
      invariant 0 <= n <= 32 && Visited(v, vs, g * 32 + n)
      invariant forall j :: n <= j < (if b < 0 then 32 else b) ==> !bits[j]
      decreases if b < 0 then 0 else 33 - b
    {
      ClearBits(v, g, n, b);
      NoKeysBetween(v, g * 32 + n, g * 32 + b);
      SetInGroup(v, g * 32 + b, g, b);
      NextVisit(v, vs, g * 32 + b);
      vs := vs + [Visit(g * 32 + b, |vs|)];
      n := b + 1;
      b := Next(bits, b);
    }
    ClearBits(v, g, n, 32);
    NoKeysBetween(v, g * 32 + n, g * 32 + 32);
  }

  lemma {:induction false} ClearBits(v: View, g: nat, m: nat, n: nat)
    requires Valid(v) && g < 8 && v.upper[g] && m <= n <= 32 && forall j :: m <= j < n ==> !Lower(v, g)[j]
    ensures forall k :: g * 32 + m <= k < g * 32 + n ==> !IsSet(v, k)
  {
    forall k | g * 32 + m <= k < g * 32 + n
      ensures !IsSet(v, k)
    {
      SetInGroup(v, k, g, k - g * 32);
    }
  }

  lemma {:induction false} NextVisit(v: View, vs: seq<Visit>, k: Byte)
    requires Valid(v) && Visited(v, vs, k) && IsSet(v, k)
    ensures Visited(v, vs + [Visit(k, |vs|)], k + 1)
  {
    hide Valid;
    RankInRange(v, k);
    assert CountKeys(v, k + 1) == CountKeys(v, k) + 1;
    forall i | 0 <= i < |vs|
      ensures Own(v, (vs + [Visit(k, |vs|)])[i], i)
    {
      assert (vs + [Visit(k, |vs|)])[i] == vs[i];
    }
  }

  // Array indexes are ranks, so visits with running indexes are in order and complete.
  lemma {:induction false} InOrder(v: View, vs: seq<Visit>)
    requires Valid(v) && |vs| == |v.links| && forall i :: 0 <= i < |vs| ==> Own(v, vs[i], i)
    ensures forall i, j :: 0 <= i < j < |vs| ==> vs[i].key < vs[j].key
    ensures forall k :: NONE <= k < 256 && IsSet(v, k) ==> exists i :: 0 <= i < |vs| && vs[i].key == k
  {
    hide Valid, ArrayIndex;
    forall i, j | 0 <= i < j < |vs|
      ensures vs[i].key < vs[j].key
    {
      assert Own(v, vs[i], i) && Own(v, vs[j], j);
      if vs[j].key < vs[i].key { RankOrder(v, vs[j].key, vs[i].key); }
    }
    forall k | NONE <= k < 256 && IsSet(v, k)
      ensures exists i :: 0 <= i < |vs| && vs[i].key == k
    {
      RankInRange(v, k);
      var i := ArrayIndex(v, k);
      assert Own(v, vs[i], i);
      if vs[i].key < k { RankOrder(v, vs[i].key, k); } else if k < vs[i].key { RankOrder(v, k, vs[i].key); }
    }
  }
}
