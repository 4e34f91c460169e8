// get_prefix: how far two byte strings agree, and how they compare there.

module Prefix {
  import opened Common

  function CommonPrefix(a: seq<Byte>, b: seq<Byte>): (n: nat)
    ensures n <= |a| && n <= |b| && a[..n] == b[..n]
    ensures n < |a| && n < |b| ==> a[n] != b[n]
  {
    if a == [] || b == [] || a[0] != b[0] then 0
    else
      var n := CommonPrefix(a[1..], b[1..]);
      assert a[..n + 1] == [a[0]] + a[1..][..n] && b[..n + 1] == [b[0]] + b[1..][..n];
      n + 1
  }

  // Unsigned lexicographic order; a proper prefix comes first.
  predicate Less(a: seq<Byte>, b: seq<Byte>) {
    b != [] && (a == [] || a[0] < b[0] || (a[0] == b[0] && Less(a[1..], b[1..])))
  }

  // 1: a is greater, -1: a is smaller, 0: equal.
  function Sign(a: seq<Byte>, b: seq<Byte>): (c: int)
    ensures -1 <= c <= 1
  {
    var n := CommonPrefix(a, b);
    if n < |a| && n < |b| then if a[n] > b[n] then 1 else -1
    else if |a| > |b| then 1
    else if |b| > |a| then -1
    else 0
  }

  // The longest common prefix is the only length with these two properties.
  lemma {:induction false} CommonPrefixUnique(a: seq<Byte>, b: seq<Byte>, n: nat)
    requires n <= |a| && n <= |b| && a[..n] == b[..n]
    requires n < |a| && n < |b| ==> a[n] != b[n]
    ensures CommonPrefix(a, b) == n
  {
    var m := CommonPrefix(a, b);
    assert forall k: nat :: k < n ==> a[k] == a[..n][k] == b[..n][k] == b[k];
    assert forall k: nat :: k < m ==> a[k] == a[..m][k] == b[..m][k] == b[k];
  }

  lemma {:induction false} WholePrefix(a: seq<Byte>, b: seq<Byte>)
    ensures CommonPrefix(a, b) == |a| == |b| <==> a == b
  {
    var n := CommonPrefix(a, b);
    assert n == |a| == |b| ==> a[..n] == a && b[..n] == b;
    if a == b {
      CommonPrefixUnique(a, b, |a|);
    }
  }

  lemma {:induction false} SignZero(a: seq<Byte>, b: seq<Byte>)
    ensures Sign(a, b) == 0 <==> a == b
  {
    var n := CommonPrefix(a, b);
    assert n == |a| && n == |b| ==> a[..n] == a && b[..n] == b;
    if a == b {
      CommonPrefixUnique(a, b, |a|);
    }
  }

  // The sign is that of the unsigned lexicographic order.
  lemma {:induction false} SignIsOrder(a: seq<Byte>, b: seq<Byte>)
    ensures Sign(a, b) == -1 <==> Less(a, b)
    ensures Sign(a, b) == 1 <==> Less(b, a)
  {
    if a != [] && b != [] && a[0] == b[0] {
      SignIsOrder(a[1..], b[1..]);
    }
  }
}
