// get_prefix by machine words (core/_util.hpp): four or eight bytes are loaded at once, compared
// by xor, and the first difference is found by counting trailing zero bits.

module Words {
  import opened Common
  import opened Prefix

  // memcpy of n bytes into a little-endian word.
  function Load(s: seq<Byte>, n: nat): nat
    requires n <= |s|
  {
    if n == 0 then 0 else s[0] + 256 * Load(s[1..], n - 1)
  }

  function Xor(x: nat, y: nat): nat {
    if x == 0 && y == 0 then 0
    else (if x % 2 == y % 2 then 0 else 1) + 2 * Xor(x / 2, y / 2)
  }

  function TrailingZeros(x: nat): nat
    requires x > 0
  {
    if x % 2 == 1 then 0 else 1 + TrailingZeros(x / 2)
  }

  // ----- what the count of trailing zeros of an xor says

  // How many low bits two different numbers agree in.
  ghost function EqualBits(x: nat, y: nat): nat
    requires x != y
  {
    if x % 2 != y % 2 then 0 else 1 + EqualBits(x / 2, y / 2)
  }

  lemma {:induction false} XorZero(x: nat, y: nat)
    ensures Xor(x, y) == 0 <==> x == y
  {
    if x != 0 || y != 0 {
      XorZero(x / 2, y / 2);
    }
  }

  lemma {:induction false} ZerosAreEqualBits(x: nat, y: nat)
    requires x != y
    ensures Xor(x, y) > 0 && TrailingZeros(Xor(x, y)) == EqualBits(x, y)
  {
    XorZero(x, y);
    if x % 2 == y % 2 {
      ZerosAreEqualBits(x / 2, y / 2);
    }
  }

  // x followed by k zero bits.
  ghost function Shifted(x: nat, k: nat): nat {
    if k == 0 then x else 2 * Shifted(x, k - 1)
  }

  ghost function Power(k: nat): nat {
    if k == 0 then 1 else 2 * Power(k - 1)
  }

  // The low k bits decide, or the bits above them.
  lemma {:induction false} EqualBitsByPart(b: nat, c: nat, x: nat, y: nat, k: nat)
    requires b < Power(k) && c < Power(k)
    ensures b + Shifted(x, k) == c + Shifted(y, k) <==> b == c && x == y
    ensures b != c ==> EqualBits(b + Shifted(x, k), c + Shifted(y, k)) < k
    ensures b == c && x != y ==> EqualBits(b + Shifted(x, k), c + Shifted(y, k)) == k + EqualBits(x, y)
  {
    if k > 0 {
      var p, q := b + Shifted(x, k), c + Shifted(y, k);
      assert p / 2 == b / 2 + Shifted(x, k - 1) && p % 2 == b % 2;
      assert q / 2 == c / 2 + Shifted(y, k - 1) && q % 2 == c % 2;
      EqualBitsByPart(b / 2, c / 2, x, y, k - 1);
    }
  }

  lemma {:induction false} ByteShift(x: nat)
    ensures Shifted(x, 8) == 256 * x && Power(8) == 256
  {
    assert Shifted(x, 1) == 2 * x && Shifted(x, 2) == 4 * x && Shifted(x, 3) == 8 * x && Shifted(x, 4) == 16 * x;
    assert Shifted(x, 5) == 32 * x && Shifted(x, 6) == 64 * x && Shifted(x, 7) == 128 * x;
    assert Power(1) == 2 && Power(2) == 4 && Power(3) == 8 && Power(4) == 16;
    assert Power(5) == 32 && Power(6) == 64 && Power(7) == 128;
  }

  ghost predicate FirstDifference(u: seq<Byte>, v: seq<Byte>, j: nat, n: nat)
    requires n <= |u| && n <= |v|
  {
    j < n && u[..j] == v[..j] && u[j] != v[j]
  }

  lemma {:induction false} FirstDifferenceBehind(u: seq<Byte>, v: seq<Byte>, j: nat, n: nat)
    requires 0 < n <= |u| && n <= |v| && u[0] == v[0] && FirstDifference(u[1..], v[1..], j, n - 1)
    ensures FirstDifference(u, v, j + 1, n)
  {
    assert u[..j + 1] == [u[0]] + u[1..][..j] && v[..j + 1] == [v[0]] + v[1..][..j];
  }

  // A word is its first byte and the word behind it.
  lemma {:induction false} WordByParts(u: seq<Byte>, v: seq<Byte>, n: nat)
    requires 0 < n <= |u| && n <= |v|
    ensures var (w1, w2, x, y) := (Load(u, n), Load(v, n), Load(u[1..], n - 1), Load(v[1..], n - 1));
      && (w1 == w2 <==> u[0] == v[0] && x == y)
      && (u[0] != v[0] ==> EqualBits(w1, w2) < 8)
      && (u[0] == v[0] && x != y ==> EqualBits(w1, w2) == 8 + EqualBits(x, y))
  {
    hide EqualBits;
    var x, y := Load(u[1..], n - 1), Load(v[1..], n - 1);
    ByteShift(x);
    ByteShift(y);
    EqualBitsByPart(u[0], v[0], x, y, 8);
  }

  // Equal words mean equal bytes; otherwise the equal bits lead to the first byte that differs.
  lemma {:induction false} WordsTell(u: seq<Byte>, v: seq<Byte>, n: nat)
    requires n <= |u| && n <= |v|
    ensures Load(u, n) == Load(v, n) <==> u[..n] == v[..n]
    ensures Load(u, n) != Load(v, n) ==> FirstDifference(u, v, EqualBits(Load(u, n), Load(v, n)) / 8, n)
  {
    hide EqualBits;
    if n > 0 {
      var x, y := Load(u[1..], n - 1), Load(v[1..], n - 1);
      WordsTell(u[1..], v[1..], n - 1);
      WordByParts(u, v, n);
      assert u[..n] == [u[0]] + u[1..][..n - 1] && v[..n] == [v[0]] + v[1..][..n - 1];
      if u[0] == v[0] && x != y {
        FirstDifferenceBehind(u, v, EqualBits(x, y) / 8, n);
      }
    }
  }

  // ----- get_prefix

  // The first i bytes agree.
  ghost predicate Agree(a: seq<Byte>, b: seq<Byte>, i: nat) {
    i <= |a| && i <= |b| && a[..i] == b[..i]
  }

  lemma {:induction false} AgreeFurther(a: seq<Byte>, b: seq<Byte>, i: nat, j: nat)
    requires Agree(a, b, i) && i + j <= |a| && i + j <= |b|
    ensures Agree(a, b, i + j) <==> a[i..][..j] == b[i..][..j]
  {
    assert a[..i + j] == a[..i] + a[i..][..j] && b[..i + j] == b[..i] + b[i..][..j];
    assert a[i..][..j] == a[..i + j][i..] && b[i..][..j] == b[..i + j][i..];
  }

  function SignAt(a: seq<Byte>, b: seq<Byte>, i: nat): int
    requires i < |a| && i < |b|
  {
    if a[i] > b[i] then 1 else -1
  }

  // Compares n bytes from i on as one word; true if they differ, then the result is known.
  method CompareWord(a: seq<Byte>, b: seq<Byte>, i: nat, n: nat) returns (differ: bool, r: nat, cmp: int)
    requires Agree(a, b, i) && i + n <= |a| && i + n <= |b|
    ensures differ ==> r == CommonPrefix(a, b) && cmp == Sign(a, b)
    ensures !differ ==> r == i + n && Agree(a, b, r)
  {
    var w1, w2 := Load(a[i..], n), Load(b[i..], n);
    WordsTell(a[i..], b[i..], n);
    if w1 != w2 { ZerosAreEqualBits(w1, w2); }
    AgreeFurther(a, b, i, n);
    if w1 != w2 {
      var j := TrailingZeros(Xor(w1, w2)) / 8;
      AgreeFurther(a, b, i, j);
      assert a[i..][j] == a[i + j] && b[i..][j] == b[i + j];
      CommonPrefixUnique(a, b, i + j);
      differ, r, cmp := true, i + j, SignAt(a, b, i + j);
    } else {
      differ, r, cmp := false, i + n, 0;
    }
  }

  // Byte by byte from i on, then the lengths decide.
  method CompareRest(a: seq<Byte>, b: seq<Byte>, i: nat) returns (r: nat, cmp: int)
    requires Agree(a, b, i)
    ensures r == CommonPrefix(a, b) && cmp == Sign(a, b)
  {
    r := i;
    while r < |a| && r < |b| && a[r] == b[r]
      invariant Agree(a, b, r)
    {
      assert a[..r + 1] == a[..r] + [a[r]] && b[..r + 1] == b[..r] + [b[r]];
      r := r + 1;
    }
    CommonPrefixUnique(a, b, r);
    if r < |a| && r < |b| {
      cmp := SignAt(a, b, r);
    } else if |a| > |b| {
      cmp := 1;
    } else if |b| > |a| {
      cmp := -1;
    } else {
      cmp := 0;
    }
  }

  // How far the two strings agree and how they compare.
  method GetPrefix(a: seq<Byte>, b: seq<Byte>) returns (r: nat, cmp: int)
    ensures r == CommonPrefix(a, b) && cmp == Sign(a, b)
  {
    var minSize := if |a| < |b| then |a| else |b|;
    var differ := false;
    r := 0;
    if minSize < 8 {
      if minSize >= 4 {
        differ, r, cmp := CompareWord(a, b, 0, 4);
        if differ { return; }
      }
      r, cmp := CompareRest(a, b, r);
      return;
    }
    differ, r, cmp := CompareWord(a, b, 0, 8);
    if differ { return; }
    if minSize >= 16 {
      differ, r, cmp := CompareWord(a, b, 8, 8);
      if differ { return; }
    }
    while r + 8 <= minSize
      invariant r <= minSize && Agree(a, b, r)
    {
      differ, r, cmp := CompareWord(a, b, r, 8);
      if differ { return; }
    }
    r, cmp := CompareRest(a, b, r);
  }
}
