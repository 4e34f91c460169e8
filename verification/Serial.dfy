// Serial numbers of transactions (core/_serial.hpp): 32 bits, 0 means unset, wrapping from the
// largest value to 1.

module Serial {
  const MAX_VALUE := 0xFFFF_FFFF
  const HALF_RANGE := 0x8000_0000

  type Value = v: int | 0 <= v <= 0xFFFF_FFFF

  // operator+=
  function Add(x: Value, k: Value): Value {
    if x == 0 then k else (x + k - 1) % 0xFFFF_FFFF + 1
  }

  // operator++ and operator--
  function Next(x: Value): Value {
    if x == 0xFFFF_FFFF then 1 else x + 1
  }

  function Prev(x: Value): Value {
    if x <= 1 then 0xFFFF_FFFF else x - 1
  }

  // operator<
  predicate Less(x: Value, y: Value) {
    if x == 0 || y == 0 then x < y
    else if x < y then y - x < 0x8000_0000
    else if x > y then x - y > 0x8000_0000
    else false
  }

  // The serial number of the n-th transaction, counted from 1 without bound.
  function Nth(n: nat): Value
    requires n > 0
  {
    (n - 1) % 0xFFFF_FFFF + 1
  }

  lemma {:induction false} WrapOnce(n: nat, k: nat)
    requires n > 0 && k < 0xFFFF_FFFF
    ensures Nth(n + k) == if Nth(n) + k <= 0xFFFF_FFFF then Nth(n) + k else Nth(n) + k - 0xFFFF_FFFF
  {
    var q, r := (n - 1) / 0xFFFF_FFFF, (n - 1) % 0xFFFF_FFFF;
    assert n - 1 == q * 0xFFFF_FFFF + r;
    if r + k < 0xFFFF_FFFF {
      RemainderIs(n + k - 1, q, r + k);
    } else {
      RemainderIs(n + k - 1, q + 1, r + k - 0xFFFF_FFFF);
    }
  }

  lemma {:induction false} RemainderIs(a: int, q: int, r: int)
    requires a == q * 0xFFFF_FFFF + r && 0 <= r < 0xFFFF_FFFF
    ensures a % 0xFFFF_FFFF == r
  {
  }

  // Counting up never meets the unset value, and addition is that many steps of counting.
  lemma {:induction false} NthCounts(n: nat, k: nat)
    requires n > 0 && k <= 0xFFFF_FFFF
    ensures Nth(n) != 0 && Nth(n + 1) == Next(Nth(n)) && Prev(Nth(n + 1)) == Nth(n)
    ensures Nth(n + k) == Add(Nth(n), k)
  {
    WrapOnce(n, 1);
    var q, r := (n - 1) / 0xFFFF_FFFF, (n - 1) % 0xFFFF_FFFF;
    assert n - 1 == q * 0xFFFF_FFFF + r;
    if k < 0xFFFF_FFFF {
      WrapOnce(n, k);
    } else {
      RemainderIs(n + k - 1, q + 1, r);
    }
    var s := Nth(n) + k - 1;
    if s < 0xFFFF_FFFF {
      RemainderIs(s, 0, s);
    } else {
      RemainderIs(s, 1, s - 0xFFFF_FFFF);
    }
  }

  // As long as two transactions are no further apart than this, serial numbers compare as their counts do.
  lemma {:induction false} OrderIsAge(n: nat, m: nat)
    requires n > 0 && m > 0 && -0x7FFF_FFFE <= n - m <= 0x7FFF_FFFE
    ensures Less(Nth(n), Nth(m)) <==> n < m
  {
    if n < m {
      WrapOnce(n, m - n);
    } else if m < n {
      WrapOnce(m, n - m);
    }
  }

  // Exactly how far ahead a number may be to count as later.
  lemma {:induction false} LaterIff(x: Value, k: Value)
    requires x != 0 && k < 0xFFFF_FFFF
    ensures Less(x, Add(x, k)) <==> 1 <= k <= 0x7FFF_FFFE || (k == 0x7FFF_FFFF && x + k <= 0xFFFF_FFFF)
  {
    assert Nth(x) == x by { RemainderIs(x - 1, 0, x - 1); }
    NthCounts(x, k);
    WrapOnce(x, k);
  }

  // Beyond that distance the order is wrong or undecided: half the range apart neither number is later.
  lemma {:induction false} UndecidedIff(x: Value, y: Value)
    requires x != 0 && y != 0
    ensures !(Less(x, y) && Less(y, x))
    ensures !Less(x, y) && !Less(y, x) <==> x == y || x - y == 0x8000_0000 || y - x == 0x8000_0000
  {
  }

  // The order is not transitive over longer distances.
  lemma {:induction false} NotTransitive() returns (x: Value, y: Value, z: Value)
    ensures Less(x, y) && Less(y, z) && Less(z, x)
  {
    x, y, z := 1, 0x6000_0000, 0xC000_0000;
  }
}
