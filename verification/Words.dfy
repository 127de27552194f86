// Bitwise exclusive or and multiplication modulo 2^32 on non-negative integers.
module Words {
  import opened Bytes

  function Pow2(k: nat): (p: nat)
    ensures p >= 1
  {
    if k == 0 then 1 else 2 * Pow2(k - 1)
  }

  lemma Pow2Values()
    ensures Pow2(16) == 0x1_0000 && Pow2(32) == 0x1_0000_0000
  {
    assert Pow2(4) == 0x10;
    assert Pow2(8) == 0x100;
    assert Pow2(12) == 0x1000;
    assert Pow2(20) == 0x10_0000;
    assert Pow2(24) == 0x100_0000;
    assert Pow2(28) == 0x1000_0000;
  }

  // Bit by bit, the lowest first.
  function Xor(a: nat, b: nat): nat {
    if a == 0 && b == 0 then 0 else 2 * Xor(a / 2, b / 2) + (a + b) % 2
  }

  lemma XorBits(a: nat, b: nat)
    ensures Xor(a, b) / 2 == Xor(a / 2, b / 2) && Xor(a, b) % 2 == (a + b) % 2
  {}

  lemma SameBits(a: nat, b: nat)
    requires a / 2 == b / 2 && a % 2 == b % 2
    ensures a == b
  {}

  lemma Parity(a: nat, b: nat, c: nat, x: nat, y: nat)
    requires x % 2 == (a + b) % 2 && y % 2 == (b + c) % 2
    ensures (x + c) % 2 == (a + y) % 2
  {}

  lemma {:induction false} XorWidth(a: nat, b: nat, k: nat)
    requires a < Pow2(k) && b < Pow2(k)
    ensures Xor(a, b) < Pow2(k)
  {
    if a != 0 || b != 0 {
      XorWidth(a / 2, b / 2, k - 1);
    }
  }

  lemma {:induction false} XorCancels(a: nat, b: nat)
    ensures Xor(a, Xor(a, b)) == b
  {
    if a != 0 || b != 0 {
      var x := Xor(a, b);
      XorCancels(a / 2, b / 2);
      XorBits(a, b);
      XorBits(a, x);
      Parity(a, a, b, 0, x);
      SameBits(Xor(a, x), b);
    }
  }

  lemma {:induction false} XorZero(b: nat)
    ensures Xor(0, b) == b
  {
    if b != 0 {
      XorZero(b / 2);
    }
  }

  lemma {:induction false} XorCommutes(a: nat, b: nat)
    ensures Xor(a, b) == Xor(b, a)
  {
    if a != 0 || b != 0 {
      XorCommutes(a / 2, b / 2);
    }
  }

  lemma {:induction false} XorAssociates(a: nat, b: nat, c: nat)
    ensures Xor(Xor(a, b), c) == Xor(a, Xor(b, c))
  {
    if a != 0 || b != 0 || c != 0 {
      var x, y := Xor(a, b), Xor(b, c);
      XorAssociates(a / 2, b / 2, c / 2);
      XorBits(a, b);
      XorBits(b, c);
      XorBits(x, c);
      XorBits(a, y);
      Parity(a, b, c, x, y);
      SameBits(Xor(x, c), Xor(a, y));
    }
  }

  function Xor32(a: u32, b: u32): u32 {
    Pow2Values();
    XorWidth(a, b, 32);
    Xor(a, b)
  }

  // Halving k times.
  function Shr(v: nat, k: nat): nat { if k == 0 then v else Shr(v / 2, k - 1) }

  lemma {:induction false} ShrXor(a: nat, b: nat, k: nat)
    ensures Shr(Xor(a, b), k) == Xor(Shr(a, k), Shr(b, k))
  {
    if k > 0 {
      XorBits(a, b);
      ShrXor(a / 2, b / 2, k - 1);
    }
  }

  lemma {:induction false} ShrDivides(v: nat, k: nat)
    ensures Shr(v, k) == v / Pow2(k)
  {
    if k > 0 {
      ShrDivides(v / 2, k - 1);
      DivTwice(v, Pow2(k - 1));
    }
  }

  lemma DivTwice(v: nat, p: nat)
    requires p >= 1
    ensures v / 2 / p == v / (2 * p)
  {
    var q, r := v / 2 / p, v / 2 % p;
    assert v == q * (2 * p) + (2 * r + v % 2);
    QuotientIs(v, 2 * p, q, 2 * r + v % 2);
  }

  lemma QuotientIs(v: nat, d: nat, q: nat, r: nat)
    requires r < d && v == q * d + r
    ensures v / d == q
  {
    Multiples(v / d + 1, q, d);
    Multiples(q + 1, v / d, d);
  }

  lemma Multiples(a: nat, b: nat, d: nat)
    ensures a <= b ==> a * d <= b * d
  {}

  // Multiplying by c and by its inverse d modulo 2^32 gives v back.
  lemma ModInverse(v: u32, c: u32, d: u32)
    requires c * d % 0x1_0000_0000 == 1
    ensures v * c % 0x1_0000_0000 * d % 0x1_0000_0000 == v
  {
    var m := 0x1_0000_0000;
    var q, r, k := v * c / m, v * c % m, c * d / m;
    calc {
      r * d;
      (v * c - q * m) * d;
      v * (c * d) - q * m * d;
      v * (k * m + 1) - q * m * d;
      { assert v * (k * m) == v * k * m && q * m * d == q * d * m; }
      v + (v * k - q * d) * m;
    }
    RemainderIs(r * d, v, v * k - q * d);
  }

  lemma RemainderIs(x: int, r: u32, q: int)
    requires x == r + q * 0x1_0000_0000
    ensures x % 0x1_0000_0000 == r
  {}

  // n distinct values of f on 0 .. n - 1 make a set of n elements.
  lemma {:induction false} ImageSize(n: nat, f: int -> int, s: set<int>)
    requires forall i, j :: 0 <= i < j < n ==> f(i) != f(j)
    requires forall x :: x in s <==> exists i :: 0 <= i < n && f(i) == x
    ensures |s| == n
  {
    if n == 0 {
      assert forall x :: x !in s;
    } else {
      var last := f(n - 1);
      var t := s - {last};
      assert last in s;
      forall x ensures x in t <==> exists i :: 0 <= i < n - 1 && f(i) == x {
        if x in t {
          var i :| 0 <= i < n && f(i) == x;
          assert i != n - 1;
        }
        if i :| 0 <= i < n - 1 && f(i) == x {
          assert f(i) != f(n - 1);
          assert x in s;
        }
      }
      ImageSize(n - 1, f, t);
      assert |s| == |t| + 1;
    }
  }
}
