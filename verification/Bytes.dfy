// Machine integers, big-endian octet strings and the two option-like types the whole model shares.
module Bytes {

  type byte = x: int | 0 <= x < 0x100
  type u16 = x: int | 0 <= x < 0x1_0000
  type u32 = x: int | 0 <= x < 0x1_0000_0000
  type u64 = x: int | 0 <= x < 0x1_0000_0000_0000_0000
  type i64 = x: int | -0x8000_0000_0000_0000 <= x < 0x8000_0000_0000_0000

  // A Go slice: its length is an int.
  type Slice = s: seq<byte> | |s| < 0x8000_0000_0000_0000 witness []

  datatype Option<+T> = None | Some(value: T) {
    function GetOr(default: T): T { if Some? then value else default }
  }

  // The code as it is in the repository, or with the repairs listed in README.md.
  datatype Variant = AsWritten | Repaired

  // Go's unsigned subtraction wraps.
  function Sub32(a: u32, b: u32): u32 { (a - b) % 0x1_0000_0000 }

  function Sub64(a: u64, b: u64): u64 { (a - b) % 0x1_0000_0000_0000_0000 }

  // More than ms milliseconds have passed from last to now on a clock of 64 bits that wraps.
  predicate Past(now: u64, last: u64, ms: nat) {
    if last <= now then now - last > ms else now + 0x1_0000_0000_0000_0000 - last > ms
  }

  // Go's conversions between int64 and uint64 keep the 64 bits.
  function ToI64(x: u64): i64 { if x < 0x8000_0000_0000_0000 then x else x - 0x1_0000_0000_0000_0000 }

  function ToU64(x: i64): u64 { if x >= 0 then x else x + 0x1_0000_0000_0000_0000 }

  function Min(a: nat, b: nat): nat { if a < b then a else b }

  function Zeros(n: nat): (s: seq<byte>)
    ensures |s| == n && forall k :: 0 <= k < n ==> s[k] == 0
  {
    seq(n, _ => 0)
  }

  lemma Assoc(a: seq<byte>, b: seq<byte>, c: seq<byte>)
    ensures a + b + c == a + (b + c)
  {}

  lemma Cut(a: seq<byte>, b: seq<byte>, k: nat)
    requires |a| <= k <= |a + b|
    ensures (a + b)[..k] == a + b[..k - |a|]
  {}

  function Pow256(n: nat): (p: nat)
    ensures p > 0
  {
    if n == 0 then 1 else 0x100 * Pow256(n - 1)
  }

  // The low n octets of v, most significant first.
  function BigEndian(n: nat, v: nat): (s: seq<byte>)
    ensures |s| == n
  {
    if n == 0 then [] else BigEndian(n - 1, v / 0x100) + [v % 0x100]
  }

  function Value(s: seq<byte>): nat {
    if s == [] then 0 else 0x100 * Value(s[..|s| - 1]) + s[|s| - 1]
  }

  lemma {:induction false} ValueOfBigEndian(n: nat, v: nat)
    requires v < Pow256(n)
    ensures Value(BigEndian(n, v)) == v
  {
    if n > 0 {
      ValueOfBigEndian(n - 1, v / 0x100);
      var s := BigEndian(n, v);
      assert s[..n - 1] == BigEndian(n - 1, v / 0x100);
    }
  }

  lemma {:induction false} BigEndianOfValue(s: seq<byte>)
    ensures Value(s) < Pow256(|s|)
    ensures BigEndian(|s|, Value(s)) == s
  {
    if s != [] {
      var init, x := s[..|s| - 1], s[|s| - 1];
      BigEndianOfValue(init);
      assert Value(s) / 0x100 == Value(init) && Value(s) % 0x100 == x;
      assert s == init + [x];
    }
  }

  // One more octet c at the end of x * p + y.
  lemma Scaled(x: nat, p: nat, y: nat, c: nat)
    ensures 0x100 * (x * p + y) + c == x * (0x100 * p) + (0x100 * y + c)
  {
    assert x * (0x100 * p) == 0x100 * (x * p);
  }

  // A big-endian string is its leading octets followed by its last one, so Some(x)
  // written as 1 ++ x and read back without the last octet is 2^56 + x / 256.
  lemma {:induction false} ValueOfConcat(s: seq<byte>, t: seq<byte>)
    ensures Value(s + t) == Value(s) * Pow256(|t|) + Value(t)
  {
    if t == [] {
      assert s + t == s;
    } else {
      var t' := t[..|t| - 1];
      assert (s + t)[..|s + t| - 1] == s + t';
      ValueOfConcat(s, t');
      Scaled(Value(s), Pow256(|t'|), Value(t'), t[|t| - 1]);
    }
  }

  lemma Pow256Values()
    ensures Pow256(1) == 0x100 && Pow256(2) == 0x1_0000 && Pow256(4) == 0x1_0000_0000
    ensures Pow256(7) == 0x100_0000_0000_0000
    ensures Pow256(8) == 0x1_0000_0000_0000_0000
  {
    assert Pow256(3) == 0x100_0000;
    assert Pow256(6) == 0x1_0000_0000_0000;
  }

  // The number four octets stand for.
  function Number(a: byte, b: byte, c: byte, d: byte): u32 {
    a * 0x100_0000 + b * 0x1_0000 + c * 0x100 + d
  }

  lemma ValueAppend(s: seq<byte>, x: byte)
    ensures Value(s + [x]) == 0x100 * Value(s) + x
  {
    assert (s + [x])[..|s|] == s;
  }

  lemma NumberOctets(a: byte, b: byte, c: byte, d: byte)
    ensures Value([a, b, c, d]) == Number(a, b, c, d) && BigEndian(4, Number(a, b, c, d)) == [a, b, c, d]
  {
    ValueAppend([], a);
    ValueAppend([a], b);
    ValueAppend([a, b], c);
    ValueAppend([a, b, c], d);
    assert [] + [a] == [a] && [a] + [b] == [a, b] && [a, b] + [c] == [a, b, c] && [a, b, c] + [d] == [a, b, c, d];
    BigEndianOfValue([a, b, c, d]);
  }

  lemma EightOctets(a: byte, b: byte, c: byte, d: byte, e: byte, f: byte, g: byte, h: byte)
    ensures var v := Number(a, b, c, d) * 0x1_0000_0000 + Number(e, f, g, h);
            BigEndian(8, v) == [a, b, c, d, e, f, g, h] && Value([a, b, c, d, e, f, g, h]) == v
  {
    hide Value;
    hide BigEndian;
    var s, t := [a, b, c, d], [e, f, g, h];
    NumberOctets(a, b, c, d);
    NumberOctets(e, f, g, h);
    Pow256Values();
    ValueOfConcat(s, t);
    BigEndianOfValue(s + t);
    assert s + t == [a, b, c, d, e, f, g, h];
  }
}
