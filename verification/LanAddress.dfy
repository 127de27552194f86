// tunnel/lan_address.go: spreading peers over the loopback network.
module LanAddress {
  import opened Bytes
  import opened Words

  // v >> 16 ^ v
  function Fold(v: u32): u32 { Xor32(v / 0x1_0000, v) }

  function Shuffle(v: u32): u32 {
    var v := Fold(v) * 0x45d9f3 % 0x1_0000_0000;
    var v := Fold(v) * 0x45d9f3 % 0x1_0000_0000;
    Fold(v)
  }

  function Unshuffle(v: u32): u32 {
    var v := Fold(v) * 0xdd72673b % 0x1_0000_0000;
    var v := Fold(v) * 0xdd72673b % 0x1_0000_0000;
    Fold(v)
  }

  // Folding leaves the high half alone, so folding twice undoes itself.
  lemma FoldTwice(v: u32)
    ensures Fold(Fold(v)) == v
  {
    var high := v / 0x1_0000;
    Pow2Values();
    ShrXor(high, v, 16);
    ShrDivides(Fold(v), 16);
    ShrDivides(high, 16);
    ShrDivides(v, 16);
    XorZero(high);
    XorCancels(high, v);
  }

  lemma ShuffleBijective(v: u32)
    ensures Unshuffle(Shuffle(v)) == v && Shuffle(Unshuffle(v)) == v
  {
    RoundTrip(v, 0x45d9f3, 0xdd72673b);
    RoundTrip(v, 0xdd72673b, 0x45d9f3);
  }

  lemma RoundTrip(v: u32, c: u32, d: u32)
    requires c * d % 0x1_0000_0000 == 1
    ensures var v1 := Fold(v) * c % 0x1_0000_0000;
            var v2 := Fold(v1) * c % 0x1_0000_0000;
            var w1 := Fold(Fold(v2)) * d % 0x1_0000_0000;
            var w2 := Fold(w1) * d % 0x1_0000_0000;
            Fold(w2) == v
  {
    var v1 := Fold(v) * c % 0x1_0000_0000;
    var v2 := Fold(v1) * c % 0x1_0000_0000;
    FoldTwice(v2);
    ModInverse(Fold(v1), c, d);
    FoldTwice(v1);
    ModInverse(Fold(v), c, d);
    FoldTwice(v);
  }

  const LOOPBACK := 0x7f00_0000

  // The mask keeps the low 24 bits; the last or sets bits that are clear, so it adds.
  function AsLocalMasked(ip: u32): (a: u32)
    ensures LOOPBACK < a < LOOPBACK + 0x100_0000
  {
    var ip := Shuffle(ip) % 0x100_0000;
    var ip := if ip == 0 then 1 else ip;
    ip + LOOPBACK
  }

  // The words that g followed by AsLocalMasked sends to a.
  function Fibre(g: u32 -> u32, a: u32): set<u32> {
    set w: u32 | 0 <= w < 0x1_0000_0000 && AsLocalMasked(g(w)) == a
  }

  // 0 and 1 share 127.0.0.1; nothing maps outside 127.0.0.1 .. 127.255.255.255.
  function FibreSize(a: u32): nat {
    if a == LOOPBACK + 1 then 512 else if LOOPBACK < a < LOOPBACK + 0x100_0000 then 256 else 0
  }

  // The i-th shuffled word that is masked to a: the high octet is free, the rest is fixed.
  function Candidate(a: u32, i: nat): u32
    requires i < FibreSize(a)
  {
    if i < 256 then i * 0x100_0000 + (if a == LOOPBACK + 1 then 0 else a - LOOPBACK)
    else (i - 256) * 0x100_0000 + 1
  }

  lemma Candidates(a: u32, x: u32)
    ensures (if x % 0x100_0000 == 0 then 1 else x % 0x100_0000) + LOOPBACK == a
       <==> exists i: nat :: i < FibreSize(a) && Candidate(a, i) == x
  {
    var high, low := x / 0x100_0000, x % 0x100_0000;
    if (if low == 0 then 1 else low) + LOOPBACK == a {
      var i := if a == LOOPBACK + 1 && low == 1 then high + 256 else high;
      assert Candidate(a, i) == x;
    }
  }

  lemma CandidatesDiffer(a: u32, i: nat, j: nat)
    requires i < j < FibreSize(a)
    ensures Candidate(a, i) != Candidate(a, j)
  {}

  // The words that are sent to a are those that shuffle to a candidate.
  lemma FibreOf(g: u32 -> u32, a: u32, w: u32)
    ensures w in Fibre(g, a) <==> exists i: nat :: i < FibreSize(a) && Candidate(a, i) == Shuffle(g(w))
  {
    hide Shuffle;
    Candidates(a, Shuffle(g(w)));
  }

  // Behind any bijection g of the 32-bit words with inverse h the fibres have these sizes.
  lemma FibreSizes(g: u32 -> u32, h: u32 -> u32, a: u32)
    requires forall w: u32 :: h(g(w)) == w
    requires forall w: u32 :: g(h(w)) == w
    ensures |Fibre(g, a)| == FibreSize(a)
  {
    hide Shuffle;
    hide Unshuffle;
    hide Candidate;
    hide AsLocalMasked;
    var f := (i: int) => if 0 <= i < FibreSize(a) then h(Unshuffle(Candidate(a, i))) else 0;
    forall i: nat | i < FibreSize(a)
      ensures f(i) == h(Unshuffle(Candidate(a, i))) && Shuffle(g(h(Unshuffle(Candidate(a, i))))) == Candidate(a, i)
    {
      ShuffleBijective(Candidate(a, i));
    }
    forall i, j | 0 <= i < j < FibreSize(a) ensures f(i) != f(j) {
      CandidatesDiffer(a, i, j);
    }
    forall x: int ensures x in Fibre(g, a) <==> exists i :: 0 <= i < FibreSize(a) && f(i) == x {
      if x in Fibre(g, a) {
        FibreOf(g, a, x);
        var i: nat :| i < FibreSize(a) && Candidate(a, i) == Shuffle(g(x));
        ShuffleBijective(g(x));
        assert f(i) == x;
      }
      if i :| 0 <= i < FibreSize(a) && f(i) == x {
        assert x == h(Unshuffle(Candidate(a, i)));
        FibreOf(g, a, x);
      }
    }
    ImageSize(FibreSize(a), f, Fibre(g, a));
  }

  // Exactly 512 IPv4 peers share 127.0.0.1 and exactly 256 every other loopback address.
  lemma Ip4FibreSizes(a: u32)
    ensures |Fibre((w: u32) => w, a)| == FibreSize(a)
  {
    FibreSizes((w: u32) => w, (w: u32) => w, a);
  }

  function Combine(words: seq<u32>): u32
    requires |words| == 4
  {
    Xor32(Xor32(Xor32(Shuffle(words[0]), Shuffle(words[1])), Shuffle(words[2])), Shuffle(words[3]))
  }

  // The IPv4-mapped prefix of section 2.5.5.2 of RFC 4291.
  const MAPPED: seq<u32> := [0, 0, 0xffff]

  function MapWords(words: seq<u32>): u32
    requires |words| == 4
  {
    if words[..3] == MAPPED then AsLocalMasked(words[3]) else AsLocalMasked(Combine(words))
  }

  function WordsOf(ip: seq<byte>): (words: seq<u32>)
    requires |ip| == 16
    ensures |words| == 4
  {
    seq(4, k requires 0 <= k < 4 => Word(ip[4 * k..4 * k + 4]))
  }

  function Word(octets: seq<byte>): u32
    requires |octets| == 4
  {
    Pow256Values();
    BigEndianOfValue(octets);
    Value(octets)
  }

  // A net.IP of 4 or 16 octets; other lengths stop the Go program.
  function MapToLocalIp4(ip: seq<byte>): (local: seq<byte>)
    requires |ip| == 4 || |ip| == 16
  {
    BigEndian(4, if |ip| == 4 then AsLocalMasked(Word(ip)) else MapWords(WordsOf(ip)))
  }

  lemma HeadOctet(n: nat, v: nat)
    requires n > 0
    ensures BigEndian(n + 1, v)[0] == BigEndian(n, v / 0x100)[0]
  {}

  lemma LoopbackHead(a: u32)
    requires LOOPBACK < a < LOOPBACK + 0x100_0000
    ensures BigEndian(4, a)[0] == 127
  {
    HeadOctet(3, a);
    HeadOctet(2, a / 0x100);
    HeadOctet(1, a / 0x100 / 0x100);
    assert BigEndian(1, 127) == [127];
  }

  // Every peer is given a loopback address (section 3.2.1.3 of RFC 1122).
  lemma AlwaysLoopback(ip: seq<byte>)
    requires |ip| == 4 || |ip| == 16
    ensures MapToLocalIp4(ip)[0] == 127
  {
    hide BigEndian;
    hide Shuffle;
    LoopbackHead(if |ip| == 4 then AsLocalMasked(Word(ip)) else MapWords(WordsOf(ip)));
  }

  // The IPv4-mapped form of an address goes where the address itself goes.
  lemma MappedLikePlain(ip: seq<byte>)
    requires |ip| == 4
    ensures MapToLocalIp4(Zeros(10) + [0xff, 0xff] + ip) == MapToLocalIp4(ip)
  {
    var mapped := Zeros(10) + [0xff, 0xff] + ip;
    assert mapped[0..4] == [0, 0, 0, 0] && mapped[4..8] == [0, 0, 0, 0];
    assert mapped[8..12] == [0, 0, 0xff, 0xff];
    assert mapped[12..16] == ip;
    assert Value([0, 0, 0]) == 0 by {
      assert [0, 0, 0][..2] == [0, 0] && [0, 0][..1] == [0] && [0][..0] == [];
    }
    assert [0, 0, 0, 0][..3] == [0, 0, 0];
    assert [0, 0, 0xff, 0xff][..3] == [0, 0, 0xff] && [0, 0, 0xff][..2] == [0, 0];
    assert [0, 0][..1] == [0] && [0][..0] == [];
    assert WordsOf(mapped)[..3] == MAPPED;
  }

  // The words other than the j-th, combined.
  function Key(words: seq<u32>, j: nat): u32
    requires |words| == 4 && j < 4
  {
    var s0, s1, s2, s3 := Shuffle(words[0]), Shuffle(words[1]), Shuffle(words[2]), Shuffle(words[3]);
    if j == 0 then Xor32(Xor32(s1, s2), s3)
    else if j == 1 then Xor32(Xor32(s0, s2), s3)
    else if j == 2 then Xor32(Xor32(s0, s1), s3)
    else Xor32(Xor32(s0, s1), s2)
  }

  lemma CombineWithKey(words: seq<u32>, j: nat, w: u32)
    requires |words| == 4 && j < 4
    ensures Combine(words[j := w]) == Xor32(Key(words, j), Shuffle(w))
  {
    MoveLast(Shuffle(w), Shuffle(words[1]), Shuffle(words[2]), Shuffle(words[3]));
    MoveLast(Shuffle(w), Shuffle(words[0]), Shuffle(words[2]), Shuffle(words[3]));
    MoveLast(Shuffle(w), Shuffle(words[0]), Shuffle(words[1]), Shuffle(words[3]));
  }

  lemma MoveLast(s: u32, a: u32, b: u32, c: u32)
    ensures Xor32(Xor32(Xor32(s, a), b), c) == Xor32(Xor32(Xor32(a, b), c), s)
    ensures Xor32(Xor32(Xor32(a, s), b), c) == Xor32(Xor32(Xor32(a, b), c), s)
    ensures Xor32(Xor32(Xor32(a, b), s), c) == Xor32(Xor32(Xor32(a, b), c), s)
  {
    XorCommutes(s, a);
    Swap(a, s, b);
    Swap(Xor32(a, b), s, c);
  }

  lemma Swap(a: u32, b: u32, c: u32)
    ensures Xor32(Xor32(a, b), c) == Xor32(Xor32(a, c), b)
  {
    XorAssociates(a, b, c);
    XorCommutes(b, c);
    XorAssociates(a, c, b);
  }

  // No value of the j-th word completes the IPv4-mapped prefix.
  predicate NeverMapped(words: seq<u32>, j: nat)
    requires |words| == 4 && j < 4
  {
    exists k :: 0 <= k < 3 && k != j && words[k] != MAPPED[k]
  }

  function MapSlot(words: seq<u32>, j: nat, w: u32): u32
    requires |words| == 4 && j < 4
  {
    MapWords(words[j := w])
  }

  function SlotFibre(words: seq<u32>, j: nat, a: u32): set<u32>
    requires |words| == 4 && j < 4
  {
    set w: u32 | 0 <= w < 0x1_0000_0000 && MapSlot(words, j, w) == a
  }

  lemma SlotIsKeyed(words: seq<u32>, j: nat, w: u32)
    requires |words| == 4 && j < 4 && NeverMapped(words, j)
    ensures MapSlot(words, j, w) == AsLocalMasked(Xor32(Key(words, j), Shuffle(w)))
  {
    CombineWithKey(words, j, w);
    var k :| 0 <= k < 3 && k != j && words[k] != MAPPED[k];
    assert words[j := w][..3][k] == words[k];
  }

  lemma KeyedBijective(key: u32, w: u32)
    ensures Unshuffle(Xor32(key, Xor32(key, Shuffle(w)))) == w
    ensures Xor32(key, Shuffle(Unshuffle(Xor32(key, w)))) == w
  {
    ShuffleBijective(w);
    ShuffleBijective(Xor32(key, w));
    XorCancels(key, Shuffle(w));
    XorCancels(key, w);
  }

  // What the j-th word would be sent to if the IPv4-mapped prefix were not special.
  function Keyed(words: seq<u32>, j: nat): u32 -> u32
    requires |words| == 4 && j < 4
  {
    var key := Key(words, j);
    w => Xor32(key, Shuffle(w))
  }

  lemma KeyedFibreSizes(words: seq<u32>, j: nat, a: u32)
    requires |words| == 4 && j < 4
    ensures |Fibre(Keyed(words, j), a)| == FibreSize(a)
  {
    var key, g := Key(words, j), Keyed(words, j);
    var h := (w: u32) => Unshuffle(Xor32(key, w));
    forall w: u32 ensures h(g(w)) == w {
      KeyedBijective(key, w);
    }
    forall w: u32 ensures g(h(w)) == w {
      KeyedBijective(key, w);
    }
    FibreSizes(g, h, a);
  }

  // The j-th word decides whether the address is IPv4-mapped: it is when it is MAPPED[j].
  lemma MappedSlot(words: seq<u32>, j: nat, w: u32)
    requires |words| == 4 && j < 3 && !NeverMapped(words, j)
    ensures MapSlot(words, j, w) == AsLocalMasked(if w == MAPPED[j] then words[3] else Keyed(words, j)(w))
  {
    CombineWithKey(words, j, w);
    var changed := words[j := w][..3];
    assert forall k :: 0 <= k < 3 && k != j ==> changed[k] == words[k] == MAPPED[k];
    assert changed[j] == w;
    assert w == MAPPED[j] ==> changed == MAPPED;
  }

  function One(b: bool): nat { if b then 1 else 0 }

  // Two sets that differ in m at most.
  lemma DifferInOne(s: set<u32>, t: set<u32>, m: u32)
    requires s - {m} == t - {m}
    ensures |s| == |t| - One(m in t) + One(m in s)
  {
    assert s == if m in s then s - {m} + {m} else s - {m};
    assert t == if m in t then t - {m} + {m} else t - {m};
  }

  lemma SlotFibresDiffer(words: seq<u32>, j: nat, a: u32)
    requires |words| == 4 && j < 3 && !NeverMapped(words, j)
    ensures SlotFibre(words, j, a) - {MAPPED[j]} == Fibre(Keyed(words, j), a) - {MAPPED[j]}
    ensures MAPPED[j] in SlotFibre(words, j, a) <==> AsLocalMasked(words[3]) == a
  {
    hide MapSlot;
    hide AsLocalMasked;
    hide Keyed;
    forall w: u32 ensures w in SlotFibre(words, j, a)
                     <==> AsLocalMasked(if w == MAPPED[j] then words[3] else Keyed(words, j)(w)) == a
    {
      MappedSlot(words, j, w);
    }
  }

  lemma LastSlot(words: seq<u32>, a: u32)
    requires |words| == 4 && words[..3] == MAPPED
    ensures SlotFibre(words, 3, a) == Fibre((w: u32) => w, a)
  {
    hide AsLocalMasked;
    forall w: u32 ensures MapSlot(words, 3, w) == AsLocalMasked(w) {
      assert words[3 := w][..3] == words[..3];
    }
  }

  lemma UnmappedSlot(words: seq<u32>, j: nat, a: u32)
    requires |words| == 4 && j < 4 && NeverMapped(words, j)
    ensures SlotFibre(words, j, a) == Fibre(Keyed(words, j), a)
  {
    hide MapSlot;
    hide AsLocalMasked;
    forall w: u32 ensures MapSlot(words, j, w) == AsLocalMasked(Keyed(words, j)(w)) {
      SlotIsKeyed(words, j, w);
    }
  }

  // With three words of an IPv6 address fixed, the fourth is spread like an IPv4 address. Only if
  // the fixed ones leave the IPv4-mapped prefix to be completed by the fourth does the one value
  // that completes it go elsewhere, to where the last word goes as an IPv4 address.
  lemma Ip6FibreSizes(words: seq<u32>, j: nat, a: u32)
    requires |words| == 4 && j < 4
    ensures |SlotFibre(words, j, a)|
         == if j == 3 || NeverMapped(words, j) then FibreSize(a)
            else FibreSize(a) - One(AsLocalMasked(Keyed(words, j)(MAPPED[j])) == a) + One(AsLocalMasked(words[3]) == a)
  {
    hide SlotFibre;
    hide Keyed;
    hide AsLocalMasked;
    KeyedFibreSizes(words, j, a);
    if NeverMapped(words, j) {
      UnmappedSlot(words, j, a);
    } else if j == 3 {
      assert words[..3] == MAPPED;
      Ip4FibreSizes(a);
      LastSlot(words, a);
    } else {
      SlotFibresDiffer(words, j, a);
      DifferInOne(SlotFibre(words, j, a), Fibre(Keyed(words, j), a), MAPPED[j]);
    }
  }

  // UdpSocket binds a peer to a port that depends on the peer's port only; the sum cannot wrap.
  function LocalPort(port: u16): (p: u16)
    ensures 40000 <= p < 64000
  {
    40000 + port % 24000
  }
}
