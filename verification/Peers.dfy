// From the octets of a peer's address to those of its loopback address.
module Peers {
  import opened Bytes
  import opened Words
  import opened LanAddress

  lemma Spelled(o: seq<byte>)
    requires |o| == 4
    ensures Value(o) == Number(o[0], o[1], o[2], o[3]) && BigEndian(4, Value(o)) == o && Value(o) < 0x1_0000_0000
  {
    NumberOctets(o[0], o[1], o[2], o[3]);
    assert o == [o[0], o[1], o[2], o[3]];
  }

  lemma WordBack(w: u32)
    ensures Value(BigEndian(4, w)) == w
  {
    Pow256Values();
    ValueOfBigEndian(4, w);
  }

  // Two words written alike are alike.
  lemma SentTo(local: seq<byte>, w: u32)
    requires |local| == 4
    ensures BigEndian(4, w) == local <==> w == Value(local)
  {
    hide BigEndian;
    hide Value;
    WordBack(w);
    Spelled(local);
  }

  // An IPv4 peer is hashed as the number its octets stand for.
  lemma Ip4Mapped(a: byte, b: byte, c: byte, d: byte)
    ensures MapToLocalIp4([a, b, c, d]) == BigEndian(4, AsLocalMasked(Number(a, b, c, d)))
  {
    hide AsLocalMasked;
    NumberOctets(a, b, c, d);
  }

  // v >> 16 ^ v: the high half stays, the low half is combined with it.
  lemma FoldHalves(v: u32)
    ensures Fold(v) / 0x1_0000 == v / 0x1_0000 && Fold(v) % 0x1_0000 == Xor(v / 0x1_0000, v % 0x1_0000)
  {
    hide Xor;
    var high, low := v / 0x1_0000, v % 0x1_0000;
    Pow2Values();
    XorWidth(high, low, 16);
    XorZero(high);
    SplitXor(0, high, high, low, 16);
  }

  // Exclusive or acts on the digits above and below 2^k separately.
  lemma {:induction false} SplitXor(a: nat, b: nat, x: nat, y: nat, k: nat)
    requires x < Pow2(k) && y < Pow2(k)
    ensures Xor(a * Pow2(k) + x, b * Pow2(k) + y) == Xor(a, b) * Pow2(k) + Xor(x, y)
  {
    hide Xor;
    if k == 0 {
      XorZero(0);
    } else {
      var p, m := Pow2(k - 1), Xor(a, b);
      var u, v := a * Pow2(k) + x, b * Pow2(k) + y;
      assert Pow2(k) == 2 * p;
      SplitXor(a, b, x / 2, y / 2, k - 1);
      assert u / 2 == a * p + x / 2 && u % 2 == x % 2 by { Halved(a, p, x); }
      assert v / 2 == b * p + y / 2 && v % 2 == y % 2 by { Halved(b, p, y); }
      XorBits(x, y);
      XorBits(u, v);
      OddSum(u, v, x, y);
      Halved(m, p, Xor(x, y));
      SameBits(Xor(u, v), m * Pow2(k) + Xor(x, y));
    }
  }

  lemma OddSum(u: nat, v: nat, x: nat, y: nat)
    requires u % 2 == x % 2 && v % 2 == y % 2
    ensures (u + v) % 2 == (x + y) % 2
  {}

  lemma Halved(a: nat, p: nat, x: nat)
    ensures a * (2 * p) + x == 2 * (a * p + x / 2) + x % 2
    ensures (a * (2 * p) + x) / 2 == a * p + x / 2 && (a * (2 * p) + x) % 2 == x % 2
  {
    assert a * (2 * p) == 2 * (a * p);
  }

  // Every word is the shuffle of what the multiplications by 0xdd72673b, the inverse of 0x45d9f3
  // modulo 2^32, make of it; so shuffle is this arithmetic and no other.
  lemma ShuffleOf(v: u32)
    ensures var w := Fold(v) * 0xdd72673b % 0x1_0000_0000;
            Shuffle(Fold(Fold(w) * 0xdd72673b % 0x1_0000_0000)) == v
  {
    ShuffleBijective(v);
  }

  // The k-th word of a 16-octet address.
  function NumberAt(ip: seq<byte>, k: nat): u32
    requires |ip| == 16 && k < 4
  {
    Number(ip[4 * k], ip[4 * k + 1], ip[4 * k + 2], ip[4 * k + 3])
  }

  lemma WordAt(ip: seq<byte>, k: nat)
    requires |ip| == 16 && k < 4
    ensures WordsOf(ip)[k] == NumberAt(ip, k) == Value(ip[4 * k..4 * k + 4])
  {
    hide Value;
    Spelled(ip[4 * k..4 * k + 4]);
  }

  predicate IsMapped(ip: seq<byte>)
    requires |ip| == 16
  {
    ip[..12] == [0, 0, 0, 0, 0, 0, 0, 0, 0, 0, 0xff, 0xff]
  }

  // Four octets stand for the same number exactly if they are the same.
  lemma SameWord(o: seq<byte>, p: seq<byte>)
    requires |o| == |p| == 4
    ensures Value(o) == Value(p) <==> o == p
  {
    hide Value;
    hide BigEndian;
    Spelled(o);
    Spelled(p);
  }

  lemma ZeroWord()
    ensures Value([0, 0, 0, 0]) == 0
  {
    hide Value;
    hide BigEndian;
    NumberOctets(0, 0, 0, 0);
  }

  lemma LowWord()
    ensures Value([0, 0, 0xff, 0xff]) == 0xffff
  {
    hide Value;
    hide BigEndian;
    NumberOctets(0, 0, 0xff, 0xff);
  }

  lemma WordIs(ip: seq<byte>, k: nat, o: seq<byte>, n: u32)
    requires |ip| == 16 && k < 4 && |o| == 4 && Value(o) == n
    ensures WordsOf(ip)[k] == n <==> ip[4 * k..4 * k + 4] == o
  {
    hide Value;
    hide WordsOf;
    WordAt(ip, k);
    SameWord(ip[4 * k..4 * k + 4], o);
  }

  lemma MappedWords(ip: seq<byte>)
    requires |ip| == 16
    ensures WordsOf(ip)[..3] == MAPPED <==> IsMapped(ip)
  {
    hide Value;
    hide WordsOf;
    hide IsMapped;
    ThreeWords(WordsOf(ip));
    MappedParts(ip);
    ZeroWord();
    LowWord();
    WordIs(ip, 0, [0, 0, 0, 0], 0);
    WordIs(ip, 1, [0, 0, 0, 0], 0);
    WordIs(ip, 2, [0, 0, 0xff, 0xff], 0xffff);
  }

  lemma MappedParts(ip: seq<byte>)
    requires |ip| == 16
    ensures IsMapped(ip) <==> ip[0..4] == [0, 0, 0, 0] && ip[4..8] == [0, 0, 0, 0] && ip[8..12] == [0, 0, 0xff, 0xff]
  {
    var p := [0, 0, 0, 0, 0, 0, 0, 0, 0, 0, 0xff, 0xff];
    assert p == [0, 0, 0, 0] + [0, 0, 0, 0] + [0, 0, 0xff, 0xff];
    assert ip[..12] == ip[0..4] + ip[4..8] + ip[8..12];
    assert p[0..4] == [0, 0, 0, 0] && p[4..8] == [0, 0, 0, 0] && p[8..12] == [0, 0, 0xff, 0xff];
    assert ip[..12][0..4] == ip[0..4] && ip[..12][4..8] == ip[4..8] && ip[..12][8..12] == ip[8..12];
  }

  lemma ThreeWords(words: seq<u32>)
    requires |words| == 4
    ensures words[..3] == MAPPED <==> words[0] == 0 && words[1] == 0 && words[2] == 0xffff
  {
    if words[..3] == MAPPED {
      assert words[0] == words[..3][0] && words[1] == words[..3][1] && words[2] == words[..3][2];
    }
  }

  // The four words of an IPv6 peer, shuffled and combined.
  function Combined(ip: seq<byte>): u32
    requires |ip| == 16
  {
    Xor32(Xor32(Xor32(Shuffle(NumberAt(ip, 0)), Shuffle(NumberAt(ip, 1))), Shuffle(NumberAt(ip, 2))),
          Shuffle(NumberAt(ip, 3)))
  }

  // An IPv6 peer is hashed as its shuffled words combined, an IPv4-mapped one as the IPv4 peer it is.
  lemma Ip6Mapped(ip: seq<byte>)
    requires |ip| == 16
    ensures MapToLocalIp4(ip) == BigEndian(4, AsLocalMasked(if IsMapped(ip) then NumberAt(ip, 3) else Combined(ip)))
  {
    hide AsLocalMasked;
    hide Shuffle;
    hide Xor32;
    hide IsMapped;
    hide WordsOf;
    MappedWords(ip);
    WordAt(ip, 0);
    WordAt(ip, 1);
    WordAt(ip, 2);
    WordAt(ip, 3);
  }

  // ---- How many peers share a loopback address ----

  // The strings of four octets that satisfy p.
  function FourOctets(p: seq<byte> -> bool): (r: set<seq<byte>>)
    ensures forall o: seq<byte> :: o in r <==> |o| == 4 && p(o)
  {
    var r := set w: u32 | 0 <= w < 0x1_0000_0000 && p(BigEndian(4, w)) :: BigEndian(4, w);
    assert forall o: seq<byte> :: o in r <==> |o| == 4 && p(o) by {
      forall o: seq<byte> | |o| == 4 ensures o == BigEndian(4, Value(o)) && 0 <= Value(o) < 0x1_0000_0000 {
        Spelled(o);
      }
    }
    r
  }

  function Share(local: seq<byte>): nat
    requires |local| == 4
  {
    if local == [127, 0, 0, 1] then 512 else if local[0] == 127 && local != [127, 0, 0, 0] then 256 else 0
  }

  lemma ShareIsFibre(local: seq<byte>)
    requires |local| == 4
    ensures Value(local) < 0x1_0000_0000 && Share(local) == FibreSize(Value(local))
  {
    hide Value;
    Spelled(local);
    assert local == [127, 0, 0, 1] <==> local[0] == 127 && local[1] == local[2] == 0 && local[3] == 1;
    assert local == [127, 0, 0, 0] <==> local[0] == 127 && local[1] == local[2] == local[3] == 0;
  }

  // As many octet strings as words, if each is in its set with the other.
  lemma {:induction false} SameCount(s: set<u32>, t: set<seq<byte>>)
    requires forall o :: o in t ==> |o| == 4 && Value(o) in s
    requires forall w :: w in s ==> BigEndian(4, w) in t
    ensures |t| == |s|
    decreases s
  {
    hide Value;
    hide BigEndian;
    if s == {} {
      assert t == {};
    } else {
      var w :| w in s;
      var o := BigEndian(4, w);
      WordBack(w);
      forall p | p in t - {o} ensures |p| == 4 && Value(p) in s - {w} {
        SentTo(p, w);
      }
      forall x | x in s - {w} ensures BigEndian(4, x) in t - {o} {
        SentTo(o, x);
      }
      SameCount(s - {w}, t - {o});
      OneMore(s, w);
      OneMore(t, o);
    }
  }

  lemma OneMore<T>(s: set<T>, x: T)
    requires x in s
    ensures |s| == |s - {x}| + 1
  {
    assert s == (s - {x}) + {x};
  }

  // The peers whose octets p accepts are as many as the words g sends to local.
  lemma CountOctets(p: seq<byte> -> bool, s: set<u32>)
    requires forall o: seq<byte> :: |o| == 4 ==> (p(o) <==> Value(o) in s)
    ensures |FourOctets(p)| == |s|
  {
    hide Value;
    hide BigEndian;
    var t := FourOctets(p);
    forall w | w in s ensures BigEndian(4, w) in t {
      WordBack(w);
    }
    SameCount(s, t);
  }

  // Exactly 512 IPv4 peers share 127.0.0.1, exactly 256 each of the loopback addresses from 127.0.0.2
  // to 127.255.255.255, and none is sent elsewhere.
  lemma Ip4PeerCount(local: seq<byte>)
    requires |local| == 4
    ensures |FourOctets(ip => |ip| == 4 && MapToLocalIp4(ip) == local)| == Share(local)
  {
    hide AsLocalMasked;
    hide MapToLocalIp4;
    hide Value;
    hide FibreSize;
    ShareIsFibre(local);
    var x := Value(local);
    var s := Fibre((w: u32) => w, x);
    var p := ip => |ip| == 4 && MapToLocalIp4(ip) == local;
    forall o: seq<byte> | |o| == 4 ensures p(o) <==> Value(o) in s {
      Spelled(o);
      Ip4Mapped(o[0], o[1], o[2], o[3]);
      assert o == [o[0], o[1], o[2], o[3]];
      SentTo(local, AsLocalMasked(Value(o)));
    }
    CountOctets(p, s);
    Ip4FibreSizes(x);
  }

  // The address with its j-th word replaced.
  function WithWord(ip: seq<byte>, j: nat, o: seq<byte>): (r: seq<byte>)
    requires |ip| == 16 && j < 4 && |o| == 4
    ensures |r| == 16
  {
    ip[..4 * j] + o + ip[4 * j + 4..]
  }

  lemma WordReplaced(ip: seq<byte>, j: nat, o: seq<byte>)
    requires |ip| == 16 && j < 4 && |o| == 4
    ensures Value(o) < 0x1_0000_0000 && WordsOf(WithWord(ip, j, o)) == WordsOf(ip)[j := Value(o)]
  {
    hide Value;
    Spelled(o);
    var r := WithWord(ip, j, o);
    forall k | 0 <= k < 4 ensures WordsOf(r)[k] == WordsOf(ip)[j := Value(o)][k] {
      WordAt(r, k);
      WordAt(ip, k);
      KeptWord(ip, j, o, k);
    }
  }

  lemma KeptWord(ip: seq<byte>, j: nat, o: seq<byte>, k: nat)
    requires |ip| == 16 && j < 4 && |o| == 4 && k < 4
    ensures WithWord(ip, j, o)[4 * k..4 * k + 4] == if k == j then o else ip[4 * k..4 * k + 4]
  {
    var r := WithWord(ip, j, o);
    forall i | 4 * k <= i < 4 * k + 4 ensures r[i] == if k == j then o[i - 4 * k] else ip[i] {
      if k == j {
        assert r[4 * j..4 * j + 4] == o;
      } else if k < j {
        assert r[..4 * j] == ip[..4 * j];
      } else {
        assert r[4 * j + 4..] == ip[4 * j + 4..];
      }
    }
  }

  lemma SlotMapped(ip: seq<byte>, j: nat, o: seq<byte>)
    requires |ip| == 16 && j < 4 && |o| == 4
    ensures Value(o) < 0x1_0000_0000
    ensures MapToLocalIp4(WithWord(ip, j, o)) == BigEndian(4, MapSlot(WordsOf(ip), j, Value(o)))
  {
    hide MapWords;
    hide Value;
    hide BigEndian;
    hide WithWord;
    WordReplaced(ip, j, o);
  }

  // The j-th word's four octets that complete the IPv4-mapped prefix, for j below 3.
  function Completing(j: nat): (o: seq<byte>)
    requires j < 3
    ensures |o| == 4
  {
    if j == 2 then [0, 0, 0xff, 0xff] else [0, 0, 0, 0]
  }

  // All octets before the last word but those of the j-th are the IPv4-mapped prefix.
  predicate LacksOnly(ip: seq<byte>, j: nat)
    requires |ip| == 16 && j < 3
  {
    IsMapped(WithWord(ip, j, Completing(j)))
  }

  lemma CompletingWord(j: nat)
    requires j < 3
    ensures Value(Completing(j)) == MAPPED[j]
  {
    hide Value;
    ZeroWord();
    LowWord();
  }

  lemma LacksOnlyWords(ip: seq<byte>, j: nat)
    requires |ip| == 16 && j < 3
    ensures LacksOnly(ip, j) <==> !NeverMapped(WordsOf(ip), j)
  {
    hide WordsOf;
    hide Value;
    hide WithWord;
    hide IsMapped;
    var words := WordsOf(ip);
    CompletingWord(j);
    WordReplaced(ip, j, Completing(j));
    MappedWords(WithWord(ip, j, Completing(j)));
    OneLeft(words, j);
  }

  lemma OneLeft(words: seq<u32>, j: nat)
    requires |words| == 4 && j < 3
    ensures words[j := MAPPED[j]][..3] == MAPPED <==> !NeverMapped(words, j)
  {
    ThreeWords(words[j := MAPPED[j]]);
    if NeverMapped(words, j) {
      var k :| 0 <= k < 3 && k != j && words[k] != MAPPED[k];
      assert words[j := MAPPED[j]][k] == words[k];
    } else {
      assert j != 0 ==> words[0] == MAPPED[0];
      assert j != 1 ==> words[1] == MAPPED[1];
      assert j != 2 ==> words[2] == MAPPED[2];
    }
  }

  // With twelve octets of an IPv6 peer fixed, the other four spread like those of an IPv4 peer. Only
  // if they can complete the IPv4-mapped prefix does the one completion go elsewhere: not where its
  // words combined would go, but where the last four octets go as an IPv4 peer.
  lemma Ip6PeerCount(ip: seq<byte>, j: nat, local: seq<byte>)
    requires |ip| == 16 && j < 4 && |local| == 4
    ensures |FourOctets(o => |o| == 4 && MapToLocalIp4(WithWord(ip, j, o)) == local)|
         == if j == 3 || !LacksOnly(ip, j) then Share(local)
            else Share(local)
                 - One(BigEndian(4, AsLocalMasked(Combined(WithWord(ip, j, Completing(j))))) == local)
                 + One(MapToLocalIp4(ip[12..]) == local)
  {
    hide AsLocalMasked;
    hide MapToLocalIp4;
    hide MapSlot;
    hide WordsOf;
    hide Combined;
    hide LacksOnly;
    hide NeverMapped;
    hide Keyed;
    hide WithWord;
    hide Value;
    hide BigEndian;
    hide FibreSize;
    hide Share;
    hide SlotFibre;
    ShareIsFibre(local);
    var x, words := Value(local), WordsOf(ip);
    SlotCount(ip, j, local);
    Ip6FibreSizes(words, j, x);
    if j < 3 {
      LacksOnlyWords(ip, j);
      CompletionKey(ip, j);
      SentTo(local, AsLocalMasked(Combined(WithWord(ip, j, Completing(j)))));
      LastWord(ip);
      SentTo(local, AsLocalMasked(words[3]));
    }
  }

  lemma SlotCount(ip: seq<byte>, j: nat, local: seq<byte>)
    requires |ip| == 16 && j < 4 && |local| == 4
    ensures Value(local) < 0x1_0000_0000
    ensures |FourOctets(o => |o| == 4 && MapToLocalIp4(WithWord(ip, j, o)) == local)|
         == |SlotFibre(WordsOf(ip), j, Value(local))|
  {
    hide MapToLocalIp4;
    hide MapSlot;
    hide WordsOf;
    hide WithWord;
    hide Value;
    hide BigEndian;
    Spelled(local);
    var p := o => |o| == 4 && MapToLocalIp4(WithWord(ip, j, o)) == local;
    var s := SlotFibre(WordsOf(ip), j, Value(local));
    forall o: seq<byte> | |o| == 4 ensures p(o) <==> Value(o) in s {
      SlotMapped(ip, j, o);
      SentTo(local, MapSlot(WordsOf(ip), j, Value(o)));
    }
    CountOctets(p, s);
  }

  lemma CompletionKey(ip: seq<byte>, j: nat)
    requires |ip| == 16 && j < 3
    ensures Keyed(WordsOf(ip), j)(MAPPED[j]) == Combined(WithWord(ip, j, Completing(j)))
  {
    hide WordsOf;
    hide Value;
    hide Combine;
    hide Combined;
    hide WithWord;
    hide Completing;
    CompletingWord(j);
    WordReplaced(ip, j, Completing(j));
    CombineWithKey(WordsOf(ip), j, MAPPED[j]);
    CombinedIs(WithWord(ip, j, Completing(j)));
  }

  lemma LastWord(ip: seq<byte>)
    requires |ip| == 16
    ensures MapToLocalIp4(ip[12..]) == BigEndian(4, AsLocalMasked(WordsOf(ip)[3]))
  {
    hide AsLocalMasked;
    hide WordsOf;
    hide Value;
    hide BigEndian;
    hide MapToLocalIp4;
    WordAt(ip, 3);
    Ip4Mapped(ip[12], ip[13], ip[14], ip[15]);
    assert ip[12..] == [ip[12], ip[13], ip[14], ip[15]];
  }

  lemma CombinedIs(ip: seq<byte>)
    requires |ip| == 16
    ensures Combined(ip) == Combine(WordsOf(ip))
  {
    hide Shuffle;
    hide Xor32;
    hide WordsOf;
    hide Value;
    WordAt(ip, 0);
    WordAt(ip, 1);
    WordAt(ip, 2);
    WordAt(ip, 3);
  }

  // A peer keeps its local port as long as it keeps its own, and two peers at one loopback address
  // share a local port exactly when their ports are the same modulo 24000.
  lemma LocalPorts(p: u16, q: u16)
    ensures LocalPort(p) == LocalPort(q) <==> p % 24000 == q % 24000
    ensures p < 24000 ==> LocalPort(p) == 40000 + p
  {}
}
