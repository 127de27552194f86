// tunnel/bigint.go: fixed-width big-endian fields, byte buffers and socket addresses.
module BigInt {
  import opened Bytes

  // NilDereference and SliceTooLong stand for the Go program stopping at a nil pointer and at a
  // make([]byte, n) whose n is not an int.
  datatype Failure = ShortBuffer | SliceTooLong | UnknownFamily | UnknownTag | NothingSet | NilDereference

  datatype Result<+T> = Success(value: T) | Failure(error: Failure) {
    predicate IsFailure() { Failure? }

    function PropagateFailure<U>(): Result<U>
      requires Failure?
    {
      Failure(error)
    }

    function Extract(): T
      requires Success?
    {
      value
    }

    function At(rest: seq<byte>): Parsed<T> {
      match this
      case Success(v) => Parsed(v, rest)
      case Failure(e) => Rejected(e, rest)
    }
  }

  // What a reader yields and what it leaves in the stream, also when it fails.
  datatype Parsed<+T> = Parsed(value: T, rest: seq<byte>) | Rejected(error: Failure, rest: seq<byte>) {
    predicate IsFailure() { Rejected? }

    function PropagateFailure<U>(): Parsed<U>
      requires Rejected?
    {
      Rejected(error, rest)
    }

    function Extract(): (T, seq<byte>)
      requires Parsed?
    {
      (value, rest)
    }
  }

  // Integer fields: a short read swallows what is left and yields 0.
  function TakeUint(n: nat, s: seq<byte>): (r: (nat, seq<byte>))
    ensures r.0 < Pow256(n)
  {
    if |s| < n then (0, []) else
      BigEndianOfValue(s[..n]);
      (Value(s[..n]), s[n..])
  }

  function TakeU8(s: seq<byte>): (byte, seq<byte>) { Pow256Values(); var r := TakeUint(1, s); (r.0, r.1) }

  function TakeU16(s: seq<byte>): (u16, seq<byte>) { Pow256Values(); var r := TakeUint(2, s); (r.0, r.1) }

  function TakeU32(s: seq<byte>): (u32, seq<byte>) { Pow256Values(); var r := TakeUint(4, s); (r.0, r.1) }

  function TakeU64(s: seq<byte>): (u64, seq<byte>) { Pow256Values(); var r := TakeUint(8, s); (r.0, r.1) }

  // Byte buffers: a short read swallows what is left and fails.
  function TakeBytes(n: nat, s: seq<byte>): (r: Parsed<seq<byte>>)
    ensures r.Parsed? ==> |r.value| == n
  {
    if |s| < n then Rejected(ShortBuffer, []) else Parsed(s[..n], s[n..])
  }

  function PutOptionU32(value: Option<u32>): seq<byte> {
    match value
    case None => BigEndian(1, 0)
    case Some(v) => BigEndian(1, 1) + BigEndian(4, v)
  }

  function PutOptionU64(value: Option<u64>): seq<byte> {
    match value
    case None => BigEndian(1, 0)
    case Some(v) => BigEndian(1, 1) + BigEndian(8, v)
  }

  // The readers these writers call for: a value follows exactly when the first octet is 1.
  function TakeOptionU32(s: seq<byte>): (Option<u32>, seq<byte>) {
    var (code, s) := TakeU8(s);
    if code != 1 then (None, s) else
      var (v, s) := TakeU32(s);
      (Some(v), s)
  }

  function TakeOptionU64(s: seq<byte>): (Option<u64>, seq<byte>) {
    var (code, s) := TakeU8(s);
    if code != 1 then (None, s) else
      var (v, s) := TakeU64(s);
      (Some(v), s)
  }

  // A 64-bit length and that many octets.
  function PutToken(t: Slice): seq<byte> { BigEndian(8, |t|) + t }

  function TakeToken(s: seq<byte>): Parsed<Slice> {
    var (n, s) := TakeU64(s);
    if n >= 0x8000_0000_0000_0000 then Rejected(SliceTooLong, s) else
      var (t, s) :- TakeBytes(n, s);
      Parsed(t, s)
  }

  lemma UintBack(n: nat, v: nat, s: seq<byte>)
    requires v < Pow256(n)
    ensures TakeUint(n, BigEndian(n, v) + s) == (v, s)
  {
    ValueOfBigEndian(n, v);
    var t := BigEndian(n, v) + s;
    assert t[..n] == BigEndian(n, v) && t[n..] == s;
  }

  lemma U8Back(v: byte, s: seq<byte>)
    ensures TakeU8(BigEndian(1, v) + s) == (v, s)
  {
    Pow256Values();
    UintBack(1, v, s);
  }

  lemma U16Back(v: u16, s: seq<byte>)
    ensures TakeU16(BigEndian(2, v) + s) == (v, s)
  {
    Pow256Values();
    UintBack(2, v, s);
  }

  lemma U32Back(v: u32, s: seq<byte>)
    ensures TakeU32(BigEndian(4, v) + s) == (v, s)
  {
    Pow256Values();
    UintBack(4, v, s);
  }

  lemma U64Back(v: u64, s: seq<byte>)
    ensures TakeU64(BigEndian(8, v) + s) == (v, s)
  {
    Pow256Values();
    UintBack(8, v, s);
  }

  lemma BytesBack(t: seq<byte>, s: seq<byte>)
    ensures TakeBytes(|t|, t + s) == Parsed(t, s)
  {
    assert (t + s)[..|t|] == t && (t + s)[|t|..] == s;
  }

  lemma OptionU32Back(v: Option<u32>, s: seq<byte>)
    ensures TakeOptionU32(PutOptionU32(v) + s) == (v, s)
  {
    match v
    case None => U8Back(0, s);
    case Some(x) =>
      assert PutOptionU32(v) + s == BigEndian(1, 1) + (BigEndian(4, x) + s);
      U8Back(1, BigEndian(4, x) + s);
      U32Back(x, s);
  }

  lemma OptionU64Back(v: Option<u64>, s: seq<byte>)
    ensures TakeOptionU64(PutOptionU64(v) + s) == (v, s)
  {
    match v
    case None => U8Back(0, s);
    case Some(x) =>
      assert PutOptionU64(v) + s == BigEndian(1, 1) + (BigEndian(8, x) + s);
      U8Back(1, BigEndian(8, x) + s);
      U64Back(x, s);
  }

  lemma TokenBack(t: Slice, s: seq<byte>)
    ensures TakeToken(PutToken(t) + s) == Parsed(t, s)
  {
    assert PutToken(t) + s == BigEndian(8, |t|) + (t + s);
    U64Back(|t|, t + s);
    BytesBack(t, s);
  }

  lemma TokenTruncated(t: Slice, k: nat)
    requires k < 8 + |t|
    ensures var r := TakeToken(PutToken(t)[..k]);
            if k < 8 then r == Parsed([], []) else r == Rejected(ShortBuffer, [])
  {
    var cut := PutToken(t)[..k];
    if k >= 8 {
      assert cut == BigEndian(8, |t|) + cut[8..];
      U64Back(|t|, cut[8..]);
    }
  }

  // A length that is not an int stops the reader before it reads on; an option octet other than 1
  // means that no value follows.
  lemma OddPrefixes(n: u64, code: byte, s: seq<byte>)
    ensures n >= 0x8000_0000_0000_0000 ==> TakeToken(BigEndian(8, n) + s) == Rejected(SliceTooLong, s)
    ensures code != 1 ==> TakeOptionU32([code] + s) == (None, s) && TakeOptionU64([code] + s) == (None, s)
  {
    U64Back(n, s);
    U8Back(code, s);
    assert BigEndian(1, code) == [code];
  }

  // A bytes.Buffer: writers append to it, readers consume it from the front.
  class Buffer {
    var data: seq<byte>

    constructor (s: seq<byte>)
      ensures data == s
    {
      data := s;
    }

    method Write(s: seq<byte>)
      modifies this
      ensures data == old(data) + s
    {
      data := data + s;
    }

    method WriteUint(n: nat, v: nat)
      modifies this
      ensures data == old(data) + BigEndian(n, v)
    {
      data := data + BigEndian(n, v);
    }

    method WriteOptionU32(value: Option<u32>)
      modifies this
      ensures data == old(data) + PutOptionU32(value)
    {
      if value.None? {
        WriteUint(1, 0);
      } else {
        WriteUint(1, 1);
        WriteUint(4, value.value);
        assert data == old(data) + PutOptionU32(value);
      }
    }

    method WriteOptionU64(value: Option<u64>)
      modifies this
      ensures data == old(data) + PutOptionU64(value)
    {
      if value.None? {
        WriteUint(1, 0);
      } else {
        WriteUint(1, 1);
        WriteUint(8, value.value);
        assert data == old(data) + PutOptionU64(value);
      }
    }

    method WriteToken(t: Slice)
      modifies this
      ensures data == old(data) + PutToken(t)
    {
      WriteUint(8, |t|);
      Write(t);
      assert data == old(data) + PutToken(t);
    }

    method ReadUint(n: nat) returns (v: nat)
      modifies this
      ensures (v, data) == TakeUint(n, old(data))
    {
      if |data| < n {
        v, data := 0, [];
      } else {
        v, data := Value(data[..n]), data[n..];
      }
    }

    method ReadU8() returns (v: byte)
      modifies this
      ensures (v, data) == TakeU8(old(data))
    {
      Pow256Values();
      v := ReadUint(1);
    }

    method ReadU16() returns (v: u16)
      modifies this
      ensures (v, data) == TakeU16(old(data))
    {
      Pow256Values();
      v := ReadUint(2);
    }

    method ReadU32() returns (v: u32)
      modifies this
      ensures (v, data) == TakeU32(old(data))
    {
      Pow256Values();
      v := ReadUint(4);
    }

    method ReadU64() returns (v: u64)
      modifies this
      ensures (v, data) == TakeU64(old(data))
    {
      Pow256Values();
      v := ReadUint(8);
    }

    // Fills the slice octet by octet; on a short stream the octets read so far stay in it.
    method ReadBuff(buff: array<byte>) returns (ok: bool)
      modifies this, buff
      ensures ok <==> buff.Length <= |old(data)|
      ensures ok ==> buff[..] == old(data)[..buff.Length] && data == old(data)[buff.Length..]
      ensures !ok ==> data == [] && buff[..] == old(data) + old(buff[..])[|old(data)|..]
    {
      for index := 0 to buff.Length
        invariant index <= |old(data)| && data == old(data)[index..]
        invariant buff[..index] == old(data)[..index]
        invariant buff[index..] == old(buff[..])[index..]
      {
        if data == [] {
          assert buff[..] == buff[..index] + buff[index..];
          return false;
        }
        var octet := data[0];
        assert old(buff[..])[index..][1..] == old(buff[..])[index + 1..];
        assert buff[index..][1..] == buff[index + 1..];
        buff[index], data := octet, data[1..];
      }
      ok := true;
    }

    method ReadBuffN(size: nat) returns (r: Result<seq<byte>>)
      modifies this
      ensures r.At(data) == TakeBytes(size, old(data))
    {
      var buff := new byte[size];
      var ok := ReadBuff(buff);
      r := if ok then Success(buff[..]) else Failure(ShortBuffer);
    }

    method ReadOptionU32() returns (v: Option<u32>)
      modifies this
      ensures (v, data) == TakeOptionU32(old(data))
    {
      v := None;
      var code := ReadU8();
      if code == 1 {
        var x := ReadU32();
        v := Some(x);
      }
    }

    method ReadOptionU64() returns (v: Option<u64>)
      modifies this
      ensures (v, data) == TakeOptionU64(old(data))
    {
      v := None;
      var code := ReadU8();
      if code == 1 {
        var x := ReadU64();
        v := Some(x);
      }
    }

    method ReadToken() returns (r: Result<Slice>)
      modifies this
      ensures r.At(data) == TakeToken(old(data))
    {
      var n := ReadU64();
      if n >= 0x8000_0000_0000_0000 {
        return Failure(SliceTooLong);
      }
      var t :- ReadBuffN(n);
      r := Success(t);
    }
  }

  type Octets4 = s: seq<byte> | |s| == 4 witness [0, 0, 0, 0]
  type Octets16 = s: seq<byte> | |s| == 16 witness Zeros(16)

  // netip.Addr without zones; Unset is its zero value.
  datatype Addr = Unset | Ip4(octets4: Octets4) | Ip6(octets16: Octets16) {
    function Octets(): (s: seq<byte>)
      ensures |s| == if Unset? then 0 else if Ip4? then 4 else 16
    {
      match this
      case Unset => []
      case Ip4(o) => o
      case Ip6(o) => o
    }
  }

  datatype AddrPort = AddrPort(addr: Addr, port: u16) {
    predicate IsValid() { !addr.Unset? }

    function Encode(): seq<byte> {
      BigEndian(1, if addr.Ip6? then 6 else 4) + addr.Octets() + BigEndian(2, port)
    }

    static function Parse(s: seq<byte>): (r: Parsed<AddrPort>)
      ensures r.Parsed? ==> r.value.IsValid()
    {
      var (family, s) := TakeU8(s);
      if family == 4 then
        var (octets, s) :- TakeBytes(4, s);
        var (port, s) := TakeU16(s);
        Parsed(AddrPort(Ip4(octets), port), s)
      else if family == 6 then
        var (octets, s) :- TakeBytes(16, s);
        var (port, s) := TakeU16(s);
        Parsed(AddrPort(Ip6(octets), port), s)
      else
        Rejected(UnknownFamily, s)
    }

    method WriteTo(w: Buffer)
      modifies w
      ensures w.data == old(w.data) + Encode()
    {
      if addr.Ip6? {
        w.WriteUint(1, 6);
      } else {
        w.WriteUint(1, 4);
      }
      w.Write(addr.Octets());
      w.WriteUint(2, port);
      assert w.data == old(w.data) + Encode();
    }

    static method ReadFrom(r: Buffer) returns (p: Result<AddrPort>)
      modifies r
      ensures p.At(r.data) == Parse(old(r.data))
    {
      var family := r.ReadU8();
      if family == 4 {
        var octets :- r.ReadBuffN(4);
        var port := r.ReadU16();
        return Success(AddrPort(Ip4(octets), port));
      } else if family == 6 {
        var octets :- r.ReadBuffN(16);
        var port := r.ReadU16();
        return Success(AddrPort(Ip6(octets), port));
      }
      return Failure(UnknownFamily);
    }

    // Exactly the valid addresses survive the trip through the wire.
    lemma Back(s: seq<byte>)
      ensures Parse(Encode() + s) == Parsed(this, s) <==> IsValid()
    {
      if IsValid() {
        var tail := BigEndian(2, port) + s;
        var body := addr.Octets() + tail;
        assert Encode() + s == BigEndian(1, if addr.Ip6? then 6 else 4) + body;
        U8Back(if addr.Ip6? then 6 else 4, body);
        BytesBack(addr.Octets(), tail);
        U16Back(port, s);
      }
    }

    lemma Truncated(k: nat)
      requires IsValid() && k < |Encode()|
      ensures var r := Parse(Encode()[..k]);
              if k < 1 + |addr.Octets()| then r == Rejected(if k == 0 then UnknownFamily else ShortBuffer, [])
              else r == Parsed(this.(port := 0), [])
    {
      hide BigEndian;
      hide Value;
      if k > 0 {
        var family := if addr.Ip6? then 6 else 4;
        var body := addr.Octets() + BigEndian(2, port);
        Assoc(BigEndian(1, family), addr.Octets(), BigEndian(2, port));
        Cut(BigEndian(1, family), body, k);
        U8Back(family, body[..k - 1]);
        if k >= 1 + |addr.Octets()| {
          var rest := BigEndian(2, port)[..k - 1 - |addr.Octets()|];
          Cut(addr.Octets(), BigEndian(2, port), k - 1);
          BytesBack(addr.Octets(), rest);
        }
      }
    }
  }
}
