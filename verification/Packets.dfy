/** The gateway's length-prefixed packets: the bytes one packet is written as,
    what a reader makes of any bytes, and why a stream of packets can be read
    back in only one way. */
module Packets {
  import opened Wrappers

  type Byte = x: int | 0 <= x < 0x100
  type Uint16 = x: int | 0 <= x < 0x1_0000
  type Uint32 = x: int | 0 <= x < 0x1_0000_0000

  const MAGIC: Uint16 := 0xCAFE
  const VERSION: Byte := 1
  const HEADER_SIZE := 14
  const MAX_UINT32: Uint32 := 0xFFFF_FFFF

  /** A packet whose payload may be too long to be written. */
  datatype Packet = Packet(cmd: Uint16, seqNo: Uint32, payload: seq<Byte>)

  datatype PacketError = EndOfStream | UnexpectedEnd | BadMagic | BadVersion | PayloadTooLarge | WriteFailed

  /** The answer to one read, and the bytes it left unread. */
  datatype Decoded = Decoded(result: Result<Packet, PacketError>, rest: seq<Byte>)

  // ------------------------------------------------- numbers, high byte first

  function Bytes16(v: Uint16): (b: seq<Byte>) {
    assert 0x100 * (v / 0x100) <= v;
    [v / 0x100, v % 0x100]
  }

  function Bytes32(v: Uint32): (b: seq<Byte>) {
    Bytes16(v / 0x1_0000) + Bytes16(v % 0x1_0000)
  }

  function Number16(b: seq<Byte>): Uint16
    requires |b| == 2
  {
    b[0] as int * 0x100 + b[1] as int
  }

  function Number32(b: seq<Byte>): Uint32
    requires |b| == 4
  {
    Number16(b[..2]) * 0x1_0000 + Number16(b[2..])
  }

  lemma RoundTrip16(v: Uint16, b: seq<Byte>)
    requires |b| == 2
    ensures Number16(Bytes16(v)) == v && Bytes16(Number16(b)) == b
  {
    HighAndLow(b[0], b[1]);
    assert b == [b[0], b[1]];
  }

  lemma HighAndLow(hi: int, lo: Byte)
    ensures (hi * 0x100 + lo) / 0x100 == hi && (hi * 0x100 + lo) % 0x100 == lo
  {
  }

  lemma RoundTrip32(v: Uint32, b: seq<Byte>)
    requires |b| == 4
    ensures Number32(Bytes32(v)) == v && Bytes32(Number32(b)) == b
  {
    var hi, lo := Number16(b[..2]), Number16(b[2..]);
    var w := Number32(b);
    assert w / 0x1_0000 == hi && w % 0x1_0000 == lo;
    RoundTrip16(v / 0x1_0000, b[..2]);
    RoundTrip16(v % 0x1_0000, b[2..]);
    hide Bytes16, Number16;
    assert Bytes32(v)[..2] == Bytes16(v / 0x1_0000);
    assert Bytes32(v)[2..] == Bytes16(v % 0x1_0000);
    assert b == b[..2] + b[2..];
  }

  // ------------------------------------------------- one packet

  function Header(p: Packet): (h: seq<Byte>)
    requires |p.payload| <= MAX_UINT32
    ensures |h| == HEADER_SIZE
  {
    Bytes16(MAGIC) + [VERSION, 0] + Bytes16(p.cmd) + Bytes32(p.seqNo) + Bytes32(|p.payload|)
  }

  function Encode(p: Packet): seq<Byte>
    requires |p.payload| <= MAX_UINT32
  {
    Header(p) + p.payload
  }

  /** The layout of a packet, byte by byte: the magic number, the version, the
      reserved byte, the command, the number and the length, each high byte first,
      and then the payload. */
  lemma Layout(p: Packet)
    requires |p.payload| <= MAX_UINT32
    ensures var s := Encode(p);
            && |s| == 14 + |p.payload| && s[14..] == p.payload
            && s[0] == 0xCA && s[1] == 0xFE && s[2] == 1 && s[3] == 0
            && s[4] as int * 0x100 + s[5] == p.cmd
            && s[6] as int * 0x100_0000 + s[7] as int * 0x1_0000 + s[8] as int * 0x100 + s[9] == p.seqNo
            && s[10] as int * 0x100_0000 + s[11] as int * 0x1_0000 + s[12] as int * 0x100 + s[13] == |p.payload|
  {
    FourBytesAdd(p.seqNo);
    FourBytesAdd(|p.payload|);
  }

  lemma FourBytesAdd(v: Uint32)
    ensures var b := Bytes32(v);
            |b| == 4 && b[0] as int * 0x100_0000 + b[1] as int * 0x1_0000 + b[2] as int * 0x100 + b[3] == v
  {
  }

  predicate Writable(p: Packet, max: Uint32) {
    |p.payload| <= max
  }

  function ShortRead(got: nat): PacketError {
    if got == 0 then EndOfStream else UnexpectedEnd
  }

  function LengthField(s: seq<Byte>): Uint32
    requires |s| >= HEADER_SIZE
  {
    Number32(s[10..14])
  }

  /** The first bytes are a header that a reader goes along with. */
  predicate GoodHeader(s: seq<Byte>, max: Uint32) {
    && |s| >= HEADER_SIZE && Number16(s[..2]) == MAGIC && s[2] == VERSION
    && LengthField(s) <= max
  }

  /** What one read makes of the bytes still to come. */
  function Decode(s: seq<Byte>, max: Uint32): Decoded {
    if |s| < HEADER_SIZE then Decoded(Err(ShortRead(|s|)), [])
    else if Number16(s[..2]) != MAGIC then Decoded(Err(BadMagic), s[HEADER_SIZE..])
    else if s[2] != VERSION then Decoded(Err(BadVersion), s[HEADER_SIZE..])
    else if LengthField(s) > max then Decoded(Err(PayloadTooLarge), s[HEADER_SIZE..])
    else
      var n, body := LengthField(s), s[HEADER_SIZE..];
      if |body| < n then Decoded(Err(ShortRead(|body|)), [])
      else Decoded(Ok(Packet(Number16(s[4..6]), Number32(s[6..10]), body[..n])), body[n..])
  }

  lemma HeaderFields(p: Packet, t: seq<Byte>)
    requires |p.payload| <= MAX_UINT32
    ensures var s := Header(p) + t;
            && s[..2] == Bytes16(MAGIC) && s[2] == VERSION && s[3] == 0 && s[4..6] == Bytes16(p.cmd)
            && s[6..10] == Bytes32(p.seqNo) && s[10..14] == Bytes32(|p.payload|) && s[HEADER_SIZE..] == t
  {
  }

  lemma HeaderIsGood(p: Packet, t: seq<Byte>, max: Uint32)
    requires Writable(p, max)
    ensures var s := Header(p) + t;
            && GoodHeader(s, max) && LengthField(s) == |p.payload|
            && Number16(s[4..6]) == p.cmd && Number32(s[6..10]) == p.seqNo && s[HEADER_SIZE..] == t
  {
    HeaderFields(p, t);
    hide Bytes16, Bytes32, Number16, Number32, Header;
    RoundTrip16(MAGIC, [0, 0]);
    RoundTrip16(p.cmd, [0, 0]);
    RoundTrip32(p.seqNo, [0, 0, 0, 0]);
    RoundTrip32(|p.payload|, [0, 0, 0, 0]);
  }

  /** Reading back a written packet gives that packet and leaves exactly what
      was written after it. */
  lemma DecodeInvertsEncode(p: Packet, t: seq<Byte>, max: Uint32)
    requires Writable(p, max)
    ensures Decode(Encode(p) + t, max) == Decoded(Ok(p), t)
  {
    hide Header, LengthField, Number16, Number32;
    var s := Encode(p) + t;
    assert s == Header(p) + (p.payload + t);
    HeaderIsGood(p, p.payload + t, max);
    assert (p.payload + t)[..|p.payload|] == p.payload;
    assert (p.payload + t)[|p.payload|..] == t;
  }

  /** A packet cut anywhere is an error, and always one of running dry. A cut
      right after the header of a packet with a payload cannot be told from a
      clean end of the stream. */
  lemma StrictPrefixRunsDry(p: Packet, k: nat, max: Uint32)
    requires Writable(p, max) && k < |Encode(p)|
    ensures Decode(Encode(p)[..k], max) ==
            Decoded(Err(if k == 0 || k == HEADER_SIZE then EndOfStream else UnexpectedEnd), [])
  {
    hide Header, LengthField, Number16, Number32;
    if k >= HEADER_SIZE {
      var s := Encode(p)[..k];
      assert s == Header(p) + p.payload[..k - HEADER_SIZE];
      HeaderIsGood(p, p.payload[..k - HEADER_SIZE], max);
    }
  }

  /** A packet is read from exactly the bytes it is written as, but for the
      reserved flag byte, which readers ignore. */
  lemma OnlyEncodingsDecode(s: seq<Byte>, max: Uint32)
    ensures Decode(s, max).result.Ok? <==> GoodHeader(s, max) && HEADER_SIZE + LengthField(s) <= |s|
    ensures Decode(s, max).result.Ok? ==>
              var p, t := Decode(s, max).result.value, Decode(s, max).rest;
              && Writable(p, max) && s == Encode(p)[3 := s[3]] + t
              && (s == Encode(p) + t <==> s[3] == 0)
  {
    if Decode(s, max).result.Ok? {
      var p, t := Decode(s, max).result.value, Decode(s, max).rest;
      HeaderRebuilt(s, p);
      assert s == s[..HEADER_SIZE] + s[HEADER_SIZE..];
      hide Header, LengthField, Number16, Number32;
      assert Encode(p)[3] == Header(p)[3] == 0;
      assert Encode(p)[3 := s[3]] == Header(p)[3 := s[3]] + p.payload;
      assert s[HEADER_SIZE..] == p.payload + t;
      if s[3] == 0 {
        assert Encode(p)[3 := 0] == Encode(p);
      }
    }
  }

  /** A set flag byte goes unnoticed: the bytes read as the packet they carry,
      though nothing is ever written as those bytes. */
  lemma FlagIsIgnored(p: Packet, flag: Byte, t: seq<Byte>, max: Uint32)
    requires Writable(p, max)
    ensures Decode(Encode(p)[3 := flag] + t, max) == Decoded(Ok(p), t)
    ensures flag != 0 ==> forall q :: Writable(q, MAX_UINT32) ==> Encode(q) != Encode(p)[3 := flag]
  {
    DecodeInvertsEncode(p, t, max);
    var s, f := Encode(p) + t, Encode(p)[3 := flag] + t;
    assert s[..2] == f[..2] && s[2] == f[2] && s[4..6] == f[4..6] && s[6..10] == f[6..10] && s[10..14] == f[10..14];
    assert s[HEADER_SIZE..] == f[HEADER_SIZE..];
    hide Number16, Number32;
    forall q | Writable(q, MAX_UINT32) && flag != 0 ensures Encode(q) != Encode(p)[3 := flag] {
      HeaderFields(q, q.payload);
    }
  }

  lemma HeaderRebuilt(s: seq<Byte>, p: Packet)
    requires |s| >= HEADER_SIZE && |p.payload| <= MAX_UINT32
    requires Number16(s[..2]) == MAGIC && s[2] == VERSION && LengthField(s) == |p.payload|
    requires Number16(s[4..6]) == p.cmd && Number32(s[6..10]) == p.seqNo
    ensures s[..HEADER_SIZE] == Header(p)[3 := s[3]] && Header(p)[3] == 0
  {
    RoundTrip16(0, s[..2]);
    RoundTrip16(0, s[4..6]);
    RoundTrip32(0, s[6..10]);
    RoundTrip32(0, s[10..14]);
    hide Bytes16, Bytes32, Number16, Number32;
    HeaderFields(p, []);
    assert Header(p) + [] == Header(p);
    Reassembled(s, s[..2], s[4..6], s[6..10], s[10..14]);
  }

  lemma Reassembled(s: seq<Byte>, magic: seq<Byte>, cmd: seq<Byte>, seqNo: seq<Byte>, length: seq<Byte>)
    requires |s| >= HEADER_SIZE && s[2] == VERSION
    requires s[..2] == magic && s[4..6] == cmd && s[6..10] == seqNo && s[10..14] == length
    ensures s[..HEADER_SIZE] == magic + [VERSION, s[3]] + cmd + seqNo + length
  {
  }

  // ------------------------------------------------- streams of packets

  predicate AllFit(ps: seq<Packet>, max: Uint32) {
    forall i :: 0 <= i < |ps| ==> Writable(ps[i], max)
  }

  function EncodeAll(ps: seq<Packet>, max: Uint32): seq<Byte>
    requires AllFit(ps, max)
  {
    if ps == [] then [] else Encode(ps[0]) + EncodeAll(ps[1..], max)
  }

  /** Everything a reader gets out of a stream before its first error. */
  function ReadAll(s: seq<Byte>, max: Uint32): (seq<Packet>, PacketError)
    decreases |s|
  {
    var r := Decode(s, max);
    match r.result
    case Err(e) => ([], e)
    case Ok(p) =>
      var more := ReadAll(r.rest, max);
      ([p] + more.0, more.1)
  }

  /** How many packets are complete in the first k bytes of the stream. */
  function Complete(ps: seq<Packet>, k: nat, max: Uint32): (n: nat)
    requires AllFit(ps, max)
    ensures n <= |ps|
  {
    if ps == [] || k < |Encode(ps[0])| then 0 else 1 + Complete(ps[1..], k - |Encode(ps[0])|, max)
  }

  lemma EmptyStreamEnds(max: Uint32)
    ensures Decode([], max) == Decoded(Err(EndOfStream), [])
  {
  }

  /** Whatever arrives of a stream of packets, the reader gets exactly the
      packets that arrived complete, in order, and then a stream that ended. */
  lemma {:induction false} CutStreamReads(ps: seq<Packet>, k: nat, max: Uint32)
    requires AllFit(ps, max) && k <= |EncodeAll(ps, max)|
    ensures var r := ReadAll(EncodeAll(ps, max)[..k], max);
            r.0 == ps[..Complete(ps, k, max)] && r.1 in {EndOfStream, UnexpectedEnd}
  {
    hide Decode, Encode;
    if ps == [] {
      EmptyStreamEnds(max);
    } else {
      var p := ps[0];
      var whole, rest := EncodeAll(ps, max), EncodeAll(ps[1..], max);
      if k < |Encode(p)| {
        assert whole[..k] == Encode(p)[..k];
        StrictPrefixRunsDry(p, k, max);
      } else {
        var j := k - |Encode(p)|;
        assert whole[..k] == Encode(p) + rest[..j];
        DecodeInvertsEncode(p, rest[..j], max);
        CutStreamReads(ps[1..], j, max);
        assert [p] + ps[1..][..Complete(ps[1..], j, max)] == ps[..Complete(ps, k, max)];
      }
    }
  }

  /** Reading the written bytes of any packets yields those packets and leaves
      nothing over. */
  lemma {:induction false} StreamRoundTrip(ps: seq<Packet>, max: Uint32)
    requires AllFit(ps, max)
    ensures ReadAll(EncodeAll(ps, max), max) == (ps, EndOfStream)
  {
    hide Decode, Encode;
    if ps == [] {
      EmptyStreamEnds(max);
    } else {
      DecodeInvertsEncode(ps[0], EncodeAll(ps[1..], max), max);
      StreamRoundTrip(ps[1..], max);
      assert [ps[0]] + ps[1..] == ps;
    }
  }

  /** No two different sequences of packets are written as the same bytes. */
  lemma StreamsAreUnique(ps: seq<Packet>, qs: seq<Packet>, max: Uint32)
    requires AllFit(ps, max) && AllFit(qs, max) && EncodeAll(ps, max) == EncodeAll(qs, max)
    ensures ps == qs
  {
    StreamRoundTrip(ps, max);
    StreamRoundTrip(qs, max);
  }

  // ------------------------------------------------- the codec on buffers

  /** A byte stream: what was written and not read yet, and how many more bytes
      its connection will take before it fails. */
  class Stream {
    var Unread: seq<Byte>
    var Space: nat

    constructor (space: nat)
      ensures Unread == [] && Space == space
    {
      Unread, Space := [], space;
    }

    /** Takes all of the bytes, or as many as go through before the failure. */
    method Write(b: seq<Byte>) returns (ok: bool)
      modifies this
      ensures var n := Accepted(b, old(Space)); Unread == old(Unread) + b[..n] && Space == old(Space) - n
      ensures ok <==> |b| <= old(Space)
    {
      var n := Accepted(b, Space);
      ok := n == |b|;
      Unread, Space := Unread + b[..n], Space - n;
    }

    /** Fills the whole buffer, or says that the stream ended before. */
    method ReadFull(buf: array<Byte>) returns (read: Result<nat, PacketError>)
      modifies this, buf
      ensures Space == old(Space)
      ensures var n := buf.Length;
              if n <= |old(Unread)| then
                read == Ok(n) && buf[..] == old(Unread)[..n] && Unread == old(Unread)[n..]
              else read == Err(ShortRead(|old(Unread)|)) && Unread == []
    {
      var i := 0;
      while i < buf.Length && Unread != []
        invariant Space == old(Space) && 0 <= i <= buf.Length && i <= |old(Unread)|
        invariant Unread == old(Unread)[i..] && buf[..i] == old(Unread)[..i]
      {
        buf[i] := Unread[0];
        Unread := Unread[1..];
        i := i + 1;
      }
      if i == buf.Length {
        return Ok(i);
      }
      return Err(ShortRead(i));
    }
  }

  function Accepted(b: seq<Byte>, space: nat): (n: nat)
    ensures n <= |b| && n <= space
  {
    if |b| <= space then |b| else space
  }

  method PutUint16(buf: array<Byte>, at: nat, v: Uint16)
    requires at + 2 <= buf.Length
    modifies buf
    ensures buf[..] == old(buf[..at]) + Bytes16(v) + old(buf[at + 2..])
  {
    buf[at] := v / 0x100;
    buf[at + 1] := v % 0x100;
  }

  lemma FourBytes(v: Uint32)
    ensures Bytes32(v) == [v / 0x100_0000, v / 0x1_0000 % 0x100, v / 0x100 % 0x100, v % 0x100]
  {
    var hi, lo := v / 0x1_0000, v % 0x1_0000;
    assert v == hi * 0x1_0000 + lo;
    assert v / 0x100 == hi * 0x100 + lo / 0x100;
  }

  method PutUint32(buf: array<Byte>, at: nat, v: Uint32)
    requires at + 4 <= buf.Length
    modifies buf
    ensures buf[..] == old(buf[..at]) + Bytes32(v) + old(buf[at + 4..])
  {
    FourBytes(v);
    hide Bytes32;
    buf[at] := v / 0x100_0000;
    buf[at + 1] := v / 0x1_0000 % 0x100;
    buf[at + 2] := v / 0x100 % 0x100;
    buf[at + 3] := v % 0x100;
  }

  /** Writes the packet's encoding, or as much of it as the connection takes. */
  method WritePacket(w: Stream, p: Packet) returns (result: Result<nat, PacketError>)
    modifies w
    ensures !Writable(p, MAX_UINT32) ==>
              result == Err(PayloadTooLarge) && w.Unread == old(w.Unread) && w.Space == old(w.Space)
    ensures Writable(p, MAX_UINT32) ==>
              var n := Accepted(Encode(p), old(w.Space));
              && w.Unread == old(w.Unread) + Encode(p)[..n] && w.Space == old(w.Space) - n
              && result == if n == |Encode(p)| then Ok(n) else Err(WriteFailed)
  {
    var payloadLen := |p.payload|;
    if payloadLen > MAX_UINT32 {
      return Err(PayloadTooLarge);
    }
    var header := new Byte[HEADER_SIZE](i => 0);
    PutUint16(header, 0, MAGIC);
    header[2] := VERSION;
    header[3] := 0;
    PutUint16(header, 4, p.cmd);
    PutUint32(header, 6, p.seqNo);
    PutUint32(header, 10, payloadLen);
    assert header[..] == Header(p);
    hide Header;
    TakenInTwo(Header(p), p.payload, w.Space, w.Unread);
    var ok := w.Write(header[..]);
    if !ok {
      return Err(WriteFailed);
    }
    if payloadLen == 0 {
      assert p.payload[..0] == [] && w.Unread + [] == w.Unread;
      return Ok(HEADER_SIZE);
    }
    ok := w.Write(p.payload);
    if !ok {
      return Err(WriteFailed);
    }
    return Ok(HEADER_SIZE + payloadLen);
  }

  /** Two writes take what one write of both would. */
  lemma TakenInTwo(a: seq<Byte>, b: seq<Byte>, space: nat, before: seq<Byte>)
    ensures var n, k := Accepted(a + b, space), Accepted(a, space);
            if k < |a| then n == k && before + (a + b)[..n] == before + a[..k]
            else
              var j := Accepted(b, space - k);
              n == k + j && before + (a + b)[..n] == before + a[..k] + b[..j]
  {
    var n, k := Accepted(a + b, space), Accepted(a, space);
    if k < |a| {
      assert (a + b)[..n] == a[..k];
    } else {
      assert (a + b)[..n] == a[..k] + b[..Accepted(b, space - k)];
    }
  }

  method ReadPacket(r: Stream, maxPayload: Uint32) returns (result: Result<Packet, PacketError>)
    modifies r
    ensures Decoded(result, r.Unread) == Decode(old(r.Unread), maxPayload) && r.Space == old(r.Space)
  {
    ghost var s := r.Unread;
    var header := new Byte[HEADER_SIZE](i => 0);
    var filled := r.ReadFull(header);
    if filled.Err? {
      return Err(filled.error);
    }
    if Number16(header[0..2]) != MAGIC {
      return Err(BadMagic);
    }
    if header[2] != VERSION {
      return Err(BadVersion);
    }
    var cmd, seqNo, payloadLen := Number16(header[4..6]), Number32(header[6..10]), Number32(header[10..14]);
    assert header[0..2] == s[..2] && header[4..6] == s[4..6];
    assert header[6..10] == s[6..10] && header[10..14] == s[10..14];
    if payloadLen > maxPayload {
      return Err(PayloadTooLarge);
    }
    var payload := new Byte[payloadLen](i => 0);
    filled := r.ReadFull(payload);
    if filled.Err? {
      return Err(filled.error);
    }
    return Ok(Packet(cmd, seqNo, payload[..]));
  }
}
