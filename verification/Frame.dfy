/** Frames on the wire: a twelve-byte big-endian header, then the payload it describes. */
module Frame {
  import B = Bytes
  import opened Crc
  import CrcOrder

  function Magic(): (m: seq<Byte>)
    ensures |m| == 4
  {
    [0x4E, 0x45, 0x58, 0x54]
  }

  const VERSION: Byte := 0x01

  const AUTH: Byte := 0x01
  const TELEMETRY: Byte := 0x02
  const ACK: Byte := 0x03
  const ERROR: Byte := 0x04

  const HEADER: nat := 12
  const LENGTHS: nat := 0x1_0000_0000

  datatype Frame = Frame(msgType: Byte, payload: seq<Byte>)

  /** Overrun is no exception of the source: its buffer is too small for the header and it writes past the end. */
  datatype Error = TooSmall | BadMagic | BadVersion | TooShort | CrcMismatch | EndOfStream | Overrun

  datatype Result<T> = Ok(value: T) | Failed(error: Error)

  // ---- Fixed-width fields ----------------------------------------------------

  function Power(k: nat): (p: nat)
    ensures p > 0
  {
    if k == 0 then 1 else 256 * Power(k - 1)
  }

  /** The k bytes of n, most significant first. */
  function BigEndian(n: nat, k: nat): (s: seq<Byte>)
    ensures |s| == k
    decreases k
  {
    if k == 0 then [] else BigEndian(n / 256, k - 1) + [B.ToByte(n % 256)]
  }

  function Value(s: seq<Byte>): (n: nat)
    ensures n < Power(|s|)
  {
    if s == [] then 0 else 256 * Value(s[..|s| - 1]) + B.FromByte(s[|s| - 1])
  }

  lemma {:induction false} ValueOfField(n: nat, k: nat)
    requires n < Power(k)
    ensures Value(BigEndian(n, k)) == n
    decreases k
  {
    hide B.ToByte, B.FromByte;
    if k > 0 {
      ValueOfField(n / 256, k - 1);
      B.ByteFromTo(n % 256);
      var s := BigEndian(n, k);
      assert s[..k - 1] == BigEndian(n / 256, k - 1);
    }
  }

  lemma {:induction false} FieldOfValue(s: seq<Byte>)
    ensures BigEndian(Value(s), |s|) == s
    decreases |s|
  {
    hide B.ToByte, B.FromByte;
    if s != [] {
      var front, last := s[..|s| - 1], s[|s| - 1];
      FieldOfValue(front);
      B.ByteToFrom(last);
      assert Value(s) / 256 == Value(front) && Value(s) % 256 == B.FromByte(last);
      assert s == front + [last];
    }
  }

  lemma Powers()
    ensures Power(0) == 1 && Power(1) == 0x100 && Power(2) == 0x1_0000 && Power(3) == 0x100_0000
    ensures Power(4) == LENGTHS
  {
  }

  /** The checksum as the number its field holds. */
  function Sum(payload: seq<Byte>): (c: nat)
    ensures c < 0x1_0000
  {
    Checksum(payload) as nat
  }

  // ---- Serializing and parsing -----------------------------------------------

  predicate Encodable(f: Frame) {
    |f.payload| < LENGTHS
  }

  /** The size the source computes, in 32 bits, for a buffer of a header and n payload bytes. */
  function BufferSize(n: nat): nat {
    (HEADER + n) % LENGTHS
  }

  /** Twelve plus the payload length does not wrap. */
  predicate Sendable(f: Frame) {
    HEADER + |f.payload| < LENGTHS
  }

  /** The buffer holds the header exactly when the sum does not wrap, and then it holds the payload too. */
  lemma BufferHoldsIff(n: nat)
    requires n < LENGTHS
    ensures BufferSize(n) >= HEADER <==> HEADER + n < LENGTHS
    ensures BufferSize(n) >= HEADER ==> BufferSize(n) == HEADER + n
  {
    if HEADER + n >= LENGTHS {
      assert (HEADER + n) % LENGTHS == HEADER + n - LENGTHS;
    }
  }

  function HeaderOf(msgType: Byte, length: nat, crc: nat): (h: seq<Byte>)
    ensures |h| == HEADER
  {
    Magic() + [VERSION, msgType] + BigEndian(length, 4) + BigEndian(crc, 2)
  }

  function Header(f: Frame): (h: seq<Byte>)
    requires Encodable(f)
    ensures |h| == HEADER
  {
    HeaderOf(f.msgType, |f.payload|, Sum(f.payload))
  }

  function Encode(f: Frame): (buf: seq<Byte>)
    requires Encodable(f)
    ensures |buf| == HEADER + |f.payload|
  {
    Header(f) + f.payload
  }

  /** The fields the parser finds in a header. */
  datatype Head = Head(magic: seq<Byte>, version: Byte, msgType: Byte, length: nat, crc: nat)

  function HeadOf(buf: seq<Byte>): (h: Head)
    requires |buf| >= HEADER
    ensures h.length < LENGTHS
  {
    Powers();
    Head(buf[..4], buf[4], buf[5], Value(buf[6..10]), Value(buf[10..12]))
  }

  /** The length a header announces. */
  function Announced(buf: seq<Byte>): (n: nat)
    requires |buf| >= HEADER
    ensures n < LENGTHS
  {
    HeadOf(buf).length
  }

  function Decode(buf: seq<Byte>): Result<Frame> {
    if |buf| < HEADER then Failed(TooSmall)
    else
      var h := HeadOf(buf);
      if h.magic != Magic() then Failed(BadMagic)
      else if h.version != VERSION then Failed(BadVersion)
      else if |buf| < HEADER + h.length then Failed(TooShort)
      else
        var payload := buf[HEADER..HEADER + h.length];
        if Sum(payload) != h.crc then Failed(CrcMismatch) else Ok(Frame(h.msgType, payload))
  }

  function ExpectedHead(f: Frame): Head {
    Head(Magic(), VERSION, f.msgType, |f.payload|, Sum(f.payload))
  }

  /** The parts of a header are where the parser looks for them. */
  lemma HeaderParts(magic: seq<Byte>, version: Byte, msgType: Byte, length: seq<Byte>, crc: seq<Byte>, h: seq<Byte>)
    requires |magic| == 4 && |length| == 4 && |crc| == 2
    requires h == magic + [version, msgType] + length + crc
    ensures h[..4] == magic && h[4] == version && h[5] == msgType && h[6..10] == length && h[10..12] == crc
  {
  }

  lemma HeaderRead(f: Frame)
    requires Encodable(f)
    ensures HeadOf(Header(f)) == ExpectedHead(f)
  {
    Powers();
    var length, crc := BigEndian(|f.payload|, 4), BigEndian(Sum(f.payload), 2);
    var h := Header(f);
    assert h == Magic() + [VERSION, f.msgType] + length + crc;
    hide Header, BigEndian, Value, Sum, Power, Magic;
    HeaderParts(Magic(), VERSION, f.msgType, length, crc, h);
    ValueOfField(|f.payload|, 4);
    ValueOfField(Sum(f.payload), 2);
  }

  lemma AtLeastOnce(d: nat, x: nat, m: nat)
    requires m >= 1
    ensures d * (x + m) >= d * x + d
  {
    assert d * (x + m) == d * x + d * m;
    assert d * m == d + d * (m - 1);
  }

  lemma QuotientIs(n: nat, d: nat, q: nat, r: nat)
    requires r < d && n == d * q + r
    ensures n / d == q
  {
    var x := n / d;
    assert n == d * x + n % d;
    if x < q {
      AtLeastOnce(d, x, q - x);
    } else if x > q {
      AtLeastOnce(d, q, x - q);
    }
  }

  lemma DivideTwice(n: nat, p: nat)
    requires p > 0
    ensures n / 256 / p == n / (256 * p)
  {
    var q := n / 256;
    assert n == 256 * q + n % 256 && q == p * (q / p) + q % p;
    QuotientIs(n, 256 * p, q / p, 256 * (q % p) + n % 256);
  }

  /** Byte i of a field of k bytes holds the digit of weight 256^(k - 1 - i). */
  lemma {:induction false} FieldByte(n: nat, k: nat, i: nat)
    requires i < k
    ensures BigEndian(n, k)[i] as nat == n / Power(k - 1 - i) % 256
    decreases k
  {
    hide B.ToByte;
    if i == k - 1 {
      B.ByteIs(n % 256);
    } else {
      FieldByte(n / 256, k - 1, i);
      DivideTwice(n, Power(k - 2 - i));
    }
  }

  lemma HeaderDigits(f: Frame)
    requires Encodable(f)
    ensures Encode(f)[..6] == [0x4E, 0x45, 0x58, 0x54, 0x01, f.msgType] && Encode(f)[12..] == f.payload
    ensures Encode(f)[6..10] == BigEndian(|f.payload|, 4) && Encode(f)[10..12] == BigEndian(Sum(f.payload), 2)
  {
    hide BigEndian, Sum;
    var length, crc := BigEndian(|f.payload|, 4), BigEndian(Sum(f.payload), 2);
    var h := Header(f);
    assert h == Magic() + [VERSION, f.msgType] + length + crc;
    HeaderParts(Magic(), VERSION, f.msgType, length, crc, h);
    assert Encode(f)[..6] == Magic() + [VERSION, f.msgType];
    assert Encode(f)[6..10] == h[6..10] && Encode(f)[10..12] == h[10..12];
  }

  /** Four bytes that hold n, most significant first. */
  ghost predicate Holds4(s: seq<Byte>, n: nat)
    requires |s| == 4
  {
    && s[0] as nat == n / 0x100_0000 % 256 && s[1] as nat == n / 0x1_0000 % 256
    && s[2] as nat == n / 0x100 % 256 && s[3] as nat == n % 256
  }

  lemma LengthHeld(n: nat)
    ensures Holds4(BigEndian(n, 4), n)
  {
    Powers();
    hide BigEndian, Power;
    FieldByte(n, 4, 0);
    FieldByte(n, 4, 1);
    FieldByte(n, 4, 2);
    FieldByte(n, 4, 3);
  }

  lemma ChecksumHeld(c: nat)
    requires c < 0x1_0000
    ensures BigEndian(c, 2)[0] as nat == c / 256 && BigEndian(c, 2)[1] as nat == c % 256
  {
    Powers();
    hide BigEndian, Power;
    FieldByte(c, 2, 0);
    FieldByte(c, 2, 1);
  }

  /** The twelve bytes on the wire: NEXT, 1, the type, then the length and the checksum, most significant byte first. */
  lemma HeaderBytes(f: Frame)
    requires Encodable(f)
    ensures Encode(f)[..6] == [0x4E, 0x45, 0x58, 0x54, 0x01, f.msgType]
    ensures Holds4(Encode(f)[6..10], |f.payload|)
    ensures var c := Checksum(f.payload) as nat;
            Encode(f)[10] as nat == c / 256 && Encode(f)[11] as nat == c % 256
    ensures Encode(f)[12..] == f.payload
  {
    hide Encode, BigEndian, Checksum, Holds4;
    HeaderDigits(f);
    LengthHeld(|f.payload|);
    ChecksumHeld(Sum(f.payload));
    assert Encode(f)[10..12][0] == Encode(f)[10] && Encode(f)[10..12][1] == Encode(f)[11];
  }

  /** Only the first twelve bytes are read. */
  lemma HeadOfPrefix(buf: seq<Byte>, h: seq<Byte>)
    requires |h| == HEADER && h <= buf
    ensures HeadOf(buf) == HeadOf(h)
  {
    hide Value;
    assert buf[..4] == h[..4] && buf[6..10] == h[6..10] && buf[10..12] == h[10..12];
  }

  lemma FieldsEqual(a: seq<Byte>, b: seq<Byte>)
    requires |a| == |b| && Value(a) == Value(b)
    ensures a == b
  {
    hide BigEndian, Value;
    FieldOfValue(a);
    FieldOfValue(b);
  }

  /** Headers with the same fields are the same bytes. */
  lemma HeadInjective(a: seq<Byte>, b: seq<Byte>)
    requires |a| == |b| == HEADER && HeadOf(a) == HeadOf(b)
    ensures a == b
  {
    hide Value;
    FieldsEqual(a[6..10], b[6..10]);
    FieldsEqual(a[10..12], b[10..12]);
    Reassemble(a);
    Reassemble(b);
  }

  lemma Reassemble(a: seq<Byte>)
    requires |a| == HEADER
    ensures a == a[..4] + [a[4], a[5]] + a[6..10] + a[10..12]
  {
  }

  lemma PrefixParts(h: seq<Byte>, p: seq<Byte>, buf: seq<Byte>)
    requires h + p <= buf
    ensures h <= buf && buf[|h|..|h| + |p|] == p
  {
    assert buf[..|h| + |p|] == h + p;
  }

  lemma DecodeAccepts(buf: seq<Byte>, f: Frame)
    requires Encodable(f) && Encode(f) <= buf
    ensures Decode(buf) == Ok(f)
  {
    HeaderRead(f);
    hide Header, HeadOf, Sum, Magic;
    PrefixParts(Header(f), f.payload, buf);
    HeadOfPrefix(buf, Header(f));
  }

  lemma DecodeExact(buf: seq<Byte>, f: Frame)
    requires Decode(buf) == Ok(f)
    ensures Encodable(f) && HEADER + |f.payload| <= |buf| && Encode(f) == buf[..HEADER + |f.payload|]
  {
    hide Header, HeadOf, Sum, Magic;
    var h := buf[..HEADER];
    HeadOfPrefix(buf, h);
    HeaderRead(f);
    HeadInjective(h, Header(f));
    assert buf[..HEADER + |f.payload|] == h + f.payload;
  }

  /** Parsing yields a frame exactly when the buffer begins with that frame's serialization. */
  lemma DecodeIffPrefix(buf: seq<Byte>, f: Frame)
    ensures Decode(buf) == Ok(f) <==> Encodable(f) && Encode(f) <= buf
  {
    hide Decode, Encode;
    if Decode(buf) == Ok(f) {
      DecodeExact(buf, f);
    }
    if Encodable(f) && Encode(f) <= buf {
      DecodeAccepts(buf, f);
    }
  }

  lemma RoundTrip(f: Frame, rest: seq<Byte>)
    requires Encodable(f)
    ensures Decode(Encode(f) + rest) == Ok(f)
  {
    hide Decode, Encode;
    DecodeAccepts(Encode(f) + rest, f);
  }

  /** A buffer that opens with the magic number and the version. */
  predicate Opens(buf: seq<Byte>) {
    |buf| >= 12 && buf[0] == 0x4E && buf[1] == 0x45 && buf[2] == 0x58 && buf[3] == 0x54 && buf[4] == 0x01
  }

  /** Every way a parse fails, with the first check that fails it. */
  lemma DecodeFailsIff(buf: seq<Byte>)
    ensures Decode(buf) == Failed(TooSmall) <==> |buf| < 12
    ensures Decode(buf) == Failed(BadMagic)
       <==> |buf| >= 12 && !(buf[0] == 0x4E && buf[1] == 0x45 && buf[2] == 0x58 && buf[3] == 0x54)
    ensures Decode(buf) == Failed(BadVersion)
       <==> |buf| >= 12 && buf[..4] == [0x4E, 0x45, 0x58, 0x54] && buf[4] != 0x01
    ensures Decode(buf) == Failed(TooShort) <==> Opens(buf) && |buf| < 12 + Length(buf)
    ensures Decode(buf) == Failed(CrcMismatch)
       <==> Opens(buf) && |buf| >= 12 + Length(buf) && Checksum(buf[12..12 + Length(buf)]) as nat != Check(buf)
  {
    if |buf| >= 12 {
      FieldsRead(buf);
      hide Value, Checksum, Length, Check;
      assert buf[..4] == [buf[0], buf[1], buf[2], buf[3]];
    }
  }

  /** The length and the checksum as a reader of the bytes computes them. */
  function Length(buf: seq<Byte>): nat
    requires |buf| >= 12
  {
    (buf[6] as nat) * 0x100_0000 + (buf[7] as nat) * 0x1_0000 + (buf[8] as nat) * 0x100 + (buf[9] as nat)
  }

  function Check(buf: seq<Byte>): nat
    requires |buf| >= 12
  {
    (buf[10] as nat) * 0x100 + (buf[11] as nat)
  }

  lemma ValueAppend(s: seq<Byte>, b: Byte)
    ensures Value(s + [b]) == 256 * Value(s) + B.FromByte(b)
  {
    hide B.FromByte;
    assert (s + [b])[..|s|] == s;
  }

  lemma TwoBytes(a: Byte, b: Byte)
    ensures Value([a, b]) == 256 * B.FromByte(a) + B.FromByte(b)
  {
    assert Value([]) == 0;
    hide Value, B.FromByte;
    ValueAppend([], a);
    ValueAppend([a], b);
    assert [] + [a] == [a] && [a] + [b] == [a, b];
  }

  lemma FourBytes(a: Byte, b: Byte, c: Byte, d: Byte)
    ensures Value([a, b, c, d])
         == 0x100_0000 * B.FromByte(a) + 0x1_0000 * B.FromByte(b) + 0x100 * B.FromByte(c) + B.FromByte(d)
  {
    hide Value, B.FromByte;
    TwoBytes(a, b);
    ValueAppend([a, b], c);
    ValueAppend([a, b, c], d);
    assert [a, b] + [c] == [a, b, c] && [a, b, c] + [d] == [a, b, c, d];
  }

  lemma FieldsRead(buf: seq<Byte>)
    requires |buf| >= 12
    ensures HeadOf(buf).length == Length(buf) && HeadOf(buf).crc == Check(buf)
  {
    hide Value, B.FromByte;
    FourBytes(buf[6], buf[7], buf[8], buf[9]);
    TwoBytes(buf[10], buf[11]);
    assert buf[6..10] == [buf[6], buf[7], buf[8], buf[9]] && buf[10..12] == [buf[10], buf[11]];
    B.ByteValue(buf[6]);
    B.ByteValue(buf[7]);
    B.ByteValue(buf[8]);
    B.ByteValue(buf[9]);
    B.ByteValue(buf[10]);
    B.ByteValue(buf[11]);
  }

  /** A burst of at most sixteen bits anywhere in the payload of a serialized frame is always noticed. */
  lemma BurstRejected(f: Frame, payload: seq<Byte>, rest: seq<Byte>, p: nat)
    requires Encodable(f) && payload != f.payload && |payload| == |f.payload|
    requires forall i :: 0 <= i < 8 * |payload| && Bits(payload)[i] != Bits(f.payload)[i] ==> p <= i < p + 16
    ensures Decode(Header(f) + payload + rest) == Failed(CrcMismatch)
  {
    hide Bits, Checksum, Header, Decode;
    if Bits(payload) == Bits(f.payload) {
      BitsInjective(payload, f.payload);
    }
    BurstDetected(payload, f.payload, p);
    if Sum(payload) == Sum(f.payload) {
      B.WordAsNumber(Checksum(payload), Checksum(f.payload));
    }
    DamagedPayload(f, payload, rest);
  }

  /** So is damage to any odd number of payload bits. */
  lemma OddDamageRejected(f: Frame, payload: seq<Byte>, rest: seq<Byte>)
    requires Encodable(f) && |payload| == |f.payload| && Odd(XorBits(Bits(payload), Bits(f.payload)))
    ensures Decode(Header(f) + payload + rest) == Failed(CrcMismatch)
  {
    hide Bits, Checksum, Header, Decode, Odd, XorBits;
    OddErrorDetected(payload, f.payload);
    if Sum(payload) == Sum(f.payload) {
      B.WordAsNumber(Checksum(payload), Checksum(f.payload));
    }
    DamagedPayload(f, payload, rest);
  }

  /** Two flipped payload bits are noticed unless they are a multiple of 32767 bit positions apart. */
  lemma TwoBitDamageIff(f: Frame, payload: seq<Byte>, rest: seq<Byte>, i: nat, j: nat)
    requires Encodable(f) && |payload| == |f.payload| && CrcOrder.TwoFlips(Bits(payload), Bits(f.payload), i, j)
    ensures Decode(Header(f) + payload + rest)
         == if (j - i) % CrcOrder.ORDER == 0 then Ok(f.(payload := payload)) else Failed(CrcMismatch)
  {
    hide Bits, Checksum, Decode, HeaderOf, CrcOrder.TwoFlips;
    CrcOrder.TwoBitErrorIff(payload, f.payload, i, j);
    if Sum(payload) == Sum(f.payload) {
      B.WordAsNumber(Checksum(payload), Checksum(f.payload));
      RoundTrip(f.(payload := payload), rest);
    } else {
      DamagedPayload(f, payload, rest);
    }
  }

  lemma DamagedPayload(f: Frame, payload: seq<Byte>, rest: seq<Byte>)
    requires Encodable(f) && |payload| == |f.payload| && Sum(payload) != Sum(f.payload)
    ensures Decode(Header(f) + payload + rest) == Failed(CrcMismatch)
  {
    HeaderRead(f);
    hide Header, HeadOf, Sum, Magic;
    var buf := Header(f) + payload + rest;
    HeadOfPrefix(buf, Header(f));
    assert buf[HEADER..HEADER + |payload|] == payload;
  }

  // ---- The buffers of the source ---------------------------------------------

  /** memcpy to an offset of a buffer. */
  method Copy(buf: array<Byte>, off: nat, bytes: seq<Byte>)
    requires off + |bytes| <= buf.Length
    modifies buf
    ensures buf[..off + |bytes|] == old(buf[..off]) + bytes
    ensures buf[off + |bytes|..] == old(buf[off + |bytes|..])
  {
    for i := 0 to |bytes|
      invariant buf[..off + i] == old(buf[..off]) + bytes[..i]
      invariant buf[off + i..] == old(buf[off + i..])
    {
      buf[off + i] := bytes[i];
      assert buf[..off + i + 1] == buf[..off + i] + [bytes[i]];
      assert old(buf[off + i + 1..]) == old(buf[off + i..])[1..];
    }
  }

  method WriteHeader(buf: array<Byte>, msgType: Byte, plen: nat, payload: seq<Byte>)
    requires buf.Length >= HEADER
    modifies buf
    ensures buf[..HEADER] == HeaderOf(msgType, plen, Sum(payload))
  {
    var length := BigEndian(plen, 4);
    var crc := Crc16(payload);
    SumIsCrc(payload, crc);
    var chk := BigEndian(crc as nat, 2);
    assert HeaderOf(msgType, plen, Sum(payload)) == Magic() + [VERSION, msgType] + length + chk;
    hide *;
    Copy(buf, 0, Magic());
    assert buf[..4] == Magic();
    Copy(buf, 4, [VERSION]);
    Copy(buf, 5, [msgType]);
    assert buf[..6] == Magic() + [VERSION, msgType];
    Copy(buf, 6, length);
    Copy(buf, 10, chk);
  }

  /**
   Frame::serialize: the header fields and the payload are laid out at an advancing offset. The length is cut to 32
   bits; the checksum is that of the whole payload.
   */
  method Serialize(f: Frame) returns (r: Result<array<Byte>>)
    ensures r.Ok? <==> BufferSize(|f.payload| % LENGTHS) >= HEADER
    ensures r.Failed? ==> r.error == Overrun
    ensures r.Ok? ==> fresh(r.value)
    ensures r.Ok? ==> var n := |f.payload| % LENGTHS;
                      r.value[..] == HeaderOf(f.msgType, n, Sum(f.payload)) + f.payload[..n]
    ensures Sendable(f) ==> r.Ok? && r.value[..] == Encode(f)
  {
    hide HeaderOf, Sum;
    var plen := |f.payload| % LENGTHS;
    BufferHoldsIff(plen);
    var size := BufferSize(plen);
    if size < HEADER {
      return Failed(Overrun);
    }
    var buf := new Byte[size](_ => 0);
    WriteHeader(buf, f.msgType, plen, f.payload);
    Copy(buf, HEADER, f.payload[..plen]);
    assert buf[..] == buf[..HEADER + plen];
    if Sendable(f) {
      assert f.payload[..plen] == f.payload;
    }
    r := Ok(buf);
  }

  method CheckMagic(buf: seq<Byte>) returns (ok: bool)
    requires |buf| >= HEADER
    ensures ok <==> buf[..4] == Magic()
  {
    for i := 0 to 4
      invariant buf[..i] == Magic()[..i]
    {
      if buf[i] != Magic()[i] {
        assert buf[..4][i] != Magic()[i];
        return false;
      }
      assert buf[..i + 1] == buf[..i] + [buf[i]] && Magic()[..i + 1] == Magic()[..i] + [Magic()[i]];
    }
    assert Magic()[..4] == Magic();
    return true;
  }

  /** Frame::deserialize, with its checks in the source's order. */
  method Deserialize(buf: seq<Byte>) returns (r: Result<Frame>)
    ensures r == Decode(buf)
    ensures r.Ok? ==> Encodable(r.value) && Encode(r.value) <= buf
  {
    hide Value, Encode, Sum, Magic;
    if |buf| < HEADER {
      return Failed(TooSmall);
    }
    var magic := CheckMagic(buf);
    if !magic {
      return Failed(BadMagic);
    }
    if buf[4] != VERSION {
      return Failed(BadVersion);
    }
    var length := Announced(buf);
    var expected := Value(buf[10..12]);
    if |buf| < HEADER + length {
      return Failed(TooShort);
    }
    var payload := buf[HEADER..HEADER + length];
    var crc := Crc16(payload);
    SumIsCrc(payload, crc);
    if crc as nat != expected {
      return Failed(CrcMismatch);
    }
    r := Ok(Frame(buf[5], payload));
    DecodeExact(buf, r.value);
  }

  lemma SumIsCrc(payload: seq<Byte>, crc: bv16)
    requires crc == Checksum(payload)
    ensures crc as nat == Sum(payload)
  {
  }

  // ---- Frames on a stream ----------------------------------------------------

  /** Reading one frame from the bytes still to come: the frame and what is left after it. */
  function ReadFrame(stream: seq<Byte>): Result<(Frame, seq<Byte>)> {
    if |stream| < HEADER then Failed(EndOfStream)
    else if BufferSize(Announced(stream)) < HEADER then Failed(Overrun)
    else if |stream| < HEADER + Announced(stream) then Failed(EndOfStream)
    else
      var end := HEADER + Announced(stream);
      match Decode(stream[..end])
      case Ok(f) => Ok((f, stream[end..]))
      case Failed(e) => Failed(e)
  }

  /** The outcomes of a read, in the order in which the source finds them. */
  lemma ReadCases(stream: seq<Byte>)
    ensures |stream| < HEADER ==> ReadFrame(stream) == Failed(EndOfStream)
    ensures |stream| >= HEADER ==>
              var end := HEADER + Announced(stream);
              if BufferSize(Announced(stream)) < HEADER then ReadFrame(stream) == Failed(Overrun)
              else if |stream| < end then ReadFrame(stream) == Failed(EndOfStream)
              else match Decode(stream[..end])
                case Ok(f) => ReadFrame(stream) == Ok((f, stream[end..]))
                case Failed(e) => ReadFrame(stream) == Failed(e)
  {
    hide HeadOf, Decode, BufferSize;
  }

  /** A read overruns its buffer exactly when a whole header has come and twelve plus the length it announces wraps. */
  lemma OverrunIff(stream: seq<Byte>)
    ensures ReadFrame(stream) == Failed(Overrun)
       <==> |stream| >= HEADER && HEADER + Announced(stream) >= LENGTHS
  {
    hide HeadOf, BufferSize;
    if |stream| >= HEADER {
      BufferHoldsIff(Announced(stream));
      if |stream| >= HEADER + Announced(stream) {
        NoOverrun(stream[..HEADER + Announced(stream)]);
      }
    }
  }

  lemma NoOverrun(buf: seq<Byte>)
    ensures Decode(buf) != Failed(Overrun)
  {
    hide HeadOf, Sum, Magic;
  }

  /** Such a header exists for every message type and checksum: twelve bytes announcing a length of 2^32 - 1. */
  lemma OverrunHeader(msgType: Byte, crc: nat, rest: seq<Byte>)
    ensures ReadFrame(HeaderOf(msgType, LENGTHS - 1, crc) + rest) == Failed(Overrun)
  {
    var length, chk := BigEndian(LENGTHS - 1, 4), BigEndian(crc, 2);
    var h := HeaderOf(msgType, LENGTHS - 1, crc);
    assert h == Magic() + [VERSION, msgType] + length + chk;
    Powers();
    ValueOfField(LENGTHS - 1, 4);
    hide HeaderOf, BigEndian, Magic, ReadFrame, Power;
    HeaderParts(Magic(), VERSION, msgType, length, chk, h);
    HeadOfPrefix(h + rest, h);
    OverrunIff(h + rest);
  }

  function ReadFrames(stream: seq<Byte>, n: nat): Result<(seq<Frame>, seq<Byte>)>
    decreases n
  {
    if n == 0 then Ok(([], stream))
    else match ReadFrame(stream)
      case Failed(e) => Failed(e)
      case Ok(first) =>
        match ReadFrames(first.1, n - 1)
        case Failed(e) => Failed(e)
        case Ok(more) => Ok(([first.0] + more.0, more.1))
  }

  predicate AllEncodable(fs: seq<Frame>) {
    forall i :: 0 <= i < |fs| ==> Encodable(fs[i])
  }

  predicate AllSendable(fs: seq<Frame>) {
    forall i :: 0 <= i < |fs| ==> Sendable(fs[i])
  }

  function Wire(fs: seq<Frame>): seq<Byte>
    requires AllEncodable(fs)
  {
    if fs == [] then [] else Encode(fs[0]) + Wire(fs[1..])
  }

  lemma ReadOne(f: Frame, rest: seq<Byte>)
    requires Sendable(f)
    ensures ReadFrame(Encode(f) + rest) == Ok((f, rest))
  {
    hide HeadOf, Decode, Header, BufferSize;
    BufferHoldsIff(|f.payload|);
    HeaderRead(f);
    var stream := Encode(f) + rest;
    HeadOfPrefix(stream, Header(f));
    assert stream[..|Encode(f)|] == Encode(f) + [] && stream[|Encode(f)|..] == rest;
    RoundTrip(f, []);
  }

  lemma OneRead(stream: seq<Byte>, f: Frame, rest: seq<Byte>)
    requires ReadFrame(stream) == Ok((f, rest))
    ensures Sendable(f) && stream == Encode(f) + rest
  {
    hide Decode, Encode, HeadOf, BufferSize;
    BufferHoldsIff(Announced(stream));
    var end := HEADER + Announced(stream);
    DecodeExact(stream[..end], f);
    DecodedLength(stream[..end], f);
    HeadOfPrefix(stream, stream[..HEADER]);
    HeadOfPrefix(stream[..end], stream[..HEADER]);
    assert stream == stream[..end] + stream[end..];
  }

  /** Until the last byte of a frame has arrived its reader waits. */
  lemma PartialWaits(f: Frame, part: seq<Byte>)
    requires Sendable(f) && part < Encode(f)
    ensures ReadFrame(part) == Failed(EndOfStream)
  {
    hide HeadOf, Decode, Header, BufferSize;
    BufferHoldsIff(|f.payload|);
    HeaderRead(f);
    if |part| >= HEADER {
      assert part[..HEADER] == Header(f);
      HeadOfPrefix(part, Header(f));
    }
  }

  lemma DecodedLength(buf: seq<Byte>, f: Frame)
    requires Decode(buf) == Ok(f)
    ensures |buf| >= HEADER && |f.payload| == Announced(buf)
  {
    hide HeadOf, Sum, Magic;
  }

  /**
   Repeated reading returns a list of frames and a rest exactly when the stream is the concatenation of their
   serializations followed by that rest, none of them so long that its size wraps.
   */
  lemma StreamIffWire(stream: seq<Byte>, fs: seq<Frame>, rest: seq<Byte>)
    ensures ReadFrames(stream, |fs|) == Ok((fs, rest)) <==> AllSendable(fs) && stream == Wire(fs) + rest
  {
    hide ReadFrames, Wire;
    if AllSendable(fs) && stream == Wire(fs) + rest {
      ReadAhead(fs, rest);
    }
    if ReadFrames(stream, |fs|) == Ok((fs, rest)) {
      ReadBack(stream, fs, rest);
    }
  }

  lemma ReadThen(stream: seq<Byte>, f: Frame, tail: seq<Byte>, more: seq<Frame>, rest: seq<Byte>)
    requires ReadFrame(stream) == Ok((f, tail)) && ReadFrames(tail, |more|) == Ok((more, rest))
    ensures ReadFrames(stream, |more| + 1) == Ok(([f] + more, rest))
  {
    hide ReadFrame;
  }

  lemma ReadNone(rest: seq<Byte>)
    ensures ReadFrames(Wire([]) + rest, 0) == Ok(([], rest))
  {
    assert Wire([]) + rest == rest;
  }

  lemma WireFirst(fs: seq<Frame>, rest: seq<Byte>)
    requires AllEncodable(fs) && fs != []
    ensures Wire(fs) + rest == Encode(fs[0]) + (Wire(fs[1..]) + rest)
  {
    hide Encode;
  }

  lemma {:induction false} ReadAhead(fs: seq<Frame>, rest: seq<Byte>)
    requires AllSendable(fs)
    ensures ReadFrames(Wire(fs) + rest, |fs|) == Ok((fs, rest))
    decreases |fs|
  {
    hide ReadFrame, ReadFrames, Encode, Wire;
    if fs == [] {
      ReadNone(rest);
    } else {
      var more := fs[1..];
      var tail := Wire(more) + rest;
      ReadOne(fs[0], tail);
      ReadAhead(more, rest);
      WireFirst(fs, rest);
      ReadThen(Wire(fs) + rest, fs[0], tail, more, rest);
      assert [fs[0]] + more == fs;
    }
  }

  lemma {:induction false} ReadBack(stream: seq<Byte>, fs: seq<Frame>, rest: seq<Byte>)
    requires ReadFrames(stream, |fs|) == Ok((fs, rest))
    ensures AllSendable(fs) && stream == Wire(fs) + rest
    decreases |fs|
  {
    hide ReadFrame, Encode;
    if fs != [] {
      var first := ReadFrame(stream).value;
      OneRead(stream, first.0, first.1);
      var more := ReadFrames(first.1, |fs| - 1).value;
      assert fs[1..] == more.0;
      ReadBack(first.1, fs[1..], rest);
      assert stream == Encode(fs[0]) + (Wire(fs[1..]) + rest);
    }
  }

  /** The receiving side of a connection. */
  class Socket {
    var incoming: seq<Byte>

    constructor (bytes: seq<Byte>)
      ensures incoming == bytes
    {
      incoming := bytes;
    }

    /** Reads exactly n bytes, or fails at the end of the stream. */
    method ReadExactly(n: nat) returns (r: Result<seq<Byte>>)
      modifies this
      ensures n <= old(|incoming|) ==> r == Ok(old(incoming[..n])) && incoming == old(incoming[n..])
      ensures n > old(|incoming|) ==> r == Failed(EndOfStream) && incoming == []
    {
      if n <= |incoming| {
        r := Ok(incoming[..n]);
        incoming := incoming[n..];
      } else {
        r := Failed(EndOfStream);
        incoming := [];
      }
    }

    /** read_frame: the header, then as many bytes as it announces, then the parse of both. */
    method Receive() returns (r: Result<Frame>)
      modifies this
      ensures match ReadFrame(old(incoming))
              case Ok(read) => r == Ok(read.0) && incoming == read.1
              case Failed(e) => r == Failed(e)
    {
      hide HeadOf, Decode, BufferSize, ReadFrame;
      ghost var stream := incoming;
      ReadCases(stream);
      var head := ReadExactly(HEADER);
      if head.Failed? {
        return Failed(head.error);
      }
      HeadOfPrefix(stream, head.value);
      var length := Announced(head.value);
      BufferHoldsIff(length);
      var size := BufferSize(length);
      if size < HEADER {
        return Failed(Overrun);
      }
      var full := ReadBody(head.value, length);
      if full.Failed? {
        return Failed(full.error);
      }
      assert full.value == stream[..HEADER + length];
      r := Deserialize(full.value);
    }

    /** The header followed by the payload, which is read only if there is one. */
    method ReadBody(head: seq<Byte>, length: nat) returns (r: Result<seq<Byte>>)
      modifies this
      ensures length <= old(|incoming|) ==>
                r == Ok(head + old(incoming[..length])) && incoming == old(incoming[length..])
      ensures length > old(|incoming|) ==> r == Failed(EndOfStream)
    {
      if length == 0 {
        assert head + incoming[..0] == head;
        return Ok(head);
      }
      var body := ReadExactly(length);
      if body.Failed? {
        return Failed(body.error);
      }
      r := Ok(head + body.value);
    }
  }
}
