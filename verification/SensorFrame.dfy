/** The twenty-byte payload of one reading, in the little-endian byte order of the hosts. */
module SensorFrame {
  import B = Bytes
  import opened Crc
  import F = Frame

  /** A reading; the value is held as the 64 bits of its floating-point representation. */
  datatype Reading = Reading(sensor: nat, stamp: nat, value: nat)

  const SIZE: nat := 20

  ghost predicate Representable(r: Reading) {
    r.sensor < F.Power(4) && r.stamp < F.Power(8) && r.value < F.Power(8)
  }

  function LittleEndian(n: nat, k: nat): (s: seq<Byte>)
    ensures |s| == k
    decreases k
  {
    if k == 0 then [] else [B.ToByte(n % 256)] + LittleEndian(n / 256, k - 1)
  }

  function Number(s: seq<Byte>): nat {
    if s == [] then 0 else B.FromByte(s[0]) + 256 * Number(s[1..])
  }

  lemma {:induction false} NumberOfField(n: nat, k: nat)
    requires n < F.Power(k)
    ensures Number(LittleEndian(n, k)) == n
    decreases k
  {
    hide B.ToByte, B.FromByte;
    if k > 0 {
      NumberOfField(n / 256, k - 1);
      B.ByteFromTo(n % 256);
      assert LittleEndian(n, k)[1..] == LittleEndian(n / 256, k - 1);
    }
  }

  function Payload(r: Reading): (p: seq<Byte>)
    ensures |p| == SIZE
  {
    LittleEndian(r.sensor, 4) + LittleEndian(r.stamp, 8) + LittleEndian(r.value, 8)
  }

  /** Byte k of a field holds the digit of weight 256^k. */
  lemma {:induction false} FieldByte(n: nat, k: nat, i: nat)
    requires i < k
    ensures LittleEndian(n, k)[i] as nat == n / F.Power(i) % 256
    decreases k
  {
    hide B.ToByte;
    if i == 0 {
      B.ByteIs(n % 256);
    } else {
      FieldByte(n / 256, k - 1, i - 1);
      F.DivideTwice(n, F.Power(i - 1));
    }
  }

  /** The layout of the payload: sensor, stamp and value at bytes 0, 4 and 12, least significant byte first. */
  lemma PayloadBytes(r: Reading)
    ensures forall i :: 0 <= i < 4 ==> Payload(r)[i] as nat == r.sensor / F.Power(i) % 256
    ensures forall i :: 0 <= i < 8 ==> Payload(r)[4 + i] as nat == r.stamp / F.Power(i) % 256
    ensures forall i :: 0 <= i < 8 ==> Payload(r)[12 + i] as nat == r.value / F.Power(i) % 256
  {
    hide LittleEndian, F.Power;
    forall i | 0 <= i < 4 ensures Payload(r)[i] as nat == r.sensor / F.Power(i) % 256 {
      FieldByte(r.sensor, 4, i);
    }
    forall i | 0 <= i < 8 ensures Payload(r)[4 + i] as nat == r.stamp / F.Power(i) % 256 {
      FieldByte(r.stamp, 8, i);
    }
    forall i | 0 <= i < 8 ensures Payload(r)[12 + i] as nat == r.value / F.Power(i) % 256 {
      FieldByte(r.value, 8, i);
    }
  }

  /** What the server copies out of a payload of at least twenty bytes. */
  function Parse(payload: seq<Byte>): Reading
    requires |payload| >= SIZE
  {
    Reading(Number(payload[..4]), Number(payload[4..12]), Number(payload[12..20]))
  }

  lemma ParsePayload(r: Reading, extra: seq<Byte>)
    requires Representable(r)
    ensures Parse(Payload(r) + extra) == r
  {
    hide LittleEndian, Number, F.Power;
    var p := Payload(r) + extra;
    assert p[..4] == LittleEndian(r.sensor, 4);
    assert p[4..12] == LittleEndian(r.stamp, 8);
    assert p[12..20] == LittleEndian(r.value, 8);
    NumberOfField(r.sensor, 4);
    NumberOfField(r.stamp, 8);
    NumberOfField(r.value, 8);
  }

  /** SensorFrame::serialize: three copies at a moving offset. */
  method Serialize(r: Reading) returns (buf: array<Byte>)
    ensures fresh(buf) && buf[..] == Payload(r)
  {
    hide LittleEndian;
    buf := new Byte[SIZE](_ => 0);
    F.Copy(buf, 0, LittleEndian(r.sensor, 4));
    F.Copy(buf, 4, LittleEndian(r.stamp, 8));
    F.Copy(buf, 12, LittleEndian(r.value, 8));
    assert buf[..] == buf[..20];
  }
}
