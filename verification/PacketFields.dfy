/** The fields of a transport packet (sections 2.4.3.2 to 2.4.3.5 of ISO/IEC 13818-1) put into bytes, and
    what ts-check.py reads from them. */
module PacketFields {
  import opened Wire
  import opened TsCheck
  import opened Verdicts
  import opened Report
  import opened Continuity

  datatype Fields = Fields(
    errorBit: bool, unit: nat, pid: nat,
    scrambling: nat, adaptation: nat, counter: nat,
    length: Byte,
    discontinuity: bool, random: nat, pcr: bool, flags: nat,
    base: seq<Byte>, baseLow: nat, reserved: nat, extension: nat,
    rest: seq<Byte>)

  ghost predicate Fit(f: Fields) {
    && f.unit < 4 && f.pid < 8192 && f.scrambling < 4 && f.adaptation < 4 && f.counter < 16
    && f.random < 4 && f.flags < 16 && f.baseLow < 2 && f.reserved < 64 && f.extension < 512
    && |f.base| == 4 && |f.rest| == 176
  }

  function Bit(b: bool): nat { if b then 1 else 0 }

  /** The packet with these fields, as if the adaptation field held a clock reference. */
  function Build(f: Fields): Packet
    requires Fit(f)
  {
    [0x47, Bit(f.errorBit) * 128 + f.unit * 32 + f.pid / 256, f.pid % 256,
     f.scrambling * 64 + f.adaptation * 16 + f.counter,
     f.length, Bit(f.discontinuity) * 128 + f.random * 32 + Bit(f.pcr) * 16 + f.flags]
    + f.base + [f.baseLow * 128 + f.reserved * 2 + f.extension / 256, f.extension % 256] + f.rest
  }

  lemma BuiltBytes(f: Fields)
    requires Fit(f)
    ensures var p := Build(f);
            && p[0] == 0x47 && p[1] == Bit(f.errorBit) * 128 + f.unit * 32 + f.pid / 256 && p[2] == f.pid % 256
            && p[3] == f.scrambling * 64 + f.adaptation * 16 + f.counter && p[4] == f.length
            && p[5] == Bit(f.discontinuity) * 128 + f.random * 32 + Bit(f.pcr) * 16 + f.flags
            && p[10] == f.baseLow * 128 + f.reserved * 2 + f.extension / 256 && p[11] == f.extension % 256
            && p[6..10] == f.base && p[12..] == f.rest
  {
  }

  /** Header fields are read back. */
  lemma HeaderReadsBack(f: Fields)
    requires Fit(f)
    ensures var p := Build(f);
            && Pid(p) == f.pid && Counter(p) == f.counter && Adaptation(p) == f.adaptation
            && (HasPayload(p) <==> f.adaptation == 1 || f.adaptation == 3)
            && (p[1] >= 0x80 <==> f.errorBit)
  {
    BuiltBytes(f);
    Low(Bit(f.errorBit) * 4 + f.unit, f.pid / 256, 32);
    Low(f.scrambling * 4 + f.adaptation, f.counter, 16);
    Low(f.scrambling, f.adaptation, 4);
  }

  lemma Low(high: nat, low: nat, n: nat)
    requires low < n && (n == 2 || n == 4 || n == 16 || n == 32 || n == 64)
    ensures (high * n + low) % n == low && (high * n + low) / n == high
  {
  }

  /** And so are the flags and the clock reference of an adaptation field. */
  lemma FlagsReadBack(f: Fields)
    requires Fit(f)
    ensures var p := Build(f);
            && (Discontinuity(p) <==> f.adaptation >= 2 && f.length > 0 && f.discontinuity)
            && (HasPcr(p) <==> f.adaptation >= 2 && f.length > 0 && f.pcr)
            && p[10] / 2 % 64 == f.reserved && p[10] as int % 2 * 256 + p[11] == f.extension
  {
    BuiltBytes(f);
    HeaderReadsBack(f);
    Low(Bit(f.discontinuity) * 8 + f.random * 2 + Bit(f.pcr), f.flags, 16);
    Low(Bit(f.discontinuity) * 4 + f.random, Bit(f.pcr), 2);
    Low(f.baseLow * 64 + f.reserved, f.extension / 256, 2);
    Low(f.baseLow, f.reserved, 64);
  }

  /** The class of a packet, by its fields. */
  lemma ClassByFields(f: Fields)
    requires Fit(f)
    ensures ClassOf(Build(f)) ==
            if f.errorBit then TransportError
            else if f.pid == 0x1FFF then Null
            else if f.adaptation == 0
                 || (f.adaptation == 2 && f.length != 183)
                 || (f.adaptation == 3 && f.length > 182)
                 || (f.adaptation >= 2 && f.length > 0 && f.pcr
                     && (f.length < 7 || f.reserved != 63 || f.extension >= 300))
            then Invalid
            else Examined
    ensures Untrusted(Build(f)) <==> !ClassOf(Build(f)).Null? && !ClassOf(Build(f)).Examined?
  {
    HeaderReadsBack(f);
    FlagsReadBack(f);
    BuiltBytes(f);
  }

  /** Every synchronised packet is built of fields; a packet that does not start with 0x47 is out of sync. */
  lemma EveryPacketIsBuilt(p: Packet) returns (f: Fields)
    ensures ClassOf(p).BadSync? <==> p[0] != 0x47
    ensures p[0] != 0x47 ==> Untrusted(p)
    ensures p[0] == 0x47 ==> Fit(f) && Build(f) == p
  {
    f := Fields(p[1] >= 128, p[1] / 32 % 4, p[1] as int % 32 * 256 + p[2],
                p[3] / 64, p[3] / 16 % 4, p[3] % 16, p[4],
                p[5] >= 128, p[5] / 32 % 4, p[5] / 16 % 2 == 1, p[5] % 16,
                p[6..10], p[10] / 128, p[10] / 2 % 64, p[10] as int % 2 * 256 + p[11], p[12..]);
    if p[0] == 0x47 {
      assert p[6..10] + [p[10], p[11]] + p[12..] == p[6..];
      Rebuilt(p, f);
    }
  }

  lemma Rebuilt(p: Packet, f: Fields)
    requires Fit(f) && p[0] == 0x47
    requires f.errorBit == (p[1] >= 128) && f.unit == p[1] / 32 % 4 && f.pid == p[1] as int % 32 * 256 + p[2]
    requires f.scrambling == p[3] / 64 && f.adaptation == p[3] / 16 % 4 && f.counter == p[3] % 16 && f.length == p[4]
    requires f.discontinuity == (p[5] >= 128) && f.random == p[5] / 32 % 4 && f.pcr == (p[5] / 16 % 2 == 1)
    requires f.flags == p[5] % 16 && f.base == p[6..10] && f.baseLow == p[10] / 128 && f.reserved == p[10] / 2 % 64
    requires f.extension == p[10] as int % 2 * 256 + p[11] && f.rest == p[12..]
    ensures Build(f) == p
  {
    BuiltBytes(f);
    ByteParts(p[1]);
    ByteParts(p[3]);
    ByteParts(p[5]);
    ByteParts(p[10]);
    SameParts(Build(f), p);
  }

  lemma ByteParts(b: Byte)
    ensures b == Bit(b >= 128) * 128 + b / 32 % 4 * 32 + b % 32
    ensures b == b / 64 * 64 + b / 16 % 4 * 16 + b % 16
    ensures b == Bit(b >= 128) * 128 + b / 32 % 4 * 32 + Bit(b / 16 % 2 == 1) * 16 + b % 16
    ensures b == b / 128 * 128 + b / 2 % 64 * 2 + b % 2
  {
    TopBit(b);
    InParts(b, 32, 4);
    InParts(b, 16, 4);
    InParts(b, 2, 64);
    Nibble(b);
  }

  lemma TopBit(b: Byte)
    ensures Bit(b >= 128) == b / 128
  {
  }

  lemma InParts(b: Byte, n: nat, m: nat)
    requires (n == 32 && m == 4) || (n == 16 && m == 4) || (n == 2 && m == 64)
    ensures b == b / (n * m) * (n * m) + b / n % m * n + b % n
  {
  }

  lemma Nibble(b: Byte)
    ensures b % 32 == Bit(b / 16 % 2 == 1) * 16 + b % 16
  {
  }

  lemma SameParts(p: Packet, q: Packet)
    requires p[0] == q[0] && p[1] == q[1] && p[2] == q[2] && p[3] == q[3] && p[4] == q[4] && p[5] == q[5]
    requires p[6..10] == q[6..10] && p[10] == q[10] && p[11] == q[11] && p[12..] == q[12..]
    ensures p == q
  {
    forall k | 0 <= k < 188 ensures p[k] == q[k] {
      if 6 <= k < 10 {
        assert p[k] == p[6..10][k - 6] && q[k] == q[6..10][k - 6];
      } else if k >= 12 {
        assert p[k] == p[12..][k - 12] && q[k] == q[12..][k - 12];
      }
    }
  }

  // ---------------------------------------------------------------- duplicates

  /** When one packet is an equivalent of another: all bytes are the same; if it has a clock reference, all
      but bytes 6 to 11, and of those the six reserved bits. */
  lemma EquivalentByBytes(a: Packet, b: Packet)
    ensures !HasPcr(b) ==> (Equivalent(a, b) <==> forall k | 0 <= k < 188 :: a[k] == b[k])
    ensures HasPcr(b) ==>
              (Equivalent(a, b) <==>
               (forall k | 0 <= k < 188 && (k < 6 || k >= 12) :: a[k] == b[k]) && a[10] / 2 % 64 == b[10] / 2 % 64)
  {
    if HasPcr(b) {
      if Equivalent(a, b) {
        forall k | 0 <= k < 188 && (k < 6 || k >= 12) ensures a[k] == b[k] {
          assert if k < 6 then a[k] == a[..6][k] && b[k] == b[..6][k] else a[k] == a[12..][k - 12] && b[k] == b[12..][k - 12];
        }
      }
    }
  }

  /** A payload packet of PID 0 with a clock reference, whose base and whose byte 12 are given. */
  function Clocked(base: seq<Byte>, b: Byte): Packet
    requires |base| == 4
  {
    [0x47, 0, 0, 0x30, 7, 0x10] + base + [0x7E, 0, b] + seq(175, _ => 0)
  }

  /** Two files: a repeat with another clock reference is a legal duplicate, one with another byte 12 is not. */
  lemma RepeatedClocks(base: seq<Byte>, other: seq<Byte>, b: Byte, c: Byte)
    requires |base| == |other| == 4
    ensures b == c ==>
              var d := InspectAll(NONE, START, [Clocked(base, b), Clocked(other, c)]); d.duplicates == [1] && d.errors == []
    ensures b != c ==>
              var d := InspectAll(NONE, START, [Clocked(base, b), Clocked(other, c)]); d.duplicates == [] && d.errors == [1]
  {
    var p, q := Clocked(base, b), Clocked(other, c);
    assert p[12] == b && q[12] == c;
    assert p[12..] == q[12..] <==> b == c by {
      assert p[12..] == [b] + seq(175, _ => 0) && q[12..] == [c] + seq(175, _ => 0);
    }
    assert Equivalent(p, q) <==> b == c;
    SecondJudged(p, q);
  }

  lemma SecondJudged(p: Packet, q: Packet)
    requires Counts(p, 0) && Counts(q, 0) && HasPayload(p) && HasPayload(q) && !Discontinuity(q) && Counter(p) == Counter(q)
    ensures var d := InspectAll(NONE, START, [p, q]);
            if Equivalent(p, q) then d.duplicates == [1] && d.errors == [] else d.duplicates == [] && d.errors == [1]
  {
    var c := Inspected(NONE, START, p);
    assert c == START.(packets := 1, track := Advance(FRESH, p), segmentPids := {0});
    assert [p, q][1..] == [q];
    var d := Inspected(NONE, c, q);
    assert InspectAll(NONE, c, [q]) == InspectAll(NONE, d, []);
  }
}
