/** protocol.c: little-endian codecs, the message header, and the framing of received messages. */
module Protocol {
  import opened Wire

  const HEADER_SIZE: nat := 8
  const MAX_PAYLOAD: nat := 240
  const HIF_TASK: Byte := 11

  function Le16(v: nat): (s: seq<Byte>)
    requires v < 0x1_0000
    ensures |s| == 2 && Get16(s, 0) == v
  {
    [v % 256, v / 256]
  }

  function Le32(v: nat): (s: seq<Byte>)
    requires v < 0x1_0000_0000
    ensures |s| == 4
  {
    [v % 256, v / 256 % 256, v / 256 / 256 % 256, v / 256 / 256 / 256]
  }

  lemma Le32ReadsBack(v: nat)
    requires v < 0x1_0000_0000
    ensures Get32(Le32(v), 0) == v
  {
  }

  function Get16(s: seq<Byte>, i: nat): (v: nat)
    requires i + 2 <= |s|
    ensures v < 0x1_0000
  {
    s[i] as int + 256 * s[i + 1] as int
  }

  function Get32(s: seq<Byte>, i: nat): (v: nat)
    requires i + 4 <= |s|
    ensures v < 0x1_0000_0000
  {
    s[i] as int + 256 * s[i + 1] as int + 0x1_0000 * s[i + 2] as int + 0x100_0000 * s[i + 3] as int
  }

  datatype Header = Header(kind: nat, src: Byte, dst: Byte, length: nat, flags: nat)

  ghost predicate Fits(h: Header) {
    h.kind < 0x1_0000 && h.length < 0x1_0000 && h.flags < 0x1_0000
  }

  /** sms_pack_header */
  function Pack(h: Header): (s: seq<Byte>)
    requires Fits(h)
    ensures |s| == HEADER_SIZE
  {
    Le16(h.kind) + [h.src, h.dst] + Le16(h.length) + Le16(h.flags)
  }

  /** sms_unpack_header */
  function Unpack(s: seq<Byte>): Option<Header> {
    if |s| < HEADER_SIZE then None
    else Some(Header(Get16(s, 0), s[2], s[3], Get16(s, 4), Get16(s, 6)))
  }

  /** A header is read back from the front of any message it was packed into. */
  lemma UnpackPacked(h: Header, body: seq<Byte>)
    requires Fits(h)
    ensures Unpack(Pack(h) + body) == Some(h)
  {
    var s := Pack(h) + body;
    assert s[0] == Le16(h.kind)[0] && s[1] == Le16(h.kind)[1];
    assert s[4] == Le16(h.length)[0] && s[5] == Le16(h.length)[1];
    assert s[6] == Le16(h.flags)[0] && s[7] == Le16(h.flags)[1];
  }

  datatype Frame = Frame(kind: nat, length: nat, flags: nat, offset: nat, payload: seq<Byte>)

  datatype Framed = Good(frame: Frame) | Bad(rc: int)

  /** How far the body of a message stands behind its header: a split message is aligned. */
  function Gap(flags: nat, alignment: nat): nat {
    if flags / 4 % 2 == 1 && alignment != 0 then alignment + flags / 256 % 4 else 0
  }

  /** sms_frame_message */
  function FrameMessage(s: seq<Byte>, alignment: nat): Framed {
    match Unpack(s)
    case None => Bad(-EINVAL)
    case Some(h) =>
      var offset := Gap(h.flags, alignment);
      if h.length < HEADER_SIZE then Bad(-EBADMSG)
      else if offset > |s| || h.length > |s| - offset then Bad(-EMSGSIZE)
      else Good(Frame(h.kind, h.length, h.flags, offset, s[offset + HEADER_SIZE..offset + h.length]))
  }

  /** A message, split and aligned or not, is framed back to its payload, whatever fills the gap and
      whatever follows. */
  lemma FramePacked(h: Header, gap: seq<Byte>, payload: seq<Byte>, rest: seq<Byte>, alignment: nat)
    requires Fits(h) && h.length == HEADER_SIZE + |payload| && |gap| == Gap(h.flags, alignment)
    ensures FrameMessage(Pack(h) + (gap + payload + rest), alignment) ==
            Good(Frame(h.kind, h.length, h.flags, |gap|, payload))
  {
    var s := Pack(h) + (gap + payload + rest);
    UnpackPacked(h, gap + payload + rest);
    assert s[|gap| + HEADER_SIZE..|gap| + h.length] == payload;
  }

  lemma PackUnpacked(s: seq<Byte>)
    requires |s| >= HEADER_SIZE
    ensures Fits(Unpack(s).value) && Pack(Unpack(s).value) == s[..HEADER_SIZE]
  {
    Le16Get16(s, 0);
    Le16Get16(s, 4);
    Le16Get16(s, 6);
  }

  lemma Le16Get16(s: seq<Byte>, i: nat)
    requires i + 2 <= |s|
    ensures Le16(Get16(s, i)) == [s[i], s[i + 1]]
  {
  }

  /** And every message that is framed was such a one. */
  lemma FramedIsPacked(s: seq<Byte>, alignment: nat) returns (h: Header, gap: seq<Byte>, rest: seq<Byte>)
    requires FrameMessage(s, alignment).Good?
    ensures var f := FrameMessage(s, alignment).frame;
            && Fits(h) && h.kind == f.kind && h.flags == f.flags
            && h.length == f.length == HEADER_SIZE + |f.payload| && |gap| == Gap(h.flags, alignment) == f.offset
            && s == Pack(h) + (gap + f.payload + rest)
  {
    var f := FrameMessage(s, alignment).frame;
    h := Unpack(s).value;
    PackUnpacked(s);
    gap, rest := s[HEADER_SIZE..HEADER_SIZE + f.offset], s[f.offset + f.length..];
  }

  // ---------------------------------------------------------------- in bytes

  /** Where the fields of a header stand, low byte first. */
  lemma HeaderBytes(h: Header)
    requires Fits(h)
    ensures var s := Pack(h);
            && s[0] as int + 256 * s[1] as int == h.kind && s[2] == h.src && s[3] == h.dst
            && s[4] as int + 256 * s[5] as int == h.length && s[6] as int + 256 * s[7] as int == h.flags
  {
  }

  /** A 32-bit value, low byte first. */
  lemma WordBytes(v: nat)
    requires v < 0x1_0000_0000
    ensures var s := Le32(v);
            v == s[0] as int + 256 * s[1] as int + 65536 * s[2] as int + 16777216 * s[3] as int
  {
  }

  /** Framing, by the bytes received: what is refused and why, and otherwise which bytes are the payload. */
  lemma FramedByBytes(s: seq<Byte>, alignment: nat)
    ensures |s| < 8 ==> FrameMessage(s, alignment) == Bad(-22)
    ensures |s| >= 8 ==>
              var length := s[4] as int + 256 * s[5] as int;
              var at := if s[6] / 4 % 2 == 1 && alignment > 0 then alignment + s[7] % 4 else 0;
              FrameMessage(s, alignment) ==
              if length < 8 then Bad(-74)
              else if at + length > |s| then Bad(-90)
              else Good(Frame(s[0] as int + 256 * s[1] as int, length, s[6] as int + 256 * s[7] as int, at, s[at + 8..at + length]))
  {
    if |s| >= 8 {
      SplitFlag(s[6], s[7]);
    }
  }

  lemma SplitFlag(low: Byte, high: Byte)
    ensures (low as int + 256 * high as int) / 4 % 2 == low as int / 4 % 2
    ensures (low as int + 256 * high as int) / 256 == high as int
  {
  }
}
