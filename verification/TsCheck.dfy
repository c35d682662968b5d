/** docs/release-validation/ts-check.py: packet classes, continuity counters (section 2.4.3.3 of
    ISO/IEC 13818-1) and duplicate packets, checked in one pass over a file read in pieces. */
module TsCheck {
  import opened Wire

  type Packet = p: seq<Byte> | |p| == 188 witness seq(188, _ => 0)

  const NULL_PID: nat := 0x1FFF

  // ---------------------------------------------------------------- packet fields

  function Pid(p: Packet): nat { p[1] as int % 32 * 256 + p[2] }
  function Counter(p: Packet): nat { p[3] % 16 }
  function Adaptation(p: Packet): nat { p[3] / 16 % 4 }
  predicate HasPayload(p: Packet) { Adaptation(p) == 1 || Adaptation(p) == 3 }
  predicate HasField(p: Packet) { Adaptation(p) == 2 || Adaptation(p) == 3 }
  predicate Discontinuity(p: Packet) { HasField(p) && p[4] > 0 && p[5] >= 0x80 }
  predicate HasPcr(p: Packet) { HasField(p) && p[4] > 0 && p[5] / 16 % 2 == 1 }

  /** The adaptation field cannot be what it claims. */
  predicate Malformed(p: Packet) {
    || Adaptation(p) == 0
    || (Adaptation(p) == 2 && p[4] != 183)
    || (Adaptation(p) == 3 && p[4] > 182)
    || (HasPcr(p) && (p[4] < 7 || p[10] / 2 % 64 != 63 || p[10] as int % 2 * 256 + p[11] >= 300))
  }

  datatype Class = BadSync | TransportError | Null | Invalid | Examined

  function ClassOf(p: Packet): Class {
    if p[0] != SYNC then BadSync
    else if p[1] >= 0x80 then TransportError
    else if Pid(p) == NULL_PID then Null
    else if Malformed(p) then Invalid
    else Examined
  }

  /** Packets after which an identical packet is no longer taken for a duplicate. */
  predicate Untrusted(p: Packet) {
    ClassOf(p).BadSync? || ClassOf(p).TransportError? || ClassOf(p).Invalid?
  }

  /** equivalent_duplicate: the same bytes, but for the value of a clock reference. */
  predicate Equivalent(previous: Packet, p: Packet) {
    if !HasPcr(p) then previous == p
    else previous[..6] == p[..6] && previous[10] / 2 % 64 == p[10] / 2 % 64 && previous[12..] == p[12..]
  }

  // ---------------------------------------------------------------- continuity

  /** What is remembered of the last examined packet of a PID. */
  datatype PidState = PidState(counter: nat, hasPayload: bool, repeated: bool, epoch: nat, packet: Packet)

  datatype Track = Track(previous: map<nat, PidState>, untrusted: nat)

  const FRESH: Track := Track(map[], 0)

  datatype Verdict = Skipped | Fine | Duplicate | Mismatch

  function Expected(st: PidState, p: Packet): nat {
    (st.counter + if HasPayload(p) then 1 else 0) % 16
  }

  predicate Repeats(st: PidState, p: Packet) {
    HasPayload(p) && Counter(p) == st.counter
  }

  function Judge(t: Track, p: Packet): Verdict {
    if !ClassOf(p).Examined? then Skipped
    else if Discontinuity(p) || Pid(p) !in t.previous then Fine
    else
      var st := t.previous[Pid(p)];
      if Repeats(st, p) && st.hasPayload && !st.repeated && st.epoch == t.untrusted && Equivalent(st.packet, p)
      then Duplicate
      else if Counter(p) != Expected(st, p) then Mismatch
      else Fine
  }

  function Remember(t: Track, p: Packet): PidState {
    PidState(Counter(p), HasPayload(p),
             Pid(p) in t.previous && Repeats(t.previous[Pid(p)], p),
             t.untrusted, p)
  }

  function Advance(t: Track, p: Packet): Track {
    if Untrusted(p) then t.(untrusted := t.untrusted + 1)
    else if ClassOf(p).Examined? then t.(previous := t.previous[Pid(p) := Remember(t, p)])
    else t
  }

  // ---------------------------------------------------------------- the report

  datatype Options = Options(excluded: set<nat>, boundaries: seq<nat>)

  datatype Check = Check(
    packets: nat,
    syncErrors: nat,
    tei: nat,
    nulls: seq<nat>,
    invalid: seq<nat>,
    duplicates: seq<nat>,
    errors: seq<nat>,
    excludedSeen: seq<nat>,
    track: Track,
    boundaryIndex: nat,
    segment: nat,
    segmentPids: set<nat>,
    retuneExcluded: set<nat>)

  const START: Check := Check(0, 0, 0, [], [], [], [], [], FRESH, 0, 0, {}, {})

  /** A new tune segment begins at each boundary. */
  function Segmented(options: Options, c: Check): Check {
    if c.boundaryIndex < |options.boundaries| && c.packets >= options.boundaries[c.boundaryIndex]
    then c.(segment := c.segment + 1, segmentPids := {}, boundaryIndex := c.boundaryIndex + 1)
    else c
  }

  /** In a later segment the first packet of each PID is excused. */
  function Excused(c: Check, p: Packet): Check {
    if p[0] != SYNC || Pid(p) == NULL_PID then c
    else c.(segmentPids := c.segmentPids + {Pid(p)},
            retuneExcluded := if c.segment > 0 && Pid(p) !in c.segmentPids
                              then c.retuneExcluded + {c.packets} else c.retuneExcluded)
  }

  function Noted(options: Options, c: Check, p: Packet): Check {
    var n := c.packets;
    match Judge(c.track, p)
    case Skipped =>
      (match ClassOf(p)
       case BadSync => c.(syncErrors := c.syncErrors + 1)
       case TransportError => c.(tei := c.tei + 1)
       case Null => c.(nulls := c.nulls + [n])
       case _ => c.(invalid := c.invalid + [n]))
    case Fine => c
    case Duplicate => c.(duplicates := c.duplicates + [n])
    case Mismatch =>
      if n in options.excluded || n in c.retuneExcluded then c.(excludedSeen := c.excludedSeen + [n])
      else c.(errors := c.errors + [n])
  }

  /** One packet of `inspect`. */
  function Inspected(options: Options, c: Check, p: Packet): Check {
    var d := Noted(options, Excused(Segmented(options, c), p), p);
    d.(packets := c.packets + 1, track := Advance(c.track, p))
  }

  function InspectAll(options: Options, c: Check, ps: seq<Packet>): Check
    decreases |ps|
  {
    if ps == [] then c else InspectAll(options, Inspected(options, c, ps[0]), ps[1..])
  }

  /** The whole packets of a byte string. */
  function Packets(bytes: seq<Byte>): seq<Packet> {
    if |bytes| < 188 then [] else [bytes[..188]] + Packets(bytes[188..])
  }

  /** `inspect` over the successive reads of a file: whatever pieces the file arrives in, the
      report is that of its whole packets in order, and the remainder is what follows them. */
  method Inspect(pieces: seq<seq<Byte>>, options: Options) returns (c: Check, totalBytes: nat, remainder: nat)
    ensures c == InspectAll(options, START, Packets(Concat(pieces)))
    ensures totalBytes == |Concat(pieces)| && remainder == |Concat(pieces)| - 188 * c.packets < 188
  {
    c, totalBytes := START, 0;
    var pending: seq<Byte> := [];
    assert pieces[0..] == pieces && [] + Concat(pieces) == Concat(pieces);
    for i := 0 to |pieces|
      invariant InspectAll(options, START, Packets(Concat(pieces))) ==
                InspectAll(options, c, Packets(pending + Concat(pieces[i..])))
      invariant totalBytes + |Concat(pieces[i..])| == |Concat(pieces)|
      invariant totalBytes == 188 * c.packets + |pending| && |pending| < 188
    {
      totalBytes := totalBytes + |pieces[i]|;
      NextPiece(pieces, i, pending);
      c, pending := InspectPiece(options, c, pending + pieces[i], Concat(pieces[i + 1..]));
    }
    assert pieces[|pieces|..] == [] && pending + [] == pending;
    Remainder(totalBytes, c.packets, |pending|);
    remainder := totalBytes % 188;
  }

  lemma Remainder(total: nat, packets: nat, rest: nat)
    requires total == 188 * packets + rest && rest < 188
    ensures total % 188 == rest
  {
  }

  lemma NextPiece(pieces: seq<seq<Byte>>, i: nat, pending: seq<Byte>)
    requires i < |pieces|
    ensures pending + Concat(pieces[i..]) == pending + pieces[i] + Concat(pieces[i + 1..])
    ensures |Concat(pieces[i..])| == |pieces[i]| + |Concat(pieces[i + 1..])|
  {
    assert pieces[i..][1..] == pieces[i + 1..];
  }

  /** The whole packets of one buffer; what is left waits for the next read. */
  method InspectPiece(options: Options, c: Check, data: seq<Byte>, ghost later: seq<Byte>)
    returns (d: Check, pending: seq<Byte>)
    ensures InspectAll(options, c, Packets(data + later)) == InspectAll(options, d, Packets(pending + later))
    ensures |data| + 188 * c.packets == |pending| + 188 * d.packets && |pending| < 188
  {
    d := c;
    var offset := 0;
    assert data[0..] == data;
    while |data| - offset >= 188
      invariant offset <= |data| && |data| + 188 * c.packets == |data| - offset + 188 * d.packets
      invariant InspectAll(options, c, Packets(data + later)) ==
                InspectAll(options, d, Packets(data[offset..] + later))
    {
      var packet: Packet := data[offset..offset + 188];
      NextPacket(data[offset..], later, packet);
      assert data[offset..][188..] == data[offset + 188..];
      d := Inspected(options, d, packet);
      offset := offset + 188;
    }
    pending := data[offset..];
  }

  lemma NextPacket(bytes: seq<Byte>, later: seq<Byte>, packet: Packet)
    requires |bytes| >= 188 && packet == bytes[..188]
    ensures Packets(bytes + later) == [packet] + Packets(bytes[188..] + later)
  {
    assert (bytes + later)[..188] == packet;
    assert (bytes + later)[188..] == bytes[188..] + later;
  }
}
