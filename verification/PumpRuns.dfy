/** Whole runs of the output pump: any interleaving of feeds, steps against any output, and retunes. */
module PumpRuns {
  import opened Wire
  import opened PumpModel

  /** One call made on the pump. */
  datatype Call = Feed(data: seq<Cell>) | Write(answers: seq<int>) | Retune

  /** The pump and what has happened to the bytes: the chunks it accepted, the bytes its output
      took, and how many were skipped by resynchronisation or discarded by retunes. */
  datatype Trace = Trace(pump: Pump, chunks: seq<seq<Cell>>, emitted: seq<Cell>, skipped: nat, discarded: nat) {

    /** Everything put out if nothing more is fed. */
    ghost function Total(): seq<Cell>
      requires pump.Valid()
    {
      emitted + pump.Plan().out
    }

    ghost predicate Inv() {
      pump.Valid() && Framed(Total())
    }

    /** Every byte fed was put out, skipped, discarded by a retune, or is still unsent. */
    ghost predicate Accounted() {
      Length(chunks) == |emitted| + skipped + discarded + Unsent(pump)
    }
  }

  function Length(chunks: seq<seq<Cell>>): nat {
    if chunks == [] then 0 else Length(chunks[..|chunks| - 1]) + |chunks[|chunks| - 1]|
  }

  /** Bytes in the pump's buffers that the output has not taken. */
  function Unsent(p: Pump): int {
    if p.busy then |p.scratch| - p.sendOff - (p.packetOff - p.resumeOff) else |p.hold|
  }

  lemma UnsentIsPlan(p: Pump)
    requires p.Valid()
    ensures Unsent(p) == |p.Plan().out| + |p.Plan().tail| + p.Plan().skipped
  {
  }

  function Start(sink: bool): (t: Trace)
    ensures t.Inv() && t.Accounted()
  {
    Trace(Init(sink), [], [], 0, 0)
  }

  /** The callers feed an idle pump only; a Feed of a busy pump stands for a loop turn
      that finds it busy and does not pop the queue. */
  function Do(t: Trace, call: Call): (u: Trace)
    requires t.Inv()
  {
    match call
    case Feed(data) =>
      if t.pump.busy || |data| > TRANSFER_SIZE then t
      else t.(pump := Fed(t.pump, data), chunks := t.chunks + [data])
    case Write(answers) =>
      Wrote(t, Step(t.pump, answers))
    case Retune =>
      RetunedPlan(t.pump);
      UnsentIsPlan(t.pump);
      UnsentIsPlan(Retuned(t.pump));
      t.(pump := Retuned(t.pump), discarded := t.discarded + (Unsent(t.pump) - Unsent(Retuned(t.pump))))
  }

  function Run(t: Trace, calls: seq<Call>): (u: Trace)
    requires t.Inv()
    ensures u.Inv()
    decreases |calls|
  {
    if calls == [] then t
    else
      DoKeepsInv(t, calls[0]);
      Run(Do(t, calls[0]), calls[1..])
  }

  lemma DoKeepsInv(t: Trace, call: Call)
    requires t.Inv()
    ensures Do(t, call).Inv()
  {
    match call
    case Feed(data) => FeedKeepsInv(t, data);
    case Write(answers) =>
      StepFollowsPlan(t.pump, answers);
      WriteKeepsInv(t, Step(t.pump, answers));
    case Retune => RetuneKeepsInv(t);
  }

  lemma FeedKeepsInv(t: Trace, data: seq<Cell>)
    requires t.Inv()
    ensures Do(t, Feed(data)).Inv()
  {
    if !t.pump.busy && |data| <= TRANSFER_SIZE {
      var u := Do(t, Feed(data));
      ScanFrames(t.pump.hold + data);
      assert t.Total() == t.emitted;
      FramedAppend(t.emitted, u.pump.Plan().out);
    }
  }

  function Wrote(t: Trace, r: Stepped): Trace {
    t.(pump := r.pump, emitted := t.emitted + r.out, skipped := t.skipped + r.skipped)
  }

  lemma WriteKeepsInv(t: Trace, r: Stepped)
    requires t.Inv() && Follows(t.pump, r)
    ensures Wrote(t, r).Inv()
    ensures Wrote(t, r).Total() == t.Total()
  {
    assert t.emitted + r.out + r.pump.Plan().out == t.emitted + (r.out + r.pump.Plan().out);
  }

  /** A retune cuts what is owed at the end of the packet in progress. */
  lemma RetuneKeepsInv(t: Trace)
    requires t.Inv()
    ensures var u := Do(t, Retune);
            u.Inv() && u.emitted == t.emitted && u.pump.Plan() == Scanned(t.pump.Plan().out[..t.pump.Left()], [], 0)
  {
    RetunedPlan(t.pump);
    PacketPosition(t);
  }

  /** The packet offset is the position of the output within its packet: before it stand
      whole packets, and with what the packet lacks the output is whole again. */
  lemma PacketPosition(t: Trace)
    requires t.pump.Valid() && Framed(t.Total())
    ensures t.pump.packetOff <= |t.emitted| && Framed(t.emitted[..|t.emitted| - t.pump.packetOff])
    ensures t.pump.Left() <= |t.pump.Plan().out| && Framed(t.emitted + t.pump.Plan().out[..t.pump.Left()])
  {
    var k := PlanLength(t.pump);
    CutAtPacket(t.emitted, t.pump.Plan().out, t.pump.packetOff, k);
  }

  lemma CutAtPacket(e: seq<Cell>, out: seq<Cell>, off: nat, k: nat)
    requires off < PACKET && Framed(e + out) && |out| + off == 188 * k && (off > 0 ==> k > 0)
    ensures off <= |e| && Framed(e[..|e| - off])
    ensures Framed(e + if off == 0 then [] else out[..PACKET - off])
  {
    var total := e + out;
    FramedMeans(total);
    Offset(|e|, |out|, off, k);
    var at := |e| - off;
    var a, b := total[..at], total[at..];
    Rejoin(total, at);
    FramedCut(a, b);
    if off == 0 {
      assert a == e && e + [] == e;
    } else {
      CutBehind(e, out, at, 188 - off, 188);
      FramedAppend(a, b);
      FramedAppend(a, b[..188]);
    }
  }

  lemma Rejoin(s: seq<Cell>, at: nat)
    requires at <= |s|
    ensures s == s[..at] + s[at..]
  {
  }

  /** Cutting e + out inside e, and again n bytes behind it. */
  lemma CutBehind(e: seq<Cell>, out: seq<Cell>, at: nat, n: nat, m: nat)
    requires at <= |e| && n <= |out| && m == |e| - at + n
    ensures (e + out)[..at] == e[..at]
    ensures e + out[..n] == e[..at] + (e + out)[at..][..m]
  {
    var total := e + out;
    var left, right := e + out[..n], e[..at] + total[at..][..m];
    assert |left| == |right|;
    forall i | 0 <= i < |left| ensures left[i] == right[i] {
      if i < at {
        assert right[i] == e[i];
      } else {
        assert right[i] == total[at..][i - at] == total[i];
      }
    }
  }

  lemma Offset(e: nat, out: nat, off: nat, k: nat)
    requires off < 188 && out + off == 188 * k && (e + out) % 188 == 0
    ensures off <= e && (188 * k) % 188 == 0
  {
  }

  /** With what is already out of its packet in progress, the pump owes whole packets. */
  lemma PlanLength(p: Pump) returns (k: nat)
    requires p.Valid()
    ensures |p.Plan().out| + p.packetOff == 188 * k && (p.packetOff > 0 ==> k > 0)
  {
    k := if p.resumeOff > 0 then 1 else 0;
    if p.busy && p.resumeOff == 0 {
      var s := p.scratch[p.sendOff..];
      ScanFrames(s);
      FramedMeans(Scan(s).out);
      k := |Scan(s).out| / 188;
    }
  }

  // ---------------------------------------------------------------- the theorems

  /** Whole packets, each led by a sync byte, plus the first `off` bytes of one more, of which
      `rest` is what is still to come. */
  ghost predicate WholePlusPart(e: seq<Cell>, off: nat, rest: seq<Cell>) {
    && off <= |e| && (|e| - off) % 188 == 0
    && (forall k | 0 <= k < |e| && k % 188 == 0 :: e[k].value == SYNC)
    && Framed(e[..|e| - off]) && Framed(e[|e| - off..] + rest)
  }

  /** Framing. After any calls whatever the output is whole packets plus the first `packetOff` bytes
      of the one in progress, whose other bytes are the first the pump still owes. */
  lemma OutputIsFramed(sink: bool, calls: seq<Call>)
    ensures var t := Run(Start(sink), calls);
            && t.pump.Left() <= |t.pump.Plan().out|
            && WholePlusPart(t.emitted, t.pump.packetOff, t.pump.Plan().out[..t.pump.Left()])
  {
    TraceIsFramed(Run(Start(sink), calls));
  }

  lemma TraceIsFramed(t: Trace)
    requires t.Inv()
    ensures t.pump.Left() <= |t.pump.Plan().out|
    ensures WholePlusPart(t.emitted, t.pump.packetOff, t.pump.Plan().out[..t.pump.Left()])
  {
    PacketPosition(t);
    FramedParts(t.emitted, t.pump.packetOff, t.pump.Plan().out[..t.pump.Left()]);
  }

  lemma FramedParts(e: seq<Cell>, off: nat, rest: seq<Cell>)
    requires off <= |e| && Framed(e[..|e| - off]) && Framed(e + rest)
    ensures WholePlusPart(e, off, rest)
  {
    var a, b := e[..|e| - off], e[|e| - off..];
    FramedMeans(a);
    assert e + rest == a + (b + rest);
    FramedAppend(a, b + rest);
    FramedMeans(e + rest);
    AlignedMeans(e + rest);
    forall k | 0 <= k < |e| && k % 188 == 0 ensures e[k].value == SYNC {
      assert e[k] == (e + rest)[k];
    }
  }

  lemma DoAccounts(t: Trace, call: Call)
    requires t.Inv() && t.Accounted()
    ensures Do(t, call).Accounted()
  {
    DoKeepsInv(t, call);
    UnsentIsPlan(t.pump);
    UnsentIsPlan(Do(t, call).pump);
    match call
    case Feed(data) => FeedAccounts(t, data);
    case Write(answers) =>
      StepFollowsPlan(t.pump, answers);
      WriteAccounts(t, Step(t.pump, answers));
    case Retune =>
  }

  lemma FeedAccounts(t: Trace, data: seq<Cell>)
    requires t.Inv() && t.Accounted()
    ensures Do(t, Feed(data)).Accounted()
  {
    var u := Do(t, Feed(data));
    if u != t {
      assert u.chunks[..|u.chunks| - 1] == t.chunks;
    }
  }

  lemma WriteAccounts(t: Trace, r: Stepped)
    requires t.Inv() && t.Accounted() && Follows(t.pump, r)
    ensures Wrote(t, r).Accounted()
  {
    UnsentIsPlan(t.pump);
    UnsentIsPlan(r.pump);
  }

  lemma {:induction false} RunAccounts(t: Trace, calls: seq<Call>)
    requires t.Inv() && t.Accounted()
    ensures Run(t, calls).Accounted()
    decreases |calls|
  {
    if calls != [] {
      DoKeepsInv(t, calls[0]);
      DoAccounts(t, calls[0]);
      RunAccounts(Do(t, calls[0]), calls[1..]);
    }
  }

  /** Accounting. After any calls every byte fed is accounted for; and siano_output_pump_pending
      reports the unsent bytes exactly when no ordinary packet is partly written. */
  lemma BytesAreConserved(sink: bool, calls: seq<Call>)
    ensures var t := Run(Start(sink), calls);
            && t.Accounted()
            && (t.pump.Pending() == Unsent(t.pump) <==> t.pump.packetOff == 0 || t.pump.resumeOff != 0)
  {
    RunAccounts(Start(sink), calls);
  }

  /** A partly written packet that siano_output_pump_pending counts in full: of 188 bytes fed and
      100 put out it reports 188 pending where 88 are. */
  lemma PendingOverstates()
    ensures var packet := seq(188, _ => Cell(SYNC, 0));
            var t := Run(Start(false), [Feed(packet), Write([100])]);
            t.pump.Pending() == 188 && Unsent(t.pump) == 88
  {
    var packet := seq(188, _ => Cell(SYNC, 0));
    var fed := Do(Start(false), Feed(packet));
    DoKeepsInv(Start(false), Feed(packet));
    assert [Feed(packet), Write([100])][1..] == [Write([100])];
    assert Run(Start(false), [Feed(packet), Write([100])]) == Run(fed, [Write([100])]);
    assert fed.pump.scratch == packet;
    assert Garbage(packet[0..]) == 0;
    var p := fed.pump.(writing := true);
    assert Step(fed.pump, [100]) == Step(p, [100]).After([], 0);
    assert Step(p, [100]).pump == p.(packetOff := 100);
    DoKeepsInv(fed, Write([100]));
    assert Run(fed, [Write([100])]) == Run(Do(fed, Write([100])), []);
  }

  ghost predicate NoRetune(calls: seq<Call>) {
    forall call | call in calls :: !call.Retune?
  }

  /** Schedule independence. Without retunes, the output and what is owed are the pure scan
      of the chunks fed, however the writes were split, refused and tried again. */
  lemma {:induction false} OutputIsTheScan(t: Trace, calls: seq<Call>)
    requires t.Inv() && NoRetune(calls) && Matches(t)
    ensures Matches(Run(t, calls))
    decreases |calls|
  {
    if calls != [] {
      DoKeepsInv(t, calls[0]);
      DoMatches(t, calls[0]);
      OutputIsTheScan(Do(t, calls[0]), calls[1..]);
    }
  }

  lemma DoMatches(t: Trace, call: Call)
    requires t.Inv() && Matches(t) && !call.Retune?
    ensures Do(t, call).pump.Valid() && Matches(Do(t, call))
  {
    match call
    case Feed(data) => FeedMatches(t, data);
    case Write(answers) =>
      StepFollowsPlan(t.pump, answers);
      WriteMatches(t, Step(t.pump, answers));
  }

  lemma FeedMatches(t: Trace, data: seq<Cell>)
    requires t.Inv() && Matches(t)
    ensures Do(t, Feed(data)).pump.Valid() && Matches(Do(t, Feed(data)))
  {
    if !t.pump.busy && |data| <= TRANSFER_SIZE {
      ScanAllSnoc([], t.chunks, data);
      assert t.Total() == t.emitted;
    }
  }

  lemma WriteMatches(t: Trace, r: Stepped)
    requires t.Inv() && Matches(t) && Follows(t.pump, r)
    ensures Wrote(t, r).pump.Valid() && Matches(Wrote(t, r))
  {
    WriteKeepsInv(t, r);
  }

  ghost predicate Matches(t: Trace)
    requires t.pump.Valid()
  {
    var plan := t.pump.Plan();
    ScanAll([], t.chunks) == Scanned(t.emitted + plan.out, plan.tail, t.skipped + plan.skipped)
  }

  /** Once idle: the output, the held tail and the skipped bytes are those of the scan. */
  lemma IdleOutputIsTheScan(sink: bool, calls: seq<Call>)
    requires NoRetune(calls) && !Run(Start(sink), calls).pump.busy
    ensures var t := Run(Start(sink), calls);
            ScanAll([], t.chunks) == Scanned(t.emitted, t.pump.hold, t.skipped)
  {
    OutputIsTheScan(Start(sink), calls);
    var t := Run(Start(sink), calls);
    assert t.emitted + [] == t.emitted;
  }

  lemma {:induction false} ScanAllSnoc(tail: seq<Cell>, chunks: seq<seq<Cell>>, last: seq<Cell>)
    ensures var r := ScanAll(tail, chunks);
            var s := Scan(r.tail + last);
            ScanAll(tail, chunks + [last]) == Scanned(r.out + s.out, s.tail, r.skipped + s.skipped)
    decreases |chunks|
  {
    if chunks == [] {
      assert ([last])[1..] == [];
      var s := Scan(tail + last);
      assert s.out + [] == [] + s.out;
    } else {
      assert (chunks + [last])[1..] == chunks[1..] + [last];
      var first := Scan(tail + chunks[0]);
      ScanAllSnoc(first.tail, chunks[1..], last);
      var r := ScanAll(first.tail, chunks[1..]);
      var s := Scan(r.tail + last);
      assert first.out + (r.out + s.out) == first.out + r.out + s.out;
    }
  }

  // ---------------------------------------------------------------- chunking

  /** The longest prefix of whole packets. */
  function WholeLength(s: seq<Cell>): (n: nat)
    ensures n <= |s| < n + PACKET
  {
    if |s| < PACKET then 0 else PACKET + WholeLength(s[PACKET..])
  }

  lemma {:induction false} ScanAligned(s: seq<Cell>)
    requires Aligned(s)
    ensures Scan(s) == WholePart(s) && Aligned(s[WholeLength(s)..])
  {
    if |s| == PACKET {
      assert s[PACKET..] == [];
      assert s[..PACKET] + [] == s;
    } else if |s| > PACKET {
      var r := s[PACKET..];
      assert |s| >= 2 * PACKET ==> s[PACKET] == r[0];
      ScanAligned(r);
      var n := WholeLength(r);
      assert s[..PACKET] + r[..n] == s[..PACKET + n];
      assert r[n..] == s[PACKET + n..];
    }
  }

  /** Chunking invariance. An aligned stream, cut into chunks in any way, comes out as its
      longest prefix of whole packets; the rest is held and nothing is skipped. */
  lemma {:induction false} ChunkingIsInvisible(tail: seq<Cell>, chunks: seq<seq<Cell>>)
    requires Aligned(tail + Concat(chunks)) && |tail| < PACKET
    ensures ScanAll(tail, chunks) == WholePart(tail + Concat(chunks))
    decreases |chunks|
  {
    if chunks == [] {
      assert tail + Concat(chunks) == tail;
    } else {
      var a, later := tail + chunks[0], Concat(chunks[1..]);
      assert tail + Concat(chunks) == a + later;
      FirstChunk(a, later);
      ChunkingIsInvisible(a[WholeLength(a)..], chunks[1..]);
    }
  }

  /** The longest whole-packet prefix, and what follows it. */
  function WholePart(s: seq<Cell>): Scanned {
    Scanned(s[..WholeLength(s)], s[WholeLength(s)..], 0)
  }

  lemma FirstChunk(a: seq<Cell>, later: seq<Cell>)
    requires Aligned(a + later)
    ensures var m := WholeLength(a);
            && Scan(a) == WholePart(a) && Aligned(a[m..] + later)
            && WholePart(a + later) == Owing(a[..m], 0, WholePart(a[m..] + later))
  {
    AlignedPrefix(a, later);
    ScanAligned(a);
    WholePrefix(a, later);
    JoinParts(a, later, WholeLength(a), WholeLength(a[WholeLength(a)..] + later));
  }

  lemma JoinParts(a: seq<Cell>, b: seq<Cell>, m: nat, n: nat)
    requires m <= |a| && n <= |a[m..] + b|
    ensures a[..m] + (a[m..] + b)[..n] == (a + b)[..m + n]
    ensures (a[m..] + b)[n..] == (a + b)[m + n..]
  {
    assert (a + b)[m..] == a[m..] + b;
  }

  lemma {:induction false} AlignedPrefix(a: seq<Cell>, b: seq<Cell>)
    requires Aligned(a + b)
    ensures Aligned(a)
  {
    if |a| > PACKET {
      assert (a + b)[PACKET..] == a[PACKET..] + b;
      AlignedPrefix(a[PACKET..], b);
    } else if a != [] {
      assert (a + b)[0] == a[0];
    }
  }

  /** Dropping the whole packets of a prefix leaves alignment and the remaining count. */
  lemma {:induction false} WholePrefix(a: seq<Cell>, b: seq<Cell>)
    requires Aligned(a + b)
    ensures var m := WholeLength(a);
            Aligned(a[m..] + b) && WholeLength(a + b) == m + WholeLength(a[m..] + b)
  {
    if |a| >= PACKET {
      var m := WholeLength(a[PACKET..]);
      assert (a + b)[PACKET..] == a[PACKET..] + b;
      WholePrefix(a[PACKET..], b);
      assert a[PACKET..][m..] == a[PACKET + m..];
    }
  }

  /** The same of the pump: any run without retunes that fed an aligned stream and has come to
      rest has put out exactly the longest whole-packet prefix and holds the remainder. */
  lemma AlignedInputPassesThrough(sink: bool, calls: seq<Call>)
    requires NoRetune(calls) && !Run(Start(sink), calls).pump.busy
    requires Aligned(Concat(Run(Start(sink), calls).chunks))
    ensures var t := Run(Start(sink), calls);
            var s := Concat(t.chunks);
            t.emitted == s[..WholeLength(s)] && t.pump.hold == s[WholeLength(s)..] && t.skipped == 0
  {
    IdleOutputIsTheScan(sink, calls);
    var t := Run(Start(sink), calls);
    assert [] + Concat(t.chunks) == Concat(t.chunks);
    ChunkingIsInvisible([], t.chunks);
  }
}
