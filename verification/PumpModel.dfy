/** The resumable output pump of output-writer.c on values: the pure packet scanner that
    says what a feed should put out, and the pump's calls as functions of its state. */
module PumpModel {
  import opened Wire

  const DONE := 0
  const PENDING := 1

  // ---------------------------------------------------------------- the scanner

  /** A packet may start here: a sync byte, and another one a packet later if that is in view. */
  predicate Starts(s: seq<Cell>)
    requires |s| >= PACKET
  {
    s[0].value == SYNC && (|s| < 2 * PACKET || s[PACKET].value == SYNC)
  }

  /** What becomes of a buffer: bytes put out, tail kept for the next feed, bytes skipped. */
  datatype Scanned = Scanned(out: seq<Cell>, tail: seq<Cell>, skipped: nat)

  function Scan(s: seq<Cell>): (r: Scanned)
    ensures |r.out| + |r.tail| + r.skipped == |s| && |r.tail| < PACKET
  {
    if |s| < PACKET then Scanned([], s, 0)
    else if Starts(s) then
      var r := Scan(s[PACKET..]);
      Scanned(s[..PACKET] + r.out, r.tail, r.skipped)
    else
      var r := Scan(s[1..]);
      Scanned(r.out, r.tail, r.skipped + 1)
  }

  /** A sync byte at every packet boundary; the last packet may be cut short. */
  predicate Aligned(e: seq<Cell>) {
    e != [] ==> e[0].value == SYNC && (|e| > PACKET ==> Aligned(e[PACKET..]))
  }

  /** Whole packets, each led by a sync byte. */
  predicate Framed(e: seq<Cell>) {
    e != [] ==> |e| >= PACKET && e[0].value == SYNC && Framed(e[PACKET..])
  }

  lemma {:induction false} FramedAppend(a: seq<Cell>, b: seq<Cell>)
    requires Framed(a)
    ensures Framed(a + b) <==> Framed(b)
  {
    if a == [] {
      assert a + b == b;
    } else {
      assert (a + b)[PACKET..] == a[PACKET..] + b;
      FramedAppend(a[PACKET..], b);
    }
  }

  /** A framed sequence cut a whole number of packets before its end is framed. */
  lemma {:induction false} FramedCut(a: seq<Cell>, b: seq<Cell>)
    requires Framed(a + b) && |b| % 188 == 0
    ensures Framed(a)
  {
    if |a| >= PACKET {
      assert (a + b)[PACKET..] == a[PACKET..] + b;
      FramedCut(a[PACKET..], b);
    } else {
      FramedMeans(a + b);
    }
  }

  /** Alignment and framing, said of positions. */
  lemma {:induction false} AlignedMeans(e: seq<Cell>)
    ensures Aligned(e) <==> forall k | 0 <= k < |e| && k % 188 == 0 :: e[k].value == SYNC
  {
    if |e| > PACKET {
      var f := e[PACKET..];
      AlignedMeans(f);
      assert forall k | 0 <= k < |f| :: f[k] == e[k + PACKET];
      assert forall k | PACKET <= k < |e| :: e[k] == f[k - PACKET];
    }
  }

  lemma {:induction false} FramedMeans(e: seq<Cell>)
    ensures Framed(e) <==> |e| % 188 == 0 && Aligned(e)
  {
    if |e| >= PACKET {
      FramedMeans(e[PACKET..]);
    }
  }

  /** A scan puts out framed packets, and invents no byte. */
  lemma {:induction false} ScanFrames(s: seq<Cell>)
    ensures Framed(Scan(s).out)
    ensures forall c | c in Scan(s).out || c in Scan(s).tail :: c in s
  {
    if |s| < PACKET {
    } else if Starts(s) {
      ScanFrames(s[PACKET..]);
      FramedAppend(s[..PACKET], Scan(s[PACKET..]).out);
    } else {
      ScanFrames(s[1..]);
    }
  }

  /** Scanning chunk after chunk, carrying the tail. */
  function ScanAll(tail: seq<Cell>, chunks: seq<seq<Cell>>): (r: Scanned)
    decreases |chunks|
  {
    if chunks == [] then Scanned([], tail, 0)
    else
      var first := Scan(tail + chunks[0]);
      var rest := ScanAll(first.tail, chunks[1..]);
      Scanned(first.out + rest.out, rest.tail, first.skipped + rest.skipped)
  }

  // ---------------------------------------------------------------- the pump

  /** struct siano_output_pump; `hold` and `scratch` are the used parts of the two buffers. */
  datatype Pump = Pump(
    sink: bool,           // packets go to a callback rather than to a descriptor
    hold: seq<Cell>,
    scratch: seq<Cell>,
    sendOff: nat,
    packetOff: nat,
    resumeOff: nat,
    writing: bool,
    busy: bool)
  {
    ghost predicate Valid() {
      && |hold| < PACKET
      && |scratch| <= TRANSFER_SIZE + PACKET
      && sendOff <= |scratch|
      && resumeOff <= packetOff < PACKET
      && (sink ==> packetOff == 0)
      && (busy ==> hold == [])
      && (!busy ==> scratch == [] && !writing)
      && (!writing ==> packetOff == 0)
      && (writing && resumeOff == 0 ==> sendOff + PACKET <= |scratch| && Starts(scratch[sendOff..]))
      && (resumeOff > 0 ==> sendOff == 0 && |scratch| == PACKET - resumeOff)
    }

    /** What the packet in progress still lacks. */
    function Left(): nat
      requires packetOff < PACKET
    {
      if packetOff == 0 then 0 else PACKET - packetOff
    }

    /** siano_output_pump_pending */
    function Pending(): int {
      if busy && resumeOff != 0 then |scratch| - sendOff - (packetOff - resumeOff)
      else if busy then |scratch| - sendOff
      else |hold|
    }

    /** What the pump still owes if nothing more is fed: the specification of its state. */
    ghost function Plan(): Scanned
      requires Valid()
    {
      if !busy then Scanned([], hold, 0)
      else if resumeOff > 0 then Scanned(scratch[packetOff - resumeOff..], [], 0)
      else
        var r := Scan(scratch[sendOff..]);
        Scanned(if writing then r.out[packetOff..] else r.out, r.tail, r.skipped)
    }
  }

  function Init(sink: bool): (p: Pump)
    ensures p.Valid() && p.Plan() == Scanned([], [], 0)
  {
    Pump(sink, [], [], 0, 0, 0, false, false)
  }

  /** siano_output_pump_feed; its callers feed only an idle pump, and at most one transfer. */
  function Fed(p: Pump, data: seq<Cell>): (q: Pump)
    requires p.Valid() && !p.busy && |data| <= TRANSFER_SIZE
    ensures q.Valid() && q.busy && q.packetOff == 0
    ensures q.Plan() == Scan(p.Plan().tail + data)
  {
    var q := Pump(p.sink, [], p.hold + data, 0, 0, 0, false, true);
    assert q.scratch[0..] == q.scratch;
    q
  }

  function Reset(p: Pump): (q: Pump)
    ensures q.Valid() && q.Plan() == Scanned([], [], 0)
  {
    Init(p.sink)
  }

  /** siano_output_pump_retune */
  function Retuned(p: Pump): (q: Pump)
    requires p.Valid()
    ensures q.Valid()
  {
    if !p.writing || p.packetOff == 0 || p.packetOff >= PACKET || p.resumeOff > p.packetOff
    then Reset(p)
    else
      var at := p.sendOff + (p.packetOff - p.resumeOff);
      Pump(p.sink, [], p.scratch[at..at + (PACKET - p.packetOff)], 0, p.packetOff, p.packetOff, true, true)
  }

  /** A retune leaves owed exactly the rest of the packet in progress, and nothing else. */
  lemma RetunedPlan(p: Pump)
    requires p.Valid()
    ensures p.Left() <= |p.Plan().out|
    ensures Retuned(p).Plan() == Scanned(p.Plan().out[..p.Left()], [], 0)
    ensures Retuned(p).packetOff == p.packetOff
  {
    if p.packetOff > 0 {
      LeftOfPacket(p);
      var at := p.sendOff + (p.packetOff - p.resumeOff);
      assert Retuned(p).scratch[0..] == p.scratch[at..at + (188 - p.packetOff)];
    }
  }

  /** What is owed first while a packet is partly out stands in the buffer. */
  lemma LeftOfPacket(p: Pump)
    requires p.Valid() && p.packetOff > 0
    ensures var at, rest := p.sendOff + (p.packetOff - p.resumeOff), 188 - p.packetOff;
            && rest <= |p.Plan().out| && at + rest <= |p.scratch|
            && p.Plan().out[..rest] == p.scratch[at..at + rest]
  {
    if p.resumeOff == 0 {
      PacketLeft(p.scratch, p.sendOff, p.packetOff);
    } else {
      SliceTwice(p.scratch, p.packetOff - p.resumeOff, 0, 188 - p.packetOff);
    }
  }

  lemma SliceTwice(s: seq<Cell>, at: nat, i: nat, j: nat)
    requires i <= j && at + j <= |s|
    ensures s[at..][i..j] == s[at + i..at + j]
  {
    forall k | 0 <= k < j - i ensures s[at..][i..j][k] == s[at + i..at + j][k] {
      assert s[at..][i + k] == s[at + (i + k)];
    }
  }

  /** What the scan owes of a packet of which `off` bytes are out is the rest of that packet. */
  lemma PacketLeft(scratch: seq<Cell>, at: nat, off: nat)
    requires at + 188 <= |scratch| && Starts(scratch[at..]) && 0 < off < 188
    ensures var out := Scan(scratch[at..]).out;
            |out| >= 188 && out[off..][..188 - off] == scratch[at + off..at + 188]
  {
    var s := scratch[at..];
    assert Scan(s).out == s[..188] + Scan(s[188..]).out;
    FrontLeft(s[..188], Scan(s[188..]).out, off);
    SliceTwice(s, 0, off, 188);
    SliceTwice(scratch, at, off, 188);
  }

  lemma FrontLeft(packet: seq<Cell>, later: seq<Cell>, off: nat)
    requires |packet| == 188 && off < 188
    ensures (packet + later)[off..][..188 - off] == packet[off..]
  {
  }

  // ---------------------------------------------------------------- one step

  /** Result of siano_output_pump_step, the bytes the output took, the bytes skipped. */
  datatype Stepped = Stepped(pump: Pump, rc: int, out: seq<Cell>, skipped: nat) {
    function After(head: seq<Cell>, n: nat): Stepped {
      Stepped(pump, rc, head + out, n + skipped)
    }
  }

  lemma AfterTwice(r: Stepped, a: seq<Cell>, m: nat, b: seq<Cell>, n: nat)
    ensures r.After(a, m).After(b, n) == r.After(b + a, n + m)
  {
    assert b + (a + r.out) == b + a + r.out;
  }

  /** The answer of the next write or sink call. A schedule that has run out answers
      -EAGAIN: "not now". */
  function Answer(ws: seq<int>): int {
    if ws == [] then -EAGAIN else ws[0]
  }

  /** A descriptor never takes more than it was offered. */
  function Taken(count: nat, request: nat): (n: nat)
    ensures n <= request
  {
    if count < request then count else request
  }

  function NextPacket(p: Pump): Pump {
    p.(sendOff := p.sendOff + PACKET, packetOff := 0, writing := false)
  }

  /** One turn of the loops of siano_output_pump_step: it goes on, or the call returns. */
  datatype Turn = Go(pump: Pump, out: seq<Cell>, skipped: nat) | Halt(result: Stepped)

  function Turned(p: Pump, answer: int): (t: Turn)
    requires p.Valid() && p.busy
    ensures t.Go? ==> t.pump.Valid() && t.pump.scratch == p.scratch && t.pump.sendOff >= p.sendOff
    ensures t.Go? && t.pump.sendOff == p.sendOff ==> !p.writing && t.pump.writing
  {
    if p.writing && p.sink then SinkTurn(p, answer)
    else if p.writing then WriteTurn(p, answer)
    else
      SkipGarbage(p.scratch, p.sendOff);
      ScanTurn(p)
  }

  function SinkTurn(p: Pump, rc: int): Turn
    requires p.Valid() && p.writing && p.sink
  {
    if rc != 0 then Halt(Stepped(p, if rc < 0 then rc else -EIO, [], 0))
    else Go(NextPacket(p), p.scratch[p.sendOff..][..PACKET], 0)
  }

  /** siano_output_write and siano_output_result, then the pump's reaction. */
  function WriteTurn(p: Pump, count: int): Turn
    requires p.Valid() && p.writing && !p.sink
  {
    if count == -EAGAIN || count == -EINTR then Halt(Stepped(p, PENDING, [], 0))
    else if count < 0 then Halt(Stepped(p, count, [], 0))
    else
      var request := PACKET - p.packetOff;
      var dataOff := p.packetOff - p.resumeOff;
      var n := Taken(count, request);
      var out := p.scratch[p.sendOff..][dataOff..dataOff + n];
      if n < request then Halt(Stepped(p.(packetOff := p.packetOff + n), PENDING, out, 0))
      else if p.resumeOff != 0 then Halt(Stepped(Reset(p), DONE, out, 0))
      else Go(NextPacket(p), out, 0)
  }

  /** Bytes to skip before a packet may start, or before less than a packet is left. */
  function Garbage(s: seq<Cell>): (n: nat)
    ensures n <= |s|
  {
    if |s| < PACKET || Starts(s) then 0 else 1 + Garbage(s[1..])
  }

  lemma GarbageStep(s: seq<Cell>, at: nat)
    requires at <= |s|
    ensures |s| - at < PACKET || Starts(s[at..]) ==> Garbage(s[at..]) == 0
    ensures |s| - at >= PACKET && !Starts(s[at..]) ==> Garbage(s[at..]) == 1 + Garbage(s[at + 1..])
  {
    if |s| - at >= PACKET {
      assert s[at..][1..] == s[at + 1..];
    }
  }

  function ScanTurn(p: Pump): Turn
    requires p.Valid() && p.busy && !p.writing
  {
    SkipTo(p, Garbage(p.scratch[p.sendOff..]))
  }

  /** After n bytes skipped: start on a packet, or keep what is left. */
  function SkipTo(p: Pump, n: nat): Turn
    requires p.busy && p.sendOff + n <= |p.scratch|
  {
    var at := p.sendOff + n;
    if |p.scratch| - at >= PACKET then Go(p.(sendOff := at, writing := true, packetOff := 0), [], n)
    else Halt(Stepped(p.(scratch := [], sendOff := 0, hold := p.scratch[at..], busy := false), DONE, [], n))
  }

  /** siano_output_pump_step against the answers `ws` of its successive output calls. */
  function Step(p: Pump, ws: seq<int>): (r: Stepped)
    requires p.Valid()
    decreases |p.scratch| - p.sendOff, !p.writing
  {
    if !p.busy then Stepped(p, DONE, [], 0)
    else
      match Turned(p, Answer(ws))
      case Halt(r) => r
      case Go(q, out, n) => Step(q, Later(p, ws)).After(out, n)
  }

  /** Only a turn that writes uses up an answer. */
  function Later(p: Pump, ws: seq<int>): seq<int> {
    if p.writing && ws != [] then ws[1..] else ws
  }

  /** `r` took its bytes off the front of what `p` owed and changed nothing else of it;
      it stopped idle exactly when it reports DONE. */
  ghost predicate Follows(p: Pump, r: Stepped)
    requires p.Valid()
  {
    && r.pump.Valid() && r.pump.sink == p.sink
    && p.Plan() == Owing(r.out, r.skipped, r.pump.Plan())
    && (r.rc == DONE <==> !r.pump.busy)
  }

  ghost function Owing(head: seq<Cell>, n: nat, rest: Scanned): Scanned {
    Scanned(head + rest.out, rest.tail, n + rest.skipped)
  }

  /** Whatever the output answers, a step follows the plan. */
  lemma {:induction false} StepFollowsPlan(p: Pump, ws: seq<int>)
    requires p.Valid()
    ensures Follows(p, Step(p, ws))
    decreases |p.scratch| - p.sendOff, !p.writing
  {
    if !p.busy {
      assert [] + p.Plan().out == p.Plan().out;
    } else {
      TurnFollowsPlan(p, Answer(ws));
      match Turned(p, Answer(ws))
      case Halt(r) =>
      case Go(q, out, n) =>
        StepFollowsPlan(q, Later(p, ws));
        Chain(p, q, out, n, Step(q, Later(p, ws)));
    }
  }

  lemma TurnFollowsPlan(p: Pump, answer: int)
    requires p.Valid() && p.busy
    ensures TurnFollows(p, Turned(p, answer))
  {
    if !p.writing {
      ScanFollowsPlan(p);
    } else if p.sink {
      UntouchedFollowsPlan(p);
      PacketFollowsPlan(p);
    } else {
      WriteFollowsPlan(p, answer);
    }
  }

  lemma UntouchedFollowsPlan(p: Pump)
    requires p.Valid() && p.busy
    ensures forall rc | rc != DONE :: Follows(p, Stepped(p, rc, [], 0))
  {
    assert [] + p.Plan().out == p.Plan().out;
  }

  ghost predicate TurnFollows(p: Pump, t: Turn)
    requires p.Valid()
  {
    match t
    case Halt(r) => Follows(p, r)
    case Go(q, out, n) => q.Valid() && q.sink == p.sink && p.Plan() == Owing(out, n, q.Plan())
  }

  lemma WriteFollowsPlan(p: Pump, answer: int)
    requires p.Valid() && p.writing && !p.sink
    ensures TurnFollows(p, WriteTurn(p, answer))
  {
    if answer < 0 {
      RefusedFollowsPlan(p, answer);
    } else if p.resumeOff > 0 {
      ResumeFollowsPlan(p, answer);
    } else if answer >= 188 - p.packetOff {
      WholeFollowsPlan(p, answer);
    } else {
      PartFollowsPlan(p, answer);
    }
  }

  lemma RefusedFollowsPlan(p: Pump, answer: int)
    requires p.Valid() && p.writing && !p.sink && answer < 0
    ensures TurnFollows(p, WriteTurn(p, answer))
  {
    UntouchedFollowsPlan(p);
  }

  lemma WholeFollowsPlan(p: Pump, answer: int)
    requires p.Valid() && p.writing && !p.sink && p.resumeOff == 0 && answer >= 188 - p.packetOff
    ensures TurnFollows(p, WriteTurn(p, answer))
  {
    PacketFollowsPlan(p);
    WholeTurn(p, answer);
  }

  lemma WholeTurn(p: Pump, answer: int)
    requires p.Valid() && p.writing && !p.sink && p.resumeOff == 0 && answer >= 188 - p.packetOff
    ensures WriteTurn(p, answer) == Go(NextPacket(p), p.scratch[p.sendOff..][p.packetOff..PACKET], 0)
  {
    assert p.packetOff + (188 - p.packetOff) == 188;
  }

  lemma ScanFollowsPlan(p: Pump)
    requires p.Valid() && p.busy && !p.writing
    ensures TurnFollows(p, ScanTurn(p))
  {
    var n := Garbage(p.scratch[p.sendOff..]);
    GarbageSkipped(p, n);
    SkipFollowsPlan(p, n);
  }

  /** n bytes on a packet may start, or less than a packet is left, and the scan goes on from there. */
  ghost predicate Skips(p: Pump, n: nat) {
    && p.sendOff + n <= |p.scratch|
    && (|p.scratch| - (p.sendOff + n) >= PACKET ==> Starts(p.scratch[p.sendOff + n..]))
    && Scan(p.scratch[p.sendOff..]) == Owing([], n, Scan(p.scratch[p.sendOff + n..]))
  }

  lemma GarbageSkipped(p: Pump, n: nat)
    requires p.sendOff <= |p.scratch| && n == Garbage(p.scratch[p.sendOff..])
    ensures Skips(p, n)
  {
    SkipGarbage(p.scratch, p.sendOff);
  }

  lemma SkipFollowsPlan(p: Pump, n: nat)
    requires p.Valid() && p.busy && !p.writing && Skips(p, n)
    ensures TurnFollows(p, SkipTo(p, n))
  {
    var later := Scan(p.scratch[p.sendOff + n..]);
    assert later.out[0..] == later.out;
  }

  lemma {:induction false} SkipGarbage(s: seq<Cell>, from: nat)
    requires from <= |s|
    ensures var n := Garbage(s[from..]);
            && (|s| - (from + n) >= PACKET ==> Starts(s[from + n..]))
            && Scan(s[from..]) == Owing([], n, Scan(s[from + n..]))
    decreases |s| - from
  {
    var rest := s[from..];
    if |rest| < PACKET || Starts(rest) {
      assert [] + Scan(rest).out == Scan(rest).out;
    } else {
      assert rest[1..] == s[from + 1..];
      SkipGarbage(s, from + 1);
    }
  }

  lemma ScanTurnValid(p: Pump)
    requires p.Valid() && p.busy && !p.writing
    ensures match ScanTurn(p) case Halt(r) => r.pump.Valid() case Go(q, _, _) => q.Valid()
  {
    SkipGarbage(p.scratch, p.sendOff);
  }

  /** Writing all that is left of an ordinary packet. */
  lemma PacketFollowsPlan(p: Pump)
    requires p.Valid() && p.writing && p.resumeOff == 0
    ensures NextPacket(p).Valid()
    ensures p.Plan() == Owing(p.scratch[p.sendOff..][p.packetOff..PACKET], 0, NextPacket(p).Plan())
  {
    var rest := p.scratch[p.sendOff..];
    assert rest[PACKET..] == p.scratch[p.sendOff + PACKET..];
    assert Scan(rest).out == rest[..PACKET] + Scan(rest[PACKET..]).out;
    assert Scan(rest).out[p.packetOff..] == rest[p.packetOff..PACKET] + Scan(rest[PACKET..]).out;
  }

  /** Writing n bytes of an ordinary packet, and not its last. */
  lemma PartFollowsPlan(p: Pump, n: nat)
    requires p.Valid() && p.writing && p.resumeOff == 0 && !p.sink && n < 188 - p.packetOff
    ensures TurnFollows(p, WriteTurn(p, n))
  {
    var off, at := p.packetOff, p.packetOff + n;
    PartPlanned(p.scratch, p.sendOff, off, at);
    assert p.(packetOff := at).Valid();
  }

  lemma PartPlanned(scratch: seq<Cell>, from: nat, off: nat, at: nat)
    requires from + 188 <= |scratch| && Starts(scratch[from..]) && off <= at < 188
    ensures var out := Scan(scratch[from..]).out;
            |out| >= 188 && out[off..] == scratch[from..][off..at] + out[at..]
  {
    var rest := scratch[from..];
    assert Scan(rest).out == rest[..188] + Scan(rest[188..]).out;
    SplitPacket(rest, Scan(rest[188..]).out, off, at);
  }

  lemma SplitPacket(rest: seq<Cell>, more: seq<Cell>, off: nat, at: nat)
    requires off <= at <= 188 <= |rest|
    ensures (rest[..188] + more)[off..] == rest[off..at] + (rest[..188] + more)[at..]
  {
    var all := rest[..188] + more;
    var left, right := all[off..], rest[off..at] + all[at..];
    forall i | 0 <= i < |left| ensures left[i] == right[i] {
      assert left[i] == all[off + i];
      assert i >= at - off ==> right[i] == all[at..][i - (at - off)];
    }
  }

  /** Writing the rest of a packet kept over a retune, in whole or in part. */
  lemma ResumeFollowsPlan(p: Pump, answer: int)
    requires p.Valid() && p.writing && p.resumeOff > 0 && answer >= 0
    ensures TurnFollows(p, WriteTurn(p, answer))
  {
    var n := Taken(answer, PACKET - p.packetOff);
    var at := p.packetOff - p.resumeOff;
    assert p.scratch[0..] == p.scratch;
    assert p.scratch[at..] == p.scratch[at..at + n] + p.scratch[at + n..];
  }

  lemma Chain(p: Pump, q: Pump, head: seq<Cell>, n: nat, r: Stepped)
    requires p.Valid() && q.Valid() && p.sink == q.sink
    requires p.Plan() == Owing(head, n, q.Plan())
    requires Follows(q, r)
    ensures Follows(p, r.After(head, n))
  {
    OwingTwice(head, n, r.out, r.skipped, r.pump.Plan());
  }

  lemma OwingTwice(a: seq<Cell>, m: nat, b: seq<Cell>, n: nat, rest: Scanned)
    ensures Owing(a, m, Owing(b, n, rest)) == Owing(a + b, m + n, rest)
  {
    assert a + (b + rest.out) == a + b + rest.out;
  }

  /** Answers that take everything. */
  ghost predicate Takes(sink: bool, ws: seq<int>) {
    forall w | w in ws :: if sink then w == 0 else w >= PACKET
  }

  lemma DrainTurn(p: Pump, answer: int)
    requires p.Valid() && p.busy && (p.writing ==> if p.sink then answer == 0 else answer >= PACKET)
    ensures match Turned(p, answer)
            case Halt(r) => r.rc == DONE
            case Go(q, out, _) =>
              && q.sink == p.sink && |p.Plan().out| == |out| + |q.Plan().out| && q.packetOff == 0
              && |out| == if p.writing then 188 - p.packetOff else 0
  {
    TurnFollowsPlan(p, answer);
  }

  /** An output that takes everything empties the pump within one step. */
  lemma {:induction false} StepDrains(p: Pump, ws: seq<int>)
    requires p.Valid() && Takes(p.sink, ws)
    requires 188 * |ws| >= |p.Plan().out| + p.packetOff
    ensures Step(p, ws).rc == DONE
    decreases |p.scratch| - p.sendOff, !p.writing
  {
    if p.busy {
      assert p.writing ==> ws != [] && ws[0] in ws;
      DrainTurn(p, Answer(ws));
      match Turned(p, Answer(ws))
      case Halt(r) =>
      case Go(q, out, n) =>
        assert forall w | w in Later(p, ws) :: w in ws;
        StepDrains(q, Later(p, ws));
    }
  }

  /** An output call after which the step may go on: a sink must answer 0, a descriptor may not fail. */
  predicate Passes(sink: bool, answer: int) {
    if sink then answer == 0 else answer >= 0
  }

  /** What a step reports that ends with this answer: an error as it is, a request to try again (-11, -4)
      and a short write as pending, a sink's positive refusal as -5. */
  function Reported(sink: bool, answer: int): int {
    if sink then if answer < 0 then answer else -5
    else if answer >= 0 || answer == -11 || answer == -4 then 1 else answer
  }

  /** A step that is not done was ended by its k-th answer, all before it having passed, and reports
      just that answer; a schedule that runs out answers -11. */
  lemma {:induction false} StepReports(p: Pump, ws: seq<int>) returns (k: nat)
    requires p.Valid()
    ensures k <= |ws| && forall i | 0 <= i < k :: Passes(p.sink, ws[i])
    ensures var last, rc := if k < |ws| then ws[k] else -11, Step(p, ws).rc;
            rc == 0 || ((p.sink ==> last != 0) && rc == Reported(p.sink, last))
    decreases |p.scratch| - p.sendOff, !p.writing
  {
    k := 0;
    if p.busy && Turned(p, Answer(ws)).Go? {
      var q := Turned(p, Answer(ws)).pump;
      var j := StepReports(q, Later(p, ws));
      k := if p.writing && ws != [] then j + 1 else j;
    }
  }

  /** A descriptor that owes at least a packet's rest and takes n bytes of it is given exactly
      those; short of the packet's end the step then waits. */
  lemma {:induction false} StepTakes(p: Pump, n: nat, ws: seq<int>)
    requires p.Valid() && !p.sink && p.Plan().out != []
    ensures var r := Step(p, [n] + ws);
            if n < PACKET - p.packetOff then |r.out| == n && r.rc == PENDING
            else |r.out| >= PACKET - p.packetOff
    decreases |p.scratch| - p.sendOff, !p.writing
  {
    TurnFollowsPlan(p, n);
    match Turned(p, n)
    case Halt(r) =>
    case Go(q, out, k) =>
      if !p.writing {
        StepTakes(q, n, ws);
      }
  }
}
