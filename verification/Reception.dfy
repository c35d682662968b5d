/** That the queue does take in what it should: which completions are stored, what reopens it, and what
    then comes out. */
module Reception {
  import opened Wire
  import opened QueueModel
  import opened Receiver
  import P = PumpModel
  import R = PumpRuns

  function Values(s: seq<Cell>): seq<Byte> {
    seq(|s|, i requires 0 <= i < |s| => s[i].value)
  }

  lemma {:induction false} RunAppend(s: State, a: seq<Event>, b: seq<Event>)
    requires s.out.Inv()
    ensures Run(s, a + b) == Run(Run(s, a), b)
    decreases |a|
  {
    if a == [] {
      assert a + b == b;
    } else {
      NextKeepsOutput(s, a[0]);
      assert (a + b)[1..] == a[1..] + b;
      RunAppend(Next(s, a[0]), a[1..], b);
    }
  }

  lemma RunSnoc(s: State, a: seq<Event>, e: Event)
    requires s.out.Inv()
    ensures Run(s, a + [e]) == Next(Run(s, a), e)
  {
    RunAppend(s, a, [e]);
    RunOne(Run(s, a), e);
  }

  lemma RunOne(s: State, e: Event)
    requires s.out.Inv()
    ensures Run(s, [e]) == Next(s, e)
  {
    NextKeepsOutput(s, e);
    assert [e][1..] == [];
  }

  // ---------------------------------------------------------------- the flags, from the events

  /** What there is to say of the events so far: whether the last retune event is a beginning, how many
      began and finished, the last setting of fail-on-drop, whether the queue was closed and fail-on-drop
      ever set, and how often a capture session began or ended. */
  datatype Heard = Heard(tuning: bool, retunes: nat, failing: bool, closed: bool, everFailing: bool, changes: nat)

  const SILENCE := Heard(false, 0, false, false, false, 0)

  function Hear(h: Heard, e: Event, changed: bool): Heard {
    Heard(e.RetuneBegin? || (!e.RetuneFinish? && h.tuning),
          h.retunes + (if e.RetuneBegin? || e.RetuneFinish? then 1 else 0),
          if e.SetFailOnDrop? then e.enabled else h.failing,
          h.closed || e == Close,
          h.everFailing || e == SetFailOnDrop(true),
          h.changes + if changed then 1 else 0)
  }

  function HearAll(s: State, h: Heard, events: seq<Event>): Heard
    requires s.out.Inv()
    decreases |events|
  {
    if events == [] then h
    else
      NextKeepsOutput(s, events[0]);
      var t := Next(s, events[0]);
      HearAll(t, Hear(h, events[0], s.queue.captureEnabled != t.queue.captureEnabled), events[1..])
  }

  /** The flags and counters of the queue are what the events say. */
  ghost predicate Tells(q: Queue, h: Heard) {
    && (q.discarding <==> h.tuning)
    && q.epoch == h.retunes
    && (q.failOnDrop <==> h.failing) && (h.failing ==> h.everFailing)
    && (q.closed <==> h.closed || q.overflowed)
    && (q.overflowed ==> q.drops > 0 && h.everFailing)
    && q.captureGeneration == Least(h.changes, 0xFFFF_FFFF_FFFF_FFFF)
  }

  function Least(a: nat, b: nat): nat { if a < b then a else b }

  lemma {:induction false} TellsOnward(s: State, h: Heard, events: seq<Event>)
    requires s.out.Inv() && Tells(s.queue, h)
    ensures Tells(Run(s, events).queue, HearAll(s, h, events))
    decreases |events|
  {
    if events != [] {
      var e, t := events[0], Next(s, events[0]);
      NextKeepsOutput(s, e);
      FlagsStep(s, e);
      var k := Hear(h, e, s.queue.captureEnabled != t.queue.captureEnabled);
      TellsNext(s.queue, t.queue, h, e);
      TellsOnward(t, k, events[1..]);
    }
  }

  lemma TellsNext(q: Queue, r: Queue, h: Heard, e: Event)
    requires Tells(q, h) && Flagged(q, r, e)
    ensures Tells(r, Hear(h, e, q.captureEnabled != r.captureEnabled))
  {
  }

  /** In every run the flags and counters are those of the events. */
  lemma QueueTells(captureEnabled: bool, events: seq<Event>)
    ensures Tells(Run(Start(captureEnabled), events).queue, HearAll(Start(captureEnabled), SILENCE, events))
  {
    TellsOnward(Start(captureEnabled), SILENCE, events);
  }

  /** What an event does to the flags and counters. */
  ghost predicate Flagged(q: Queue, r: Queue, e: Event) {
    && r.discarding == (e.RetuneBegin? || (q.discarding && !e.RetuneFinish?))
    && r.epoch == q.epoch + (if e.RetuneBegin? || e.RetuneFinish? then 1 else 0)
    && r.failOnDrop == (if e.SetFailOnDrop? then e.enabled else q.failOnDrop)
    && (q.overflowed ==> r.overflowed)
    && ((q.overflowed ==> q.closed) ==> r.closed == (q.closed || e == Close || (r.overflowed && !q.overflowed)))
    && (r.overflowed && !q.overflowed ==> q.failOnDrop && r.drops > q.drops) && r.drops >= q.drops
    && r.captureGeneration ==
       Least(q.captureGeneration + (if r.captureEnabled != q.captureEnabled then 1 else 0), UINT64_MAX)
  }

  lemma FlagsStep(s: State, e: Event)
    requires s.out.Inv() && s.queue.captureGeneration <= UINT64_MAX
    ensures Flagged(s.queue, Next(s, e).queue, e)
  {
    match e
    case Turn(answers) => TurnFlags(s, answers);
    case Complete(id, payload) => CompleteFlags(s, id, payload);
    case Discard => DiscardFlags(s);
    case Deliver(g) => DeliverFlags(s, g);
    case CaptureStart => StartFlags(s);
    case CaptureStop => StopFlags(s);
    case _ => OtherFlags(s, e);
  }

  lemma TakenFlags(q: Queue, p: Popped, e: Event)
    requires q.captureGeneration <= UINT64_MAX && (e.Turn? || e.Discard? || e.Deliver?)
    ensures Flagged(q, Taken(q, p), e) && Flagged(q, q, e)
  {
  }

  lemma TurnFlags(s: State, answers: seq<int>)
    requires s.out.Inv() && s.queue.captureGeneration <= UINT64_MAX
    ensures Flagged(s.queue, Next(s, Turn(answers)).queue, Turn(answers))
  {
    TurnOnlyPops(s, answers);
    TakenFlags(s.queue, Pop(s.queue), Turn(answers));
  }

  lemma DiscardFlags(s: State)
    requires s.out.Inv() && s.queue.captureGeneration <= UINT64_MAX
    ensures Flagged(s.queue, Next(s, Discard).queue, Discard)
  {
    TakenFlags(s.queue, Pop(s.queue), Discard);
  }

  lemma DeliverFlags(s: State, g: nat)
    requires s.out.Inv() && s.queue.captureGeneration <= UINT64_MAX
    ensures Flagged(s.queue, Next(s, Deliver(g)).queue, Deliver(g))
  {
    TakenFlags(s.queue, PopCapture(s.queue, g), Deliver(g));
  }

  lemma CompleteFlags(s: State, id: nat, payload: seq<Byte>)
    requires s.out.Inv() && s.queue.captureGeneration <= UINT64_MAX
    ensures Flagged(s.queue, Next(s, Complete(id, payload)).queue, Complete(id, payload))
  {
  }

  lemma StartFlags(s: State)
    requires s.out.Inv() && s.queue.captureGeneration <= UINT64_MAX
    ensures Flagged(s.queue, Next(s, CaptureStart).queue, CaptureStart)
  {
    assert Next(s, CaptureStart).queue == CaptureStarted(s.queue);
  }

  lemma StopFlags(s: State)
    requires s.out.Inv() && s.queue.captureGeneration <= UINT64_MAX
    ensures Flagged(s.queue, Next(s, CaptureStop).queue, CaptureStop)
  {
    assert Next(s, CaptureStop).queue == CaptureStopped(s.queue);
  }

  lemma OtherFlags(s: State, e: Event)
    requires s.out.Inv() && s.queue.captureGeneration <= UINT64_MAX
    requires e.Submit? || e.Lost? || e.RetuneBegin? || e.RetuneFinish? || e.Close? || e.SetFailOnDrop?
    ensures Flagged(s.queue, Next(s, e).queue, e)
  {
  }

  // ---------------------------------------------------------------- which completions are stored

  /** The events leave transfer `id` alone. */
  ghost predicate Spares(events: seq<Event>, id: nat) {
    forall e | e in events :: !(e.Submit? && e.id == id) && !(e.Complete? && e.id == id) && !(e.Lost? && e.id == id)
  }

  /** No retune begins or finishes, and a capture session is enabled all along. */
  ghost predicate Unbroken(s: State, events: seq<Event>)
    requires s.out.Inv()
    decreases |events|
  {
    && s.queue.captureEnabled
    && (events != [] ==>
          && !events[0].RetuneBegin? && !events[0].RetuneFinish?
          && Next(s, events[0]).out.Inv() && Unbroken(Next(s, events[0]), events[1..]))
  }

  lemma {:induction false} StampStays(s: State, events: seq<Event>, id: nat)
    requires s.out.Inv() && id in s.flying && Spares(events, id)
    ensures var t := Run(s, events); id in t.flying && t.flying[id] == s.flying[id]
    decreases |events|
  {
    if events != [] {
      var e := events[0];
      assert e in events;
      NextKeepsOutput(s, e);
      SparedStep(s, e, id);
      StampStays(Next(s, e), events[1..], id);
    }
  }

  lemma SparedStep(s: State, e: Event, id: nat)
    requires s.out.Inv() && id in s.flying && Spares([e], id)
    ensures id in Next(s, e).flying && Next(s, e).flying[id] == s.flying[id]
  {
    assert e in [e];
  }

  lemma {:induction false} UnbrokenKeeps(s: State, events: seq<Event>)
    requires s.out.Inv() && s.queue.captureGeneration <= UINT64_MAX && Unbroken(s, events)
    ensures var q, r := s.queue, Run(s, events).queue;
            && r.epoch == q.epoch && r.discarding == q.discarding
            && r.captureEnabled && r.captureGeneration == q.captureGeneration
    decreases |events|
  {
    if events != [] {
      NextKeepsOutput(s, events[0]);
      FlagsStep(s, events[0]);
      assert Unbroken(Next(s, events[0]), events[1..]);
      assert Next(s, events[0]).queue.captureEnabled;
      UnbrokenKeeps(Next(s, events[0]), events[1..]);
    }
  }

  lemma {:induction false} EpochGrows(s: State, events: seq<Event>)
    requires s.out.Inv() && s.queue.captureGeneration <= UINT64_MAX
    ensures Run(s, events).queue.epoch >= s.queue.epoch
    decreases |events|
  {
    if events != [] {
      NextKeepsOutput(s, events[0]);
      FlagsStep(s, events[0]);
      EpochGrows(Next(s, events[0]), events[1..]);
    }
  }

  /** After an interruption either the epoch or the session has moved on. */
  lemma {:induction false} BrokenMovesOn(s: State, events: seq<Event>)
    requires s.out.Inv() && s.queue.captureGeneration <= UINT64_MAX && !Unbroken(s, events)
    ensures var q, r := s.queue, Run(s, events).queue;
            r.epoch > q.epoch || Ended(r, q.captureGeneration)
    decreases |events|
  {
    var g := s.queue.captureGeneration;
    if !s.queue.captureEnabled {
      EndedSessionGetsNothing(s, events, g);
    } else {
      var e := events[0];
      NextKeepsOutput(s, e);
      FlagsStep(s, e);
      if e.RetuneBegin? || e.RetuneFinish? {
        EpochGrows(Next(s, e), events[1..]);
      } else if !Next(s, e).queue.captureEnabled {
        EndedSessionGetsNothing(Next(s, e), events[1..], g);
      } else {
        BrokenMovesOn(Next(s, e), events[1..]);
      }
    }
  }

  /** Which completions are stored. From any reachable state, submit a transfer, let anything happen that
      leaves it alone, and let it complete: its bytes join the queue exactly when no tune was going on at
      its submission, none has begun or finished since, a capture session was enabled all along, and the
      queue is not closed; if it is then full the chunk is dropped, and otherwise the queue is unchanged. */
  lemma CompletionIsStoredIff(s: State, id: nat, events: seq<Event>, payload: seq<Byte>)
    requires Inv(s) && Spares(events, id)
    ensures var a := Next(s, Submit(id));
            var t := Run(a, events);
            var u := Next(t, Complete(id, payload));
            if s.queue.discarding || !Unbroken(a, events) || t.queue.closed then u.queue == t.queue
            else if |t.queue.items| >= 256 then u.queue.items == t.queue.items && u.queue.drops == t.queue.drops + 1
            else Joins(t.queue, u.queue, payload)
  {
    var a := Next(s, Submit(id));
    SubmitKeepsInv(s, id);
    RunKeepsInv(a, events);
    var t := Run(a, events);
    StampStays(a, events, id);
    if Unbroken(a, events) {
      UnbrokenKeeps(a, events);
    } else {
      BrokenMovesOn(a, events);
    }
    CompletedQueue(t, id, payload);
  }

  /** A transfer that has come back, with data or without, brings nothing more until it is submitted again. */
  lemma ComesBackOnce(s: State, id: nat, first: Event, payload: seq<Byte>)
    requires s.out.Inv() && ((first.Complete? && first.id == id) || first == Lost(id))
    ensures Next(s, first).out.Inv() && Next(Next(s, first), Complete(id, payload)) == Next(s, first)
  {
    NextKeepsOutput(s, first);
  }

  /** The payload, up to 16384 bytes of it, is the queue's one new chunk. */
  ghost predicate Joins(q: Queue, r: Queue, payload: seq<Byte>) {
    && |r.items| == |q.items| + 1 && r == q.(items := q.items + [r.items[|q.items|]])
    && Values(r.items[|q.items|].data) == payload[..Least(|payload|, 16384)]
  }

  lemma CompletedQueue(t: State, id: nat, payload: seq<Byte>)
    requires t.out.Inv() && id in t.flying && |t.queue.items| <= 256
    ensures var q, r := t.queue, Next(t, Complete(id, payload)).queue;
            var st := t.flying[id];
            if !q.captureEnabled || q.captureGeneration != st.generation || q.discarding || q.epoch != st.epoch || q.closed
            then r == q
            else if |q.items| == 256 then r.items == q.items && r.drops == q.drops + 1
            else Joins(q, r, payload)
  {
    ClippedValues(payload, t.flying[id].tunes);
  }

  lemma ClippedValues(payload: seq<Byte>, n: nat)
    ensures Values(Clip(Tagged(payload, n))) == payload[..Least(|payload|, 16384)]
  {
  }

  /** Reception resumes after a retune, failed or not: with a capture session enabled, the queue open and
      room in it, the next transfer submitted is stored when it completes. */
  lemma ReceptionResumes(s: State, success: bool, id: nat, payload: seq<Byte>)
    requires Inv(s) && s.queue.captureEnabled && !s.queue.closed
    ensures var f := Next(s, RetuneFinish(success));
            |f.queue.items| < 256 ==>
              Joins(f.queue, Run(s, [RetuneFinish(success), Submit(id), Complete(id, payload)]).queue, payload)
  {
    var f := Next(s, RetuneFinish(success));
    RetuneFinishKeepsInv(s, success);
    ThreeEvents(s, RetuneFinish(success), Submit(id), Complete(id, payload));
    Reopens(s, success);
    CompletionIsStoredIff(f, id, [], payload);
    NotDelivered(f, id, payload);
  }

  lemma Reopens(s: State, success: bool)
    requires s.out.Inv()
    ensures var q, r := s.queue, Next(s, RetuneFinish(success)).queue;
            !r.discarding && r.captureEnabled == q.captureEnabled && r.closed == q.closed
  {
  }

  lemma ThreeEvents(s: State, c: Event, d: Event, e: Event)
    requires s.out.Inv()
    ensures Next(s, c).out.Inv() && Next(Next(s, c), d).out.Inv()
    ensures Run(s, [c, d, e]) == Next(Next(Next(s, c), d), e)
  {
    NextKeepsOutput(s, c);
    TwoEvents(Next(s, c), d, e);
    RunCons(s, c, [d, e]);
    assert [c] + [d, e] == [c, d, e];
  }

  // ---------------------------------------------------------------- what comes out

  /** A pop hands out the oldest stored chunk that has not left the queue. */
  lemma PopsAreOldest(captureEnabled: bool, events: seq<Event>, g: nat)
    ensures var s := Run(Start(captureEnabled), events);
            var oldest := if s.journal.gone < |s.journal.arrived| then Data(s.journal.arrived[s.journal.gone]) else Error(-11);
            && Pop(s.queue) == (if s.queue.overflowed then Error(-105) else oldest)
            && PopCapture(s.queue, g) ==
               if s.queue.overflowed then Error(-105)
               else if !s.queue.captureEnabled || g != s.queue.captureGeneration then Error(-125) else oldest
  {
    RunKeepsInv(Start(captureEnabled), events);
  }

  /** Which starts succeed, and what the others are told. */
  lemma StartAnswers(q: Queue)
    ensures CaptureStartResult(q) == 0 <==>
            !q.closed && !q.overflowed && !q.captureEnabled && q.captureGeneration != 0xFFFF_FFFF_FFFF_FFFF
    ensures q.closed || q.overflowed ==> CaptureStartResult(q) == -108
    ensures !q.closed && !q.overflowed && q.captureEnabled ==> CaptureStartResult(q) == -114
    ensures !q.closed && !q.overflowed && !q.captureEnabled && q.captureGeneration == 0xFFFF_FFFF_FFFF_FFFF ==>
              CaptureStartResult(q) == -75
  {
  }

  /** A capture session receives: from any reachable state in which one can start and no tune is going on,
      the bytes of the next transfer are handed to it, and the queue is empty again. */
  lemma SessionReceives(s: State, id: nat, payload: seq<Byte>)
    requires Inv(s) && !s.queue.closed && !s.queue.overflowed && !s.queue.captureEnabled && !s.queue.discarding
    requires s.queue.captureGeneration < 0xFFFF_FFFF_FFFF_FFFF && |payload| <= 16384
    ensures var g := s.queue.captureGeneration + 1;
            var u := Run(s, [CaptureStart, Submit(id), Complete(id, payload)] + [Deliver(g)]);
            && |u.delivered| == |s.delivered| + 1 && s.delivered <= u.delivered && u.queue.items == []
            && u.delivered[|s.delivered|].generation == g
            && Values(u.delivered[|s.delivered|].chunk.data) == payload
  {
    var g := s.queue.captureGeneration + 1;
    StartsSession(s);
    var a := Next(s, CaptureStart);
    CompletionIsStoredIff(a, id, [], payload);
    var t := Next(Next(a, Submit(id)), Complete(id, payload));
    ThreeEvents(s, CaptureStart, Submit(id), Complete(id, payload));
    NextKeepsOutput(Next(a, Submit(id)), Complete(id, payload));
    RunSnoc(s, [CaptureStart, Submit(id), Complete(id, payload)], Deliver(g));
    NotDelivered(a, id, payload);
    DeliversFirst(t, g);
  }

  lemma StartsSession(s: State)
    requires Inv(s) && CaptureStartResult(s.queue) == 0
    ensures var a := Next(s, CaptureStart);
            && Inv(a) && a.delivered == s.delivered
            && a.queue == s.queue.(items := [], captureEnabled := true, captureGeneration := s.queue.captureGeneration + 1)
  {
    NextKeepsInv(s, CaptureStart);
  }

  lemma NotDelivered(s: State, id: nat, payload: seq<Byte>)
    requires s.out.Inv()
    ensures Next(s, Submit(id)).out.Inv() && Next(s, Submit(id)).queue == s.queue
    ensures Next(Next(s, Submit(id)), Complete(id, payload)).delivered == s.delivered
  {
  }

  lemma DeliversFirst(t: State, g: nat)
    requires t.out.Inv() && |t.queue.items| == 1 && !t.queue.overflowed && t.queue.captureEnabled
    requires t.queue.captureGeneration == g
    ensures var u := Next(t, Deliver(g));
            u.out.Inv() && u.delivered == t.delivered + [Delivery(g, t.queue.items[0])] && u.queue.items == []
  {
  }

  /** A turn delivers: an idle pump whose output takes everything puts out the scan of what it held and the
      oldest chunk, and is idle again. */
  lemma TurnDelivers(s: State, answers: seq<int>)
    requires Inv(s) && !s.out.pump.busy && !s.queue.overflowed && s.queue.items != []
    requires P.Takes(s.out.pump.sink, answers)
    requires 188 * |answers| >= |P.Scan(s.out.pump.hold + s.queue.items[0].data).out|
    ensures var t, r := Next(s, Turn(answers)), P.Scan(s.out.pump.hold + s.queue.items[0].data);
            && t.queue == s.queue.(items := s.queue.items[1..])
            && t.out.emitted == s.out.emitted + r.out && !t.out.pump.busy && t.out.pump.hold == r.tail
  {
    assert Current(s.queue, s.tunes, s.queue.items[0]);
    FedByTurn(s);
    StepsAfterFeed(Fed(s), answers);
  }

  lemma StepsAfterFeed(f: State, answers: seq<int>)
    requires f.out.Inv() && f.out.pump.busy && f.out.pump.packetOff == 0
    requires P.Takes(f.out.pump.sink, answers) && 188 * |answers| >= |f.out.pump.Plan().out|
    ensures var t, r := Stepped(f, answers), f.out.pump.Plan();
            && t.queue == f.queue && t.out.emitted == f.out.emitted + r.out
            && !t.out.pump.busy && t.out.pump.hold == r.tail
  {
    FullStep(f.out.pump, answers);
  }

  /** A step of a busy pump that is not within a packet, its output taking everything. */
  lemma FullStep(p: P.Pump, answers: seq<int>)
    requires p.Valid() && p.busy && p.packetOff == 0 && P.Takes(p.sink, answers) && 188 * |answers| >= |p.Plan().out|
    ensures var r := P.Step(p, answers);
            r.out == p.Plan().out && !r.pump.busy && r.pump.hold == p.Plan().tail
  {
    P.StepDrains(p, answers);
    P.StepFollowsPlan(p, answers);
    var r := P.Step(p, answers);
    assert r.pump.Plan() == P.Scanned([], r.pump.hold, 0);
    assert r.out + [] == r.out;
  }

  lemma FedByTurn(s: State)
    requires s.out.Inv() && !s.out.pump.busy && !s.queue.overflowed && s.queue.items != []
    requires |s.queue.items[0].data| <= TRANSFER_SIZE
    ensures var f := Fed(s);
            && f.queue == s.queue.(items := s.queue.items[1..]) && f.out.emitted == s.out.emitted
            && f.out.pump == P.Fed(s.out.pump, s.queue.items[0].data)
  {
  }
}
