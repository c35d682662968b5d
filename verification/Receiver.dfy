/** The whole data path: transfers stamped at submission, their completions queued, chunks
    popped and pumped out, while retunes and capture sessions come and go at any moment.
    Every event is one critical section, or one turn of the consumer's own loop. */
module Receiver {
  import opened Wire
  import opened QueueModel
  import P = PumpModel
  import R = PumpRuns
  import I = Isolation

  datatype Delivery = Delivery(generation: nat, chunk: Chunk)

  /** Every chunk ever stored, how many of them have left the queue, every chunk ever popped, and
      where each of those stands among the stored ones. */
  datatype Journal = Journal(arrived: seq<Chunk>, gone: nat, popped: seq<Chunk>, places: seq<nat>)

  datatype State = State(
    queue: Queue,
    flying: map<nat, Stamp>,     // transfers submitted and not yet called back
    out: R.Trace,                // the output pump and what it has put out
    tunes: nat,                  // successful retunes finished
    offered: nat, rejected: nat, cleared: nat,
    journal: Journal,
    delivered: seq<Delivery>)    // what ts_pop_capture handed out, and to whom

  datatype Event =
    | Submit(id: nat)
    | Complete(id: nat, payload: seq<Byte>)
    | Lost(id: nat)                     // called back without transport-stream data
    | RetuneBegin
    | RetuneFinish(success: bool)
    | Discard                           // a pop whose chunk is thrown away, as while waiting for lock
    | Turn(answers: seq<int>)           // one turn of stream_ts or stream_ts_control
    | CaptureStart
    | CaptureStop
    | Deliver(generation: nat)          // ts_pop_capture
    | Close
    | SetFailOnDrop(enabled: bool)

  function Start(captureEnabled: bool): (s: State)
    ensures Inv(s)
  {
    var s := State(Init(captureEnabled), map[], R.Start(false), 0, 0, 0, 0, Journal([], 0, [], []), []);
    assert s.out.Total() == [];
    s
  }

  function Tagged(payload: seq<Byte>, n: nat): seq<Cell> {
    seq(|payload|, i requires 0 <= i < |payload| => Cell(payload[i], n))
  }

  function Popping(j: Journal, c: Chunk): Journal {
    j.(gone := j.gone + 1, popped := j.popped + [c], places := j.places + [j.gone])
  }

  function Took(s: State, p: Popped): State {
    if p.Error? then s else s.(queue := Taken(s.queue, p), journal := Popping(s.journal, p.chunk))
  }

  function Cleared(s: State, q: Queue): State
    requires |q.items| <= |s.queue.items|
  {
    var n := |s.queue.items| - |q.items|;
    s.(queue := q, cleared := s.cleared + n, journal := s.journal.(gone := s.journal.gone + n))
  }

  function Completed(s: State, id: nat, payload: seq<Byte>): State
    requires id in s.flying
  {
    var stamp := s.flying[id];
    var data := Tagged(payload, stamp.tunes);
    s.(queue := Enqueued(s.queue, stamp, data),
       journal := if EnqueueFate(s.queue, stamp) == Stored
                  then s.journal.(arrived := s.journal.arrived + [Chunk(Clip(data), stamp)]) else s.journal,
       flying := s.flying - {id},
       offered := s.offered + 1,
       rejected := if EnqueueFate(s.queue, stamp) == Rejected then s.rejected + 1 else s.rejected)
  }

  /** A turn of the consumer: pop and feed when the pump is idle, then step it if it is not. */
  function Fed(s: State): (t: State)
    requires s.out.Inv()
    ensures t.out.Inv()
  {
    var p := Pop(s.queue);
    if s.out.pump.busy || p.Error? then s
    else
      R.FeedKeepsInv(s.out, p.chunk.data);
      Took(s, p).(out := R.Do(s.out, R.Feed(p.chunk.data)))
  }

  function Stepped(s: State, answers: seq<int>): State
    requires s.out.Inv()
  {
    if s.out.pump.busy then s.(out := R.Do(s.out, R.Write(answers))) else s
  }

  function Next(s: State, e: Event): State
    requires s.out.Inv()
  {
    match e
    case Submit(id) => s.(flying := s.flying[id := StampOf(s.queue, s.tunes)])
    case Complete(id, payload) => if id in s.flying then Completed(s, id, payload) else s
    case Lost(id) => s.(flying := s.flying - {id})
    case RetuneBegin => s.(queue := RetuneBegun(s.queue))
    case RetuneFinish(success) =>
      var t := Cleared(s, RetuneFinished(s.queue, success));
      if success then t.(tunes := s.tunes + 1, out := R.Do(s.out, R.Retune)) else t
    case Discard => Took(s, Pop(s.queue))
    case Turn(answers) => Stepped(Fed(s), answers)
    case CaptureStart => Cleared(s, CaptureStarted(s.queue))
    case CaptureStop => Cleared(s, CaptureStopped(s.queue))
    case Deliver(g) =>
      var p := PopCapture(s.queue, g);
      if p.Data? then Took(s, p).(delivered := s.delivered + [Delivery(g, p.chunk)]) else s
    case Close => s.(queue := s.queue.(closed := true))
    case SetFailOnDrop(b) => s.(queue := s.queue.(failOnDrop := b))
  }

  // ---------------------------------------------------------------- the invariant

  /** A queued chunk belongs to the current tuning and to the enabled capture session. */
  ghost predicate Current(q: Queue, tunes: nat, c: Chunk) {
    && |c.data| <= TRANSFER_SIZE && I.AllFrom(c.data, tunes) && c.stamp.tunes == tunes
    && q.captureEnabled && c.stamp.captured && c.stamp.generation == q.captureGeneration
  }

  /** A stamp the queue could still accept was made in the current tuning and session. */
  ghost predicate Honest(q: Queue, tunes: nat, st: Stamp) {
    && st.epoch <= q.epoch && st.generation <= q.captureGeneration
    && (EpochAccepts(q, st.epoch) ==> st.tunes == tunes)
    && (q.captureEnabled && st.generation == q.captureGeneration ==> st.captured)
  }

  ghost predicate AllCurrent(q: Queue, tunes: nat) {
    && (forall c | c in q.items :: Current(q, tunes, c))
    && |q.items| <= SLOTS && q.captureGeneration <= UINT64_MAX
  }

  ghost predicate AllHonest(q: Queue, tunes: nat, flying: map<nat, Stamp>) {
    forall id | id in flying :: Honest(q, tunes, flying[id])
  }

  /** Conservation, first in first out, and what was handed out. */
  ghost predicate Ledger(s: State) {
    && s.offered == s.rejected + s.queue.drops + |s.journal.popped| + s.cleared + |s.queue.items|
    && InOrder(s.journal, s.queue.items)
    && (forall d | d in s.delivered :: d.chunk.stamp.captured && d.chunk.stamp.generation == d.generation)
  }

  /** The queue holds the latest arrivals, and the chunks popped were met in order of arrival. */
  ghost predicate InOrder(j: Journal, items: seq<Chunk>) {
    && j.gone <= |j.arrived| && items == j.arrived[j.gone..]
    && |j.places| == |j.popped|
    && (forall k | 0 <= k < |j.places| :: j.places[k] < j.gone && j.popped[k] == j.arrived[j.places[k]])
    && (forall i, k | 0 <= i < k < |j.places| :: j.places[i] < j.places[k])
  }

  ghost predicate Books(s: State) {
    AllCurrent(s.queue, s.tunes) && AllHonest(s.queue, s.tunes, s.flying) && Ledger(s)
  }

  ghost predicate Inv(s: State) {
    Books(s) && I.Sorted(s.out, s.tunes)
  }

  lemma PoppingInOrder(j: Journal, items: seq<Chunk>)
    requires InOrder(j, items) && items != []
    ensures InOrder(Popping(j, items[0]), items[1..])
  {
  }

  lemma StoringInOrder(j: Journal, items: seq<Chunk>, c: Chunk)
    requires InOrder(j, items)
    ensures InOrder(j.(arrived := j.arrived + [c]), items + [c])
  {
  }

  lemma ClearingInOrder(j: Journal, items: seq<Chunk>)
    requires InOrder(j, items)
    ensures InOrder(j.(gone := j.gone + |items|), [])
  {
  }

  lemma TakenKeeps(q: Queue, p: Popped, tunes: nat, flying: map<nat, Stamp>)
    requires AllCurrent(q, tunes) && AllHonest(q, tunes, flying)
    ensures AllCurrent(Taken(q, p), tunes) && AllHonest(Taken(q, p), tunes, flying)
  {
    forall c | c in Taken(q, p).items ensures Current(Taken(q, p), tunes, c) {
      assert Current(q, tunes, c);
    }
    forall id | id in flying ensures Honest(Taken(q, p), tunes, flying[id]) {
      assert Honest(q, tunes, flying[id]);
    }
  }

  lemma FedKeepsInv(s: State)
    requires Inv(s)
    ensures Inv(Fed(s))
  {
    var p := Pop(s.queue);
    if !s.out.pump.busy && p.Data? {
      TakenKeeps(s.queue, p, s.tunes, s.flying);
      assert Current(s.queue, s.tunes, p.chunk);
      PoppingInOrder(s.journal, s.queue.items);
      I.FeedSorts(s.out, p.chunk.data, s.tunes);
    }
  }

  lemma SteppedKeepsInv(s: State, answers: seq<int>)
    requires Inv(s)
    ensures Inv(Stepped(s, answers))
  {
    if s.out.pump.busy {
      P.StepFollowsPlan(s.out.pump, answers);
      I.WriteSorts(s.out, P.Step(s.out.pump, answers), s.tunes);
    }
  }

  lemma CompletedKeepsInv(s: State, id: nat, payload: seq<Byte>)
    requires Inv(s) && id in s.flying
    ensures Inv(Completed(s, id, payload))
  {
    var t := Completed(s, id, payload);
    assert Honest(s.queue, s.tunes, s.flying[id]);
    if EnqueueFate(s.queue, s.flying[id]) == Stored {
      StoringInOrder(s.journal, s.queue.items, t.queue.items[|s.queue.items|]);
    }
    forall c | c in t.queue.items ensures Current(t.queue, t.tunes, c) {
      if c !in s.queue.items {
        assert c == t.queue.items[|s.queue.items|];
      } else {
        assert Current(s.queue, s.tunes, c);
      }
    }
    forall i | i in t.flying ensures Honest(t.queue, t.tunes, t.flying[i]) {
      assert Honest(s.queue, s.tunes, s.flying[i]);
    }
  }

  /** Any change of the queue that stores nothing keeps the stamps honest if it moves on the
      epoch or keeps the tuning, and moves on the generation or enables no session. */
  lemma MovedOnKeeps(q: Queue, q': Queue, tunes: nat, tunes': nat, flying: map<nat, Stamp>)
    requires AllCurrent(q, tunes) && AllHonest(q, tunes, flying)
    requires q'.items == [] || (q'.items == q.items && tunes' == tunes && q'.captureEnabled == q.captureEnabled
                                && q'.captureGeneration == q.captureGeneration)
    requires q.epoch <= q'.epoch && q.captureGeneration <= q'.captureGeneration <= UINT64_MAX
    requires q.epoch < q'.epoch || (tunes' == tunes && q'.discarding == q.discarding)
    requires q.captureGeneration < q'.captureGeneration || (q'.captureEnabled ==> q.captureEnabled)
    ensures AllCurrent(q', tunes') && AllHonest(q', tunes', flying)
  {
    forall c | c in q'.items ensures Current(q', tunes', c) {
      assert Current(q, tunes, c);
    }
    forall id | id in flying ensures Honest(q', tunes', flying[id]) {
      assert Honest(q, tunes, flying[id]);
    }
  }

  lemma SubmitKeepsInv(s: State, id: nat)
    requires Inv(s)
    ensures Inv(Next(s, Submit(id))) && Inv(Next(s, Lost(id)))
  {
    assert Honest(s.queue, s.tunes, StampOf(s.queue, s.tunes));
  }

  lemma ClearedKeepsLedger(s: State, q: Queue)
    requires Ledger(s) && q.drops == s.queue.drops && (q.items == [] || q.items == s.queue.items)
    ensures Ledger(Cleared(s, q))
  {
    ClearingInOrder(s.journal, s.queue.items);
  }

  lemma RetuneFinishKeepsBooks(s: State, success: bool)
    requires Books(s) && s.out.Inv()
    ensures Books(Next(s, RetuneFinish(success)))
  {
    var q := RetuneFinished(s.queue, success);
    MovedOnKeeps(s.queue, q, s.tunes, if success then s.tunes + 1 else s.tunes, s.flying);
    ClearedKeepsLedger(s, q);
  }

  lemma RetuneFinishSorts(s: State, success: bool)
    requires I.Sorted(s.out, s.tunes)
    ensures I.Sorted(Next(s, RetuneFinish(success)).out, Next(s, RetuneFinish(success)).tunes)
  {
    RetuneOutput(s, success);
    if success {
      I.RetuneSorts(s.out, s.tunes);
    }
  }

  lemma RetuneFinishKeepsInv(s: State, success: bool)
    requires Inv(s)
    ensures Inv(Next(s, RetuneFinish(success)))
  {
    RetuneFinishKeepsBooks(s, success);
    RetuneFinishSorts(s, success);
  }

  lemma DiscardKeepsInv(s: State)
    requires Inv(s)
    ensures Inv(Next(s, Discard))
  {
    TakenKeeps(s.queue, Pop(s.queue), s.tunes, s.flying);
    if Pop(s.queue).Data? {
      PoppingInOrder(s.journal, s.queue.items);
    }
  }

  lemma DeliverKeepsInv(s: State, g: nat)
    requires Inv(s)
    ensures Inv(Next(s, Deliver(g)))
  {
    var p := PopCapture(s.queue, g);
    if p.Data? {
      TakenKeeps(s.queue, p, s.tunes, s.flying);
      PoppingInOrder(s.journal, s.queue.items);
      assert Current(s.queue, s.tunes, p.chunk);
    }
  }

  /** Events that at most clear the queue or set its flags. */
  lemma OtherKeepsInv(s: State, e: Event)
    requires Inv(s)
    requires e.RetuneBegin? || e.CaptureStart? || e.CaptureStop? || e.Close? || e.SetFailOnDrop?
    ensures Inv(Next(s, e))
  {
    MovedOnKeeps(s.queue, Next(s, e).queue, s.tunes, s.tunes, s.flying);
    ClearedKeepsLedger(s, Next(s, e).queue);
  }

  lemma NextKeepsInv(s: State, e: Event)
    requires Inv(s)
    ensures Inv(Next(s, e))
  {
    match e
    case Submit(id) => SubmitKeepsInv(s, id);
    case Lost(id) => SubmitKeepsInv(s, id);
    case Complete(id, payload) =>
      if id in s.flying {
        CompletedKeepsInv(s, id, payload);
      }
    case RetuneFinish(success) => RetuneFinishKeepsInv(s, success);
    case Discard => DiscardKeepsInv(s);
    case Deliver(g) => DeliverKeepsInv(s, g);
    case Turn(answers) =>
      FedKeepsInv(s);
      SteppedKeepsInv(Fed(s), answers);
    case _ => OtherKeepsInv(s, e);
  }

  lemma NextKeepsOutput(s: State, e: Event)
    requires s.out.Inv()
    ensures Next(s, e).out.Inv()
  {
    match e
    case Turn(answers) => R.DoKeepsInv(Fed(s).out, R.Write(answers));
    case RetuneFinish(success) => R.RetuneKeepsInv(s.out);
    case _ =>
  }

  function Run(s: State, events: seq<Event>): (t: State)
    requires s.out.Inv()
    ensures t.out.Inv()
    decreases |events|
  {
    if events == [] then s
    else
      NextKeepsOutput(s, events[0]);
      Run(Next(s, events[0]), events[1..])
  }

  lemma {:induction false} RunKeepsInv(s: State, events: seq<Event>)
    requires Inv(s)
    ensures Inv(Run(s, events))
    decreases |events|
  {
    if events != [] {
      NextKeepsInv(s, events[0]);
      RunKeepsInv(Next(s, events[0]), events[1..]);
    }
  }

  // ---------------------------------------------------------------- retunes

  /** No packet mixes bytes from both sides of a successful retune, nor does the output
      ever go back: within a packet the origins are equal, and along the output they rise. */
  lemma PacketsAreIsolated(captureEnabled: bool, events: seq<Event>, i: nat, j: nat)
    requires i <= j < |Run(Start(captureEnabled), events).out.emitted|
    ensures var s := Run(Start(captureEnabled), events);
            var e := s.out.emitted;
            && e[i].origin <= e[j].origin <= s.tunes
            && (i / 188 == j / 188 ==> e[i].origin == e[j].origin)
  {
    RunKeepsInv(Start(captureEnabled), events);
    var s := Run(Start(captureEnabled), events);
    I.IsolatedMeans(s.out.Total(), 0, s.tunes, i, j);
  }

  /** What a run after a retune leaves true, for `kept` all that was then out or owed. */
  lemma {:induction false} RunRenews(s: State, events: seq<Event>, kept: seq<Cell>, n: nat)
    requires Inv(s) && P.Framed(kept) && n <= s.tunes && I.Renewed(s.out, kept, n)
    ensures I.Renewed(Run(s, events).out, kept, n) && s.out.emitted <= Run(s, events).out.emitted
    decreases |events|
  {
    if events != [] {
      var e := events[0];
      NextKeepsInv(s, e);
      NextRenews(s, e, kept, n);
      RunRenews(Next(s, e), events[1..], kept, n);
    }
  }

  lemma NextRenews(s: State, e: Event, kept: seq<Cell>, n: nat)
    requires Inv(s) && P.Framed(kept) && n <= s.tunes && I.Renewed(s.out, kept, n)
    ensures Next(s, e).out.Inv() && I.Renewed(Next(s, e).out, kept, n)
    ensures n <= Next(s, e).tunes && s.out.emitted <= Next(s, e).out.emitted
  {
    match e
    case RetuneFinish(success) => RetuneFinishRenews(s, success, kept, n);
    case Turn(answers) =>
      FedKeepsInv(s);
      FedRenews(s, kept, n);
      SteppedRenews(Fed(s), answers, kept, n);
    case _ => OutputUntouched(s, e);
  }

  lemma OutputUntouched(s: State, e: Event)
    requires s.out.Inv() && !e.Turn? && !e.RetuneFinish?
    ensures Next(s, e).out == s.out && Next(s, e).tunes == s.tunes
  {
  }

  lemma RetuneFinishRenews(s: State, success: bool, kept: seq<Cell>, n: nat)
    requires s.out.Inv() && P.Framed(kept) && I.Renewed(s.out, kept, n)
    ensures var t := Next(s, RetuneFinish(success));
            t.out.Inv() && I.Renewed(t.out, kept, n) && s.tunes <= t.tunes && t.out.emitted == s.out.emitted
  {
    RetuneOutput(s, success);
    I.RetuneRenews(s.out, kept, n);
  }

  lemma RetuneOutput(s: State, success: bool)
    requires s.out.Inv()
    ensures var t := Next(s, RetuneFinish(success));
            && t.out == (if success then R.Do(s.out, R.Retune) else s.out)
            && t.tunes == (if success then s.tunes + 1 else s.tunes)
            && t.out.emitted == s.out.emitted
  {
  }

  lemma FedRenews(s: State, kept: seq<Cell>, n: nat)
    requires Inv(s) && n <= s.tunes && I.Renewed(s.out, kept, n)
    ensures I.Renewed(Fed(s).out, kept, n)
    ensures Fed(s).tunes == s.tunes && Fed(s).out.emitted == s.out.emitted
  {
    if !s.out.pump.busy && Pop(s.queue).Data? {
      assert Current(s.queue, s.tunes, s.queue.items[0]);
      I.FeedRenews(s.out, s.queue.items[0].data, kept, n, s.tunes);
    }
  }

  lemma SteppedRenews(s: State, answers: seq<int>, kept: seq<Cell>, n: nat)
    requires s.out.Inv() && I.Renewed(s.out, kept, n)
    ensures Stepped(s, answers).out.Inv() && I.Renewed(Stepped(s, answers).out, kept, n)
    ensures Stepped(s, answers).tunes == s.tunes && s.out.emitted <= Stepped(s, answers).out.emitted
  {
    P.StepFollowsPlan(s.out.pump, answers);
    I.WriteRenews(s.out, P.Step(s.out.pump, answers), kept, n);
  }

  /** The output went on from `a` to `b` by at most finishing the packet `a` was in, exactly as
      that packet was; every byte after it has an origin above n. */
  ghost predicate OnlyFinishes(a: R.Trace, b: seq<Cell>, n: nat)
    requires a.pump.Valid()
  {
    a.pump.Left() <= |a.pump.Plan().out| &&
    var finished := a.emitted + a.pump.Plan().out[..a.pump.Left()];
    && a.emitted <= b && (b <= finished || finished <= b)
    && forall i | |finished| <= i < |b| :: b[i].origin > n
  }

  /** Retune isolation. Let a retune succeed at any point of any run, and anything happen after
      it: the output finishes at most the packet it was in, and every later byte comes from a
      transfer stamped after that retune finished. */
  lemma NothingOldAfterRetune(captureEnabled: bool, before: seq<Event>, after: seq<Event>)
    ensures var s := Run(Start(captureEnabled), before);
            var t := Run(s, [RetuneFinish(true)] + after);
            OnlyFinishes(s.out, t.out.emitted, s.tunes)
  {
    RunKeepsInv(Start(captureEnabled), before);
    var s := Run(Start(captureEnabled), before);
    NextKeepsInv(s, RetuneFinish(true));
    RunCons(s, RetuneFinish(true), after);
    RetuneOutput(s, true);
    RunFromRetune(s, Next(s, RetuneFinish(true)), after);
  }

  lemma RunCons(s: State, e: Event, after: seq<Event>)
    requires s.out.Inv() && Next(s, e).out.Inv()
    ensures Run(s, [e] + after) == Run(Next(s, e), after)
  {
    assert ([e] + after)[1..] == after;
  }

  lemma RunFromRetune(s: State, u: State, after: seq<Event>)
    requires Inv(s) && Inv(u) && u.out == R.Do(s.out, R.Retune) && u.tunes == s.tunes + 1
    ensures OnlyFinishes(s.out, Run(u, after).out.emitted, s.tunes)
  {
    I.RetuneStarts(s.out, u.tunes);
    RunRenews(u, after, u.out.Total(), u.tunes);
    var t := Run(u, after).out;
    RenewedMeans(t.emitted, t.pump.Plan().out, u.out.Total(), u.tunes);
  }

  lemma RenewedMeans(e: seq<Cell>, owed: seq<Cell>, kept: seq<Cell>, n: nat)
    requires I.RenewedParts(e, owed, kept, n)
    ensures e <= kept || kept <= e
    ensures forall i | |kept| <= i < |e| :: e[i].origin >= n
  {
    if |e| <= |kept| {
      assert e == (e + owed)[..|e|] == kept[..|e|];
    } else {
      assert kept == (e + owed)[..|kept|] == e[..|kept|];
    }
    forall i | |kept| <= i < |e| ensures e[i].origin >= n {
      assert e[i] == (e + owed)[i];
    }
  }

  // ---------------------------------------------------------------- failed retunes

  /** What can happen while a tune waits for lock. */
  predicate WhileTuning(e: Event) {
    e.Submit? || e.Complete? || e.Lost? || e.Discard? || e.Close? || e.SetFailOnDrop?
  }

  function Discards(events: seq<Event>): nat {
    if events == [] then 0 else (if events[0].Discard? then 1 else 0) + Discards(events[1..])
  }

  /** The queue without its n oldest chunks, or all of it once it has overflowed. */
  function Dropping(q: Queue, n: nat): (items: seq<Chunk>) {
    if q.overflowed then q.items else q.items[if n < |q.items| then n else |q.items|..]
  }

  lemma WhileTuningStep(s: State, e: Event)
    requires s.out.Inv() && s.queue.discarding && WhileTuning(e)
    ensures var t := Next(s, e);
            && t.out == s.out && t.tunes == s.tunes && t.queue.discarding && t.queue.drops == s.queue.drops
            && t.queue.overflowed == s.queue.overflowed
            && t.queue.items == Dropping(s.queue, if e.Discard? then 1 else 0)
  {
    match e
    case Complete(id, _) => NothingStored(s, e);
    case _ =>
  }

  lemma NothingStored(s: State, e: Event)
    requires s.out.Inv() && s.queue.discarding && e.Complete?
    ensures var t := Next(s, e); t.queue == s.queue && t.out == s.out && t.tunes == s.tunes
  {
  }

  lemma {:induction false} WhileTuningRun(s: State, events: seq<Event>)
    requires s.out.Inv() && s.queue.discarding && forall e | e in events :: WhileTuning(e)
    ensures var t := Run(s, events);
            && t.out == s.out && t.tunes == s.tunes && t.queue.drops == s.queue.drops
            && t.queue.items == Dropping(s.queue, Discards(events))
    decreases |events|
  {
    if events != [] {
      assert events[0] in events;
      WhileTuningStep(s, events[0]);
      WhileTuningRun(Next(s, events[0]), events[1..]);
    }
  }

  /** From the beginning of a tune through `events` to its failure. */
  function FailedTune(s: State, events: seq<Event>): (t: State)
    requires s.out.Inv()
  {
    Next(Run(Next(s, RetuneBegin), events), RetuneFinish(false))
  }

  /** A failed tune retains output and pump, but of the queue only what the wait for lock has not
      popped: it is the original queue exactly when that was empty or overflowed, or nothing was popped. */
  lemma FailedTuneRetains(s: State, events: seq<Event>)
    requires s.out.Inv() && forall e | e in events :: WhileTuning(e)
    ensures var t := FailedTune(s, events);
            && t.out == s.out && t.tunes == s.tunes && t.queue.drops == s.queue.drops
            && t.queue.items == Dropping(s.queue, Discards(events))
            && (t.queue.items == s.queue.items <==> s.queue.items == [] || s.queue.overflowed || Discard !in events)
  {
    WhileTuningRun(Next(s, RetuneBegin), events);
    FailureFinishes(Run(Next(s, RetuneBegin), events));
    DiscardsCount(events);
    DroppingNothing(s.queue, Discards(events));
  }

  lemma FailureFinishes(s: State)
    requires s.out.Inv()
    ensures var t := Next(s, RetuneFinish(false));
            && t.out == s.out && t.tunes == s.tunes && t.queue.drops == s.queue.drops
            && t.queue.items == s.queue.items
  {
  }

  lemma DroppingNothing(q: Queue, n: nat)
    ensures Dropping(q, n) == q.items <==> q.items == [] || q.overflowed || n == 0
  {
    if n > 0 && q.items != [] && !q.overflowed {
      assert |Dropping(q, n)| < |q.items|;
    }
  }

  lemma {:induction false} DiscardsCount(events: seq<Event>)
    ensures Discards(events) == 0 <==> Discard !in events
  {
    if events != [] {
      DiscardsCount(events[1..]);
      assert Discard in events <==> events[0] == Discard || Discard in events[1..];
    }
  }

  /** A failed tune that loses the one chunk received. */
  lemma FailedTuneLoses(payload: seq<Byte>)
    ensures var s := Run(Start(true), [Submit(0), Complete(0, payload)]);
            |s.queue.items| == 1 && FailedTune(s, [Discard]).queue.items == []
  {
    OneChunk(payload);
    var s := Run(Start(true), [Submit(0), Complete(0, payload)]);
    FailedTuneRetains(s, [Discard]);
    assert Discards([Discard]) == 1;
  }

  lemma OneChunk(payload: seq<Byte>)
    ensures var s := Run(Start(true), [Submit(0), Complete(0, payload)]);
            |s.queue.items| == 1 && !s.queue.overflowed
  {
    var q, stamp := Init(true), StampOf(Init(true), 0);
    assert Accepts(q, stamp);
    var a := Next(Start(true), Submit(0));
    assert a.queue == q && a.flying[0] == stamp;
    TwoEvents(Start(true), Submit(0), Complete(0, payload));
  }

  lemma TwoEvents(s: State, d: Event, e: Event)
    requires s.out.Inv()
    ensures Next(s, d).out.Inv() && Run(s, [d, e]) == Next(Next(s, d), e)
  {
    NextKeepsOutput(s, d);
    NextKeepsOutput(Next(s, d), e);
    RunCons(s, d, [e]);
    RunCons(Next(s, d), e, []);
    assert [d] + [e] == [d, e] && [e] + [] == [e];
  }

  // ---------------------------------------------------------------- capture sessions

  /** ts_pop_capture(g) has handed out only chunks of transfers stamped while session g was enabled. */
  lemma DeliveriesBelongToTheirSession(captureEnabled: bool, events: seq<Event>, k: nat)
    requires k < |Run(Start(captureEnabled), events).delivered|
    ensures var d := Run(Start(captureEnabled), events).delivered[k];
            d.chunk.stamp.captured && d.chunk.stamp.generation == d.generation
  {
    RunKeepsInv(Start(captureEnabled), events);
    var s := Run(Start(captureEnabled), events);
    assert s.delivered[k] in s.delivered;
  }

  /** A session ends when it is stopped, even at the last generation, which cannot be followed;
      an ended session stays ended and is handed nothing more, whatever happens, and each further
      pop for it gives an answer on which its worker leaves its loop. */
  lemma {:induction false} EndedSessionGetsNothing(s: State, events: seq<Event>, g: nat)
    requires s.out.Inv() && Ended(s.queue, g)
    ensures var t := Run(s, events);
            && Ended(t.queue, g) && s.delivered <= t.delivered
            && (forall k | |s.delivered| <= k < |t.delivered| :: t.delivered[k].generation != g)
            && PopCapture(t.queue, g) == Error(if t.queue.overflowed then -ENOBUFS else -ECANCELED)
    decreases |events|
  {
    if events != [] {
      NextKeepsOutput(s, events[0]);
      EndedStaysEnded(s, events[0], g);
      EndedSessionGetsNothing(Next(s, events[0]), events[1..], g);
    }
  }

  /** Of the queue and what was handed out, a turn changes no more than a pop does. */
  lemma TurnOnlyPops(s: State, answers: seq<int>)
    requires s.out.Inv()
    ensures var t := Next(s, Turn(answers));
            && t.delivered == s.delivered
            && (t.queue == s.queue || (Pop(s.queue).Data? && t.queue == Taken(s.queue, Pop(s.queue))))
            && (t.journal == s.journal || Pop(s.queue).Data?)
  {
  }

  lemma EndedStaysEnded(s: State, e: Event, g: nat)
    requires s.out.Inv() && Ended(s.queue, g)
    ensures var t := Next(s, e);
            && Ended(t.queue, g) && s.delivered <= t.delivered
            && forall k | |s.delivered| <= k < |t.delivered| :: t.delivered[k].generation != g
  {
    match e
    case Turn(answers) => TurnOnlyPops(s, answers);
    case _ =>
  }

  lemma StoppedSessionEnds(q: Queue)
    requires q.captureEnabled && q.captureGeneration <= UINT64_MAX
    ensures Ended(CaptureStopped(q), q.captureGeneration)
    ensures q.captureGeneration == UINT64_MAX ==> CaptureStartResult(CaptureStopped(q)) != 0
  {
  }

  // ---------------------------------------------------------------- drops

  /** Every chunk offered was rejected, dropped, popped, cleared or is queued, and the queue is
      first in, first out. */
  lemma ChunksAreConserved(captureEnabled: bool, events: seq<Event>)
    ensures var s := Run(Start(captureEnabled), events);
            && s.offered == s.rejected + s.queue.drops + |s.journal.popped| + s.cleared + |s.queue.items|
            && |s.queue.items| <= SLOTS && InOrder(s.journal, s.queue.items)
  {
    RunKeepsInv(Start(captureEnabled), events);
  }

  /** Failing on a drop is never switched off. */
  ghost predicate KeepsFailing(events: seq<Event>) {
    forall e | e in events :: e.SetFailOnDrop? ==> e.enabled
  }

  /** With fail-on-drop set from the start there is at most one drop, and the queue has
      overflowed exactly when there is one. */
  lemma {:induction false} AtMostOneDrop(s: State, events: seq<Event>)
    requires s.out.Inv() && KeepsFailing(events) && FailsOnDrop(s.queue)
    ensures FailsOnDrop(Run(s, events).queue)
    decreases |events|
  {
    if events != [] {
      assert events[0] in events;
      NextKeepsOutput(s, events[0]);
      FailsOnDropStays(s, events[0]);
      AtMostOneDrop(Next(s, events[0]), events[1..]);
    }
  }

  lemma FailsOnDropStays(s: State, e: Event)
    requires s.out.Inv() && FailsOnDrop(s.queue) && (e.SetFailOnDrop? ==> e.enabled)
    ensures FailsOnDrop(Next(s, e).queue)
  {
    match e
    case Turn(answers) => TurnOnlyPops(s, answers);
    case _ =>
  }

  ghost predicate FailsOnDrop(q: Queue) {
    q.failOnDrop && q.drops <= 1 && (q.overflowed <==> q.drops == 1) && (q.overflowed ==> q.closed)
  }

  /** Overflow is final: every later pop says so and every later capture start is refused. */
  lemma {:induction false} OverflowIsFinal(s: State, events: seq<Event>, g: nat)
    requires s.out.Inv() && s.queue.overflowed
    ensures var t := Run(s, events);
            && t.queue.overflowed && t.journal.popped == s.journal.popped && t.delivered == s.delivered
            && Pop(t.queue) == Error(-ENOBUFS) && PopCapture(t.queue, g) == Error(-ENOBUFS)
            && CaptureStartResult(t.queue) == -ESHUTDOWN
    decreases |events|
  {
    if events != [] {
      NextKeepsOutput(s, events[0]);
      OverflowStays(s, events[0]);
      OverflowIsFinal(Next(s, events[0]), events[1..], g);
    }
  }

  lemma OverflowStays(s: State, e: Event)
    requires s.out.Inv() && s.queue.overflowed
    ensures var t := Next(s, e);
            t.queue.overflowed && t.journal.popped == s.journal.popped && t.delivered == s.delivered
  {
    match e
    case Turn(answers) => TurnOnlyPops(s, answers);
    case _ =>
  }
}
