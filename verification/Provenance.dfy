/** Where the bytes that come out come from: received payloads, in their order. */
module Provenance {
  import opened Wire
  import opened QueueModel
  import opened Receiver
  import opened Reception
  import P = PumpModel
  import R = PumpRuns

  // ---------------------------------------------------------------- subsequences

  /** `a` is found in `b` at these places, in this order. */
  ghost predicate Picks<T>(a: seq<T>, b: seq<T>, places: seq<nat>) {
    && |places| == |a|
    && (forall i | 0 <= i < |a| :: places[i] < |b| && b[places[i]] == a[i])
    && (forall i, j | 0 <= i < j < |a| :: places[i] < places[j])
  }

  /** `a` is `b` with elements left out. */
  ghost predicate Sub<T>(a: seq<T>, b: seq<T>) {
    exists places :: Picks(a, b, places)
  }

  lemma SubSelf<T>(a: seq<T>)
    ensures Sub(a, a)
  {
    assert Picks(a, a, seq(|a|, i => i));
  }

  lemma SubTrans<T>(a: seq<T>, b: seq<T>, c: seq<T>)
    requires Sub(a, b) && Sub(b, c)
    ensures Sub(a, c)
  {
    var p :| Picks(a, b, p);
    var q :| Picks(b, c, q);
    var r := seq(|a|, i requires 0 <= i < |a| => q[p[i]]);
    assert Picks(a, c, r);
  }

  lemma SubJoin<T>(a: seq<T>, b: seq<T>, c: seq<T>, d: seq<T>)
    requires Sub(a, b) && Sub(c, d)
    ensures Sub(a + c, b + d)
  {
    var p :| Picks(a, b, p);
    var q :| Picks(c, d, q);
    var r := seq(|a| + |c|, i requires 0 <= i < |a| + |c| => if i < |a| then p[i] else |b| + q[i - |a|]);
    assert Picks(a + c, b + d, r);
  }

  lemma SubNothing<T>(a: seq<T>)
    ensures Sub([], a)
  {
    assert Picks([], a, []);
  }

  lemma SubTail<T>(a: seq<T>, b: seq<T>)
    ensures Sub(b, a + b)
  {
    assert Picks(b, a + b, seq(|b|, i => |a| + i));
  }

  /** A middle part. */
  lemma SubSlice<T>(a: seq<T>, i: nat, j: nat)
    requires i <= j <= |a|
    ensures Sub(a[i..j], a)
  {
    assert Picks(a[i..j], a, seq(j - i, k => i + k));
  }

  lemma SubWider<T>(a: seq<T>, b: seq<T>, x: seq<T>)
    requires Sub(a, b)
    ensures Sub(a, b + x)
  {
    SubSlice(x, 0, 0);
    assert x[0..0] == [] && a + [] == a;
    SubJoin(a, b, [], x);
  }

  lemma Assoc<T>(a: seq<T>, b: seq<T>, c: seq<T>)
    ensures a + b + c == a + (b + c)
  {
  }

  /** The same end. */
  lemma SubBefore<T>(a: seq<T>, b: seq<T>, c: seq<T>, x: seq<T>)
    requires Sub(a, b + c)
    ensures Sub(a + x, b + (c + x))
  {
    SubSelf(x);
    SubJoin(a, b + c, x, x);
    Assoc(b, c, x);
  }

  lemma SubValues(a: seq<Cell>, b: seq<Cell>)
    requires Sub(a, b)
    ensures Sub(Values(a), Values(b))
  {
    var p :| Picks(a, b, p);
    assert Picks(Values(a), Values(b), p);
  }

  // ---------------------------------------------------------------- the pump

  /** The same beginning, then less. */
  lemma SubBehind(e: seq<Cell>, out: seq<Cell>, tail: seq<Cell>, rest: seq<Cell>)
    requires Sub(out + tail, rest)
    ensures Sub(e + out + tail, e + rest)
  {
    SubSelf(e);
    SubJoin(e, e, out + tail, rest);
    assert e + (out + tail) == e + out + tail;
  }

  lemma SubFirstLess(s: seq<Cell>, a: seq<Cell>)
    requires s != [] && Sub(a, s[1..])
    ensures Sub(a, s)
  {
    assert s[1..|s|] == s[1..];
    SubSlice(s, 1, |s|);
    SubTrans(a, s[1..], s);
  }

  /** The scanner only leaves bytes out. */
  lemma {:induction false} ScanSub(s: seq<Cell>)
    ensures Sub(P.Scan(s).out + P.Scan(s).tail, s)
  {
    if |s| < PACKET {
      assert [] + s == s;
      SubSelf(s);
    } else if P.Starts(s) {
      ScanSub(s[PACKET..]);
      SubBehind(s[..PACKET], P.Scan(s[PACKET..]).out, P.Scan(s[PACKET..]).tail, s[PACKET..]);
      R.Rejoin(s, PACKET);
    } else {
      ScanSub(s[1..]);
      SubFirstLess(s, P.Scan(s[1..]).out + P.Scan(s[1..]).tail);
    }
  }

  /** Put out, owed or held. */
  ghost function Kept(t: R.Trace): seq<Cell>
    requires t.pump.Valid()
  {
    t.emitted + t.pump.Plan().out + t.pump.Plan().tail
  }

  lemma FeedKept(t: R.Trace, data: seq<Cell>)
    requires t.Inv() && !t.pump.busy && |data| <= TRANSFER_SIZE
    ensures R.Do(t, R.Feed(data)).pump.Valid() && Sub(Kept(R.Do(t, R.Feed(data))), Kept(t) + data)
  {
    var r := P.Scan(t.pump.hold + data);
    ScanSub(t.pump.hold + data);
    SubBehind(t.emitted, r.out, r.tail, t.pump.hold + data);
    assert t.emitted + [] == t.emitted;
    Assoc(t.emitted, t.pump.hold, data);
  }

  lemma WriteKept(t: R.Trace, r: P.Stepped)
    requires t.Inv() && P.Follows(t.pump, r)
    ensures R.Wrote(t, r).pump.Valid() && Kept(R.Wrote(t, r)) == Kept(t)
  {
    Assoc(t.emitted, r.out, r.pump.Plan().out);
  }

  lemma RetuneKept(t: R.Trace)
    requires t.Inv()
    ensures R.Do(t, R.Retune).pump.Valid() && Sub(Kept(R.Do(t, R.Retune)), Kept(t))
  {
    R.RetuneKeepsInv(t);
    R.PacketPosition(t);
    CutKept(t.emitted, t.pump.Plan().out, t.pump.Plan().tail, t.pump.Left());
  }

  lemma CutKept(e: seq<Cell>, out: seq<Cell>, tail: seq<Cell>, n: nat)
    requires n <= |out|
    ensures Sub(e + out[..n] + [], e + out + tail)
  {
    assert e + out[..n] + [] == (e + out + tail)[0..|e| + n];
    SubSlice(e + out + tail, 0, |e| + n);
  }

  // ---------------------------------------------------------------- the whole path

  function Datas(items: seq<Chunk>): seq<Cell> {
    if items == [] then [] else items[0].data + Datas(items[1..])
  }

  lemma {:induction false} DatasSnoc(items: seq<Chunk>, c: Chunk)
    ensures Datas(items + [c]) == Datas(items) + c.data
  {
    if items == [] {
      assert [c][1..] == [] && [] + [c] == [c];
    } else {
      assert (items + [c])[1..] == items[1..] + [c];
      DatasSnoc(items[1..], c);
    }
  }

  /** Put out, owed, held or queued. */
  ghost function Present(s: State): seq<Cell>
    requires s.out.Inv()
  {
    Kept(s.out) + Datas(s.queue.items)
  }

  /** The payloads that have arrived, in order. */
  function Payloads(events: seq<Event>): seq<Byte> {
    if events == [] then []
    else Brought(events[0]) + Payloads(events[1..])
  }

  lemma FedPresent(s: State)
    requires Inv(s)
    ensures Sub(Present(Fed(s)), Present(s))
  {
    if s.out.pump.busy || Pop(s.queue).Error? {
      SubSelf(Present(s));
    } else {
      assert Current(s.queue, s.tunes, s.queue.items[0]);
      FedByTurn(s);
      FeedKept(s.out, s.queue.items[0].data);
      SubBefore(Kept(Fed(s).out), Kept(s.out), s.queue.items[0].data, Datas(s.queue.items[1..]));
    }
  }

  lemma TurnPresent(s: State, answers: seq<int>)
    requires Inv(s)
    ensures Next(s, Turn(answers)).out.Inv() && Sub(Present(Next(s, Turn(answers))), Present(s))
  {
    FedPresent(s);
    NextKeepsOutput(s, Turn(answers));
    SteppedPresent(Fed(s), answers);
  }

  lemma SteppedPresent(s: State, answers: seq<int>)
    requires s.out.Inv()
    ensures Stepped(s, answers).out.Inv() && Present(Stepped(s, answers)) == Present(s)
  {
    R.DoKeepsInv(s.out, R.Write(answers));
    P.StepFollowsPlan(s.out.pump, answers);
    WriteKept(s.out, P.Step(s.out.pump, answers));
  }

  lemma FinishPresent(s: State, success: bool)
    requires Inv(s)
    ensures Next(s, RetuneFinish(success)).out.Inv() && Sub(Present(Next(s, RetuneFinish(success))), Present(s))
  {
    NextKeepsOutput(s, RetuneFinish(success));
    RetuneOutput(s, success);
    if success {
      RetuneKept(s.out);
      SubWider(Kept(R.Do(s.out, R.Retune)), Kept(s.out), Datas(s.queue.items));
      Emptied(Next(s, RetuneFinish(success)));
    } else {
      SubSelf(Present(s));
    }
  }

  lemma Emptied(s: State)
    requires s.out.Inv() && s.queue.items == []
    ensures Present(s) == Kept(s.out)
  {
  }

  /** Taking the first chunk, or all, from the queue. */
  lemma LessPresent(s: State, t: State)
    requires s.out.Inv() && t.out == s.out
    requires t.queue.items == s.queue.items || t.queue.items == [] || (s.queue.items != [] && t.queue.items == s.queue.items[1..])
    ensures Sub(Present(t), Present(s))
  {
    SubSelf(Kept(s.out));
    LessQueued(s.queue.items, t.queue.items);
    SubJoin(Kept(s.out), Kept(s.out), Datas(t.queue.items), Datas(s.queue.items));
  }

  lemma LessQueued(items: seq<Chunk>, less: seq<Chunk>)
    requires less == items || less == [] || (items != [] && less == items[1..])
    ensures Sub(Datas(less), Datas(items))
  {
    if less == items {
      SubSelf(Datas(items));
    } else if less == [] {
      SubNothing(Datas(items));
    } else {
      SubTail(items[0].data, Datas(less));
    }
  }

  lemma OthersTakeAway(s: State, e: Event)
    requires s.out.Inv() && !e.Complete? && !e.Turn? && !e.RetuneFinish?
    ensures var t := Next(s, e);
            && t.out == s.out
            && (t.queue.items == s.queue.items || t.queue.items == []
                || (s.queue.items != [] && t.queue.items == s.queue.items[1..]))
  {
  }

  lemma CompletePresent(s: State, id: nat, payload: seq<Byte>)
    requires Inv(s)
    ensures Next(s, Complete(id, payload)).out == s.out
    ensures Sub(Values(Present(Next(s, Complete(id, payload)))), Values(Present(s)) + payload)
  {
    var t := Next(s, Complete(id, payload));
    if id in s.flying && t.queue.items != s.queue.items {
      CompletedQueue(s, id, payload);
      JoinedPresent(s, t, payload);
    } else {
      SubSelf(Values(Present(s)));
      SubWider(Values(Present(s)), Values(Present(s)), payload);
    }
  }

  lemma JoinedPresent(s: State, t: State, payload: seq<Byte>)
    requires s.out.Inv() && t.out == s.out && Joins(s.queue, t.queue, payload)
    ensures Sub(Values(Present(t)), Values(Present(s)) + payload)
  {
    var c, n := t.queue.items[|s.queue.items|], Least(|payload|, 16384);
    DatasSnoc(s.queue.items, c);
    assert Kept(s.out) + (Datas(s.queue.items) + c.data) == Present(s) + c.data;
    ValuesJoin(Present(s), c.data);
    SubSelf(Values(Present(s)));
    SubSlice(payload, 0, n);
    assert payload[0..n] == payload[..n];
    SubJoin(Values(Present(s)), Values(Present(s)), Values(c.data), payload);
  }

  lemma ValuesJoin(a: seq<Cell>, b: seq<Cell>)
    ensures Values(a + b) == Values(a) + Values(b)
  {
  }

  /** What an event may add to what is present. */
  function Brought(e: Event): seq<Byte> {
    if e.Complete? then e.payload else []
  }

  lemma NextPresent(s: State, e: Event)
    requires Inv(s)
    ensures Next(s, e).out.Inv() && Sub(Values(Present(Next(s, e))), Values(Present(s)) + Brought(e))
  {
    match e
    case Complete(id, payload) => CompletePresent(s, id, payload);
    case Turn(answers) =>
      TurnPresent(s, answers);
      NothingBrought(Present(Next(s, e)), Present(s));
    case RetuneFinish(success) =>
      FinishPresent(s, success);
      NothingBrought(Present(Next(s, e)), Present(s));
    case _ =>
      OthersTakeAway(s, e);
      LessPresent(s, Next(s, e));
      NothingBrought(Present(Next(s, e)), Present(s));
  }

  lemma NothingBrought(a: seq<Cell>, b: seq<Cell>)
    requires Sub(a, b)
    ensures Sub(Values(a), Values(b) + [])
  {
    SubValues(a, b);
    assert Values(b) + [] == Values(b);
  }

  lemma {:induction false} RunPresent(s: State, events: seq<Event>)
    requires Inv(s)
    ensures Sub(Values(Present(Run(s, events))), Values(Present(s)) + Payloads(events))
    decreases |events|
  {
    if events == [] {
      SubSelf(Values(Present(s)));
      SubWider(Values(Present(s)), Values(Present(s)), []);
    } else {
      var t := Next(s, events[0]);
      NextKeepsInv(s, events[0]);
      NextPresent(s, events[0]);
      RunPresent(t, events[1..]);
      Onward(Values(Present(Run(t, events[1..]))), Values(Present(t)), Values(Present(s)),
             Brought(events[0]), Payloads(events[1..]));
    }
  }

  lemma Onward(later: seq<Byte>, now: seq<Byte>, before: seq<Byte>, brought: seq<Byte>, rest: seq<Byte>)
    requires Sub(later, now + rest) && Sub(now, before + brought)
    ensures Sub(later, before + (brought + rest))
  {
    SubBefore(now, before, brought, rest);
    SubTrans(later, now + rest, before + (brought + rest));
  }

  /** In every run the bytes put out are received bytes, each at most once and in the order received. */
  lemma OutputWasReceived(captureEnabled: bool, events: seq<Event>)
    ensures Sub(Values(Run(Start(captureEnabled), events).out.emitted), Payloads(events))
  {
    var t := Run(Start(captureEnabled), events);
    RunPresent(Start(captureEnabled), events);
    assert Values(Present(Start(captureEnabled))) == [] && [] + Payloads(events) == Payloads(events);
    EmittedFirst(t);
    SubTrans(Values(t.out.emitted), Values(Present(t)), Payloads(events));
  }

  lemma EmittedFirst(t: State)
    requires t.out.Inv()
    ensures Sub(Values(t.out.emitted), Values(Present(t)))
  {
    assert t.out.emitted == Present(t)[0..|t.out.emitted|];
    SubSlice(Present(t), 0, |t.out.emitted|);
    SubValues(t.out.emitted, Present(t));
  }
}
