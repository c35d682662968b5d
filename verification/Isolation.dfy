/** Bytes from either side of a retune, followed through the pump by their origins. */
module Isolation {
  import opened Wire
  import opened PumpModel
  import opened PumpRuns

  ghost predicate AllFrom(s: seq<Cell>, n: nat) {
    forall c | c in s :: c.origin == n
  }

  /** Whole packets, each of one origin, the origins rising from `lo` to at most `hi`. */
  ghost predicate Isolated(e: seq<Cell>, lo: nat, hi: nat) {
    e != [] ==>
      && |e| >= PACKET && lo <= e[0].origin <= hi
      && AllFrom(e[..PACKET], e[0].origin)
      && Isolated(e[PACKET..], e[0].origin, hi)
  }

  lemma {:induction false} IsolatedAppend(a: seq<Cell>, b: seq<Cell>, lo: nat, n: nat)
    requires Isolated(a, lo, n) && AllFrom(b, n) && |b| % 188 == 0 && lo <= n
    ensures Isolated(a + b, lo, n)
    decreases |a| + |b|
  {
    if a != [] {
      assert (a + b)[..PACKET] == a[..PACKET];
      assert (a + b)[PACKET..] == a[PACKET..] + b;
      IsolatedAppend(a[PACKET..], b, a[0].origin, n);
    } else if b != [] {
      assert a + b == b;
      IsolatedAppend([], b[PACKET..], n, n);
      assert [] + b[PACKET..] == b[PACKET..];
    }
  }

  lemma {:induction false} IsolatedPrefix(a: seq<Cell>, b: seq<Cell>, lo: nat, hi: nat, hi': nat)
    requires Isolated(a + b, lo, hi) && |a| % 188 == 0 && hi <= hi'
    ensures Isolated(a, lo, hi')
  {
    if a != [] {
      assert (a + b)[..PACKET] == a[..PACKET];
      assert (a + b)[PACKET..] == a[PACKET..] + b;
      IsolatedPrefix(a[PACKET..], b, a[0].origin, hi, hi');
    }
  }

  /** Isolation, said of positions. */
  lemma {:induction false} IsolatedMeans(e: seq<Cell>, lo: nat, hi: nat, i: nat, j: nat)
    requires Isolated(e, lo, hi) && i <= j < |e|
    ensures lo <= e[i].origin <= e[j].origin <= hi
    ensures i / 188 == j / 188 ==> e[i].origin == e[j].origin
  {
    var head, rest := e[..PACKET], e[PACKET..];
    if j < PACKET {
      assert head[i] in head && head[j] in head;
    } else if i < PACKET {
      assert head[i] in head;
      IsolatedMeans(rest, e[0].origin, hi, j - PACKET, j - PACKET);
      assert rest[j - PACKET] == e[j];
    } else {
      IsolatedMeans(rest, e[0].origin, hi, i - PACKET, j - PACKET);
      assert rest[i - PACKET] == e[i] && rest[j - PACKET] == e[j];
    }
  }

  /** All that was put out or is owed is isolated, and all that has not begun to be put
      out (the owed bytes after the first `left`, and the tail) has origin n. */
  ghost predicate Sorted(t: Trace, n: nat) {
    t.Inv() && SortedParts(t.emitted, t.pump.Plan(), t.pump.Left(), n)
  }

  ghost predicate SortedParts(e: seq<Cell>, plan: Scanned, left: nat, n: nat) {
    Isolated(e + plan.out, 0, n) && left <= |plan.out| && AllFrom(plan.out[left..], n) && AllFrom(plan.tail, n)
  }

  lemma FeedSorts(t: Trace, data: seq<Cell>, n: nat)
    requires Sorted(t, n) && AllFrom(data, n)
    ensures Sorted(Do(t, Feed(data)), n)
  {
    FeedKeepsInv(t, data);
    if !t.pump.busy && |data| <= TRANSFER_SIZE {
      var s := t.pump.hold + data;
      ScanFrames(s);
      FramedMeans(Scan(s).out);
      assert t.Total() == t.emitted;
      IsolatedAppend(t.emitted, Scan(s).out, 0, n);
    }
  }

  lemma WriteSorts(t: Trace, r: Stepped, n: nat)
    requires Sorted(t, n) && Follows(t.pump, r)
    ensures Sorted(Wrote(t, r), n)
  {
    WriteKeepsInv(t, r);
    LeftAfterStep(t.pump, r);
    WriteParts(t.emitted, r.out, r.skipped, r.pump.Plan(), t.pump.Left(), r.pump.Left(), n);
  }

  lemma LeftAfterStep(p: Pump, r: Stepped)
    requires p.Valid() && Follows(p, r)
    ensures r.pump.Left() <= |r.pump.Plan().out|
    ensures r.pump.Left() + |r.out| >= p.Left()
  {
    var j := PlanLength(p);
    var k := PlanLength(r.pump);
  }

  lemma WriteParts(e: seq<Cell>, out: seq<Cell>, skipped: nat, plan: Scanned, l: nat, m: nat, n: nat)
    requires SortedParts(e, Owing(out, skipped, plan), l, n)
    requires m <= |plan.out| && m + |out| >= l
    ensures SortedParts(e + out, plan, m, n)
  {
    var due := plan.out;
    assert e + (out + due) == e + out + due;
    forall c | c in due[m..] ensures c in (out + due)[l..] {
      var k :| 0 <= k < |due| - m && due[m..][k] == c;
      assert c == (out + due)[l..][k + m + |out| - l];
    }
  }

  lemma RetuneSorts(t: Trace, n: nat)
    requires Sorted(t, n)
    ensures Sorted(Do(t, Retune), n + 1)
  {
    RetuneKeepsInv(t);
    RetunedPlan(t.pump);
    PacketPosition(t);
    RetuneParts(t.emitted, t.pump.Plan(), t.pump.Left(), n);
  }

  lemma RetuneParts(e: seq<Cell>, plan: Scanned, left: nat, n: nat)
    requires SortedParts(e, plan, left, n) && Framed(e + plan.out[..left])
    ensures SortedParts(e, Scanned(plan.out[..left], [], 0), left, n + 1)
  {
    var a, b := e + plan.out[..left], plan.out[left..];
    assert e + plan.out == a + b;
    FramedMeans(a);
    IsolatedPrefix(a, b, 0, n, n + 1);
  }

  /** After a retune: `kept` is all that was then put out or owed, and everything
      beyond it has origin at least n. */
  ghost predicate Renewed(t: Trace, kept: seq<Cell>, n: nat)
    requires t.pump.Valid()
  {
    RenewedParts(t.emitted, t.pump.Plan().out, kept, n)
  }

  ghost predicate RenewedParts(e: seq<Cell>, owed: seq<Cell>, kept: seq<Cell>, n: nat) {
    && kept <= e + owed
    && |kept| < |e| + PACKET
    && (forall i | |kept| <= i < |e + owed| :: (e + owed)[i].origin >= n)
  }

  lemma FeedRenews(t: Trace, data: seq<Cell>, kept: seq<Cell>, n: nat, now: nat)
    requires Sorted(t, now) && AllFrom(data, now) && Renewed(t, kept, n) && n <= now
    ensures Do(t, Feed(data)).Inv() && Renewed(Do(t, Feed(data)), kept, n)
  {
    FeedKeepsInv(t, data);
    if !t.pump.busy && |data| <= TRANSFER_SIZE {
      var s := t.pump.hold + data;
      ScanFrames(s);
      assert AllFrom(Scan(s).out, now);
      FeedParts(t.emitted, Scan(s).out, kept, n, now);
    }
  }

  lemma FeedParts(e: seq<Cell>, out: seq<Cell>, kept: seq<Cell>, n: nat, now: nat)
    requires RenewedParts(e, [], kept, n) && AllFrom(out, now) && n <= now
    ensures RenewedParts(e, out, kept, n)
  {
    assert e + [] == e;
    forall i | |kept| <= i < |e + out| ensures (e + out)[i].origin >= n {
      if i >= |e| {
        assert (e + out)[i] == out[i - |e|] && out[i - |e|] in out;
      }
    }
  }

  lemma WriteRenews(t: Trace, r: Stepped, kept: seq<Cell>, n: nat)
    requires t.Inv() && Follows(t.pump, r) && Renewed(t, kept, n)
    ensures Wrote(t, r).Inv() && Renewed(Wrote(t, r), kept, n)
  {
    WriteKeepsInv(t, r);
  }

  lemma RetuneRenews(t: Trace, kept: seq<Cell>, n: nat)
    requires t.Inv() && Framed(kept) && Renewed(t, kept, n)
    ensures Do(t, Retune).Inv() && Renewed(Do(t, Retune), kept, n)
  {
    RetuneKeepsInv(t);
    PacketPosition(t);
    RetunedParts(t.emitted, t.pump.Plan().out, t.pump.Left(), kept, n);
  }

  lemma RetunedParts(e: seq<Cell>, owed: seq<Cell>, left: nat, kept: seq<Cell>, n: nat)
    requires RenewedParts(e, owed, kept, n) && left <= |owed|
    requires Framed(kept) && Framed(e + owed[..left])
    ensures RenewedParts(e, owed[..left], kept, n)
  {
    FramedMeans(kept);
    FramedMeans(e + owed[..left]);
    assert |kept| <= |e| + left;
    assert e + owed[..left] == (e + owed)[..|e| + left];
  }

  /** At the retune itself: what is kept is what was put out and the rest of its last packet. */
  lemma RetuneStarts(t: Trace, n: nat)
    requires t.Inv()
    ensures var u := Do(t, Retune);
            && u.Inv() && t.pump.Left() <= |t.pump.Plan().out|
            && u.Total() == t.emitted + t.pump.Plan().out[..t.pump.Left()]
            && Renewed(u, u.Total(), n)
  {
    RetuneKeepsInv(t);
    RetunedPlan(t.pump);
  }
}
