/** What the continuity check finds: nothing in a correct multiplex, an error or two where packets are
    missing, and all but one of the repeats of a packet. */
module Continuity {
  import opened Wire
  import opened TsCheck
  import opened Verdicts
  import opened TuneSegments
  import opened Report

  const NONE := Options({}, [])

  function Advances(t: Track, ps: seq<Packet>): Track
    decreases |ps|
  {
    if ps == [] then t else Advances(Advance(t, ps[0]), ps[1..])
  }

  /** The places of the mismatches, counted from n. */
  function Mismatches(t: Track, ps: seq<Packet>, n: nat): seq<nat>
    decreases |ps|
  {
    if ps == [] then []
    else (if Judge(t, ps[0]).Mismatch? then [n] else []) + Mismatches(Advance(t, ps[0]), ps[1..], n + 1)
  }

  lemma {:induction false} Append(t: Track, a: seq<Packet>, b: seq<Packet>, n: nat)
    ensures Advances(t, a + b) == Advances(Advances(t, a), b)
    ensures Mismatches(t, a + b, n) == Mismatches(t, a, n) + Mismatches(Advances(t, a), b, n + |a|)
    decreases |a|
  {
    if a == [] {
      assert a + b == b;
    } else {
      assert (a + b)[1..] == a[1..] + b;
      Append(Advance(t, a[0]), a[1..], b, n + 1);
    }
  }

  lemma Quiet(options: Options, c: Check, p: Packet)
    requires !Judge(c.track, p).Mismatch?
    ensures var d := Inspected(options, c, p);
            d.errors == c.errors && d.excludedSeen == c.excludedSeen && d.track == Advance(c.track, p)
  {
  }

  lemma {:induction false} NothingToReport(options: Options, c: Check, ps: seq<Packet>, n: nat)
    requires |Mismatches(c.track, ps, n)| == 0
    ensures var d := InspectAll(options, c, ps); d.errors == c.errors && d.excludedSeen == c.excludedSeen
    decreases |ps|
  {
    if ps != [] {
      Quiet(options, c, ps[0]);
      NothingToReport(options, Inspected(options, c, ps[0]), ps[1..], n + 1);
    }
  }

  lemma PlainStep(c: Check, p: Packet)
    requires c.segment == 0 && c.retuneExcluded == {}
    ensures var d := Inspected(NONE, c, p);
            && d.segment == 0 && d.retuneExcluded == {} && d.track == Advance(c.track, p) && d.packets == c.packets + 1
            && d.errors == c.errors + if Judge(c.track, p).Mismatch? then [c.packets] else []
  {
  }

  /** Without options every mismatch is an error. */
  lemma {:induction false} WithoutOptions(c: Check, ps: seq<Packet>)
    requires c.segment == 0 && c.retuneExcluded == {}
    ensures InspectAll(NONE, c, ps).errors == c.errors + Mismatches(c.track, ps, c.packets)
    decreases |ps|
  {
    if ps != [] {
      PlainStep(c, ps[0]);
      WithoutOptions(Inspected(NONE, c, ps[0]), ps[1..]);
    }
  }

  /** Each packet is counted in exactly one class. */
  lemma ClassesPartition(options: Options, c: Check, ps: seq<Packet>)
    ensures var d := InspectAll(options, c, ps);
            && d.packets == c.packets + |ps|
            && |ps| == (d.syncErrors - c.syncErrors) + (d.tei - c.tei) + (|d.nulls| - |c.nulls|)
                       + (|d.invalid| - |c.invalid|) + Number(ps, Examined)
  {
    ClassesCounted(options, c, ps);
    EachHasOneClass(ps);
  }

  lemma {:induction false} EachHasOneClass(ps: seq<Packet>)
    ensures |ps| == Number(ps, BadSync) + Number(ps, TransportError) + Number(ps, Null) + Number(ps, Invalid)
                    + Number(ps, Examined)
  {
    if ps != [] {
      EachHasOneClass(ps[1..]);
    }
  }

  // ---------------------------------------------------------------- correct streams

  /** An examined packet and the number of untrusted ones before it. */
  datatype Seen = Seen(packet: Packet, epoch: nat)

  /** What is seen of one PID below n, in order. */
  function Of(ps: seq<Packet>, n: nat, pid: nat): seq<Seen>
    requires n <= |ps|
  {
    if n == 0 then []
    else Of(ps, n - 1, pid) + if Counts(ps[n - 1], pid) then [Seen(ps[n - 1], Distrust(ps, n - 1))] else []
  }

  predicate RepeatIn(s: seq<Seen>, k: nat)
    requires k < |s|
  {
    k > 0 && HasPayload(s[k].packet) && Counter(s[k].packet) == Counter(s[k - 1].packet)
  }

  /** Packet k of a PID may stand where it does, given the two before it. */
  predicate CorrectAt(s: seq<Seen>, k: nat)
    requires k < |s|
  {
    || k == 0 || Succeeds(s[k - 1].packet, s[k].packet)
    || (&& RepeatIn(s, k) && HasPayload(s[k - 1].packet) && !RepeatIn(s, k - 1)
        && s[k - 1].epoch == s[k].epoch && Equivalent(s[k - 1].packet, s[k].packet))
  }

  ghost predicate Correct(s: seq<Seen>) {
    forall k | 0 <= k < |s| :: CorrectAt(s, k)
  }

  lemma {:induction false} LatestIsLast(ps: seq<Packet>, n: nat, pid: nat)
    requires n <= |ps|
    ensures var j := Before(ps, n, pid);
            Of(ps, n, pid) == if j < 0 then [] else Of(ps, j, pid) + [Seen(ps[j], Distrust(ps, j))]
  {
    if n > 0 {
      LatestIsLast(ps, n - 1, pid);
    }
  }

  /** Repeats seen on the PID alone are the repeats of the stream. */
  lemma RepeatIsRepeat(ps: seq<Packet>, j: nat, pid: nat)
    requires j < |ps| && Counts(ps[j], pid)
    ensures var s := Of(ps, j + 1, pid);
            |s| > 0 && s[|s| - 1] == Seen(ps[j], Distrust(ps, j)) && (RepeatIn(s, |s| - 1) <==> Repeat(ps, j))
  {
    LatestIsLast(ps, j, pid);
  }

  lemma LegalIsCorrect(ps: seq<Packet>, n: nat, pid: nat)
    requires n < |ps| && Counts(ps[n], pid)
    ensures var s := Of(ps, n + 1, pid);
            |s| > 0 && (CorrectAt(s, |s| - 1) <==> Legal(ps, n))
  {
    var j := Before(ps, n, pid);
    LatestIsLast(ps, n, pid);
    if j >= 0 {
      RepeatIsRepeat(ps, j, pid);
      TrustIsEpoch(ps, j, n);
      LastTwo(ps, n, Of(ps, j + 1, pid), j);
    }
  }

  lemma LastTwo(ps: seq<Packet>, n: nat, s: seq<Seen>, j: nat)
    requires n < |ps| && ClassOf(ps[n]).Examined? && j == Predecessor(ps, n)
    requires |s| > 0 && s[|s| - 1] == Seen(ps[j], Distrust(ps, j)) && (RepeatIn(s, |s| - 1) <==> Repeat(ps, j))
    requires Distrust(ps, j) == Distrust(ps, n) <==> TrustedBetween(ps, j, n)
    ensures CorrectAt(s + [Seen(ps[n], Distrust(ps, n))], |s|) <==> Legal(ps, n)
  {
    var t := s + [Seen(ps[n], Distrust(ps, n))];
    assert RepeatIn(t, |s| - 1) <==> RepeatIn(s, |s| - 1);
    assert t[|s|] == Seen(ps[n], Distrust(ps, n)) && t[|s| - 1] == s[|s| - 1];
  }

  lemma CorrectPrefix(s: seq<Seen>, e: Seen)
    ensures Correct(s + [e]) <==> Correct(s) && CorrectAt(s + [e], |s|)
  {
    var t := s + [e];
    assert forall k | 0 <= k < |s| :: CorrectAt(t, k) <==> CorrectAt(s, k);
  }

  ghost predicate LegalBelow(ps: seq<Packet>, n: nat, pid: nat)
    requires n <= |ps|
  {
    forall i: nat | i < n && Counts(ps[i], pid) :: Legal(ps, i)
  }

  lemma LegalBelowNext(ps: seq<Packet>, n: nat, pid: nat)
    requires n < |ps|
    ensures LegalBelow(ps, n + 1, pid) <==> LegalBelow(ps, n, pid) && (Counts(ps[n], pid) ==> Legal(ps, n))
  {
  }

  lemma CorrectNext(ps: seq<Packet>, n: nat, pid: nat)
    requires n < |ps|
    ensures Correct(Of(ps, n + 1, pid)) <==> Correct(Of(ps, n, pid)) && (Counts(ps[n], pid) ==> Legal(ps, n))
  {
    if Counts(ps[n], pid) {
      LegalIsCorrect(ps, n, pid);
      CorrectPrefix(Of(ps, n, pid), Seen(ps[n], Distrust(ps, n)));
    } else {
      assert Of(ps, n + 1, pid) == Of(ps, n, pid);
    }
  }

  lemma {:induction false} CorrectIffLegal(ps: seq<Packet>, n: nat, pid: nat)
    requires n <= |ps|
    ensures Correct(Of(ps, n, pid)) <==> LegalBelow(ps, n, pid)
  {
    if n > 0 {
      CorrectIffLegal(ps, n - 1, pid);
      LegalBelowNext(ps, n - 1, pid);
      CorrectNext(ps, n - 1, pid);
    }
  }

  ghost predicate AllLegal(ps: seq<Packet>) {
    forall i: nat | i < |ps| :: Legal(ps, i)
  }

  ghost predicate EachPidCorrect(ps: seq<Packet>) {
    forall pid :: Correct(Of(ps, |ps|, pid))
  }

  lemma CorrectPidByPid(ps: seq<Packet>)
    ensures AllLegal(ps) <==> EachPidCorrect(ps)
  {
    if AllLegal(ps) {
      forall pid ensures Correct(Of(ps, |ps|, pid)) {
        CorrectIffLegal(ps, |ps|, pid);
      }
    }
    if EachPidCorrect(ps) {
      forall i: nat | i < |ps| ensures Legal(ps, i) {
        CorrectIffLegal(ps, |ps|, Pid(ps[i]));
        assert LegalBelow(ps, |ps|, Pid(ps[i]));
      }
    }
  }

  lemma NoErrorIffLegal(ps: seq<Packet>)
    ensures InspectAll(NONE, START, ps).errors == [] <==> AllLegal(ps)
  {
    NoErrorsIff(NONE, ps);
    assert forall i: nat | i < |ps| :: !Forgiven(NONE, ps, i);
  }

  /** Soundness and completeness: however PIDs, null, erroneous, invalid and unsynchronised packets
      are interleaved, no error is reported exactly when each PID, taken alone, is correct: its
      counters run on but for single duplicates. */
  lemma NoErrorIffEachPidCorrect(ps: seq<Packet>)
    ensures InspectAll(NONE, START, ps).errors == [] <==> EachPidCorrect(ps)
  {
    NoErrorIffLegal(ps);
    CorrectPidByPid(ps);
  }

  /** A correct multiplex, its duplicates included, has no continuity error, whatever the options. */
  lemma CorrectStreamPasses(options: Options, ps: seq<Packet>)
    requires EachPidCorrect(ps)
    ensures InspectAll(options, START, ps).errors == [] && InspectAll(options, START, ps).excludedSeen == []
  {
    NoErrorIffEachPidCorrect(ps);
    WithoutOptions(START, ps);
    NothingToReport(options, START, ps, 0);
  }

  // ---------------------------------------------------------------- missing packets

  /** What is left of a window when the packets of one PID are missing from it. */
  function Without(ps: seq<Packet>, pid: nat): seq<Packet> {
    if ps == [] then [] else (if Counts(ps[0], pid) then [] else [ps[0]]) + Without(ps[1..], pid)
  }

  /** The window's packets of the PID carry no discontinuity mark. */
  ghost predicate Unmarked(ps: seq<Packet>, pid: nat) {
    forall p | p in ps :: Counts(p, pid) ==> !Discontinuity(p)
  }

  /** The payload packets of the PID that are no duplicates: those that move its counter. */
  function Moves(t: Track, ps: seq<Packet>, pid: nat): nat
    decreases |ps|
  {
    if ps == [] then 0
    else (if Counts(ps[0], pid) && HasPayload(ps[0]) && !Judge(t, ps[0]).Duplicate? then 1 else 0)
         + Moves(Advance(t, ps[0]), ps[1..], pid)
  }

  /** The two tracks differ at most in what they know of one PID. */
  ghost predicate AgreeBut(t: Track, u: Track, pid: nat) {
    && t.untrusted == u.untrusted
    && (forall q | q != pid :: (q in t.previous <==> q in u.previous))
    && (forall q | q != pid && q in t.previous :: t.previous[q] == u.previous[q])
  }

  /** A continuity counter k packets on. */
  function Ahead(c: nat, k: int): nat {
    (c + k) % 16
  }

  /** Through the window the full stream counts on ... */
  lemma {:induction false} FullCountsOn(t: Track, ps: seq<Packet>, n: nat, pid: nat)
    requires pid in t.previous && t.previous[pid].counter < 16
    requires |Mismatches(t, ps, n)| == 0 && Unmarked(ps, pid)
    ensures var t' := Advances(t, ps);
            pid in t'.previous && t'.previous[pid].counter == Ahead(t.previous[pid].counter, Moves(t, ps, pid))
    decreases |ps|
  {
    if ps != [] {
      assert ps[0] in ps;
      CountStep(t, ps[0], pid);
      FullCountsOn(Advance(t, ps[0]), ps[1..], n + 1, pid);
      CountOn(t.previous[pid].counter, Moves(Advance(t, ps[0]), ps[1..], pid));
    }
  }

  lemma CountStep(t: Track, p: Packet, pid: nat)
    requires pid in t.previous && t.previous[pid].counter < 16 && !Judge(t, p).Mismatch?
    requires Counts(p, pid) ==> !Discontinuity(p)
    ensures var u := Advance(t, p);
            && pid in u.previous
            && u.previous[pid].counter == if Counts(p, pid) && HasPayload(p) && !Judge(t, p).Duplicate?
                                          then (t.previous[pid].counter + 1) % 16 else t.previous[pid].counter
  {
  }

  /** ... while the cut one stands still on the PID and is judged alike on all others. */
  lemma {:induction false} CutStandsStill(t: Track, u: Track, ps: seq<Packet>, n: nat, m: nat, pid: nat)
    requires AgreeBut(t, u, pid) && |Mismatches(t, ps, n)| == 0
    ensures var t', u' := Advances(t, ps), Advances(u, Without(ps, pid));
            && AgreeBut(t', u', pid) && (pid in u'.previous <==> pid in u.previous)
            && (pid in u.previous ==> u'.previous[pid] == u.previous[pid])
    ensures |Mismatches(u, Without(ps, pid), m)| == 0
    decreases |ps|
  {
    if ps != [] {
      var p, rest := ps[0], ps[1..];
      if Counts(p, pid) {
        assert Without(ps, pid) == Without(rest, pid);
        CutStandsStill(Advance(t, p), u, rest, n + 1, m, pid);
      } else {
        assert Without(ps, pid) == [p] + Without(rest, pid);
        assert ([p] + Without(rest, pid))[1..] == Without(rest, pid);
        StepAside(t, u, p, pid);
        CutStandsStill(Advance(t, p), Advance(u, p), rest, n + 1, m + 1, pid);
      }
    }
  }

  /** A packet that does not count for the PID is judged alike and leaves the PID alone. */
  lemma StepAside(t: Track, u: Track, p: Packet, pid: nat)
    requires AgreeBut(t, u, pid) && !Counts(p, pid)
    ensures AgreeBut(Advance(t, p), Advance(u, p), pid) && Judge(t, p) == Judge(u, p)
    ensures pid in Advance(t, p).previous <==> pid in t.previous
    ensures pid in Advance(u, p).previous <==> pid in u.previous
    ensures pid in t.previous ==> Advance(t, p).previous[pid] == t.previous[pid]
    ensures pid in u.previous ==> Advance(u, p).previous[pid] == u.previous[pid]
  {
  }

  lemma CountOn(c: nat, n: nat)
    ensures Ahead((c + 1) % 16, n) == Ahead(c, 1 + n)
  {
  }

  /** The tracks agree but for whether the last packet of the PID was a repeat. */
  ghost predicate AgreeButRepeat(t: Track, u: Track, pid: nat) {
    && AgreeBut(t, u, pid) && pid in t.previous && pid in u.previous
    && u.previous[pid] == t.previous[pid].(repeated := u.previous[pid].repeated)
  }

  /** The distance to the next packet of the PID. */
  function Next(ps: seq<Packet>, pid: nat): nat {
    if ps == [] || Counts(ps[0], pid) then 0 else 1 + Next(ps[1..], pid)
  }

  /** The next packet of the PID is a legal duplicate. */
  predicate Copied(t: Track, ps: seq<Packet>, pid: nat)
    decreases |ps|
  {
    ps != [] &&
    if Counts(ps[0], pid) then Judge(t, ps[0]).Duplicate? else Copied(Advance(t, ps[0]), ps[1..], pid)
  }

  /** After the survivor the two streams are judged alike, but that a duplicate of it is no longer
      legal where the survivor itself now repeats. */
  lemma {:induction false} AfterSurvivor(t: Track, u: Track, ps: seq<Packet>, n: nat, m: nat, pid: nat)
    requires AgreeButRepeat(t, u, pid) && |Mismatches(t, ps, n)| == 0
    ensures Mismatches(u, ps, m) == if u.previous[pid].repeated && Copied(t, ps, pid) then [m + Next(ps, pid)] else []
    decreases |ps|
  {
    if ps != [] {
      var p := ps[0];
      if Counts(p, pid) {
        SameFromHere(t, u, p, pid);
        NoMismatchAnywhere(Advance(t, p), ps[1..], n + 1, m + 1);
      } else {
        StepAside(t, u, p, pid);
        AfterSurvivor(Advance(t, p), Advance(u, p), ps[1..], n + 1, m + 1, pid);
      }
    }
  }

  lemma SameFromHere(t: Track, u: Track, p: Packet, pid: nat)
    requires AgreeButRepeat(t, u, pid) && Counts(p, pid) && !Judge(t, p).Mismatch?
    ensures Advance(u, p) == Advance(t, p)
    ensures Judge(u, p).Mismatch? <==> u.previous[pid].repeated && Judge(t, p).Duplicate?
  {
    assert Advance(u, p).previous == Advance(t, p).previous;
  }

  lemma {:induction false} NoMismatchAnywhere(t: Track, ps: seq<Packet>, n: nat, m: nat)
    requires |Mismatches(t, ps, n)| == 0
    ensures Mismatches(t, ps, m) == []
    decreases |ps|
  {
    if ps != [] {
      NoMismatchAnywhere(Advance(t, ps[0]), ps[1..], n + 1, m + 1);
    }
  }

  /** How many counter steps are missing before the survivor r[0]: the lost packets that moved the
      counter, but for the one whose legal duplicate survives in its place. */
  function Lost(t: Track, w: seq<Packet>, r: seq<Packet>, pid: nat): int
    requires r != []
  {
    Moves(t, w, pid) - if Judge(Advances(t, w), r[0]).Duplicate? then 1 else 0
  }

  /** The survivor is taken for a legal duplicate of the packet before the gap. */
  predicate PassesForDuplicate(st: PidState, epoch: nat, x: Packet, k: int) {
    k % 16 == 15 && HasPayload(x) && st.hasPayload && !st.repeated && st.epoch == epoch && Equivalent(st.packet, x)
  }

  /** The loss of k packets shows at the survivor x. */
  predicate Shows(before: Track, epoch: nat, x: Packet, k: int) {
    && Pid(x) in before.previous && k % 16 != 0 && !Discontinuity(x)
    && !PassesForDuplicate(before.previous[Pid(x)], epoch, x, k)
  }

  /** The survivor x now repeats the counter before the gap, so a duplicate of its own is one too many. */
  predicate Echoes(before: Track, x: Packet, k: int) {
    && Pid(x) in before.previous && HasPayload(x)
    && if Discontinuity(x) then Counter(x) == before.previous[Pid(x)].counter else k % 16 == 15
  }

  /** Where errors appear, the survivor r[0] being at place n. */
  function Found(before: Track, w: seq<Packet>, r: seq<Packet>, n: nat, pid: nat): seq<nat> {
    if r == [] then [] else FoundAt(before, Advances(before, w), r, n, pid, Lost(before, w, r, pid))
  }

  function FoundAt(before: Track, t: Track, r: seq<Packet>, n: nat, pid: nat, k: int): seq<nat>
    requires r != []
  {
    (if Shows(before, t.untrusted, r[0], k) then [n] else [])
    + if Echoes(before, r[0], k) && Copied(Advance(t, r[0]), r[1..], pid) then [n + 1 + Next(r[1..], pid)] else []
  }

  /** Loss is found. Take any stream a + w + r without errors, where r is empty or begins with a packet
      of the PID, and lose the packets of that PID in the window w, none of them marked discontinuous.
      The errors that result are exactly those of `Found`: one at the survivor, unless the PID was new,
      the count lost is a multiple of 16, or the survivor is marked or passes for a duplicate; and one
      at a legal duplicate of the survivor, if the count lost is one short of a multiple of 16. */
  lemma LossIsFoundOnce(a: seq<Packet>, w: seq<Packet>, cut: seq<Packet>, r: seq<Packet>, n: nat, pid: nat)
    requires InspectAll(NONE, START, a + (w + r)).errors == []
    requires Unmarked(w, pid) && cut == Without(w, pid) && (r == [] || Counts(r[0], pid)) && n == |a| + |cut|
    ensures InspectAll(NONE, START, a + (cut + r)).errors == Found(Advances(FRESH, a), w, r, n, pid)
  {
    WithoutOptions(START, a + (w + r));
    WithoutOptions(START, a + (cut + r));
    LossFrom(FRESH, a, w, cut, r, n, pid);
  }

  lemma LossFrom(t: Track, a: seq<Packet>, w: seq<Packet>, cut: seq<Packet>, r: seq<Packet>, m: nat, pid: nat)
    requires forall q | q in t.previous :: t.previous[q].counter < 16
    requires |Mismatches(t, a + (w + r), 0)| == 0 && Unmarked(w, pid)
    requires r == [] || Counts(r[0], pid)
    requires cut == Without(w, pid) && m == |a| + |cut|
    ensures Mismatches(t, a + (cut + r), 0) == Found(Advances(t, a), w, r, m, pid)
  {
    NoMismatchIn(t, a, w + r, 0, |a|);
    SkipQuiet(t, a, cut + r, 0, |a|);
    FreshCounters(t, a);
    LossAfter(Advances(t, a), w, cut, r, |a|, m, pid);
  }

  lemma SkipQuiet(t: Track, a: seq<Packet>, b: seq<Packet>, n: nat, m: nat)
    requires |Mismatches(t, a, n)| == 0 && m == n + |a|
    ensures Mismatches(t, a + b, n) == Mismatches(Advances(t, a), b, m)
  {
    Append(t, a, b, n);
    assert Mismatches(t, a, n) == [];
  }

  lemma NoMismatchIn(t: Track, a: seq<Packet>, b: seq<Packet>, n: nat, m: nat)
    requires |Mismatches(t, a + b, n)| == 0 && m == n + |a|
    ensures |Mismatches(t, a, n)| == 0 && |Mismatches(Advances(t, a), b, m)| == 0
  {
    Append(t, a, b, n);
  }

  /** The same, from the track that the packets before the window leave. */
  lemma LossAfter(t: Track, w: seq<Packet>, cut: seq<Packet>, r: seq<Packet>, n: nat, m: nat, pid: nat)
    requires |Mismatches(t, w + r, n)| == 0 && Unmarked(w, pid)
    requires pid in t.previous ==> t.previous[pid].counter < 16
    requires r == [] || Counts(r[0], pid)
    requires cut == Without(w, pid) && m == n + |cut|
    ensures Mismatches(t, cut + r, n) == Found(t, w, r, m, pid)
  {
    NoMismatchIn(t, w, r, n, n + |w|);
    BehindWindow(t, w, cut, r, n, m, pid);
    SkipQuiet(t, cut, r, n, m);
  }

  lemma BehindWindow(t: Track, w: seq<Packet>, cut: seq<Packet>, r: seq<Packet>, n: nat, m: nat, pid: nat)
    requires |Mismatches(t, w, n)| == 0 && |Mismatches(Advances(t, w), r, n + |w|)| == 0 && Unmarked(w, pid)
    requires pid in t.previous ==> t.previous[pid].counter < 16
    requires r == [] || Counts(r[0], pid)
    requires cut == Without(w, pid)
    ensures |Mismatches(t, cut, n)| == 0 && Mismatches(Advances(t, cut), r, m) == Found(t, w, r, m, pid)
  {
    ThroughWindow(t, w, n, pid);
    if r != [] {
      AtSurvivor(t, Advances(t, w), Advances(t, cut), r, n + |w|, m, pid, Moves(t, w, pid), Lost(t, w, r, pid));
    }
  }

  lemma ThroughWindow(t: Track, w: seq<Packet>, n: nat, pid: nat)
    requires |Mismatches(t, w, n)| == 0 && Unmarked(w, pid)
    requires pid in t.previous ==> t.previous[pid].counter < 16
    ensures var t', u := Advances(t, w), Advances(t, Without(w, pid));
            AgreeBut(t', u, pid) && StandsStill(t, t', u, pid, Moves(t, w, pid))
    ensures |Mismatches(t, Without(w, pid), n)| == 0
  {
    CutStandsStill(t, t, w, n, n, pid);
    if pid in t.previous {
      FullCountsOn(t, w, n, pid);
    }
  }

  lemma AtSurvivor(before: Track, t: Track, u: Track, r: seq<Packet>, n: nat, m: nat, pid: nat, moves: nat, k: int)
    requires r != [] && AgreeBut(t, u, pid) && Counts(r[0], pid) && |Mismatches(t, r, n)| == 0
    requires StandsStill(before, t, u, pid, moves) && k == moves - if Judge(t, r[0]).Duplicate? then 1 else 0
    ensures Mismatches(u, r, m) == FoundAt(before, t, r, m, pid, k)
  {
    SurvivorVerdict(before, t, u, r[0], pid, moves, k);
    FirstJudged(t, r, n, n + 1);
    FirstJudged(u, r, m, m + 1);
    AfterSurvivor(Advance(t, r[0]), Advance(u, r[0]), r[1..], n + 1, m + 1, pid);
  }

  lemma FirstJudged(t: Track, ps: seq<Packet>, n: nat, m: nat)
    requires ps != [] && m == n + 1
    ensures Mismatches(t, ps, n) == (if Judge(t, ps[0]).Mismatch? then [n] else [])
                                    + Mismatches(Advance(t, ps[0]), ps[1..], m)
  {
  }

  /** On the PID the cut stream is where it was before the window, and the full one `moves` counts on. */
  ghost predicate StandsStill(before: Track, t: Track, u: Track, pid: nat, moves: nat) {
    && (pid in u.previous <==> pid in before.previous)
    && (pid in before.previous ==>
          && u.previous[pid] == before.previous[pid] && u.previous[pid].counter < 16
          && pid in t.previous && t.previous[pid].counter == Ahead(u.previous[pid].counter, moves))
  }

  lemma {:induction false} FreshCounters(t: Track, ps: seq<Packet>)
    requires forall pid | pid in t.previous :: t.previous[pid].counter < 16
    ensures forall pid | pid in Advances(t, ps).previous :: Advances(t, ps).previous[pid].counter < 16
    decreases |ps|
  {
    if ps != [] {
      FreshCounters(Advance(t, ps[0]), ps[1..]);
    }
  }

  /** The full stream at track t and the cut one at track u meet the survivor. */
  lemma SurvivorVerdict(before: Track, t: Track, u: Track, x: Packet, pid: nat, moves: nat, k: int)
    requires AgreeBut(t, u, pid) && Counts(x, pid) && !Judge(t, x).Mismatch?
    requires StandsStill(before, t, u, pid, moves) && k == moves - if Judge(t, x).Duplicate? then 1 else 0
    ensures Judge(u, x).Mismatch? <==> Shows(before, t.untrusted, x, k)
    ensures AgreeButRepeat(Advance(t, x), Advance(u, x), pid)
    ensures Advance(u, x).previous[pid].repeated <==> Echoes(before, x, k)
  {
    if pid in before.previous && !Discontinuity(x) {
      var step := if HasPayload(x) then 1 else 0;
      MovesOn(u.previous[pid].counter, moves, if Judge(t, x).Duplicate? then 0 else step, k, step, Counter(x));
      Gap(u.previous[pid].counter, k, step, Counter(x));
    }
  }

  lemma MovesOn(c: nat, moves: nat, moved: nat, k: int, step: nat, x: nat)
    requires c < 16 && x < 16 && moves + moved == k + step && x == Ahead(Ahead(c, moves), moved)
    ensures x == Ahead(c, k + step)
  {
  }

  /** k steps of the counter are seen unless k is a multiple of 16, and look like none when k is one short of it. */
  lemma Gap(c: nat, k: int, step: nat, x: nat)
    requires c < 16 && step <= 1 && x == Ahead(c, k + step)
    ensures x == Ahead(c, step) <==> k % 16 == 0
    ensures step == 1 ==> (x == c <==> k % 16 == 15)
  {
  }

  /** A payload packet of PID 1 with counter and contents i. */
  function Numbered(i: nat): Packet
    requires i < 256
  {
    [SYNC, 0, 1, 0x10 + i % 16, i] + seq(183, _ => 0)
  }

  lemma NumberedFields(i: nat)
    requires i < 256
    ensures var p := Numbered(i);
            && Counts(p, 1) && Pid(p) == 1 && Counter(p) == i % 16 && HasPayload(p) && p[4] == i
            && !Discontinuity(p) && !HasPcr(p)
  {
  }

  /** Packets 0 to 16, the last of them twice. */
  function Numbers(): seq<Packet> {
    seq<Packet>(18, i requires 0 <= i < 18 => Numbered(if i < 17 then i else 16))
  }

  /** One loss, two errors: the packets 1 to 15 of a stream without errors go missing. */
  lemma TwoErrorsFromOneLoss()
    ensures var ps := Numbers();
            && InspectAll(NONE, START, ps).errors == []
            && InspectAll(NONE, START, [ps[0], ps[16], ps[17]]).errors == [1, 2]
  {
    NumbersAreLegal();
    NoErrorIffLegal(Numbers());
    NumberedFields(0);
    NumberedFields(16);
    EchoedLoss(Numbered(0), Numbered(16));
  }

  lemma NumbersAreLegal()
    ensures AllLegal(Numbers())
  {
    forall i: nat | i < |Numbers()| ensures Legal(Numbers(), i) {
      if i == 17 {
        LastIsLegal();
      } else {
        NextIsLegal(i);
      }
    }
  }

  lemma NextIsLegal(i: nat)
    requires i < 17
    ensures Legal(Numbers(), i)
  {
    var ps := Numbers();
    NumberedFields(i);
    if i > 0 {
      NumberedFields(i - 1);
      assert Predecessor(ps, i) == i - 1;
      assert Succeeds(ps[i - 1], ps[i]);
    }
  }

  lemma LastIsLegal()
    ensures Legal(Numbers(), 17)
  {
    var ps := Numbers();
    NumberedFields(16);
    NumberedFields(15);
    assert Predecessor(ps, 17) == 16 && Predecessor(ps, 16) == 15;
    assert LegalDuplicate(ps, 17);
  }

  lemma EchoedLoss(p: Packet, x: Packet)
    requires Counts(p, Pid(p)) && Counts(x, Pid(p)) && HasPayload(x) && !Discontinuity(x)
    requires Counter(p) == Counter(x) && !Equivalent(p, x)
    ensures InspectAll(NONE, START, [p, x, x]).errors == [1, 2]
  {
    var t := Advance(FRESH, p);
    assert !Judge(FRESH, p).Mismatch? && Judge(t, x).Mismatch? && Judge(Advance(t, x), x).Mismatch?;
    var c := Inspected(NONE, START, p);
    PlainStep(START, p);
    PlainStep(c, x);
    PlainStep(Inspected(NONE, c, x), x);
    ThreePackets(NONE, START, p, x, x);
  }

  // ---------------------------------------------------------------- repeated packets

  /** From packet s up to e nothing is untrusted, and on the PID of packet s there are only copies of it. */
  ghost predicate OnlyCopies(ps: seq<Packet>, s: nat, e: nat)
    requires s < e <= |ps|
  {
    && ClassOf(ps[s]).Examined? && HasPayload(ps[s])
    && forall i | s < i < e :: !Untrusted(ps[i]) && (Counts(ps[i], Pid(ps[s])) ==> ps[i] == ps[s])
  }

  ghost function Copies(ps: seq<Packet>, s: nat, e: nat): set<nat>
    requires s < e <= |ps|
  {
    set i: nat | s < i < e && Counts(ps[i], Pid(ps[s]))
  }

  /** One copy: illegal unless it is marked, or is the first after a packet that repeated nothing. */
  lemma CopyVerdict(ps: seq<Packet>, s: nat, e: nat, i: nat)
    requires s < e <= |ps| && OnlyCopies(ps, s, e) && s < i < e && Counts(ps[i], Pid(ps[s]))
    ensures Legal(ps, i) <==> Discontinuity(ps[s]) || (Predecessor(ps, i) == s && !Repeat(ps, s))
  {
    var j := Predecessor(ps, i);
    assert j >= s && ps[j] == ps[s];
    if j > s {
      assert Predecessor(ps, j) >= s;
      assert Repeat(ps, j);
    }
  }

  lemma {:induction false} FirstCopy(ps: seq<Packet>, s: nat, e: nat, i: nat) returns (first: nat)
    requires s < e <= |ps| && OnlyCopies(ps, s, e) && i in Copies(ps, s, e)
    ensures first in Copies(ps, s, e) && Predecessor(ps, first) == s
    ensures forall k | k in Copies(ps, s, e) && Predecessor(ps, k) == s :: k == first
    decreases i
  {
    if Predecessor(ps, i) == s {
      first := i;
    } else {
      first := FirstCopy(ps, s, e, Predecessor(ps, i));
    }
  }

  ghost function ReportedCopies(ps: seq<Packet>, s: nat, e: nat): set<nat>
    requires s < e <= |ps|
  {
    set i: nat | i in Copies(ps, s, e) && i in InspectAll(NONE, START, ps).errors
  }

  /** Repeats. Of the copies of a payload packet s that follow it, those reported are: none if it is
      marked discontinuous, all if it was a repeat already, and otherwise all but one. */
  lemma RunOfCopies(ps: seq<Packet>, s: nat, e: nat)
    requires s < e <= |ps| && OnlyCopies(ps, s, e)
    ensures var copies := Copies(ps, s, e);
            |ReportedCopies(ps, s, e)| == if Discontinuity(ps[s]) || copies == {} then 0
                                          else if Repeat(ps, s) then |copies| else |copies| - 1
  {
    var copies, reported := Copies(ps, s, e), ReportedCopies(ps, s, e);
    forall i | i in copies
      ensures i in reported <==> !Discontinuity(ps[s]) && !(Predecessor(ps, i) == s && !Repeat(ps, s))
    {
      CopyReported(ps, s, e, i);
    }
    assert forall i | i in reported :: i in copies;
    if Discontinuity(ps[s]) || copies == {} {
      assert reported == {};
    } else if Repeat(ps, s) {
      assert reported == copies;
    } else {
      var i :| i in copies;
      var first := FirstCopy(ps, s, e, i);
      assert reported == copies - {first};
    }
  }

  lemma CopyReported(ps: seq<Packet>, s: nat, e: nat, i: nat)
    requires s < e <= |ps| && OnlyCopies(ps, s, e) && i in Copies(ps, s, e)
    ensures i in ReportedCopies(ps, s, e) <==>
            !Discontinuity(ps[s]) && !(Predecessor(ps, i) == s && !Repeat(ps, s))
  {
    CopyVerdict(ps, s, e, i);
    ErrorsAreIllegal(ps, i);
  }

  lemma ErrorsAreIllegal(ps: seq<Packet>, i: nat)
    requires i < |ps|
    ensures i in InspectAll(NONE, START, ps).errors <==> !Legal(ps, i)
  {
    ReportIsPositional(NONE, ps);
    assert Errors(NONE, ps)(i) <==> !Legal(ps, i);
  }
}
