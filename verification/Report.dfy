/** The report of ts-check.py said of the packet sequence as a whole: what is listed, what an excuse is
    worth, and when a file passes. */
module Report {
  import opened Wire
  import opened TsCheck
  import opened Verdicts
  import opened TuneSegments

  ghost predicate Forgiven(options: Options, ps: seq<Packet>, i: nat)
    requires i < |ps|
  {
    i in options.excluded || FirstOfSegment(options.boundaries, ps, i)
  }

  /** `s` lists the indices below n with the property, each once and in order. */
  ghost predicate Lists(s: seq<nat>, n: nat, f: nat -> bool) {
    Increasing(s) && forall i: nat :: i in s <==> i < n && f(i)
  }

  lemma NextListed(s: seq<nat>, n: nat, f: nat -> bool)
    requires Lists(s, n, f)
    ensures Lists(if f(n) then s + [n] else s, n + 1, f)
  {
    assert forall i | 0 <= i < |s| :: s[i] in s;
  }

  ghost function Errors(options: Options, ps: seq<Packet>): nat -> bool {
    (i: nat) => i < |ps| && !Legal(ps, i) && !Forgiven(options, ps, i)
  }

  ghost function ForgivenErrors(options: Options, ps: seq<Packet>): nat -> bool {
    (i: nat) => i < |ps| && !Legal(ps, i) && Forgiven(options, ps, i)
  }

  ghost function LegalDuplicates(ps: seq<Packet>): nat -> bool {
    (i: nat) => i < |ps| && LegalDuplicate(ps, i)
  }

  function OfClass(ps: seq<Packet>, class_: Class): nat -> bool {
    (i: nat) => i < |ps| && ClassOf(ps[i]) == class_
  }

  /** The report on the packets below n. */
  ghost predicate Reports(options: Options, c: Check, ps: seq<Packet>, n: nat) {
    && Lists(c.errors, n, Errors(options, ps))
    && Lists(c.excludedSeen, n, ForgivenErrors(options, ps))
    && Lists(c.duplicates, n, LegalDuplicates(ps))
    && Lists(c.nulls, n, OfClass(ps, Null))
    && Lists(c.invalid, n, OfClass(ps, Invalid))
  }

  /** `s` grows to `t` by index n if it has the property. */
  ghost predicate Grows(s: seq<nat>, t: seq<nat>, n: nat, f: nat -> bool) {
    t == if f(n) then s + [n] else s
  }

  /** What one packet adds to the lists. */
  lemma Added(options: Options, c: Check, p: Packet)
    ensures var d, n, v := Inspected(options, c, p), c.packets, Judge(c.track, p);
            var forgiven := n in options.excluded || n in d.retuneExcluded;
            && d.errors == (if v.Mismatch? && !forgiven then c.errors + [n] else c.errors)
            && d.excludedSeen == (if v.Mismatch? && forgiven then c.excludedSeen + [n] else c.excludedSeen)
            && d.duplicates == (if v.Duplicate? then c.duplicates + [n] else c.duplicates)
            && d.nulls == (if ClassOf(p).Null? then c.nulls + [n] else c.nulls)
            && d.invalid == (if ClassOf(p).Invalid? then c.invalid + [n] else c.invalid)
  {
  }

  lemma NextReports(options: Options, c: Check, ps: seq<Packet>, n: nat)
    requires Increasing(options.boundaries) && n < |ps|
    requires Knows(options.boundaries, c, ps, n) && Tracks(c.track, ps, n)
    ensures var d := Inspected(options, c, ps[n]);
            && Grows(c.errors, d.errors, n, Errors(options, ps))
            && Grows(c.excludedSeen, d.excludedSeen, n, ForgivenErrors(options, ps))
            && Grows(c.duplicates, d.duplicates, n, LegalDuplicates(ps))
            && Grows(c.nulls, d.nulls, n, OfClass(ps, Null))
            && Grows(c.invalid, d.invalid, n, OfClass(ps, Invalid))
  {
    Added(options, c, ps[n]);
    NextKnows(options, c, ps, n);
    VerdictIsPositional(c.track, ps, n);
  }

  lemma NextReported(options: Options, c: Check, ps: seq<Packet>, n: nat)
    requires Increasing(options.boundaries) && n < |ps|
    requires Knows(options.boundaries, c, ps, n) && Tracks(c.track, ps, n) && Reports(options, c, ps, n)
    ensures Reports(options, Inspected(options, c, ps[n]), ps, n + 1)
  {
    NextReports(options, c, ps, n);
    NextListed(c.errors, n, Errors(options, ps));
    NextListed(c.excludedSeen, n, ForgivenErrors(options, ps));
    NextListed(c.duplicates, n, LegalDuplicates(ps));
    NextListed(c.nulls, n, OfClass(ps, Null));
    NextListed(c.invalid, n, OfClass(ps, Invalid));
  }

  lemma {:induction false} ReportFrom(options: Options, c: Check, ps: seq<Packet>, n: nat)
    requires Increasing(options.boundaries) && n <= |ps|
    requires Knows(options.boundaries, c, ps, n) && Tracks(c.track, ps, n) && Reports(options, c, ps, n)
    ensures var d := InspectAll(options, c, ps[n..]);
            Reports(options, d, ps, |ps|) && Knows(options.boundaries, d, ps, |ps|) && Tracks(d.track, ps, |ps|)
    decreases |ps| - n
  {
    if n < |ps| {
      NextKnows(options, c, ps, n);
      NextTracks(c.track, ps, n);
      NextReported(options, c, ps, n);
      ReportFrom(options, Inspected(options, c, ps[n]), ps, n + 1);
      assert ps[n..][1..] == ps[n + 1..];
    }
  }

  /** The whole report, by positions: in any file and under any options, errors are exactly the
      packets that are neither legal nor forgiven. */
  lemma ReportIsPositional(options: Options, ps: seq<Packet>)
    requires Increasing(options.boundaries)
    ensures Reports(options, InspectAll(options, START, ps), ps, |ps|)
  {
    ReportFrom(options, START, ps, 0);
    assert ps[0..] == ps;
  }

  /** Excused packets are exactly the first of each PID in each later segment. */
  lemma ExcusedInFile(options: Options, ps: seq<Packet>, i: nat)
    requires Increasing(options.boundaries)
    ensures i in InspectAll(options, START, ps).retuneExcluded <==> i < |ps| && FirstOfSegment(options.boundaries, ps, i)
  {
    ReportFrom(options, START, ps, 0);
    assert ps[0..] == ps;
  }

  /** The segment of a packet is the number of boundaries at or before its index. */
  lemma SegmentCountsBoundaries(options: Options, ps: seq<Packet>)
    requires Increasing(options.boundaries)
    ensures Passed(options.boundaries, InspectAll(options, START, ps).segment, |ps|)
  {
    ReportFrom(options, START, ps, 0);
    assert ps[0..] == ps;
  }

  /** No error is reported exactly when every packet is legal or forgiven. */
  lemma NoErrorsIff(options: Options, ps: seq<Packet>)
    requires Increasing(options.boundaries)
    ensures InspectAll(options, START, ps).errors == [] <==>
            forall i: nat | i < |ps| :: Legal(ps, i) || Forgiven(options, ps, i)
  {
    var c := InspectAll(options, START, ps);
    ReportIsPositional(options, ps);
    NoneListed(c.errors, |ps|, Errors(options, ps));
    if c.errors == [] {
      forall i: nat | i < |ps| ensures Legal(ps, i) || Forgiven(options, ps, i) {
        assert !Errors(options, ps)(i);
      }
    }
  }

  /** Every option names a packet of the file; others are refused. */
  ghost predicate InRange(options: Options, packets: nat) {
    (forall i | i in options.excluded :: i < packets) && (forall i | i in options.boundaries :: i < packets)
  }

  ghost function ExitStatus(options: Options, c: Check, remainder: nat): nat {
    if !InRange(options, c.packets) || c.packets == 0 then 2
    else if remainder > 0 || c.syncErrors > 0 || c.tei > 0 || c.invalid != [] || c.errors != [] then 1
    else 0
  }

  /** What the checker vouches for. */
  ghost predicate Sound(options: Options, ps: seq<Packet>) {
    forall i: nat | i < |ps| ::
      (ClassOf(ps[i]).Null? || ClassOf(ps[i]).Examined?) && (Legal(ps, i) || Forgiven(options, ps, i))
  }

  /** A file passes exactly when it is a positive number of whole packets, none of them out of sync,
      erroneous or malformed, and each legal or forgiven; a file without a packet, and options that
      name none of its packets, are refused. */
  lemma PassesIffSound(options: Options, bytes: seq<Byte>)
    requires Increasing(options.boundaries)
    ensures var ps := Packets(bytes);
            var c := InspectAll(options, START, ps);
            var status := ExitStatus(options, c, |bytes| % 188);
            var named := forall i | i in options.excluded || i in options.boundaries :: i < |ps|;
            && (status == 2 <==> !named || |bytes| < 188)
            && (status == 0 <==> named && 0 < |bytes| == 188 * |ps| && Sound(options, ps))
            && (status == 0 || status == 1 || status == 2)
  {
    var ps := Packets(bytes);
    var c := InspectAll(options, START, ps);
    WholePackets(bytes);
    Remainder(|bytes|, |ps|, |bytes| - 188 * |ps|);
    NoErrorsIff(options, ps);
    ClassesCounted(options, START, ps);
    AllClean(ps);
  }

  /** Packet i of a file is its i-th 188 bytes. */
  lemma {:induction false} PacketsAreSlices(bytes: seq<Byte>, i: nat)
    requires i < |Packets(bytes)|
    ensures 188 * i + 188 <= |bytes| && Packets(bytes)[i] == bytes[188 * i..188 * i + 188]
    decreases i
  {
    if i > 0 {
      PacketsAreSlices(bytes[188..], i - 1);
      assert bytes[188..][188 * (i - 1)..188 * (i - 1) + 188] == bytes[188 * i..188 * i + 188];
    }
  }

  lemma AllClean(ps: seq<Packet>)
    ensures Number(ps, BadSync) == 0 && Number(ps, TransportError) == 0 && Number(ps, Invalid) == 0 <==>
            forall i | 0 <= i < |ps| :: ClassOf(ps[i]).Null? || ClassOf(ps[i]).Examined?
  {
    NoneNumbered(ps, BadSync);
    NoneNumbered(ps, TransportError);
    NoneNumbered(ps, Invalid);
  }

  lemma NoneListed(s: seq<nat>, n: nat, f: nat -> bool)
    requires Lists(s, n, f)
    ensures s == [] <==> forall i: nat | i < n :: !f(i)
  {
    if s != [] {
      assert s[0] in s;
    }
  }

  /** How many packets are of the class. */
  function Number(ps: seq<Packet>, class_: Class): nat {
    if ps == [] then 0 else (if ClassOf(ps[0]) == class_ then 1 else 0) + Number(ps[1..], class_)
  }

  lemma {:induction false} NoneNumbered(ps: seq<Packet>, class_: Class)
    ensures Number(ps, class_) == 0 <==> forall i | 0 <= i < |ps| :: ClassOf(ps[i]) != class_
  {
    if ps != [] {
      NoneNumbered(ps[1..], class_);
      assert forall i | 0 < i < |ps| :: ps[i] == ps[1..][i - 1];
    }
  }

  lemma OneCounted(options: Options, c: Check, p: Packet)
    ensures var d := Inspected(options, c, p);
            && d.packets == c.packets + 1
            && d.syncErrors == c.syncErrors + (if ClassOf(p).BadSync? then 1 else 0)
            && d.tei == c.tei + (if ClassOf(p).TransportError? then 1 else 0)
            && |d.nulls| == |c.nulls| + (if ClassOf(p).Null? then 1 else 0)
            && |d.invalid| == |c.invalid| + (if ClassOf(p).Invalid? then 1 else 0)
  {
  }

  lemma {:induction false} ClassesCounted(options: Options, c: Check, ps: seq<Packet>)
    ensures var d := InspectAll(options, c, ps);
            && d.packets == c.packets + |ps|
            && d.syncErrors == c.syncErrors + Number(ps, BadSync)
            && d.tei == c.tei + Number(ps, TransportError)
            && |d.nulls| == |c.nulls| + Number(ps, Null)
            && |d.invalid| == |c.invalid| + Number(ps, Invalid)
    decreases |ps|
  {
    if ps != [] {
      OneCounted(options, c, ps[0]);
      ClassesCounted(options, Inspected(options, c, ps[0]), ps[1..]);
    }
  }

  lemma {:induction false} WholePackets(bytes: seq<Byte>)
    ensures 188 * |Packets(bytes)| <= |bytes| < 188 * |Packets(bytes)| + 188
  {
    if |bytes| >= 188 {
      WholePackets(bytes[188..]);
    }
  }

  // ---------------------------------------------------------------- spent excuses

  /** Packet i is the first sound one of its PID since the k-th boundary, the latest. */
  ghost predicate FirstSound(bs: seq<nat>, k: nat, ps: seq<Packet>, i: nat)
    requires i < |ps|
  {
    && 0 < k && Passed(bs, k, i + 1) && ClassOf(ps[i]).Examined?
    && forall j | bs[k - 1] <= j < i :: !Counts(ps[j], Pid(ps[i]))
  }

  /** A packet of the PID with its error bit set or a malformed one. */
  predicate Spends(p: Packet, pid: nat) {
    (ClassOf(p).TransportError? || ClassOf(p).Invalid?) && Pid(p) == pid && pid != NULL_PID
  }

  /** The first sound packet of a PID in its segment, where it is no legal continuation, is reported
      exactly when an erroneous or malformed packet of the PID came before it in the segment. */
  lemma ExcuseIsSpent(options: Options, k: nat, ps: seq<Packet>, i: nat)
    requires Increasing(options.boundaries) && i < |ps| && FirstSound(options.boundaries, k, ps, i)
    requires !Legal(ps, i) && i !in options.excluded
    ensures i in InspectAll(options, START, ps).errors <==>
            exists j :: options.boundaries[k - 1] <= j < i && Spends(ps[j], Pid(ps[i]))
  {
    var bs, pid := options.boundaries, Pid(ps[i]);
    ReportIsPositional(options, ps);
    LatestSegment(bs, k, ps, i);
    forall j | bs[k - 1] <= j < i ensures Spends(ps[j], pid) <==> Carries(ps[j]) && Pid(ps[j]) == pid {
      assert !Counts(ps[j], pid);
    }
    assert i in InspectAll(options, START, ps).errors <==> Met(bs, k, ps, i, pid);
  }

  /** Three packets of a PID with a tune at the second: if that one is erroneous or malformed and the
      third does not continue the first, the third is reported, and nothing else. */
  lemma ThirdReported(first: Packet, bad: Packet, last: Packet)
    requires ClassOf(first).Examined? && ClassOf(last).Examined? && Spends(bad, Pid(first)) && Pid(last) == Pid(first)
    requires !Succeeds(first, last)
    ensures InspectAll(Options({}, [1]), START, [first, bad, last]).errors == [2]
  {
    var options := Options({}, [1]);
    var c := Inspected(options, START, first);
    assert c == START.(packets := 1, track := Advance(FRESH, first), segmentPids := {Pid(first)});
    var d := Inspected(options, c, bad);
    assert d.errors == [] && d.packets == 2 && d.track == c.track.(untrusted := 1);
    assert d.boundaryIndex == 1 && d.segmentPids == {Pid(first)} && d.retuneExcluded == {1};
    assert Inspected(options, d, last).errors == [2];
    ThreePackets(options, START, first, bad, last);
  }

  lemma ThreePackets(options: Options, c: Check, x: Packet, y: Packet, z: Packet)
    ensures InspectAll(options, c, [x, y, z]) ==
            Inspected(options, Inspected(options, Inspected(options, c, x), y), z)
  {
    var ps: seq<Packet> := [x, y, z];
    var d := Inspected(options, Inspected(options, c, x), y);
    assert ps[1..] == [y, z] && ps[2..] == [z];
    assert InspectAll(options, Inspected(options, c, x), ps[1..]) == InspectAll(options, d, ps[1..][1..]);
    assert ps[1..][1..] == ps[2..];
    assert InspectAll(options, d, [z]) == InspectAll(options, Inspected(options, d, z), []);
  }

  /** A packet of PID 1. */
  function Sample(flags: Byte, control: Byte): Packet {
    [SYNC, flags, 1, control] + seq(184, _ => 0)
  }

  /** Such packets exist: a tune whose first packet has its error bit set, or no adaptation control. */
  lemma SpentExcuse(malformed: bool)
    ensures var bad := if malformed then Sample(0, 0) else Sample(0x80, 0x10);
            InspectAll(Options({}, [1]), START, [Sample(0, 0x10), bad, Sample(0, 0x15)]).errors == [2]
  {
    SampleFields(0, 0x10);
    SampleFields(0, 0x15);
    if malformed {
      SampleFields(0, 0);
      ThirdReported(Sample(0, 0x10), Sample(0, 0), Sample(0, 0x15));
    } else {
      SampleFields(0x80, 0x10);
      ThirdReported(Sample(0, 0x10), Sample(0x80, 0x10), Sample(0, 0x15));
    }
  }

  lemma SampleFields(flags: Byte, control: Byte)
    requires flags < 0x90 && flags % 0x80 == 0
    requires control / 16 <= 1
    ensures var p := Sample(flags, control);
            && Pid(p) == 1 && Counter(p) == control as int % 16 && p[0] == SYNC && !Discontinuity(p)
            && ClassOf(p) == (if flags >= 0x80 then TransportError else if control < 16 then Invalid else Examined)
            && HasPayload(p) == (control >= 16)
  {
  }
}
