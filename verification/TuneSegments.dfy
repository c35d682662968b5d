/** The packets ts-check.py excuses after a retune, said of the packet sequence as a whole. */
module TuneSegments {
  import opened Wire
  import opened TsCheck

  ghost predicate Increasing(s: seq<nat>) {
    forall i, j | 0 <= i < j < |s| :: s[i] < s[j]
  }

  /** The number of boundaries below n, which lead the sequence. */
  ghost predicate Passed(bs: seq<nat>, k: nat, n: nat) {
    && k <= |bs|
    && (forall i | 0 <= i < k :: bs[i] < n)
    && (forall i | k <= i < |bs| :: bs[i] >= n)
  }

  /** A synchronised packet of a real PID, sound or not. */
  predicate Carries(p: Packet) {
    p[0] == SYNC && Pid(p) != NULL_PID
  }

  /** The PID has been met since the k-th boundary. */
  ghost predicate Met(bs: seq<nat>, k: nat, ps: seq<Packet>, n: nat, pid: nat)
    requires k <= |bs| && n <= |ps|
  {
    exists j :: (if k == 0 then 0 else bs[k - 1]) <= j < n && Carries(ps[j]) && Pid(ps[j]) == pid
  }

  /** Packet i lies behind a boundary and is the first of its PID since the latest one. */
  ghost predicate FirstOfSegment(bs: seq<nat>, ps: seq<Packet>, i: nat)
    requires i < |ps|
  {
    Carries(ps[i]) && exists k :: 0 < k && Passed(bs, k, i + 1) && !Met(bs, k, ps, i, Pid(ps[i]))
  }

  /** What the pass knows of the segments after n packets. */
  ghost predicate Knows(bs: seq<nat>, c: Check, ps: seq<Packet>, n: nat)
    requires n <= |ps|
  {
    && c.packets == n && c.segment == c.boundaryIndex && Passed(bs, c.segment, n)
    && (forall pid :: pid in c.segmentPids <==> Met(bs, c.segment, ps, n, pid))
    && (forall i: nat :: i in c.retuneExcluded <==> i < n && FirstOfSegment(bs, ps, i))
  }

  lemma NextKnows(options: Options, c: Check, ps: seq<Packet>, n: nat)
    requires Increasing(options.boundaries) && n < |ps| && Knows(options.boundaries, c, ps, n)
    ensures Knows(options.boundaries, Inspected(options, c, ps[n]), ps, n + 1)
    ensures n in Inspected(options, c, ps[n]).retuneExcluded <==> FirstOfSegment(options.boundaries, ps, n)
  {
    var bs, e, d := options.boundaries, Segmented(options, c), Inspected(options, c, ps[n]);
    SegmentStep(options, c, ps[n]);
    CrossBoundary(options, c, ps, n);
    NextMet(bs, e, d, ps, n);
    NextExcused(bs, c, e, d, ps, n);
  }

  /** What one packet does to the segment and to the excuses. */
  lemma SegmentStep(options: Options, c: Check, p: Packet)
    ensures var e, d := Segmented(options, c), Inspected(options, c, p);
            && d.packets == c.packets + 1 && d.segment == e.segment && d.boundaryIndex == e.boundaryIndex
            && d.segmentPids == (if Carries(p) then e.segmentPids + {Pid(p)} else e.segmentPids)
            && d.retuneExcluded == (if Carries(p) && e.segment > 0 && Pid(p) !in e.segmentPids
                                    then c.retuneExcluded + {c.packets} else c.retuneExcluded)
  {
  }

  lemma CrossBoundary(options: Options, c: Check, ps: seq<Packet>, n: nat)
    requires Increasing(options.boundaries) && n < |ps| && Knows(options.boundaries, c, ps, n)
    ensures var e := Segmented(options, c);
            && e.segment == e.boundaryIndex && Passed(options.boundaries, e.segment, n + 1)
            && forall pid :: pid in e.segmentPids <==> Met(options.boundaries, e.segment, ps, n, pid)
  {
  }

  lemma NextExcused(bs: seq<nat>, c: Check, e: Check, d: Check, ps: seq<Packet>, n: nat)
    requires n < |ps| && Passed(bs, e.segment, n + 1)
    requires forall i: nat :: i in c.retuneExcluded <==> i < n && FirstOfSegment(bs, ps, i)
    requires forall pid :: pid in e.segmentPids <==> Met(bs, e.segment, ps, n, pid)
    requires d.retuneExcluded == (if Carries(ps[n]) && e.segment > 0 && Pid(ps[n]) !in e.segmentPids
                                  then c.retuneExcluded + {n} else c.retuneExcluded)
    ensures forall i: nat :: i in d.retuneExcluded <==> i < n + 1 && FirstOfSegment(bs, ps, i)
  {
    LatestSegment(bs, e.segment, ps, n);
  }

  lemma NextMet(bs: seq<nat>, e: Check, d: Check, ps: seq<Packet>, n: nat)
    requires n < |ps| && Passed(bs, e.segment, n + 1)
    requires forall pid :: pid in e.segmentPids <==> Met(bs, e.segment, ps, n, pid)
    requires d.segmentPids == (if Carries(ps[n]) then e.segmentPids + {Pid(ps[n])} else e.segmentPids)
    ensures forall pid :: pid in d.segmentPids <==> Met(bs, e.segment, ps, n + 1, pid)
  {
    forall pid ensures pid in d.segmentPids <==> Met(bs, e.segment, ps, n + 1, pid) {
      if Carries(ps[n]) && Pid(ps[n]) == pid {
        assert (if e.segment == 0 then 0 else bs[e.segment - 1]) <= n < n + 1 && Carries(ps[n]) && Pid(ps[n]) == pid;
      }
    }
  }

  /** The latest boundary is the only one that matters. */
  lemma LatestSegment(bs: seq<nat>, k: nat, ps: seq<Packet>, i: nat)
    requires Passed(bs, k, i + 1) && i < |ps|
    ensures FirstOfSegment(bs, ps, i) <==> Carries(ps[i]) && k > 0 && !Met(bs, k, ps, i, Pid(ps[i]))
  {
    if FirstOfSegment(bs, ps, i) {
      var m: nat :| 0 < m && Passed(bs, m, i + 1) && !Met(bs, m, ps, i, Pid(ps[i]));
      OneSegment(bs, k, m, i + 1);
    }
  }

  lemma OneSegment(bs: seq<nat>, k: nat, m: nat, n: nat)
    requires Passed(bs, k, n) && Passed(bs, m, n)
    ensures k == m
  {
    assert k < |bs| ==> bs[k] >= n;
    assert m < |bs| ==> bs[m] >= n;
  }
}
