/** The continuity rule of ts-check.py said of positions in the packet sequence, without the
    per-PID records that the pass keeps. */
module Verdicts {
  import opened TsCheck

  /** An examined packet of the PID. */
  predicate Counts(p: Packet, pid: nat) {
    ClassOf(p).Examined? && Pid(p) == pid
  }

  /** Where the latest examined packet of the PID below n is, or -1. */
  function Before(ps: seq<Packet>, n: nat, pid: nat): (j: int)
    requires n <= |ps|
    ensures -1 <= j < n && (j >= 0 ==> Counts(ps[j], pid))
    ensures forall i | j < i < n :: !Counts(ps[i], pid)
  {
    if n == 0 then -1 else if Counts(ps[n - 1], pid) then n - 1 else Before(ps, n - 1, pid)
  }

  /** The packet that packet i follows on its PID. */
  function Predecessor(ps: seq<Packet>, i: nat): int
    requires i < |ps|
  {
    Before(ps, i, Pid(ps[i]))
  }

  /** `b` may follow `a` on its PID. */
  predicate Succeeds(a: Packet, b: Packet) {
    Discontinuity(b) || Counter(b) == (Counter(a) + if HasPayload(b) then 1 else 0) % 16
  }

  /** Packet i carries payload and the counter of its predecessor. */
  predicate Repeat(ps: seq<Packet>, i: nat)
    requires i < |ps|
  {
    var j := Predecessor(ps, i);
    j >= 0 && HasPayload(ps[i]) && Counter(ps[i]) == Counter(ps[j])
  }

  ghost predicate TrustedBetween(ps: seq<Packet>, j: nat, i: nat)
    requires i <= |ps|
  {
    forall m | j < m < i :: !Untrusted(ps[m])
  }

  /** The one duplicate that section 2.4.3.3 of ISO/IEC 13818-1 allows: an unmarked copy of a payload
      packet that repeated nothing itself, with nothing untrusted in between. */
  ghost predicate LegalDuplicate(ps: seq<Packet>, i: nat)
    requires i < |ps|
  {
    var j := Predecessor(ps, i);
    && ClassOf(ps[i]).Examined? && !Discontinuity(ps[i]) && Repeat(ps, i)
    && HasPayload(ps[j]) && !Repeat(ps, j) && TrustedBetween(ps, j, i) && Equivalent(ps[j], ps[i])
  }

  /** Packet i is not judged, starts its PID, continues it, or is a legal duplicate. */
  ghost predicate Legal(ps: seq<Packet>, i: nat)
    requires i < |ps|
  {
    var j := Predecessor(ps, i);
    !ClassOf(ps[i]).Examined? || j < 0 || Succeeds(ps[j], ps[i]) || LegalDuplicate(ps, i)
  }

  // ---------------------------------------------------------------- the records of the pass

  /** Untrusted packets below n. */
  function Distrust(ps: seq<Packet>, n: nat): nat
    requires n <= |ps|
  {
    if n == 0 then 0 else Distrust(ps, n - 1) + if Untrusted(ps[n - 1]) then 1 else 0
  }

  lemma {:induction false} DistrustGrows(ps: seq<Packet>, j: nat, i: nat)
    requires j <= i <= |ps|
    ensures Distrust(ps, j) <= Distrust(ps, i)
    ensures Distrust(ps, j) == Distrust(ps, i) <==> forall m | j <= m < i :: !Untrusted(ps[m])
    decreases i
  {
    if j < i {
      DistrustGrows(ps, j, i - 1);
    }
  }

  function RecordOf(ps: seq<Packet>, j: nat): PidState
    requires j < |ps|
  {
    PidState(Counter(ps[j]), HasPayload(ps[j]), Repeat(ps, j), Distrust(ps, j), ps[j])
  }

  /** The track is that of the packets below n. */
  ghost predicate Tracks(t: Track, ps: seq<Packet>, n: nat)
    requires n <= |ps|
  {
    && t.untrusted == Distrust(ps, n)
    && (forall pid :: pid in t.previous <==> Before(ps, n, pid) >= 0)
    && (forall pid | pid in t.previous :: t.previous[pid] == RecordOf(ps, Before(ps, n, pid)))
  }

  lemma NextTracks(t: Track, ps: seq<Packet>, n: nat)
    requires n < |ps| && Tracks(t, ps, n)
    ensures Tracks(Advance(t, ps[n]), ps, n + 1)
  {
    var u := Advance(t, ps[n]);
    forall pid: nat
      ensures pid in u.previous <==> Before(ps, n + 1, pid) >= 0
      ensures pid in u.previous ==> u.previous[pid] == RecordOf(ps, Before(ps, n + 1, pid))
    {
      if Counts(ps[n], pid) {
        assert Before(ps, n + 1, pid) == n;
        assert Remember(t, ps[n]) == RecordOf(ps, n);
      } else {
        assert Before(ps, n + 1, pid) == Before(ps, n, pid);
      }
    }
  }

  lemma TrustIsEpoch(ps: seq<Packet>, j: nat, i: nat)
    requires j < i <= |ps| && !Untrusted(ps[j])
    ensures Distrust(ps, j) == Distrust(ps, i) <==> TrustedBetween(ps, j, i)
  {
    DistrustGrows(ps, j, i);
  }

  /** The verdict of the pass is the positional one. */
  lemma VerdictIsPositional(t: Track, ps: seq<Packet>, n: nat)
    requires n < |ps| && Tracks(t, ps, n)
    ensures Judge(t, ps[n]).Mismatch? <==> !Legal(ps, n)
    ensures Judge(t, ps[n]).Duplicate? <==> LegalDuplicate(ps, n)
  {
    var j := Predecessor(ps, n);
    if ClassOf(ps[n]).Examined? && j >= 0 {
      TrustIsEpoch(ps, j, n);
      assert t.previous[Pid(ps[n])] == RecordOf(ps, j);
    }
  }
}
