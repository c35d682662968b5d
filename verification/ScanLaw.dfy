/** What the packet scanner finds in a buffer, said of its bytes alone. */
module ScanLaw {
  import opened Wire
  import opened PumpModel

  /** Byte k leads a packet: 0x47, and 0x47 again 188 bytes on where a whole packet more is in view. */
  predicate Leads(s: seq<Cell>, k: nat) {
    k + 188 <= |s| && s[k].value == 0x47 && (|s| - k < 376 || s[k + 188].value == 0x47)
  }

  /** The packets at these places, one after the other. */
  function Pieces(s: seq<Cell>, places: seq<nat>): seq<Cell>
    requires forall j | 0 <= j < |places| :: places[j] + 188 <= |s|
  {
    if places == [] then [] else s[places[0]..places[0] + 188] + Pieces(s, places[1..])
  }

  ghost predicate Covered(places: seq<nat>, i: nat) {
    exists j :: 0 <= j < |places| && places[j] <= i < places[j] + 188
  }

  /** Where the last packet ends. */
  function End(places: seq<nat>, from: nat): nat {
    if places == [] then from else places[|places| - 1] + 188
  }

  /** The packets lead, lie apart and in order between `from` and `to`. */
  ghost predicate Apart(s: seq<Cell>, from: nat, places: seq<nat>, to: nat) {
    && (forall j | 0 <= j < |places| :: from <= places[j] && places[j] + 188 <= to && Leads(s, places[j]))
    && (forall i, j | 0 <= i < j < |places| :: places[i] + 188 <= places[j])
  }

  /** No byte from `from` up to `to` leads a packet but inside those listed. */
  ghost predicate NoneMissed(s: seq<Cell>, from: nat, places: seq<nat>, to: nat) {
    forall i: nat | from <= i < to :: Covered(places, i) || !Leads(s, i)
  }

  /** `places` lists, in order and apart, packets from `from` on that lead; no other byte before the tail
      leads one; the tail is all that follows the last packet, or the last 187 bytes. */
  ghost predicate Finds(s: seq<Cell>, from: nat, places: seq<nat>, tail: seq<Cell>) {
    && |tail| < 188 && |tail| <= |s| && tail == s[|s| - |tail|..]
    && Apart(s, from, places, |s| - |tail|)
    && NoneMissed(s, from, places, |s| - |tail|)
    && from <= |s| - |tail| && (|tail| == 187 || |s| - |tail| == End(places, from))
  }

  lemma {:induction false} ScanFrom(s: seq<Cell>, from: nat) returns (places: seq<nat>)
    requires from <= |s|
    ensures var r := Scan(s[from..]); Finds(s, from, places, r.tail) && r.out == Pieces(s, places)
    decreases |s| - from
  {
    if |s| - from < 188 {
      places := [];
    } else {
      ScanOn(s, from);
      if Leads(s, from) {
        var later := ScanFrom(s, from + 188);
        places := [from] + later;
        OneMorePacket(s, from, later, Scan(s[from + 188..]).tail);
        OneMorePiece(s, from, later);
      } else {
        places := ScanFrom(s, from + 1);
        OneMoreSkipped(s, from, places, Scan(s[from + 1..]).tail);
      }
    }
  }

  lemma ScanOn(s: seq<Cell>, from: nat)
    requires from + 188 <= |s|
    ensures var r, p, q := Scan(s[from..]), Scan(s[from + 188..]), Scan(s[from + 1..]);
            if Leads(s, from) then r.out == s[from..from + 188] + p.out && r.tail == p.tail
            else r.out == q.out && r.tail == q.tail
  {
    var rest := s[from..];
    assert rest[188..] == s[from + 188..];
    assert rest[1..] == s[from + 1..];
    assert rest[..188] == s[from..from + 188];
  }

  lemma OneMoreSkipped(s: seq<Cell>, from: nat, places: seq<nat>, tail: seq<Cell>)
    requires from + 188 <= |s| && !Leads(s, from) && Finds(s, from + 1, places, tail)
    ensures Finds(s, from, places, tail)
  {
  }

  lemma OneMorePacket(s: seq<Cell>, from: nat, later: seq<nat>, tail: seq<Cell>)
    requires Leads(s, from) && Finds(s, from + 188, later, tail)
    ensures Finds(s, from, [from] + later, tail)
  {
    var to := |s| - |tail|;
    assert from + 188 <= to;
    StillApart(s, from, later, to);
    StillNoneMissed(s, from, later, to);
    SameEnd(from, later);
  }

  lemma SameEnd(from: nat, later: seq<nat>)
    ensures End([from] + later, from) == End(later, from + 188)
  {
  }

  lemma OneMorePiece(s: seq<Cell>, from: nat, later: seq<nat>)
    requires from + 188 <= |s| && forall j | 0 <= j < |later| :: later[j] + 188 <= |s|
    ensures Pieces(s, [from] + later) == s[from..from + 188] + Pieces(s, later)
  {
    assert ([from] + later)[1..] == later;
  }

  lemma StillApart(s: seq<Cell>, from: nat, later: seq<nat>, to: nat)
    requires Leads(s, from) && Apart(s, from + 188, later, to) && from + 188 <= to
    ensures Apart(s, from, [from] + later, to)
  {
  }

  lemma StillNoneMissed(s: seq<Cell>, from: nat, later: seq<nat>, to: nat)
    requires NoneMissed(s, from + 188, later, to)
    ensures NoneMissed(s, from, [from] + later, to)
  {
    var places := [from] + later;
    forall i: nat | from <= i < to ensures Covered(places, i) || !Leads(s, i) {
      if i < from + 188 {
        assert places[0] <= i < places[0] + 188;
      } else if Covered(later, i) {
        var j :| 0 <= j < |later| && later[j] <= i < later[j] + 188;
        assert places[j + 1] <= i < places[j + 1] + 188;
      }
    }
  }

  /** The scanner puts out exactly the packets at the places where one leads, scanning from the left:
      of any buffer, every byte before the tail that is in no packet put out leads none. */
  lemma ScanFinds(s: seq<Cell>) returns (places: seq<nat>)
    ensures Finds(s, 0, places, Scan(s).tail) && Scan(s).out == Pieces(s, places)
    ensures |Scan(s).out| == 188 * |places| && Scan(s).skipped == |s| - |Scan(s).tail| - 188 * |places|
  {
    places := ScanFrom(s, 0);
    assert s[0..] == s;
    PiecesLength(s, places);
  }

  lemma {:induction false} PiecesLength(s: seq<Cell>, places: seq<nat>)
    requires forall j | 0 <= j < |places| :: places[j] + 188 <= |s|
    ensures |Pieces(s, places)| == 188 * |places|
  {
    if places != [] {
      PiecesLength(s, places[1..]);
    }
  }

  /** Bytes that are 0 but for 0x47 at 0, 1 and 189: byte 0 leads no packet, for there is none 188 on. */
  function FalseSync(): seq<Cell> {
    seq(377, i => Cell(if i == 0 || i == 1 || i == 189 then 0x47 else 0, 0))
  }

  lemma FalseSyncIsSkipped()
    ensures Scan(FalseSync()) == Scanned(FalseSync()[1..], [], 1)
  {
    var s := FalseSync();
    var places := ScanFinds(s);
    assert !Leads(s, 0) && Leads(s, 1) && Leads(s, 189);
    var t := s[1..];
    assert t[188..] == s[189..];
    assert s[189..][188..] == [];
    assert Scan(s) == Scanned(Scan(t).out, Scan(t).tail, Scan(t).skipped + 1);
    assert t[..188] + (s[189..][..188] + []) == t;
  }
}
