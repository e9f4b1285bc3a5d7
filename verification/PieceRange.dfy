/** Which pieces of a file a byte range needs, and what each contributes (the selection loop of doTorrent and
    the trimming in proxyOrdered, proxy/transport/client.go). Pieces are numbered from the file's first one. */
module PieceRange {
  import opened GoTypes

  /** offs[k] is the number of file bytes before piece k; the last entry is the file's size. The first piece
      holds some of the file. */
  type Offsets = seq<nat>

  ghost predicate Rising(offs: Offsets) {
    |offs| >= 2 && offs[0] == 0 < offs[1] && forall i: nat, j: nat :: i <= j < |offs| ==> Ascends(offs, i, j)
  }

  predicate Ascends(offs: Offsets, i: nat, j: nat)
    requires i <= j < |offs|
  {
    offs[i] <= offs[j]
  }

  lemma Order(offs: Offsets, i: nat, j: nat)
    requires Rising(offs) && i <= j < |offs|
    ensures offs[i] <= offs[j]
  {
    assert Ascends(offs, i, j);
  }

  /** Bytes from..to, both ends included, of a file of these pieces. */
  ghost predicate InBounds(offs: Offsets, from: nat, to: nat) {
    Rising(offs) && from <= to < offs[|offs| - 1]
  }

  predicate IsPiece(offs: Offsets, k: nat) {
    k + 1 < |offs|
  }

  /** The test of the selection loop. */
  predicate Marked(offs: Offsets, from: nat, to: nat, k: nat)
    requires IsPiece(offs, k)
  {
    offs[k + 1] >= from && offs[k] <= to
  }

  /** The piece holds at least one of the bytes from..to. */
  predicate Overlaps(offs: Offsets, from: nat, to: nat, k: nat)
    requires IsPiece(offs, k)
  {
    exists i: nat :: from <= i <= to && Holds(offs, k, i)
  }

  predicate Holds(offs: Offsets, k: nat, i: nat)
    requires IsPiece(offs, k)
  {
    offs[k] <= i < offs[k + 1]
  }

  function FirstMarked(offs: Offsets, from: nat, k: nat): (r: nat)
    requires IsPiece(offs, k) && from < offs[|offs| - 1]
    ensures k <= r && IsPiece(offs, r) && offs[r + 1] >= from && (r > k ==> offs[r] < from)
    decreases |offs| - k
  {
    if offs[k + 1] >= from then k else FirstMarked(offs, from, k + 1)
  }

  function LastMarked(offs: Offsets, to: nat, k: nat): (r: nat)
    requires IsPiece(offs, k) && offs[0] == 0
    ensures r <= k && offs[r] <= to && (r < k ==> offs[r + 1] > to)
  {
    if offs[k] <= to then k else LastMarked(offs, to, k - 1)
  }

  function Lo(offs: Offsets, from: nat): nat
    requires |offs| >= 2 && from < offs[|offs| - 1]
  {
    FirstMarked(offs, from, 0)
  }

  function Hi(offs: Offsets, to: nat): nat
    requires |offs| >= 2 && offs[0] == 0
  {
    LastMarked(offs, to, |offs| - 2)
  }

  /** The marked pieces are one contiguous run. */
  lemma MarkedIsRun(offs: Offsets, from: nat, to: nat)
    requires InBounds(offs, from, to)
    ensures Lo(offs, from) <= Hi(offs, to) && IsPiece(offs, Hi(offs, to))
    ensures forall k: nat {:trigger Marked(offs, from, to, k)} ::
              IsPiece(offs, k) ==> (Marked(offs, from, to, k) <==> Lo(offs, from) <= k <= Hi(offs, to))
  {
    var lo, hi := Lo(offs, from), Hi(offs, to);
    if hi < lo { Order(offs, hi + 1, lo); }
    forall k: nat | IsPiece(offs, k) ensures Marked(offs, from, to, k) <==> lo <= k <= hi {
      if k < lo {
        assert Ascends(offs, k + 1, lo);
      } else {
        assert Ascends(offs, lo + 1, k + 1);
      }
      if k > hi {
        assert Ascends(offs, hi + 1, k);
      } else {
        assert Ascends(offs, k, hi);
      }
    }
  }

  /** Every piece with bytes of the range is marked. A marked piece without any is empty, or the first of
      the run and ends exactly where the range begins. */
  lemma MarkedVersusOverlapping(offs: Offsets, from: nat, to: nat, k: nat)
    requires InBounds(offs, from, to) && IsPiece(offs, k)
    ensures Overlaps(offs, from, to, k) ==> Marked(offs, from, to, k)
    ensures Marked(offs, from, to, k) && !Overlaps(offs, from, to, k) ==>
              offs[k] == offs[k + 1] || (k == Lo(offs, from) && offs[k + 1] == from)
  {
    MarkedIsRun(offs, from, to);
    if Marked(offs, from, to, k) {
      var lo := Lo(offs, from);
      if k > lo { Order(offs, lo + 1, k); }
      var i: nat := if offs[k] <= from then from else offs[k];
      Order(offs, k, k + 1);
      assert Holds(offs, k, i) ==> Overlaps(offs, from, to, k);
    }
  }

  // ---------------------------------------------------------------- the parts

  /** How much of the file is through once the pieces before k have been streamed. */
  function Reach(offs: Offsets, from: nat, to: nat, k: nat): (r: nat)
    requires k < |offs|
    ensures from <= to ==> from <= r <= to + 1
  {
    if offs[k] <= from then from else if offs[k] <= to then offs[k] else to + 1
  }

  lemma ReachRises(offs: Offsets, from: nat, to: nat, k: nat)
    requires InBounds(offs, from, to) && IsPiece(offs, k)
    ensures Reach(offs, from, to, k) <= Reach(offs, from, to, k + 1) <= offs[|offs| - 1]
  {
    assert Ascends(offs, k, k + 1);
  }

  /** What piece k contributes to the range. */
  function RangePart(bytes: seq<byte>, offs: Offsets, from: nat, to: nat, k: nat): seq<byte>
    requires InBounds(offs, from, to) && |bytes| == offs[|offs| - 1] && IsPiece(offs, k)
  {
    ReachRises(offs, from, to, k);
    bytes[Reach(offs, from, to, k)..Reach(offs, from, to, k + 1)]
  }

  /** A piece without bytes of the range contributes none. */
  lemma NoBytesNoPart(bytes: seq<byte>, offs: Offsets, from: nat, to: nat, k: nat)
    requires InBounds(offs, from, to) && |bytes| == offs[|offs| - 1] && IsPiece(offs, k)
    requires !Overlaps(offs, from, to, k)
    ensures RangePart(bytes, offs, from, to, k) == []
  {
    ReachRises(offs, from, to, k);
    var i := Reach(offs, from, to, k);
    if i < Reach(offs, from, to, k + 1) {
      assert Holds(offs, k, i);
    }
  }

  /** The contributions of the pieces from lo up to, not including, k. */
  function PartsBelow(bytes: seq<byte>, offs: Offsets, from: nat, to: nat, lo: nat, k: nat): (parts: seq<seq<byte>>)
    requires InBounds(offs, from, to) && |bytes| == offs[|offs| - 1] && lo <= k < |offs|
    ensures |parts| == k - lo
  {
    if k == lo then [] else PartsBelow(bytes, offs, from, to, lo, k - 1) + [RangePart(bytes, offs, from, to, k - 1)]
  }

  lemma JoinSlices(bytes: seq<byte>, a: nat, b: nat, c: nat)
    requires a <= b <= c <= |bytes|
    ensures bytes[a..b] + bytes[b..c] == bytes[a..c]
  {
  }

  lemma {:induction false} PartsJoin(bytes: seq<byte>, offs: Offsets, from: nat, to: nat, lo: nat, k: nat)
    requires InBounds(offs, from, to) && |bytes| == offs[|offs| - 1] && lo <= k < |offs| && offs[lo] <= from
    ensures Concat(PartsBelow(bytes, offs, from, to, lo, k)) == bytes[from..Reach(offs, from, to, k)]
    decreases k
  {
    if k > lo {
      PartsJoin(bytes, offs, from, to, lo, k - 1);
      ReachRises(offs, from, to, k - 1);
      JoinSlices(bytes, from, Reach(offs, from, to, k - 1), Reach(offs, from, to, k));
      ConcatSnoc(PartsBelow(bytes, offs, from, to, lo, k - 1), RangePart(bytes, offs, from, to, k - 1));
    }
  }

  /** The parts of the range, one for each marked piece. */
  function RangeParts(bytes: seq<byte>, offs: Offsets, from: nat, to: nat): (parts: seq<seq<byte>>)
    requires InBounds(offs, from, to) && |bytes| == offs[|offs| - 1]
  {
    MarkedIsRun(offs, from, to);
    PartsBelow(bytes, offs, from, to, Lo(offs, from), Hi(offs, to) + 1)
  }

  /** They are its bytes. */
  lemma PartsAreRange(bytes: seq<byte>, offs: Offsets, from: nat, to: nat)
    requires InBounds(offs, from, to) && |bytes| == offs[|offs| - 1]
    ensures Concat(RangeParts(bytes, offs, from, to)) == bytes[from..to + 1]
  {
    MarkedIsRun(offs, from, to);
    var lo, hi := Lo(offs, from), Hi(offs, to);
    PartsJoin(bytes, offs, from, to, lo, hi + 1);
    assert Reach(offs, from, to, hi + 1) == to + 1;
  }

  lemma {:induction false} PartAt(bytes: seq<byte>, offs: Offsets, from: nat, to: nat, lo: nat, k: nat, i: nat)
    requires InBounds(offs, from, to) && |bytes| == offs[|offs| - 1] && lo <= k < |offs| && i < k - lo
    ensures PartsBelow(bytes, offs, from, to, lo, k)[i] == RangePart(bytes, offs, from, to, lo + i)
    decreases k
  {
    if i < k - 1 - lo { PartAt(bytes, offs, from, to, lo, k - 1, i); }
  }

  /** The trimming of a marked piece's bytes: the tail past to first, then, on the first piece streamed, the
      head before from. */
  function Trimmed(part: seq<byte>, toOff: nat, from: nat, to: nat, wasFirst: bool): seq<byte>
    requires |part| <= toOff < TWO_64 && 1 <= toOff && from <= to
    requires toOff >= from && toOff - |part| <= to
  {
    var toOffIdx := SubUint64(toOff, 1);
    var cut := if toOffIdx > to then part[..|part| - (toOffIdx - to)] else part;
    var fromOff := toOff - |part|;
    if !wasFirst && from > fromOff then cut[from - fromOff..] else cut
  }

  /** Trimmed that way, a marked piece is its part of the range; later pieces have no head to trim. */
  lemma TrimmedIsRangePart(bytes: seq<byte>, offs: Offsets, from: nat, to: nat, k: nat)
    requires InBounds(offs, from, to) && |bytes| == offs[|offs| - 1] < TWO_64 && IsPiece(offs, k)
    requires Marked(offs, from, to, k)
    ensures offs[k] <= offs[k + 1] <= |bytes| && 1 <= offs[k + 1]
    ensures Trimmed(bytes[offs[k]..offs[k + 1]], offs[k + 1], from, to, k > Lo(offs, from))
            == RangePart(bytes, offs, from, to, k)
  {
    MarkedIsRun(offs, from, to);
    assert Ascends(offs, k, k + 1) && Ascends(offs, 1, k + 1) && Ascends(offs, k + 1, |offs| - 1);
    if k > Lo(offs, from) { assert Ascends(offs, Lo(offs, from) + 1, k); }
    TrimSlice(bytes, offs[k], offs[k + 1], from, to, k > Lo(offs, from));
  }

  lemma TrimSlice(bytes: seq<byte>, a: nat, b: nat, from: nat, to: nat, wasFirst: bool)
    requires a <= b <= |bytes| < TWO_64 && 1 <= b && from <= to < |bytes| && b >= from && a <= to
    requires wasFirst ==> from <= a
    ensures Trimmed(bytes[a..b], b, from, to, wasFirst)
            == bytes[if a <= from then from else a..if b <= to then b else to + 1]
  {
    var part, end := bytes[a..b], if b <= to then b else to + 1;
    assert SubUint64(b, 1) == b - 1;
    assert part[..end - a] == bytes[a..end];
    assert part[..b - a] == part;
  }

  lemma RangePartsShape(bytes: seq<byte>, offs: Offsets, from: nat, to: nat)
    requires InBounds(offs, from, to) && |bytes| == offs[|offs| - 1]
    ensures Lo(offs, from) <= Hi(offs, to) && IsPiece(offs, Hi(offs, to))
    ensures |RangeParts(bytes, offs, from, to)| == Hi(offs, to) + 1 - Lo(offs, from)
  {
    MarkedIsRun(offs, from, to);
  }

  lemma RangePartsAt(bytes: seq<byte>, offs: Offsets, from: nat, to: nat, k: nat)
    requires InBounds(offs, from, to) && |bytes| == offs[|offs| - 1]
    requires Lo(offs, from) <= k <= Hi(offs, to)
    ensures IsPiece(offs, k) && Marked(offs, from, to, k)
    ensures k - Lo(offs, from) < |RangeParts(bytes, offs, from, to)|
    ensures RangeParts(bytes, offs, from, to)[k - Lo(offs, from)] == RangePart(bytes, offs, from, to, k)
  {
    MarkedIsRun(offs, from, to);
    PartAt(bytes, offs, from, to, Lo(offs, from), Hi(offs, to) + 1, k - Lo(offs, from));
  }
}
