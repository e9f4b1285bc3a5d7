/** A file of a torrent served as an HTTP body (doTorrent and proxyOrdered, proxy/transport/client.go):
    one loop marks the pieces to prefetch, another trims and streams them. */
module TorrentBody {
  import opened GoTypes
  import opened Pipe
  import opened Feeder
  import opened PieceRange
  import opened RangeHeader
  import opened Producer

  /** Where a file lies in its bag: from fromOffset in piece fromPiece up to toOffset in piece toPiece. */
  datatype FileInfo = FileInfo(fromPiece: nat, toPiece: nat, fromOffset: nat, toOffset: nat, size: nat)

  type Bag = seq<seq<byte>>

  /** What the storage library promises of a file that is not empty. */
  predicate ValidFile(file: FileInfo, pieceSize: nat, bag: Bag) {
    && 0 < pieceSize < TWO_32 && file.fromPiece <= file.toPiece < TWO_32 - 1
    && file.fromOffset < pieceSize && file.toOffset <= pieceSize
    && 1 <= file.size < TWO_64
    && file.size == (file.toPiece - file.fromPiece) * pieceSize + file.toOffset - file.fromOffset
    && file.toPiece <= |bag|
    && (forall i :: 0 <= i < file.toPiece ==> |bag[i]| == pieceSize)
    && file.toOffset <= (if file.toPiece < |bag| then |bag[file.toPiece]| else 0)
  }

  /** An empty file, in a piece of the bag. */
  predicate EmptyFile(file: FileInfo, bag: Bag) {
    file.size == 0 && file.fromPiece == file.toPiece < |bag| && file.fromOffset == file.toOffset
  }

  /** The file: its stretch of the bag's pieces laid end to end. */
  function FileBytes(file: FileInfo, pieceSize: nat, bag: Bag): seq<byte> {
    var all := Concat(bag);
    var start, end := Start(file, pieceSize), End(file, pieceSize);
    if start <= end <= |all| then all[start..end] else []
  }

  // ---------------------------------------------------------------- pieces and offsets

  predicate Sizes(file: FileInfo, pieceSize: nat) {
    0 < pieceSize < TWO_32 && file.fromOffset < TWO_32 && file.toOffset < TWO_32
  }

  /** The file's share of piece p, in uint32 arithmetic. */
  function PieceShare(file: FileInfo, pieceSize: nat, p: nat): (n: nat)
    requires Sizes(file, pieceSize)
    ensures n < TWO_32
  {
    var size := if p == file.toPiece then file.toOffset else pieceSize;
    if p == file.fromPiece then SubUint32(size, file.fromOffset) else size
  }

  /** The number of file bytes before piece p. */
  function Before(file: FileInfo, pieceSize: nat, p: nat): nat
    requires Sizes(file, pieceSize)
  {
    if p <= file.fromPiece then 0 else Before(file, pieceSize, p - 1) + PieceShare(file, pieceSize, p - 1)
  }

  /** The file's bytes in piece p: none where the bag has no such piece. */
  function PieceBytes(file: FileInfo, bag: Bag, p: nat): seq<byte> {
    if p >= |bag| then []
    else
      var part := if p == file.toPiece then bag[p][..Min(file.toOffset, |bag[p]|)] else bag[p];
      if p == file.fromPiece then part[Min(file.fromOffset, |part|)..] else part
  }

  lemma {:induction false} BagHead(bag: Bag, pieceSize: nat, k: nat)
    requires k <= |bag| && forall i :: 0 <= i < k ==> |bag[i]| == pieceSize
    ensures |Concat(bag[..k])| == k * pieceSize
  {
    if k > 0 {
      BagHead(bag, pieceSize, k - 1);
      assert bag[..k][..k - 1] == bag[..k - 1];
    }
  }

  /** The file's part of a single piece needs no wrap-around and is as long as its share. */
  lemma ShareOk(file: FileInfo, pieceSize: nat, bag: Bag, p: nat)
    requires ValidFile(file, pieceSize, bag) && file.fromPiece <= p <= file.toPiece
    ensures |PieceBytes(file, bag, p)| == PieceShare(file, pieceSize, p)
    ensures p == file.fromPiece ==> (if p == file.toPiece then file.toOffset else pieceSize) > file.fromOffset
  {
    if file.fromPiece == file.toPiece {
      assert (file.toPiece - file.fromPiece) * pieceSize == 0;
    }
  }

  function Start(file: FileInfo, pieceSize: nat): nat {
    file.fromPiece * pieceSize + file.fromOffset
  }

  function End(file: FileInfo, pieceSize: nat): nat {
    file.toPiece * pieceSize + file.toOffset
  }

  /** Where the file's bytes of piece p begin in the bag. */
  lemma {:induction false} BeforePiece(file: FileInfo, pieceSize: nat, bag: Bag, p: nat)
    requires ValidFile(file, pieceSize, bag) && file.fromPiece <= p <= file.toPiece
    ensures Start(file, pieceSize) + Before(file, pieceSize, p)
            == p * pieceSize + (if p == file.fromPiece then file.fromOffset else 0)
    decreases p
  {
    if p > file.fromPiece {
      BeforePiece(file, pieceSize, bag, p - 1);
      ShareOk(file, pieceSize, bag, p - 1);
      assert p * pieceSize == (p - 1) * pieceSize + pieceSize;
    }
  }

  /** Where they end. */
  lemma AfterPiece(file: FileInfo, pieceSize: nat, bag: Bag, p: nat)
    requires ValidFile(file, pieceSize, bag) && file.fromPiece <= p <= file.toPiece
    ensures Start(file, pieceSize) + Before(file, pieceSize, p + 1)
            == p * pieceSize + (if p == file.toPiece then file.toOffset else pieceSize)
  {
    BeforePiece(file, pieceSize, bag, p);
    ShareOk(file, pieceSize, bag, p);
  }

  lemma SpreadSize(a: nat, b: nat, m: nat)
    requires a <= b
    ensures (b - a) * m == b * m - a * m
  {
  }

  /** The bag reaches to the file's end. */
  lemma BagCovers(file: FileInfo, pieceSize: nat, bag: Bag)
    requires ValidFile(file, pieceSize, bag)
    ensures End(file, pieceSize) <= |Concat(bag)|
  {
    if file.toPiece < |bag| {
      PieceInBag(bag, pieceSize, file.toPiece);
    } else {
      BagHead(bag, pieceSize, |bag|);
      assert bag[..|bag|] == bag;
    }
  }

  lemma WholeFile(file: FileInfo, pieceSize: nat, bag: Bag)
    requires ValidFile(file, pieceSize, bag)
    ensures Before(file, pieceSize, file.toPiece + 1) == file.size == |FileBytes(file, pieceSize, bag)|
    ensures Start(file, pieceSize) + file.size == End(file, pieceSize) <= |Concat(bag)|
    ensures FileBytes(file, pieceSize, bag) == Concat(bag)[Start(file, pieceSize)..End(file, pieceSize)]
  {
    AfterPiece(file, pieceSize, bag, file.toPiece);
    SpreadSize(file.fromPiece, file.toPiece, pieceSize);
    BagCovers(file, pieceSize, bag);
  }

  /** Piece p behind p full pieces. */
  lemma PieceInBag(bag: Bag, pieceSize: nat, p: nat)
    requires p < |bag| && forall i :: 0 <= i < p ==> |bag[i]| == pieceSize
    ensures p * pieceSize + |bag[p]| <= |Concat(bag)|
    ensures Concat(bag)[p * pieceSize..p * pieceSize + |bag[p]|] == bag[p]
  {
    BagHead(bag, pieceSize, p);
    ConcatPrefix(bag, p + 1);
    assert bag[..p + 1] == bag[..p] + [bag[p]];
    ConcatSnoc(bag[..p], bag[p]);
  }

  lemma PieceBytesInBag(file: FileInfo, pieceSize: nat, bag: Bag, p: nat, a: nat, b: nat)
    requires ValidFile(file, pieceSize, bag) && file.fromPiece <= p <= file.toPiece
    requires a == p * pieceSize + (if p == file.fromPiece then file.fromOffset else 0)
    requires b == p * pieceSize + (if p == file.toPiece then file.toOffset else pieceSize)
    requires a <= b
    requires b <= |Concat(bag)|
    ensures PieceBytes(file, bag, p) == Concat(bag)[a..b]
  {
    if p < |bag| {
      PieceInBag(bag, pieceSize, p);
      PieceBytesAt(file, bag, p, Concat(bag), p * pieceSize);
    } else {
      ShareOk(file, pieceSize, bag, p);
    }
  }

  /** The slices of a piece that lies at some place in a larger sequence. */
  lemma PieceBytesAt(file: FileInfo, bag: Bag, p: nat, all: seq<byte>, at: nat)
    requires p < |bag| && at + |bag[p]| <= |all| && all[at..at + |bag[p]|] == bag[p]
    requires p == file.toPiece ==> file.toOffset <= |bag[p]|
    requires p == file.fromPiece ==> file.fromOffset <= if p == file.toPiece then file.toOffset else |bag[p]|
    ensures PieceBytes(file, bag, p) == all[at + (if p == file.fromPiece then file.fromOffset else 0)
                                            ..at + (if p == file.toPiece then file.toOffset else |bag[p]|)]
  {
    SliceOfSlice(all, at, at + |bag[p]|, if p == file.fromPiece then file.fromOffset else 0,
                 if p == file.toPiece then file.toOffset else |bag[p]|);
  }

  /** The file's bytes in piece p are where the offsets say. */
  lemma PieceOfFile(file: FileInfo, pieceSize: nat, bag: Bag, p: nat)
    requires ValidFile(file, pieceSize, bag) && file.fromPiece <= p <= file.toPiece
    ensures Before(file, pieceSize, p) <= Before(file, pieceSize, p + 1) <= file.size
    ensures file.size == |FileBytes(file, pieceSize, bag)|
    ensures PieceBytes(file, bag, p)
            == FileBytes(file, pieceSize, bag)[Before(file, pieceSize, p)..Before(file, pieceSize, p + 1)]
  {
    var i, j := Before(file, pieceSize, p), Before(file, pieceSize, p + 1);
    WholeFile(file, pieceSize, bag);
    BeforeMonotone(file, pieceSize, p, p + 1);
    BeforeMonotone(file, pieceSize, p + 1, file.toPiece + 1);
    PieceInFile(file, pieceSize, bag, p, i, j);
  }

  lemma PieceInFile(file: FileInfo, pieceSize: nat, bag: Bag, p: nat, i: nat, j: nat)
    requires ValidFile(file, pieceSize, bag) && file.fromPiece <= p <= file.toPiece
    requires i == Before(file, pieceSize, p) && j == Before(file, pieceSize, p + 1)
    requires i <= j <= file.size == |FileBytes(file, pieceSize, bag)|
    ensures PieceBytes(file, bag, p) == FileBytes(file, pieceSize, bag)[i..j]
  {
    WholeFile(file, pieceSize, bag);
    PieceSpan(file, pieceSize, bag, p, i, j, Start(file, pieceSize));
    SliceOfSlice(Concat(bag), Start(file, pieceSize), End(file, pieceSize), i, j);
  }

  lemma PieceSpan(file: FileInfo, pieceSize: nat, bag: Bag, p: nat, i: nat, j: nat, start: nat)
    requires ValidFile(file, pieceSize, bag) && file.fromPiece <= p <= file.toPiece
    requires i == Before(file, pieceSize, p) && j == Before(file, pieceSize, p + 1) && i <= j
    requires start == Start(file, pieceSize) && start + j <= |Concat(bag)|
    ensures PieceBytes(file, bag, p) == Concat(bag)[start + i..start + j]
  {
    BeforePiece(file, pieceSize, bag, p);
    AfterPiece(file, pieceSize, bag, p);
    PieceBytesInBag(file, pieceSize, bag, p, start + i, start + j);
  }

  lemma SliceOfSlice(all: seq<byte>, a: nat, b: nat, i: nat, j: nat)
    requires a <= b <= |all| && i <= j <= b - a
    ensures all[a..b][i..j] == all[a + i..a + j] && all[a..b][..j][i..] == all[a + i..a + j]
  {
    assert all[a..b][..j] == all[a..a + j];
  }

  lemma {:induction false} BeforeMonotone(file: FileInfo, pieceSize: nat, p: nat, q: nat)
    requires Sizes(file, pieceSize) && p <= q
    ensures Before(file, pieceSize, p) <= Before(file, pieceSize, q)
    decreases q
  {
    if p < q { BeforeMonotone(file, pieceSize, p, q - 1); }
  }

  // ---------------------------------------------------------------- the file's pieces

  /** The file's offsets at its pieces, one more than there are. */
  function PieceOffsets(file: FileInfo, pieceSize: nat, n: nat): (offs: Offsets)
    requires Sizes(file, pieceSize)
    ensures |offs| == n + 1 && forall k :: 0 <= k <= n ==> offs[k] == Before(file, pieceSize, file.fromPiece + k)
  {
    if n == 0 then [Before(file, pieceSize, file.fromPiece)]
    else PieceOffsets(file, pieceSize, n - 1) + [Before(file, pieceSize, file.fromPiece + n)]
  }

  function Offs(file: FileInfo, pieceSize: nat): (offs: Offsets)
    requires Sizes(file, pieceSize) && file.fromPiece <= file.toPiece
  {
    PieceOffsets(file, pieceSize, file.toPiece + 1 - file.fromPiece)
  }

  /** The file's length, offsets and pieces, free of the layout's arithmetic. */
  ghost predicate LaidOut(file: FileInfo, pieceSize: nat, bag: Bag, bytes: seq<byte>, offs: Offsets) {
    && Sizes(file, pieceSize) && file.fromPiece <= file.toPiece < TWO_32 - 1
    && Rising(offs) && |offs| == file.toPiece + 2 - file.fromPiece
    && offs[|offs| - 1] == |bytes| < TWO_64
    && (forall k: nat {:trigger PieceLaidOut(file, pieceSize, bag, bytes, offs, k)} ::
         IsPiece(offs, k) ==> PieceLaidOut(file, pieceSize, bag, bytes, offs, k))
  }

  /** Piece k of the file: its share, its bytes, and the slices that take them out of the bag's piece. */
  predicate PieceLaidOut(file: FileInfo, pieceSize: nat, bag: Bag, bytes: seq<byte>, offs: Offsets, k: nat)
    requires IsPiece(offs, k) && Sizes(file, pieceSize)
  {
    var p := file.fromPiece + k;
    && offs[k] <= offs[k + 1] <= |bytes|
    && PieceShare(file, pieceSize, p) == offs[k + 1] - offs[k]
    && PieceBytes(file, bag, p) == bytes[offs[k]..offs[k + 1]]
    && (p < |bag| ==>
         && (p == file.toPiece ==> file.toOffset <= |bag[p]|)
         && (p == file.fromPiece ==> file.fromOffset <= if p == file.toPiece then file.toOffset else |bag[p]|))
  }

  lemma LayOut(file: FileInfo, pieceSize: nat, bag: Bag)
    requires ValidFile(file, pieceSize, bag)
    ensures LaidOut(file, pieceSize, bag, FileBytes(file, pieceSize, bag), Offs(file, pieceSize))
  {
    var offs, bytes := Offs(file, pieceSize), FileBytes(file, pieceSize, bag);
    WholeFile(file, pieceSize, bag);
    OffsRise(file, pieceSize, bag);
    forall k: nat | IsPiece(offs, k) ensures PieceLaidOut(file, pieceSize, bag, bytes, offs, k) {
      PieceIsLaidOut(file, pieceSize, bag, k);
    }
  }

  lemma OffsRise(file: FileInfo, pieceSize: nat, bag: Bag)
    requires ValidFile(file, pieceSize, bag)
    ensures Rising(Offs(file, pieceSize))
  {
    var offs := Offs(file, pieceSize);
    forall i: nat, j: nat | i <= j < |offs| ensures Ascends(offs, i, j) {
      OffsAscend(file, pieceSize, i, j);
    }
    FirstIsSome(file, pieceSize, bag);
  }

  lemma OffsAscend(file: FileInfo, pieceSize: nat, i: nat, j: nat)
    requires Sizes(file, pieceSize) && file.fromPiece <= file.toPiece && i <= j < |Offs(file, pieceSize)|
    ensures Ascends(Offs(file, pieceSize), i, j)
  {
    BeforeMonotone(file, pieceSize, file.fromPiece + i, file.fromPiece + j);
  }

  lemma FirstIsSome(file: FileInfo, pieceSize: nat, bag: Bag)
    requires ValidFile(file, pieceSize, bag)
    ensures var offs := Offs(file, pieceSize); |offs| >= 2 && offs[0] == 0 < offs[1]
  {
    ShareOk(file, pieceSize, bag, file.fromPiece);
    FirstShare(file, pieceSize);
  }

  lemma FirstShare(file: FileInfo, pieceSize: nat)
    requires Sizes(file, pieceSize) && file.fromPiece <= file.toPiece
    ensures var offs := Offs(file, pieceSize);
            |offs| >= 2 && offs[0] == 0 && offs[1] == PieceShare(file, pieceSize, file.fromPiece)
  {
    assert Before(file, pieceSize, file.fromPiece + 1)
           == Before(file, pieceSize, file.fromPiece) + PieceShare(file, pieceSize, file.fromPiece);
  }

  lemma PieceIsLaidOut(file: FileInfo, pieceSize: nat, bag: Bag, k: nat)
    requires ValidFile(file, pieceSize, bag) && IsPiece(Offs(file, pieceSize), k)
    ensures PieceLaidOut(file, pieceSize, bag, FileBytes(file, pieceSize, bag), Offs(file, pieceSize), k)
  {
    var p := file.fromPiece + k;
    PieceOfFile(file, pieceSize, bag, p);
    ShareOk(file, pieceSize, bag, p);
    assert Before(file, pieceSize, p + 1) == Before(file, pieceSize, p) + PieceShare(file, pieceSize, p);
  }

  // ---------------------------------------------------------------- the selection loop

  /** Every piece of a file but its last holds some of it. */
  lemma PieceHoldsSome(file: FileInfo, pieceSize: nat, bag: Bag, k: nat)
    requires ValidFile(file, pieceSize, bag) && k <= file.toPiece - file.fromPiece
    ensures var offs := Offs(file, pieceSize);
            IsPiece(offs, k) && offs[k] <= offs[k + 1] && (offs[k] == offs[k + 1] ==> k + 2 == |offs|)
  {
    var offs, bytes := Offs(file, pieceSize), FileBytes(file, pieceSize, bag);
    LayOut(file, pieceSize, bag);
    ShareOk(file, pieceSize, bag, file.fromPiece + k);
    ShareAt(file, pieceSize, bag, bytes, offs, file.fromPiece + k);
    assert Ascends(offs, k, k + 1);
  }

  /** Of a file's pieces the loop marks those with bytes of the range, and at most one more: the first of the run, if
      it ends exactly where the range begins. That one contributes nothing. */
  lemma AtMostOneExtra(file: FileInfo, pieceSize: nat, bag: Bag, from: nat, to: nat, k: nat)
    requires ValidFile(file, pieceSize, bag) && from <= to < file.size && k <= file.toPiece - file.fromPiece
    ensures var offs, bytes := Offs(file, pieceSize), FileBytes(file, pieceSize, bag);
            && InBounds(offs, from, to) && |bytes| == offs[|offs| - 1] && IsPiece(offs, k)
            && (Marked(offs, from, to, k) <==> Overlaps(offs, from, to, k) || offs[k + 1] == from)
            && (Marked(offs, from, to, k) && !Overlaps(offs, from, to, k) ==>
                 k == Lo(offs, from) && offs[k + 1] == from && RangePart(bytes, offs, from, to, k) == [])
  {
    var offs, bytes := Offs(file, pieceSize), FileBytes(file, pieceSize, bag);
    LayOut(file, pieceSize, bag);
    WholeFile(file, pieceSize, bag);
    PieceHoldsSome(file, pieceSize, bag, k);
    MarkedVersusOverlapping(offs, from, to, k);
    if !Overlaps(offs, from, to, k) { NoBytesNoPart(bytes, offs, from, to, k); }
  }

  /** A marked piece is in the bag: the last one is not marked when the file has no bytes in it. */
  lemma MarkedInBag(file: FileInfo, pieceSize: nat, bag: Bag, bytes: seq<byte>, offs: Offsets, from: nat, to: nat,
                    p: nat)
    requires LaidOut(file, pieceSize, bag, bytes, offs) && from <= to < |bytes| && file.toPiece <= |bag|
    requires file.fromPiece <= p <= file.toPiece && Marked(offs, from, to, p - file.fromPiece)
    ensures p < |bag|
  {
    assert PieceLaidOut(file, pieceSize, bag, bytes, offs, p - file.fromPiece);
  }

  /** The map holds exactly the pieces from a up to b, as far as they are below n. */
  predicate HoldsRun(piecesMap: map<nat, bool>, a: nat, b: nat, n: nat) {
    && (forall p :: p in piecesMap ==> piecesMap[p] && a <= p <= b && p < n)
    && (forall p :: a <= p <= b && p < n ==> p in piecesMap)
  }

  /** The prefetch mask marks exactly the pieces of the map. */
  predicate MaskAgrees(mask: seq<byte>, piecesMap: map<nat, bool>) {
    forall p :: 0 <= p < |mask| ==> mask[p] == if p in piecesMap then 1 else 0
  }

  lemma MarkNext(mask: seq<byte>, piecesMap: map<nat, bool>, a: nat, b: nat, n: nat)
    requires HoldsRun(piecesMap, a, b, n) && MaskAgrees(mask, piecesMap)
    ensures a <= n <= b ==> HoldsRun(piecesMap[n := true], a, b, n + 1)
    ensures n < |mask| ==> MaskAgrees(mask[n := 1], piecesMap[n := true])
    ensures !(a <= n <= b) ==> HoldsRun(piecesMap, a, b, n + 1)
  {
  }

  /** One turn of the offset count. */
  lemma ShareAt(file: FileInfo, pieceSize: nat, bag: Bag, bytes: seq<byte>, offs: Offsets, p: nat)
    requires LaidOut(file, pieceSize, bag, bytes, offs) && file.fromPiece <= p <= file.toPiece
    ensures var k := p - file.fromPiece;
            IsPiece(offs, k) && offs[k] + PieceShare(file, pieceSize, p) == offs[k + 1] <= |bytes|
  {
    assert PieceLaidOut(file, pieceSize, bag, bytes, offs, p - file.fromPiece);
  }

  /** What both loops add up for a piece. */
  method SizeOf(file: FileInfo, pieceSize: nat, piece: nat, ghost bag: Bag, ghost bytes: seq<byte>, ghost offs: Offsets)
    returns (size: nat)
    requires LaidOut(file, pieceSize, bag, bytes, offs) && file.fromPiece <= piece <= file.toPiece
    ensures var k := piece - file.fromPiece; IsPiece(offs, k) && offs[k] + size == offs[k + 1] <= |bytes|
  {
    ShareAt(file, pieceSize, bag, bytes, offs, piece);
    size := pieceSize;
    if piece == file.toPiece {
      size := file.toOffset;
    }
    if piece == file.fromPiece {
      size := SubUint32(size, file.fromOffset);
    }
  }

  /** The loop that fills the prefetch mask and the map of needed pieces: both hold exactly the run. */
  method SelectPieces(file: FileInfo, pieceSize: nat, from: nat, to: nat, pieces: array<byte>,
                      ghost bag: Bag, ghost bytes: seq<byte>, ghost offs: Offsets)
    returns (piecesMap: map<nat, bool>)
    requires LaidOut(file, pieceSize, bag, bytes, offs) && from <= to < |bytes|
    requires file.toPiece <= |bag| == pieces.Length && forall i :: 0 <= i < pieces.Length ==> pieces[i] == 0
    modifies pieces
    ensures HoldsRun(piecesMap, file.fromPiece + Lo(offs, from), file.fromPiece + Hi(offs, to), file.toPiece + 1)
    ensures MaskAgrees(pieces[..], piecesMap)
  {
    MarkedIsRun(offs, from, to);
    ghost var a, b := file.fromPiece + Lo(offs, from), file.fromPiece + Hi(offs, to);
    piecesMap := map[];
    var offFrom, offTo := 0, 0;
    var piece := file.fromPiece;
    while piece <= file.toPiece
      invariant file.fromPiece <= piece <= file.toPiece + 1
      invariant offFrom == offTo == offs[piece - file.fromPiece]
      invariant HoldsRun(piecesMap, a, b, piece) && MaskAgrees(pieces[..], piecesMap)
    {
      MarkNext(pieces[..], piecesMap, a, b, piece);
      var size := SizeOf(file, pieceSize, piece, bag, bytes, offs);
      offTo := offTo + size;
      assert Marked(offs, from, to, piece - file.fromPiece) <==> offTo >= from && offFrom <= to;
      if offTo >= from && offFrom <= to {
        MarkedInBag(file, pieceSize, bag, bytes, offs, from, to, piece);
        ghost var mask := pieces[..];
        pieces[piece] := 1;
        assert pieces[..] == mask[piece := 1];
        piecesMap := piecesMap[piece := true];
      }
      offFrom := offTo;
      piece := piece + 1;
    }
  }

  // ---------------------------------------------------------------- streaming in order

  datatype FetchOp = Stamp | WaitGet(piece: nat) | Free(piece: nat)

  /** The storage library's prefetcher: a wait for a piece fails or gives the bag's piece. The log has the stamps of
      the site's LastUsed too, in their place. */
  class PreFetcher {
    const bag: Bag
    const fails: nat -> bool
    var log: seq<FetchOp>

    constructor (bag: Bag, fails: nat -> bool)
      ensures this.bag == bag && this.fails == fails && log == []
    {
      this.bag, this.fails, log := bag, fails, [];
    }

    method WaitGet(piece: nat) returns (r: Option<seq<byte>>)
      requires piece < |bag|
      modifies this`log
      ensures log == old(log) + [FetchOp.WaitGet(piece)]
      ensures r == if fails(|old(log)|) then None else Some(bag[piece])
    {
      r := if fails(|log|) then None else Some(bag[piece]);
      log := log + [FetchOp.WaitGet(piece)];
    }

    method Stamp()
      modifies this`log
      ensures log == old(log) + [FetchOp.Stamp]
    {
      log := log + [FetchOp.Stamp];
    }

    method Free(piece: nat)
      modifies this`log
      ensures log == old(log) + [FetchOp.Free(piece)]
    {
      log := log + [FetchOp.Free(piece)];
    }
  }

  /** A piece is waited for right after the site is stamped. */
  function Taking(piece: nat): seq<FetchOp> {
    [FetchOp.Stamp, FetchOp.WaitGet(piece)]
  }

  /** n pieces from a on, each waited for and freed before the next: never more than one is held. */
  function OneByOne(a: nat, n: nat): (log: seq<FetchOp>)
    ensures |log| == 3 * n
  {
    if n == 0 then [] else OneByOne(a, n - 1) + (Taking(a + n - 1) + [FetchOp.Free(a + n - 1)])
  }

  lemma Freed(a: nat, n: nat)
    requires n > 0
    ensures OneByOne(a, n - 1) + Taking(a + n - 1) + [FetchOp.Free(a + n - 1)] == OneByOne(a, n)
  {
  }

  /** n pieces from first on, one by one, as far as it went: all of them, or up to some wait or free. */
  predicate InTurn(log: seq<FetchOp>, all: bool, first: nat, n: nat) {
    if all then log == OneByOne(first, n) else log <= OneByOne(first, n)
  }

  /** The first n waits and writes go well. */
  ghost predicate Smooth(parts: Script, fails: nat -> bool, rejects: nat -> bool, n: nat)
    requires n <= |parts|
  {
    forall i :: 0 <= i < n ==> !fails(3 * i + 1) && Accepted(parts, rejects, i)
  }

  lemma SmoothNext(parts: Script, fails: nat -> bool, rejects: nat -> bool, m: nat)
    requires m < |parts|
    ensures Smooth(parts, fails, rejects, m + 1)
            <==> Smooth(parts, fails, rejects, m) && !fails(3 * m + 1) && Accepted(parts, rejects, m)
  {
  }

  lemma SmoothAccepts(parts: Script, fails: nat -> bool, rejects: nat -> bool, n: nat)
    requires n <= |parts| && Smooth(parts, fails, rejects, n)
    ensures AllAccepted(parts, rejects, n) && (n > 0 ==> AllAccepted(parts, rejects, n - 1))
  {
  }

  /** The fetch log with m pieces taken, the last of them, if any, still held. */
  predicate Holding(log: seq<FetchOp>, a: nat, m: nat, current: Option<seq<byte>>, currentId: nat, bag: Bag) {
    if m == 0 then log == [] && current == None
    else
      && currentId == a + m - 1 && currentId < |bag| && current == Some(bag[currentId])
      && log == OneByOne(a, m - 1) + Taking(currentId)
  }

  /** The piece held, if any, is freed. */
  method FreeHeld(fetch: PreFetcher, currentId: nat, current: Option<seq<byte>>, ghost a: nat, ghost m: nat)
    requires Holding(fetch.log, a, m, current, currentId, fetch.bag)
    modifies fetch`log
    ensures fetch.log == OneByOne(a, m)
  {
    if current.Some? {
      Freed(a, m);
      fetch.Free(currentId);
    }
  }

  /** The next piece is taken: the one held, if any, is freed first. */
  method TakePiece(fetch: PreFetcher, piece: nat, currentId: nat, current: Option<seq<byte>>,
                   ghost a: nat, ghost m: nat)
    returns (next: Option<seq<byte>>)
    requires Holding(fetch.log, a, m, current, currentId, fetch.bag) && piece == a + m < |fetch.bag|
    modifies fetch`log
    ensures next.Some? <==> !fetch.fails(3 * m + 1)
    ensures fetch.log == OneByOne(a, m) + Taking(piece)
    ensures next.Some? ==> Holding(fetch.log, a, m + 1, next, piece, fetch.bag)
  {
    FreeHeld(fetch, currentId, current, a, m);
    fetch.Stamp();
    next := fetch.WaitGet(piece);
  }

  /** The slices of a piece: the file's end, the file's start, and what the range trims. */
  method CutPiece(file: FileInfo, current: seq<byte>, piece: nat, toOff: nat, from: nat, to: nat, wasFirst: bool,
                  ghost pieceSize: nat, ghost bag: Bag, ghost bytes: seq<byte>, ghost offs: Offsets)
    returns (part: seq<byte>)
    requires LaidOut(file, pieceSize, bag, bytes, offs) && from <= to < |bytes|
    requires file.fromPiece <= piece <= file.toPiece && piece < |bag| && current == bag[piece]
    requires var k := piece - file.fromPiece;
             Marked(offs, from, to, k) && toOff == offs[k + 1] && wasFirst == (k > Lo(offs, from))
    ensures part == RangePart(bytes, offs, from, to, piece - file.fromPiece)
  {
    ghost var k := piece - file.fromPiece;
    assert PieceLaidOut(file, pieceSize, bag, bytes, offs, k);
    TrimmedIsRangePart(bytes, offs, from, to, k);
    part := current;
    if piece == file.toPiece {
      part := part[..file.toOffset];
    }
    if piece == file.fromPiece {
      part := part[file.fromOffset..];
    }
    part := Trimmed(part, toOff, from, to, wasFirst);
  }

  /** A marked piece on its way: taken, cut and written; None when the wait or the write fails. */
  method StreamPiece(file: FileInfo, piece: nat, toOff: nat, wasFirst: bool, from: nat, to: nat, fetch: PreFetcher,
                     sink: Sink, currentId: nat, current: Option<seq<byte>>, ghost pieceSize: nat,
                     ghost bytes: seq<byte>, ghost offs: Offsets, ghost a: nat, ghost m: nat, ghost parts: Script)
    returns (next: Option<seq<byte>>)
    requires LaidOut(file, pieceSize, fetch.bag, bytes, offs) && from <= to < |bytes|
    requires file.fromPiece <= piece <= file.toPiece && piece < |fetch.bag|
    requires Marked(offs, from, to, piece - file.fromPiece) && toOff == offs[piece - file.fromPiece + 1]
    requires wasFirst == (piece - file.fromPiece > Lo(offs, from))
    requires piece == a + m && Holding(fetch.log, a, m, current, currentId, fetch.bag)
    requires m < |parts| && parts[m] == RangePart(bytes, offs, from, to, piece - file.fromPiece)
    requires |sink.calls| == m && WritesFirst(parts, sink.calls, m)
    modifies fetch`log, sink`calls
    ensures next.Some? <==> !fetch.fails(3 * m + 1) && Accepted(parts, sink.rejects, m)
    ensures WritesFirst(parts, sink.calls, |sink.calls|)
    ensures if next.Some? then |sink.calls| == m + 1 else m <= |sink.calls| <= m + 1
    ensures next.Some? ==> Holding(fetch.log, a, m + 1, next, piece, fetch.bag)
    ensures fetch.log <= OneByOne(a, |parts|)
  {
    OneByOnePrefix(a, m, |parts|);
    next := TakePiece(fetch, piece, currentId, current, a, m);
    if next.Some? {
      var part := CutPiece(file, next.value, piece, toOff, from, to, wasFirst, pieceSize, fetch.bag, bytes, offs);
      var written := sink.Write(part);
      if !written {
        next := None;
      }
    }
  }

  lemma {:induction false} OneByOnePrefix(a: nat, m: nat, n: nat)
    requires m < n
    ensures OneByOne(a, m) + Taking(a + m) <= OneByOne(a, n)
  {
    if m + 1 < n { OneByOnePrefix(a, m, n - 1); }
  }

  /** How many of the pieces a..b come before piece p. */
  function CountBefore(a: nat, b: nat, p: nat): nat {
    if p <= a then 0 else if p <= b then p - a else if a <= b then b + 1 - a else 0
  }

  lemma NextPiece(piecesMap: map<nat, bool>, a: nat, b: nat, n: nat, p: nat)
    requires HoldsRun(piecesMap, a, b, n) && a <= b < n && p < n
    ensures p in piecesMap <==> a <= p <= b
    ensures CountBefore(a, b, p + 1) == CountBefore(a, b, p) + if p in piecesMap then 1 else 0
    ensures p in piecesMap ==> p == a + CountBefore(a, b, p)
    ensures p !in piecesMap ==> p + 1 <= a || p > a
  {
  }

  /** The marked pieces before this one have gone through, and the last of them, if any, is held. */
  ghost predicate Underway(parts: Script, fetch: PreFetcher, sink: Sink, a: nat, b: nat, piece: nat,
                           current: Option<seq<byte>>, currentId: nat, wasFirst: bool)
    reads fetch, sink
  {
    var m := CountBefore(a, b, piece);
    && |sink.calls| == m && WritesFirst(parts, sink.calls, m) && Smooth(parts, fetch.fails, sink.rejects, m)
    && Holding(fetch.log, a, m, current, currentId, fetch.bag) && (wasFirst <==> piece > a)
  }

  /** The next marked piece goes through, unless the wait or the write fails. */
  method StreamMarked(file: FileInfo, piece: nat, toOff: nat, wasFirst: bool, from: nat, to: nat, fetch: PreFetcher,
                      sink: Sink, currentId: nat, current: Option<seq<byte>>, ghost pieceSize: nat,
                      ghost bytes: seq<byte>, ghost offs: Offsets, ghost a: nat, ghost b: nat, ghost parts: Script)
    returns (next: Option<seq<byte>>)
    requires LaidOut(file, pieceSize, fetch.bag, bytes, offs) && from <= to < |bytes| && file.toPiece <= |fetch.bag|
    requires parts == RangeParts(bytes, offs, from, to)
    requires a == file.fromPiece + Lo(offs, from) && b == file.fromPiece + Hi(offs, to) && a <= piece <= b
    requires piece <= file.toPiece && toOff == offs[piece - file.fromPiece + 1]
    requires Underway(parts, fetch, sink, a, b, piece, current, currentId, wasFirst)
    modifies fetch`log, sink`calls
    ensures next.Some? ==> Underway(parts, fetch, sink, a, b, piece + 1, next, piece, true)
    ensures next == None ==>
              && !Smooth(parts, fetch.fails, sink.rejects, |parts|) && InTurn(fetch.log, false, a, |parts|)
              && WritesFirst(parts, sink.calls, |sink.calls|)
              && (sink.calls != [] ==> AllAccepted(parts, sink.rejects, |sink.calls| - 1))
  {
    ghost var m, k := |sink.calls|, piece - file.fromPiece;
    RangePartsAt(bytes, offs, from, to, k);
    MarkedInBag(file, pieceSize, fetch.bag, bytes, offs, from, to, piece);
    next := StreamPiece(file, piece, toOff, wasFirst, from, to, fetch, sink, currentId, current,
                        pieceSize, bytes, offs, a, m, parts);
    SmoothNext(parts, fetch.fails, sink.rejects, m);
    SmoothAccepts(parts, fetch.fails, sink.rejects, m);
  }

  /** Streams a file's range in piece order. It succeeds exactly when every wait and write does; then the parts
      written are the range's, and each marked piece was waited for once, in order, and freed before the next. */
  method ProxyOrdered(file: FileInfo, piecesMap: map<nat, bool>, fetch: PreFetcher, sink: Sink, pieceSize: nat,
                      from: nat, to: nat, ghost bytes: seq<byte>, ghost offs: Offsets, ghost parts: Script,
                      ghost a: nat, ghost b: nat)
    returns (ok: bool)
    requires LaidOut(file, pieceSize, fetch.bag, bytes, offs) && from <= to < |bytes| && file.toPiece <= |fetch.bag|
    requires parts == RangeParts(bytes, offs, from, to)
    requires a == file.fromPiece + Lo(offs, from) && b == file.fromPiece + Hi(offs, to)
    requires HoldsRun(piecesMap, a, b, file.toPiece + 1) && fetch.log == [] && sink.calls == []
    modifies fetch`log, sink`calls
    ensures ok <==> Smooth(parts, fetch.fails, sink.rejects, |parts|)
    ensures WritesFirst(parts, sink.calls, |sink.calls|) && (ok ==> |sink.calls| == |parts|)
    ensures sink.calls != [] ==> AllAccepted(parts, sink.rejects, |sink.calls| - 1)
    ensures InTurn(fetch.log, ok, a, |parts|)
  {
    RangePartsShape(bytes, offs, from, to);
    var current: Option<seq<byte>>, currentId: nat := None, 0;
    var toOff, wasFirst := 0, false;
    var piece := file.fromPiece;
    while piece <= file.toPiece
      invariant file.fromPiece <= piece <= file.toPiece + 1 && toOff == offs[piece - file.fromPiece]
      invariant Underway(parts, fetch, sink, a, b, piece, current, currentId, wasFirst)
    {
      NextPiece(piecesMap, a, b, file.toPiece + 1, piece);
      var size := SizeOf(file, pieceSize, piece, fetch.bag, bytes, offs);
      toOff := toOff + size;
      if piece in piecesMap {
        var next := StreamMarked(file, piece, toOff, wasFirst, from, to, fetch, sink, currentId, current,
                                 pieceSize, bytes, offs, a, b, parts);
        if next == None {
          return false;
        }
        current, currentId, wasFirst := next, piece, true;
      }
      piece := piece + 1;
    }
    FreeHeld(fetch, currentId, current, a, |parts|);
    SmoothAccepts(parts, fetch.fails, sink.rejects, |parts|);
    ok := true;
  }

  // ---------------------------------------------------------------- the response

  datatype Response = Response(
    status: nat, contentLength: int, lengthHeader: Option<nat>, contentRange: Option<(nat, nat, nat)>)

  /** The last position of a file; an empty one is taken to have position 0. */
  function LastIndex(size: nat): nat {
    if size > 0 then size - 1 else size
  }

  /** Response code and headers. */
  function Respond(header: string, size: nat): (r: Response)
    requires size < TWO_64
  {
    match ParseRange(header, LastIndex(size))
    case Err(_) => Response(416, 0, None, None)
    case Ok(range) =>
      SuccessInBounds(header, LastIndex(size));
      var length := SubUint64(range.to + 1, range.from);
      if range.hasRange then Response(206, AsInt64(length), Some(length), Some((range.from, range.to, size)))
      else Response(200, AsInt64(length), Some(size), None)
  }

  /** The response for a range of a file: 206 with its bounds, or 200 for a request that asked for none. */
  predicate Answers(resp: Response, range: ByteRange, size: nat) {
    && range.from <= range.to < size && Announces(resp, range.to + 1 - range.from)
    && resp.status == (if range.hasRange then 206 else 200)
    && resp.contentRange == (if range.hasRange then Some((range.from, range.to, size)) else None)
  }

  /** The headers give a body of n bytes its length; ContentLength does when int64 holds it, and wraps otherwise. */
  predicate Announces(resp: Response, n: nat) {
    && resp.lengthHeader == Some(n)
    && -TWO_63 <= resp.contentLength < TWO_63 && (resp.contentLength == n || resp.contentLength == n - TWO_64)
  }

  /** The body goroutine: the range streamed, then Finish, or Close when that failed. */
  method StreamBody(file: FileInfo, piecesMap: map<nat, bool>, fetch: PreFetcher, sink: Sink, pieceSize: nat,
                    from: nat, to: nat, ghost bytes: seq<byte>, ghost offs: Offsets, ghost parts: Script,
                    ghost a: nat, ghost b: nat)
    requires LaidOut(file, pieceSize, fetch.bag, bytes, offs) && from <= to < |bytes| && file.toPiece <= |fetch.bag|
    requires parts == RangeParts(bytes, offs, from, to)
    requires a == file.fromPiece + Lo(offs, from) && b == file.fromPiece + Hi(offs, to)
    requires HoldsRun(piecesMap, a, b, file.toPiece + 1) && fetch.log == [] && sink.calls == []
    modifies fetch`log, sink`calls
    ensures Produces(parts, sink.calls, sink.rejects)
    ensures Finished(sink.calls) <==> Smooth(parts, fetch.fails, sink.rejects, |parts|)
    ensures InTurn(fetch.log, Finished(sink.calls), a, |parts|)
  {
    var ok := ProxyOrdered(file, piecesMap, fetch, sink, pieceSize, from, to, bytes, offs, parts, a, b);
    if !ok {
      sink.Close();
      return;
    }
    sink.Finish();
  }

  /** The parts a response for bytes from..to streams. */
  function BodyParts(file: FileInfo, pieceSize: nat, bag: Bag, from: nat, to: nat): (parts: Script)
    requires ValidFile(file, pieceSize, bag) && from <= to < file.size
  {
    LayOut(file, pieceSize, bag);
    WholeFile(file, pieceSize, bag);
    RangeParts(FileBytes(file, pieceSize, bag), Offs(file, pieceSize), from, to)
  }

  /** The first piece that a range from there on needs. */
  function FirstPiece(file: FileInfo, pieceSize: nat, from: nat): nat
    requires Sizes(file, pieceSize) && file.fromPiece <= file.toPiece
  {
    var offs := Offs(file, pieceSize);
    if from < offs[|offs| - 1] then file.fromPiece + Lo(offs, from) else file.toPiece
  }

  /** Selection, then the body goroutine. */
  method ServeRange(file: FileInfo, pieceSize: nat, fetch: PreFetcher, sink: Sink, from: nat, to: nat,
                    ghost bytes: seq<byte>, ghost offs: Offsets)
    requires LaidOut(file, pieceSize, fetch.bag, bytes, offs) && from <= to < |bytes| && file.toPiece <= |fetch.bag|
    requires fetch.log == [] && sink.calls == []
    modifies fetch`log, sink`calls
    ensures var parts := RangeParts(bytes, offs, from, to);
            && Produces(parts, sink.calls, sink.rejects)
            && (Finished(sink.calls) <==> Smooth(parts, fetch.fails, sink.rejects, |parts|))
            && InTurn(fetch.log, Finished(sink.calls), file.fromPiece + Lo(offs, from), |parts|)
    ensures EofMeans(sink.calls, sink.rejects, bytes[from..to + 1])
  {
    var pieces := new byte[|fetch.bag|](_ => 0);
    var piecesMap := SelectPieces(file, pieceSize, from, to, pieces, fetch.bag, bytes, offs);
    StreamBody(file, piecesMap, fetch, sink, pieceSize, from, to, bytes, offs, RangeParts(bytes, offs, from, to),
               file.fromPiece + Lo(offs, from), file.fromPiece + Hi(offs, to));
    ProducedEofMeans(RangeParts(bytes, offs, from, to), sink.calls, sink.rejects);
    PartsAreRange(bytes, offs, from, to);
  }

  /** What the body goroutine for bytes from..to has done: it finishes exactly when every wait and write went well,
      it takes the marked pieces one by one, and whoever reads to EOF has those bytes of the file. */
  ghost predicate Streamed(file: FileInfo, pieceSize: nat, bag: Bag, from: nat, to: nat, fails: nat -> bool,
                           rejects: nat -> bool, log: seq<FetchOp>, calls: seq<Op>)
    requires ValidFile(file, pieceSize, bag) && from <= to < file.size
  {
    var parts, bytes := BodyParts(file, pieceSize, bag, from, to), FileBytes(file, pieceSize, bag);
    && Produces(parts, calls, rejects)
    && (Finished(calls) <==> Smooth(parts, fails, rejects, |parts|))
    && InTurn(log, Finished(calls), FirstPiece(file, pieceSize, from), |parts|)
    && to < |bytes| && EofMeans(calls, rejects, bytes[from..to + 1])
  }

  method StreamFile(file: FileInfo, pieceSize: nat, fetch: PreFetcher, sink: Sink, from: nat, to: nat)
    requires ValidFile(file, pieceSize, fetch.bag) && from <= to < file.size && fetch.log == [] && sink.calls == []
    modifies fetch`log, sink`calls
    ensures Streamed(file, pieceSize, fetch.bag, from, to, fetch.fails, sink.rejects, fetch.log, sink.calls)
  {
    LayOut(file, pieceSize, fetch.bag);
    WholeFile(file, pieceSize, fetch.bag);
    ServeRange(file, pieceSize, fetch, sink, from, to, FileBytes(file, pieceSize, fetch.bag), Offs(file, pieceSize));
  }

  /** A request for a file of a bag. A refused range touches nothing; an accepted one is streamed, and of an empty
      file that is nothing. */
  method DoTorrent(header: string, file: FileInfo, pieceSize: nat, fetch: PreFetcher, sink: Sink)
    returns (resp: Response)
    requires ValidFile(file, pieceSize, fetch.bag) || EmptyFile(file, fetch.bag)
    requires fetch.log == [] && sink.calls == []
    modifies fetch`log, sink`calls
    ensures resp == Respond(header, file.size)
    ensures resp.status == 416 ==> fetch.log == [] && sink.calls == []
    ensures resp.status != 416 && file.size > 0 ==>
              var range := RangeOf(header, file.size);
              && Answers(resp, range, file.size)
              && Streamed(file, pieceSize, fetch.bag, range.from, range.to, fetch.fails, sink.rejects, fetch.log,
                          sink.calls)
    ensures resp.status != 416 && file.size == 0 ==>
              fetch.log == [] && Finished(sink.calls) && EofMeans(sink.calls, sink.rejects, [])
  {
    resp := Respond(header, file.size);
    if resp.status != 416 {
      var range := RangeOf(header, file.size);
      if file.fromPiece != file.toPiece || file.fromOffset != file.toOffset {
        RespondRange(header, file.size);
        StreamFile(file, pieceSize, fetch, sink, range.from, range.to);
      } else {
        EmptyHasNoSize(file, pieceSize, fetch.bag);
        sink.Finish();
        ProducedEofMeans([], sink.calls, sink.rejects);
      }
    }
  }

  lemma EmptyHasNoSize(file: FileInfo, pieceSize: nat, bag: Bag)
    requires ValidFile(file, pieceSize, bag) || EmptyFile(file, bag)
    requires file.fromPiece == file.toPiece && file.fromOffset == file.toOffset
    ensures file.size == 0
  {
  }

  /** The range an accepted header asks for. */
  function RangeOf(header: string, size: nat): ByteRange
    requires size < TWO_64 && Respond(header, size).status != 416
  {
    ParseRange(header, LastIndex(size)).value
  }

  lemma RespondRange(header: string, size: nat)
    requires 1 <= size < TWO_64 && Respond(header, size).status != 416
    ensures Answers(Respond(header, size), RangeOf(header, size), size)
  {
    SuccessInBounds(header, LastIndex(size));
  }

  /** The range a request is for is the one it is answered with. */
  lemma RespondTo(header: string, size: nat, range: ByteRange)
    requires size < TWO_64
    ensures IsFor(header, LastIndex(size), range) <==>
            Respond(header, size).status != 416 && RangeOf(header, size) == range
  {
    var max := LastIndex(size);
    RefusedIfErr(header, size, ParseRange(header, max));
    ParsedIffFor(header, max, range);
  }

  /** It is refused exactly when it asks for a range and names none. */
  lemma Refused(header: string, size: nat)
    requires size < TWO_64
    ensures Respond(header, size).status == 416 <==> AsksForRange(header) && NamesNone(header, LastIndex(size))
    ensures Respond(header, size).status == 416 ==> Respond(header, size) == Response(416, 0, None, None)
  {
    var max := LastIndex(size);
    RefusedIfErr(header, size, ParseRange(header, max));
    AcceptedOrRefused(header, max);
  }

  lemma RefusedIfErr(header: string, size: nat, parsed: Result<ByteRange, RangeError>)
    requires size < TWO_64 && parsed == ParseRange(header, LastIndex(size))
    ensures Respond(header, size).status == 416 <==> parsed.Err?
    ensures parsed.Err? ==> Respond(header, size) == Response(416, 0, None, None)
  {
  }

  /** An empty file is announced with one byte that it has not, unless the request asked for no range: then only
      ContentLength is wrong. */
  lemma EmptyAnnounced(header: string)
    requires Respond(header, 0).status != 416
    ensures Respond(header, 0) == if AsksForRange(header) then Response(206, 1, Some(1), Some((0, 0, 0)))
                                  else Response(200, 1, Some(0), None)
  {
    RespondsEmpty(header, ParseRange(header, 0));
    AcceptedOrRefused(header, 0);
  }

  lemma RespondsEmpty(header: string, parsed: Result<ByteRange, RangeError>)
    requires parsed == ParseRange(header, 0) && parsed.Ok?
    ensures Respond(header, 0) == if parsed.value.hasRange then Response(206, 1, Some(1), Some((0, 0, 0)))
                                  else Response(200, 1, Some(0), None)
    ensures parsed.value.from == parsed.value.to == 0
  {
    SuccessInBounds(header, 0);
  }

  /** The lengths announced are those of the body, empty for an empty file: the header exactly when the file has bytes
      or no range is asked for, ContentLength exactly when it has and int64 holds the number. */
  lemma LengthsAnnounced(header: string, size: nat)
    requires size < TWO_64 && Respond(header, size).status != 416
    ensures var resp, range := Respond(header, size), RangeOf(header, size);
            var n := if size > 0 then range.to + 1 - range.from else 0;
            && (resp.lengthHeader == Some(n) <==> size > 0 || !AsksForRange(header))
            && (resp.contentLength == n <==> size > 0 && n < TWO_63)
  {
    if size > 0 { RespondRange(header, size); } else { EmptyAnnounced(header); }
  }

  lemma PartsAreBody(file: FileInfo, pieceSize: nat, bag: Bag, from: nat, to: nat)
    requires ValidFile(file, pieceSize, bag) && from <= to < file.size
    ensures to < |FileBytes(file, pieceSize, bag)|
    ensures var body := Concat(BodyParts(file, pieceSize, bag, from, to));
            body == FileBytes(file, pieceSize, bag)[from..to + 1] && |body| == to + 1 - from
  {
    LayOut(file, pieceSize, bag);
    WholeFile(file, pieceSize, bag);
    PartsAreRange(FileBytes(file, pieceSize, bag), Offs(file, pieceSize), from, to);
  }

  /** What a response for this range streams is that stretch of the file, as long as the response's headers say. */
  ghost predicate Serves(file: FileInfo, pieceSize: nat, bag: Bag, range: ByteRange, resp: Response)
    requires ValidFile(file, pieceSize, bag)
  {
    && range.from <= range.to < file.size == |FileBytes(file, pieceSize, bag)|
    && var body := Concat(BodyParts(file, pieceSize, bag, range.from, range.to));
       body == FileBytes(file, pieceSize, bag)[range.from..range.to + 1] && Announces(resp, |body|)
  }

  /** What a response streams is the requested stretch of the file, as long as its headers say. */
  lemma BodyIsRange(header: string, file: FileInfo, pieceSize: nat, bag: Bag)
    requires ValidFile(file, pieceSize, bag) && Respond(header, file.size).status != 416
    ensures Serves(file, pieceSize, bag, RangeOf(header, file.size), Respond(header, file.size))
  {
    RespondRange(header, file.size);
    BodyOfRange(file, pieceSize, bag, RangeOf(header, file.size), Respond(header, file.size));
  }

  lemma BodyOfRange(file: FileInfo, pieceSize: nat, bag: Bag, range: ByteRange, resp: Response)
    requires ValidFile(file, pieceSize, bag) && range.from <= range.to < file.size
    requires Answers(resp, range, file.size)
    ensures Serves(file, pieceSize, bag, range, resp)
  {
    WholeFile(file, pieceSize, bag);
    PartsAreBody(file, pieceSize, bag, range.from, range.to);
  }

  /** A truncated body never looks complete: however the body goroutine and the readers interleave, a reader
      that sees EOF has been given the whole range; so with any calls that produce the range's parts. */
  lemma EofMeansWholeRange(file: FileInfo, pieceSize: nat, bag: Bag, from: nat, to: nat, threads: set<Thread>,
                           schedule: FeedSchedule)
    requires ValidFile(file, pieceSize, bag) && from <= to < file.size
    ensures to < |FileBytes(file, pieceSize, bag)|
    ensures var run := FeedExec(BodyParts(file, pieceSize, bag, from, to), FeedStart(threads), schedule);
            run.Some? ==>
              var f := run.value;
              forall t :: t in f.sys.pcs && f.sys.pcs[t].Done? && f.sys.pcs[t].res.ReadEof? ==>
                f.phase.Finishing? && f.sys.pipe.delivered == FileBytes(file, pieceSize, bag)[from..to + 1]
    ensures forall calls: seq<Op>, rejects: nat -> bool ::
              Produces(BodyParts(file, pieceSize, bag, from, to), calls, rejects) ==>
              EofMeans(calls, rejects, FileBytes(file, pieceSize, bag)[from..to + 1])
  {
    var parts := BodyParts(file, pieceSize, bag, from, to);
    PartsAreBody(file, pieceSize, bag, from, to);
    if FeedExec(parts, FeedStart(threads), schedule).Some? { EofMeansWholeScript(parts, threads, schedule); }
    forall calls: seq<Op>, rejects: nat -> bool | Produces(parts, calls, rejects)
      ensures EofMeans(calls, rejects, Concat(parts))
    {
      ProducedEofMeans(parts, calls, rejects);
    }
  }
}
