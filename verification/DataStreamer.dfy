/** The streamer's memory (proxy/transport/stream.go): the slices it holds and the copies it makes. Each
    method runs one call from its start, or from where it had to wait, until it returns or has to wait
    for another thread; Pipe.dfy has the interleavings. Where select may take either case, so may these. The ghost
    parameters show each to be a run of the machine in Pipe in which only its own thread steps. */
module DataStreamer {
  import opened GoTypes
  import opened Pipe
  import opened PayloadHandler

  datatype WriteEnd = Wrote | ErrClosedPipe | WriteWaits

  datatype ReadEnd = Full | Eof | UnexpectedEof | ReadWaits

  // ---------------------------------------------------------------- the same calls in the machine

  /** Where a thread is after Write. */
  function PcAfterWrite(end: WriteEnd, data: seq<byte>): Pc {
    match end
    case Wrote => Done(Outcome.Wrote)
    case ErrClosedPipe => Done(ClosedPipe)
    case WriteWaits => InWrite(WSelect(data))
  }

  /** Where a thread is in Read when it gives the lock back, or has to wait. */
  function PcAfterRead(end: ReadEnd, size: nat, got: seq<byte>): Pc {
    match end
    case Full => InRead(RUnlock(size, ReadOk(got)))
    case Eof => InRead(RUnlock(size, ReadEof(got)))
    case UnexpectedEof => InRead(RUnlock(size, ReadUnexpected(got)))
    case ReadWaits => InRead(RSelect(size, got))
  }

  lemma WriteAlone(d: Streamer, t: Thread, data: seq<byte>, end: WriteEnd) returns (e: Streamer)
    requires d.writerLock == None && d.finished == d.partsClosed && d.closed == d.closerClosed
    requires match end
             case Wrote => data == [] || (!d.finished && d.slot == None)
             case ErrClosedPipe => data != [] && (d.finished || d.closed)
             case WriteWaits => data != [] && !d.finished && !d.closed && d.slot.Some?
    ensures Alone(d, t, Pc.Idle, e, PcAfterWrite(end, data))
    ensures e == match end
                 case Wrote => if data == [] then d else d.(slot := Some(data), accepted := d.accepted + data)
                 case ErrClosedPipe => d
                 case WriteWaits => d.(writerLock := Some(t))
    ensures end.WriteWaits? ==> Waits(e, t, PcAfterWrite(end, data))
  {
    StandsStill(d, t, Pc.Idle);
    e := d;
    StepsOn(d, t, Pc.Idle, d, Pc.Idle, Start(Op.Write(data)), d, Entry(Op.Write(data)));
    if data != [] {
      var held := d.(writerLock := Some(t));
      StepsOn(d, t, Pc.Idle, d, InWrite(WLock(data)), Proceed, held, InWrite(WCheck(data)));
      var checked := InWrite(if d.finished then WUnlock(ClosedPipe) else WSelect(data));
      StepsOn(d, t, Pc.Idle, held, InWrite(WCheck(data)), Proceed, held, checked);
      e := SelectAlone(d, t, data, end, held, checked);
    }
  }

  lemma SelectAlone(d: Streamer, t: Thread, data: seq<byte>, end: WriteEnd, held: Streamer, checked: Pc)
    returns (e: Streamer)
    requires Alone(d, t, Pc.Idle, held, checked) && held == d.(writerLock := Some(t)) && data != []
    requires d.writerLock == None && d.finished == d.partsClosed && d.closed == d.closerClosed
    requires checked == InWrite(if d.finished then WUnlock(ClosedPipe) else WSelect(data))
    requires match end
             case Wrote => !d.finished && d.slot == None
             case ErrClosedPipe => d.finished || d.closed
             case WriteWaits => !d.finished && !d.closed && d.slot.Some?
    ensures Alone(d, t, Pc.Idle, e, PcAfterWrite(end, data))
    ensures e == match end
                 case Wrote => d.(slot := Some(data), accepted := d.accepted + data)
                 case ErrClosedPipe => d
                 case WriteWaits => held
    ensures end.WriteWaits? ==> Waits(e, t, PcAfterWrite(end, data))
  {
    match end
    case WriteWaits => e := held;
    case Wrote =>
      var sent := held.(slot := Some(data), accepted := d.accepted + data);
      StepsOn(d, t, Pc.Idle, held, checked, Proceed, sent, InWrite(WUnlock(Outcome.Wrote)));
      e := sent.(writerLock := None);
      StepsOn(d, t, Pc.Idle, sent, InWrite(WUnlock(Outcome.Wrote)), Proceed, e, Done(Outcome.Wrote));
    case ErrClosedPipe =>
      if !d.finished { StepsOn(d, t, Pc.Idle, held, checked, TakeCloser, held, InWrite(WUnlock(ClosedPipe))); }
      e := d;
      StepsOn(d, t, Pc.Idle, held, InWrite(WUnlock(ClosedPipe)), Proceed, e, Done(ClosedPipe));
  }

  lemma FinishAlone(d: Streamer, t: Thread) returns (e: Streamer)
    requires d.writerLock == None && d.finished == d.partsClosed
    ensures Alone(d, t, Pc.Idle, e, Done(Returned)) && e == d.(finished := true, partsClosed := true)
  {
    var held := d.(writerLock := Some(t));
    StandsStill(d, t, Pc.Idle);
    StepsOn(d, t, Pc.Idle, d, Pc.Idle, Start(Op.Finish), d, InFinish(FLock));
    StepsOn(d, t, Pc.Idle, d, InFinish(FLock), Proceed, held, InFinish(FCheck));
    if d.finished {
      StepsOn(d, t, Pc.Idle, held, InFinish(FCheck), Proceed, held, InFinish(FUnlock));
    } else {
      var ending := held.(finished := true);
      StepsOn(d, t, Pc.Idle, held, InFinish(FCheck), Proceed, ending, InFinish(FClose));
      held := ending.(partsClosed := true);
      StepsOn(d, t, Pc.Idle, ending, InFinish(FClose), Proceed, held, InFinish(FUnlock));
    }
    e := held.(writerLock := None);
    StepsOn(d, t, Pc.Idle, held, InFinish(FUnlock), Proceed, e, Done(Returned));
  }

  lemma CloseAlone(d: Streamer, t: Thread) returns (e: Streamer)
    requires d.closerLock == None && d.closed == d.closerClosed
    ensures Alone(d, t, Pc.Idle, e, Done(Returned)) && e == d.(closed := true, closerClosed := true)
  {
    var held := d.(closerLock := Some(t));
    StandsStill(d, t, Pc.Idle);
    StepsOn(d, t, Pc.Idle, d, Pc.Idle, Start(Op.Close), d, InClose(CLock));
    StepsOn(d, t, Pc.Idle, d, InClose(CLock), Proceed, held, InClose(CCheck));
    if d.closed {
      StepsOn(d, t, Pc.Idle, held, InClose(CCheck), Proceed, held, InClose(CUnlock));
    } else {
      var ending := held.(closed := true);
      StepsOn(d, t, Pc.Idle, held, InClose(CCheck), Proceed, ending, InClose(CClose));
      held := ending.(closerClosed := true);
      StepsOn(d, t, Pc.Idle, ending, InClose(CClose), Proceed, held, InClose(CUnlock));
    }
    e := held.(closerLock := None);
    StepsOn(d, t, Pc.Idle, held, InClose(CUnlock), Proceed, e, Done(Returned));
  }

  /** Where a call began. */
  datatype Origin = Origin(d: Streamer, t: Thread, pc: Pc)

  ghost predicate GetsTo(o: Origin, e: Streamer, pc: Pc) {
    Alone(o.d, o.t, o.pc, e, pc)
  }

  /** Read up to the top of its loop. */
  lemma ReadBegins(d: Streamer, t: Thread, size: nat) returns (e: Streamer)
    requires d.readerLock == None
    ensures GetsTo(Origin(d, t, Pc.Idle), e, InRead(RTop(size, []))) && e == d.(readerLock := Some(t))
  {
    e := d.(readerLock := Some(t));
    StandsStill(d, t, Pc.Idle);
    StepsOn(d, t, Pc.Idle, d, Pc.Idle, Start(Op.Read(size)), d, InRead(RLock(size)));
    StepsOn(d, t, Pc.Idle, d, InRead(RLock(size)), Proceed, e, InRead(RTop(size, [])));
  }

  /** Read gives the lock back. */
  lemma ReadReturns(o: Origin, d: Streamer, size: nat, res: Outcome) returns (e: Streamer)
    requires GetsTo(o, d, InRead(RUnlock(size, res)))
    ensures GetsTo(o, e, Done(res)) && e == d.(readerLock := None)
  {
    e := d.(readerLock := None);
    StepsOn(o.d, o.t, o.pc, d, InRead(RUnlock(size, res)), Proceed, e, Done(res));
  }

  /** The select of Read. */
  lemma TakesPart(o: Origin, d: Streamer, size: nat, got: seq<byte>, end: ReadEnd) returns (e: Streamer)
    requires GetsTo(o, d, InRead(RSelect(size, got))) && d.buf == []
    requires d.finished == d.partsClosed && d.closed == d.closerClosed
    requires match end
             case Full => d.slot.Some?
             case Eof => d.finished && d.slot == None
             case UnexpectedEof => d.closed
             case ReadWaits => !d.finished && !d.closed && d.slot == None
    ensures GetsTo(o, e, if end.Full? then InRead(RCopy(size, got)) else PcAfterRead(end, size, got))
    ensures e == if end.Full? then d.(buf := d.slot.value, slot := None) else d
    ensures end.ReadWaits? ==> Waits(e, o.t, PcAfterRead(end, size, got))
  {
    e := d;
    match end
    case Full =>
      e := d.(buf := d.slot.value, slot := None);
      StepsOn(o.d, o.t, o.pc, d, InRead(RSelect(size, got)), Proceed, e, InRead(RCopy(size, got)));
    case Eof =>
      StepsOn(o.d, o.t, o.pc, d, InRead(RSelect(size, got)), Proceed, d, InRead(RNil(size, got)));
      StepsOn(o.d, o.t, o.pc, d, InRead(RNil(size, got)), Proceed, d, InRead(RUnlock(size, ReadEof(got))));
    case UnexpectedEof =>
      StepsOn(o.d, o.t, o.pc, d, InRead(RSelect(size, got)), TakeCloser, d, InRead(RUnlock(size, ReadUnexpected(got))));
    case ReadWaits =>
  }

  /** From the top of the loop to the select, or to what follows it. */
  lemma LooksAtBuf(o: Origin, d: Streamer, size: nat, got: seq<byte>)
    requires GetsTo(o, d, InRead(RTop(size, got)))
    ensures GetsTo(o, d, InRead(if d.buf == [] then RSelect(size, got) else RCopy(size, got)))
  {
    StepsOn(o.d, o.t, o.pc, d, InRead(RTop(size, got)), Proceed, d,
            InRead(if d.buf == [] then RSelect(size, got) else RCopy(size, got)));
  }

  lemma IsFull(o: Origin, d: Streamer, size: nat, got: seq<byte>)
    requires GetsTo(o, d, InRead(RCopy(size, got))) && |got| == size
    ensures GetsTo(o, d, PcAfterRead(Full, size, got))
  {
    StepsOn(o.d, o.t, o.pc, d, InRead(RCopy(size, got)), Proceed, d, InRead(RUnlock(size, ReadOk(got))));
  }

  lemma Copies(o: Origin, d: Streamer, size: nat, got: seq<byte>, copied: nat) returns (e: Streamer)
    requires GetsTo(o, d, InRead(RCopy(size, got))) && |got| < size && copied == Min(size - |got|, |d.buf|)
    ensures GetsTo(o, e, InRead(RTop(size, got + d.buf[..copied])))
    ensures e == d.(buf := d.buf[copied..], delivered := d.delivered + d.buf[..copied])
  {
    e := d.(buf := d.buf[copied..], delivered := d.delivered + d.buf[..copied]);
    StepsOn(o.d, o.t, o.pc, d, InRead(RCopy(size, got)), Proceed, e, InRead(RTop(size, got + d.buf[..copied])));
  }

  // ---------------------------------------------------------------- the streamer

  class DataStreamer {
    // buf is the slice bufArray[lo..hi]; part is what the parts channel holds
    var bufArray: array?<byte>
    var lo: nat
    var hi: nat
    var part: array?<byte>
    var finished: bool
    var closed: bool

    ghost predicate Valid()
      reads this
    {
      && (if bufArray == null then lo == hi else lo <= hi <= bufArray.Length)
      && (part != null ==> part.Length > 0)
    }

    /** The slices the streamer holds; no caller's slice is ever among them. */
    ghost function Held(): set<array?<byte>>
      reads this
    {
      {bufArray, part} - {null}
    }

    ghost function Buf(): seq<byte>
      requires Valid()
      reads this, bufArray
    {
      if bufArray == null then [] else bufArray[lo..hi]
    }

    /** The bytes accepted and not yet delivered. */
    ghost function Pending(): seq<byte>
      requires Valid()
      reads this, bufArray, part
    {
      Buf() + InChannel()
    }

    ghost function InChannel(): seq<byte>
      reads this, part
    {
      if part == null then [] else part[..]
    }

    /** The machine's streamer has the same contents and flags; a flag and its channel have been set together. */
    ghost predicate Shows(d: Streamer)
      requires Valid()
      reads this, bufArray, part
    {
      && d.buf == Buf() && d.slot == (if part == null then None else Some(part[..]))
      && d.finished == finished && d.partsClosed == finished && d.closed == closed && d.closerClosed == closed
    }

    constructor ()
      ensures Valid() && Pending() == [] && Held() == {} && !finished && !closed && Shows(NEW)
    {
      bufArray, lo, hi, part, finished, closed := null, 0, 0, null, false, false;
    }

    method Write(data: array<byte>, ghost d: Streamer, ghost t: Thread) returns (end: WriteEnd, ghost e: Streamer)
      requires Valid() && data !in Held() && Shows(d) && d.writerLock == None
      modifies this`part
      ensures Valid() && fresh(Held() - old(Held()))
      ensures Pending() == old(Pending()) + (if end.Wrote? then data[..] else [])
      ensures end.WriteWaits? <==> data.Length > 0 && !finished && !closed && old(part) != null
      ensures end.ErrClosedPipe? ==> data.Length > 0 && (finished || closed)
      ensures end.Wrote? ==> data.Length == 0 || (!finished && old(part) == null)
      ensures Shows(e) && Alone(d, t, Pc.Idle, e, PcAfterWrite(end, data[..]))
      ensures end.WriteWaits? ==> Waits(e, t, PcAfterWrite(end, data[..]))
    {
      if data.Length == 0 {
        end := WriteEnd.Wrote;
        e := WriteAlone(d, t, data[..], end);
        return;
      }
      if finished {
        end := ErrClosedPipe;
        e := WriteAlone(d, t, data[..], end);
        return;
      }
      var tmp := Copied(data);
      if part == null && !closed {
        end := WriteEnd.Wrote;
      } else if part == null {
        if * { end := WriteEnd.Wrote; } else { end := ErrClosedPipe; }
      } else {
        end := if closed then ErrClosedPipe else WriteWaits;
      }
      e := WriteAlone(d, t, data[..], end);
      if end == WriteEnd.Wrote {
        part := tmp;
      }
    }

    static method Copied(data: array<byte>) returns (tmp: array<byte>)
      ensures fresh(tmp) && tmp[..] == data[..]
    {
      tmp := new byte[data.Length];
      forall i | 0 <= i < data.Length { tmp[i] := data[i]; }
      assert tmp[..] == data[..];
    }

    method Finish(ghost d: Streamer, ghost t: Thread) returns (ghost e: Streamer)
      requires Valid() && Shows(d) && d.writerLock == None
      modifies this`finished
      ensures Valid() && finished && Pending() == old(Pending())
      ensures Shows(e) && Alone(d, t, Pc.Idle, e, Done(Returned))
    {
      e := FinishAlone(d, t);
      finished := true;
    }

    method Close(ghost d: Streamer, ghost t: Thread) returns (ghost e: Streamer)
      requires Valid() && Shows(d) && d.closerLock == None
      modifies this`closed
      ensures Valid() && closed && Pending() == old(Pending())
      ensures Shows(e) && Alone(d, t, Pc.Idle, e, Done(Returned))
    {
      e := CloseAlone(d, t);
      closed := true;
    }

    /** select of Read: the next part becomes the buffer, unless the call ends or waits here. */
    method NextPart(ghost o: Origin, ghost d: Streamer, ghost size: nat, ghost got: seq<byte>)
      returns (end: ReadEnd, ghost e: Streamer)
      requires Valid() && Buf() == [] && Shows(d) && GetsTo(o, d, InRead(RSelect(size, got)))
      modifies this`bufArray, this`lo, this`hi, this`part
      ensures Valid() && Held() <= old(Held()) && Pending() == old(Pending())
      ensures end.Full? ==> Buf() != [] && part == null
      ensures end.Eof? ==> finished && Pending() == []
      ensures end.UnexpectedEof? ==> closed && Buf() == []
      ensures end.ReadWaits? <==> !finished && !closed && old(part) == null
      ensures Shows(e) && GetsTo(o, e, if end.Full? then InRead(RCopy(size, got)) else PcAfterRead(end, size, got))
      ensures end.ReadWaits? ==> Waits(e, o.t, PcAfterRead(end, size, got))
    {
      var takeCloser := closed && part == null && !finished;
      if closed && !takeCloser {
        if * { takeCloser := true; }
      }
      end := if takeCloser then UnexpectedEof else if part != null then Full else if finished then Eof else ReadWaits;
      e := TakesPart(o, d, size, got, end);
      if end == Full {
        bufArray, lo, hi, part := part, 0, part.Length, null;
      } else if end == Eof {
        bufArray, lo, hi := null, 0, 0;
      }
    }

    /** The head of the loop: an empty buffer takes the next part. */
    method FillBuf(ghost o: Origin, ghost d: Streamer, ghost size: nat, ghost got: seq<byte>)
      returns (end: ReadEnd, ghost e: Streamer)
      requires Valid() && Shows(d) && AtLoop(o, d, size, got)
      modifies this`bufArray, this`lo, this`hi, this`part
      ensures Valid() && Held() <= old(Held()) && Pending() == old(Pending())
      ensures end.Full? ==> Buf() != []
      ensures end.Eof? ==> finished && Pending() == []
      ensures end.UnexpectedEof? ==> closed && Buf() == []
      ensures end.ReadWaits? ==> !finished && !closed && Pending() == []
      ensures Shows(e) && GetsTo(o, e, if end.Full? then InRead(RCopy(size, got)) else PcAfterRead(end, size, got))
      ensures end.ReadWaits? ==> Waits(e, o.t, PcAfterRead(end, size, got))
    {
      LeavesTop(o, d, size, got);
      end, e := Full, d;
      if bufArray == null || lo == hi {
        end, e := NextPart(o, d, size, got);
      }
    }

    /** Read, continued with start bytes of p already filled. */
    method Read(p: array<byte>, start: nat, ghost o: Origin, ghost d: Streamer)
      returns (n: nat, end: ReadEnd, ghost e: Streamer)
      requires Valid() && p !in Held() && start <= p.Length && Shows(d)
      requires AtLoop(o, d, p.Length, p[..start])
      modifies p, this`bufArray, this`lo, this`hi, this`part
      ensures Valid() && Held() <= old(Held())
      ensures Moved(old(p[..]), p[..], start, n, old(Pending()), Pending())
      ensures end.Full? ==> n == p.Length && Buf() != []
      ensures end.Eof? ==> finished && Pending() == []
      ensures end.UnexpectedEof? ==> closed && Buf() == []
      ensures end.ReadWaits? ==> !finished && !closed && Pending() == []
      ensures Shows(e) && GetsTo(o, e, PcAfterRead(end, p.Length, p[..n]))
      ensures end.ReadWaits? ==> Waits(e, o.t, PcAfterRead(end, p.Length, p[..n]))
    {
      n, e := start, d;
      ghost var was, all := p[..], Pending();
      while true
        invariant Valid() && Held() <= old(Held()) && n <= p.Length
        invariant Moved(was, p[..], start, n, all, Pending())
        invariant Shows(e) && AtLoop(o, e, p.Length, p[..n])
        decreases |Pending()|
      {
        end, e := FillBuf(o, e, p.Length, p[..n]);
        if end != Full {
          return;
        }
        if n == p.Length {
          IsFull(o, e, p.Length, p[..n]);
          end := Full;
          return;
        }
        ghost var now, left, m := p[..], Pending(), n;
        n, e := Copy(p, n, o, e);
        MovedTwice(was, now, p[..], start, m, n, all, left, Pending());
      }
    }

    /** copy(p[n:], d.buf) and what follows it. */
    method Copy(p: array<byte>, n: nat, ghost o: Origin, ghost d: Streamer) returns (m: nat, ghost e: Streamer)
      requires Valid() && p !in Held() && n < p.Length && Buf() != []
      requires Shows(d) && GetsTo(o, d, InRead(RCopy(p.Length, p[..n])))
      modifies p, this`lo
      ensures Valid() && Held() == old(Held()) && n < m <= p.Length
      ensures Moved(old(p[..]), p[..], n, m, old(Pending()), Pending())
      ensures Shows(e) && GetsTo(o, e, InRead(RTop(p.Length, p[..m])))
    {
      var copied := CopyOut(p, n);
      e := Copies(o, d, p.Length, old(p[..n]), copied);
      assert p[..n + copied] == old(p[..n]) + Buf()[..copied];
      ghost var buf, rest := Buf(), InChannel();
      m := n + copied;
      lo := lo + copied;
      assert Buf() == buf[copied..];
      MovedFirst(old(p[..]), p[..], n, buf, copied, Buf(), rest);
    }

    method CopyOut(p: array<byte>, n: nat) returns (copied: nat)
      requires Valid() && p !in Held() && n < p.Length && Buf() != []
      modifies p
      ensures copied == Min(p.Length - n, |Buf()|) && Buf() == old(Buf()) && InChannel() == old(InChannel())
      ensures p[..] == old(p[..n]) + Buf()[..copied] + old(p[n + copied..])
    {
      copied := if p.Length - n < hi - lo then p.Length - n else hi - lo;
      ghost var was, buf := p[..], Buf();
      forall i | n <= i < n + copied { p[i] := bufArray[lo + i - n]; }
      Overlaid(was, p[..], n, buf, copied);
    }
  }

  /** A reader at the top of its loop, or where it has waited for a part. */
  ghost predicate AtLoop(o: Origin, d: Streamer, size: nat, got: seq<byte>) {
    GetsTo(o, d, InRead(RTop(size, got))) || (d.buf == [] && GetsTo(o, d, InRead(RSelect(size, got))))
  }

  lemma LeavesTop(o: Origin, d: Streamer, size: nat, got: seq<byte>)
    requires AtLoop(o, d, size, got)
    ensures GetsTo(o, d, InRead(if d.buf == [] then RSelect(size, got) else RCopy(size, got)))
  {
    if GetsTo(o, d, InRead(RTop(size, got))) { LooksAtBuf(o, d, size, got); }
  }

  /** Bytes have moved from the head of the pending ones to places n..m of a buffer, and nothing else. */
  predicate Moved(was: seq<byte>, now: seq<byte>, n: nat, m: nat, before: seq<byte>, after: seq<byte>) {
    && n <= m <= |was| == |now|
    && now[..n] == was[..n] && now[m..] == was[m..]
    && before == now[n..m] + after
  }

  lemma Overlaid(was: seq<byte>, now: seq<byte>, n: nat, buf: seq<byte>, k: nat)
    requires |was| == |now| && k <= |buf| && n + k <= |was|
    requires forall i :: 0 <= i < |was| ==> now[i] == if n <= i < n + k then buf[i - n] else was[i]
    ensures now == was[..n] + buf[..k] + was[n + k..]
  {
  }

  lemma MovedTwice(a: seq<byte>, b: seq<byte>, c: seq<byte>, i: nat, j: nat, k: nat,
                   p: seq<byte>, q: seq<byte>, r: seq<byte>)
    requires Moved(a, b, i, j, p, q) && Moved(b, c, j, k, q, r)
    ensures Moved(a, c, i, k, p, r)
  {
    assert c[..i] == c[..j][..i] == a[..i];
    assert b[k..] == b[j..][k - j..] == a[k..];
    assert c[i..j] == c[..j][i..] == b[i..j];
    assert c[i..k] == c[i..j] + c[j..k];
    assert p == c[i..j] + (c[j..k] + r);
  }

  lemma MovedFirst(was: seq<byte>, now: seq<byte>, n: nat, buf: seq<byte>, k: nat, left: seq<byte>, rest: seq<byte>)
    requires k <= |buf| && n + k <= |was| && left == buf[k..]
    requires now == was[..n] + buf[..k] + was[n + k..]
    ensures Moved(was, now, n, n + k, buf + rest, left + rest)
  {
    assert now[n..n + k] == buf[..k];
    assert buf + rest == buf[..k] + (left + rest);
  }

  // ---------------------------------------------------------------- handleGetPart

  class PayloadStream {
    var nextOffset: nat
    const data: DataStreamer

    constructor (data: DataStreamer)
      ensures nextOffset == 0 && this.data == data
    {
      nextOffset, this.data := 0, data;
    }
  }

  /** How a request ends: refused before the stream is touched, in a panic because no buffer has a negative size,
      answered, failed, or still inside Read with some bytes in its buffer. */
  datatype PartEnd =
    | IncorrectOffset | Panicked | Answered(part: Part) | ReadFailed
    | StillReading(buffer: array<byte>, n: nat)

  method HandleGetPart(req: Request, stream: PayloadStream, ghost d: Streamer, ghost t: Thread)
    returns (end: PartEnd, ghost e: Streamer)
    requires stream.data.Valid() && stream.data.Shows(d) && d.readerLock == None
    modifies stream`nextOffset, stream.data`bufArray, stream.data`lo, stream.data`hi, stream.data`part
    ensures stream.data.Valid() && stream.data.Held() <= old(stream.data.Held())
    ensures end.IncorrectOffset? <==> Offset(req) != old(stream.nextOffset)
    ensures end.Panicked? <==> Offset(req) == old(stream.nextOffset) && req.maxChunk < 0
    ensures end.IncorrectOffset? || end.Panicked? ==> unchanged(stream) && unchanged(stream.data)
    ensures end.Answered? ==> AnsweredFrom(end.part, req, old(stream.data.Pending()), stream.data.Pending(),
                                           stream.data.finished)
    ensures stream.nextOffset == old(stream.nextOffset) + (if end.Answered? then |end.part.data| else 0)
    ensures end.ReadFailed? ==> stream.data.closed
    ensures end.StillReading? ==> !stream.data.finished && !stream.data.closed && stream.data.Pending() == []
    ensures stream.data.Shows(e) && InPipe(end, req, d, t, e)
  {
    var offset := Offset(req);
    e := d;
    if offset != stream.nextOffset {
      end := IncorrectOffset;
      return;
    }
    if req.maxChunk < 0 {
      end := Panicked;
      return;
    }
    end, e := ReadPart(req, stream.data, d, t);
    if end.Answered? {
      stream.nextOffset := stream.nextOffset + |end.part.data|;
    }
  }

  /** The read for an accepted request. */
  method ReadPart(req: Request, data: DataStreamer, ghost d: Streamer, ghost t: Thread)
    returns (end: PartEnd, ghost e: Streamer)
    requires data.Valid() && data.Shows(d) && d.readerLock == None && req.maxChunk >= 0
    modifies data`bufArray, data`lo, data`hi, data`part
    ensures data.Valid() && data.Held() <= old(data.Held()) && data.Shows(e)
    ensures end.Answered? || end.ReadFailed? || end.StillReading?
    ensures end.Answered? ==> AnsweredFrom(end.part, req, old(data.Pending()), data.Pending(), data.finished)
    ensures end.ReadFailed? ==> data.closed
    ensures end.StillReading? ==> !data.finished && !data.closed && data.Pending() == []
    ensures InPipe(end, req, d, t, e)
  {
    var buffer := new byte[req.maxChunk];
    ghost var o := Origin(d, t, Pc.Idle);
    ghost var begun := ReadBegins(d, t, req.maxChunk);
    assert buffer[..0] == [];
    var n, outcome, read := data.Read(buffer, 0, o, begun);
    e := read;
    match outcome
    case Full =>
      e := ReadReturns(o, read, req.maxChunk, ReadOk(buffer[..n]));
      end := Answered(Part(buffer[..n], false));
    case Eof =>
      e := ReadReturns(o, read, req.maxChunk, ReadEof(buffer[..n]));
      end := Answered(Part(buffer[..n], true));
    case UnexpectedEof =>
      e := ReadReturns(o, read, req.maxChunk, ReadUnexpected(buffer[..n]));
      end := ReadFailed;
    case ReadWaits => end := StillReading(buffer, n);
  }

  /** The request's Read is one of the machine that has come out this way, or waits. */
  ghost predicate InPipe(end: PartEnd, req: Request, d: Streamer, t: Thread, e: Streamer)
    reads if end.StillReading? then {end.buffer} else {}
  {
    match end
    case Answered(part) =>
      && Alone(d, t, Pc.Idle, e, Done(if part.last then ReadEof(part.data) else ReadOk(part.data)))
      && e.readerLock == None
    case ReadFailed => (exists got :: Alone(d, t, Pc.Idle, e, Done(ReadUnexpected(got)))) && e.readerLock == None
    case StillReading(buffer, n) =>
      && 0 <= req.maxChunk && n <= buffer.Length == req.maxChunk
      && Alone(d, t, Pc.Idle, e, InRead(RSelect(req.maxChunk, buffer[..n])))
    case _ => e == d
  }

  /** The part is the head of the pending bytes: all of them and the stream is finished, or a full chunk
      with bytes left over. */
  predicate AnsweredFrom(part: Part, req: Request, before: seq<byte>, after: seq<byte>, finished: bool) {
    && before == part.data + after
    && |part.data| <= req.maxChunk
    && (part.last ==> finished && after == [])
    && (!part.last ==> |part.data| == req.maxChunk && after != [])
  }

  /** On a stream that holds the rest of its body, the answer is the peer's answer from that body. */
  lemma AnsweredIsPeerAnswer(body: seq<byte>, offset: nat, part: Part, req: Request, before: seq<byte>,
                             after: seq<byte>)
    requires offset <= |body| && before == body[offset..] && Offset(req) == offset
    requires AnsweredFrom(part, req, before, after, true)
    ensures PeerAnswer(body, offset, req) == Some(part) && after == body[offset + |part.data|..]
  {
    assert part.data == before[..|part.data|] == body[offset..offset + |part.data|];
    assert after == before[|part.data|..] == body[offset + |part.data|..];
  }
}
