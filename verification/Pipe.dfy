/** The one-slot pipe (dataStreamer, proxy/transport/stream.go) under any number of threads that
    call Write, Read, Finish and Close. A thread's program counter names the next thing it does:
    one step for each lock taken or given back, channel operation, flag store and channel close.
    A schedule is a sequence of (thread, choice) pairs; every claim holds for all of them. */
module Pipe {
  import opened GoTypes

  type Thread = nat

  datatype Op = Write(data: seq<byte>) | Read(size: nat) | Finish | Close

  datatype Outcome =
    | Wrote
    | ClosedPipe                      // io.ErrClosedPipe
    | ReadOk(out: seq<byte>)          // (n, nil)
    | ReadEof(out: seq<byte>)         // (n, io.EOF)
    | ReadUnexpected(out: seq<byte>)  // (n, io.ErrUnexpectedEOF)
    | Returned                        // Finish and Close

  datatype WritePc = WLock(data: seq<byte>) | WCheck(data: seq<byte>) | WSelect(data: seq<byte>) | WUnlock(res: Outcome)

  datatype FinishPc = FLock | FCheck | FClose | FUnlock

  datatype ClosePc = CLock | CCheck | CClose | CUnlock

  datatype ReadPc =
    | RLock(size: nat)
    | RTop(size: nat, got: seq<byte>)     // top of the loop
    | RSelect(size: nat, got: seq<byte>)  // buf is empty: wait for a part or the closer
    | RNil(size: nat, got: seq<byte>)     // parts delivered nil
    | RCopy(size: nat, got: seq<byte>)    // buf is not empty: return when full, else copy
    | RUnlock(size: nat, res: Outcome)

  datatype Pc =
    | Idle | InWrite(w: WritePc) | InFinish(f: FinishPc) | InClose(c: ClosePc) | InRead(r: ReadPc)
    | Done(res: Outcome)

  datatype Choice = Start(op: Op) | Proceed | TakeCloser

  /** The streamer. slot is the parts channel of capacity one. accepted collects the bytes handed
      over by Write, delivered those copied out by Read; panicked is set by a send on a closed
      channel or a second close. */
  datatype Streamer = Streamer(
    buf: seq<byte>, slot: Option<seq<byte>>,
    finished: bool, partsClosed: bool, closed: bool, closerClosed: bool,
    writerLock: Option<Thread>, readerLock: Option<Thread>, closerLock: Option<Thread>,
    accepted: seq<byte>, delivered: seq<byte>, panicked: bool)

  const NEW: Streamer := Streamer([], None, false, false, false, false, None, None, None, [], [], false)

  datatype State = State(pipe: Streamer, pcs: map<Thread, Pc>)

  function Entry(op: Op): Pc {
    match op
    case Write(data) => if data == [] then Done(Wrote) else InWrite(WLock(data))
    case Read(size) => InRead(RLock(size))
    case Finish => InFinish(FLock)
    case Close => InClose(CLock)
  }

  /** One step of thread t; None when the thread has to wait or the choice does not apply. */
  function ThreadStep(d: Streamer, t: Thread, pc: Pc, choice: Choice): Option<(Streamer, Pc)> {
    match pc
    case Idle => if choice.Start? then Some((d, Entry(choice.op))) else None
    case InWrite(w) => WriteStep(d, t, w, choice)
    case InFinish(f) => if choice.Proceed? then FinishStep(d, t, f) else None
    case InClose(c) => if choice.Proceed? then CloseStep(d, t, c) else None
    case InRead(r) => ReadStep(d, t, r, choice)
    case Done(_) => if choice.Proceed? then Some((d, Idle)) else None
  }

  function WriteStep(d: Streamer, t: Thread, pc: WritePc, choice: Choice): Option<(Streamer, Pc)> {
    match pc
    case WLock(data) =>
      if choice.Proceed? && d.writerLock == None then Some((d.(writerLock := Some(t)), InWrite(WCheck(data)))) else None
    case WCheck(data) =>
      if choice.Proceed? then Some((d, InWrite(if d.finished then WUnlock(ClosedPipe) else WSelect(data)))) else None
    case WSelect(tmp) =>
      if choice.Proceed? && d.partsClosed then
        Some((d.(panicked := true), InWrite(WUnlock(ClosedPipe))))
      else if choice.Proceed? && d.slot == None then
        Some((d.(slot := Some(tmp), accepted := d.accepted + tmp), InWrite(WUnlock(Wrote))))
      else if choice.TakeCloser? && d.closerClosed then
        Some((d, InWrite(WUnlock(ClosedPipe))))
      else None
    case WUnlock(res) =>
      if choice.Proceed? then Some((d.(writerLock := None), Done(res))) else None
  }

  function FinishStep(d: Streamer, t: Thread, pc: FinishPc): Option<(Streamer, Pc)> {
    match pc
    case FLock => if d.writerLock == None then Some((d.(writerLock := Some(t)), InFinish(FCheck))) else None
    case FCheck => Some(if d.finished then (d, InFinish(FUnlock)) else (d.(finished := true), InFinish(FClose)))
    case FClose => Some((if d.partsClosed then d.(panicked := true) else d.(partsClosed := true), InFinish(FUnlock)))
    case FUnlock => Some((d.(writerLock := None), Done(Returned)))
  }

  function CloseStep(d: Streamer, t: Thread, pc: ClosePc): Option<(Streamer, Pc)> {
    match pc
    case CLock => if d.closerLock == None then Some((d.(closerLock := Some(t)), InClose(CCheck))) else None
    case CCheck => Some(if d.closed then (d, InClose(CUnlock)) else (d.(closed := true), InClose(CClose)))
    case CClose => Some((if d.closerClosed then d.(panicked := true) else d.(closerClosed := true), InClose(CUnlock)))
    case CUnlock => Some((d.(closerLock := None), Done(Returned)))
  }

  function ReadStep(d: Streamer, t: Thread, pc: ReadPc, choice: Choice): Option<(Streamer, Pc)> {
    match pc
    case RLock(size) =>
      if choice.Proceed? && d.readerLock == None then Some((d.(readerLock := Some(t)), InRead(RTop(size, []))))
      else None
    case RTop(size, got) =>
      if choice.Proceed? then Some((d, InRead(if d.buf == [] then RSelect(size, got) else RCopy(size, got)))) else None
    case RSelect(size, got) =>
      if choice.Proceed? && d.slot.Some? then
        Some((d.(buf := d.slot.value, slot := None), InRead(RCopy(size, got))))
      else if choice.Proceed? && d.partsClosed then
        Some((d.(buf := []), InRead(RNil(size, got))))
      else if choice.TakeCloser? && d.closerClosed then
        Some((d, InRead(RUnlock(size, ReadUnexpected(got)))))
      else None
    case RNil(size, got) =>
      if choice.Proceed? then Some((d, InRead(RUnlock(size, if d.finished then ReadEof(got) else ReadOk(got)))))
      else None
    case RCopy(size, got) =>
      if !choice.Proceed? then None
      else if |got| >= size then Some((d, InRead(RUnlock(size, ReadOk(got)))))
      else
        var copied := Min(size - |got|, |d.buf|);
        Some((d.(buf := d.buf[copied..], delivered := d.delivered + d.buf[..copied]),
              InRead(RTop(size, got + d.buf[..copied]))))
    case RUnlock(size, res) =>
      if choice.Proceed? then Some((d.(readerLock := None), Done(res))) else None
  }

  function Step(s: State, t: Thread, choice: Choice): Option<State> {
    if t !in s.pcs then None
    else
      match ThreadStep(s.pipe, t, s.pcs[t], choice)
      case None => None
      case Some((d, pc)) => Some(State(d, s.pcs[t := pc]))
  }

  // ---------------------------------------------------------------- the invariant

  predicate HoldsWriter(pc: Pc) { (pc.InWrite? && !pc.w.WLock?) || (pc.InFinish? && !pc.f.FLock?) }
  predicate HoldsReader(pc: Pc) { pc.InRead? && !pc.r.RLock? }
  predicate HoldsCloser(pc: Pc) { pc.InClose? && !pc.c.CLock? }

  function InSlot(d: Streamer): seq<byte> {
    if d.slot.Some? then d.slot.value else []
  }

  /** Everything accepted has been delivered and nothing more can be accepted. */
  predicate Complete(d: Streamer) {
    d.partsClosed && d.delivered == d.accepted
  }

  predicate StreamerOk(d: Streamer) {
    && !d.panicked
    && d.delivered + d.buf + InSlot(d) == d.accepted
    && d.slot != Some([])
    && (d.partsClosed ==> d.finished)
    && (d.closerClosed ==> d.closed)
    && (d.writerLock == None ==> d.finished == d.partsClosed)
    && (d.closerLock == None ==> d.closed == d.closerClosed)
  }

  predicate Suffix(s: seq<byte>, end: seq<byte>) {
    |end| <= |s| && s[|s| - |end|..] == end
  }

  predicate ThreadOk(d: Streamer, t: Thread, pc: Pc) {
    && (HoldsWriter(pc) <==> d.writerLock == Some(t))
    && (HoldsReader(pc) <==> d.readerLock == Some(t))
    && (HoldsCloser(pc) <==> d.closerLock == Some(t))
    && (HoldsWriter(pc) ==> d.finished == (d.partsClosed || pc == InFinish(FClose)))
    && (HoldsCloser(pc) ==> d.closed == (d.closerClosed || pc == InClose(CClose)))
    && match pc
       case InWrite(w) => WriteOk(d, w)
       case InFinish(f) => f.FClose? ==> !d.partsClosed
       case InClose(c) => c.CClose? ==> !d.closerClosed
       case InRead(r) => ReadOkHere(d, r)
       case Done(ReadEof(_)) => Complete(d)
       case _ => true
  }

  predicate WriteOk(d: Streamer, w: WritePc) {
    match w
    case WLock(data) => data != []
    case WCheck(data) => data != []
    case WSelect(data) => data != [] && !d.finished
    case WUnlock(res) => res.Wrote? || res.ClosedPipe?
  }

  predicate ReadOkHere(d: Streamer, r: ReadPc) {
    match r
    case RLock(size) => true
    case RTop(size, got) => |got| <= size && Suffix(d.delivered, got)
    case RSelect(size, got) => |got| <= size && Suffix(d.delivered, got) && d.buf == []
    case RNil(size, got) => |got| <= size && Suffix(d.delivered, got) && Complete(d)
    case RCopy(size, got) => |got| <= size && Suffix(d.delivered, got) && d.buf != []
    case RUnlock(size, ReadOk(out)) => |out| == size && Suffix(d.delivered, out) && d.buf != []
    case RUnlock(size, ReadEof(out)) => |out| <= size && Suffix(d.delivered, out) && Complete(d)
    case RUnlock(size, ReadUnexpected(out)) => |out| <= size && Suffix(d.delivered, out) && d.closerClosed
    case RUnlock(_, _) => false
  }

  ghost predicate Inv(s: State) {
    && StreamerOk(s.pipe)
    && (forall t :: t in s.pcs ==> ThreadOk(s.pipe, t, s.pcs[t]))
    && (s.pipe.writerLock.Some? ==> s.pipe.writerLock.value in s.pcs)
    && (s.pipe.readerLock.Some? ==> s.pipe.readerLock.value in s.pcs)
    && (s.pipe.closerLock.Some? ==> s.pipe.closerLock.value in s.pcs)
  }

  /** What another thread may rely on across a step of thread t: locks it holds stay its own, and
      only a lock's holder changes what that lock guards. */
  predicate Rely(d: Streamer, e: Streamer, t: Thread) {
    && LockRely(d.writerLock, e.writerLock, t)
    && LockRely(d.readerLock, e.readerLock, t)
    && LockRely(d.closerLock, e.closerLock, t)
    && (d.writerLock != Some(t) ==> e.finished == d.finished && e.partsClosed == d.partsClosed)
    && (d.readerLock != Some(t) ==> e.buf == d.buf && e.delivered == d.delivered)
    && (d.closerLock != Some(t) ==> e.closed == d.closed && e.closerClosed == d.closerClosed)
    && (d.partsClosed ==> e.partsClosed && e.accepted == d.accepted)
    && (d.closerClosed ==> e.closerClosed)
    && d.accepted <= e.accepted && d.delivered <= e.delivered
  }

  predicate LockRely(before: Option<Thread>, after: Option<Thread>, t: Thread) {
    before == after || (before in [None, Some(t)] && after in [None, Some(t)])
  }

  lemma WriteStepOk(d: Streamer, t: Thread, w: WritePc, choice: Choice)
    requires StreamerOk(d) && ThreadOk(d, t, InWrite(w)) && WriteStep(d, t, w, choice).Some?
    ensures var (e, next) := WriteStep(d, t, w, choice).value;
            StreamerOk(e) && ThreadOk(e, t, next) && Rely(d, e, t)
  {
    var (e, next) := WriteStep(d, t, w, choice).value;
    if w.WSelect? && next == InWrite(WUnlock(Wrote)) {
      assert e.delivered + e.buf + w.data == d.delivered + d.buf + [] + w.data;
    }
  }

  lemma FinishStepOk(d: Streamer, t: Thread, f: FinishPc)
    requires StreamerOk(d) && ThreadOk(d, t, InFinish(f)) && FinishStep(d, t, f).Some?
    ensures var (e, next) := FinishStep(d, t, f).value; StreamerOk(e) && ThreadOk(e, t, next) && Rely(d, e, t)
  {
  }

  lemma CloseStepOk(d: Streamer, t: Thread, c: ClosePc)
    requires StreamerOk(d) && ThreadOk(d, t, InClose(c)) && CloseStep(d, t, c).Some?
    ensures var (e, next) := CloseStep(d, t, c).value; StreamerOk(e) && ThreadOk(e, t, next) && Rely(d, e, t)
  {
  }

  lemma SelectStepOk(d: Streamer, t: Thread, size: nat, got: seq<byte>, choice: Choice)
    requires StreamerOk(d) && ThreadOk(d, t, InRead(RSelect(size, got)))
    requires ReadStep(d, t, RSelect(size, got), choice).Some?
    ensures var (e, next) := ReadStep(d, t, RSelect(size, got), choice).value;
            StreamerOk(e) && ThreadOk(e, t, next) && Rely(d, e, t)
  {
    assert d.delivered + [] + InSlot(d) == d.delivered + InSlot(d) + [];
    assert d.delivered + [] + [] == d.delivered;
  }

  lemma CopyStepOk(d: Streamer, t: Thread, size: nat, got: seq<byte>)
    requires StreamerOk(d) && ThreadOk(d, t, InRead(RCopy(size, got)))
    ensures var (e, next) := ReadStep(d, t, RCopy(size, got), Proceed).value;
            StreamerOk(e) && ThreadOk(e, t, next) && Rely(d, e, t)
  {
    if |got| < size {
      var copied := Min(size - |got|, |d.buf|);
      CopyConserves(d.delivered, d.buf, InSlot(d), copied);
      SuffixGrows(d.delivered, got, d.buf[..copied]);
    }
  }

  lemma CopyConserves(delivered: seq<byte>, buf: seq<byte>, slot: seq<byte>, k: nat)
    requires k <= |buf|
    ensures (delivered + buf[..k]) + buf[k..] + slot == delivered + buf + slot
  {
    assert buf == buf[..k] + buf[k..];
  }

  lemma SuffixGrows(s: seq<byte>, end: seq<byte>, more: seq<byte>)
    requires Suffix(s, end)
    ensures Suffix(s + more, end + more)
  {
    assert s + more == s[..|s| - |end|] + (end + more);
  }

  lemma ReadStepOk(d: Streamer, t: Thread, r: ReadPc, choice: Choice)
    requires StreamerOk(d) && ThreadOk(d, t, InRead(r)) && ReadStep(d, t, r, choice).Some?
    ensures var (e, next) := ReadStep(d, t, r, choice).value;
            StreamerOk(e) && ThreadOk(e, t, next) && Rely(d, e, t)
  {
    match r
    case RSelect(size, got) => SelectStepOk(d, t, size, got, choice);
    case RCopy(size, got) => CopyStepOk(d, t, size, got);
    case RLock(_) =>
    case RTop(_, _) =>
    case RNil(_, _) =>
    case RUnlock(_, _) =>
  }

  lemma StepOk(d: Streamer, t: Thread, pc: Pc, choice: Choice)
    requires StreamerOk(d) && ThreadOk(d, t, pc) && ThreadStep(d, t, pc, choice).Some?
    ensures var (e, next) := ThreadStep(d, t, pc, choice).value;
            StreamerOk(e) && ThreadOk(e, t, next) && Rely(d, e, t)
  {
    match pc
    case InWrite(w) => WriteStepOk(d, t, w, choice);
    case InFinish(f) => FinishStepOk(d, t, f);
    case InClose(c) => CloseStepOk(d, t, c);
    case InRead(r) => ReadStepOk(d, t, r, choice);
    case _ =>
  }

  lemma RelyKeepsThreadOk(d: Streamer, e: Streamer, t: Thread, u: Thread, pc: Pc)
    requires StreamerOk(d) && StreamerOk(e) && Rely(d, e, t) && u != t && ThreadOk(d, u, pc)
    ensures ThreadOk(e, u, pc)
  {
    if Complete(d) {
      assert d.delivered <= e.delivered <= e.accepted;
    }
  }

  lemma StepKeepsInv(s: State, t: Thread, choice: Choice)
    requires Inv(s) && Step(s, t, choice).Some?
    ensures Inv(Step(s, t, choice).value)
  {
    var n := Step(s, t, choice).value;
    StepOk(s.pipe, t, s.pcs[t], choice);
    ThreadMoves(s, t, n.pipe, n.pcs[t]);
  }

  lemma ThreadMoves(s: State, t: Thread, e: Streamer, next: Pc)
    requires Inv(s) && t in s.pcs && StreamerOk(e) && ThreadOk(e, t, next) && Rely(s.pipe, e, t)
    ensures Inv(State(e, s.pcs[t := next]))
  {
    var n := State(e, s.pcs[t := next]);
    forall u | u in n.pcs ensures ThreadOk(n.pipe, u, n.pcs[u]) {
      if u != t { RelyKeepsThreadOk(s.pipe, e, t, u, s.pcs[u]); }
    }
  }

  // ---------------------------------------------------------------- whole runs

  type Schedule = seq<(Thread, Choice)>

  function Exec(s: State, schedule: Schedule): Option<State>
    decreases |schedule|
  {
    if schedule == [] then Some(s)
    else
      match Step(s, schedule[0].0, schedule[0].1)
      case None => None
      case Some(n) => Exec(n, schedule[1..])
  }

  function Start0(threads: set<Thread>): State {
    State(NEW, map t | t in threads :: Idle)
  }

  lemma {:induction false} RunKeepsInv(s: State, schedule: Schedule)
    requires Inv(s) && Exec(s, schedule).Some?
    ensures var e := Exec(s, schedule).value;
            Inv(e) && s.pipe.accepted <= e.pipe.accepted && s.pipe.delivered <= e.pipe.delivered
    ensures s.pipe.partsClosed ==> Exec(s, schedule).value.pipe.accepted == s.pipe.accepted
    decreases |schedule|
  {
    if schedule != [] {
      var (t, choice) := schedule[0];
      StepKeepsInv(s, t, choice);
      StepOk(s.pipe, t, s.pcs[t], choice);
      RunKeepsInv(Step(s, t, choice).value, schedule[1..]);
    }
  }

  /** Over every interleaving: no panic, no byte lost, duplicated or reordered, and a Read that
      returned EOF saw the end of a finished stream with everything accepted delivered. */
  lemma PipeSafety(threads: set<Thread>, schedule: Schedule)
    requires Exec(Start0(threads), schedule).Some?
    ensures var s := Exec(Start0(threads), schedule).value;
            && !s.pipe.panicked
            && s.pipe.delivered + s.pipe.buf + InSlot(s.pipe) == s.pipe.accepted
            && (forall t :: t in s.pcs && s.pcs[t].Done? && s.pcs[t].res.ReadEof? ==>
                 s.pipe.finished && s.pipe.delivered == s.pipe.accepted)
  {
    RunKeepsInv(Start0(threads), schedule);
  }

  /** EOF is final: whatever runs after it, nothing more is accepted or delivered. */
  lemma EofIsFinal(s: State, t: Thread, later: Schedule)
    requires Inv(s) && t in s.pcs && s.pcs[t].Done? && s.pcs[t].res.ReadEof? && Exec(s, later).Some?
    ensures Exec(s, later).value.pipe.accepted == s.pipe.accepted
    ensures Exec(s, later).value.pipe.delivered == s.pipe.delivered
  {
    RunKeepsInv(s, later);
  }

  // ---------------------------------------------------------------- progress

  predicate InOperation(pc: Pc) {
    !pc.Idle? && !pc.Done?
  }

  /** An upper bound on a thread's own remaining steps in its operation. */
  function Rank(pc: Pc): nat {
    match pc
    case Idle => 0
    case Done(_) => 0
    case InWrite(w) => (match w case WLock(_) => 4 case WCheck(_) => 3 case WSelect(_) => 2 case WUnlock(_) => 1)
    case InFinish(f) => (match f case FLock => 4 case FCheck => 3 case FClose => 2 case FUnlock => 1)
    case InClose(c) => (match c case CLock => 4 case CCheck => 3 case CClose => 2 case CUnlock => 1)
    case InRead(r) =>
      match r
      case RLock(size) => 4 * size + 6
      case RTop(size, got) => 4 * Left(size, got) + 5
      case RSelect(size, got) => 4 * Left(size, got) + 4
      case RCopy(size, got) => 4 * Left(size, got) + 3
      case RNil(_, _) => 2
      case RUnlock(_, _) => 1
  }

  function Left(size: nat, got: seq<byte>): nat {
    if |got| <= size then size - |got| else 0
  }

  /** Every own step inside an operation brings it closer to its end; a Read's loop can turn only
      as often as it has room, because no part in the channel is empty. */
  lemma RankDecreases(d: Streamer, t: Thread, pc: Pc, choice: Choice)
    requires StreamerOk(d) && ThreadOk(d, t, pc) && InOperation(pc) && ThreadStep(d, t, pc, choice).Some?
    ensures Rank(ThreadStep(d, t, pc, choice).value.1) < Rank(pc)
  {
  }

  function OwnSteps(schedule: Schedule, t: Thread): nat {
    if schedule == [] then 0 else (if schedule[0].0 == t then 1 else 0) + OwnSteps(schedule[1..], t)
  }

  lemma ExecPrefix(s: State, schedule: Schedule, j: nat)
    requires j < |schedule| && Step(s, schedule[0].0, schedule[0].1).Some?
    ensures Exec(s, schedule[..j + 1]) == Exec(Step(s, schedule[0].0, schedule[0].1).value, schedule[1..][..j])
  {
    assert schedule[..j + 1][1..] == schedule[1..][..j];
  }

  ghost predicate DoneAfter(s: State, schedule: Schedule, t: Thread) {
    match Exec(s, schedule)
    case None => false
    case Some(e) => t in e.pcs && e.pcs[t].Done?
  }

  /** An operation ends within Rank of its thread's own steps, however the others run. */
  lemma {:induction false} OperationEnds(s: State, schedule: Schedule, t: Thread) returns (k: nat)
    requires Inv(s) && t in s.pcs && !s.pcs[t].Idle? && Exec(s, schedule).Some?
    requires OwnSteps(schedule, t) >= Rank(s.pcs[t])
    ensures k <= |schedule| && DoneAfter(s, schedule[..k], t)
    decreases |schedule|
  {
    if s.pcs[t].Done? {
      k := 0;
    } else {
      var (u, choice) := schedule[0];
      var n := Step(s, u, choice).value;
      StepKeepsInv(s, u, choice);
      if u == t { RankDecreases(s.pipe, t, s.pcs[t], choice); }
      NotIdleNext(s, u, choice, t);
      var j := OperationEnds(n, schedule[1..], t);
      ExecPrefix(s, schedule, j);
      k := j + 1;
    }
  }

  lemma NotIdleNext(s: State, u: Thread, choice: Choice, t: Thread)
    requires t in s.pcs && InOperation(s.pcs[t]) && Step(s, u, choice).Some?
    ensures var n := Step(s, u, choice).value; t in n.pcs && !n.pcs[t].Idle? && (u != t ==> n.pcs[t] == s.pcs[t])
  {
  }

  ghost predicate Enabled(s: State, t: Thread) {
    exists choice :: Step(s, t, choice).Some?
  }

  /** The holder of the lock thread t waits for, if it waits for one. */
  function Awaits(s: State, t: Thread): Option<Thread>
    requires t in s.pcs
  {
    match s.pcs[t]
    case InWrite(WLock(_)) => s.pipe.writerLock
    case InFinish(FLock) => s.pipe.writerLock
    case InClose(CLock) => s.pipe.closerLock
    case InRead(RLock(_)) => s.pipe.readerLock
    case _ => None
  }

  /** Once the stream is closed no operation is stuck: its thread can step, or the holder of the
      lock it waits for can. */
  lemma ClosedStreamProgresses(s: State, t: Thread)
    requires Inv(s) && s.pipe.closerClosed && t in s.pcs && InOperation(s.pcs[t])
    ensures Enabled(s, t) || (Awaits(s, t).Some? && Awaits(s, t).value in s.pcs && Enabled(s, Awaits(s, t).value))
  {
    match Awaits(s, t)
    case None => HolderCanStep(s, t);
    case Some(u) => HolderCanStep(s, u);
  }

  lemma HolderCanStep(s: State, t: Thread)
    requires Inv(s) && s.pipe.closerClosed && t in s.pcs && InOperation(s.pcs[t]) && Awaits(s, t) == None
    ensures Enabled(s, t)
  {
    var pc := s.pcs[t];
    var choice := if (pc.InWrite? && pc.w.WSelect?) || (pc.InRead? && pc.r.RSelect?) then TakeCloser else Proceed;
    assert ThreadStep(s.pipe, t, pc, choice).Some?;
    assert Step(s, t, choice).Some?;
  }

  // ---------------------------------------------------------------- a thread on its own

  /** Thread t takes these steps and nobody else does. */
  function ThreadExec(d: Streamer, t: Thread, pc: Pc, choices: seq<Choice>): Option<(Streamer, Pc)>
    decreases |choices|
  {
    if choices == [] then Some((d, pc))
    else
      match ThreadStep(d, t, pc, choices[0])
      case None => None
      case Some((e, next)) => ThreadExec(e, t, next, choices[1..])
  }

  /** On its own thread t comes from one place to the other. */
  ghost predicate Alone(d: Streamer, t: Thread, pc: Pc, e: Streamer, next: Pc) {
    exists choices :: ThreadExec(d, t, pc, choices) == Some((e, next))
  }

  lemma StandsStill(d: Streamer, t: Thread, pc: Pc)
    ensures Alone(d, t, pc, d, pc)
  {
    assert ThreadExec(d, t, pc, []) == Some((d, pc));
  }

  lemma {:induction false} StepsOnBy(d: Streamer, t: Thread, pc: Pc, choices: seq<Choice>, e: Streamer, next: Pc,
                                     c: Choice)
    requires ThreadExec(d, t, pc, choices) == Some((e, next))
    ensures ThreadExec(d, t, pc, choices + [c]) == ThreadStep(e, t, next, c)
    decreases |choices|
  {
    var longer := choices + [c];
    if choices != [] {
      var (f, after) := ThreadStep(d, t, pc, choices[0]).value;
      assert longer[1..] == choices[1..] + [c];
      StepsOnBy(f, t, after, choices[1..], e, next, c);
    } else {
      assert longer[1..] == [];
    }
  }

  lemma StepsOn(d: Streamer, t: Thread, pc: Pc, e: Streamer, next: Pc, c: Choice, f: Streamer, last: Pc)
    requires Alone(d, t, pc, e, next) && ThreadStep(e, t, next, c) == Some((f, last))
    ensures Alone(d, t, pc, f, last)
  {
    var choices :| ThreadExec(d, t, pc, choices) == Some((e, next));
    StepsOnBy(d, t, pc, choices, e, next, c);
  }

  /** That is a run of the machine, in which the other threads stand still. */
  lemma {:induction false} AloneIsRun(s: State, t: Thread, choices: seq<Choice>) returns (schedule: Schedule)
    requires t in s.pcs && ThreadExec(s.pipe, t, s.pcs[t], choices).Some?
    ensures var (e, next) := ThreadExec(s.pipe, t, s.pcs[t], choices).value;
            Exec(s, schedule) == Some(State(e, s.pcs[t := next]))
    decreases |choices|
  {
    if choices == [] {
      schedule := [];
      assert s.pcs[t := s.pcs[t]] == s.pcs;
    } else {
      var (d, pc) := ThreadStep(s.pipe, t, s.pcs[t], choices[0]).value;
      var n := State(d, s.pcs[t := pc]);
      var rest := AloneIsRun(n, t, choices[1..]);
      schedule := [(t, choices[0])] + rest;
      assert schedule[1..] == rest;
      var (e, next) := ThreadExec(d, t, pc, choices[1..]).value;
      assert s.pcs[t := pc][t := next] == s.pcs[t := next];
    }
  }

  /** Thread t has to wait for another. */
  ghost predicate Waits(d: Streamer, t: Thread, pc: Pc) {
    forall c :: ThreadStep(d, t, pc, c) == None
  }
}
