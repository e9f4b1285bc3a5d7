/** A pipe with one producer. The three goroutines that feed a dataStreamer (request body, torrent
    pieces, payload parts) share one shape: write the parts of a script in order; after the last,
    Finish; after a failed write, or when the next part cannot be had, Close. Other threads read
    and close as they like. */
module Feeder {
  import opened GoTypes
  import opened Pipe

  const FEEDER: Thread := 0

  datatype Phase = Feeding | MustClose | Finishing | Abandoned

  /** next counts the parts whose Write returned; calls lists what the feeder has called. */
  datatype Feed = Feed(sys: State, next: nat, phase: Phase, calls: seq<Op>)

  datatype FeedChoice = Run(choice: Choice) | GiveUp

  type Script = seq<seq<byte>>

  function FeedStep(script: Script, f: Feed, t: Thread, c: FeedChoice): Option<Feed> {
    if t !in f.sys.pcs then None
    else if t == FEEDER then FeederStep(script, f, c)
    else if c.GiveUp? || (c.choice.Start? && !MayStart(c.choice.op)) then None
    else After(Step(f.sys, t, c.choice), f)
  }

  predicate MayStart(op: Op) {
    op.Read? || op.Close?
  }

  function After(s: Option<State>, f: Feed): Option<Feed> {
    match s case None => None case Some(sys) => Some(f.(sys := sys))
  }

  function Call(f: Feed, op: Op, phase: Phase): Option<Feed> {
    After(Step(f.sys, FEEDER, Start(op)), f.(phase := phase, calls := f.calls + [op]))
  }

  function FeederStep(script: Script, f: Feed, c: FeedChoice): Option<Feed>
    requires FEEDER in f.sys.pcs
  {
    match f.sys.pcs[FEEDER]
    case Idle =>
      if f.phase.MustClose? || (f.phase.Feeding? && c.GiveUp?) then
        Call(f, Close, Abandoned)
      else if !f.phase.Feeding? then None
      else if f.next < |script| then
        Call(f, Write(script[f.next]), Feeding)
      else
        Call(f, Finish, Finishing)
    case Done(res) =>
      After(Step(f.sys, FEEDER, Proceed),
            if !f.phase.Feeding? then f else if res.Wrote? then f.(next := f.next + 1) else f.(phase := MustClose))
    case _ =>
      if c.GiveUp? then None else After(Step(f.sys, FEEDER, c.choice), f)
  }

  /** The first n calls write the first n parts. */
  predicate WritesFirst(script: Script, calls: seq<Op>, n: nat) {
    n <= |script| && n <= |calls| && forall i :: 0 <= i < n ==> calls[i] == Write(script[i])
  }

  /** The calls of a producer that is done: every part written and Finish, or Close on the way. */
  predicate FeedsScript(script: Script, calls: seq<Op>) {
    && calls != []
    && var n := |calls| - 1;
       WritesFirst(script, calls, n) && (calls[n] == Close || (calls[n] == Finish && n == |script|))
  }

  /** What the feeder has called so far, from where it is. */
  predicate CallsOk(script: Script, pc: Pc, next: nat, phase: Phase, calls: seq<Op>) {
    match phase
    case Feeding => |calls| == (if pc.Idle? then next else next + 1) && WritesFirst(script, calls, |calls|)
    case MustClose => WritesFirst(script, calls, |calls|)
    case Finishing => FeedsScript(script, calls) && calls[|calls| - 1] == Finish && next == |script|
    case Abandoned => FeedsScript(script, calls) && calls[|calls| - 1] == Close
  }

  predicate FeederPcOk(script: Script, pc: Pc, next: nat, phase: Phase) {
    match pc
    case Idle => true
    case InWrite(w) => phase.Feeding? && next < |script| && (!w.WUnlock? ==> w.data == script[next])
    case InFinish(_) => phase.Finishing?
    case InClose(_) => phase.Abandoned?
    case InRead(_) => false
    case Done(res) =>
      && (phase.Feeding? ==> next < |script| && (res.Wrote? || res.ClosedPipe?))
      && (!phase.Feeding? ==> res.Returned?)
  }

  /** The part the feeder's current Write has handed over but the feeder has not counted yet. */
  function InFlight(script: Script, pc: Pc, next: nat, phase: Phase): seq<byte> {
    if phase.Feeding? && (pc == Done(Wrote) || pc == InWrite(WUnlock(Wrote))) && next < |script| then script[next]
    else []
  }

  /** The bytes accepted are those of the parts written so far, and only the feeder finishes. */
  predicate FeederOk(script: Script, d: Streamer, pc: Pc, next: nat, phase: Phase) {
    && next <= |script| && FeederPcOk(script, pc, next, phase)
    && d.accepted == Concat(script[..next]) + InFlight(script, pc, next, phase)
    && (d.finished ==> phase.Finishing?) && (phase.Finishing? && PastCheck(pc) ==> d.finished)
  }

  /** Past the check of Finish. */
  predicate PastCheck(pc: Pc) {
    pc.Idle? || pc.Done? || pc == InFinish(FClose) || pc == InFinish(FUnlock)
  }

  ghost predicate FeedInv(script: Script, f: Feed) {
    && Inv(f.sys)
    && FEEDER in f.sys.pcs
    && FeederOkIn(script, f)
    && (forall t :: t in f.sys.pcs && t != FEEDER ==> NeverWrites(f.sys.pcs[t]))
  }

  predicate NeverWrites(pc: Pc) {
    !pc.InWrite? && !pc.InFinish?
  }

  lemma WriteFrame(d: Streamer, t: Thread, w: WritePc, choice: Choice)
    requires WriteStep(d, t, w, choice).Some?
    ensures var (e, next) := WriteStep(d, t, w, choice).value;
            && e.finished == d.finished && e.delivered == d.delivered && e.closed == d.closed
            && (next.InWrite? || (w.WUnlock? && next == Done(w.res)))
  {
  }

  lemma FinishFrame(d: Streamer, t: Thread, f: FinishPc)
    requires FinishStep(d, t, f).Some?
    ensures var (e, next) := FinishStep(d, t, f).value;
            && e.accepted == d.accepted && e.delivered == d.delivered && e.closed == d.closed
            && (next.InFinish? || next == Done(Returned))
  {
  }

  lemma CloseFrame(d: Streamer, t: Thread, c: ClosePc)
    requires CloseStep(d, t, c).Some?
    ensures var (e, next) := CloseStep(d, t, c).value;
            && e.accepted == d.accepted && e.finished == d.finished && e.delivered == d.delivered
            && (next.InClose? || next == Done(Returned))
  {
  }

  lemma ReadFrame(d: Streamer, t: Thread, r: ReadPc, choice: Choice)
    requires ReadStep(d, t, r, choice).Some?
    ensures var (e, next) := ReadStep(d, t, r, choice).value;
            && e.accepted == d.accepted && e.finished == d.finished && e.closed == d.closed
            && (next.InRead? || (r.RUnlock? && next == Done(r.res)))
  {
  }

  /** Who changes what: writes accept, finishes finish, reads deliver, closes close. */
  lemma StepFrame(d: Streamer, t: Thread, pc: Pc, choice: Choice)
    requires ThreadStep(d, t, pc, choice).Some?
    ensures var e := ThreadStep(d, t, pc, choice).value.0;
            && (!pc.InWrite? ==> e.accepted == d.accepted)
            && (!pc.InFinish? ==> e.finished == d.finished)
            && (!pc.InRead? ==> e.delivered == d.delivered)
            && (!pc.InClose? ==> e.closed == d.closed)
  {
    match pc
    case InWrite(w) => WriteFrame(d, t, w, choice);
    case InFinish(f) => FinishFrame(d, t, f);
    case InClose(c) => CloseFrame(d, t, c);
    case InRead(r) => ReadFrame(d, t, r, choice);
    case Idle =>
    case Done(_) =>
  }

  lemma OtherStepKeepsFeed(script: Script, f: Feed, t: Thread, c: FeedChoice)
    requires FeedInv(script, f) && t != FEEDER && FeedStep(script, f, t, c).Some?
    ensures FeedInv(script, FeedStep(script, f, t, c).value)
  {
    var pc := f.sys.pcs[t];
    StepKeepsInv(f.sys, t, c.choice);
    match pc
    case InClose(k) => CloseFrame(f.sys.pipe, t, k);
    case InRead(r) => ReadFrame(f.sys.pipe, t, r, c.choice);
    case Idle =>
    case Done(_) =>
  }

  /** A Write hands its data over in the one step that makes it return Wrote. */
  lemma WriteEffect(d: Streamer, t: Thread, w: WritePc, choice: Choice)
    requires WriteStep(d, t, w, choice).Some? && WriteOk(d, w)
    ensures var (e, next) := WriteStep(d, t, w, choice).value;
            && e.finished == d.finished
            && (next.InWrite? || (w.WUnlock? && next == Done(w.res)))
            && (next.InWrite? && !next.w.WUnlock? ==> !w.WUnlock? && next.w.data == w.data)
            && e.accepted == d.accepted + (if next == InWrite(WUnlock(Wrote)) then w.data else [])
  {
  }

  lemma FeederWrites(script: Script, d: Streamer, w: WritePc, next: nat, phase: Phase, choice: Choice)
    requires FeederOk(script, d, InWrite(w), next, phase) && WriteOk(d, w) && WriteStep(d, FEEDER, w, choice).Some?
    ensures var (e, pc) := WriteStep(d, FEEDER, w, choice).value;
            FeederOk(script, e, pc, next, phase) && (pc.InWrite? || pc.Done?)
  {
    WriteEffect(d, FEEDER, w, choice);
  }

  lemma FeederCounts(script: Script, d: Streamer, next: nat)
    requires FeederOk(script, d, Done(Wrote), next, Feeding)
    ensures FeederOk(script, d, Idle, next + 1, Feeding)
  {
    assert script[..next + 1] == script[..next] + [script[next]];
    ConcatSnoc(script[..next], script[next]);
  }

  /** The feeder's part of the invariant after one of its steps. */
  predicate FeederOkIn(script: Script, f: Feed)
    requires FEEDER in f.sys.pcs
  {
    && FeederOk(script, f.sys.pipe, f.sys.pcs[FEEDER], f.next, f.phase)
    && CallsOk(script, f.sys.pcs[FEEDER], f.next, f.phase, f.calls)
  }

  lemma FeederCallsOk(script: Script, f: Feed, c: FeedChoice)
    requires FEEDER in f.sys.pcs && FeederOkIn(script, f) && FeedStep(script, f, FEEDER, c).Some?
    requires f.sys.pcs[FEEDER].Idle?
    ensures FeederOkIn(script, FeedStep(script, f, FEEDER, c).value)
  {
  }

  lemma FeederReturnOk(script: Script, f: Feed, c: FeedChoice)
    requires FEEDER in f.sys.pcs && FeederOkIn(script, f) && FeedStep(script, f, FEEDER, c).Some?
    requires f.sys.pcs[FEEDER].Done?
    ensures FeederOkIn(script, FeedStep(script, f, FEEDER, c).value)
  {
    if f.phase.Feeding? && f.sys.pcs[FEEDER].res.Wrote? { FeederCounts(script, f.sys.pipe, f.next); }
  }

  lemma FeederRunOk(script: Script, f: Feed, c: FeedChoice)
    requires FEEDER in f.sys.pcs && FeederOkIn(script, f) && FeedStep(script, f, FEEDER, c).Some?
    requires InOperation(f.sys.pcs[FEEDER]) && ThreadOk(f.sys.pipe, FEEDER, f.sys.pcs[FEEDER])
    ensures FeederOkIn(script, FeedStep(script, f, FEEDER, c).value)
  {
    match f.sys.pcs[FEEDER]
    case InWrite(w) => FeederWrites(script, f.sys.pipe, w, f.next, f.phase, c.choice);
    case InFinish(k) => FinishFrame(f.sys.pipe, FEEDER, k);
    case InClose(k) => CloseFrame(f.sys.pipe, FEEDER, k);
  }

  lemma FeederStepKeepsFeed(script: Script, f: Feed, c: FeedChoice)
    requires FeedInv(script, f) && FeedStep(script, f, FEEDER, c).Some?
    ensures FeedInv(script, FeedStep(script, f, FEEDER, c).value)
  {
    match f.sys.pcs[FEEDER] {
      case Idle => FeederCallsOk(script, f, c);
      case Done(_) => FeederReturnOk(script, f, c);
      case _ => FeederRunOk(script, f, c);
    }
    var choice := FeederChoice(script, f, c);
    StepKeepsInv(f.sys, FEEDER, choice);
  }

  /** The pipe step behind a feeder step. */
  function FeederChoice(script: Script, f: Feed, c: FeedChoice): (choice: Choice)
    requires FEEDER in f.sys.pcs && FeedStep(script, f, FEEDER, c).Some?
    ensures Step(f.sys, FEEDER, choice) == Some(FeedStep(script, f, FEEDER, c).value.sys)
  {
    match f.sys.pcs[FEEDER]
    case Idle =>
      if f.phase.MustClose? || (f.phase.Feeding? && c.GiveUp?) then Start(Close)
      else if f.next < |script| then Start(Write(script[f.next]))
      else Start(Finish)
    case Done(_) => Proceed
    case _ => c.choice
  }

  type FeedSchedule = seq<(Thread, FeedChoice)>

  function FeedExec(script: Script, f: Feed, schedule: FeedSchedule): Option<Feed>
    decreases |schedule|
  {
    if schedule == [] then Some(f)
    else
      match FeedStep(script, f, schedule[0].0, schedule[0].1)
      case None => None
      case Some(g) => FeedExec(script, g, schedule[1..])
  }

  function FeedStart(threads: set<Thread>): Feed {
    Feed(Start0(threads + {FEEDER}), 0, Feeding, [])
  }

  lemma {:induction false} FeedRunKeepsInv(script: Script, f: Feed, schedule: FeedSchedule)
    requires FeedInv(script, f) && FeedExec(script, f, schedule).Some?
    ensures FeedInv(script, FeedExec(script, f, schedule).value)
    decreases |schedule|
  {
    if schedule != [] {
      var (t, c) := schedule[0];
      if t == FEEDER { FeederStepKeepsFeed(script, f, c); } else { OtherStepKeepsFeed(script, f, t, c); }
      FeedRunKeepsInv(script, FeedStep(script, f, t, c).value, schedule[1..]);
    }
  }

  /** What readers get is always a prefix of the script's bytes; a Read that returned EOF got to
      their end, and only a producer that wrote every part and finished makes that possible. */
  lemma EofMeansWholeScript(script: Script, threads: set<Thread>, schedule: FeedSchedule)
    requires FeedExec(script, FeedStart(threads), schedule).Some?
    ensures var f := FeedExec(script, FeedStart(threads), schedule).value;
            && !f.sys.pipe.panicked
            && f.sys.pipe.delivered <= Concat(script)
            && (forall t :: t in f.sys.pcs && f.sys.pcs[t].Done? && f.sys.pcs[t].res.ReadEof? ==>
                 f.phase.Finishing? && f.sys.pipe.delivered == Concat(script))
  {
    FeedRunKeepsInv(script, FeedStart(threads), schedule);
    var f := FeedExec(script, FeedStart(threads), schedule).value;
    AcceptedIsPrefix(script, f);
    assert script[..|script|] == script;
  }

  lemma AcceptedIsPrefix(script: Script, f: Feed)
    requires FeedInv(script, f)
    ensures f.sys.pipe.delivered <= f.sys.pipe.accepted <= Concat(script)
    ensures f.sys.pipe.finished ==> f.sys.pipe.accepted == Concat(script)
  {
    var d := f.sys.pipe;
    assert d.accepted == d.delivered + (d.buf + InSlot(d));
    AcceptedOfParts(script, d, f.sys.pcs[FEEDER], f.next, f.phase);
    assert script[..|script|] == script;
  }

  lemma AcceptedOfParts(script: Script, d: Streamer, pc: Pc, next: nat, phase: Phase)
    requires FeederOk(script, d, pc, next, phase)
    ensures d.accepted <= Concat(script)
  {
    ConcatPrefix(script, next);
    if InFlight(script, pc, next, phase) != [] {
      assert script[..next + 1] == script[..next] + [script[next]];
      ConcatSnoc(script[..next], script[next]);
      ConcatPrefix(script, next + 1);
    }
  }

  /** A feeder that is done has made the calls of a producer of its script. */
  lemma FeederFeedsScript(script: Script, threads: set<Thread>, schedule: FeedSchedule)
    requires FeedExec(script, FeedStart(threads), schedule).Some?
    ensures var f := FeedExec(script, FeedStart(threads), schedule).value;
            f.phase.Finishing? || f.phase.Abandoned? ==> FeedsScript(script, f.calls)
  {
    FeedRunKeepsInv(script, FeedStart(threads), schedule);
    assert script[..|script|] == script;
  }
}
