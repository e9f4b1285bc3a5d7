/** A pipe whose producer makes a given list of calls, as the methods that stand for its goroutine are proved to
    make them (doTorrent and doRldpHttp, proxy/transport/client.go). Every run of it is a run of the feeder. */
module Producer {
  import opened GoTypes
  import opened Pipe
  import opened Feeder

  /** A dataStreamer as its producer sees it: what was called, and which Writes fail. */
  class Sink {
    var calls: seq<Op>
    const rejects: nat -> bool

    constructor (rejects: nat -> bool)
      ensures calls == [] && this.rejects == rejects
    {
      this.rejects := rejects;
      calls := [];
    }

    /** An empty Write returns at once; any other may find the stream closed. */
    method Write(data: seq<byte>) returns (ok: bool)
      modifies this`calls
      ensures calls == old(calls) + [Op.Write(data)]
      ensures ok == (data == [] || !rejects(|old(calls)|))
    {
      ok := data == [] || !rejects(|calls|);
      calls := calls + [Op.Write(data)];
    }

    method Finish()
      modifies this`calls
      ensures calls == old(calls) + [Op.Finish]
    {
      calls := calls + [Op.Finish];
    }

    method Close()
      modifies this`calls
      ensures calls == old(calls) + [Op.Close]
    {
      calls := calls + [Op.Close];
    }
  }

  predicate Finished(calls: seq<Op>) {
    calls != [] && calls[|calls| - 1] == Op.Finish
  }

  /** Part number i of the script is accepted. */
  predicate Accepted(script: Script, rejects: nat -> bool, i: nat)
    requires i < |script|
  {
    script[i] == [] || !rejects(i)
  }

  ghost predicate AllAccepted(script: Script, rejects: nat -> bool, n: nat)
    requires n <= |script|
  {
    forall i :: 0 <= i < n ==> Accepted(script, rejects, i)
  }

  /** The calls of a producer of the script: it stops at the first part that is rejected, and finishes only when all
      were accepted. */
  ghost predicate Produces(script: Script, calls: seq<Op>, rejects: nat -> bool) {
    && FeedsScript(script, calls)
    && AllAccepted(script, rejects, if Finished(calls) then |script| else if |calls| < 2 then 0 else |calls| - 2)
  }

  // ---------------------------------------------------------------- the pipe under these calls

  /** at counts the calls that have returned. */
  datatype Caller = Caller(sys: State, at: nat)

  /** A Write that was not rejected has handed its data over, and no other. */
  predicate AsToldBy(calls: seq<Op>, rejects: nat -> bool, i: nat, res: Outcome)
    requires i < |calls|
  {
    calls[i].Write? ==> (res.Wrote? <==> calls[i].data == [] || !rejects(i))
  }

  /** The producer makes its calls one after the other; other threads read and close. */
  function CallerStep(calls: seq<Op>, rejects: nat -> bool, c: Caller, t: Thread, choice: Choice): Option<Caller> {
    if t !in c.sys.pcs then None
    else if t != FEEDER then
      if choice.Start? && !MayStart(choice.op) then None else Moves(Step(c.sys, t, choice), c.at)
    else
      match c.sys.pcs[FEEDER]
      case Idle => if c.at < |calls| then Moves(Step(c.sys, FEEDER, Start(calls[c.at])), c.at) else None
      case Done(res) =>
        if c.at < |calls| && AsToldBy(calls, rejects, c.at, res) then Moves(Step(c.sys, FEEDER, Proceed), c.at + 1)
        else None
      case _ => Moves(Step(c.sys, FEEDER, choice), c.at)
  }

  function Moves(s: Option<State>, at: nat): Option<Caller> {
    match s case None => None case Some(sys) => Some(Caller(sys, at))
  }

  type CallerSchedule = seq<(Thread, Choice)>

  function CallerExec(calls: seq<Op>, rejects: nat -> bool, c: Caller, schedule: CallerSchedule): Option<Caller>
    decreases |schedule|
  {
    if schedule == [] then Some(c)
    else
      match CallerStep(calls, rejects, c, schedule[0].0, schedule[0].1)
      case None => None
      case Some(n) => CallerExec(calls, rejects, n, schedule[1..])
  }

  function CallerStart(threads: set<Thread>): Caller {
    Caller(Start0(threads + {FEEDER}), 0)
  }

  // ---------------------------------------------------------------- the feeder behind it

  predicate InCalls(calls: seq<Op>, c: Caller) {
    && calls != [] && FEEDER in c.sys.pcs
    && (if c.sys.pcs[FEEDER].Idle? then c.at <= |calls| else c.at < |calls|)
  }

  /** The parts that have been accepted when the first at calls have returned. */
  function PartsIn(script: Script, calls: seq<Op>, rejects: nat -> bool, at: nat): nat
    requires FeedsScript(script, calls)
  {
    var written := Min(at, |calls| - 1);
    if written > 0 && !Accepted(script, rejects, written - 1) then written - 1 else written
  }

  function PhaseIn(script: Script, calls: seq<Op>, rejects: nat -> bool, c: Caller): Phase
    requires FeedsScript(script, calls) && InCalls(calls, c)
  {
    if c.at == |calls| || (c.at + 1 == |calls| && !c.sys.pcs[FEEDER].Idle?) then
      if Finished(calls) then Finishing else Abandoned
    else if 0 < c.at && !Accepted(script, rejects, c.at - 1) then MustClose
    else Feeding
  }

  function AsFeed(script: Script, calls: seq<Op>, rejects: nat -> bool, c: Caller): Feed
    requires FeedsScript(script, calls) && InCalls(calls, c)
  {
    Feed(c.sys, PartsIn(script, calls, rejects, c.at), PhaseIn(script, calls, rejects, c),
         calls[..if c.sys.pcs[FEEDER].Idle? then c.at else c.at + 1])
  }

  function AsChoice(script: Script, calls: seq<Op>, rejects: nat -> bool, c: Caller, t: Thread, choice: Choice)
    : FeedChoice
    requires FeedsScript(script, calls) && InCalls(calls, c)
  {
    if t == FEEDER && c.sys.pcs[FEEDER].Idle? && c.at < |calls| && calls[c.at] == Op.Close then GiveUp else Run(choice)
  }

  lemma OtherStepIsFeedStep(script: Script, calls: seq<Op>, rejects: nat -> bool, c: Caller, t: Thread, choice: Choice)
    requires Produces(script, calls, rejects) && InCalls(calls, c) && t != FEEDER
    requires CallerStep(calls, rejects, c, t, choice).Some?
    ensures var n := CallerStep(calls, rejects, c, t, choice).value;
            && InCalls(calls, n)
            && FeedStep(script, AsFeed(script, calls, rejects, c), t, AsChoice(script, calls, rejects, c, t, choice))
               == Some(AsFeed(script, calls, rejects, n))
  {
  }

  lemma CallIsFeedStep(script: Script, calls: seq<Op>, rejects: nat -> bool, c: Caller, choice: Choice)
    requires Produces(script, calls, rejects) && InCalls(calls, c) && c.sys.pcs[FEEDER].Idle?
    requires CallerStep(calls, rejects, c, FEEDER, choice).Some?
    ensures var n := CallerStep(calls, rejects, c, FEEDER, choice).value;
            && InCalls(calls, n)
            && FeedStep(script, AsFeed(script, calls, rejects, c), FEEDER,
                        AsChoice(script, calls, rejects, c, FEEDER, choice))
               == Some(AsFeed(script, calls, rejects, n))
  {
    assert calls[..c.at] + [calls[c.at]] == calls[..c.at + 1];
  }

  lemma ReturnIsFeedStep(script: Script, calls: seq<Op>, rejects: nat -> bool, c: Caller, choice: Choice)
    requires Produces(script, calls, rejects) && InCalls(calls, c) && c.sys.pcs[FEEDER].Done?
    requires CallerStep(calls, rejects, c, FEEDER, choice).Some?
    ensures var n := CallerStep(calls, rejects, c, FEEDER, choice).value;
            && InCalls(calls, n)
            && FeedStep(script, AsFeed(script, calls, rejects, c), FEEDER,
                        AsChoice(script, calls, rejects, c, FEEDER, choice))
               == Some(AsFeed(script, calls, rejects, n))
  {
  }

  lemma RunIsFeedStep(script: Script, calls: seq<Op>, rejects: nat -> bool, c: Caller, choice: Choice)
    requires Produces(script, calls, rejects) && InCalls(calls, c) && InOperation(c.sys.pcs[FEEDER])
    requires CallerStep(calls, rejects, c, FEEDER, choice).Some?
    ensures var n := CallerStep(calls, rejects, c, FEEDER, choice).value;
            && InCalls(calls, n)
            && FeedStep(script, AsFeed(script, calls, rejects, c), FEEDER,
                        AsChoice(script, calls, rejects, c, FEEDER, choice))
               == Some(AsFeed(script, calls, rejects, n))
  {
  }

  /** Each step of the producer or of the others is the feeder's. */
  lemma StepIsFeedStep(script: Script, calls: seq<Op>, rejects: nat -> bool, c: Caller, t: Thread, choice: Choice)
    requires Produces(script, calls, rejects) && InCalls(calls, c) && CallerStep(calls, rejects, c, t, choice).Some?
    ensures var n := CallerStep(calls, rejects, c, t, choice).value;
            && InCalls(calls, n)
            && FeedStep(script, AsFeed(script, calls, rejects, c), t, AsChoice(script, calls, rejects, c, t, choice))
               == Some(AsFeed(script, calls, rejects, n))
  {
    if t != FEEDER {
      OtherStepIsFeedStep(script, calls, rejects, c, t, choice);
    } else {
      match c.sys.pcs[FEEDER]
      case Idle => CallIsFeedStep(script, calls, rejects, c, choice);
      case Done(_) => ReturnIsFeedStep(script, calls, rejects, c, choice);
      case _ => RunIsFeedStep(script, calls, rejects, c, choice);
    }
  }

  /** Every run of the producer's calls is a run of the feeder. */
  lemma {:induction false} RunIsFeedRun(script: Script, calls: seq<Op>, rejects: nat -> bool, c: Caller,
                                        schedule: CallerSchedule) returns (feeding: FeedSchedule)
    requires Produces(script, calls, rejects) && InCalls(calls, c) && CallerExec(calls, rejects, c, schedule).Some?
    ensures var e := CallerExec(calls, rejects, c, schedule).value;
            && InCalls(calls, e)
            && FeedExec(script, AsFeed(script, calls, rejects, c), feeding) == Some(AsFeed(script, calls, rejects, e))
    decreases |schedule|
  {
    if schedule == [] {
      feeding := [];
    } else {
      var (t, choice) := schedule[0];
      StepIsFeedStep(script, calls, rejects, c, t, choice);
      var n := CallerStep(calls, rejects, c, t, choice).value;
      var rest := RunIsFeedRun(script, calls, rejects, n, schedule[1..]);
      feeding := [(t, AsChoice(script, calls, rejects, c, t, choice))] + rest;
      assert feeding[1..] == rest;
    }
  }

  // ---------------------------------------------------------------- what EOF means

  /** In this run of a producer's calls readers get a prefix of the body, and one that sees EOF got all of it from a
      producer that has finished. */
  ghost predicate EofMeansIn(calls: seq<Op>, rejects: nat -> bool, body: seq<byte>, threads: set<Thread>,
                             schedule: CallerSchedule)
  {
    var run := CallerExec(calls, rejects, CallerStart(threads), schedule);
    run.Some? ==>
      var d, pcs := run.value.sys.pipe, run.value.sys.pcs;
      && !d.panicked && d.delivered <= body
      && forall t :: t in pcs && pcs[t].Done? && pcs[t].res.ReadEof? ==> Finished(calls) && d.delivered == body
  }

  ghost predicate EofMeans(calls: seq<Op>, rejects: nat -> bool, body: seq<byte>) {
    forall threads: set<Thread>, schedule: CallerSchedule :: EofMeansIn(calls, rejects, body, threads, schedule)
  }

  /** A truncated body never looks complete, whatever the interleaving: EOF is seen only after a Finish, and then the
      whole body was delivered. */
  lemma ProducedEofMeans(script: Script, calls: seq<Op>, rejects: nat -> bool)
    requires Produces(script, calls, rejects)
    ensures EofMeans(calls, rejects, Concat(script))
  {
    forall threads: set<Thread>, schedule: CallerSchedule
      ensures EofMeansIn(calls, rejects, Concat(script), threads, schedule)
    {
      if CallerExec(calls, rejects, CallerStart(threads), schedule).Some? {
        var feeding := RunIsFeedRun(script, calls, rejects, CallerStart(threads), schedule);
        assert AsFeed(script, calls, rejects, CallerStart(threads)) == FeedStart(threads);
        EofMeansWholeScript(script, threads, feeding);
      }
    }
  }
}
