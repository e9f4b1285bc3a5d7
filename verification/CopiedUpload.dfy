/** An upload whose copier makes the calls the copying loop is proved to make (doRldpHttp, proxy/transport/client.go):
    each of its runs is one of the upload machine. */
module CopiedUpload {
  import opened GoTypes
  import opened Pipe
  import opened Feeder
  import opened Producer
  import opened PayloadHandler

  /** at counts the copier's calls that have returned. */
  datatype Copied = Copied(upload: Upload, at: nat)

  function CopierOf(c: Copied): Caller {
    Caller(c.upload.feed.sys, c.at)
  }

  /** The upload's view of the copier is that of its calls. */
  predicate InStepWith(script: Script, calls: seq<Op>, rejects: nat -> bool, c: Copied) {
    && FeedsScript(script, calls) && InCalls(calls, CopierOf(c))
    && c.upload.feed == AsFeed(script, calls, rejects, CopierOf(c))
  }

  function CopiedStep(script: Script, calls: seq<Op>, rejects: nat -> bool, c: Copied, t: Thread, choice: HChoice)
    : Option<Copied>
    requires Produces(script, calls, rejects) && InStepWith(script, calls, rejects, c)
  {
    if t != FEEDER then
      match UploadStep(script, c.upload, t, choice)
      case None => None
      case Some(n) => Some(Copied(n, c.at))
    else if !choice.Inner? || !choice.c.Run? then None
    else
      match CallerStep(calls, rejects, CopierOf(c), FEEDER, choice.c.choice)
      case None => None
      case Some(n) =>
        StepIsFeedStep(script, calls, rejects, CopierOf(c), FEEDER, choice.c.choice);
        Some(Copied(c.upload.(feed := AsFeed(script, calls, rejects, n)), n.at))
  }

  function UploadChoice(script: Script, calls: seq<Op>, rejects: nat -> bool, c: Copied, t: Thread, choice: HChoice)
    : HChoice
    requires InStepWith(script, calls, rejects, c)
  {
    if t == FEEDER && choice.Inner? && choice.c.Run? then
      Inner(AsChoice(script, calls, rejects, CopierOf(c), FEEDER, choice.c.choice))
    else choice
  }

  /** Each step is the upload's, and keeps the two views together. */
  lemma StepIsUploadStep(script: Script, calls: seq<Op>, rejects: nat -> bool, c: Copied, t: Thread, choice: HChoice)
    requires Produces(script, calls, rejects) && InStepWith(script, calls, rejects, c)
    requires CopiedStep(script, calls, rejects, c, t, choice).Some?
    ensures var n := CopiedStep(script, calls, rejects, c, t, choice).value;
            && InStepWith(script, calls, rejects, n)
            && UploadStep(script, c.upload, t, UploadChoice(script, calls, rejects, c, t, choice)) == Some(n.upload)
  {
    if t == FEEDER {
      StepIsFeedStep(script, calls, rejects, CopierOf(c), FEEDER, choice.c.choice);
    } else {
      OthersLeaveCopier(script, c.upload, t, choice);
    }
  }

  lemma OthersLeaveCopier(script: Script, s: Upload, t: Thread, choice: HChoice)
    requires t != FEEDER && FEEDER in s.feed.sys.pcs && UploadStep(script, s, t, choice).Some?
    ensures var n := UploadStep(script, s, t, choice).value;
            && n.feed == s.feed.(sys := n.feed.sys)
            && FEEDER in n.feed.sys.pcs && n.feed.sys.pcs[FEEDER] == s.feed.sys.pcs[FEEDER]
  {
  }

  function CopiedExec(script: Script, calls: seq<Op>, rejects: nat -> bool, c: Copied, schedule: UploadSchedule)
    : Option<Copied>
    requires Produces(script, calls, rejects) && InStepWith(script, calls, rejects, c)
    decreases |schedule|
  {
    if schedule == [] then Some(c)
    else
      match CopiedStep(script, calls, rejects, c, schedule[0].0, schedule[0].1)
      case None => None
      case Some(n) =>
        StepIsUploadStep(script, calls, rejects, c, schedule[0].0, schedule[0].1);
        CopiedExec(script, calls, rejects, n, schedule[1..])
  }

  function CopiedStart(handlers: set<Thread>): Copied {
    Copied(UploadStart(handlers), 0)
  }

  lemma StartsInStep(script: Script, calls: seq<Op>, rejects: nat -> bool, handlers: set<Thread>)
    requires Produces(script, calls, rejects)
    ensures InStepWith(script, calls, rejects, CopiedStart(handlers))
  {
  }

  lemma {:induction false} RunIsUploadRun(script: Script, calls: seq<Op>, rejects: nat -> bool, c: Copied,
                                          schedule: UploadSchedule) returns (uploading: UploadSchedule)
    requires Produces(script, calls, rejects) && InStepWith(script, calls, rejects, c)
    requires CopiedExec(script, calls, rejects, c, schedule).Some?
    ensures var e := CopiedExec(script, calls, rejects, c, schedule).value;
            InStepWith(script, calls, rejects, e) && UploadExec(script, c.upload, uploading) == Some(e.upload)
    decreases |schedule|
  {
    if schedule == [] {
      uploading := [];
    } else {
      var (t, choice) := schedule[0];
      StepIsUploadStep(script, calls, rejects, c, t, choice);
      var n := CopiedStep(script, calls, rejects, c, t, choice).value;
      var rest := RunIsUploadRun(script, calls, rejects, n, schedule[1..]);
      uploading := [(t, UploadChoice(script, calls, rejects, c, t, choice))] + rest;
      assert uploading[1..] == rest;
    }
  }

  /** A copier that finishes never gives up on the way. */
  lemma FinishedIsUnbroken(script: Script, calls: seq<Op>, rejects: nat -> bool, c: Copied)
    requires Produces(script, calls, rejects) && Finished(calls) && InStepWith(script, calls, rejects, c)
    ensures Unbroken(c.upload.feed)
  {
  }

  /** Upload end to end, for every interleaving of handlers and the calls of a copier that finishes. */
  lemma CopiedEndToEnd(script: Script, calls: seq<Op>, rejects: nat -> bool, handlers: set<Thread>,
                       schedule: UploadSchedule, size: ChunkSize)
    requires Produces(script, calls, rejects) && Finished(calls) && size > 0
    ensures InStepWith(script, calls, rejects, CopiedStart(handlers))
    ensures var run := CopiedExec(script, calls, rejects, CopiedStart(handlers), schedule);
            run.Some? && AllOfSize(run.value.upload.answers, size) ==>
            EndToEnd(Concat(script), size, run.value.upload.answers)
  {
    StartsInStep(script, calls, rejects, handlers);
    var run := CopiedExec(script, calls, rejects, CopiedStart(handlers), schedule);
    if run.Some? && AllOfSize(run.value.upload.answers, size) {
      var uploading := RunIsUploadRun(script, calls, rejects, CopiedStart(handlers), schedule);
      FinishedIsUnbroken(script, calls, rejects, run.value);
      UploadEndToEnd(script, handlers, uploading, size);
    }
  }
}
