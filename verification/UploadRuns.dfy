/** Runs of the upload machine (handleGetPart and the body copier of doRldpHttp, proxy/transport/client.go): a read
    for an accepted request ends, and every log of answers that fits a body is the log of a run. */
module UploadRuns {
  import opened GoTypes
  import opened Pipe
  import opened Feeder
  import opened PayloadHandler

  // ---------------------------------------------------------------- accepted reads end

  /** An upper bound on all the steps the copier has left. */
  function CopierLeft(script: Script, f: Feed): nat
    requires FEEDER in f.sys.pcs
  {
    var pc := f.sys.pcs[FEEDER];
    (if pc.Idle? then 0 else Rank(pc) + 1)
    + (match f.phase
       case Feeding => 6 * PartsLeft(script, f.next, pc) + 6
       case MustClose => 6
       case _ => 0)
  }

  /** The parts that have not been begun. */
  function PartsLeft(script: Script, next: nat, pc: Pc): nat {
    var begun := if pc.Idle? then next else next + 1;
    if begun <= |script| then |script| - begun else 0
  }

  /** An upper bound on the steps of handler t and the copier until t's read has ended. */
  function ReadLeft(script: Script, s: Upload, t: Thread): nat
    requires FEEDER in s.feed.sys.pcs && t in s.feed.sys.pcs
  {
    Rank(s.feed.sys.pcs[t]) + 1 + CopierLeft(script, s.feed)
  }

  lemma CopierStepLowers(script: Script, f: Feed, c: FeedChoice)
    requires FeedInv(script, f) && FeedStep(script, f, FEEDER, c).Some?
    ensures var g := FeedStep(script, f, FEEDER, c).value;
            && FEEDER in g.sys.pcs && CopierLeft(script, g) < CopierLeft(script, f)
            && g.sys.pcs == f.sys.pcs[FEEDER := g.sys.pcs[FEEDER]]
  {
    var pc := f.sys.pcs[FEEDER];
    assert FeederOk(script, f.sys.pipe, pc, f.next, f.phase) && ThreadOk(f.sys.pipe, FEEDER, pc);
    if InOperation(pc) {
      RankDecreases(f.sys.pipe, FEEDER, pc, c.choice);
      CopierStaysIn(script, f, c);
    }
  }

  /** Inside a call the copier's other counts stay as they are. */
  lemma CopierStaysIn(script: Script, f: Feed, c: FeedChoice)
    requires FEEDER in f.sys.pcs && InOperation(f.sys.pcs[FEEDER]) && !f.sys.pcs[FEEDER].InRead?
    requires FeedStep(script, f, FEEDER, c).Some?
    ensures var g := FeedStep(script, f, FEEDER, c).value;
            && g.next == f.next && g.phase == f.phase && FEEDER in g.sys.pcs && !g.sys.pcs[FEEDER].Idle?
            && ThreadStep(f.sys.pipe, FEEDER, f.sys.pcs[FEEDER], c.choice) == Some((g.sys.pipe, g.sys.pcs[FEEDER]))
  {
    match f.sys.pcs[FEEDER]
    case InWrite(w) => WriteFrame(f.sys.pipe, FEEDER, w, c.choice);
    case InFinish(k) => FinishFrame(f.sys.pipe, FEEDER, k);
    case InClose(k) => CloseFrame(f.sys.pipe, FEEDER, k);
  }

  lemma ReaderStepLowers(script: Script, s: Upload, t: Thread, c: HChoice)
    requires UploadInv(script, s) && t in s.hs && s.hs[t].HRead? && UploadStep(script, s, t, c).Some?
    ensures var n := UploadStep(script, s, t, c).value;
            && t in n.hs && FEEDER in n.feed.sys.pcs && t in n.feed.sys.pcs
            && (n.hs[t].HRead? ==> ReadLeft(script, n, t) < ReadLeft(script, s, t))
  {
    var pc := s.feed.sys.pcs[t];
    assert InStep(s.hs[t], pc) && ThreadOk(s.feed.sys.pipe, t, pc);
    if !pc.Done? {
      HandlerStepFrame(script, s.feed, t, c.c);
      RankDecreases(s.feed.sys.pipe, t, pc, c.c.choice);
    }
  }

  lemma OtherStepKeepsRead(script: Script, s: Upload, u: Thread, c: HChoice, t: Thread)
    requires UploadInv(script, s) && t in s.hs && s.hs[t].HRead? && u !in {t, FEEDER}
    requires UploadStep(script, s, u, c).Some?
    ensures var n := UploadStep(script, s, u, c).value;
            && t in n.hs && n.hs[t] == s.hs[t] && FEEDER in n.feed.sys.pcs && t in n.feed.sys.pcs
            && ReadLeft(script, n, t) == ReadLeft(script, s, t)
  {
    HandlerTouchesItself(script, s, u, c, t);
    HandlerTouchesItself(script, s, u, c, FEEDER);
  }

  lemma HandlerTouchesItself(script: Script, s: Upload, u: Thread, c: HChoice, v: Thread)
    requires u != FEEDER && v != u && v in s.feed.sys.pcs && UploadStep(script, s, u, c).Some?
    ensures var n := UploadStep(script, s, u, c).value;
            && n.feed.phase == s.feed.phase && n.feed.next == s.feed.next
            && v in n.feed.sys.pcs && n.feed.sys.pcs[v] == s.feed.sys.pcs[v]
            && (v in s.hs ==> v in n.hs && n.hs[v] == s.hs[v])
  {
    var h := s.hs[u];
    if h.HRead? || h.HClose? { PipeTouchesItself(script, s, u, c, v); }
  }

  lemma PipeTouchesItself(script: Script, s: Upload, u: Thread, c: HChoice, v: Thread)
    requires u != FEEDER && v != u && v in s.feed.sys.pcs && UploadStep(script, s, u, c).Some?
    requires s.hs[u].HRead? || s.hs[u].HClose?
    ensures var n := UploadStep(script, s, u, c).value;
            && n.feed.phase == s.feed.phase && n.feed.next == s.feed.next
            && v in n.feed.sys.pcs && n.feed.sys.pcs[v] == s.feed.sys.pcs[v]
            && (v in s.hs ==> v in n.hs && n.hs[v] == s.hs[v])
  {
  }

  /** The steps that t and the copier take in a schedule. */
  function TheirSteps(schedule: UploadSchedule, t: Thread): nat {
    if schedule == [] then 0 else (if schedule[0].0 in {t, FEEDER} then 1 else 0) + TheirSteps(schedule[1..], t)
  }

  /** No step takes the end of a read further away, and one of its handler or the copier brings it nearer. */
  lemma StepTowardsEnd(script: Script, s: Upload, u: Thread, c: HChoice, t: Thread)
    requires UploadInv(script, s) && t in s.hs && s.hs[t].HRead? && UploadStep(script, s, u, c).Some?
    ensures var n := UploadStep(script, s, u, c).value;
            && t in n.hs && FEEDER in n.feed.sys.pcs && t in n.feed.sys.pcs
            && (n.hs[t].HRead? ==>
                 ReadLeft(script, n, t) + (if u in {t, FEEDER} then 1 else 0) <= ReadLeft(script, s, t))
  {
    if u == t {
      ReaderStepLowers(script, s, t, c);
    } else if u == FEEDER {
      CopierLowersRead(script, s, c, t);
    } else {
      OtherStepKeepsRead(script, s, u, c, t);
    }
  }

  /** Handler t stays in the read it is in, all along the schedule. */
  predicate ReadsThroughout(script: Script, s: Upload, t: Thread, schedule: UploadSchedule)
    decreases |schedule|
  {
    && t in s.hs && s.hs[t].HRead?
    && (schedule == [] ||
        match UploadStep(script, s, schedule[0].0, schedule[0].1)
        case None => false
        case Some(n) => ReadsThroughout(script, n, t, schedule[1..]))
  }

  /** A read for an accepted request ends: a run in which it goes on has fewer than ReadLeft steps of its handler and
      the copier, whatever the other handlers do and whether or not the stream is ever closed. And while it goes on,
      as ReaderProgresses says, one of the two can step unless the copier has given up. */
  lemma {:induction false} AcceptedReadEnds(script: Script, s: Upload, t: Thread, schedule: UploadSchedule)
    requires UploadInv(script, s) && ReadsThroughout(script, s, t, schedule)
    ensures FEEDER in s.feed.sys.pcs && t in s.feed.sys.pcs && TheirSteps(schedule, t) < ReadLeft(script, s, t)
    decreases |schedule|
  {
    assert FEEDER in s.feed.sys.pcs && t in s.feed.sys.pcs;
    if schedule != [] {
      var (u, c) := schedule[0];
      var n := UploadStep(script, s, u, c).value;
      StepKeepsUpload(script, s, u, c);
      StepTowardsEnd(script, s, u, c, t);
      AcceptedReadEnds(script, n, t, schedule[1..]);
    }
  }

  lemma CopierLowersRead(script: Script, s: Upload, c: HChoice, t: Thread)
    requires UploadInv(script, s) && t in s.hs && s.hs[t].HRead? && UploadStep(script, s, FEEDER, c).Some?
    ensures var n := UploadStep(script, s, FEEDER, c).value;
            && t in n.hs && n.hs[t] == s.hs[t] && FEEDER in n.feed.sys.pcs && t in n.feed.sys.pcs
            && ReadLeft(script, n, t) < ReadLeft(script, s, t)
  {
    CopierStepLowers(script, s.feed, c.c);
  }

  // ---------------------------------------------------------------- every log is some run's

  const ME: Thread := 1

  /** One handler, a copier that has not given up, and a stream nobody closes. */
  ghost predicate Quiet(script: Script, s: Upload) {
    && UploadInv(script, s) && Unbroken(s.feed) && s.hs.Keys == {ME} && !s.feed.sys.pipe.closed
    && !s.hs[ME].HClose?
    && NotTurnedAway(s.feed.sys.pcs[FEEDER]) && NotCutShort(s.feed.sys.pcs[ME])
  }

  predicate NotTurnedAway(pc: Pc) {
    pc != Done(ClosedPipe) && pc != InWrite(WUnlock(ClosedPipe))
  }

  predicate NotCutShort(pc: Pc) {
    && (pc.Done? ==> !pc.res.ReadUnexpected?)
    && (pc.InRead? && pc.r.RUnlock? ==> !pc.r.res.ReadUnexpected?)
  }

  lemma QuietCopier(script: Script, s: Upload)
    requires Quiet(script, s) && UploadStep(script, s, FEEDER, Inner(Run(Proceed))).Some?
    ensures var n := UploadStep(script, s, FEEDER, Inner(Run(Proceed))).value;
            Quiet(script, n) && n == s.(feed := n.feed)
  {
    var c := Run(Proceed);
    var pc := s.feed.sys.pcs[FEEDER];
    StepKeepsUpload(script, s, FEEDER, Inner(c));
    assert FeederOk(script, s.feed.sys.pipe, pc, s.feed.next, s.feed.phase) && ThreadOk(s.feed.sys.pipe, FEEDER, pc);
    CopierStaysQuiet(script, s.feed);
  }

  lemma CopierStaysQuiet(script: Script, f: Feed)
    requires FeedInv(script, f) && Unbroken(f) && !f.sys.pipe.closed && NotTurnedAway(f.sys.pcs[FEEDER])
    requires FeedStep(script, f, FEEDER, Run(Proceed)).Some?
    ensures var g := FeedStep(script, f, FEEDER, Run(Proceed)).value;
            && Unbroken(g) && !g.sys.pipe.closed && FEEDER in g.sys.pcs && NotTurnedAway(g.sys.pcs[FEEDER])
            && g.sys.pcs == f.sys.pcs[FEEDER := g.sys.pcs[FEEDER]]
  {
    var pc := f.sys.pcs[FEEDER];
    assert FeederOk(script, f.sys.pipe, pc, f.next, f.phase) && ThreadOk(f.sys.pipe, FEEDER, pc);
  }

  /** The handler's read goes on. */
  lemma QuietReading(script: Script, s: Upload)
    requires Quiet(script, s) && s.hs[ME].HRead? && !s.feed.sys.pcs[ME].Done?
    requires UploadStep(script, s, ME, Inner(Run(Proceed))).Some?
    ensures var n := UploadStep(script, s, ME, Inner(Run(Proceed))).value; Quiet(script, n) && n == s.(feed := n.feed)
  {
    StepKeepsUpload(script, s, ME, Inner(Run(Proceed)));
    HandlerStepFrame(script, s.feed, ME, Run(Proceed));
    var pc := s.feed.sys.pcs[ME];
    assert InStep(s.hs[ME], pc) && ThreadOk(s.feed.sys.pipe, ME, pc);
    ReadStepShape(s.feed.sys.pipe, ME, pc.r, Proceed);
  }

  /** The read has ended and the request is answered. */
  lemma QuietAnswering(script: Script, s: Upload)
    requires Quiet(script, s) && s.hs[ME].HRead? && s.feed.sys.pcs[ME].Done?
    ensures var n := UploadStep(script, s, ME, Inner(Run(Proceed)));
            && n.Some? && Quiet(script, n.value) && n.value.hs[ME] in {HIdle, HAnswered}
            && |n.value.answers| == |s.answers| + 1 && n.value.answers[..|s.answers|] == s.answers
            && n.value.answers[|s.answers|].req == s.hs[ME].req
  {
    assert InStep(s.hs[ME], s.feed.sys.pcs[ME]);
    StepKeepsUpload(script, s, ME, Inner(Run(Proceed)));
    HandlerStepFrame(script, s.feed, ME, Run(Proceed));
  }

  /** The answered request of an upload, after these answers. */
  predicate AnsweredNext(s: Upload, answers: seq<Answer>, req: Request) {
    |s.answers| == |answers| + 1 && s.answers[..|answers|] == answers && s.answers[|answers|].req == req
  }

  lemma ThenOn(script: Script, s: Upload, t: Thread, c: HChoice, n: Upload, schedule: UploadSchedule)
    requires UploadStep(script, s, t, c) == Some(n)
    ensures UploadExec(script, s, [(t, c)] + schedule) == UploadExec(script, n, schedule)
  {
    assert ([(t, c)] + schedule)[1..] == schedule;
  }

  /** A read that nobody disturbs is answered: the handler goes on when it can, the copier otherwise. */
  lemma ReadIsAnswered(script: Script, s: Upload) returns (schedule: UploadSchedule, n: Upload)
    requires Quiet(script, s) && s.hs[ME].HRead?
    ensures UploadExec(script, s, schedule) == Some(n) && Quiet(script, n)
    ensures n.hs[ME] in {HIdle, HAnswered} && AnsweredNext(n, s.answers, s.hs[ME].req)
    decreases ReadLeft(script, s, ME)
  {
    var go := Inner(Run(Proceed));
    if s.feed.sys.pcs[ME].Done? {
      QuietAnswering(script, s);
      n := UploadStep(script, s, ME, go).value;
      schedule := [(ME, go)];
      ThenOn(script, s, ME, go, n, []);
    } else if UploadStep(script, s, ME, go).Some? {
      QuietReading(script, s);
      ReaderStepLowers(script, s, ME, go);
      var m := UploadStep(script, s, ME, go).value;
      var rest;
      rest, n := ReadIsAnswered(script, m);
      schedule := [(ME, go)] + rest;
      ThenOn(script, s, ME, go, m, rest);
    } else {
      EmptyPipeFeeds(script, s, ME);
      QuietCopier(script, s);
      CopierLowersRead(script, s, go, ME);
      var m := UploadStep(script, s, FEEDER, go).value;
      var rest;
      rest, n := ReadIsAnswered(script, m);
      schedule := [(FEEDER, go)] + rest;
      ThenOn(script, s, FEEDER, go, m, rest);
    }
  }

  /** An idle handler takes an acceptable request and begins to read. */
  lemma ReadBegins(script: Script, s: Upload, req: Request) returns (schedule: UploadSchedule, n: Upload)
    requires Quiet(script, s) && s.hs[ME] == HIdle && Offset(req) == s.nextOffset && req.maxChunk >= 0
    ensures UploadExec(script, s, schedule) == Some(n) && Quiet(script, n)
    ensures n.hs[ME] == HRead(req) && n.answers == s.answers
  {
    var go := Inner(Run(Proceed));
    var taken := UploadStep(script, s, ME, Receive(req)).value;
    RequestTaken(script, s, req);
    var locked := UploadStep(script, taken, ME, go).value;
    LockTaken(script, taken, req);
    CheckPassed(script, locked, req);
    n := UploadStep(script, locked, ME, go).value;
    schedule := [(ME, Receive(req))] + ([(ME, go)] + [(ME, go)]);
    ThenOn(script, s, ME, Receive(req), taken, [(ME, go)] + [(ME, go)]);
    ThenOn(script, taken, ME, go, locked, [(ME, go)]);
    ThenOn(script, locked, ME, go, n, []);
    assert [(ME, go)] + [] == [(ME, go)];
  }

  lemma RequestTaken(script: Script, s: Upload, req: Request)
    requires Quiet(script, s) && s.hs[ME] == HIdle
    ensures var n := UploadStep(script, s, ME, Receive(req));
            n == Some(s.(hs := s.hs[ME := HLock(req)])) && Quiet(script, n.value)
  {
    StepKeepsUpload(script, s, ME, Receive(req));
  }

  lemma LockTaken(script: Script, s: Upload, req: Request)
    requires Quiet(script, s) && s.hs[ME] == HLock(req)
    ensures var n := UploadStep(script, s, ME, Inner(Run(Proceed)));
            n == Some(s.(mx := Some(ME), hs := s.hs[ME := HCheck(req)])) && Quiet(script, n.value)
  {
    assert s.mx == None;
    StepKeepsUpload(script, s, ME, Inner(Run(Proceed)));
  }

  lemma CheckPassed(script: Script, s: Upload, req: Request)
    requires Quiet(script, s) && s.hs[ME] == HCheck(req) && Offset(req) == s.nextOffset && req.maxChunk >= 0
    ensures var n := UploadStep(script, s, ME, Inner(Run(Proceed)));
            n.Some? && Quiet(script, n.value) && n.value.hs[ME] == HRead(req) && n.value.answers == s.answers
  {
    CheckDecides(script, s, ME, Inner(Run(Proceed)));
    StepKeepsUpload(script, s, ME, Inner(Run(Proceed)));
    HandlerStepFrame(script, s.feed, ME, Run(Start(Read(req.maxChunk))));
  }

  lemma AnswerLost(script: Script, s: Upload)
    requires Quiet(script, s) && s.hs[ME] == HAnswered
    ensures var n := UploadStep(script, s, ME, SendFailed);
            n == Some(s.(hs := s.hs[ME := HIdle])) && Quiet(script, n.value)
  {
    StepKeepsUpload(script, s, ME, SendFailed);
  }

  lemma {:induction false} ExecAppend(script: Script, s: Upload, a: UploadSchedule, n: Upload, b: UploadSchedule)
    requires UploadExec(script, s, a) == Some(n)
    ensures UploadExec(script, s, a + b) == UploadExec(script, n, b)
    decreases |a|
  {
    if a == [] {
      assert a + b == b;
    } else {
      assert (a + b)[1..] == a[1..] + b;
      ExecAppend(script, UploadStep(script, s, a[0].0, a[0].1).value, a[1..], n, b);
    }
  }

  /** An acceptable request is answered, and its handler idle again; the answer may be lost on its way. */
  lemma Answered(script: Script, s: Upload, req: Request) returns (schedule: UploadSchedule, n: Upload)
    requires Quiet(script, s) && s.hs[ME] == HIdle && Offset(req) == s.nextOffset && req.maxChunk >= 0
    ensures UploadExec(script, s, schedule) == Some(n) && Quiet(script, n)
    ensures n.hs[ME] == HIdle && AnsweredNext(n, s.answers, req)
  {
    var begin, reading := ReadBegins(script, s, req);
    var rest, m := ReadIsAnswered(script, reading);
    ExecAppend(script, s, begin, reading, rest);
    var last;
    last, n := BackToIdle(script, m);
    ExecAppend(script, s, begin + rest, m, last);
    schedule := begin + rest + last;
  }

  lemma BackToIdle(script: Script, s: Upload) returns (schedule: UploadSchedule, n: Upload)
    requires Quiet(script, s) && s.hs[ME] in {HIdle, HAnswered}
    ensures UploadExec(script, s, schedule) == Some(n) && Quiet(script, n)
    ensures n.hs[ME] == HIdle && n.answers == s.answers
  {
    schedule, n := [], s;
    if s.hs[ME] == HAnswered {
      AnswerLost(script, s);
      n := s.(hs := s.hs[ME := HIdle]);
      schedule := [(ME, SendFailed)];
      ThenOn(script, s, ME, SendFailed, n, []);
    }
  }

  lemma QuietStart(script: Script)
    ensures Quiet(script, UploadStart({ME}))
  {
    UploadStartOk(script, {ME});
  }

  /** Every sequence of answers that continue one another and fit the body is what some run ends with. */
  lemma {:induction false} LogIsRun(script: Script, answers: seq<Answer>) returns (schedule: UploadSchedule, n: Upload)
    requires AnswersOk(Concat(script), answers)
    ensures UploadExec(script, UploadStart({ME}), schedule) == Some(n) && n.answers == answers
    ensures Quiet(script, n) && n.hs[ME] == HIdle
    decreases |answers|
  {
    if answers == [] {
      QuietStart(script);
      schedule, n := [], UploadStart({ME});
    } else {
      var before, a := answers[..|answers| - 1], answers[|answers| - 1];
      LogPrefix(Concat(script), answers);
      var first, m := LogIsRun(script, before);
      var rest;
      rest, n := Answered(script, m, a.req);
      ExecAppend(script, UploadStart({ME}), first, m, rest);
      schedule := first + rest;
      SameAnswer(Concat(script), n.answers, answers);
    }
  }

  lemma LogPrefix(body: seq<byte>, answers: seq<Answer>)
    requires AnswersOk(body, answers) && answers != []
    ensures var before, a := answers[..|answers| - 1], answers[|answers| - 1];
            && AnswersOk(body, before) && Offset(a.req) == a.offset == EndOffset(before) && a.req.maxChunk >= 0
  {
    var before := answers[..|answers| - 1];
    assert Fits(body, answers, |answers| - 1);
    forall i | 0 <= i < |before| ensures Fits(body, before, i) {
      assert Fits(body, answers, i) && before[..i] == answers[..i];
    }
  }

  /** A log's answers are determined by its requests. */
  lemma SameAnswer(body: seq<byte>, some: seq<Answer>, answers: seq<Answer>)
    requires AnswersOk(body, some) && AnswersOk(body, answers) && |some| == |answers| > 0
    requires var k := |answers| - 1; some[..k] == answers[..k] && some[k].req == answers[k].req
    ensures some == answers
  {
    var k := |answers| - 1;
    assert Fits(body, some, k) && Fits(body, answers, k);
    assert some == some[..k] + [some[k]] && answers == answers[..k] + [answers[k]];
  }
}
