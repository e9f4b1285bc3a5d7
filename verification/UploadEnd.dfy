/** The end of an upload (getRLDPQueryHandler and handleGetPart, proxy/transport/client.go): what the mark of a last
    part tells the peer, in every run, and what the handler does once it is sent. */
module UploadEnd {
  import opened GoTypes
  import opened Pipe
  import opened Feeder
  import opened PayloadHandler
  import opened UploadRuns

  // ---------------------------------------------------------------- a marked part ends the body

  /** Answers marked as the last are given only once the copier has called Finish. */
  predicate MarkedAfterFinish(s: Upload) {
    s.feed.phase.Finishing? || forall i :: 0 <= i < |s.answers| ==> !s.answers[i].part.last
  }

  /** A step gives at most one answer, marked only when a Read has returned EOF. */
  lemma StepAnswers(script: Script, s: Upload, t: Thread, c: HChoice)
    requires UploadStep(script, s, t, c).Some?
    ensures var n := UploadStep(script, s, t, c).value;
            n.answers == s.answers
            || (|n.answers| == |s.answers| + 1 && n.answers[..|s.answers|] == s.answers
                && (n.answers[|s.answers|].part.last ==>
                     t in s.feed.sys.pcs && s.feed.sys.pcs[t].Done? && s.feed.sys.pcs[t].res.ReadEof?))
  {
  }

  lemma EofIsFinishing(script: Script, f: Feed, t: Thread)
    requires FeedInv(script, f) && t in f.sys.pcs && f.sys.pcs[t].Done? && f.sys.pcs[t].res.ReadEof?
    ensures f.phase.Finishing?
  {
    assert ThreadOk(f.sys.pipe, t, f.sys.pcs[t]);
    assert Complete(f.sys.pipe);
  }

  lemma StepKeepsMarks(script: Script, s: Upload, t: Thread, c: HChoice)
    requires UploadInv(script, s) && MarkedAfterFinish(s) && UploadStep(script, s, t, c).Some?
    ensures MarkedAfterFinish(UploadStep(script, s, t, c).value)
  {
    var n := UploadStep(script, s, t, c).value;
    StepAnswers(script, s, t, c);
    if s.feed.phase.Finishing? {
      PhaseStays(script, s, t, c);
    } else if n.answers != s.answers && n.answers[|s.answers|].part.last {
      EofIsFinishing(script, s.feed, t);
    }
  }

  lemma PhaseStays(script: Script, s: Upload, t: Thread, c: HChoice)
    requires s.feed.phase.Finishing? && UploadStep(script, s, t, c).Some?
    ensures UploadStep(script, s, t, c).value.feed.phase.Finishing?
  {
  }

  lemma {:induction false} RunKeepsMarks(script: Script, s: Upload, schedule: UploadSchedule)
    requires UploadInv(script, s) && MarkedAfterFinish(s) && UploadExec(script, s, schedule).Some?
    ensures MarkedAfterFinish(UploadExec(script, s, schedule).value)
    decreases |schedule|
  {
    if schedule != [] {
      var (t, c) := schedule[0];
      StepKeepsUpload(script, s, t, c);
      StepKeepsMarks(script, s, t, c);
      RunKeepsMarks(script, UploadStep(script, s, t, c).value, schedule[1..]);
    }
  }

  /** The answers up to number i are the body up to where the last of them ended. */
  lemma {:induction false} AnswersJoin(body: seq<byte>, answers: seq<Answer>, n: nat)
    requires AnswersOk(body, answers) && n <= |answers|
    ensures EndOffset(answers[..n]) <= |body| && Concat(Datas(answers[..n])) == body[..EndOffset(answers[..n])]
  {
    if n == 0 {
      assert answers[..0] == [];
    } else {
      AnswersJoin(body, answers, n - 1);
      assert Fits(body, answers, n - 1);
      assert answers[..n][..n - 1] == answers[..n - 1] && answers[..n][n - 1] == answers[n - 1];
      ConcatSnoc(Datas(answers[..n - 1]), answers[n - 1].part.data);
      assert Datas(answers[..n]) == Datas(answers[..n - 1]) + [answers[n - 1].part.data];
    }
  }

  /** A truncated upload never looks complete to the peer: in every run, whatever sizes were asked for and even where
      the copier can give up, the parts up to one that is marked as the last are the whole body. */
  lemma MarkedMeansWhole(script: Script, handlers: set<Thread>, schedule: UploadSchedule, i: nat)
    requires UploadExec(script, UploadStart(handlers), schedule).Some?
    requires var answers := UploadExec(script, UploadStart(handlers), schedule).value.answers;
             i < |answers| && answers[i].part.last
    ensures var s := UploadExec(script, UploadStart(handlers), schedule).value;
            s.feed.phase.Finishing? && Concat(Datas(s.answers[..i + 1])) == Concat(script)
  {
    var s, body := UploadExec(script, UploadStart(handlers), schedule).value, Concat(script);
    UploadStartOk(script, handlers);
    RunKeepsMarks(script, UploadStart(handlers), schedule);
    HandlerRefinesPeerAnswer(script, handlers, schedule);
    MarkedEnds(body, s.answers, i);
  }

  lemma MarkedEnds(body: seq<byte>, answers: seq<Answer>, i: nat)
    requires AnswersOk(body, answers) && i < |answers| && answers[i].part.last
    ensures Concat(Datas(answers[..i + 1])) == body
  {
    AnswersJoin(body, answers, i + 1);
    assert Fits(body, answers, i);
    assert answers[..i + 1][i] == answers[i];
  }

  // ---------------------------------------------------------------- and closes the stream

  /** Handler t is closing the stream, or somebody has. */
  predicate ClosesOrClosed(s: Upload, t: Thread) {
    || s.feed.sys.pipe.closed
    || (t in s.hs && s.hs[t].HClose? && t in s.feed.sys.pcs
        && (s.feed.sys.pcs[t] == InClose(CLock) || s.feed.sys.pcs[t] == InClose(CCheck)))
  }

  lemma ClosedStays(d: Streamer, t: Thread, pc: Pc, choice: Choice)
    requires ThreadStep(d, t, pc, choice).Some?
    ensures d.closed ==> ThreadStep(d, t, pc, choice).value.0.closed
  {
  }

  lemma FeedStaysClosed(script: Script, f: Feed, t: Thread, c: FeedChoice)
    requires f.sys.pipe.closed && FeedStep(script, f, t, c).Some?
    ensures FeedStep(script, f, t, c).value.sys.pipe.closed
  {
    if c.Run? && ThreadStep(f.sys.pipe, t, f.sys.pcs[t], c.choice).Some? {
      ClosedStays(f.sys.pipe, t, f.sys.pcs[t], c.choice);
    }
  }

  lemma StreamStaysClosed(script: Script, s: Upload, u: Thread, c: HChoice)
    requires s.feed.sys.pipe.closed && UploadStep(script, s, u, c).Some?
    ensures UploadStep(script, s, u, c).value.feed.sys.pipe.closed
  {
    if u == FEEDER {
      FeedStaysClosed(script, s.feed, u, c.c);
    } else if s.hs[u].HRead? || s.hs[u].HClose? {
      FeedStaysClosed(script, s.feed, u, if s.feed.sys.pcs[u].Done? then Run(Proceed) else c.c);
    }
  }

  lemma StepCloses(script: Script, s: Upload, u: Thread, c: HChoice, t: Thread)
    requires UploadInv(script, s) && ClosesOrClosed(s, t) && t != FEEDER && UploadStep(script, s, u, c).Some?
    ensures ClosesOrClosed(UploadStep(script, s, u, c).value, t)
  {
    if s.feed.sys.pipe.closed {
      StreamStaysClosed(script, s, u, c);
    } else if u == FEEDER {
      FeederLeavesReaders(script, s.feed, c.c);
    } else if u != t {
      HandlerTouchesItself(script, s, u, c, t);
    }
  }

  lemma {:induction false} RunCloses(script: Script, s: Upload, schedule: UploadSchedule, t: Thread)
    requires UploadInv(script, s) && ClosesOrClosed(s, t) && t != FEEDER && UploadExec(script, s, schedule).Some?
    ensures ClosesOrClosed(UploadExec(script, s, schedule).value, t)
    decreases |schedule|
  {
    if schedule != [] {
      var (u, c) := schedule[0];
      StepKeepsUpload(script, s, u, c);
      StepCloses(script, s, u, c, t);
      RunCloses(script, UploadStep(script, s, u, c).value, schedule[1..], t);
    }
  }

  /** A handler that has sent a last part closes the stream: however the run goes on, once it is done with this
      request the stream is closed. */
  lemma SentLastCloses(script: Script, handlers: set<Thread>, first: UploadSchedule, s: Upload, t: Thread, c: HChoice,
                       later: UploadSchedule)
    requires UploadExec(script, UploadStart(handlers), first) == Some(s) && t in s.hs && s.hs[t].HAnswered?
    requires !c.SendFailed? && UploadStep(script, s, t, c).Some?
    requires UploadExec(script, UploadStep(script, s, t, c).value, later).Some?
    ensures var n := UploadExec(script, UploadStep(script, s, t, c).value, later).value;
            t in n.hs && (n.feed.sys.pipe.closed || n.hs[t].HClose?)
  {
    UploadStartOk(script, handlers);
    UploadRunKeepsInv(script, UploadStart(handlers), first);
    var m := CloseBegins(script, s, t, c);
    RunCloses(script, m, later, t);
    HandlerStays(script, m, later, t);
  }

  lemma CloseBegins(script: Script, s: Upload, t: Thread, c: HChoice) returns (m: Upload)
    requires UploadInv(script, s) && t in s.hs && s.hs[t].HAnswered? && !c.SendFailed?
    requires UploadStep(script, s, t, c).Some?
    ensures UploadStep(script, s, t, c) == Some(m) && UploadInv(script, m) && t != FEEDER && t in m.hs
    ensures ClosesOrClosed(m, t)
  {
    m := UploadStep(script, s, t, c).value;
    StepKeepsUpload(script, s, t, c);
    NotTheCopier(s, t);
    BeginsClosing(script, s, t, c);
  }

  lemma NotTheCopier(s: Upload, t: Thread)
    requires Shape(s) && t in s.hs
    ensures t != FEEDER && t in s.feed.sys.pcs && InStep(s.hs[t], s.feed.sys.pcs[t])
  {
  }

  lemma BeginsClosing(script: Script, s: Upload, t: Thread, c: HChoice)
    requires t != FEEDER && t in s.hs && s.hs[t].HAnswered? && !c.SendFailed? && UploadStep(script, s, t, c).Some?
    requires t in s.feed.sys.pcs && s.feed.sys.pcs[t].Idle?
    ensures t in UploadStep(script, s, t, c).value.hs && ClosesOrClosed(UploadStep(script, s, t, c).value, t)
  {
  }

  lemma {:induction false} HandlerStays(script: Script, s: Upload, schedule: UploadSchedule, t: Thread)
    requires t in s.hs && UploadExec(script, s, schedule).Some?
    ensures t in UploadExec(script, s, schedule).value.hs
    decreases |schedule|
  {
    if schedule != [] {
      HandlerStaysOne(script, s, schedule[0].0, schedule[0].1, t);
      HandlerStays(script, UploadStep(script, s, schedule[0].0, schedule[0].1).value, schedule[1..], t);
    }
  }

  lemma HandlerStaysOne(script: Script, s: Upload, u: Thread, c: HChoice, t: Thread)
    requires t in s.hs && UploadStep(script, s, u, c).Some?
    ensures t in UploadStep(script, s, u, c).value.hs
  {
  }
}
