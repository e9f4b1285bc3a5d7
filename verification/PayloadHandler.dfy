/** Serving a request body in numbered chunks (handleGetPart, getRLDPQueryHandler and the body copier of
    doRldpHttp, proxy/transport/client.go): any number of handler threads answer the peer's requests from
    one pipe, which the body copier feeds. */
module PayloadHandler {
  import opened GoTypes
  import opened Pipe
  import opened Feeder

  type int32 = x: int | -TWO_31 <= x < TWO_31

  /** A chunk size the answer's buffer can be made for. */
  type ChunkSize = x: int | 0 <= x < TWO_31

  datatype Request = Request(seqno: int32, maxChunk: int32)

  datatype Part = Part(data: seq<byte>, last: bool)

  /** The offset a request asks for: the product is taken in int32. */
  function Offset(req: Request): int {
    WrapInt32(req.seqno * req.maxChunk)
  }

  /** The body bytes from offset on, at most maxChunk of them, and whether they reach the end. */
  function Chunk(body: seq<byte>, offset: nat, maxChunk: nat): Part
    requires offset <= |body|
  {
    Part(body[offset..Min(offset + maxChunk, |body|)], offset + maxChunk >= |body|)
  }

  /** The answer a peer with this body gives when offset bytes have been handed over. None is a refusal, or the
      panic of making a buffer of negative size. */
  function PeerAnswer(body: seq<byte>, offset: nat, req: Request): Option<Part>
    requires offset <= |body|
  {
    if Offset(req) == offset && req.maxChunk >= 0 then Some(Chunk(body, offset, req.maxChunk)) else None
  }

  datatype Answer = Answer(req: Request, offset: nat, part: Part)

  datatype HPc =
    | HIdle | HLock(req: Request) | HCheck(req: Request) | HRead(req: Request)
    | HAnswered  // the last part is on its way
    | HClose
    | HPanicked

  /** nextOffset and mx are the payloadStream's; answers lists the accepted requests in order. */
  datatype Upload = Upload(feed: Feed, nextOffset: nat, mx: Option<Thread>, hs: map<Thread, HPc>, answers: seq<Answer>)

  datatype HChoice = Receive(req: Request) | Inner(c: FeedChoice) | SendFailed

  function UploadStep(script: Script, s: Upload, t: Thread, c: HChoice): Option<Upload> {
    if t == FEEDER then
      if c.Inner? then WithFeed(s, FeedStep(script, s.feed, t, c.c)) else None
    else if t !in s.hs || t !in s.feed.sys.pcs then None
    else
      match s.hs[t]
      case HIdle => if c.Receive? then Some(s.(hs := s.hs[t := HLock(c.req)])) else None
      case HLock(req) => if s.mx == None then Some(s.(mx := Some(t), hs := s.hs[t := HCheck(req)])) else None
      case HCheck(req) =>
        if Offset(req) != s.nextOffset then Some(s.(mx := None, hs := s.hs[t := HIdle]))
        else if req.maxChunk < 0 then Some(s.(mx := None, hs := s.hs[t := HPanicked]))
        else WithFeed(s.(hs := s.hs[t := HRead(req)]), FeedStep(script, s.feed, t, Run(Start(Read(req.maxChunk)))))
      case HRead(req) =>
        if s.feed.sys.pcs[t].Done? then
          WithFeed(AfterRead(s, t, req, s.feed.sys.pcs[t].res), FeedStep(script, s.feed, t, Run(Proceed)))
        else if c.Inner? then WithFeed(s, FeedStep(script, s.feed, t, c.c))
        else None
      case HAnswered =>
        if c.SendFailed? then Some(s.(hs := s.hs[t := HIdle]))
        else WithFeed(s.(hs := s.hs[t := HClose]), FeedStep(script, s.feed, t, Run(Start(Close))))
      case HClose =>
        if s.feed.sys.pcs[t].Done? then
          WithFeed(s.(hs := s.hs[t := HIdle]), FeedStep(script, s.feed, t, Run(Proceed)))
        else if c.Inner? then WithFeed(s, FeedStep(script, s.feed, t, c.c))
        else None
      case HPanicked => None
  }

  function WithFeed(s: Upload, f: Option<Feed>): Option<Upload> {
    match f case None => None case Some(feed) => Some(s.(feed := feed))
  }

  /** The handler's state once its Read has returned. */
  function AfterRead(s: Upload, t: Thread, req: Request, res: Outcome): Upload {
    match res
    case ReadOk(out) =>
      s.(mx := None, hs := s.hs[t := HIdle], nextOffset := s.nextOffset + |out|,
         answers := s.answers + [Answer(req, s.nextOffset, Part(out, false))])
    case ReadEof(out) =>
      s.(mx := None, hs := s.hs[t := HAnswered], nextOffset := s.nextOffset + |out|,
         answers := s.answers + [Answer(req, s.nextOffset, Part(out, true))])
    case _ => s.(mx := None, hs := s.hs[t := HIdle])
  }

  // ---------------------------------------------------------------- the invariant

  predicate HoldsMx(h: HPc) { h.HCheck? || h.HRead? }

  /** A handler and its thread in the pipe are at matching places. */
  predicate InStep(h: HPc, pc: Pc) {
    match h
    case HIdle => pc.Idle?
    case HLock(_) => pc.Idle?
    case HCheck(_) => pc.Idle?
    case HRead(req) =>
      && (pc.InRead? || pc.Done?)
      && (pc.InRead? ==> pc.r.size == req.maxChunk)
      && (pc.Done? ==> pc.res.ReadOk? || pc.res.ReadEof? || pc.res.ReadUnexpected?)
    case HAnswered => pc.Idle?
    case HClose => pc.InClose? || pc.Done?
    case HPanicked => pc.Idle?
  }

  /** The copier has not given up. */
  predicate Unbroken(f: Feed) {
    f.phase.Feeding? || f.phase.Finishing?
  }

  /** How far a handler's Read has got, seen from nextOffset. */
  predicate ReadProgress(body: seq<byte>, nextOffset: nat, delivered: seq<byte>, req: Request, pc: Pc) {
    match pc
    case InRead(RLock(_)) => nextOffset == |delivered|
    case InRead(RUnlock(_, res)) => ReadOutcome(body, nextOffset, delivered, req, res)
    case InRead(r) => nextOffset + |r.got| == |delivered|
    case Done(res) => ReadOutcome(body, nextOffset, delivered, req, res)
    case _ => false
  }

  predicate ReadOutcome(body: seq<byte>, nextOffset: nat, delivered: seq<byte>, req: Request, res: Outcome) {
    match res
    case ReadOk(out) => OutOf(body, nextOffset, delivered, out) && |out| == req.maxChunk && |delivered| < |body|
    case ReadEof(out) => OutOf(body, nextOffset, delivered, out) && |out| <= req.maxChunk && |delivered| == |body|
    case ReadUnexpected(out) => nextOffset == |delivered| == |body|
    case _ => false
  }

  predicate OutOf(body: seq<byte>, nextOffset: nat, delivered: seq<byte>, out: seq<byte>) {
    nextOffset + |out| == |delivered| <= |body| && out == body[nextOffset..|delivered|]
  }

  function EndOffset(answers: seq<Answer>): nat {
    if answers == [] then 0 else answers[|answers| - 1].offset + |answers[|answers| - 1].part.data|
  }

  /** Every answer continues where the one before ended and is the peer's answer for its offset. */
  ghost predicate AnswersOk(body: seq<byte>, answers: seq<Answer>) {
    forall i :: 0 <= i < |answers| ==> Fits(body, answers, i)
  }

  predicate Fits(body: seq<byte>, answers: seq<Answer>, i: nat)
    requires i < |answers|
  {
    AnswerOk(body, answers[i]) && answers[i].offset == EndOffset(answers[..i])
  }

  predicate AnswerOk(body: seq<byte>, a: Answer) {
    a.offset <= |body| && PeerAnswer(body, a.offset, a.req) == Some(a.part)
  }

  ghost predicate Shape(s: Upload) {
    && (forall t :: t in s.feed.sys.pcs && t != FEEDER ==> t in s.hs && InStep(s.hs[t], s.feed.sys.pcs[t]))
    && (forall t :: t in s.hs ==> t in s.feed.sys.pcs && t != FEEDER && (HoldsMx(s.hs[t]) <==> s.mx == Some(t)))
    && (s.mx.Some? ==> s.mx.value in s.hs)
    && (forall t :: t in s.hs && s.hs[t].HRead? ==> Offset(s.hs[t].req) == s.nextOffset && s.hs[t].req.maxChunk >= 0)
  }

  /** What holds as long as the copier has not given up. */
  ghost predicate Served(body: seq<byte>, s: Upload) {
    && AnswersOk(body, s.answers) && s.nextOffset == EndOffset(s.answers) <= |body|
    && (s.feed.sys.pipe.closed ==> s.nextOffset == |body|)
    && (forall t :: t in s.hs && (s.hs[t].HAnswered? || s.hs[t].HClose?) ==> s.nextOffset == |body|)
    && Reader(body, s)
  }

  predicate Reader(body: seq<byte>, s: Upload) {
    if s.mx.Some? && s.mx.value in s.hs && s.mx.value in s.feed.sys.pcs && s.hs[s.mx.value].HRead? then
      ReadProgress(body, s.nextOffset, s.feed.sys.pipe.delivered, s.hs[s.mx.value].req, s.feed.sys.pcs[s.mx.value])
    else s.nextOffset == |s.feed.sys.pipe.delivered|
  }

  ghost predicate UploadInv(script: Script, s: Upload) {
    match s
    case Upload(feed, _, _, _, _) =>
      FeedInv(script, feed) && Shape(s) && (Unbroken(feed) ==> Served(Concat(script), s))
  }

  // ---------------------------------------------------------------- every step keeps it

  lemma FeederLeavesReaders(script: Script, f: Feed, c: FeedChoice)
    requires FeedInv(script, f) && FeedStep(script, f, FEEDER, c).Some?
    ensures var g := FeedStep(script, f, FEEDER, c).value;
            && g.sys.pipe.delivered == f.sys.pipe.delivered
            && g.sys.pcs == f.sys.pcs[FEEDER := g.sys.pcs[FEEDER]]
            && (Unbroken(g) ==> Unbroken(f) && g.sys.pipe.closed == f.sys.pipe.closed)
  {
    var pc := f.sys.pcs[FEEDER];
    if InOperation(pc) { StepFrame(f.sys.pipe, FEEDER, pc, c.choice); }
  }

  lemma FeederKeepsUpload(script: Script, s: Upload, c: HChoice)
    requires UploadInv(script, s) && UploadStep(script, s, FEEDER, c).Some?
    ensures UploadInv(script, UploadStep(script, s, FEEDER, c).value)
  {
    FeederStepKeepsFeed(script, s.feed, c.c);
    FeederLeavesReaders(script, s.feed, c.c);
  }

  /** A handler's own step in the pipe touches no other thread and not the copier's phase. */
  lemma HandlerStepFrame(script: Script, f: Feed, t: Thread, c: FeedChoice)
    requires FeedInv(script, f) && t != FEEDER && FeedStep(script, f, t, c).Some?
    ensures var g := FeedStep(script, f, t, c).value;
            && FeedInv(script, g) && g.phase == f.phase && g.next == f.next
            && g.sys.pcs == f.sys.pcs[t := g.sys.pcs[t]]
            && c.Run? && ThreadStep(f.sys.pipe, t, f.sys.pcs[t], c.choice) == Some((g.sys.pipe, g.sys.pcs[t]))
  {
    OtherStepKeepsFeed(script, f, t, c);
  }

  /** A handler moves, with its thread in the pipe, and takes, keeps or gives back mx. */
  lemma ShapeMoves(s: Upload, n: Upload, t: Thread)
    requires Shape(s) && t in s.hs && t in n.hs && t in n.feed.sys.pcs
    requires n.hs == s.hs[t := n.hs[t]] && n.feed.sys.pcs == s.feed.sys.pcs[t := n.feed.sys.pcs[t]]
    requires InStep(n.hs[t], n.feed.sys.pcs[t])
    requires n.mx == (if HoldsMx(n.hs[t]) then Some(t) else if HoldsMx(s.hs[t]) then None else s.mx)
    requires HoldsMx(n.hs[t]) ==> s.mx in [None, Some(t)]
    requires n.hs[t].HRead? ==> Offset(n.hs[t].req) == n.nextOffset && n.hs[t].req.maxChunk >= 0
    requires n.nextOffset != s.nextOffset ==> s.mx == Some(t)
    ensures Shape(n)
  {
  }

  lemma RequestKeepsUpload(script: Script, s: Upload, t: Thread, c: HChoice)
    requires UploadInv(script, s) && t != FEEDER && UploadStep(script, s, t, c).Some?
    requires s.hs[t].HIdle? || s.hs[t].HLock?
    ensures UploadInv(script, UploadStep(script, s, t, c).value)
  {
    ShapeMoves(s, UploadStep(script, s, t, c).value, t);
  }

  lemma RefusalKeepsUpload(script: Script, s: Upload, t: Thread, c: HChoice)
    requires UploadInv(script, s) && t != FEEDER && UploadStep(script, s, t, c).Some?
    requires s.hs[t].HCheck? && (Offset(s.hs[t].req) != s.nextOffset || s.hs[t].req.maxChunk < 0)
    ensures UploadInv(script, UploadStep(script, s, t, c).value)
  {
    ShapeMoves(s, UploadStep(script, s, t, c).value, t);
  }

  lemma AcceptanceKeepsUpload(script: Script, s: Upload, t: Thread, c: HChoice)
    requires UploadInv(script, s) && t != FEEDER && UploadStep(script, s, t, c).Some?
    requires s.hs[t].HCheck? && Offset(s.hs[t].req) == s.nextOffset && s.hs[t].req.maxChunk >= 0
    ensures UploadInv(script, UploadStep(script, s, t, c).value)
  {
    HandlerStepFrame(script, s.feed, t, Run(Start(Read(s.hs[t].req.maxChunk))));
    ShapeMoves(s, UploadStep(script, s, t, c).value, t);
  }

  /** One step of a Read, seen from nextOffset: what it returns is the body from there on. */
  lemma ReadStepProgress(body: seq<byte>, nextOffset: nat, d: Streamer, t: Thread, req: Request, r: ReadPc,
                         choice: Choice)
    requires StreamerOk(d) && ThreadOk(d, t, InRead(r)) && ReadStep(d, t, r, choice).Some?
    requires d.accepted <= body && nextOffset <= |body| && (d.closed ==> nextOffset == |body|)
    requires d.finished ==> d.accepted == body
    requires ReadProgress(body, nextOffset, d.delivered, req, InRead(r)) && r.size == req.maxChunk
    ensures var (e, next) := ReadStep(d, t, r, choice).value;
            ReadProgress(body, nextOffset, e.delivered, req, next) && (next.InRead? ==> next.r.size == req.maxChunk)
  {
    var (e, next) := ReadStep(d, t, r, choice).value;
    assert d.accepted == d.delivered + (d.buf + InSlot(d));
    if next.InRead? && next.r.RUnlock? && !next.r.res.ReadUnexpected? {
      SuffixOfPrefix(body, d.delivered, r.got);
    }
  }

  lemma SuffixOfPrefix(body: seq<byte>, delivered: seq<byte>, got: seq<byte>)
    requires delivered <= body && Suffix(delivered, got)
    ensures got == body[|delivered| - |got|..|delivered|]
  {
  }

  lemma ReadingKeepsUpload(script: Script, s: Upload, t: Thread, c: HChoice)
    requires UploadInv(script, s) && t != FEEDER && UploadStep(script, s, t, c).Some?
    requires s.hs[t].HRead? && !s.feed.sys.pcs[t].Done?
    ensures UploadInv(script, UploadStep(script, s, t, c).value)
  {
    var n := UploadStep(script, s, t, c).value;
    var d, r, req := s.feed.sys.pipe, s.feed.sys.pcs[t].r, s.hs[t].req;
    HandlerStepFrame(script, s.feed, t, c.c);
    ReadStepShape(d, t, r, c.c.choice);
    if Unbroken(n.feed) {
      AcceptedIsPrefix(script, s.feed);
      ReadStepProgress(Concat(script), s.nextOffset, d, t, req, r, c.c.choice);
    }
  }

  lemma ReadStepShape(d: Streamer, t: Thread, r: ReadPc, choice: Choice)
    requires ReadOkHere(d, r) && ReadStep(d, t, r, choice).Some?
    ensures var (e, next) := ReadStep(d, t, r, choice).value;
            && e.closed == d.closed
            && (next.InRead? || next.Done?) && (next.InRead? ==> next.r.size == r.size)
            && (next.Done? ==> next.res.ReadOk? || next.res.ReadEof? || next.res.ReadUnexpected?)
  {
  }

  lemma AnsweringKeepsUpload(script: Script, s: Upload, t: Thread, c: HChoice)
    requires UploadInv(script, s) && t != FEEDER && UploadStep(script, s, t, c).Some?
    requires s.hs[t].HRead? && s.feed.sys.pcs[t].Done?
    ensures UploadInv(script, UploadStep(script, s, t, c).value)
  {
    var n := UploadStep(script, s, t, c).value;
    HandlerStepFrame(script, s.feed, t, Run(Proceed));
    ShapeMoves(s, n, t);
    if Unbroken(n.feed) { AnswerServed(Concat(script), s, n, t); }
  }

  lemma AnswerServed(body: seq<byte>, s: Upload, n: Upload, t: Thread)
    requires Shape(s) && Served(body, s) && t in s.hs && s.hs[t].HRead? && s.feed.sys.pcs[t].Done?
    requires n == AfterRead(s, t, s.hs[t].req, s.feed.sys.pcs[t].res).(feed := n.feed)
    requires n.feed.sys.pipe == s.feed.sys.pipe
    ensures Served(body, n)
  {
    var req, res := s.hs[t].req, s.feed.sys.pcs[t].res;
    if !res.ReadUnexpected? {
      AnswerExtends(body, s.answers, Answer(req, s.nextOffset, Part(res.out, res.ReadEof?)));
    }
  }

  lemma AnswerExtends(body: seq<byte>, answers: seq<Answer>, a: Answer)
    requires AnswersOk(body, answers) && AnswerOk(body, a) && a.offset == EndOffset(answers)
    ensures AnswersOk(body, answers + [a]) && EndOffset(answers + [a]) == a.offset + |a.part.data|
  {
    var all := answers + [a];
    forall i | 0 <= i < |all| ensures Fits(body, all, i) {
      assert all[..i] == answers[..i];
      assert answers[..|answers|] == answers;
      assert i < |answers| ==> Fits(body, answers, i);
    }
  }

  lemma AnsweredKeepsUpload(script: Script, s: Upload, t: Thread, c: HChoice)
    requires UploadInv(script, s) && t != FEEDER && UploadStep(script, s, t, c).Some? && s.hs[t].HAnswered?
    ensures UploadInv(script, UploadStep(script, s, t, c).value)
  {
    if !c.SendFailed? {
      HandlerStepFrame(script, s.feed, t, Run(Start(Close)));
      ShapeMoves(s, UploadStep(script, s, t, c).value, t);
    }
  }

  lemma ClosingKeepsUpload(script: Script, s: Upload, t: Thread, c: HChoice)
    requires UploadInv(script, s) && t != FEEDER && UploadStep(script, s, t, c).Some?
    requires s.hs[t].HClose? && !s.feed.sys.pcs[t].Done?
    ensures UploadInv(script, UploadStep(script, s, t, c).value)
  {
    HandlerStepFrame(script, s.feed, t, c.c);
    StepFrame(s.feed.sys.pipe, t, s.feed.sys.pcs[t], c.c.choice);
    ShapeMoves(s, UploadStep(script, s, t, c).value, t);
  }

  lemma ClosedKeepsUpload(script: Script, s: Upload, t: Thread, c: HChoice)
    requires UploadInv(script, s) && t != FEEDER && UploadStep(script, s, t, c).Some?
    requires s.hs[t].HClose? && s.feed.sys.pcs[t].Done?
    ensures UploadInv(script, UploadStep(script, s, t, c).value)
  {
    HandlerStepFrame(script, s.feed, t, Run(Proceed));
    ShapeMoves(s, UploadStep(script, s, t, c).value, t);
  }

  lemma StepKeepsUpload(script: Script, s: Upload, t: Thread, c: HChoice)
    requires UploadInv(script, s) && UploadStep(script, s, t, c).Some?
    ensures UploadInv(script, UploadStep(script, s, t, c).value)
  {
    if t == FEEDER {
      FeederKeepsUpload(script, s, c);
    } else {
      match s.hs[t]
      case HIdle => RequestKeepsUpload(script, s, t, c);
      case HLock(_) => RequestKeepsUpload(script, s, t, c);
      case HCheck(req) =>
        if Offset(req) == s.nextOffset && req.maxChunk >= 0 {
          AcceptanceKeepsUpload(script, s, t, c);
        } else {
          RefusalKeepsUpload(script, s, t, c);
        }
      case HRead(_) =>
        if s.feed.sys.pcs[t].Done? {
          AnsweringKeepsUpload(script, s, t, c);
        } else {
          ReadingKeepsUpload(script, s, t, c);
        }
      case HAnswered => AnsweredKeepsUpload(script, s, t, c);
      case HClose =>
        if s.feed.sys.pcs[t].Done? { ClosedKeepsUpload(script, s, t, c); } else { ClosingKeepsUpload(script, s, t, c); }
      case HPanicked =>
    }
  }

  // ---------------------------------------------------------------- whole runs

  type UploadSchedule = seq<(Thread, HChoice)>

  function UploadExec(script: Script, s: Upload, schedule: UploadSchedule): Option<Upload>
    decreases |schedule|
  {
    if schedule == [] then Some(s)
    else
      match UploadStep(script, s, schedule[0].0, schedule[0].1)
      case None => None
      case Some(n) => UploadExec(script, n, schedule[1..])
  }

  function UploadStart(handlers: set<Thread>): Upload {
    Upload(FeedStart(handlers), 0, None, map t | t in handlers && t != FEEDER :: HIdle, [])
  }

  lemma {:induction false} UploadRunKeepsInv(script: Script, s: Upload, schedule: UploadSchedule)
    requires UploadInv(script, s) && UploadExec(script, s, schedule).Some?
    ensures UploadInv(script, UploadExec(script, s, schedule).value)
    decreases |schedule|
  {
    if schedule != [] {
      var (t, c) := schedule[0];
      StepKeepsUpload(script, s, t, c);
      UploadRunKeepsInv(script, UploadStep(script, s, t, c).value, schedule[1..]);
    }
  }

  lemma UploadStartOk(script: Script, handlers: set<Thread>)
    ensures UploadInv(script, UploadStart(handlers))
  {
    assert script[..0] == [];
  }

  /** The stateful handler refines the peer's answer from the body: in every run in which the copier
      does not give up, each accepted request got the body from where the one before ended. */
  lemma HandlerRefinesPeerAnswer(script: Script, handlers: set<Thread>, schedule: UploadSchedule)
    requires UploadExec(script, UploadStart(handlers), schedule).Some?
    requires Unbroken(UploadExec(script, UploadStart(handlers), schedule).value.feed)
    ensures var s := UploadExec(script, UploadStart(handlers), schedule).value;
            && AnswersOk(Concat(script), s.answers)
            && s.nextOffset == EndOffset(s.answers) <= |Concat(script)|
  {
    UploadStartOk(script, handlers);
    UploadRunKeepsInv(script, UploadStart(handlers), schedule);
  }

  /** A refused request leaves the stream, nextOffset and the answers as they were. */
  lemma RefusalChangesNothing(script: Script, s: Upload, t: Thread, c: HChoice)
    requires t != FEEDER && t in s.hs && s.hs[t].HCheck? && UploadStep(script, s, t, c).Some?
    requires Offset(s.hs[t].req) != s.nextOffset
    ensures UploadStep(script, s, t, c).value.(mx := s.mx, hs := s.hs) == s
  {
  }

  /** What a handler does with a request it looks at: it reads for it exactly when the offset is right and a buffer
      can be made, panics exactly when the offset is right and the size negative, and refuses it otherwise. */
  lemma CheckDecides(script: Script, s: Upload, t: Thread, c: HChoice)
    requires UploadInv(script, s) && t in s.hs && s.hs[t].HCheck?
    ensures var req, next := s.hs[t].req, UploadStep(script, s, t, c);
            && next.Some?
            && (next.value.hs[t] == HRead(req) <==> Offset(req) == s.nextOffset && req.maxChunk >= 0)
            && (next.value.hs[t] == HPanicked <==> Offset(req) == s.nextOffset && req.maxChunk < 0)
            && (next.value.hs[t] == HIdle <==> Offset(req) != s.nextOffset)
  {
  }

  /** Whoever steps, a handler panics in that step exactly when it looks at a request at the right offset with a
      negative size; that leaves the stream, nextOffset and the answers as they were. */
  lemma PanicsExactly(script: Script, s: Upload, u: Thread, c: HChoice, t: Thread)
    requires UploadInv(script, s) && UploadStep(script, s, u, c).Some? && t in s.hs && s.hs[t] != HPanicked
    ensures var n := UploadStep(script, s, u, c).value;
            && t in n.hs
            && (n.hs[t] == HPanicked <==>
                 u == t && s.hs[t].HCheck? && Offset(s.hs[t].req) == s.nextOffset && s.hs[t].req.maxChunk < 0)
            && (n.hs[t] == HPanicked ==> n.(mx := s.mx, hs := s.hs) == s)
  {
    if u != FEEDER && !s.hs[u].HCheck? { OthersStayPut(script, s, u, c); }
  }

  lemma OthersStayPut(script: Script, s: Upload, u: Thread, c: HChoice)
    requires u != FEEDER && UploadStep(script, s, u, c).Some? && !s.hs[u].HCheck?
    ensures var n := UploadStep(script, s, u, c).value; n.hs == s.hs[u := n.hs[u]] && !n.hs[u].HPanicked?
  {
  }

  /** Some request is acceptable at an offset exactly when the offset is below 2^31, and then some other makes the
      handler panic; one that counts whole chunks is acceptable. */
  lemma AcceptableIffBelowInt32(offset: nat)
    ensures (exists req: Request :: Offset(req) == offset) <==> offset < TWO_31
    ensures (exists req: Request :: Offset(req) == offset && req.maxChunk >= 0) <==> offset < TWO_31
    ensures (exists req: Request :: Offset(req) == offset && req.maxChunk < 0) <==> offset < TWO_31
    ensures forall req: Request :: req.seqno * req.maxChunk == offset < TWO_31 ==> Offset(req) == offset
  {
    if offset < TWO_31 {
      assert Offset(Request(offset, 1)) == offset;
      var least: int := -1 * offset;
      var bad := if offset == 0 then Request(0, -1) else Request(-1, least);
      assert Offset(bad) == offset && bad.maxChunk < 0;
    }
  }

  lemma StepPastInt32(script: Script, s: Upload, t: Thread, c: HChoice)
    requires Shape(s) && s.nextOffset >= TWO_31 && UploadStep(script, s, t, c).Some?
    ensures var n := UploadStep(script, s, t, c).value; n.answers == s.answers && n.nextOffset == s.nextOffset
  {
  }

  lemma {:induction false} StaysPastInt32(script: Script, s: Upload, later: UploadSchedule)
    requires UploadInv(script, s) && s.nextOffset >= TWO_31 && UploadExec(script, s, later).Some?
    ensures var n := UploadExec(script, s, later).value; n.answers == s.answers && n.nextOffset == s.nextOffset
    decreases |later|
  {
    if later != [] {
      var (t, c) := later[0];
      StepPastInt32(script, s, t, c);
      StepKeepsUpload(script, s, t, c);
      StaysPastInt32(script, UploadStep(script, s, t, c).value, later[1..]);
    }
  }

  /** Once more than 2^31 - 1 bytes have been handed over nothing is ever accepted again: however the run goes
      on, with whatever requests and whatever the copier does, there is no further answer. */
  lemma NothingPastInt32(script: Script, handlers: set<Thread>, first: UploadSchedule, s: Upload, later: UploadSchedule)
    requires UploadExec(script, UploadStart(handlers), first) == Some(s) && s.nextOffset >= TWO_31
    requires UploadExec(script, s, later).Some?
    ensures var n := UploadExec(script, s, later).value; n.answers == s.answers && n.nextOffset == s.nextOffset
  {
    UploadStartOk(script, handlers);
    UploadRunKeepsInv(script, UploadStart(handlers), first);
    StaysPastInt32(script, s, later);
  }

  /** A handler that reads is never stuck while the copier has not given up: it can step, or the copier can. */
  lemma ReaderProgresses(script: Script, s: Upload, t: Thread)
    requires UploadInv(script, s) && Unbroken(s.feed) && t in s.hs && s.hs[t].HRead?
    ensures exists u, c: HChoice :: u in {t, FEEDER} && UploadStep(script, s, u, c).Some?
  {
    var go := Inner(Run(Proceed));
    if UploadStep(script, s, t, go).Some? {
      assert t in {t, FEEDER};
    } else {
      EmptyPipeFeeds(script, s, t);
      assert FEEDER in {t, FEEDER} && UploadStep(script, s, FEEDER, go).Some?;
    }
  }

  /** The only reader is the handler that holds mx, the only writer the copier. */
  lemma OneReaderOneWriter(script: Script, s: Upload, t: Thread)
    requires UploadInv(script, s) && s.mx == Some(t)
    ensures s.feed.sys.pipe.readerLock in {None, Some(t)} && s.feed.sys.pipe.writerLock in {None, Some(FEEDER)}
  {
    var d, pcs := s.feed.sys.pipe, s.feed.sys.pcs;
    assert d.readerLock.Some? ==>
        HoldsReader(pcs[d.readerLock.value]) && InStep(s.hs[d.readerLock.value], pcs[d.readerLock.value]);
    assert d.writerLock.Some? ==> HoldsWriter(pcs[d.writerLock.value]);
  }

  /** A handler that cannot read on waits for a part. */
  lemma StuckAtSelect(script: Script, s: Upload, t: Thread)
    requires UploadInv(script, s) && t in s.hs && s.hs[t].HRead?
    requires UploadStep(script, s, t, Inner(Run(Proceed))) == None
    ensures s.feed.sys.pipe.slot == None && !s.feed.sys.pipe.partsClosed
  {
    var d, pc := s.feed.sys.pipe, s.feed.sys.pcs[t];
    assert InStep(s.hs[t], pc) && ThreadOk(d, t, pc);
    OneReaderOneWriter(script, s, t);
    assert pc.InRead? && ReadStep(d, t, pc.r, Proceed) == None;
  }

  /** While there is room and no end the copier can go on. */
  lemma CopierGoes(script: Script, f: Feed)
    requires FeedInv(script, f) && Unbroken(f) && f.sys.pipe.slot == None && !f.sys.pipe.partsClosed
    requires f.sys.pipe.writerLock in {None, Some(FEEDER)}
    ensures FeedStep(script, f, FEEDER, Run(Proceed)).Some?
  {
    var d, pc := f.sys.pipe, f.sys.pcs[FEEDER];
    assert ThreadOk(d, FEEDER, pc) && FeederOk(script, d, pc, f.next, f.phase);
    match pc
    case Idle =>
    case InWrite(w) => assert WriteStep(d, FEEDER, w, Proceed).Some?;
    case InFinish(k) => assert FinishStep(d, FEEDER, k).Some?;
    case Done(_) =>
  }

  lemma EmptyPipeFeeds(script: Script, s: Upload, t: Thread)
    requires UploadInv(script, s) && Unbroken(s.feed) && t in s.hs && s.hs[t].HRead?
    requires UploadStep(script, s, t, Inner(Run(Proceed))) == None
    ensures UploadStep(script, s, FEEDER, Inner(Run(Proceed))).Some?
  {
    StuckAtSelect(script, s, t);
    OneReaderOneWriter(script, s, t);
    CopierGoes(script, s.feed);
  }

  // ---------------------------------------------------------------- pulls of one chunk size

  function NumParts(length: nat, size: nat): nat
    requires size > 0
  {
    if length == 0 then 1 else (length + size - 1) / size
  }

  lemma NumPartsBounds(length: nat, size: nat)
    requires size > 0
    ensures var k := NumParts(length, size); k >= 1 && k * size >= length && (length > 0 ==> (k - 1) * size < length)
  {
    if length > 0 {
      var k := (length + size - 1) / size;
      assert length + size - 1 == size * k + (length + size - 1) % size;
      assert size * k == k * size;
    }
  }

  /** The parts of a payload under pulls of one size. */
  function PartsOf(payload: seq<byte>, size: ChunkSize): (parts: seq<seq<byte>>)
    requires size > 0
    ensures |parts| == NumParts(|payload|, size)
  {
    NumPartsBounds(|payload|, size);
    seq(NumParts(|payload|, size), i requires i >= 0 => Chunk(payload, Min(i * size, |payload|), size).data)
  }

  ghost predicate AllOfSize(answers: seq<Answer>, size: ChunkSize) {
    forall i :: 0 <= i < |answers| ==> answers[i].req.maxChunk == size
  }

  function Datas(answers: seq<Answer>): (parts: seq<seq<byte>>)
    ensures |parts| == |answers|
    ensures forall i :: 0 <= i < |answers| ==> parts[i] == answers[i].part.data
  {
    if answers == [] then [] else Datas(answers[..|answers| - 1]) + [answers[|answers| - 1].part.data]
  }

  /** Each offset is where the chunk before it ended. */
  lemma NextOffsetOf(body: seq<byte>, answers: seq<Answer>, i: nat)
    requires AnswersOk(body, answers) && 0 < i < |answers|
    ensures answers[i].offset == Min(answers[i - 1].offset + answers[i - 1].req.maxChunk, |body|)
  {
    assert Fits(body, answers, i) && Fits(body, answers, i - 1);
    assert answers[..i][i - 1] == answers[i - 1];
  }

  lemma StepOfSize(i: nat, size: nat, length: nat)
    ensures Min(Min(i * size, length) + size, length) == Min((i + 1) * size, length)
  {
    assert (i + 1) * size == i * size + size;
  }

  /** Answer number i is slice number i of the body. */
  lemma {:induction false} SliceOfBody(body: seq<byte>, answers: seq<Answer>, size: ChunkSize, i: nat)
    requires AnswersOk(body, answers) && AllOfSize(answers, size) && size > 0 && i < |answers|
    ensures answers[i].offset == Min(i * size, |body|)
    ensures answers[i].part == Chunk(body, Min(i * size, |body|), size)
  {
    if i > 0 {
      SliceOfBody(body, answers, size, i - 1);
      NextOffsetOf(body, answers, i);
      StepOfSize(i - 1, size, |body|);
    }
    assert Fits(body, answers, i);
    assert answers[i].req.maxChunk == size;
  }

  lemma PartAt(payload: seq<byte>, size: ChunkSize, i: nat)
    requires size > 0 && i < NumParts(|payload|, size)
    ensures 0 <= Min(i * size, |payload|) <= Min((i + 1) * size, |payload|)
    ensures PartsOf(payload, size)[i] == payload[Min(i * size, |payload|)..Min((i + 1) * size, |payload|)]
  {
    StepOfSize(i, size, |payload|);
    MulMonotone(i, i + 1, size);
  }

  lemma HeadGrows(payload: seq<byte>, a: nat, b: nat)
    requires a <= b <= |payload|
    ensures payload[..a] + payload[a..b] == payload[..b]
  {
  }

  lemma {:induction false} PartsHeadJoins(payload: seq<byte>, size: ChunkSize, k: nat)
    requires size > 0 && k <= NumParts(|payload|, size)
    ensures 0 <= Min(k * size, |payload|) && Concat(PartsOf(payload, size)[..k]) == payload[..Min(k * size, |payload|)]
  {
    var parts := PartsOf(payload, size);
    if k > 0 {
      PartsHeadJoins(payload, size, k - 1);
      PartAt(payload, size, k - 1);
      assert parts[..k] == parts[..k - 1] + [parts[k - 1]];
      ConcatSnoc(parts[..k - 1], parts[k - 1]);
      HeadGrows(payload, Min((k - 1) * size, |payload|), Min(k * size, |payload|));
    } else {
      assert parts[..k] == [];
    }
  }

  /** The parts of a payload are the payload. */
  lemma PartsJoin(payload: seq<byte>, size: ChunkSize)
    requires size > 0
    ensures Concat(PartsOf(payload, size)) == payload
  {
    var k := NumParts(|payload|, size);
    NumPartsBounds(|payload|, size);
    PartsHeadJoins(payload, size, k);
    assert PartsOf(payload, size)[..k] == PartsOf(payload, size);
  }

  /** Where answer number i stands against the number of parts the body needs. */
  lemma PlaceOfAnswer(body: seq<byte>, answers: seq<Answer>, size: ChunkSize, i: nat)
    requires AnswersOk(body, answers) && AllOfSize(answers, size) && size > 0 && i < |answers|
    ensures var k := NumParts(|body|, size); var part := answers[i].part;
            && (i < k - 1 ==> !part.last && |part.data| == size)
            && (i >= k - 1 ==> part.last)
            && (i >= k ==> part.data == [])
  {
    var k := NumParts(|body|, size);
    NumPartsBounds(|body|, size);
    SliceOfBody(body, answers, size, i);
    assert (i + 1) * size == i * size + size;
    if i < k - 1 { MulMonotone(i + 1, k - 1, size); }
    if i >= k - 1 { MulMonotone(k, i + 1, size); }
    if i >= k { MulMonotone(k, i, size); }
  }

  lemma MulMonotone(a: nat, b: nat, m: nat)
    requires a <= b
    ensures a * m <= b * m
  {
  }

  /** The parts of a body pulled with one chunk size: all but the last of them are full, the last is marked, those
      after it are empty, and once a part is marked the peer has the body. */
  ghost predicate EndToEnd(body: seq<byte>, size: ChunkSize, answers: seq<Answer>)
    requires size > 0
  {
    var k := NumParts(|body|, size);
    && (forall i :: 0 <= i < |answers| && i < k - 1 ==> !answers[i].part.last && |answers[i].part.data| == size)
    && (forall i :: k - 1 <= i < |answers| ==> answers[i].part.last)
    && (forall i :: k <= i < |answers| ==> answers[i].part.data == [])
    && ((exists i :: 0 <= i < |answers| && answers[i].part.last) ==>
         k <= |answers| && Concat(Datas(answers)[..k]) == body)
  }

  /** Upload end to end. In every interleaving of the copier, the pipe and handlers of requests with one
      chunk size, as long as the copier has not given up: once a part is marked last there are at least
      max(1, ceil(|body| / size)) parts; the first that many are the body in order, full but for the last,
      which alone of them is marked; answers after them, to a peer that asks on, are empty and marked. */
  lemma UploadEndToEnd(script: Script, handlers: set<Thread>, schedule: UploadSchedule, size: ChunkSize)
    requires UploadExec(script, UploadStart(handlers), schedule).Some? && size > 0
    requires Unbroken(UploadExec(script, UploadStart(handlers), schedule).value.feed)
    requires AllOfSize(UploadExec(script, UploadStart(handlers), schedule).value.answers, size)
    ensures EndToEnd(Concat(script), size, UploadExec(script, UploadStart(handlers), schedule).value.answers)
  {
    HandlerRefinesPeerAnswer(script, handlers, schedule);
    var body := Concat(script);
    var answers := UploadExec(script, UploadStart(handlers), schedule).value.answers;
    var k := NumParts(|body|, size);
    NumPartsBounds(|body|, size);
    forall i | 0 <= i < |answers|
      ensures var part := answers[i].part;
              && (i < k - 1 ==> !part.last && |part.data| == size) && (i >= k - 1 ==> part.last)
              && (i >= k ==> part.data == [])
    {
      PlaceOfAnswer(body, answers, size, i);
    }
    if k <= |answers| {
      forall i | 0 <= i < k ensures Datas(answers)[i] == PartsOf(body, size)[i] {
        SliceOfBody(body, answers, size, i);
      }
      assert Datas(answers)[..k] == PartsOf(body, size);
      PartsJoin(body, size);
    }
  }
}
