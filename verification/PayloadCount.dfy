/** How many answers a body gets (handleGetPart, proxy/transport/client.go). A peer that asks on once it has the
    whole body is answered again exactly when some chunk number leads back to the body's end, in int32. */
module PayloadCount {
  import opened GoTypes
  import opened Pipe
  import opened Feeder
  import opened PayloadHandler
  import opened UploadRuns

  // ---------------------------------------------------------------- products in int32

  /** The largest power of two that divides m. */
  function LowBit(m: nat): (p: nat)
    requires m > 0
    ensures p >= 1
  {
    if m % 2 == 1 then 1 else 2 * LowBit(m / 2)
  }

  lemma Twice(a: int, b: int)
    ensures 2 * (a * b) == (2 * a) * b == a * (2 * b)
  {
  }

  lemma {:induction false} LowBitSplits(m: nat) returns (odd: nat)
    requires m > 0
    ensures odd % 2 == 1 && m == LowBit(m) * odd
  {
    if m % 2 == 1 {
      odd := m;
    } else {
      odd := LowBitSplits(m / 2);
      Twice(LowBit(m / 2), odd);
    }
  }

  lemma {:induction false} LowBitDivides(m: nat, n: nat) returns (q: nat)
    requires 0 < m < Pow2(n)
    ensures Pow2(n) == LowBit(m) * q
  {
    if m % 2 == 1 {
      q := Pow2(n);
    } else {
      q := LowBitDivides(m / 2, n - 1);
      Twice(LowBit(m / 2), q);
    }
  }

  lemma AddHalf(odd: int, x: int, half: int, target: int, q: int)
    requires odd * x - target == half * q
    ensures odd * (x + half) - target == half * (q + odd)
  {
    assert odd * (x + half) == odd * x + half * odd;
    assert half * (q + odd) == half * q + half * odd;
  }

  lemma EvenHalf(half: int, q: int)
    requires q % 2 == 0
    ensures half * q == (2 * half) * (q / 2)
  {
    Twice(half, q / 2);
  }

  lemma OddHalf(odd: int, x: int, half: int, target: int, q: int)
    requires odd % 2 == 1 && q % 2 == 1 && odd * x - target == half * q
    ensures odd * (x + half) - target == (2 * half) * ((q + odd) / 2)
  {
    AddHalf(odd, x, half, target, q);
    EvenHalf(half, q + odd);
  }

  /** An odd factor reaches every residue of a power of two. */
  lemma {:induction false} OddReaches(odd: nat, target: nat, n: nat) returns (x: nat, q: int)
    requires odd % 2 == 1
    ensures odd * x - target == Pow2(n) * q
  {
    if n == 0 {
      x := 0;
      q := -1 * (target as int);
    } else {
      var half := Pow2(n - 1);
      x, q := OddReaches(odd, target, n - 1);
      if q % 2 == 0 {
        EvenHalf(half, q);
        q := q / 2;
      } else {
        OddHalf(odd, x, half, target, q);
        x, q := x + half, (q + odd) / 2;
      }
    }
  }

  lemma Int32Powers()
    ensures Pow2(31) == TWO_31 && Pow2(32) == TWO_32
  {
    assert Pow2(8) == 256 by { assert Pow2(4) == 16; assert Pow2(6) == 4 * Pow2(4); }
    assert Pow2(16) == 65536 by { assert Pow2(12) == 16 * Pow2(8) by { assert Pow2(10) == 4 * Pow2(8); } }
    assert Pow2(24) == 256 * Pow2(16) by { assert Pow2(20) == 16 * Pow2(16) by { assert Pow2(18) == 4 * Pow2(16); } }
    assert Pow2(31) == 128 * Pow2(24) by { assert Pow2(28) == 16 * Pow2(24) by { assert Pow2(26) == 4 * Pow2(24); } }
  }

  lemma WrapsTo(x: int, r: int, k: int)
    requires x - r == TWO_32 * k && -TWO_31 <= r < TWO_31
    ensures WrapInt32(x) == r
  {
    assert x % TWO_32 == r % TWO_32;
  }

  /** With this size, some chunk number leads to the target exactly when the size's power of two divides it. */
  lemma SomeSeqnoReaches(size: ChunkSize, target: nat)
    requires size > 0 && target < TWO_31
    ensures (exists seqno: int32 :: Offset(Request(seqno, size)) == target) <==> target % LowBit(size) == 0
  {
    if target % LowBit(size) == 0 { var seqno := SeqnoFor(size, target); }
    forall seqno: int32 | Offset(Request(seqno, size)) == target ensures target % LowBit(size) == 0 {
      ReachedIsDivided(size, seqno, target);
    }
  }

  lemma SeqnoFor(size: ChunkSize, target: nat) returns (seqno: int32)
    requires size > 0 && target < TWO_31 && target % LowBit(size) == 0
    ensures Offset(Request(seqno, size)) == target
  {
    var low := LowBit(size);
    var odd := LowBitSplits(size);
    var n := Exactly(target, low);
    Int32Powers();
    var x, q := OddReaches(odd, n, 32);
    seqno := WrapInt32(x);
    var j := Exactly(x - seqno, TWO_32);
    Scaled(size, low, odd, x, seqno, n, q, j);
    WrapsTo(seqno * size, target, low * q - size * j);
  }

  lemma Exactly(x: int, d: int) returns (q: int)
    requires d > 0 && x % d == 0
    ensures x == d * q && (x >= 0 ==> q >= 0)
  {
    q := x / d;
  }

  lemma Scaled(size: int, low: int, odd: int, x: int, seqno: int, n: int, q: int, j: int)
    requires size == low * odd && odd * x - n == TWO_32 * q && x - seqno == TWO_32 * j
    ensures seqno * size - low * n == TWO_32 * (low * q - size * j)
  {
    calc {
      seqno * size - low * n;
      (x - TWO_32 * j) * size - low * n;
      x * (low * odd) - TWO_32 * (size * j) - low * n;
      { assert x * (low * odd) == low * (odd * x); }
      low * (odd * x) - low * n - TWO_32 * (size * j);
      { assert low * (odd * x) - low * n == low * (odd * x - n); }
      low * (TWO_32 * q) - TWO_32 * (size * j);
      TWO_32 * (low * q - size * j);
    }
  }

  lemma ReachedIsDivided(size: ChunkSize, seqno: int32, target: nat)
    requires size > 0 && Offset(Request(seqno, size)) == target
    ensures target % LowBit(size) == 0
  {
    var low := LowBit(size);
    var odd := LowBitSplits(size);
    Int32Powers();
    var q := LowBitDivides(size, 32);
    var k := (seqno * size - target) / TWO_32;
    Divided(size, low, odd, seqno, target, q, k);
    Multiple(low, seqno * odd - q * k, target);
  }

  lemma Divided(size: int, low: int, odd: int, seqno: int, target: int, q: int, k: int)
    requires size == low * odd && TWO_32 == low * q && seqno * size - target == TWO_32 * k
    ensures target == low * (seqno * odd - q * k)
  {
    assert seqno * (low * odd) == low * (seqno * odd);
    assert (low * q) * k == low * (q * k);
  }

  lemma Multiple(low: int, k: int, target: int)
    requires low > 0 && target == low * k
    ensures target % low == 0
  {
    var q, r := target / low, target % low;
    Product(low, q, k, r);
    AtLeast(low, k - q);
    AtLeast(low, q - k);
  }

  lemma Product(low: int, q: int, k: int, r: int)
    requires low * k == low * q + r
    ensures r == low * (k - q) && r == -(low * (q - k))
  {
  }

  lemma AtLeast(low: int, n: int)
    requires low > 0
    ensures n >= 1 ==> low * n >= low
  {
  }

  // ---------------------------------------------------------------- one answer too many

  /** The answers a body's handler can have given to requests of one size. */
  ghost predicate Log(body: seq<byte>, size: ChunkSize, answers: seq<Answer>) {
    AnswersOk(body, answers) && AllOfSize(answers, size)
  }

  /** The product fits int32, as the peer means it. */
  predicate Unwrapped(req: Request) {
    0 <= req.seqno * req.maxChunk < TWO_31
  }

  ghost predicate AllUnwrapped(answers: seq<Answer>) {
    forall i :: 0 <= i < |answers| ==> Unwrapped(answers[i].req)
  }

  lemma EndOfLog(body: seq<byte>, size: ChunkSize, answers: seq<Answer>)
    requires size > 0 && Log(body, size, answers)
    ensures EndOffset(answers) == Min(|answers| * size, |body|)
  {
    if answers != [] {
      SliceOfBody(body, answers, size, |answers| - 1);
      StepOfSize(|answers| - 1, size, |body|);
    }
  }

  /** After n answers to requests of one size, the one request of that size that is not refused is number n, as long
      as those answers were full: a repeated, a skipped and a misaligned one find another offset. */
  lemma OnlyNextAccepted(body: seq<byte>, size: ChunkSize, answers: seq<Answer>, seqno: int32)
    requires size > 0 && Log(body, size, answers) && Unwrapped(Request(seqno, size)) && |answers| * size <= |body|
    ensures Offset(Request(seqno, size)) == EndOffset(answers) <==> seqno == |answers|
  {
    EndOfLog(body, size, answers);
    Differ(seqno, |answers|, size);
  }

  lemma Differ(a: int, b: int, size: int)
    requires size > 0
    ensures a * size == b * size <==> a == b
  {
    if a < b { AtLeast(size, b - a); }
    if b < a { AtLeast(size, a - b); }
    assert (b - a) * size == b * size - a * size;
  }

  /** The answer after the whole body is one to a request that leads back to its end. */
  lemma ExtraIsAtEnd(body: seq<byte>, size: ChunkSize, answers: seq<Answer>)
    requires size > 0 && Log(body, size, answers) && |answers| > NumParts(|body|, size)
    ensures var req := answers[NumParts(|body|, size)].req; Offset(req) == |body| && req.maxChunk == size
  {
    var k := NumParts(|body|, size);
    NumPartsBounds(|body|, size);
    SliceOfBody(body, answers, size, k);
    assert Fits(body, answers, k);
  }

  lemma ChunkStart(body: seq<byte>, size: ChunkSize, i: nat)
    requires size > 0 && |body| < TWO_31 && i < NumParts(|body|, size)
    ensures i <= i * size <= |body| && i < TWO_31
  {
    NumPartsBounds(|body|, size);
    MulMonotone(1, size, i);
    MulMonotone(i, NumParts(|body|, size) - 1, size);
  }

  /** The first n answers, asked for in order. */
  function AskedInOrder(body: seq<byte>, size: ChunkSize, n: nat): (answers: seq<Answer>)
    requires size > 0 && |body| < TWO_31 && n <= NumParts(|body|, size)
    ensures |answers| == n
  {
    if n == 0 then []
    else
      ChunkStart(body, size, n - 1);
      var offset := (n - 1) * size;
      AskedInOrder(body, size, n - 1) + [Answer(Request(n - 1, size), offset, Chunk(body, offset, size))]
  }

  lemma {:induction false} AskedInOrderIsLog(body: seq<byte>, size: ChunkSize, n: nat)
    requires size > 0 && |body| < TWO_31 && n <= NumParts(|body|, size)
    ensures Log(body, size, AskedInOrder(body, size, n)) && AllUnwrapped(AskedInOrder(body, size, n))
    ensures EndOffset(AskedInOrder(body, size, n)) == Min(n * size, |body|)
  {
    if n > 0 {
      var before := AskedInOrder(body, size, n - 1);
      AskedInOrderIsLog(body, size, n - 1);
      ChunkStart(body, size, n - 1);
      StepOfSize(n - 1, size, |body|);
      var offset := (n - 1) * size;
      var a := Answer(Request(n - 1, size), offset, Chunk(body, offset, size));
      AnswerExtends(body, before, a);
      LogExtends(body, size, before, a);
    }
  }

  lemma LogExtends(body: seq<byte>, size: ChunkSize, answers: seq<Answer>, a: Answer)
    requires Log(body, size, answers) && AnswerOk(body, a) && a.offset == EndOffset(answers) && a.req.maxChunk == size
    ensures Log(body, size, answers + [a])
    ensures AllUnwrapped(answers) && Unwrapped(a.req) ==> AllUnwrapped(answers + [a])
  {
    AnswerExtends(body, answers, a);
  }

  /** An empty answer more, to a request that leads back to the body's end. */
  lemma OneMore(body: seq<byte>, size: ChunkSize, seqno: int32) returns (answers: seq<Answer>)
    requires size > 0 && |body| < TWO_31 && Offset(Request(seqno, size)) == |body|
    ensures Log(body, size, answers) && |answers| > NumParts(|body|, size)
    ensures Unwrapped(Request(seqno, size)) ==> AllUnwrapped(answers)
  {
    var k := NumParts(|body|, size);
    NumPartsBounds(|body|, size);
    AskedInOrderIsLog(body, size, k);
    var a := Answer(Request(seqno, size), |body|, Part([], true));
    assert Chunk(body, |body|, size) == a.part;
    LogExtends(body, size, AskedInOrder(body, size, k), a);
    answers := AskedInOrder(body, size, k) + [a];
  }

  /** With one chunk size, a body can get an answer more than max(1, ceil(|body| / size)) exactly when it is below
      2^31 bytes and the largest power of two in the size divides its length. */
  lemma ExtraLogIff(body: seq<byte>, size: ChunkSize)
    requires size > 0
    ensures (exists answers: seq<Answer> :: Log(body, size, answers) && |answers| > NumParts(|body|, size))
            <==> |body| < TWO_31 && |body| % LowBit(size) == 0
  {
    forall answers: seq<Answer> | Log(body, size, answers) && |answers| > NumParts(|body|, size)
      ensures |body| < TWO_31 && |body| % LowBit(size) == 0
    {
      ExtraIsAtEnd(body, size, answers);
      ReachedIsDivided(size, answers[NumParts(|body|, size)].req.seqno, |body|);
    }
    if |body| < TWO_31 && |body| % LowBit(size) == 0 {
      var seqno := SeqnoFor(size, |body|);
      var answers := OneMore(body, size, seqno);
    }
  }

  /** To a peer whose products fit int32, exactly when it is below 2^31 bytes and the size divides its length. */
  lemma UnwrappedExtraLogIff(body: seq<byte>, size: ChunkSize)
    requires size > 0
    ensures (exists answers: seq<Answer> ::
               Log(body, size, answers) && AllUnwrapped(answers) && |answers| > NumParts(|body|, size))
            <==> |body| < TWO_31 && |body| % size == 0
  {
    forall answers: seq<Answer>
      | Log(body, size, answers) && AllUnwrapped(answers) && |answers| > NumParts(|body|, size)
      ensures |body| < TWO_31 && |body| % size == 0
    {
      ExtraIsAtEnd(body, size, answers);
      var seqno := answers[NumParts(|body|, size)].req.seqno;
      Multiple(size, seqno, |body|);
    }
    if |body| < TWO_31 && |body| % size == 0 {
      var k := |body| / size;
      MulMonotone(1, size, k);
      var answers := OneMore(body, size, k);
    }
  }

  // ---------------------------------------------------------------- the same of runs

  /** A run of one handler with requests of one size ends with more answers than the body has parts. */
  ghost predicate ExtraIn(script: Script, size: ChunkSize, schedule: UploadSchedule)
    requires size > 0
  {
    var run := UploadExec(script, UploadStart({ME}), schedule);
    && run.Some? && Unbroken(run.value.feed) && AllOfSize(run.value.answers, size)
    && |run.value.answers| > NumParts(|Concat(script)|, size)
  }

  ghost predicate AllUnwrappedIn(script: Script, schedule: UploadSchedule) {
    var run := UploadExec(script, UploadStart({ME}), schedule);
    run.Some? && AllUnwrapped(run.value.answers)
  }

  lemma LogOfRun(script: Script, size: ChunkSize, schedule: UploadSchedule)
    requires size > 0 && ExtraIn(script, size, schedule)
    ensures Log(Concat(script), size, UploadExec(script, UploadStart({ME}), schedule).value.answers)
  {
    HandlerRefinesPeerAnswer(script, {ME}, schedule);
  }

  lemma RunOfLog(script: Script, size: ChunkSize, answers: seq<Answer>) returns (schedule: UploadSchedule)
    requires size > 0 && Log(Concat(script), size, answers) && |answers| > NumParts(|Concat(script)|, size)
    ensures ExtraIn(script, size, schedule) && (AllUnwrapped(answers) ==> AllUnwrappedIn(script, schedule))
  {
    var n;
    schedule, n := LogIsRun(script, answers);
  }

  /** With one chunk size, a run in which a body gets an answer more than max(1, ceil(|body| / size)) exists exactly
      when the body is below 2^31 bytes and the largest power of two in the size divides its length. */
  lemma ExtraAnswerIff(script: Script, size: ChunkSize)
    requires size > 0
    ensures (exists schedule :: ExtraIn(script, size, schedule))
            <==> |Concat(script)| < TWO_31 && |Concat(script)| % LowBit(size) == 0
  {
    var body := Concat(script);
    ExtraLogIff(body, size);
    forall schedule | ExtraIn(script, size, schedule) ensures |body| < TWO_31 && |body| % LowBit(size) == 0 {
      LogOfRun(script, size, schedule);
    }
    if |body| < TWO_31 && |body| % LowBit(size) == 0 {
      var answers: seq<Answer> :| Log(body, size, answers) && |answers| > NumParts(|body|, size);
      var schedule := RunOfLog(script, size, answers);
    }
  }

  /** With requests whose products fit int32, exactly when it is below 2^31 bytes and the size divides its length. */
  lemma UnwrappedExtraAnswerIff(script: Script, size: ChunkSize)
    requires size > 0
    ensures (exists schedule :: ExtraIn(script, size, schedule) && AllUnwrappedIn(script, schedule))
            <==> |Concat(script)| < TWO_31 && |Concat(script)| % size == 0
  {
    var body := Concat(script);
    UnwrappedExtraLogIff(body, size);
    forall schedule | ExtraIn(script, size, schedule) && AllUnwrappedIn(script, schedule)
      ensures |body| < TWO_31 && |body| % size == 0
    {
      LogOfRun(script, size, schedule);
    }
    if |body| < TWO_31 && |body| % size == 0 {
      var answers: seq<Answer> :|
        Log(body, size, answers) && AllUnwrapped(answers) && |answers| > NumParts(|body|, size);
      var schedule := RunOfLog(script, size, answers);
    }
  }

  /** In every run with one chunk size in which the copier does not give up: once an answer is marked last there
      are at least max(1, ceil(|body| / size)), and more only where ExtraAnswerIff and UnwrappedExtraAnswerIff say. */
  lemma AnswersCounted(script: Script, handlers: set<Thread>, schedule: UploadSchedule, size: ChunkSize)
    requires UploadExec(script, UploadStart(handlers), schedule).Some? && size > 0
    requires Unbroken(UploadExec(script, UploadStart(handlers), schedule).value.feed)
    requires AllOfSize(UploadExec(script, UploadStart(handlers), schedule).value.answers, size)
    ensures var answers := UploadExec(script, UploadStart(handlers), schedule).value.answers;
            var length := |Concat(script)|; var k := NumParts(length, size);
            && ((exists i :: 0 <= i < |answers| && answers[i].part.last) ==> k <= |answers|)
            && (|answers| > k ==> length < TWO_31 && length % LowBit(size) == 0)
            && (|answers| > k && AllUnwrapped(answers) ==> length % size == 0)
  {
    UploadEndToEnd(script, handlers, schedule, size);
    HandlerRefinesPeerAnswer(script, handlers, schedule);
    ExtraLogIff(Concat(script), size);
    UnwrappedExtraLogIff(Concat(script), size);
  }

  /** An empty body asked for twice: a run with two answers where one part is all there is. */
  lemma EmptyBodyAnsweredTwice(size: ChunkSize) returns (schedule: UploadSchedule)
    requires size > 0
    ensures var run := UploadExec([], UploadStart({1}), schedule);
            && run.Some? && Unbroken(run.value.feed)
            && Log([], size, run.value.answers) && AllUnwrapped(run.value.answers)
            && |run.value.answers| == 2 && NumParts(0, size) == 1
  {
    var a := Answer(Request(0, size), 0, Part([], true));
    assert Chunk([], 0, size) == a.part;
    LogExtends([], size, [], a);
    LogExtends([], size, [] + [a], a);
    var n;
    schedule, n := LogIsRun([], [] + [a] + [a]);
  }
}
