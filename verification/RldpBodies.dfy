/** The two goroutines of doRldpHttp (proxy/transport/client.go): one copies the request body into the
    upload pipe, the other pulls the response payload in numbered chunks into the response pipe. */
module RldpBodies {
  import opened GoTypes
  import opened Pipe
  import opened Feeder
  import opened Producer
  import opened PayloadHandler

  // ---------------------------------------------------------------- the request body

  /** A request body: the chunks its Reads give, the last of them along with EOF or another error. */
  class BodyReader {
    const chunks: seq<seq<byte>>
    const broken: bool
    var at: nat

    constructor (chunks: seq<seq<byte>>, broken: bool)
      requires chunks != []
      ensures this.chunks == chunks && this.broken == broken && at == 0
    {
      this.chunks, this.broken, at := chunks, broken, 0;
    }

    method Read() returns (chunk: seq<byte>, end: bool)
      requires at < |chunks|
      modifies this`at
      ensures at == old(at) + 1 && chunk == chunks[old(at)] && end == (at == |chunks|)
    {
      chunk, at := chunks[at], at + 1;
      end := at == |chunks|;
    }
  }

  /** The body copier: it feeds the body's chunks, and finishes exactly when the body ended with EOF and
      no chunk was rejected. */
  method CopyBody(body: BodyReader, sink: Sink)
    requires body.at == 0 && body.chunks != [] && sink.calls == []
    modifies body`at, sink`calls
    ensures Produces(body.chunks, sink.calls, sink.rejects)
    ensures Finished(sink.calls) <==> !body.broken && AllAccepted(body.chunks, sink.rejects, |body.chunks|)
    ensures EofMeans(sink.calls, sink.rejects, Concat(body.chunks))
  {
    var script := body.chunks;
    CopyChunks(body, sink);
    ProducedEofMeans(script, sink.calls, sink.rejects);
  }

  method CopyChunks(body: BodyReader, sink: Sink)
    requires body.at == 0 && body.chunks != [] && sink.calls == []
    modifies body`at, sink`calls
    ensures Produces(body.chunks, sink.calls, sink.rejects)
    ensures Finished(sink.calls) <==> !body.broken && AllAccepted(body.chunks, sink.rejects, |body.chunks|)
  {
    var script := body.chunks;
    while true
      invariant body.at < |script|
      invariant |sink.calls| == body.at && WritesFirst(script, sink.calls, body.at)
      invariant AllAccepted(script, sink.rejects, body.at)
      decreases |script| - body.at
    {
      ghost var k := body.at;
      var chunk, end := body.Read();
      if end {
        if !body.broken {
          var ok := sink.Write(chunk);
          if ok {
            sink.Finish();
            return;
          }
          assert !Accepted(script, sink.rejects, k);
        }
        sink.Close();
        return;
      }
      var ok := sink.Write(chunk);
      if !ok {
        assert !Accepted(script, sink.rejects, k);
        sink.Close();
        return;
      }
    }
  }

  // ---------------------------------------------------------------- the response payload

  /** The chunk size every request asks for: _ChunkSize * 100. */
  const PULL_SIZE: ChunkSize := 13_107_200

  /** The last chunk number whose offset fits int32. */
  const MAX_PARTS: nat := 164

  /** A peer that serves its payload as the handler does; a query may also be lost. */
  class Peer {
    const payload: seq<byte>
    const lost: nat -> bool
    var offset: nat
    var queries: nat

    ghost predicate Valid()
      reads this
    {
      offset <= |payload|
    }

    constructor (payload: seq<byte>, lost: nat -> bool)
      ensures this.payload == payload && this.lost == lost && offset == 0 && queries == 0
    {
      this.payload, this.lost, offset, queries := payload, lost, 0, 0;
    }

    method Query(req: Request) returns (part: Option<Part>)
      requires Valid()
      modifies this`offset, this`queries
      ensures Valid() && queries == old(queries) + 1
      ensures part == if lost(old(queries)) then None else PeerAnswer(payload, old(offset), req)
      ensures offset == old(offset) + (if part.Some? then |part.value.data| else 0)
    {
      part := if lost(queries) then None else PeerAnswer(payload, offset, req);
      queries := queries + 1;
      if part.Some? { offset := offset + |part.value.data|; }
    }
  }

  /** k parts have been pulled from the peer, each full. */
  ghost predicate Pulled(peer: Peer, k: nat)
    reads peer
  {
    peer.Valid() && peer.queries == k && peer.offset == k * PULL_SIZE
  }

  /** One query for the next part: it is the payload's, unless the query is lost or its number is 164 or more. */
  method Pull(peer: Peer, seqno: int32, ghost parts: Script) returns (part: Option<Part>)
    requires parts == PartsOf(peer.payload, PULL_SIZE) && 0 <= seqno < |parts| && Pulled(peer, seqno)
    modifies peer`offset, peer`queries
    ensures part.Some? <==> !peer.lost(seqno) && seqno < MAX_PARTS
    ensures part.Some? ==>
              && part.value.data == parts[seqno]
              && (part.value.last <==> seqno + 1 == |parts|)
              && (!part.value.last ==> Pulled(peer, seqno + 1))
  {
    PullInOrder(peer.payload, seqno);
    part := peer.Query(Request(seqno, PULL_SIZE));
  }

  /** None of the first n queries is lost and none of the first n parts rejected. */
  ghost predicate Undisturbed(parts: Script, lost: nat -> bool, rejects: nat -> bool, n: nat)
    requires n <= |parts|
  {
    forall i :: 0 <= i < n ==> !lost(i) && Accepted(parts, rejects, i)
  }

  /** The k-th part goes into the pipe; a failed Write closes it, the last part finishes it. */
  method PassOn(part: Part, sink: Sink, ghost parts: Script, ghost k: nat) returns (ok: bool)
    requires k < |parts| && part.data == parts[k] && (part.last <==> k + 1 == |parts|)
    requires |sink.calls| == k && WritesFirst(parts, sink.calls, k) && AllAccepted(parts, sink.rejects, k)
    modifies sink`calls
    ensures ok <==> Accepted(parts, sink.rejects, k)
    ensures if !ok || part.last then Produces(parts, sink.calls, sink.rejects) && (Finished(sink.calls) <==> ok)
            else |sink.calls| == k + 1 && WritesFirst(parts, sink.calls, k + 1)
  {
    ok := sink.Write(part.data);
    if !ok {
      sink.Close();
    } else if part.last {
      sink.Finish();
    }
  }

  /** The payload goroutine: it feeds the payload's parts, and finishes exactly when no query is lost, no
      part is rejected and there are at most 164 parts. */
  method FetchPayload(peer: Peer, sink: Sink)
    requires peer.Valid() && peer.offset == 0 && peer.queries == 0 && sink.calls == []
    modifies peer`offset, peer`queries, sink`calls
    ensures Produces(PartsOf(peer.payload, PULL_SIZE), sink.calls, sink.rejects)
    ensures EofMeans(sink.calls, sink.rejects, peer.payload)
    ensures var parts := PartsOf(peer.payload, PULL_SIZE);
            Finished(sink.calls) <==>
            |parts| <= MAX_PARTS && Undisturbed(parts, peer.lost, sink.rejects, |parts|)
  {
    PullParts(peer, sink);
    ProducedEofMeans(PartsOf(peer.payload, PULL_SIZE), sink.calls, sink.rejects);
    PartsJoin(peer.payload, PULL_SIZE);
  }

  method PullParts(peer: Peer, sink: Sink)
    requires peer.Valid() && peer.offset == 0 && peer.queries == 0 && sink.calls == []
    modifies peer`offset, peer`queries, sink`calls
    ensures Produces(PartsOf(peer.payload, PULL_SIZE), sink.calls, sink.rejects)
    ensures var parts := PartsOf(peer.payload, PULL_SIZE);
            Finished(sink.calls) <==>
            |parts| <= MAX_PARTS && Undisturbed(parts, peer.lost, sink.rejects, |parts|)
  {
    ghost var parts := PartsOf(peer.payload, PULL_SIZE);
    var withPayload := true;
    var seqno: int32 := 0;
    while withPayload
      invariant 0 <= seqno <= |parts| && seqno <= MAX_PARTS
      invariant withPayload <==> seqno < |parts|
      invariant Undisturbed(parts, peer.lost, sink.rejects, seqno)
      invariant withPayload ==> Pulled(peer, seqno) && |sink.calls| == seqno && WritesFirst(parts, sink.calls, seqno)
      invariant !withPayload ==> Produces(parts, sink.calls, sink.rejects) && Finished(sink.calls)
      decreases |parts| - seqno
    {
      var part := Pull(peer, seqno, parts);
      if part == None {
        sink.Close();
        return;
      }
      withPayload := !part.value.last;
      var ok := PassOn(part.value, sink, parts, seqno);
      if !ok {
        return;
      }
      seqno := seqno + 1;
    }
  }

  /** A pull in order is answered with the next part, unless its number is 164 or more. */
  lemma PullInOrder(payload: seq<byte>, k: nat)
    requires k < NumParts(|payload|, PULL_SIZE) && k * PULL_SIZE <= |payload| && k < TWO_31
    ensures var answer := PeerAnswer(payload, k * PULL_SIZE, Request(k, PULL_SIZE));
            && (answer.Some? <==> k < MAX_PARTS)
            && (answer.Some? ==>
                 && answer.value.data == PartsOf(payload, PULL_SIZE)[k]
                 && (answer.value.last <==> k + 1 == NumParts(|payload|, PULL_SIZE))
                 && (!answer.value.last ==> (k + 1) * PULL_SIZE == k * PULL_SIZE + |answer.value.data|))
  {
    NumPartsBounds(|payload|, PULL_SIZE);
  }

  /** One query asks for up to 13,107,200 bytes: a payload takes one for each that many, or fewer, of its bytes. */
  lemma QueriesNeeded(payload: seq<byte>)
    ensures var n := |PartsOf(payload, PULL_SIZE)|;
            && n >= 1 && |payload| <= 13_107_200 * n
            && (|payload| > 0 ==> 13_107_200 * (n - 1) < |payload|) && (|payload| == 0 ==> n == 1)
  {
    NumPartsBounds(|payload|, PULL_SIZE);
  }

  /** 164 parts are 2,149,580,800 bytes. */
  lemma WithinInt32Pulls(payload: seq<byte>)
    ensures |PartsOf(payload, PULL_SIZE)| <= MAX_PARTS <==> |payload| <= 2_149_580_800
  {
    NumPartsBounds(|payload|, PULL_SIZE);
  }

  /** Download end to end: whatever the interleaving of the payload goroutine with the readers of the
      response, a reader that sees EOF has been given exactly the peer's payload; so with any calls that produce
      its parts. */
  lemma EofMeansWholePayload(payload: seq<byte>, threads: set<Thread>, schedule: FeedSchedule)
    requires FeedExec(PartsOf(payload, PULL_SIZE), FeedStart(threads), schedule).Some?
    ensures var f := FeedExec(PartsOf(payload, PULL_SIZE), FeedStart(threads), schedule).value;
            && f.sys.pipe.delivered <= payload
            && (forall t :: t in f.sys.pcs && f.sys.pcs[t].Done? && f.sys.pcs[t].res.ReadEof? ==>
                 f.sys.pipe.delivered == payload)
    ensures forall calls: seq<Op>, rejects: nat -> bool ::
              Produces(PartsOf(payload, PULL_SIZE), calls, rejects) ==> EofMeans(calls, rejects, payload)
  {
    EofMeansWholeScript(PartsOf(payload, PULL_SIZE), threads, schedule);
    PartsJoin(payload, PULL_SIZE);
    forall calls: seq<Op>, rejects: nat -> bool | Produces(PartsOf(payload, PULL_SIZE), calls, rejects)
      ensures EofMeans(calls, rejects, payload)
    {
      ProducedEofMeans(PartsOf(payload, PULL_SIZE), calls, rejects);
    }
  }
}
