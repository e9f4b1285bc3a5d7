# The data path of the proxy transport

The transport turns HTTP requests into TON traffic: a site is a torrent bag, whose files are streamed piece by
piece, or an RLDP server, with which bodies are exchanged in numbered chunks over small pipes. This project
models that path and proves what it promises. `dafny verify dfyconfig.toml` checks everything.

| file | what it models |
|---|---|
| `GoTypes.dfy` | Go's integer arithmetic (wrap-around and unsigned subtraction), bytes, powers of two, joining parts |
| `PieceRange.dfy` | which pieces a byte range needs and what each contributes, on the file's piece offsets |
| `TorrentBody.dfy` | `doTorrent` and `proxyOrdered`: layout, selection loop, streaming loop, response, body goroutine |
| `RangeHeader.dfy` | `parseRange` |
| `Pipe.dfy` | `dataStreamer` as a step machine: any threads, three locks, two channels, two flags |
| `DataStreamer.dfy` | `dataStreamer` and `handleGetPart` as classes: slices, copies, who shares which array; each call is a run of `Pipe`'s machine |
| `Feeder.dfy` | the shape of the three goroutines that feed a pipe: parts in order, then Finish, or Close on the way |
| `Producer.dfy` | a pipe whose producer makes a given list of calls, as those goroutines' loops are proved to make them |
| `PayloadHandler.dfy` | any number of `handleGetPart` calls over a pipe that the body copier feeds |
| `UploadRuns.dfy` | runs of that machine: reads end, and every fitting log of answers is the log of a run |
| `PayloadCount.dfy` | how many answers a body gets, and when it gets one too many |
| `UploadEnd.dfy` | what a part marked as the last tells the peer, and the Close after it |
| `CopiedUpload.dfy` | the same upload with the calls of the body copier's loop |
| `RldpBodies.dfy` | the two goroutines of `doRldpHttp` |
| `SiteLifecycle.dfy` | round trips, disconnect callbacks, the cleaner and the clock over the table of sites |
| `BagInUse.dfy` | the stamps of a streaming body against the cleaner |
| `SiteCache.dfy` | the methods behind that machine (`resolve`, `prepare`, `destroyClient`, one cleaner pass) as classes |
| `AdnlAddress.dfy` | `ParseADNLAddress`: base32 (section 6 of RFC 4648), tag byte, CRC-16/XMODEM |
| `AdnlText.dfy` | the text of an address in numbers and polynomials, with no table, register or checksum function |

How the parts fit:

- The loops of `proxyOrdered`, the body copier and the payload goroutine are methods over a record of the calls they
  make on their pipe and an oracle that says which Writes are rejected. They are proved to make the calls `Produces`
  describes, and to finish exactly when nothing went wrong. `Producer` runs the step machine of `Pipe` with such a list
  of calls made by one thread, its Writes rejected as the oracle says and any other threads reading and closing: each
  of these runs is a run of `Feeder`'s machine, so a reader who sees EOF got everything from a producer that finished.
  The contracts of `DoTorrent`, `FetchPayload` and `CopyBody` say this of their own calls (`EofMeans`).
- `PayloadHandler` puts the stateful handler on the same pipe and shows that it refines `PeerAnswer`, a function
  of the body. `RldpBodies` pulls from a peer that answers by that function.
- `DataStreamer`'s methods carry the machine's streamer along: each call is a run of `Pipe` in which only its own
  thread steps, up to where it returns or has to wait.
- `AdnlText` says what an accepted address is without the decoder and the CRC register of `AdnlAddress`: its number in
  base 32 has the bits of a multiple of x^16 + x^12 + x^5 + 1 above which the tag and the id stand.
- `RangeHeader.IsFor` says from the header's text alone what range a request is for; the response lemmas of
  `TorrentBody` are about it.
- Each method of `SiteCache` moves the world of `SiteLifecycle` along with its fields, so its contract says that its
  effect is a run of that machine; the theorems about all runs are in `SiteLifecycle`.

Some results say where a promise stops:

- Any change of up to three adjacent characters of a site address is noticed and some change of any four is not
  (`AdnlAddress.BurstRejected`, `AdnlAddress.FourCharactersCanPass`).
- `SiteLifecycle.NoStoppedBagHandedOut` holds for round trips of up to 210 seconds, and
  `SiteLifecycle.StoppedBagHandedOutLate` gives a run against every longer bound.
- A stream's bag is safe from the cleaner while its stamps are at most 300 seconds apart, and not at 301
  (`BagInUse.StreamKeepsBag`, `BagInUse.UnstampedBagStopped`).
- `RldpBodies.FetchPayload` finishes only for payloads of at most 164 parts, since the offset of chunk 164 leaves int32.
- "Exactly max(1, ceil(length / size)) parts" holds of a body pulled with one chunk size unless the peer asks on and
  its chunk size leads back to the body's end: `PayloadCount.ExtraAnswerIff` and `PayloadCount.UnwrappedExtraAnswerIff`
  say exactly when.
- The lengths in a response are those of its body exactly when the file is not empty: for an empty one ContentLength is 1
  (`TorrentBody.LengthsAnnounced`, `TorrentBody.EmptyAnnounced`).
- A request at the right offset with a negative MaxChunkSize makes the handler panic, and no other does
  (`PayloadHandler.PanicsExactly`).

What the original leaves to libraries is an argument here: the storage prefetcher is told which waits fail
(`PreFetcher.fails`), a pipe which writes it rejects (`Sink.rejects`), a peer which queries are lost (`Peer.lost`), and
the clock, resolver, gate and global context are sequences of answers (`SiteCache.Outside`). Results hold for all of
them.

## Model

| member | source | states |
|---|---|---|
| TorrentBody.LayOut | proxy/transport/client.go:434-448 | in uint32 arithmetic, the sizes the loops add up are the file's offsets at its pieces, and each piece's slices are the file's bytes there, for every layout the storage library may give |
| TorrentBody.SelectPieces | proxy/transport/client.go:430-448 | the prefetch mask and the map of needed pieces hold exactly one run of pieces, the same for both |
| PieceRange.MarkedIsRun | proxy/transport/client.go:442-446 | the pieces marked are one contiguous run |
| TorrentBody.AtMostOneExtra | proxy/transport/client.go:434-448 | of a file's pieces exactly those with bytes of the range are marked and the one that ends exactly at `from`: the first of the run, which contributes no bytes |
| TorrentBody.SizeOf | proxy/transport/client.go:435-441 | in both loops, the size added for a piece is the distance of its offsets |
| PieceRange.TrimmedIsRangePart | proxy/transport/client.go:827-844 | the inclusive tail trim and the one-shot head trim leave the piece's share of the range |
| PieceRange.PartsAreRange | proxy/transport/client.go:802-851 | the shares of the marked pieces, joined, are bytes from..to |
| TorrentBody.CutPiece | proxy/transport/client.go:827-844 | every slice is in bounds, and what is cut from a piece is its share of the range |
| TorrentBody.TakePiece | proxy/transport/client.go:812-826 | the piece held, if any, is freed and the site stamped before the next is waited for |
| TorrentBody.StreamPiece | proxy/transport/client.go:812-850 | a marked piece is waited for, cut and written; it fails exactly when the wait or the write does |
| TorrentBody.StreamMarked | proxy/transport/client.go:808-850 | a turn of the loop takes the state in which all marked pieces before are through to the next, or ends with a prefix of the calls and of the waits and frees |
| TorrentBody.ProxyOrdered | proxy/transport/client.go:787-860 | succeeds exactly when every wait and write does; the parts written are the range's, in order; before each marked piece is waited for, once and ascending, the one before is freed and the site stamped |
| TorrentBody.StreamBody | proxy/transport/client.go:479-491 | the pipe is finished exactly when the whole range went through, and closed otherwise |
| TorrentBody.ServeRange | proxy/transport/client.go:430-491 | selection and streaming together produce the range's parts, take the pieces one by one, and whoever reads to EOF has the range |
| TorrentBody.StreamFile | proxy/transport/client.go:430-491 | the same of a file in its bag |
| TorrentBody.DoTorrent | proxy/transport/client.go:404-494 | a refused range fetches and writes nothing; an accepted one is answered with its bounds and lengths, produces its parts, finishes exactly when nothing failed, waits for each marked piece once and frees it before the next, and in every interleaving a reader sees EOF only after that Finish and with exactly file[from..to]; an empty file finishes at once |
| TorrentBody.RespondRange | proxy/transport/client.go:450-472 | an accepted request for a file with bytes gets 206 with Content-Range from-to/size or, without a range, 200 and none; the header Content-Length is the length of the range, and ContentLength as far as int64 holds it |
| TorrentBody.RespondTo | proxy/transport/client.go:409-428 | the range a request is answered with is the one its header names, or all of the file when the header asks for none |
| TorrentBody.Refused | proxy/transport/client.go:413-428 | 416, with no lengths, exactly for a header that asks for a range and names none |
| TorrentBody.EmptyAnnounced | proxy/transport/client.go:409-472 | what an empty file gets: 206 with 0-0/0 or 200, and a ContentLength of 1 in either case |
| TorrentBody.LengthsAnnounced | proxy/transport/client.go:450-472 | the header Content-Length is the body's length exactly when the file has bytes or no range is asked for, ContentLength exactly when it has and the length is below 2^63 |
| TorrentBody.BodyIsRange | proxy/transport/client.go:404-491 | what a response streams is file[from..to], as long as its headers say |
| TorrentBody.PartsAreBody | proxy/transport/client.go:794-851 | the parts of an accepted range join to the slice of the file, cut out of the bag's pieces laid end to end |
| TorrentBody.EofMeansWholeRange | proxy/transport/client.go:479-491 | in every interleaving, of the feeder's machine or of any calls that produce the range's parts, EOF means the whole range was delivered |
| RangeHeader.AcceptedIffNamed | proxy/transport/client.go:862-904 | a header is accepted as from..to exactly when it is "bytes=", digits or nothing, "-", digits or nothing, naming from <= to <= max |
| RangeHeader.AcceptedOrRefused | proxy/transport/client.go:862-904 | a request that does not ask for a range, and no other, is for all of 0..max; one that does is refused exactly when it names none |
| RangeHeader.ParsedIffFor | proxy/transport/client.go:862-904 | the outcome for any header is the range it is for, as its text says |
| RangeHeader.HundredAndMore | proxy/transport/client.go:871-903 | "bytes=10-209" is 10..209 |
| RangeHeader.SuccessInBounds | proxy/transport/client.go:862-904 | every success lies inside 0..max, and is all of it without a header |
| RangeHeader.PrintedRangeParses | proxy/transport/client.go:871-903 | printing a range as "bytes=a-b" and parsing it gives it back, for all 64-bit values |
| Pipe.StepKeepsInv | proxy/transport/stream.go:37-125 | every lock, channel operation and flag store keeps the pipe's invariant: conservation, no double close, no send after close, no empty part |
| Pipe.PipeSafety | proxy/transport/stream.go:37-125 | over all interleavings: no panic; delivered + buffered + in the channel = accepted; a Read's EOF comes after Finish with everything delivered |
| Pipe.EofIsFinal | proxy/transport/stream.go:41-51 | after an EOF nothing more is ever accepted or delivered |
| Pipe.RankDecreases | proxy/transport/stream.go:37-125 | every own step of a call brings it closer to its end, a Read's because no part is empty |
| Pipe.OperationEnds | proxy/transport/stream.go:37-125 | a call ends within a fixed number of its thread's own steps, however the others run |
| Pipe.ClosedStreamProgresses | proxy/transport/stream.go:45-55 | on a closed stream no call is stuck: it can step, or the holder of the lock it waits for can |
| Pipe.AloneIsRun | proxy/transport/stream.go:37-125 | steps that one thread takes on its own are a run of the machine in which the others stand still |
| DataStreamer.DataStreamer.Write | proxy/transport/stream.go:93-115 | accepted bytes are those of the slice at the call, kept in an array of the streamer's own; the call is a run of the machine, and where it waits the machine has no step for it |
| DataStreamer.DataStreamer.Finish | proxy/transport/stream.go:117-125 | the stream is finished, once; the call is a run of the machine |
| DataStreamer.DataStreamer.Close | proxy/transport/stream.go:68-78 | the stream is closed, once; the call is a run of the machine |
| DataStreamer.DataStreamer.NextPart | proxy/transport/stream.go:42-55 | what a part, EOF, an error or a wait at the select of Read says of the stream; no byte is lost, and it waits exactly when there is nothing to take |
| DataStreamer.DataStreamer.Read | proxy/transport/stream.go:37-66 | the head of the pending bytes moves into the caller's slice and nothing else changes; EOF only when finished and drained; a full Read leaves bytes behind; the call is a run of the machine with the same bytes read |
| DataStreamer.DataStreamer.CopyOut | proxy/transport/stream.go:61 | copy fills the caller's slice from the buffer, as far as either goes |
| DataStreamer.HandleGetPart | proxy/transport/client.go:235-260 | for any int32 pair: a request at the wrong offset changes nothing; one at the right offset with a negative size, and no other, panics; an answer takes the head of the pending bytes and moves nextOffset by its length; its Read is one of the machine with that outcome |
| DataStreamer.AnsweredIsPeerAnswer | proxy/transport/client.go:235-260 | on a stream that holds the rest of its body, the answer is the peer's answer from that body |
| Feeder.FeederStepKeepsFeed | proxy/transport/client.go:537-562 | each step of a producer keeps: accepted bytes are those of the parts written so far, and only it finishes |
| Feeder.EofMeansWholeScript | proxy/transport/stream.go:37-125 | with one producer, readers get a prefix of its parts' bytes; EOF means all of them |
| Producer.StepIsFeedStep | proxy/transport/client.go:537-562 | every step of a pipe under a loop's calls, and of the other threads, is a step of the feeder's machine |
| Producer.RunIsFeedRun | proxy/transport/client.go:479-491 | so is every run |
| Producer.ProducedEofMeans | proxy/transport/stream.go:41-55 | a truncated body never looks complete: whatever the interleaving, EOF is seen only if the calls end in Finish and everything was delivered |
| PayloadHandler.HandlerRefinesPeerAnswer | proxy/transport/client.go:198-260 | in every interleaving of handlers, pipe and copier, each accepted request got body[nextOffset .. min(nextOffset+M, length)] |
| PayloadHandler.PanicsExactly | proxy/transport/client.go:239-245 | whoever steps, a handler panics exactly there; stream, nextOffset and answers stay as they were |
| PayloadHandler.NothingPastInt32 | proxy/transport/client.go:239-242 | once more than 2^31-1 bytes have been handed over, no run whatever has another answer or moves nextOffset |
| PayloadHandler.AcceptableIffBelowInt32 | proxy/transport/client.go:239-242 | over all pairs of int32, wrapped products included: some pair finds an offset exactly below 2^31, and any whose true product is that offset does |
| PayloadHandler.ReaderProgresses | proxy/transport/stream.go:37-66 | on an unclosed upload a handler that reads is never stuck: it can step, or the copier can |
| PayloadHandler.UploadEndToEnd | proxy/transport/client.go:198-260 | with one chunk size M: the first max(1, ceil(length/M)) parts join to the body, all but the last full; the last mark is on exactly that one among them, and later answers are empty |
| UploadEnd.MarkedMeansWhole | proxy/transport/client.go:235-260 | a truncated upload never looks complete: in every run, with any chunk sizes and also where the copier can give up, the parts up to a marked one join to the whole body |
| UploadEnd.SentLastCloses | proxy/transport/client.go:216-227 | once a handler has sent a last part, however the run goes on, it is still closing the stream or the stream is closed |
| PayloadCount.AnswersCounted | proxy/transport/client.go:235-260 | in every run: once a part is marked there are at least max(1, ceil(length/M)), and more only if the largest power of two in M divides the length, or M itself does when no product wraps |
| UploadRuns.AcceptedReadEnds | proxy/transport/client.go:235-260 | a read for an accepted request ends within a fixed number of steps of its handler and the copier, on an unclosed stream too and whatever the other handlers do |
| UploadRuns.LogIsRun | proxy/transport/client.go:198-260 | every sequence of answers that continue one another and fit the body is what some run ends with |
| PayloadCount.ExtraAnswerIff | proxy/transport/client.go:239-260 | a run with one chunk size M and an answer too many exists exactly for bodies below 2^31 bytes whose length the largest power of two in M divides |
| PayloadCount.UnwrappedExtraAnswerIff | proxy/transport/client.go:239-260 | a run whose products fit int32 has one exactly when M divides the length, the empty body included |
| PayloadCount.SomeSeqnoReaches | proxy/transport/client.go:239 | some int32 Seqno leads to an offset, in int32, exactly when M's largest power of two divides it |
| PayloadCount.EmptyBodyAnsweredTwice | proxy/transport/client.go:198-260 | a run in which an empty body is answered twice |
| PayloadCount.OnlyNextAccepted | proxy/transport/client.go:239-242 | after n full answers only chunk n is accepted: repeated, skipped and misaligned requests are refused |
| CopiedUpload.StepIsUploadStep | proxy/transport/client.go:533-562 | every step of an upload whose copier makes its loop's calls is a step of the upload machine |
| CopiedUpload.CopiedEndToEnd | proxy/transport/client.go:198-260 | with the calls of a copier that finishes, the parts of one chunk size join to the body, in every interleaving |
| PayloadHandler.SliceOfBody | proxy/transport/client.go:235-260 | answer number i is slice number i of the body |
| PayloadHandler.PartsJoin | proxy/transport/client.go:617-648 | the chunks of a payload join to the payload |
| RldpBodies.CopyBody | proxy/transport/client.go:533-562 | the copier passes on the body's chunks in order, finishes exactly when the body ended with EOF and no chunk was rejected, and EOF in its pipe means all of the body |
| RldpBodies.Pull | proxy/transport/client.go:617-631 | the query for chunk k brings part k, unless it is lost or k is 164 or more |
| RldpBodies.PassOn | proxy/transport/client.go:633-643 | a rejected part closes the pipe, the last one finishes it |
| RldpBodies.FetchPayload | proxy/transport/client.go:617-648 | the payload goroutine passes on the parts in order, finishes exactly when there are at most 164 and none is lost or rejected, and in every interleaving a reader that sees EOF has exactly the peer's payload |
| RldpBodies.PullInOrder | proxy/transport/client.go:239-242 | the offset of chunk k is answered exactly while k < 164 |
| RldpBodies.WithinInt32Pulls | proxy/transport/client.go:27 | at most 164 parts means at most 2,149,580,800 bytes |
| RldpBodies.QueriesNeeded | proxy/transport/client.go:621-626 | a payload takes one query for each 13,107,200 bytes begun, an empty one takes one |
| RldpBodies.EofMeansWholePayload | proxy/transport/client.go:612-648 | in every interleaving, of the feeder's machine or of any calls that produce the payload's parts, EOF means exactly the payload was delivered |
| SiteLifecycle.StepKeeps | proxy/transport/client.go:119-358 | every step of round trips, callbacks, cleaner and clock keeps the invariant of the table; a client may disconnect before the prepare that connected it has put it in place |
| SiteLifecycle.CleanerSafety | proxy/transport/client.go:134-154 | in every run no site in the table holds a stopped bag, and no bag is stopped twice |
| SiteLifecycle.ClosedClientIsDropped | proxy/transport/client.go:171-196 | in every run a client closed by its disconnect is not the client of a site in the table whose lock is free |
| SiteLifecycle.ClientLeaves | proxy/transport/client.go:171-196 | a site loses its client only by resolving again under its lock or by that client's own disconnect; a late one drops no newer client |
| SiteLifecycle.PrepareHandsOut | proxy/transport/client.go:262-352 | in every run prepare recurses at most once, connects only the first time, and hands out a bag or a connected client |
| SiteLifecycle.StepTimely | proxy/transport/client.go:138-139 | with round trips of up to 210 seconds, every step keeps: the site of a stopped bag is due for resolving |
| SiteLifecycle.NoStoppedBagHandedOut | proxy/transport/client.go:274-286 | with round trips of up to 210 seconds, prepare never hands out a stopped bag |
| SiteLifecycle.StoppedBagHandedOutLate | proxy/transport/client.go:134-154 | with any longer bound there is a run in which it does |
| BagInUse.StreamKeepsBag | proxy/transport/client.go:817 | where prepare hands out running bags (round trips of up to 210 seconds), a bag is in no run stopped while its stream's stamps, from the one its prepare left on, are never more than 300 seconds apart |
| BagInUse.StampsSpare | proxy/transport/client.go:138-149 | so is a bag that was running when handed out, however long round trips take |
| BagInUse.UnstampedBagStopped | proxy/transport/client.go:138-149 | 301 seconds are too many: a run in which a bag is stopped under the request it was handed to |
| SiteCache.ConnectFirst | proxy/transport/client.go:757-784 | addresses are dialled in order, with the key from the DHT; the first that connects is kept with key, address and client, and it fails exactly when none does |
| SiteCache.Resolve | proxy/transport/client.go:656-785 | what a name leads to: a new bag, a server with the key found and the first address that connects, dialled in order, or a failure, exactly when it is not found or none of its addresses connects |
| SiteCache.ResolveAndStamp | proxy/transport/client.go:275-281 | the site gets what the name leads to; a success stamps LastSuccess with the first reading after it, and a failure leaves no actor |
| SiteCache.IsDue | proxy/transport/client.go:274 | a site is resolved exactly when it has no actor or nothing succeeded on it for 90 seconds |
| SiteCache.Refresh | proxy/transport/client.go:262-282 | fails exactly when the context is stopped or a lookup that is due has no answer; a lookup is made exactly when due, and then the site has the actor it leads to, otherwise its old one |
| SiteCache.Use | proxy/transport/client.go:284-291 | a bag is stamped; a connected server is set anew and stamped exactly when not used for 30 seconds |
| SiteCache.Connect | proxy/transport/client.go:293-301 | a server without a client is dialled with its own key and address: it gets the client, or the site is left without an actor |
| SiteCache.Prepare | proxy/transport/client.go:262-304 | a run of the machine from Decide to HandOut or Unlock; it succeeds exactly when the context is not stopped where it is asked and a lookup that is due, or follows a failed reconnect, has an answer; which questions are asked, which connections dialled, and the actor they lead to; on success a bag or connected client, used within 30 and confirmed within 90 seconds; at most one recursion |
| SiteCache.LookUp | proxy/transport/client.go:312-320 | the host's site, or in the table a new one without an actor, stamped as used now |
| SiteCache.Take | proxy/transport/client.go:337-343 | exactly one of client and bag is taken |
| SiteCache.PickSite | proxy/transport/client.go:306-345 | from lookup to unlock: exactly one of a client and a bag reaches the request or it fails, exactly when prepare does for the host's site or for one without an actor; the table gains at most this site |
| SiteCache.RldpInfo.DestroyClient | proxy/transport/client.go:190-196 | the client is closed, and forgotten exactly if it is the active one |
| SiteCache.RemoveRldp | proxy/transport/client.go:171-188 | a disconnect, from lookup to unlock, changes at most the client of its host's site |
| SiteCache.SweepSite | proxy/transport/client.go:136-154 | one site of a pass: dropped and stopped exactly when free, idle for 300 seconds and on a bag |
| SiteCache.Sweep | proxy/transport/client.go:127-154 | a pass takes exactly the free sites idle on a bag out of the table and stops each of their bags once |
| AdnlAddress.ParseIffFormatted | proxy/transport/types.go:66-87 | an address is accepted as an id exactly when it is that id's standard text without its F, letter case aside |
| AdnlAddress.ParseFormatRoundTrip | proxy/transport/types.go:66-87 | every 32-byte id is read back from its standard text |
| AdnlAddress.SameIdSameAddress | proxy/transport/types.go:66-87 | two addresses of one id are equal up to letter case |
| AdnlAddress.ZeroRemainder | proxy/transport/types.go:64 | a message followed by its CRC leaves no remainder |
| AdnlAddress.ShortInputsThatMeet | proxy/transport/types.go:64 | from two registers, inputs of at most 16 bits that lead to the same one differ by the registers alone |
| AdnlAddress.CrcInjective | proxy/transport/types.go:64 | a common input never merges two registers |
| AdnlAddress.BurstChangesRemainder | proxy/transport/types.go:64 | changing a stretch of at most 16 bits changes the remainder |
| AdnlAddress.AcceptedHasNoRemainder | proxy/transport/types.go:78-86 | the bits of an accepted address leave no CRC remainder |
| AdnlAddress.DifferingAlikeMeet | proxy/transport/types.go:64 | the converse: registers that differ exactly where their inputs do meet |
| AdnlAddress.DisguiseUnnoticed | proxy/transport/types.go:64 | changing seventeen bits as the whole polynomial does leaves the remainder alone |
| AdnlAddress.BurstRejected | proxy/transport/types.go:66-87 | an accepted address with up to three adjacent characters changed, in more than letter case, is rejected |
| AdnlAddress.FourCharactersCanPass | proxy/transport/types.go:66-87 | three is the most: at any place, some change of four adjacent characters of an accepted address gives another accepted one |
| AdnlText.CrcIsRemainder | proxy/transport/types.go:64 | the register after a message is the 16 bits that make it, times x^16, a multiple of x^16 + x^12 + x^5 + 1, and no others do |
| AdnlText.ParseIffStandard | proxy/transport/types.go:66-87 | an address is accepted as an id exactly when, after an F and in either case, its base32 number has the bits of a multiple of that polynomial whose upper 264 bits are the number of 0x2d and the id |
| AdnlText.FormatStands | proxy/transport/types.go:66-87 | every 32-byte id has such a text, the one FormatAddress writes |
| AdnlText.HowRefused | proxy/transport/types.go:66-87 | which error a refused address gets: its length, a character outside the alphabet, a first character other than U to X, and otherwise the checksum |

## Left out

- TorrentBody.DoTorrent: the storage library's layout of a file is `ValidFile`, or `EmptyFile` for a file without bytes; of an empty file the one piece marked for prefetch is not modelled, nor one placed behind the bag's last piece, where the mask has no entry.
- SiteLifecycle.StepKeeps: a clock reading and the test or store it feeds are one step; `proxyOrdered`'s LastUsed stamps are the machine's `Streams` steps, which may come at any time; `TorrentBody` has their place in the loop, `BagInUse` what they are for.
- SiteCache.Prepare: its methods run on their own, with no other thread between their steps; interleavings are the subject of `SiteLifecycle`. The cleaner's hold of a site's lock within a pass shows in the machine's world only.
- SiteCache.Resolve: the DNS, DHT, storage and ADNL calls before the address loop are one answer (`Found`); keys and addresses are numbers; of `Reinit` only the call is recorded.
- DataStreamer.DataStreamer.Read: a call that has to wait returns `ReadWaits`, with what it copied so far, and is continued with `start`; locks and interleavings are in `Pipe`, of whose machine each call is a run.
- PayloadHandler.PanicsExactly: whether a panic ends the program or only the handler is the query library's matter; the other threads may go on here, which covers both. The lock is given back, as the deferred unlock does.
- AdnlAddress.ParseIffFormatted: line ends, padding and characters beyond ASCII (`Plain` excludes them) are the base32 and Unicode libraries' matter.
- RldpBodies.CopyBody: the `err` variable the copier shares with `doRldpHttp` is its own here; a chunk is whatever one Read of the body gives.
- The `activeRequests` table: a query for an unknown id and the entry's removal after the last part; a response without payload, whose pipe is finished at once.
- The file name of a torrent request (its leading slash, `index.html` for none).
- `FlushReader`: nothing calls it in these files; with it reads could be short and a send could follow Finish.
- Leaks: re-resolving replaces a bag or client without closing it, so nothing is said about every started downloader being closed.
- Conformance of ranges with section 2.1 of RFC 7233: the code reads "bytes=-N" as 0..N and refuses a last position past the end; only what it does is proved.
- Request and response headers, trailers, MIME types, the 404 answer, the discarded request body of a torrent request, timeouts, logging and TL encoding.
- `VirtualStorage`, configuration, `RunProxy`, the desktop applications and the price estimate: I/O, UI and one-branch facts.
