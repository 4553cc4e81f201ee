/**
  The requests `uploadFileByParts` sends and what it returns, as functions of
  the client's answers, the stream and the part size.

  `PartAttempt` is `__uploadPart`. `SendParts` uploads a list of bodies one
  after the other, numbering them from 1, until one attempt fails.
  `Transfer` is the try block up to the point where it completes or aborts:
  the parts cut inside the loop, then the stream's own failure if it has one,
  then the leftover part. `Finish` sends the complete or the abort, and
  `UploadRun` is the whole call, starting with CreateMultipartUpload.
 */
module Protocol {
  import opened S3Api
  import opened Buffering

  /** The input stream: the chunks it delivers, then either its end or the error it fails with. */
  datatype Stream = Stream(chunks: seq<Chunk>, failure: Option<Error>)

  /** How far the try block got: the requests sent, the part descriptors collected, the error thrown if any. */
  datatype Exchange = Exchange(trace: seq<Call>, parts: seq<Part>, error: Option<Error>)

  /** How the promise returned by `uploadFileByParts` settles. */
  datatype Outcome =
    | Resolved(response: Option<string>)   // with the CompleteMultipartUpload response
    | ResolvedNull                         // with null, after the catch block aborted
    | Rejected(error: Error)               // with an error

  /** One call of `uploadFileByParts`: how it settled and every request it sent. */
  datatype Run = Run(outcome: Outcome, trace: seq<Call>)

  /** The CreateMultipartUpload request, with the fixed metadata. */
  function CreateRequest(bucket: string, key: string): Call {
    CreateCall(bucket, key, CONTENT_TYPE, CONTENT_ENCODING, ACL)
  }

  /**
    `__uploadPart`: send the part; a rejected request throws its error; an
    answer without an ETag is followed by an abort and throws (the abort's
    error if the abort is rejected, the missing-ETag error otherwise).
   */
  function PartAttempt(s3: Oracle, trace: seq<Call>, bucket: string, key: string, partNumber: nat,
                       uploadId: string, body: Body): (a: (Result<string>, seq<Call>))
    ensures |trace| < |a.1| <= |trace| + 2 && a.1[..|trace|] == trace
    ensures a.0.Success? ==> a.0.value != "" && |a.1| == |trace| + 1
  {
    var upload := UploadPartCall(bucket, key, partNumber, uploadId, body);
    var sent := trace + [upload];
    match s3(trace, upload)
    case Failed(e) => (Failure(e), sent)
    case Answered(eTag) =>
      if Truthy(eTag) then (Success(eTag.value), sent)
      else
        var abort := AbortCall(bucket, key, uploadId);
        match s3(sent, abort)
        case Failed(e) => (Failure(e), sent + [abort])
        case Answered(_) => (Failure(EmptyETag), sent + [abort])
  }

  /**
    The attempt at position `m` of `trace` failed, and `error` is what it threw:
    either the request was rejected and nothing followed it, or it was
    answered without an ETag and exactly one abort followed it.
   */
  ghost predicate FailedAttempt(s3: Oracle, trace: seq<Call>, m: nat, bucket: string, key: string,
                                uploadId: string, error: Error)
  {
    && m < |trace|
    && trace[m].UploadPartCall?
    && match ReplyAt(s3, trace, m)
       case Failed(e) => |trace| == m + 1 && error == e
       case Answered(eTag) =>
         && !Truthy(eTag)
         && |trace| == m + 2
         && trace[m + 1] == AbortCall(bucket, key, uploadId)
         && error == (match ReplyAt(s3, trace, m + 1) case Failed(e) => e case Answered(_) => EmptyETag)
  }

  /** An attempt that threw: its upload follows the earlier requests, and the attempt failed as above. */
  lemma PartAttemptThrew(s3: Oracle, trace: seq<Call>, bucket: string, key: string, partNumber: nat,
                         uploadId: string, body: Body, trace': seq<Call>, e: Error)
    requires PartAttempt(s3, trace, bucket, key, partNumber, uploadId, body) == (Failure(e), trace')
    ensures |trace'| > |trace|
    ensures trace'[..|trace|] == trace
    ensures trace'[|trace|] == UploadPartCall(bucket, key, partNumber, uploadId, body)
    ensures FailedAttempt(s3, trace', |trace|, bucket, key, uploadId, e)
  {
    var upload := UploadPartCall(bucket, key, partNumber, uploadId, body);
    assert trace'[..|trace|] == trace;
    if |trace'| == |trace| + 2 {
      assert trace'[..|trace| + 1] == trace + [upload];
    }
  }

  /** What `__uploadPart` promises: an ETag that is not empty, or a failed attempt as above. */
  lemma PartAttemptOutcome(s3: Oracle, trace: seq<Call>, bucket: string, key: string, partNumber: nat,
                           uploadId: string, body: Body)
    ensures var (tagged, trace') := PartAttempt(s3, trace, bucket, key, partNumber, uploadId, body);
      var upload := UploadPartCall(bucket, key, partNumber, uploadId, body);
      && |trace'| > |trace|
      && trace'[..|trace| + 1] == trace + [upload]
      && (tagged.Success? <==> Tagged(s3(trace, upload)))
      && (tagged.Success? ==>
            && trace' == trace + [upload]
            && tagged.value != ""
            && ReplyAt(s3, trace', |trace|) == Answered(Some(tagged.value)))
      && (tagged.Failure? ==> FailedAttempt(s3, trace', |trace|, bucket, key, uploadId, tagged.error))
  {
    var upload := UploadPartCall(bucket, key, partNumber, uploadId, body);
    var (tagged, trace') := PartAttempt(s3, trace, bucket, key, partNumber, uploadId, body);
    assert trace'[..|trace|] == trace;
    if |trace'| == |trace| + 2 {
      assert trace'[..|trace| + 1] == trace + [upload];
    }
  }

  /** The UploadPart requests for the first `k` bodies, numbered from 1. */
  function UploadCalls(bucket: string, key: string, uploadId: string, bodies: seq<Body>, k: nat): (calls: seq<Call>)
    requires k <= |bodies|
  {
    seq(k, j requires 0 <= j < k => UploadPartCall(bucket, key, j + 1, uploadId, bodies[j]))
  }

  lemma UploadCallsPrefix(bucket: string, key: string, uploadId: string, bodies: seq<Body>, more: seq<Body>, k: nat)
    requires k <= |bodies|
    ensures UploadCalls(bucket, key, uploadId, bodies + more, k) == UploadCalls(bucket, key, uploadId, bodies, k)
  {
  }

  lemma UploadCallsSnoc(bucket: string, key: string, uploadId: string, bodies: seq<Body>, k: nat)
    requires k < |bodies|
    ensures UploadCalls(bucket, key, uploadId, bodies, k + 1)
         == UploadCalls(bucket, key, uploadId, bodies, k) + [UploadPartCall(bucket, key, k + 1, uploadId, bodies[k])]
  {
  }

  /** A list of UploadPart requests holds no complete and no abort. */
  lemma {:induction false} UploadCallsCount(bucket: string, key: string, uploadId: string, bodies: seq<Body>, k: nat)
    requires k <= |bodies|
    ensures var calls := UploadCalls(bucket, key, uploadId, bodies, k);
      Uploads(calls) == calls && Aborts(calls) == 0 && Completions(calls) == 0
    decreases k
  {
    if k > 0 {
      UploadCallsCount(bucket, key, uploadId, bodies, k - 1);
      UploadCallsSnoc(bucket, key, uploadId, bodies, k - 1);
      var calls := UploadCalls(bucket, key, uploadId, bodies, k);
      assert calls[..k - 1] == UploadCalls(bucket, key, uploadId, bodies, k - 1);
    }
  }

  /**
    Upload `bodies` in order after the requests `t0`, numbering the parts from 1,
    and stop at the first attempt that throws.
   */
  function SendParts(s3: Oracle, bucket: string, key: string, uploadId: string, t0: seq<Call>,
                     bodies: seq<Body>): (x: Exchange)
    ensures |x.parts| <= |bodies|
    ensures x.error.None? <==> |x.parts| == |bodies|
    ensures forall j :: 0 <= j < |x.parts| ==> x.parts[j].partNumber == j + 1 && x.parts[j].eTag != ""
    ensures |t0| <= |x.trace| && x.trace[..|t0|] == t0
    decreases |bodies|
  {
    if bodies == [] then Exchange(t0, [], None)
    else
      var prev := SendParts(s3, bucket, key, uploadId, t0, bodies[..|bodies| - 1]);
      if prev.error.Some? then prev
      else
        var (tagged, trace) := PartAttempt(s3, prev.trace, bucket, key, |prev.parts| + 1, uploadId, bodies[|bodies| - 1]);
        match tagged
        case Failure(e) => Exchange(trace, prev.parts, Some(e))
        case Success(eTag) => Exchange(trace, prev.parts + [Part(eTag, |prev.parts| + 1)], None)
  }

  /** Every collected part descriptor carries the ETag the client answered for that part. */
  ghost predicate Acknowledged(s3: Oracle, trace: seq<Call>, start: nat, parts: seq<Part>) {
    && start + |parts| <= |trace|
    && forall j :: 0 <= j < |parts| ==> ReplyAt(s3, trace, start + j) == Answered(Some(parts[j].eTag))
  }

  lemma AcknowledgedPrefix(s3: Oracle, trace: seq<Call>, more: seq<Call>, start: nat, parts: seq<Part>)
    requires Acknowledged(s3, trace, start, parts)
    ensures Acknowledged(s3, trace + more, start, parts)
  {
    forall j | 0 <= j < |parts|
      ensures ReplyAt(s3, trace + more, start + j) == Answered(Some(parts[j].eTag))
    {
      ReplyAtPrefix(s3, trace, more, start + j);
    }
  }

  /**
    The requests an exchange holds after uploading `bodies`: one UploadPart per
    collected descriptor, each answered with that descriptor's ETag; then, if
    an attempt threw, that attempt's UploadPart for the next body and the abort
    it may have sent.
   */
  ghost predicate SentInOrder(s3: Oracle, bucket: string, key: string, uploadId: string, t0: seq<Call>,
                              bodies: seq<Body>, x: Exchange)
  {
    && |x.parts| <= |bodies|
    && Acknowledged(s3, x.trace, |t0|, x.parts)
    && x.trace[..|t0| + |x.parts|] == t0 + UploadCalls(bucket, key, uploadId, bodies, |x.parts|)
    && (x.error.None? ==> x.trace == t0 + UploadCalls(bucket, key, uploadId, bodies, |x.parts|))
    && (x.error.Some? ==>
          && |x.parts| < |bodies|
          && FailedAttempt(s3, x.trace, |t0| + |x.parts|, bucket, key, uploadId, x.error.value)
          && x.trace[|t0| + |x.parts|] == UploadPartCall(bucket, key, |x.parts| + 1, uploadId, bodies[|x.parts|]))
  }

  lemma SentInOrderLonger(s3: Oracle, bucket: string, key: string, uploadId: string, t0: seq<Call>,
                          bodies: seq<Body>, more: seq<Body>, x: Exchange)
    requires SentInOrder(s3, bucket, key, uploadId, t0, bodies, x) && x.error.Some?
    ensures SentInOrder(s3, bucket, key, uploadId, t0, bodies + more, x)
  {
    UploadCallsPrefix(bucket, key, uploadId, bodies, more, |x.parts|);
  }

  /** One more body, acknowledged with an ETag: one more descriptor, nothing else sent. */
  lemma SentInOrderAcknowledged(s3: Oracle, bucket: string, key: string, uploadId: string, t0: seq<Call>,
                                bodies: seq<Body>, body: Body, prev: Exchange, trace: seq<Call>, eTag: string)
    requires SentInOrder(s3, bucket, key, uploadId, t0, bodies, prev)
    requires prev.error.None? && |prev.parts| == |bodies|
    requires PartAttempt(s3, prev.trace, bucket, key, |prev.parts| + 1, uploadId, body) == (Success(eTag), trace)
    ensures SentInOrder(s3, bucket, key, uploadId, t0, bodies + [body],
                        Exchange(trace, prev.parts + [Part(eTag, |prev.parts| + 1)], None))
  {
    var n := |prev.parts|;
    var parts := prev.parts + [Part(eTag, n + 1)];
    PartAttemptOutcome(s3, prev.trace, bucket, key, n + 1, uploadId, body);
    AcknowledgedPrefix(s3, prev.trace, trace[|prev.trace|..], |t0|, prev.parts);
    assert trace == prev.trace + trace[|prev.trace|..];
    UploadCallsPrefix(bucket, key, uploadId, bodies, [body], n);
    UploadCallsSnoc(bucket, key, uploadId, bodies + [body], n);
    assert trace[..|t0| + |parts|] == trace;
    assert Acknowledged(s3, trace, |t0|, parts);
  }

  /** One more body, whose attempt threw: that attempt is the last thing sent. */
  lemma SentInOrderThrew(s3: Oracle, bucket: string, key: string, uploadId: string, t0: seq<Call>,
                         bodies: seq<Body>, body: Body, prev: Exchange, trace: seq<Call>, e: Error)
    requires SentInOrder(s3, bucket, key, uploadId, t0, bodies, prev)
    requires prev.error.None? && |prev.parts| == |bodies|
    requires PartAttempt(s3, prev.trace, bucket, key, |prev.parts| + 1, uploadId, body) == (Failure(e), trace)
    ensures SentInOrder(s3, bucket, key, uploadId, t0, bodies + [body], Exchange(trace, prev.parts, Some(e)))
  {
    var n := |prev.parts|;
    assert |prev.trace| == |t0| + n;
    PartAttemptThrew(s3, prev.trace, bucket, key, n + 1, uploadId, body, trace, e);
    AcknowledgedPrefix(s3, prev.trace, trace[|prev.trace|..], |t0|, prev.parts);
    assert trace == prev.trace + trace[|prev.trace|..];
    UploadCallsPrefix(bucket, key, uploadId, bodies, [body], n);
    assert (bodies + [body])[n] == body;
  }

  lemma SentInOrderStep(s3: Oracle, bucket: string, key: string, uploadId: string, t0: seq<Call>,
                        bodies: seq<Body>, body: Body, prev: Exchange)
    requires SentInOrder(s3, bucket, key, uploadId, t0, bodies, prev)
    requires prev.error.None? && |prev.parts| == |bodies|
    ensures var (tagged, trace) := PartAttempt(s3, prev.trace, bucket, key, |prev.parts| + 1, uploadId, body);
      SentInOrder(s3, bucket, key, uploadId, t0, bodies + [body],
        match tagged
        case Failure(e) => Exchange(trace, prev.parts, Some(e))
        case Success(eTag) => Exchange(trace, prev.parts + [Part(eTag, |prev.parts| + 1)], None))
  {
    var (tagged, trace) := PartAttempt(s3, prev.trace, bucket, key, |prev.parts| + 1, uploadId, body);
    if tagged.Success? {
      SentInOrderAcknowledged(s3, bucket, key, uploadId, t0, bodies, body, prev, trace, tagged.value);
    } else {
      SentInOrderThrew(s3, bucket, key, uploadId, t0, bodies, body, prev, trace, tagged.error);
    }
  }

  lemma {:induction false} SendPartsTrace(s3: Oracle, bucket: string, key: string, uploadId: string,
                                          t0: seq<Call>, bodies: seq<Body>)
    ensures SentInOrder(s3, bucket, key, uploadId, t0, bodies, SendParts(s3, bucket, key, uploadId, t0, bodies))
    decreases |bodies|
  {
    if bodies == [] {
      assert SendParts(s3, bucket, key, uploadId, t0, bodies).trace[..|t0|] == t0;
    } else {
      var init, last := bodies[..|bodies| - 1], bodies[|bodies| - 1];
      SendPartsTrace(s3, bucket, key, uploadId, t0, init);
      var prev := SendParts(s3, bucket, key, uploadId, t0, init);
      assert init + [last] == bodies;
      if prev.error.Some? {
        SentInOrderLonger(s3, bucket, key, uploadId, t0, init, [last], prev);
      } else {
        SentInOrderStep(s3, bucket, key, uploadId, t0, init, last, prev);
      }
    }
  }

  /** Sending more bodies after a failed attempt changes nothing. */
  lemma {:induction false} SendPartsStops(s3: Oracle, bucket: string, key: string, uploadId: string,
                                          t0: seq<Call>, bodies: seq<Body>, more: seq<Body>)
    requires SendParts(s3, bucket, key, uploadId, t0, bodies).error.Some?
    ensures SendParts(s3, bucket, key, uploadId, t0, bodies + more) == SendParts(s3, bucket, key, uploadId, t0, bodies)
    decreases |more|
  {
    if more == [] {
      assert bodies + more == bodies;
    } else {
      var init := more[..|more| - 1];
      assert (bodies + more)[..|bodies + more| - 1] == bodies + init;
      SendPartsStops(s3, bucket, key, uploadId, t0, bodies, init);
    }
  }

  /** Sending one more body continues from where the previous bodies left off. */
  lemma SendPartsSnoc(s3: Oracle, bucket: string, key: string, uploadId: string,
                      t0: seq<Call>, bodies: seq<Body>, body: Body)
    ensures var prev := SendParts(s3, bucket, key, uploadId, t0, bodies);
      var x := SendParts(s3, bucket, key, uploadId, t0, bodies + [body]);
      prev.error.None? ==>
        var (tagged, trace) := PartAttempt(s3, prev.trace, bucket, key, |prev.parts| + 1, uploadId, body);
        x == match tagged
             case Failure(e) => Exchange(trace, prev.parts, Some(e))
             case Success(eTag) => Exchange(trace, prev.parts + [Part(eTag, |prev.parts| + 1)], None)
  {
    assert (bodies + [body])[..|bodies|] == bodies;
  }

  /** Flushing one more buffer after the flushed groups, acknowledged: one more part descriptor. */
  lemma FlushAcknowledged(s3: Oracle, bucket: string, key: string, uploadId: string, t0: seq<Call>,
                          flushed: seq<seq<Chunk>>, buffers: seq<Chunk>, trace: seq<Call>, parts: seq<Part>,
                          trace': seq<Call>, eTag: string)
    requires SendParts(s3, bucket, key, uploadId, t0, Bodies(flushed)) == Exchange(trace, parts, None)
    requires PartAttempt(s3, trace, bucket, key, |parts| + 1, uploadId, Flatten(buffers)) == (Success(eTag), trace')
    ensures SendParts(s3, bucket, key, uploadId, t0, Bodies(flushed + [buffers]))
         == Exchange(trace', parts + [Part(eTag, |parts| + 1)], None)
  {
    BodiesAppend(flushed, [buffers]);
    assert Bodies(flushed + [buffers]) == Bodies(flushed) + [Flatten(buffers)];
    SendPartsSnoc(s3, bucket, key, uploadId, t0, Bodies(flushed), Flatten(buffers));
  }

  /** Flushing one more buffer after the flushed groups, and the upload throws. */
  lemma FlushThrows(s3: Oracle, bucket: string, key: string, uploadId: string, t0: seq<Call>,
                    flushed: seq<seq<Chunk>>, buffers: seq<Chunk>, trace: seq<Call>, parts: seq<Part>,
                    trace': seq<Call>, e: Error)
    requires SendParts(s3, bucket, key, uploadId, t0, Bodies(flushed)) == Exchange(trace, parts, None)
    requires PartAttempt(s3, trace, bucket, key, |parts| + 1, uploadId, Flatten(buffers)) == (Failure(e), trace')
    ensures SendParts(s3, bucket, key, uploadId, t0, Bodies(flushed + [buffers])) == Exchange(trace', parts, Some(e))
  {
    BodiesAppend(flushed, [buffers]);
    assert Bodies(flushed + [buffers]) == Bodies(flushed) + [Flatten(buffers)];
    SendPartsSnoc(s3, bucket, key, uploadId, t0, Bodies(flushed), Flatten(buffers));
  }

  /**
    The try block up to its complete or abort: the parts flushed inside the
    loop; then the stream's own failure, if it fails once its chunks are read;
    otherwise the leftover part as well.
   */
  function Transfer(s3: Oracle, bucket: string, key: string, uploadId: string, t0: seq<Call>,
                    stream: Stream, chunkSize: int): (x: Exchange)
    ensures x.error.None? ==> stream.failure.None? && |x.parts| == |PlannedBodies(stream.chunks, chunkSize)|
    ensures |t0| <= |x.trace| && x.trace[..|t0|] == t0
  {
    var s := Segment(stream.chunks, chunkSize);
    var inLoop := SendParts(s3, bucket, key, uploadId, t0, Bodies(s.groups));
    if inLoop.error.Some? then inLoop
    else if stream.failure.Some? then Exchange(inLoop.trace, inLoop.parts, stream.failure)
    else SendParts(s3, bucket, key, uploadId, t0, PlannedBodies(stream.chunks, chunkSize))
  }

  /**
    The end of the call. Without an error, CompleteMultipartUpload is sent with
    the collected parts and its promise is returned as it is, so a rejection
    reaches the caller. After an error, the catch block aborts and the call
    resolves with null, unless the abort itself is rejected.
   */
  function Finish(s3: Oracle, bucket: string, key: string, uploadId: string, x: Exchange): (r: Run)
    ensures |r.trace| == |x.trace| + 1 && r.trace[..|x.trace|] == x.trace
    ensures x.error.None? <==> r.trace[|x.trace|].CompleteCall?
    ensures r.outcome.Resolved? ==> x.error.None?
    ensures r.outcome.ResolvedNull? ==> x.error.Some?
  {
    if x.error.None? then
      var complete := CompleteCall(bucket, key, uploadId, x.parts);
      match s3(x.trace, complete)
      case Answered(response) => Run(Resolved(response), x.trace + [complete])
      case Failed(e) => Run(Rejected(e), x.trace + [complete])
    else
      var abort := AbortCall(bucket, key, uploadId);
      match s3(x.trace, abort)
      case Answered(_) => Run(ResolvedNull, x.trace + [abort])
      case Failed(e) => Run(Rejected(e), x.trace + [abort])
  }

  /** `uploadFileByParts(bucket, key, stream, chunkSize)` against the client `s3`. */
  function UploadRun(s3: Oracle, bucket: string, key: string, stream: Stream, chunkSize: int): (r: Run)
    ensures |r.trace| >= 1 && r.trace[0] == CreateRequest(bucket, key)
    ensures |r.trace| == 1 <==> !Tagged(s3([], CreateRequest(bucket, key)))
    ensures |r.trace| == 1 ==> r.outcome.Rejected?
  {
    var create := CreateRequest(bucket, key);
    match s3([], create)
    case Failed(e) => Run(Rejected(e), [create])
    case Answered(uploadId) =>
      if !Truthy(uploadId) then Run(Rejected(EmptyUploadId), [create])
      else Finish(s3, bucket, key, uploadId.value, Transfer(s3, bucket, key, uploadId.value, [create], stream, chunkSize))
  }

  /**
    The try block sends the planned bodies in order and stops at the first
    attempt that throws, except when the stream fails: then every part flushed
    inside the loop has been uploaded and the leftover part is not.
   */
  lemma TransferShape(s3: Oracle, bucket: string, key: string, uploadId: string, t0: seq<Call>,
                      stream: Stream, chunkSize: int)
    ensures var x := Transfer(s3, bucket, key, uploadId, t0, stream, chunkSize);
      var groups := Bodies(Segment(stream.chunks, chunkSize).groups);
      var planned := PlannedBodies(stream.chunks, chunkSize);
      var inLoop := SendParts(s3, bucket, key, uploadId, t0, groups);
      && groups <= planned
      && (inLoop.error.Some? ==> x == inLoop)
      && if inLoop.error.None? && stream.failure.Some? then
           && x == Exchange(inLoop.trace, inLoop.parts, stream.failure)
           && |x.parts| == |groups|
           && SentInOrder(s3, bucket, key, uploadId, t0, groups, inLoop)
         else
           x == SendParts(s3, bucket, key, uploadId, t0, planned)
  {
    var s := Segment(stream.chunks, chunkSize);
    var groups := Bodies(s.groups);
    var planned := PlannedBodies(stream.chunks, chunkSize);
    var tail := if s.rest != [] then [Flatten(s.rest)] else [];
    assert planned == groups + tail;
    var inLoop := SendParts(s3, bucket, key, uploadId, t0, groups);
    if inLoop.error.Some? {
      SendPartsStops(s3, bucket, key, uploadId, t0, groups, tail);
    } else if stream.failure.Some? {
      SendPartsTrace(s3, bucket, key, uploadId, t0, groups);
    }
  }

  /**
    The state of the buffering loop of `uploadFileByParts` before it reads
    the chunk at position `i`: the groups flushed so far and the buffered
    chunks are how `Segment` begins, and the flushed groups have been
    uploaded in order, each acknowledged, giving `trace` and `parts`.
   */
  ghost predicate Reading(s3: Oracle, bucket: string, key: string, uploadId: string, t0: seq<Call>,
                          chunks: seq<Chunk>, chunkSize: int, i: nat, flushed: seq<seq<Chunk>>,
                          buffers: seq<Chunk>, trace: seq<Call>, parts: seq<Part>)
  {
    && i <= |chunks|
    && Segment(chunks, chunkSize).groups == flushed + Scan(buffers, chunks[i..], chunkSize).groups
    && Segment(chunks, chunkSize).rest == Scan(buffers, chunks[i..], chunkSize).rest
    && SendParts(s3, bucket, key, uploadId, t0, Bodies(flushed)) == Exchange(trace, parts, None)
  }

  lemma ReadingStarts(s3: Oracle, bucket: string, key: string, uploadId: string, t0: seq<Call>,
                      chunks: seq<Chunk>, chunkSize: int)
    ensures Reading(s3, bucket, key, uploadId, t0, chunks, chunkSize, 0, [], [], t0, [])
  {
    assert chunks[0..] == chunks;
    assert Bodies([]) == [];
  }

  /** A chunk read while the buffer is below `chunkSize` is buffered. */
  lemma ReadingFills(s3: Oracle, bucket: string, key: string, uploadId: string, t0: seq<Call>,
                     chunks: seq<Chunk>, chunkSize: int, i: nat, flushed: seq<seq<Chunk>>,
                     buffers: seq<Chunk>, trace: seq<Call>, parts: seq<Part>)
    requires Reading(s3, bucket, key, uploadId, t0, chunks, chunkSize, i, flushed, buffers, trace, parts)
    requires i < |chunks| && Sum(buffers) < chunkSize
    ensures Reading(s3, bucket, key, uploadId, t0, chunks, chunkSize, i + 1, flushed, buffers + [chunks[i]], trace, parts)
  {
    ScanRead(buffers, chunks, i, chunkSize);
  }

  /**
    A chunk read once the buffer has reached `chunkSize`: the buffer is
    uploaded as the next part and, if that succeeds, the loop goes on with an
    empty buffer, the chunk itself being dropped.
   */
  lemma ReadingFlushes(s3: Oracle, bucket: string, key: string, uploadId: string, t0: seq<Call>,
                       chunks: seq<Chunk>, chunkSize: int, i: nat, flushed: seq<seq<Chunk>>,
                       buffers: seq<Chunk>, trace: seq<Call>, parts: seq<Part>, trace': seq<Call>, eTag: string)
    requires Reading(s3, bucket, key, uploadId, t0, chunks, chunkSize, i, flushed, buffers, trace, parts)
    requires i < |chunks| && Sum(buffers) >= chunkSize
    requires PartAttempt(s3, trace, bucket, key, |parts| + 1, uploadId, Flatten(buffers)) == (Success(eTag), trace')
    ensures Reading(s3, bucket, key, uploadId, t0, chunks, chunkSize, i + 1, flushed + [buffers], [], trace',
                    parts + [Part(eTag, |parts| + 1)])
  {
    FlushAcknowledged(s3, bucket, key, uploadId, t0, flushed, buffers, trace, parts, trace', eTag);
    ScanFlushes(flushed, buffers, chunks, i, chunkSize);
  }

  /**
    The same, when the upload throws: the loop has done all it will do,
    whatever the stream still holds.
   */
  lemma FlushFails(s3: Oracle, bucket: string, key: string, uploadId: string, t0: seq<Call>,
                   chunks: seq<Chunk>, chunkSize: int, i: nat, flushed: seq<seq<Chunk>>, buffers: seq<Chunk>,
                   trace: seq<Call>, parts: seq<Part>, trace': seq<Call>, e: Error)
    requires Reading(s3, bucket, key, uploadId, t0, chunks, chunkSize, i, flushed, buffers, trace, parts)
    requires i < |chunks| && Sum(buffers) >= chunkSize
    requires PartAttempt(s3, trace, bucket, key, |parts| + 1, uploadId, Flatten(buffers)) == (Failure(e), trace')
    ensures SendParts(s3, bucket, key, uploadId, t0, Bodies(Segment(chunks, chunkSize).groups))
         == Exchange(trace', parts, Some(e))
  {
    FlushThrows(s3, bucket, key, uploadId, t0, flushed, buffers, trace, parts, trace', e);
    ScanFlushes(flushed, buffers, chunks, i, chunkSize);
    var done := flushed + [buffers];
    var later := Scan([], chunks[i + 1..], chunkSize).groups;
    BodiesAppend(done, later);
    SendPartsStops(s3, bucket, key, uploadId, t0, Bodies(done), Bodies(later));
  }

  /** Every chunk read: the flushed groups are all of `Segment`'s groups, the buffer its leftover. */
  lemma ReadingEnds(s3: Oracle, bucket: string, key: string, uploadId: string, t0: seq<Call>,
                    chunks: seq<Chunk>, chunkSize: int, flushed: seq<seq<Chunk>>,
                    buffers: seq<Chunk>, trace: seq<Call>, parts: seq<Part>)
    requires Reading(s3, bucket, key, uploadId, t0, chunks, chunkSize, |chunks|, flushed, buffers, trace, parts)
    ensures SendParts(s3, bucket, key, uploadId, t0, Bodies(Segment(chunks, chunkSize).groups))
         == Exchange(trace, parts, None)
    ensures buffers == Segment(chunks, chunkSize).rest
  {
    assert chunks[|chunks|..] == [];
    assert flushed + [] == flushed;
  }

  /**
    Every chunk has been read and every flush inside the loop succeeded: the
    try block then meets the stream's failure, or uploads the leftover buffer
    if it holds a chunk, or ends.
   */
  lemma TransferAtStreamEnd(s3: Oracle, bucket: string, key: string, uploadId: string, t0: seq<Call>,
                            stream: Stream, chunkSize: int, x: Exchange)
    requires x == SendParts(s3, bucket, key, uploadId, t0, Bodies(Segment(stream.chunks, chunkSize).groups))
    requires x.error.None?
    ensures var rest := Segment(stream.chunks, chunkSize).rest;
      Transfer(s3, bucket, key, uploadId, t0, stream, chunkSize)
        == if stream.failure.Some? then Exchange(x.trace, x.parts, stream.failure)
           else if rest == [] then x
           else
             var (tagged, trace) := PartAttempt(s3, x.trace, bucket, key, |x.parts| + 1, uploadId, Flatten(rest));
             match tagged
             case Failure(e) => Exchange(trace, x.parts, Some(e))
             case Success(eTag) => Exchange(trace, x.parts + [Part(eTag, |x.parts| + 1)], None)
  {
    var s := Segment(stream.chunks, chunkSize);
    if s.rest != [] {
      SendPartsSnoc(s3, bucket, key, uploadId, t0, Bodies(s.groups), Flatten(s.rest));
    } else {
      assert PlannedBodies(stream.chunks, chunkSize) == Bodies(s.groups);
    }
  }
}
