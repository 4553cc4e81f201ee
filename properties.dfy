/**
  What one call of `uploadFileByParts` does, end to end, as properties of
  `UploadRun`: which requests it sends and in which order, which parts the
  complete request lists, when it aborts (once or twice), and how the
  returned promise settles.
 */
module UploadProperties {
  import opened S3Api
  import opened Buffering
  import opened Protocol

  /**
    What the try block leaves behind, when it has gone as far as `x`: a
    prefix of the planned bodies uploaded, numbered from 1, each acknowledged
    with the ETag its descriptor carries. It ends without an error only after
    uploading every planned body of a stream that did not fail; otherwise it
    ends with the stream's failure after the parts flushed inside the loop,
    or with the attempt that threw on the next planned body.
   */
  ghost predicate TryBlockShape(s3: Oracle, bucket: string, key: string, uploadId: string, t0: seq<Call>,
                                stream: Stream, chunkSize: int, x: Exchange)
  {
    var planned := PlannedBodies(stream.chunks, chunkSize);
    var n := |x.parts|;
    && n <= |planned|
    && Acknowledged(s3, x.trace, |t0|, x.parts)
    && (forall j :: 0 <= j < n ==> x.parts[j].partNumber == j + 1 && x.parts[j].eTag != "")
    && x.trace[..|t0| + n] == t0 + UploadCalls(bucket, key, uploadId, planned, n)
    && (x.error.None? ==>
          && stream.failure.None?
          && n == |planned|
          && x.trace == t0 + UploadCalls(bucket, key, uploadId, planned, n))
    && (x.error.Some? ==>
          || (&& x.error == stream.failure
              && n == |Segment(stream.chunks, chunkSize).groups|
              && x.trace == t0 + UploadCalls(bucket, key, uploadId, planned, n))
          || (&& n < |planned|
              && FailedAttempt(s3, x.trace, |t0| + n, bucket, key, uploadId, x.error.value)
              && x.trace[|t0| + n] == UploadPartCall(bucket, key, n + 1, uploadId, planned[n])))
  }

  lemma StreamFailureShape(s3: Oracle, bucket: string, key: string, uploadId: string, t0: seq<Call>,
                           stream: Stream, chunkSize: int)
    requires stream.failure.Some?
    requires SendParts(s3, bucket, key, uploadId, t0, Bodies(Segment(stream.chunks, chunkSize).groups)).error.None?
    ensures TryBlockShape(s3, bucket, key, uploadId, t0, stream, chunkSize,
                          Transfer(s3, bucket, key, uploadId, t0, stream, chunkSize))
  {
    var x := Transfer(s3, bucket, key, uploadId, t0, stream, chunkSize);
    var groups := Bodies(Segment(stream.chunks, chunkSize).groups);
    var planned := PlannedBodies(stream.chunks, chunkSize);
    TransferShape(s3, bucket, key, uploadId, t0, stream, chunkSize);
    assert planned == groups + planned[|groups|..];
    UploadCallsPrefix(bucket, key, uploadId, groups, planned[|groups|..], |x.parts|);
  }

  lemma SendPartsShape(s3: Oracle, bucket: string, key: string, uploadId: string, t0: seq<Call>,
                       stream: Stream, chunkSize: int, x: Exchange)
    requires x == SendParts(s3, bucket, key, uploadId, t0, PlannedBodies(stream.chunks, chunkSize))
    requires x.error.None? ==> stream.failure.None?
    ensures TryBlockShape(s3, bucket, key, uploadId, t0, stream, chunkSize, x)
  {
    SendPartsTrace(s3, bucket, key, uploadId, t0, PlannedBodies(stream.chunks, chunkSize));
  }

  /** The try block, however it ends, leaves the shape above behind. */
  lemma TransferFacts(s3: Oracle, bucket: string, key: string, uploadId: string, t0: seq<Call>,
                      stream: Stream, chunkSize: int)
    ensures TryBlockShape(s3, bucket, key, uploadId, t0, stream, chunkSize,
                          Transfer(s3, bucket, key, uploadId, t0, stream, chunkSize))
  {
    var inLoop := SendParts(s3, bucket, key, uploadId, t0, Bodies(Segment(stream.chunks, chunkSize).groups));
    TransferShape(s3, bucket, key, uploadId, t0, stream, chunkSize);
    if inLoop.error.None? && stream.failure.Some? {
      StreamFailureShape(s3, bucket, key, uploadId, t0, stream, chunkSize);
    } else {
      SendPartsShape(s3, bucket, key, uploadId, t0, stream, chunkSize,
                     Transfer(s3, bucket, key, uploadId, t0, stream, chunkSize));
    }
  }

  /** After a failed attempt comes nothing, or the one abort it sent. */
  lemma FailedAttemptTail(s3: Oracle, trace: seq<Call>, m: nat, bucket: string, key: string,
                          uploadId: string, error: Error)
    requires FailedAttempt(s3, trace, m, bucket, key, uploadId, error)
    ensures trace == trace[..m] + [trace[m]] + trace[m + 1..]
    ensures trace[m + 1..] == [] || trace[m + 1..] == [AbortCall(bucket, key, uploadId)]
  {
    assert trace == trace[..m] + [trace[m]] + trace[m + 1..];
    if |trace| == m + 2 {
      assert trace[m + 1..] == [trace[m + 1]];
    }
  }

  /**
    The requests of a try block that went as far as `x`: UploadPart requests
    for a prefix of `planned`, numbered from 1, one more than the collected
    descriptors at most; no complete; an abort only after an error.
   */
  ghost predicate SentSoFar(bucket: string, key: string, uploadId: string, planned: seq<Body>, x: Exchange) {
    var u := Uploads(x.trace);
    && Completions(x.trace) == 0
    && Aborts(x.trace) <= 1
    && (x.error.None? ==> Aborts(x.trace) == 0)
    && |x.parts| <= |u| <= |x.parts| + 1
    && |u| <= |planned|
    && u == UploadCalls(bucket, key, uploadId, planned, |u|)
  }

  /** The tail after the last upload: nothing, or one abort. */
  lemma AbortTailCounts(bucket: string, key: string, uploadId: string, tail: seq<Call>)
    requires tail == [] || tail == [AbortCall(bucket, key, uploadId)]
    ensures Uploads(tail) == [] && Completions(tail) == 0 && Aborts(tail) == |tail|
  {
    if tail != [] {
      assert tail[..0] == [];
    }
  }

  /** The uploads, completions and aborts of a trace made of an opening, the uploads sent, and a tail. */
  lemma TraceCounts(bucket: string, key: string, uploadId: string, t0: seq<Call>, planned: seq<Body>,
                    k: nat, tail: seq<Call>)
    requires Uploads(t0) == [] && Aborts(t0) == 0 && Completions(t0) == 0
    requires k <= |planned|
    requires tail == [] || tail == [AbortCall(bucket, key, uploadId)]
    ensures var trace := t0 + UploadCalls(bucket, key, uploadId, planned, k) + tail;
      && Uploads(trace) == UploadCalls(bucket, key, uploadId, planned, k)
      && Aborts(trace) == |tail|
      && Completions(trace) == 0
  {
    var sent := UploadCalls(bucket, key, uploadId, planned, k);
    TraceAppend(t0, sent);
    TraceAppend(t0 + sent, tail);
    UploadCallsCount(bucket, key, uploadId, planned, k);
    AbortTailCounts(bucket, key, uploadId, tail);
    assert Uploads(t0 + sent) == sent;
  }

  /** Requests numbered from 1 for the first `k` bodies, then perhaps one abort. */
  lemma SentCounts(bucket: string, key: string, uploadId: string, t0: seq<Call>, planned: seq<Body>,
                   k: nat, tail: seq<Call>, x: Exchange)
    requires Uploads(t0) == [] && Aborts(t0) == 0 && Completions(t0) == 0
    requires |x.parts| <= k <= |x.parts| + 1 && k <= |planned|
    requires tail == [] || tail == [AbortCall(bucket, key, uploadId)]
    requires x.error.None? ==> tail == []
    requires x.trace == t0 + UploadCalls(bucket, key, uploadId, planned, k) + tail
    ensures SentSoFar(bucket, key, uploadId, planned, x)
    ensures Uploads(x.trace) == UploadCalls(bucket, key, uploadId, planned, k)
    ensures Aborts(x.trace) == |tail|
  {
    TraceCounts(bucket, key, uploadId, t0, planned, k, tail);
    assert |UploadCalls(bucket, key, uploadId, planned, k)| == k;
  }

  /** A try block that ended with a failed attempt: the attempt's upload, then perhaps its abort. */
  lemma FailedAttemptTrace(s3: Oracle, bucket: string, key: string, uploadId: string, t0: seq<Call>,
                           planned: seq<Body>, x: Exchange)
    requires |x.parts| < |planned| && x.error.Some?
    requires FailedAttempt(s3, x.trace, |t0| + |x.parts|, bucket, key, uploadId, x.error.value)
    requires x.trace[..|t0| + |x.parts|] == t0 + UploadCalls(bucket, key, uploadId, planned, |x.parts|)
    requires x.trace[|t0| + |x.parts|] == UploadPartCall(bucket, key, |x.parts| + 1, uploadId, planned[|x.parts|])
    ensures var tail := x.trace[|t0| + |x.parts| + 1..];
      && (tail == [] || tail == [AbortCall(bucket, key, uploadId)])
      && x.trace == t0 + UploadCalls(bucket, key, uploadId, planned, |x.parts| + 1) + tail
  {
    FailedAttemptTail(s3, x.trace, |t0| + |x.parts|, bucket, key, uploadId, x.error.value);
    var n := |x.parts|;
    var tail := x.trace[|t0| + n + 1..];
    UploadCallsSnoc(bucket, key, uploadId, planned, n);
    assert x.trace == t0 + UploadCalls(bucket, key, uploadId, planned, n + 1) + tail;
  }

  /**
    Before the complete or the abort, the try block has sent UploadPart
    requests for a prefix of the planned bodies, in order, and at most the
    one abort of a missing ETag; it has never completed.
   */
  lemma TryBlockCounts(s3: Oracle, bucket: string, key: string, uploadId: string, t0: seq<Call>,
                       stream: Stream, chunkSize: int, x: Exchange)
    requires Uploads(t0) == [] && Aborts(t0) == 0 && Completions(t0) == 0
    requires TryBlockShape(s3, bucket, key, uploadId, t0, stream, chunkSize, x)
    ensures SentSoFar(bucket, key, uploadId, PlannedBodies(stream.chunks, chunkSize), x)
  {
    var planned := PlannedBodies(stream.chunks, chunkSize);
    if x.trace == t0 + UploadCalls(bucket, key, uploadId, planned, |x.parts|) {
      assert x.trace == t0 + UploadCalls(bucket, key, uploadId, planned, |x.parts|) + [];
      SentCounts(bucket, key, uploadId, t0, planned, |x.parts|, [], x);
    } else {
      FailedAttemptTrace(s3, bucket, key, uploadId, t0, planned, x);
      SentCounts(bucket, key, uploadId, t0, planned, |x.parts| + 1, x.trace[|t0| + |x.parts| + 1..], x);
    }
  }

  /** The UploadId CreateMultipartUpload answered with. */
  function UploadIdOf(s3: Oracle, bucket: string, key: string): string
    requires Tagged(s3([], CreateRequest(bucket, key)))
  {
    s3([], CreateRequest(bucket, key)).field.value
  }

  /** The try block of a call whose create was answered with an UploadId. */
  function TryBlock(s3: Oracle, bucket: string, key: string, stream: Stream, chunkSize: int): Exchange
    requires Tagged(s3([], CreateRequest(bucket, key)))
  {
    Transfer(s3, bucket, key, UploadIdOf(s3, bucket, key), [CreateRequest(bucket, key)], stream, chunkSize)
  }

  /** The complete or abort that ends the call, after the try block went as far as `x`. */
  lemma FinishFacts(s3: Oracle, bucket: string, key: string, uploadId: string, x: Exchange)
    ensures var r := Finish(s3, bucket, key, uploadId, x);
      var last := if x.error.None? then CompleteCall(bucket, key, uploadId, x.parts) else AbortCall(bucket, key, uploadId);
      && r.trace == x.trace + [last]
      && ReplyAt(s3, r.trace, |x.trace|) == s3(x.trace, last)
      && Uploads(r.trace) == Uploads(x.trace)
      && Completions(r.trace) == Completions(x.trace) + (if x.error.None? then 1 else 0)
      && Aborts(r.trace) == Aborts(x.trace) + (if x.error.None? then 0 else 1)
      && r.outcome == match s3(x.trace, last)
                      case Answered(response) => if x.error.None? then Resolved(response) else ResolvedNull
                      case Failed(e) => Rejected(e)
  {
    var last := if x.error.None? then CompleteCall(bucket, key, uploadId, x.parts) else AbortCall(bucket, key, uploadId);
    TraceAppend(x.trace, [last]);
    assert [last][..0] == [];
    assert (x.trace + [last])[..|x.trace|] == x.trace;
  }

  /** A call whose create was answered with an UploadId: the try block, then its complete or abort. */
  lemma RunFacts(s3: Oracle, bucket: string, key: string, stream: Stream, chunkSize: int)
    requires Tagged(s3([], CreateRequest(bucket, key)))
    ensures var uploadId := UploadIdOf(s3, bucket, key);
      var x := TryBlock(s3, bucket, key, stream, chunkSize);
      && UploadRun(s3, bucket, key, stream, chunkSize) == Finish(s3, bucket, key, uploadId, x)
      && TryBlockShape(s3, bucket, key, uploadId, [CreateRequest(bucket, key)], stream, chunkSize, x)
      && SentSoFar(bucket, key, uploadId, PlannedBodies(stream.chunks, chunkSize), x)
      && |x.trace| >= 1 && x.trace[0] == CreateRequest(bucket, key)
  {
    var create := CreateRequest(bucket, key);
    var uploadId := UploadIdOf(s3, bucket, key);
    var x := TryBlock(s3, bucket, key, stream, chunkSize);
    TransferFacts(s3, bucket, key, uploadId, [create], stream, chunkSize);
    assert [create][..0] == [];
    TryBlockCounts(s3, bucket, key, uploadId, [create], stream, chunkSize, x);
    assert x.trace[..1 + |x.parts|][0] == create;
  }

  /**
    Without an UploadId the call sends the create request and nothing else,
    and rejects with the client's error or the missing-UploadId error.
   */
  lemma NoUploadIdNoRequests(s3: Oracle, bucket: string, key: string, stream: Stream, chunkSize: int)
    ensures var create := CreateRequest(bucket, key);
      var created := s3([], create);
      var r := UploadRun(s3, bucket, key, stream, chunkSize);
      && (!Tagged(created) <==> r.trace == [create])
      && (created.Failed? ==> r.outcome == Rejected(created.error))
      && (created.Answered? && !Tagged(created) ==> r.outcome == Rejected(EmptyUploadId))
  {
    if Tagged(s3([], CreateRequest(bucket, key))) {
      RunFacts(s3, bucket, key, stream, chunkSize);
      FinishFacts(s3, bucket, key, UploadIdOf(s3, bucket, key), TryBlock(s3, bucket, key, stream, chunkSize));
    }
  }

  /** The request at position `m` is an UploadPart that was answered, but without a usable ETag. */
  ghost predicate MissingETagAt(s3: Oracle, trace: seq<Call>, m: nat) {
    && m < |trace|
    && trace[m].UploadPartCall?
    && ReplyAt(s3, trace, m).Answered?
    && !Truthy(ReplyAt(s3, trace, m).field)
  }

  /** Some UploadPart after the create was answered without a usable ETag. */
  ghost predicate SomeETagMissing(s3: Oracle, trace: seq<Call>) {
    exists m :: 0 < m && MissingETagAt(s3, trace, m)
  }

  /** A request that is not an UploadPart, sent last, changes nothing about missing ETags. */
  lemma SomeETagMissingExtends(s3: Oracle, trace: seq<Call>, last: Call)
    requires !last.UploadPartCall?
    ensures SomeETagMissing(s3, trace + [last]) <==> SomeETagMissing(s3, trace)
  {
    if SomeETagMissing(s3, trace + [last]) {
      var m :| 0 < m && MissingETagAt(s3, trace + [last], m);
      ReplyAtPrefix(s3, trace, [last], m);
      assert MissingETagAt(s3, trace, m);
    }
    if SomeETagMissing(s3, trace) {
      var m :| 0 < m && MissingETagAt(s3, trace, m);
      ReplyAtPrefix(s3, trace, [last], m);
      assert MissingETagAt(s3, trace + [last], m);
    }
  }

  /** The requests right after the create, up to the acknowledged parts, all carry an ETag. */
  lemma AcknowledgedNotMissing(s3: Oracle, trace: seq<Call>, parts: seq<Part>, m: nat)
    requires Acknowledged(s3, trace, 1, parts)
    requires forall j :: 0 <= j < |parts| ==> parts[j].eTag != ""
    requires 0 < m <= |parts|
    ensures !MissingETagAt(s3, trace, m)
  {
    assert ReplyAt(s3, trace, 1 + (m - 1)) == Answered(Some(parts[m - 1].eTag));
  }

  /** A try block that threw with only acknowledged uploads behind it sent no abort, and no ETag was missing. */
  lemma AcknowledgedTrailAborts(s3: Oracle, bucket: string, key: string, uploadId: string, t0: seq<Call>,
                                planned: seq<Body>, x: Exchange)
    requires |t0| == 1 && Uploads(t0) == [] && Aborts(t0) == 0 && Completions(t0) == 0
    requires x.error.Some? && |x.parts| <= |planned|
    requires Acknowledged(s3, x.trace, 1, x.parts)
    requires forall j :: 0 <= j < |x.parts| ==> x.parts[j].eTag != ""
    requires x.trace == t0 + UploadCalls(bucket, key, uploadId, planned, |x.parts|)
    ensures Aborts(x.trace) == 0 && !SomeETagMissing(s3, x.trace)
  {
    TraceCounts(bucket, key, uploadId, t0, planned, |x.parts|, []);
    assert x.trace == t0 + UploadCalls(bucket, key, uploadId, planned, |x.parts|) + [];
    forall m | 0 < m
      ensures !MissingETagAt(s3, x.trace, m)
    {
      if m <= |x.parts| {
        AcknowledgedNotMissing(s3, x.trace, x.parts, m);
      }
    }
  }

  /**
    After acknowledged parts and a failed attempt, an ETag is missing exactly
    when the attempt was answered, which is when its abort follows it.
   */
  lemma FailedAttemptMissing(s3: Oracle, trace: seq<Call>, parts: seq<Part>, bucket: string, key: string,
                             uploadId: string, error: Error)
    requires Acknowledged(s3, trace, 1, parts)
    requires forall j :: 0 <= j < |parts| ==> parts[j].eTag != ""
    requires FailedAttempt(s3, trace, 1 + |parts|, bucket, key, uploadId, error)
    ensures SomeETagMissing(s3, trace) <==> |trace| == |parts| + 3
  {
    var n := |parts|;
    if ReplyAt(s3, trace, 1 + n).Answered? {
      assert MissingETagAt(s3, trace, 1 + n);
    } else {
      forall m | 0 < m
        ensures !MissingETagAt(s3, trace, m)
      {
        if m <= n {
          AcknowledgedNotMissing(s3, trace, parts, m);
        }
      }
    }
  }

  /**
    A try block that ended with a failed attempt sent one abort, the helper's,
    exactly when that attempt's UploadPart was answered without an ETag.
   */
  lemma FailedAttemptAborts(s3: Oracle, bucket: string, key: string, uploadId: string, t0: seq<Call>,
                            planned: seq<Body>, x: Exchange)
    requires |t0| == 1 && Uploads(t0) == [] && Aborts(t0) == 0 && Completions(t0) == 0
    requires x.error.Some? && |x.parts| < |planned|
    requires Acknowledged(s3, x.trace, 1, x.parts)
    requires forall j :: 0 <= j < |x.parts| ==> x.parts[j].eTag != ""
    requires FailedAttempt(s3, x.trace, 1 + |x.parts|, bucket, key, uploadId, x.error.value)
    requires x.trace[..1 + |x.parts|] == t0 + UploadCalls(bucket, key, uploadId, planned, |x.parts|)
    requires x.trace[1 + |x.parts|] == UploadPartCall(bucket, key, |x.parts| + 1, uploadId, planned[|x.parts|])
    ensures Aborts(x.trace) == if SomeETagMissing(s3, x.trace) then 1 else 0
  {
    var n := |x.parts|;
    var tail := x.trace[1 + n + 1..];
    FailedAttemptTrace(s3, bucket, key, uploadId, t0, planned, x);
    TraceCounts(bucket, key, uploadId, t0, planned, n + 1, tail);
    FailedAttemptMissing(s3, x.trace, x.parts, bucket, key, uploadId, x.error.value);
    assert |x.trace| == 1 + (n + 1) + |tail|;
  }

  /**
    The aborts of a try block that threw: one, the helper's, exactly when an
    UploadPart was answered without an ETag; none when an UploadPart was
    rejected or the stream failed.
   */
  lemma TryBlockAborts(s3: Oracle, bucket: string, key: string, stream: Stream, chunkSize: int)
    requires Tagged(s3([], CreateRequest(bucket, key)))
    ensures var x := TryBlock(s3, bucket, key, stream, chunkSize);
      x.error.Some? ==> Aborts(x.trace) == if SomeETagMissing(s3, x.trace) then 1 else 0
  {
    var uploadId := UploadIdOf(s3, bucket, key);
    var create := CreateRequest(bucket, key);
    var planned := PlannedBodies(stream.chunks, chunkSize);
    var x := TryBlock(s3, bucket, key, stream, chunkSize);
    RunFacts(s3, bucket, key, stream, chunkSize);
    assert [create][..0] == [];
    if x.error.Some? {
      if x.trace == [create] + UploadCalls(bucket, key, uploadId, planned, |x.parts|) {
        AcknowledgedTrailAborts(s3, bucket, key, uploadId, [create], planned, x);
      } else {
        FailedAttemptAborts(s3, bucket, key, uploadId, [create], planned, x);
      }
    }
  }

  /**
    A call that does not complete sends two aborts when an UploadPart was
    answered without an ETag (the helper's and the catch block's), and
    exactly one when an UploadPart was rejected or the stream failed.
   */
  lemma AbortCount(s3: Oracle, bucket: string, key: string, stream: Stream, chunkSize: int)
    requires Tagged(s3([], CreateRequest(bucket, key)))
    ensures var r := UploadRun(s3, bucket, key, stream, chunkSize);
      Completions(r.trace) == 0 ==> Aborts(r.trace) == if SomeETagMissing(s3, r.trace) then 2 else 1
  {
    var uploadId := UploadIdOf(s3, bucket, key);
    var x := TryBlock(s3, bucket, key, stream, chunkSize);
    RunFacts(s3, bucket, key, stream, chunkSize);
    FinishFacts(s3, bucket, key, uploadId, x);
    TryBlockAborts(s3, bucket, key, stream, chunkSize);
    if x.error.Some? {
      SomeETagMissingExtends(s3, x.trace, AbortCall(bucket, key, uploadId));
    }
  }

  /**
    After the create, the call uploads a prefix of the planned bodies in
    order, numbered from 1, and ends with exactly one complete or with
    aborts, never both: two aborts when an UploadPart was answered without an
    ETag, one otherwise.
   */
  lemma OneCompleteOrAbort(s3: Oracle, bucket: string, key: string, stream: Stream, chunkSize: int)
    requires Tagged(s3([], CreateRequest(bucket, key)))
    ensures var uploadId := UploadIdOf(s3, bucket, key);
      var planned := PlannedBodies(stream.chunks, chunkSize);
      var r := UploadRun(s3, bucket, key, stream, chunkSize);
      var u := Uploads(r.trace);
      && |r.trace| >= 2
      && r.trace[0] == CreateRequest(bucket, key)
      && |u| <= |planned|
      && u == UploadCalls(bucket, key, uploadId, planned, |u|)
      && Completions(r.trace) <= 1
      && Aborts(r.trace) <= 2
      && (Completions(r.trace) == 1 <==> Aborts(r.trace) == 0)
      && (r.trace[|r.trace| - 1].CompleteCall? || r.trace[|r.trace| - 1] == AbortCall(bucket, key, uploadId))
      && (Completions(r.trace) == 0 ==> Aborts(r.trace) == if SomeETagMissing(s3, r.trace) then 2 else 1)
  {
    RunFacts(s3, bucket, key, stream, chunkSize);
    FinishFacts(s3, bucket, key, UploadIdOf(s3, bucket, key), TryBlock(s3, bucket, key, stream, chunkSize));
    AbortCount(s3, bucket, key, stream, chunkSize);
  }

  /**
    A call that completes read a stream that did not fail, uploaded every
    planned body in order and listed one descriptor per body in the complete
    request: part numbers 1, 2, ... and the ETag the client answered for each
    part. The uploaded bytes are the stream without its trigger chunks. The
    complete's own answer settles the call, a rejection included.
   */
  lemma CompleteListsEveryPart(s3: Oracle, bucket: string, key: string, stream: Stream, chunkSize: int)
    requires Tagged(s3([], CreateRequest(bucket, key)))
    requires Completions(UploadRun(s3, bucket, key, stream, chunkSize).trace) == 1
    ensures var uploadId := UploadIdOf(s3, bucket, key);
      var planned := PlannedBodies(stream.chunks, chunkSize);
      var r := UploadRun(s3, bucket, key, stream, chunkSize);
      var last := r.trace[|r.trace| - 1];
      && stream.failure.None?
      && last.CompleteCall?
      && r.trace == [CreateRequest(bucket, key)] + UploadCalls(bucket, key, uploadId, planned, |planned|)
                    + [CompleteCall(bucket, key, uploadId, last.parts)]
      && |last.parts| == |planned|
      && (forall j :: 0 <= j < |last.parts| ==>
            && last.parts[j].partNumber == j + 1
            && last.parts[j].eTag != ""
            && ReplyAt(s3, r.trace, j + 1) == Answered(Some(last.parts[j].eTag)))
      && Flatten(planned) == Flatten(Kept(stream.chunks, chunkSize))
      && Aborts(r.trace) == 0
      && r.outcome == match ReplyAt(s3, r.trace, |r.trace| - 1)
                      case Answered(response) => Resolved(response)
                      case Failed(e) => Rejected(e)
  {
    var uploadId := UploadIdOf(s3, bucket, key);
    var x := TryBlock(s3, bucket, key, stream, chunkSize);
    RunFacts(s3, bucket, key, stream, chunkSize);
    FinishFacts(s3, bucket, key, uploadId, x);
    var r := UploadRun(s3, bucket, key, stream, chunkSize);
    var complete := CompleteCall(bucket, key, uploadId, x.parts);
    AcknowledgedPrefix(s3, x.trace, [complete], 1, x.parts);
    PartsAreStreamWithoutTriggers(stream.chunks, chunkSize);
  }

  /** In a completed call, every UploadPart request was answered with an ETag. */
  lemma CompletedUploadsTagged(s3: Oracle, bucket: string, key: string, stream: Stream, chunkSize: int, j: nat)
    requires Tagged(s3([], CreateRequest(bucket, key)))
    requires Completions(UploadRun(s3, bucket, key, stream, chunkSize).trace) == 1
    requires j < |UploadRun(s3, bucket, key, stream, chunkSize).trace|
    requires UploadRun(s3, bucket, key, stream, chunkSize).trace[j].UploadPartCall?
    ensures Tagged(ReplyAt(s3, UploadRun(s3, bucket, key, stream, chunkSize).trace, j))
  {
    CompleteListsEveryPart(s3, bucket, key, stream, chunkSize);
    var r := UploadRun(s3, bucket, key, stream, chunkSize);
    var planned := PlannedBodies(stream.chunks, chunkSize);
    assert 1 <= j <= |planned|;
    assert r.trace[|r.trace| - 1].parts[j - 1].eTag != "";
  }

  /**
    The catch block runs exactly when the stream failed or some UploadPart
    request was not answered with an ETag. It swallows the error: the call
    sends one final abort and resolves with null, unless that abort is
    rejected.
   */
  lemma FailureIsSwallowed(s3: Oracle, bucket: string, key: string, stream: Stream, chunkSize: int)
    requires Tagged(s3([], CreateRequest(bucket, key)))
    ensures |UploadRun(s3, bucket, key, stream, chunkSize).trace| >= 2
    ensures var r := UploadRun(s3, bucket, key, stream, chunkSize);
      var aborted := ReplyAt(s3, r.trace, |r.trace| - 1);
      && (Completions(r.trace) == 0 <==>
            || stream.failure.Some?
            || exists j :: 0 < j < |r.trace| && r.trace[j].UploadPartCall? && !Tagged(ReplyAt(s3, r.trace, j)))
      && (Completions(r.trace) == 0 ==>
            && r.trace[|r.trace| - 1] == AbortCall(bucket, key, UploadIdOf(s3, bucket, key))
            && r.outcome == if aborted.Answered? then ResolvedNull else Rejected(aborted.error))
  {
    var uploadId := UploadIdOf(s3, bucket, key);
    var x := TryBlock(s3, bucket, key, stream, chunkSize);
    var r := UploadRun(s3, bucket, key, stream, chunkSize);
    RunFacts(s3, bucket, key, stream, chunkSize);
    FinishFacts(s3, bucket, key, uploadId, x);
    if Completions(r.trace) == 1 {
      CompleteListsEveryPart(s3, bucket, key, stream, chunkSize);
      forall j | 0 < j < |r.trace| && r.trace[j].UploadPartCall?
        ensures Tagged(ReplyAt(s3, r.trace, j))
      {
        CompletedUploadsTagged(s3, bucket, key, stream, chunkSize, j);
      }
    } else if stream.failure.None? {
      var m := 1 + |x.parts|;
      assert FailedAttempt(s3, x.trace, m, bucket, key, uploadId, x.error.value);
      ReplyAtPrefix(s3, x.trace, r.trace[|x.trace|..], m);
      assert r.trace == x.trace + r.trace[|x.trace|..];
      assert r.trace[m].UploadPartCall? && !Tagged(ReplyAt(s3, r.trace, m));
    }
  }

  /**
    The UploadPart requests of the try block that were not answered with an
    ETag: only the attempt that threw, right after the acknowledged parts.
   */
  lemma UntaggedUploadThrew(s3: Oracle, bucket: string, key: string, stream: Stream, chunkSize: int, m: nat)
    requires Tagged(s3([], CreateRequest(bucket, key)))
    requires var x := TryBlock(s3, bucket, key, stream, chunkSize);
      m < |x.trace| && x.trace[m].UploadPartCall? && !Tagged(ReplyAt(s3, x.trace, m))
    ensures var x := TryBlock(s3, bucket, key, stream, chunkSize);
      var planned := PlannedBodies(stream.chunks, chunkSize);
      && x.error.Some?
      && m == 1 + |x.parts| < 1 + |planned|
      && FailedAttempt(s3, x.trace, m, bucket, key, UploadIdOf(s3, bucket, key), x.error.value)
      && x.trace[..m] == [CreateRequest(bucket, key)] + UploadCalls(bucket, key, UploadIdOf(s3, bucket, key), planned, |x.parts|)
      && x.trace[m] == UploadPartCall(bucket, key, m, UploadIdOf(s3, bucket, key), planned[|x.parts|])
  {
    var x := TryBlock(s3, bucket, key, stream, chunkSize);
    RunFacts(s3, bucket, key, stream, chunkSize);
    forall k | 1 <= k <= |x.parts|
      ensures Tagged(ReplyAt(s3, x.trace, k))
    {
      assert ReplyAt(s3, x.trace, 1 + (k - 1)) == Answered(Some(x.parts[k - 1].eTag));
    }
    assert m > |x.parts|;
  }

  /**
    An UploadPart answered without an ETag is followed by the abort of
    `__uploadPart` and then by the abort of the catch block: two aborts, no
    complete, nothing else, and the call resolves with null unless the second
    abort is rejected.
   */
  lemma MissingETagAbortsTwice(s3: Oracle, bucket: string, key: string, stream: Stream, chunkSize: int, m: nat)
    requires Tagged(s3([], CreateRequest(bucket, key)))
    requires var r := UploadRun(s3, bucket, key, stream, chunkSize);
      && m < |r.trace|
      && r.trace[m].UploadPartCall?
      && ReplyAt(s3, r.trace, m).Answered?
      && !Truthy(ReplyAt(s3, r.trace, m).field)
    ensures var uploadId := UploadIdOf(s3, bucket, key);
      var r := UploadRun(s3, bucket, key, stream, chunkSize);
      && |r.trace| == m + 3
      && r.trace[m + 1] == AbortCall(bucket, key, uploadId)
      && r.trace[m + 2] == AbortCall(bucket, key, uploadId)
      && Aborts(r.trace) == 2
      && Completions(r.trace) == 0
      && r.outcome == if ReplyAt(s3, r.trace, m + 2).Answered? then ResolvedNull
                      else Rejected(ReplyAt(s3, r.trace, m + 2).error)
  {
    var uploadId := UploadIdOf(s3, bucket, key);
    var create := CreateRequest(bucket, key);
    var planned := PlannedBodies(stream.chunks, chunkSize);
    var x := TryBlock(s3, bucket, key, stream, chunkSize);
    var r := UploadRun(s3, bucket, key, stream, chunkSize);
    RunFacts(s3, bucket, key, stream, chunkSize);
    FinishFacts(s3, bucket, key, uploadId, x);
    FailureIsSwallowed(s3, bucket, key, stream, chunkSize);
    assert Completions(r.trace) == 0;
    assert r.trace == x.trace + [AbortCall(bucket, key, uploadId)];
    assert m < |x.trace|;
    ReplyAtPrefix(s3, x.trace, [AbortCall(bucket, key, uploadId)], m);
    UntaggedUploadThrew(s3, bucket, key, stream, chunkSize, m);
    FailedAttemptTrace(s3, bucket, key, uploadId, [create], planned, x);
    assert [create][..0] == [];
    SentCounts(bucket, key, uploadId, [create], planned, m, x.trace[m + 1..], x);
  }

  /** Every flushed group acknowledged: one upload per group, no completion. */
  lemma LoopFinishedUploads(s3: Oracle, bucket: string, key: string, uploadId: string, t0: seq<Call>,
                            groups: seq<Body>, inLoop: Exchange)
    requires Uploads(t0) == [] && Aborts(t0) == 0 && Completions(t0) == 0
    requires SentInOrder(s3, bucket, key, uploadId, t0, groups, inLoop)
    requires inLoop.error.None?
    ensures Completions(inLoop.trace) == 0 && |Uploads(inLoop.trace)| <= |groups|
  {
    assert inLoop.trace == t0 + UploadCalls(bucket, key, uploadId, groups, |inLoop.parts|) + [];
    SentCounts(bucket, key, uploadId, t0, groups, |inLoop.parts|, [], inLoop);
  }

  /** A flushed group whose attempt threw: uploads up to and including it, no completion. */
  lemma LoopFailedUploads(s3: Oracle, bucket: string, key: string, uploadId: string, t0: seq<Call>,
                          groups: seq<Body>, inLoop: Exchange)
    requires Uploads(t0) == [] && Aborts(t0) == 0 && Completions(t0) == 0
    requires SentInOrder(s3, bucket, key, uploadId, t0, groups, inLoop)
    requires inLoop.error.Some?
    ensures Completions(inLoop.trace) == 0 && |Uploads(inLoop.trace)| <= |groups|
  {
    FailedAttemptTrace(s3, bucket, key, uploadId, t0, groups, inLoop);
    SentCounts(bucket, key, uploadId, t0, groups, |inLoop.parts| + 1, inLoop.trace[|t0| + |inLoop.parts| + 1..], inLoop);
  }

  /** A try block over a failing stream ends in error, having uploaded no more than the flushed groups. */
  lemma StreamFailureUploads(s3: Oracle, bucket: string, key: string, uploadId: string, t0: seq<Call>,
                             stream: Stream, chunkSize: int)
    requires Uploads(t0) == [] && Aborts(t0) == 0 && Completions(t0) == 0
    requires stream.failure.Some?
    ensures var x := Transfer(s3, bucket, key, uploadId, t0, stream, chunkSize);
      && x.error.Some?
      && Completions(x.trace) == 0
      && |Uploads(x.trace)| <= |Segment(stream.chunks, chunkSize).groups|
  {
    var groups := Bodies(Segment(stream.chunks, chunkSize).groups);
    var inLoop := SendParts(s3, bucket, key, uploadId, t0, groups);
    TransferShape(s3, bucket, key, uploadId, t0, stream, chunkSize);
    SendPartsTrace(s3, bucket, key, uploadId, t0, groups);
    if inLoop.error.None? {
      LoopFinishedUploads(s3, bucket, key, uploadId, t0, groups, inLoop);
    } else {
      LoopFailedUploads(s3, bucket, key, uploadId, t0, groups, inLoop);
    }
  }

  /**
    A stream that fails is never completed: the parts flushed inside the loop
    are uploaded at most, the leftover buffer never is, and the catch block
    aborts.
   */
  lemma StreamFailureSwallowed(s3: Oracle, bucket: string, key: string, stream: Stream, chunkSize: int)
    requires Tagged(s3([], CreateRequest(bucket, key)))
    requires stream.failure.Some?
    ensures var r := UploadRun(s3, bucket, key, stream, chunkSize);
      && Completions(r.trace) == 0
      && |Uploads(r.trace)| <= |Segment(stream.chunks, chunkSize).groups|
      && r.trace[|r.trace| - 1] == AbortCall(bucket, key, UploadIdOf(s3, bucket, key))
  {
    var uploadId := UploadIdOf(s3, bucket, key);
    var create := CreateRequest(bucket, key);
    var x := TryBlock(s3, bucket, key, stream, chunkSize);
    RunFacts(s3, bucket, key, stream, chunkSize);
    FinishFacts(s3, bucket, key, uploadId, x);
    assert [create][..0] == [];
    StreamFailureUploads(s3, bucket, key, uploadId, [create], stream, chunkSize);
  }

  /** An empty stream uploads nothing and still completes, with an empty list of parts. */
  lemma EmptyStreamCompletes(s3: Oracle, bucket: string, key: string, chunkSize: int)
    requires Tagged(s3([], CreateRequest(bucket, key)))
    ensures var r := UploadRun(s3, bucket, key, Stream([], None), chunkSize);
      var complete := CompleteCall(bucket, key, UploadIdOf(s3, bucket, key), []);
      && r.trace == [CreateRequest(bucket, key), complete]
      && r.outcome == match s3([CreateRequest(bucket, key)], complete)
                      case Answered(response) => Resolved(response)
                      case Failed(e) => Rejected(e)
  {
    EmptyStreamHasNoParts(chunkSize);
    assert Segment([], chunkSize).groups == [];
    assert Bodies([]) == [];
  }

  /**
    A stream of one empty chunk makes the call upload an empty part numbered
    1, whatever the part size: with a positive one it is the leftover part,
    cut by chunk count rather than by bytes; otherwise the chunk flushes the
    empty buffer inside the loop.
   */
  lemma LoneEmptyChunkUploaded(s3: Oracle, bucket: string, key: string, chunkSize: int)
    requires Tagged(s3([], CreateRequest(bucket, key)))
    ensures var r := UploadRun(s3, bucket, key, Stream([[]], None), chunkSize);
      && |r.trace| >= 3
      && r.trace[1] == UploadPartCall(bucket, key, 1, UploadIdOf(s3, bucket, key), [])
  {
    var stream := Stream([[]], None);
    var x := TryBlock(s3, bucket, key, stream, chunkSize);
    RunFacts(s3, bucket, key, stream, chunkSize);
    FinishFacts(s3, bucket, key, UploadIdOf(s3, bucket, key), x);
    LoneEmptyChunkYieldsPart(chunkSize);
    var planned := PlannedBodies(stream.chunks, chunkSize);
    if x.error.None? {
      assert x.trace == [CreateRequest(bucket, key)] + UploadCalls(bucket, key, UploadIdOf(s3, bucket, key), planned, 1);
    } else {
      assert |x.parts| == 0 && FailedAttempt(s3, x.trace, 1, bucket, key, UploadIdOf(s3, bucket, key), x.error.value);
    }
  }
}
