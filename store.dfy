/**
  `S3Store.uploadFileByParts` and `S3Store.__uploadPart` as imperative
  methods. The client is the oracle `s3`; each request is answered by it and
  appended to `trace`. Exceptions are modelled by a `failure` variable: a
  throw inside the try block sets it and leaves the loop, and the code after
  the loop plays the part of the catch block.

  Each method is proved to do exactly what the functions of `Protocol`
  describe; the properties of those functions are proved in
  `UploadProperties`.
 */
module Store {
  import opened S3Api
  import opened Buffering
  import opened Protocol

  /**
    `__uploadPart`: upload one part and return its ETag. A rejected request
    throws; an answer without an ETag aborts the upload and then throws.
   */
  method UploadPart(s3: Oracle, trace: seq<Call>, bucket: string, key: string, partNumber: nat,
                    uploadId: string, body: Body)
    returns (tagged: Result<string>, trace': seq<Call>)
    ensures (tagged, trace') == PartAttempt(s3, trace, bucket, key, partNumber, uploadId, body)
  {
    var upload := UploadPartCall(bucket, key, partNumber, uploadId, body);
    var reply := s3(trace, upload);
    trace' := trace + [upload];
    if reply.Failed? {
      return Failure(reply.error), trace';
    }
    var eTag := reply.field;
    if !Truthy(eTag) {
      var abort := AbortCall(bucket, key, uploadId);
      var aborted := s3(trace', abort);
      trace' := trace' + [abort];
      if aborted.Failed? {
        return Failure(aborted.error), trace';
      }
      return Failure(EmptyETag), trace';
    }
    tagged := Success(eTag.value);
  }

  /**
    The `for await` loop of `uploadFileByParts`: buffer chunks until their
    total length reaches `chunkSize`, then upload the buffer as the next part
    and drop the chunk that was read at that moment. The loop uploads the
    full groups of `Segment` in order, exactly as `SendParts` does, and stops
    at the first upload that throws; when every chunk has been read, the
    leftover group is still buffered.
   */
  method FlushChunks(s3: Oracle, t0: seq<Call>, bucket: string, key: string, uploadId: string,
                     chunks: seq<Chunk>, chunkSize: int)
    returns (buffers: seq<Chunk>, parts: seq<Part>, trace: seq<Call>, failure: Option<Error>)
    ensures Exchange(trace, parts, failure)
         == SendParts(s3, bucket, key, uploadId, t0, Bodies(Segment(chunks, chunkSize).groups))
    ensures failure.None? ==> buffers == Segment(chunks, chunkSize).rest
  {
    trace := t0;
    var totalBuffersLength: nat := 0;
    var partNumber: nat := 1;
    buffers, parts, failure := [], [], None;
    ghost var flushed: seq<seq<Chunk>> := [];
    var i := 0;
    ReadingStarts(s3, bucket, key, uploadId, t0, chunks, chunkSize);
    while i < |chunks|
      invariant 0 <= i <= |chunks|
      invariant totalBuffersLength == Sum(buffers)
      invariant partNumber == |parts| + 1 && failure.None?
      invariant Reading(s3, bucket, key, uploadId, t0, chunks, chunkSize, i, flushed, buffers, trace, parts)
    {
      var chunk := chunks[i];
      if totalBuffersLength < chunkSize {
        ReadingFills(s3, bucket, key, uploadId, t0, chunks, chunkSize, i, flushed, buffers, trace, parts);
        buffers := buffers + [chunk];
        totalBuffersLength := totalBuffersLength + |chunk|;
      } else {
        var body := Flatten(buffers);
        var tagged;
        ghost var before := trace;
        tagged, trace := UploadPart(s3, trace, bucket, key, partNumber, uploadId, body);
        if tagged.Failure? {
          failure := Some(tagged.error);
          FlushFails(s3, bucket, key, uploadId, t0, chunks, chunkSize, i, flushed, buffers,
                     before, parts, trace, tagged.error);
          return;
        }
        ReadingFlushes(s3, bucket, key, uploadId, t0, chunks, chunkSize, i, flushed, buffers,
                       before, parts, trace, tagged.value);
        flushed := flushed + [buffers];
        buffers, totalBuffersLength := [], 0;
        parts := parts + [Part(tagged.value, partNumber)];
        partNumber := partNumber + 1;
      }
      i := i + 1;
    }
    ReadingEnds(s3, bucket, key, uploadId, t0, chunks, chunkSize, flushed, buffers, trace, parts);
  }

  /**
    The try block of `uploadFileByParts` up to its complete request: the
    loop, then the stream's failure or the upload of the leftover buffer.
    Returns the collected parts, the requests sent so far and the error
    thrown, if any.
   */
  method UploadChunks(s3: Oracle, t0: seq<Call>, bucket: string, key: string, uploadId: string,
                      stream: Stream, chunkSize: int)
    returns (parts: seq<Part>, trace: seq<Call>, failure: Option<Error>)
    ensures Exchange(trace, parts, failure) == Transfer(s3, bucket, key, uploadId, t0, stream, chunkSize)
  {
    var buffers;
    buffers, parts, trace, failure := FlushChunks(s3, t0, bucket, key, uploadId, stream.chunks, chunkSize);
    if failure.Some? {
      return;
    }
    // the stream has ended, or fails now
    TransferAtStreamEnd(s3, bucket, key, uploadId, t0, stream, chunkSize, Exchange(trace, parts, None));
    if stream.failure.Some? {
      failure := stream.failure;
    } else if |buffers| > 0 {
      var body := Flatten(buffers);
      var tagged;
      tagged, trace := UploadPart(s3, trace, bucket, key, |parts| + 1, uploadId, body);
      if tagged.Failure? {
        failure := Some(tagged.error);
      } else {
        parts := parts + [Part(tagged.value, |parts| + 1)];
      }
    }
  }

  /**
    `uploadFileByParts(bucket, key, stream, chunkSize)`: how the returned
    promise settles and every request sent, exactly as `UploadRun` describes.
   */
  method UploadFileByParts(s3: Oracle, bucket: string, key: string, stream: Stream, chunkSize: int)
    returns (outcome: Outcome, trace: seq<Call>)
    ensures Run(outcome, trace) == UploadRun(s3, bucket, key, stream, chunkSize)
  {
    var create := CreateRequest(bucket, key);
    var created := s3([], create);
    trace := [create];
    if created.Failed? {
      return Rejected(created.error), trace;
    }
    if !Truthy(created.field) {
      return Rejected(EmptyUploadId), trace;
    }
    var uploadId := created.field.value;

    // try {
    var parts, failure;
    parts, trace, failure := UploadChunks(s3, trace, bucket, key, uploadId, stream, chunkSize);
    if failure.None? {
      var complete := CompleteCall(bucket, key, uploadId, parts);
      var completed := s3(trace, complete);
      trace := trace + [complete];
      // the promise is returned without await: a rejection is not caught
      outcome := if completed.Answered? then Resolved(completed.field) else Rejected(completed.error);
    } else {
      // } catch (err) {
      var abort := AbortCall(bucket, key, uploadId);
      var aborted := s3(trace, abort);
      trace := trace + [abort];
      outcome := if aborted.Answered? then ResolvedNull else Rejected(aborted.error);
    }
  }

  /** `uploadFileByParts(bucket, key, stream)`, with the part size left at its default of 25 MiB. */
  method UploadFileByPartsDefault(s3: Oracle, bucket: string, key: string, stream: Stream)
    returns (outcome: Outcome, trace: seq<Call>)
    ensures Run(outcome, trace) == UploadRun(s3, bucket, key, stream, DEFAULT_CHUNK_SIZE)
  {
    outcome, trace := UploadFileByParts(s3, bucket, key, stream, DEFAULT_CHUNK_SIZE);
  }
}
