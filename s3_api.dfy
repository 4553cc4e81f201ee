/**
  The part of the Amazon S3 API that the store uses: the four multipart-upload
  requests (CreateMultipartUpload, UploadPart, CompleteMultipartUpload,
  AbortMultipartUpload), their replies, and the client that answers them.

  The client is abstract: an oracle that answers each request, given the
  requests already sent. Whatever the store sends is recorded in a trace, so
  that the order and the content of the requests can be stated.
 */
module S3Api {

  type Byte = bv8

  /** The bytes of one part, as handed to UploadPart. */
  type Body = seq<Byte>

  datatype Option<+T> = None | Some(value: T)

  /** What an awaited step yields: a value, or the error it threw. */
  datatype Result<+T> = Success(value: T) | Failure(error: Error)

  datatype Error =
    | EmptyUploadId          // "create multipart upload returned empty UploadId"
    | EmptyETag              // "upload part returned empty ETag"
    | ServiceError(code: string)   // a request the client rejected
    | StreamError(code: string)    // the input stream failed while being read

  /** Truthiness of an optional string field in JavaScript: a missing field and "" are both false. */
  predicate Truthy(field: Option<string>) {
    field.Some? && field.value != ""
  }

  /** One entry of the `Parts` list sent with CompleteMultipartUpload. */
  datatype Part = Part(eTag: string, partNumber: nat)

  /** The fixed metadata of every CreateMultipartUpload request. */
  const CONTENT_TYPE: string := "application/text"
  const CONTENT_ENCODING: string := "gzip"
  const ACL: string := "private"

  /** The default target part size: 25 MiB. */
  const DEFAULT_CHUNK_SIZE: int := 25 * 1024 * 1024

  /** A request sent to the client. */
  datatype Call =
    | CreateCall(bucket: string, key: string, contentType: string, contentEncoding: string, acl: string)
    | UploadPartCall(bucket: string, key: string, partNumber: nat, uploadId: string, body: Body)
    | CompleteCall(bucket: string, key: string, uploadId: string, parts: seq<Part>)
    | AbortCall(bucket: string, key: string, uploadId: string)

  /**
    The client's answer to a request: the one response field the store looks
    at (UploadId for a create, ETag for an upload, the response for a
    complete), or the error the request was rejected with.
   */
  datatype Reply = Answered(field: Option<string>) | Failed(error: Error)

  /** The client: its answer to a request, given the requests sent before it. */
  type Oracle = (seq<Call>, Call) -> Reply

  /** The answer the client gave to the request at position `m` of a trace. */
  function ReplyAt(s3: Oracle, trace: seq<Call>, m: nat): Reply
    requires m < |trace|
  {
    s3(trace[..m], trace[m])
  }

  /** A reply that carries a usable UploadId or ETag. */
  predicate Tagged(reply: Reply) {
    reply.Answered? && Truthy(reply.field)
  }

  /** Later requests do not change the answers given to earlier ones. */
  lemma ReplyAtPrefix(s3: Oracle, trace: seq<Call>, more: seq<Call>, m: nat)
    requires m < |trace|
    ensures ReplyAt(s3, trace + more, m) == ReplyAt(s3, trace, m)
  {
    assert (trace + more)[..m] == trace[..m];
  }

  /** Number of AbortMultipartUpload requests in a trace. */
  function Aborts(trace: seq<Call>): (n: nat)
    ensures n <= |trace|
  {
    if trace == [] then 0
    else Aborts(trace[..|trace| - 1]) + (if trace[|trace| - 1].AbortCall? then 1 else 0)
  }

  /** Number of CompleteMultipartUpload requests in a trace. */
  function Completions(trace: seq<Call>): (n: nat)
    ensures n <= |trace|
  {
    if trace == [] then 0
    else Completions(trace[..|trace| - 1]) + (if trace[|trace| - 1].CompleteCall? then 1 else 0)
  }

  /** The UploadPart requests of a trace, in the order they were sent. */
  function Uploads(trace: seq<Call>): (u: seq<Call>)
    ensures |u| <= |trace|
    ensures forall j :: 0 <= j < |u| ==> u[j].UploadPartCall? && u[j] in trace
  {
    if trace == [] then []
    else
      var last := trace[|trace| - 1];
      Uploads(trace[..|trace| - 1]) + (if last.UploadPartCall? then [last] else [])
  }

  /** Counting and filtering distribute over the concatenation of two traces. */
  lemma {:induction false} TraceAppend(a: seq<Call>, b: seq<Call>)
    ensures Aborts(a + b) == Aborts(a) + Aborts(b)
    ensures Completions(a + b) == Completions(a) + Completions(b)
    ensures Uploads(a + b) == Uploads(a) + Uploads(b)
    decreases |b|
  {
    if b == [] {
      assert a + b == a;
    } else {
      var b' := b[..|b| - 1];
      assert (a + b)[..|a + b| - 1] == a + b';
      TraceAppend(a, b');
    }
  }
}
