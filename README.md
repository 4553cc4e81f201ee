# S3 multipart upload, modelled in Dafny

This project models `S3Store.uploadFileByParts` and its helper
`S3Store.__uploadPart` (store.js). Together they upload a byte stream to
Amazon S3 with the multipart-upload requests:

- CreateMultipartUpload opens the upload.
- UploadPart sends each part, numbered from 1.
- CompleteMultipartUpload lists the collected `(ETag, PartNumber)` descriptors.
- AbortMultipartUpload is sent when something inside the try block throws.

The S3 client is an oracle, `S3Api.Oracle`. It answers each request given the
requests sent before it. Every request the code sends is recorded in a trace.
The stream is a finite sequence of byte chunks, optionally followed by the
error it fails with.

The project has five modules:

- `S3Api` (s3_api.dfy) holds:
  - the requests, the replies and the client;
  - JavaScript truthiness of a missing or empty UploadId or ETag;
  - counting functions over a trace.
- `Buffering` (buffering.dfy) specifies the `for await` buffering loop as the
  function `Segment`. It returns the groups flushed inside the loop, the
  trigger chunk each flush discards, and the leftover buffer.
  - `IsSplitOf` describes the same cut independently. The lemmas prove that
    `Segment` satisfies it and is its only solution.
  - The remaining lemmas state what the cut means for part bodies and sizes.
- `Protocol` (protocol.dfy) gives the requests and the outcome as functions:
  - `PartAttempt` is `__uploadPart`.
  - `SendParts` is the sequence of part uploads, which stops at the first one
    that throws.
  - `Transfer` is the try block.
  - `Finish` sends the complete or the abort.
  - `UploadRun` is the whole call.
- `Store` (store.dfy) holds the imperative methods: `UploadPart`,
  `FlushChunks` (the loop, with its buffers, running total and part counter),
  `UploadChunks` (the try block) and `UploadFileByParts`. Each method is
  proved equal to its `Protocol` function.
- `UploadProperties` (properties.dfy) proves what the whole call does, in
  terms of the trace and of how the returned promise settles.

The model follows the code. In several places the code does something other
than what one would expect of an uploader of this kind:

- One would expect the parts, put together, to be the whole stream. In the
  code, the chunk that arrives once the buffer is full triggers the flush but
  goes into no part: `TriggerChunkIsLost`, `PartsAreStreamWithoutTriggers`.
- One would expect an error inside the try block to reach the caller. In the
  code, the catch block aborts and the call resolves with `null`:
  `FailureIsSwallowed`.
- One would expect a missing ETag to cost one abort. The code sends two, the
  helper's and the catch block's. Any other failure inside the try block (a
  rejected UploadPart or a failing stream) costs exactly one. A failed create
  or a rejected complete costs none: `MissingETagAbortsTwice`, `AbortCount`,
  `NoUploadIdNoRequests`, `CompleteListsEveryPart`.
- One would expect a final part only when bytes remain. The code sends it
  when any chunk remains, even an empty one: `LoneEmptyChunkUploaded`.
- An empty stream completes with an empty part list:
  `EmptyStreamCompletes`.
- The part size is not checked. With a part size that is not positive,
  every chunk flushes an empty part and is lost:
  `NonPositiveChunkSizeKeepsNothing`.
- The complete request's promise is returned without `await`. A rejected
  complete therefore reaches the caller, and no abort is sent:
  `CompleteListsEveryPart`.

## Model

| member | source | states |
|---|---|---|
| Store.UploadPart | store.js:86-96 | The method sends exactly the requests of `PartAttempt` and returns its result. That is: one UploadPart, answered with a usable ETag or thrown; a missing ETag adds one abort and throws the abort's error or the missing-ETag error. |
| Store.FlushChunks | store.js:37-51 | The buffering loop uploads the full groups of `Segment` in order, numbered from 1, collecting the acknowledged descriptors, and stops at the first upload that throws. If every upload succeeded, the buffer left at the end is `Segment`'s leftover. Its invariants keep `totalBuffersLength` equal to the summed chunk lengths of `buffers` (both reset after each flush), and `PartNumber` one more than the number of descriptors. |
| Store.UploadChunks | store.js:36-56 | The try block up to the complete request gives exactly `Transfer`: the loop, then the stream's own failure, or the upload of the leftover buffer when it holds at least one chunk. |
| Store.UploadFileByParts | store.js:24-75 | The whole call sends exactly the requests of `UploadRun` and settles as it does. |
| Store.UploadFileByPartsDefault | store.js:24 | A call that leaves `chunkSize` out behaves as `UploadRun` with the default part size of 25 MiB. |
| Protocol.PartAttempt | store.js:86-96 | `__uploadPart` as a function. It sends one or two requests after the earlier ones and leaves those unchanged. A returned ETag is never empty and is returned after the UploadPart alone. |
| Protocol.Transfer | store.js:36-56 | The try block up to its complete or abort. It only appends to the requests sent before it. It ends without an error only when the stream did not fail and one descriptor was collected per planned body. |
| Protocol.Finish | store.js:57-74 | The end of the call sends exactly one more request, a complete exactly when the try block did not throw. The call resolves with the complete's response only without an error, and with `null` only after an error. |
| Protocol.UploadRun | store.js:24-75 | The whole call starts with the create. The create is the only request exactly when it yields no usable UploadId, and the call then rejects. |
| Protocol.PartAttemptOutcome | store.js:86-96 | An attempt sends its UploadPart first. It succeeds exactly when the reply carries a non-empty ETag, and then sends nothing else and returns that ETag. Otherwise it failed as `FailedAttempt` describes: either a rejected request and nothing after it, or an answer without an ETag followed by exactly one abort. |
| Protocol.PartAttemptThrew | store.js:87-92 | An attempt that threw keeps the earlier requests, sends its UploadPart next, and is a `FailedAttempt` with the thrown error. |
| Protocol.SendParts | store.js:38-50 | The descriptors collected by successive uploads are numbered 1, 2, … in push order, with no gaps, and each carries a non-empty ETag. There are never more descriptors than bodies, and there are fewer exactly when an upload threw. |
| Protocol.SendPartsTrace | store.js:39-51 | Uploading a list of bodies sends one UploadPart per acknowledged body, in order, numbered from 1. Each descriptor holds the ETag the client answered for that request. After the first attempt that throws, only that attempt's own requests follow. |
| Protocol.SendPartsStops | store.js:47-65 | Once an upload has thrown, later bodies cause no request at all. |
| Protocol.TransferShape | store.js:36-56 | The try block sends the planned bodies as `SendParts` does. The exception is a stream that fails after its chunks were read: then exactly the groups flushed in the loop were sent, and the leftover buffer is never uploaded. |
| Protocol.TransferAtStreamEnd | store.js:52-56 | After the loop, the try block meets the stream's failure, or uploads the leftover buffer as the next part when it holds a chunk, or ends. |
| Protocol.ReadingStarts | store.js:37-38 | The loop starts with no flushed group, empty buffers, no descriptor and the trace as it was after the create. |
| Protocol.ReadingFills | store.js:40-43 | A chunk read while the total is below `chunkSize` joins the buffer, and the loop state still describes `Segment`. |
| Protocol.ReadingFlushes | store.js:45-50 | A chunk read once the total has reached `chunkSize` makes the buffer the next group. The acknowledged upload adds the next descriptor, the buffer restarts empty, and the chunk itself is dropped. |
| Protocol.FlushFails | store.js:45-47 | If that upload throws, what has been sent is all the loop will ever send, however many chunks remain. |
| Protocol.ReadingEnds | store.js:39-51 | When every chunk has been read, the flushed groups are all of `Segment`'s groups and the buffer is its leftover. |
| Buffering.Scan | store.js:39-51 | The buffering loop, continued from a partly filled buffer. Each flushed group has exactly one trigger chunk. `SegmentIsSplit` and `SplitUnique` characterise its result. |
| Buffering.Segment | store.js:37-51 | The buffering loop over a whole stream, from an empty buffer. Each flushed group has exactly one trigger chunk, and the cut is the unique one that `IsSplitOf` describes. |
| Buffering.ScanRead | store.js:39-48 | One read of the loop: below `chunkSize` the chunk is appended to the buffer; otherwise the buffer is closed as a group and the chunk is recorded as dropped. |
| Buffering.BodyLength | store.js:42-46 | The concatenated body is as long as the running total of its chunks' lengths. |
| Buffering.SegmentIsSplit | store.js:39-51 | The loop's cut satisfies the independent description: the stream is the groups, each followed by its trigger chunk, then the leftover. Every group reached `chunkSize` only with its last chunk, and the leftover never reached it before its last chunk. |
| Buffering.SplitUnique | store.js:39-51 | That description admits exactly one cut, the loop's. |
| Buffering.PartsAreStreamWithoutTriggers | store.js:39-56 | The stream is the groups, each followed by its trigger chunk, then the leftover. The concatenated part bodies are therefore the stream with every trigger chunk removed, in the original order. As multisets, the stream is the kept chunks plus the trigger chunks. |
| Buffering.FlushedPartSize | store.js:40-46 | A part flushed inside the loop is at least `chunkSize` bytes long, and shorter than `chunkSize` plus the length of its last chunk. It is empty exactly when `chunkSize` is not positive. |
| Buffering.LeftoverIsFilling | store.js:40-43 | Every chunk of the leftover buffer except the last arrived while the total was below `chunkSize`. |
| Buffering.EmptyStreamHasNoParts | store.js:52-56 | An empty stream yields no part body. |
| Buffering.LoneEmptyChunkYieldsPart | store.js:40-53 | A stream of one empty chunk yields one empty part, whatever the part size. It is the leftover part exactly when `chunkSize` is positive, because the final part is decided by chunk count, not by bytes. Otherwise the chunk flushes the empty buffer inside the loop. |
| Buffering.TriggerChunkIsLost | store.js:40-48 | Chunks of lengths 2, 1 and 1 with a part size of 2 give the parts `[1, 2]` and `[4]`. The middle chunk is in no part. |
| Buffering.NonPositiveChunkSizeKeepsNothing | store.js:40-48 | With a part size that is not positive, every chunk flushes an empty group and is dropped, and nothing is left over. |
| UploadProperties.TransferFacts | store.js:36-56 | The try block's result: acknowledged descriptors, numbered from 1, for a prefix of the planned bodies. On success every planned body was sent and nothing else. On error, either the stream failed after the flushed groups, or an attempt for the next planned body failed. |
| UploadProperties.FailedAttemptTail | store.js:88-92 | A failed attempt is followed by nothing, or by its single abort. |
| UploadProperties.TryBlockCounts | store.js:36-56 | Before the complete or the abort, the try block has sent no complete and at most one abort. Its UploadPart requests are the planned bodies' prefix, numbered from 1, at most one more than the descriptors collected. |
| UploadProperties.FinishFacts | store.js:58-73 | Without an error the call ends with one complete listing the collected descriptors, and its reply settles the promise. After an error it ends with one abort and resolves with `null`, unless the abort is rejected. |
| UploadProperties.RunFacts | store.js:24-75 | With an UploadId, the call is the create, the try block, then its complete or abort. |
| UploadProperties.NoUploadIdNoRequests | store.js:32-35 | The create is the only request sent exactly when it yields no usable UploadId. The call then rejects with the client's error or the missing-UploadId error. |
| UploadProperties.OneCompleteOrAbort | store.js:36-74 | After the create, the call uploads a prefix of the planned bodies in order, numbered from 1. It ends with exactly one complete and no abort, or with aborts and no complete: exactly two when an UploadPart was answered without an ETag, exactly one otherwise. |
| UploadProperties.CompleteListsEveryPart | store.js:36-64 | A call that completes read a stream that did not fail and uploaded every planned body in order. The complete lists one descriptor per body: numbers 1 to N, each with the ETag answered for that part. The uploaded bytes are the stream without its trigger chunks. No abort is sent, and the complete's reply settles the call, a rejection included. |
| UploadProperties.CompletedUploadsTagged | store.js:88-95 | In a completed call, every UploadPart was answered with an ETag. |
| UploadProperties.FailureIsSwallowed | store.js:65-74 | The complete is missing exactly when the stream failed or some UploadPart got no usable ETag. Then the last request is an abort, and the call resolves with `null` unless that abort is rejected. |
| UploadProperties.UntaggedUploadThrew | store.js:88-92 | The only UploadPart of the try block without a usable ETag is the attempt that threw, right after the acknowledged parts. |
| UploadProperties.FailedAttemptMissing | store.js:88-92 | After the acknowledged parts and one failed attempt, an UploadPart was answered without an ETag exactly when that attempt's abort follows it. |
| UploadProperties.TryBlockAborts | store.js:39-56 | A try block that threw has sent one abort, the helper's, exactly when an UploadPart was answered without an ETag. It has sent none when an UploadPart was rejected or the stream failed. |
| UploadProperties.AbortCount | store.js:65-92 | A call that does not complete sends exactly two aborts when an UploadPart was answered without an ETag, and exactly one when an UploadPart was rejected or the stream failed. |
| UploadProperties.MissingETagAbortsTwice | store.js:89-92 | An UploadPart answered without an ETag is followed by exactly two aborts: the helper's, then the catch block's. No complete and no other request follows. The call resolves with `null` unless the second abort is rejected. |
| UploadProperties.StreamFailureUploads | store.js:39-56 | A try block over a failing stream ends in error without a complete. It uploads at most the groups flushed inside the loop. |
| UploadProperties.StreamFailureSwallowed | store.js:39-74 | A call whose stream fails never completes. It uploads at most the groups flushed in the loop, never the leftover, and its last request is an abort. |
| UploadProperties.EmptyStreamCompletes | store.js:52-64 | An empty stream sends the create and then a complete with an empty part list, whose reply settles the call. |
| UploadProperties.LoneEmptyChunkUploaded | store.js:40-55 | A stream of one empty chunk makes the call upload an empty part numbered 1, whatever the part size. |

## Left out

- The S3 client is not constructed (store.js:13-15). It is a parameter of every operation.
- The AWS SDK command classes and response objects are not modelled. Each request is a `Call` value. Each reply carries only the one field the code reads, or the error it was rejected with.
- A response that is not an object at all is not modelled. Destructuring it would throw a `TypeError`.
- The unused imports are left out (store.js:3, 5, 9).
- `console.log` and `console.error` are left out (store.js:57, 66).
- `async`/`await` and stream backpressure are not modelled. The code awaits each step in turn, so the stream is a finite sequence of chunks read in order. The client's answers are a function of the requests already sent.
- Server-side S3 rules, such as the minimum part size and the combining of parts, are not modelled. Nor are network, retry or timeout behaviour.
- Bytes are opaque `bv8` values, and `Buffer.concat` is sequence concatenation. Chunk lengths are unbounded integers; the JavaScript number precision of `totalBuffersLength` is not modelled.
- Dafny has no default arguments. The default `chunkSize` of 25 MiB is the constant `S3Api.DEFAULT_CHUNK_SIZE`, and a call without a part size is the separate method `Store.UploadFileByPartsDefault`.
- The complete request's response is modelled as one optional string, which the call resolves with.
- A stream failure is raised only after all of the stream's chunks have been delivered. A failure in the middle of the stream is modelled by a shorter chunk list.
- The try block is split between two methods, `Store.FlushChunks` (the loop) and `Store.UploadChunks` (the rest of the try block). A throw inside the loop returns early through both methods. The order of the requests and the outcome are the same as in the single JavaScript method.
