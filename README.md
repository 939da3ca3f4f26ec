# S3OutputStream: a Dafny model of the parallel multipart uploader

This project models the producer side of `S3OutputStream`, the output stream
that writes one S3 object. It also models `S3UploadRequest`, the settings the
stream is built from.

- Bytes written one at a time fill a working buffer of `chunkSize` bytes.
- A full buffer, or an explicit `flush`, is submitted as the next numbered part.
- The first non-empty submission initiates the multipart session.
- Successful parts record their tag and hand their buffer back to a pool.
- A failed part marks the stream closed and aborts the session.
- `close` does one of two things:
  - With no upload id, it puts the buffered bytes as the whole object.
  - Otherwise it submits the trailing buffer and completes the session with the recorded tags.

## Files

- `bytes.dfy`: octets, Java `int`s, and chunk concatenation.
- `backend.dfy`: the S3 client as a log of calls. It holds the calls the stream issues (`Call`), the replies S3 may give (`Replies`), and projections of a log: part numbers, part contents, and counts per kind.
- `session.dfy`: the session fields `partsCount`, `uploadId`, `partETags` and `closed`, as a value.
  - One pure effect function per step: initiate, part upload, abort, submit, complete, close.
  - Two invariants over the log:
    - `Consistent`: parts are numbered 1..N, and the tags match.
    - `Accounted`: no byte is lost or sent twice.
  - The lemmas that state what each step promises.
- `buffers.dfy`: the `ByteBuffer` subset the stream uses (put, flip, clear over an array).
- `output_stream.dfy`: the class `S3OutputStream`. The public methods `write`, `flush` and `close` are proved to perform exactly the effect function of their step and to keep the stream invariant. Each private step that talks to S3 is proved to perform its own effect function.
- `int_parsing.dfy`: `Integer.parseInt` as a parser returning an option, with its round trip through `Integer.toString`.
- `upload_request.dfy`: the class `S3UploadRequest`, its defaults and setters.

## How the environment is modelled

- **S3 calls.** Every request is appended to a ghost log `calls`. The outcome of each call comes from a `Replies` argument: an exception, or what S3 returned.
- **Part uploads.** The executor runs a part upload synchronously, at the moment `uploadBuffer` submits it.
- **The Phaser.** It becomes `pendingParts`, the number of registered tasks that have not arrived. It is zero whenever a method returns, so the barrier in `close` always passes.
- **Task exceptions.** A task's exception is lost with its discarded future. The submitter therefore always sees success.
- **Ghost state.**
  - `written` holds every byte `write` accepted.
  - `closeCalled` records whether `close` has been called.

## Behaviour of the code worth knowing

- **Tag order.** The completion sends the tags in the order they were recorded (`S3OutputStream.java:527-528`).
  - Under the synchronous model that order is 1..N (`MultipartCloseCompletes`).
- **Close after a failed part.** A part failure sets `closed` (`:503`), so a later `close` returns at once (`:412-414`). It sends nothing and reports no error (`CloseAfterFailedPartIsSilent`).
- **Trailing part fails during `close`, abort succeeds.** The tag list is null, so `completeMultipartUpload` throws a `NullPointerException` before sending anything (`TrailingPartFailure`, error `MissingPartTags`).
- **Trailing part fails during `close`, abort fails.** The completion is still sent, without the failed part (`TrailingPartFailure`). When it succeeds, `close` reports success although the object lacks the trailing bytes.
- **Failed completion.** It leaves `closed` false and the session held, because `:437` is not reached. A second `close` with an empty working buffer sends the same completion again (`FailedCompleteIsRetried`).
- **Buffer recycling.** A buffer is offered back to the pool only after its part upload returns (`:473`), as the comment on the pool at `:243-245` says. The buffer of a part that fails is not returned.
- **Text settings.** A text setter given text that does not parse keeps the field as it was. The warning at `:139` and `:156` calls that the default, but it is the value set before, if any. A parsed value that is zero or negative is still stored (`SetChunkSizeText`).

## Model

| member | source | states |
|---|---|---|
| `Bytes.ToByte` | src/main/java/com/upplication/s3fs/S3OutputStream.java:305 | the stored byte differs from the written `int` by a multiple of 256, as Java's `(byte)` cast keeps its low eight bits |
| `Backend.StorageClassFromValue` | src/main/java/com/upplication/s3fs/S3OutputStream.java:110-120 | a name yields a storage class exactly when it is that class's wire name; any other name yields nothing (the library throws) |
| `IntParsing.ParseInt` | src/main/java/com/upplication/s3fs/S3OutputStream.java:132-142 | accepted text starts with a digit or a sign; a negative result needs a leading `-`; empty text or a lone sign is rejected |
| `IntParsing.ParseShowRoundTrip` | src/main/java/com/upplication/s3fs/S3OutputStream.java:132-142 | parsing the decimal text of any `int` gives that `int` back |
| `IntParsing.ParseRejectsOutOfRange` | src/main/java/com/upplication/s3fs/S3OutputStream.java:149-159 | the decimal text of a number outside the `int` range does not parse, so the setter keeps the old value |
| `IntParsing.ParsePlusSign` | src/main/java/com/upplication/s3fs/S3OutputStream.java:132-142 | a leading `+` parses to the same value as the bare digits |
| `Backend.PartNumbersCount` | src/main/java/com/upplication/s3fs/S3OutputStream.java:565-567 | a log holds one part number per part upload it holds |
| `Session.InitOutcome` | src/main/java/com/upplication/s3fs/S3OutputStream.java:361-373 | `init` sends one initiate; it succeeds exactly when S3 returns a non-null id; then it holds that id and an empty tag list; a null id fails with the null-id error; the part count and `closed` are untouched |
| `Session.InitLog` | src/main/java/com/upplication/s3fs/S3OutputStream.java:446-459 | the initiate request is one initiate call, with no part, abort or completion |
| `Session.FailedPartAbortsOnce` | src/main/java/com/upplication/s3fs/S3OutputStream.java:491-520 | a part that throws, or meets a null tag list, sets `closed` and keeps its buffer out of the pool; the log is that part followed by exactly one abort; the abort clears the id and tags when it succeeds and changes nothing when it fails |
| `Session.SucceededPartRecordsTag` | src/main/java/com/upplication/s3fs/S3OutputStream.java:491-497 | a successful part appends the tag S3 returned, under its own number, to the end of the tag list and leaves the earlier tags as they were; it leaves id and `closed` alone and returns its buffer |
| `Session.PartEffectLog` | src/main/java/com/upplication/s3fs/S3OutputStream.java:476-508 | one part upload logs exactly one part, with its number and bytes, initiates nothing and keeps the part count |
| `Session.SubmitSendsOnePart` | src/main/java/com/upplication/s3fs/S3OutputStream.java:344-354 | a submitted non-empty buffer becomes part `partsCount + 1`, carrying exactly the buffer's bytes, and the count goes up by one |
| `Session.SubmitSendsNoPart` | src/main/java/com/upplication/s3fs/S3OutputStream.java:344-350 | an empty buffer, or a first buffer whose initiation fails, sends no part, keeps the count and `closed`, recycles nothing and neither aborts nor completes |
| `Session.SubmitLog` | src/main/java/com/upplication/s3fs/S3OutputStream.java:344-354 | submitting adds the buffer to the parts sent exactly when it is submitted; only a submitted buffer is recycled; a submission fails exactly when the buffer is non-empty, no part has been numbered and its initiation fails |
| `Session.FailedInitStopsSubmit` | src/main/java/com/upplication/s3fs/S3OutputStream.java:344-350 | when the first non-empty buffer's initiation fails, the submission is exactly that initiation, with its calls, state and error, and the buffer is not submitted |
| `Session.SubmitInitiatesOnlyFirst` | src/main/java/com/upplication/s3fs/S3OutputStream.java:348-350 | a submission sends one initiate exactly when the buffer is non-empty and no part has been numbered, and none otherwise |
| `Session.SubmitKeepsAccounted` | src/main/java/com/upplication/s3fs/S3OutputStream.java:314-327 | after a submission, the parts sent followed by the bytes still pending are still exactly the bytes written; on success nothing is pending |
| `Session.AppendKeepsAccounted` | src/main/java/com/upplication/s3fs/S3OutputStream.java:300-306 | putting a byte in a buffer with room keeps every written byte accounted for, once and in order |
| `Session.SubmitKeepsConsistent` | src/main/java/com/upplication/s3fs/S3OutputStream.java:344-354 | submitting keeps parts numbered 1..N in the log and keeps id, tags and count in agreement |
| `Session.IdleKeepsConsistent` | src/main/java/com/upplication/s3fs/S3OutputStream.java:344-350 | a submission that sends no part leaves the session unchanged and consistent |
| `Session.PartKeepsConsistent` | src/main/java/com/upplication/s3fs/S3OutputStream.java:348-353 | a submitted part keeps the numbering gap-free and, while nothing failed, the tag list naming parts 1..N in order |
| `Session.CompleteKeepsConsistent` | src/main/java/com/upplication/s3fs/S3OutputStream.java:522-537 | completing sends no part and leaves the session consistent once a successful completion counts as closing |
| `Session.CloseKeepsConsistent` | src/main/java/com/upplication/s3fs/S3OutputStream.java:411-438 | every outcome of `close` keeps the session consistent with the log |
| `Session.PutKeepsConsistent` | src/main/java/com/upplication/s3fs/S3OutputStream.java:416-417 | the single-shot put keeps the session consistent |
| `Session.CompletionKeepsConsistent` | src/main/java/com/upplication/s3fs/S3OutputStream.java:419-437 | submitting the trailing part and completing keeps the session consistent |
| `Session.SingleShotClose` | src/main/java/com/upplication/s3fs/S3OutputStream.java:411-418 | with no upload id no part was ever numbered, and `close` sends exactly one put of the buffered bytes with their length (possibly zero), no initiate and no part; it succeeds and sets `closed` exactly when the put succeeds |
| `Session.MultipartCloseCompletes` | src/main/java/com/upplication/s3fs/S3OutputStream.java:419-437 | with a healthy session and S3 succeeding, `close` sends the trailing part (when the buffer is non-empty) and then one completion for the same id carrying the tags recorded so far followed by the trailing part's tag as S3 returned it; those tags name parts 1..N in order; it clears id and tags and sets `closed` |
| `Session.TrailingPartFailure` | src/main/java/com/upplication/s3fs/S3OutputStream.java:419-428 | a trailing part that fails sets `closed` and aborts once; if the abort succeeds the completion throws before sending anything; if it fails, the completion is still sent, naming parts 1..N without the failed one |
| `Session.FailedCompleteIsRetried` | src/main/java/com/upplication/s3fs/S3OutputStream.java:522-537 | when the trailing buffer is empty or its part succeeds, a failed completion leaves `closed` false and the upload id and tags held, with the trailing part counted; the last call sent is that completion, and a second `close` with an empty buffer sends exactly that completion again |
| `Session.CloseSendsWritten` | src/main/java/com/upplication/s3fs/S3OutputStream.java:411-438 | closing a stream no part of which failed loses no byte: with no upload id the one put carries exactly the bytes written, and no part was sent; with a session, the parts sent, numbered 1..N in the order sent, together hold exactly the bytes written, trailing part included |
| `Session.CloseAfterFailedPartIsSilent` | src/main/java/com/upplication/s3fs/S3OutputStream.java:411-414 | after a failed part, `close` sends nothing and reports success |
| `Session.CloseIsIdempotent` | src/main/java/com/upplication/s3fs/S3OutputStream.java:411-414 | once `close` has succeeded, the stream is closed and closing again sends nothing and succeeds |
| `Session.CloseSendsAtMostTrailingPart` | src/main/java/com/upplication/s3fs/S3OutputStream.java:419-421 | `close` sends at most one part, and that part carries the buffered bytes |
| `Session.CloseKeepsChunksWithin` | src/main/java/com/upplication/s3fs/S3OutputStream.java:419-421 | after `close`, every part sent still holds between 1 and `chunkSize` bytes |
| `OutputStream.S3OutputStream.constructor` | src/main/java/com/upplication/s3fs/S3OutputStream.java:281-289 | a new stream takes the request's object id, chunk size and storage class, holds an empty working buffer of that size and an empty pool, has sent nothing and satisfies the stream invariant |
| `OutputStream.S3OutputStream.Write` | src/main/java/com/upplication/s3fs/S3OutputStream.java:300-306 | with room in the buffer the byte is appended, nothing is sent and the working buffer and pool stay as they were; with a full buffer the stream first performs the submit effect on exactly `chunkSize` bytes, then the byte starts a buffer taken from the head of the pool (which gained the sent buffer if its part succeeded) or freshly allocated; if that submission fails, the buffer, its bytes and the pool are unchanged; on success the position is in 1..`chunkSize`, and `written` grows by the byte; the invariant (buffer bounds, numbering, content accounting) is kept |
| `OutputStream.S3OutputStream.Flush` | src/main/java/com/upplication/s3fs/S3OutputStream.java:314-327 | performs the submit effect on the buffered bytes; on success the new working buffer is empty and is the head of the pool (which gained the sent buffer if its part succeeded), or a freshly allocated buffer when the pool is empty; on failure the working buffer, its bytes and the pool are unchanged; the invariant is kept |
| `OutputStream.S3OutputStream.SubmitWorkingBuffer` | src/main/java/com/upplication/s3fs/S3OutputStream.java:314-316 | the first half of `flush`: performs the submit effect on the working buffer, which joins the pool exactly when its part succeeded; on success no byte is pending and every part sent is accounted for; on failure the buffer, its bytes, the pool and the write-mode invariant are untouched |
| `OutputStream.S3OutputStream.TakeBuffer` | src/main/java/com/upplication/s3fs/S3OutputStream.java:318-326 | the new working buffer is the head of the pool, cleared, or, with the pool empty, a fresh buffer of `chunkSize` bytes; the session and log are unchanged |
| `OutputStream.S3OutputStream.Allocate` | src/main/java/com/upplication/s3fs/S3OutputStream.java:335-337 | a fresh, empty buffer of `chunkSize` bytes in write mode |
| `OutputStream.S3OutputStream.UploadBuffer` | src/main/java/com/upplication/s3fs/S3OutputStream.java:344-354 | performs the submit effect on the buffer's bytes; the buffer is flipped exactly when it was submitted, and it joins the pool exactly when its part succeeded; the barrier count is unchanged |
| `OutputStream.S3OutputStream.Init` | src/main/java/com/upplication/s3fs/S3OutputStream.java:361-373 | performs the initiate effect |
| `OutputStream.S3OutputStream.Task` | src/main/java/com/upplication/s3fs/S3OutputStream.java:384-403 | registers with the barrier, performs the part effect on the buffer's bytes and arrives, so the barrier count is back where it was |
| `OutputStream.S3OutputStream.UploadPartBuffer` | src/main/java/com/upplication/s3fs/S3OutputStream.java:469-474 | flips the buffer, performs the part effect on its bytes, and offers the buffer to the pool only when the part succeeded |
| `OutputStream.S3OutputStream.UploadPartContent` | src/main/java/com/upplication/s3fs/S3OutputStream.java:476-508 | performs the part effect; it reports success exactly when no exception leaves the upload |
| `OutputStream.S3OutputStream.AbortMultipartUpload` | src/main/java/com/upplication/s3fs/S3OutputStream.java:510-520 | performs the abort effect |
| `OutputStream.S3OutputStream.CompleteMultipartUpload` | src/main/java/com/upplication/s3fs/S3OutputStream.java:522-537 | performs the completion effect |
| `OutputStream.S3OutputStream.PutObjectBuffer` | src/main/java/com/upplication/s3fs/S3OutputStream.java:539-542 | flips the buffer and logs one put of exactly the bytes it held, with their count as content length |
| `OutputStream.S3OutputStream.PutObjectContent` | src/main/java/com/upplication/s3fs/S3OutputStream.java:544-560 | logs one put with the given length, content and storage class; fails exactly when S3 throws |
| `OutputStream.S3OutputStream.Close` | src/main/java/com/upplication/s3fs/S3OutputStream.java:411-438 | performs the close effect on the buffered bytes and keeps the stream invariant; unless the stream was already closed, the working buffer is left with no bytes pending |
| `OutputStream.S3OutputStream.ClosePut` | src/main/java/com/upplication/s3fs/S3OutputStream.java:416-417 | the single-shot branch of `close`: performs the close effect when no upload id is held, leaving the buffer with no bytes pending |
| `OutputStream.S3OutputStream.CloseSession` | src/main/java/com/upplication/s3fs/S3OutputStream.java:419-437 | the multipart branch of `close`: performs the close effect when an upload id is held, with the barrier passed before completing, leaving the buffer with no bytes pending |
| `OutputStream.CompletionSteps` | src/main/java/com/upplication/s3fs/S3OutputStream.java:419-437 | with an upload id held, submitting the trailing buffer and then completing is exactly the close effect; the submission succeeds, because a part has been numbered; the session stays consistent and every part within bounds |
| `OutputStream.S3OutputStream.GetPartsCount` | src/main/java/com/upplication/s3fs/S3OutputStream.java:565-567 | the count equals the number of part uploads in the log, and the parts were numbered 1..count |
| `UploadRequest.S3UploadRequest.constructor` | src/main/java/com/upplication/s3fs/S3OutputStream.java:92-98 | the chunk size defaults to `10 << 20` bytes; max threads default to the processor count, less one when that exceeds one |
| `UploadRequest.S3UploadRequest.SetObjectId` | src/main/java/com/upplication/s3fs/S3OutputStream.java:100-103 | sets the object id and nothing else |
| `UploadRequest.S3UploadRequest.SetStorageClass` | src/main/java/com/upplication/s3fs/S3OutputStream.java:105-108 | sets the storage class and nothing else |
| `UploadRequest.S3UploadRequest.SetStorageClassName` | src/main/java/com/upplication/s3fs/S3OutputStream.java:110-120 | a known class name replaces the storage class; a null or unknown name keeps it |
| `UploadRequest.S3UploadRequest.SetMetadata` | src/main/java/com/upplication/s3fs/S3OutputStream.java:122-125 | sets the metadata and nothing else |
| `UploadRequest.S3UploadRequest.SetChunkSize` | src/main/java/com/upplication/s3fs/S3OutputStream.java:127-130 | sets the chunk size and nothing else |
| `UploadRequest.S3UploadRequest.SetChunkSizeText` | src/main/java/com/upplication/s3fs/S3OutputStream.java:132-142 | text that parses as an `int` sets the chunk size to that value, even when it is not positive; null or unparsable text keeps the old size |
| `UploadRequest.S3UploadRequest.SetMaxThreads` | src/main/java/com/upplication/s3fs/S3OutputStream.java:144-147 | sets the thread count and nothing else |
| `UploadRequest.S3UploadRequest.SetMaxThreadsText` | src/main/java/com/upplication/s3fs/S3OutputStream.java:149-159 | text that parses as an `int` sets the thread count; null or unparsable text keeps it |

## Left out

- **The executor.** The thread pool, the blocking `LimitedQueue` and the shared executor, with its sizing and shutdown (`:170-189`, `:571-597`), are concurrency plumbing. Part uploads run synchronously, so `maxThreads` is stored but never used.
- **The Phaser.** It is not a real barrier. It is the `pendingParts` counter, which is zero between calls.
- **Buffer disposal.** Cleaning direct buffers through `DirectBuffer` (`:430-434`) is platform memory management.
- **Library internals.** Logging, `ByteBufferInputStream` and `ObjectMetadata.clone` are left out.
- **Request fields not logged.** The logged calls leave out the bucket, the key, the metadata and the `lastPart` flag. The stream never varies them, and `lastPart` is always false.
- **`volatile`.** Its semantics are left out, along with every interleaving of concurrent part uploads.
- **Reply order.** Parts complete in submission order, so the tag list is sorted by construction. With real concurrency, tags are recorded in completion order.
- `IntParsing.ParseInt`: it accepts only the ASCII digits. `Integer.parseInt` also accepts other Unicode decimal digits.
- `Backend.StorageClassFromValue`: it knows four storage classes. The enum of the client library version in use may know more.
- `OutputStream.S3OutputStream.GetPartsCount`: `partsCount` is unbounded. The Java `int` would wrap after 2^31 - 1 parts.
- `OutputStream.S3OutputStream.constructor`: it requires an object id and a positive chunk size.
  - Java throws a `NullPointerException` when the object id is null (`:283`).
  - Java fails on a negative size only when the first buffer is allocated.
  - With a zero size, the first `write` throws a buffer overflow.
  - The stream also copies the chunk size once, while the Java stream re-reads `request.chunkSize` on each `allocate`.
- `OutputStream.S3OutputStream.Write`: it requires that `close` has not been called. Writes after `close` are outside the `OutputStream` contract.
- `OutputStream.S3OutputStream.Flush`: it requires that `close` has not been called, for the same reason as `Write`.
- `Buffers.ChunkBuffer.Clear`: it is used on pooled buffers without first showing that their cursors are in range. `clear` resets both cursors whatever they held.
- **Proof-only splits.** `SubmitWorkingBuffer` and `TakeBuffer` are the two halves of `flush`. `ClosePut` and `CloseSession` are the two branches of `close`. They exist only to keep each proof small.
- **Fluent setters.** The `return this` of the request setters is left out.
- **Null arguments.** The S3 client is not part of this model, so its null check (`:282`) is left out. The object id's null check is the constructor's requirement above.
- **Reading a buffer handed to S3.** A part or a put reads its buffer through a `ByteBufferInputStream` (`:472`, `:541`), which is not part of this model. The model takes that read to leave the buffer's position where the flip put it, at 0.
  - The empty buffer that `OutputStream.S3OutputStream.Close` leaves, and the empty buffer that `Session.FailedCompleteIsRetried` assumes for the second `close`, rest on this.
  - If the stream advances the position as it reads, a retried `close` after a failed put or a failed completion would flip the buffer again and could send its bytes again. What a retried put sends is therefore not stated.
