/**
 * `S3OutputStream`: the producer side of the parallel multipart uploader.
 *
 * Bytes written one at a time fill a chunk buffer of `chunkSize` bytes; a
 * full buffer (or an explicit flush) is submitted as the next numbered part,
 * the first submission initiating the multipart session.  Part uploads run
 * synchronously at submission, so the completion barrier is a counter of
 * registered tasks that is back to zero whenever a method returns.  Every
 * request sent to S3 is appended to the ghost log `calls`; what S3 answers is
 * chosen by the `Replies` argument.  `written` is every byte `Write` accepted.
 */
module OutputStream {
  import opened Wrappers
  import opened Bytes
  import opened Backend
  import opened Session
  import opened Buffers
  import opened UploadRequest

  /** The session invariants after a submission, stated for the state and log the submission produced. */
  lemma SubmittedKeepsInvariant(s: SessionState, calls: seq<Call>, content: seq<Byte>, written: seq<Byte>, max: int,
                                replies: Replies, sc: Option<StorageClass>, s': SessionState, calls': seq<Call>, status: Status,
                                recycled: bool)
    requires Consistent(s, calls) && Accounted(s, calls, content, written, max)
    requires var e := SubmitEffect(s, content, replies, sc);
      s' == e.state && calls' == calls + e.calls && status == e.status && recycled == e.recycled
    ensures Consistent(s', calls')
    ensures Accounted(s', calls', if status.Ok? then [] else content, written, max)
    ensures recycled ==> status.Ok?
  {
    SubmitLog(s, calls, content, replies, sc);
    SubmitKeepsConsistent(s, calls, content, replies, sc);
    SubmitKeepsAccounted(s, calls, content, written, max, replies, sc);
  }

  /**
   * Submitting the trailing buffer and then completing, as `close` does with
   * an upload id held, is the close effect, and keeps the session invariants.
   * A part has been numbered, so the submission initiates nothing and cannot fail.
   */
  lemma CompletionSteps(s: SessionState, calls: seq<Call>, content: seq<Byte>, max: int, replies: Replies, sc: Option<StorageClass>,
                        s1: SessionState, calls1: seq<Call>, status1: Status, s2: SessionState, calls2: seq<Call>, status: Status)
    requires Consistent(s, calls) && ChunksWithin(PartContents(calls), max) && |content| <= max
    requires !s.closed && s.uploadId.Some?
    requires var sub := SubmitEffect(s, content, replies, sc); s1 == sub.state && calls1 == calls + sub.calls && status1 == sub.status
    requires var fin := CompleteEffect(s1, replies.completeOk); s2 == fin.state && calls2 == calls1 + fin.calls && status == fin.status
    ensures var e := CloseEffect(s, content, replies, sc);
      && s2.(closed := s2.closed || status.Ok?) == e.state && calls2 == calls + e.calls && status == e.status
    ensures Consistent(s2.(closed := s2.closed || status.Ok?), calls2) && ChunksWithin(PartContents(calls2), max)
    ensures status1 == Ok
  {
    var sub := SubmitEffect(s, content, replies, sc);
    var fin := CompleteEffect(s1, replies.completeOk);
    assert sub.status == Ok;
    AppendAssociates(calls, sub.calls, fin.calls);
    CompletionKeepsConsistent(s, calls, content, replies, sc);
    CloseKeepsChunksWithin(s, calls, content, max, replies, sc);
  }

  class S3OutputStream {
    /** The request's chunk size, read when the stream is built. */
    const objectId: ObjectId
    const chunkSize: nat
    const storageClass: Option<StorageClass>

    /** The current working buffer. */
    var buf: ChunkBuffer
    /** Buffers of finished parts, waiting to be reused (a FIFO queue). */
    var bufferPool: seq<ChunkBuffer>
    var partsCount: nat
    var uploadId: Option<UploadId>
    var partETags: Option<seq<PartETag>>
    var closed: bool
    /** The completion barrier: tasks registered and not yet arrived. */
    var pendingParts: nat

    ghost var calls: seq<Call>
    ghost var written: seq<Byte>
    /** Whether `Close` was ever called; writing after that is the caller's error. */
    ghost var closeCalled: bool
    ghost var Repr: set<object>

    /** The session fields, as a value. */
    ghost function State(): SessionState
      reads this`partsCount, this`uploadId, this`partETags, this`closed
    {
      SessionState(partsCount, uploadId, partETags, closed)
    }

    /** The bytes put in the working buffer so far. */
    ghost function Buffered(): seq<Byte>
      reads this`buf, buf, buf.data
      requires buf.Valid()
    {
      buf.data[..buf.position]
    }

    /**
     * The stream invariant: the footprint is well formed, the session agrees
     * with the log, and until `Close` is called the stream is in write mode.
     */
    ghost predicate Valid()
      reads this, Repr
    {
      && buf in Repr
      && Frame()
      && SessionValid()
      && (!closeCalled ==> WriteMode())
    }

    /** Every buffer lies in `Repr` and has `chunkSize` bytes of room; the working buffer is well formed. */
    ghost predicate Frame()
      reads this`Repr, this`buf, this`bufferPool, buf
    {
      && this in Repr && buf in Repr && buf.data in Repr
      && PoolWithin(bufferPool, Repr, chunkSize)
      && chunkSize > 0
      && buf.Valid() && buf.data.Length == chunkSize
    }

    /** No task is pending, the session agrees with the log and every part sent holds 1..chunkSize bytes. */
    ghost predicate SessionValid()
      reads this`pendingParts, this`partsCount, this`uploadId, this`partETags, this`closed, this`calls
    {
      && pendingParts == 0
      && Consistent(State(), calls)
      && ChunksWithin(PartContents(calls), chunkSize)
    }

    /** The pool holds each buffer once. */
    ghost predicate PoolDistinct()
      reads this`bufferPool
    {
      forall i, j :: 0 <= i < j < |bufferPool| ==> bufferPool[i] != bufferPool[j]
    }

    /**
     * The working buffer is in write mode and not in the pool, the pool
     * holds each buffer once, and every byte written is accounted for.
     */
    ghost predicate WriteMode()
      reads this`buf, this`bufferPool, this`partsCount, this`uploadId, this`partETags, this`closed
      reads this`calls, this`written, buf, buf.data
      requires buf.Valid()
    {
      && buf.limit == buf.data.Length
      && buf !in bufferPool
      && PoolDistinct()
      && Accounted(State(), calls, Buffered(), written, chunkSize)
    }

    /** The working buffer was taken from the head of `pool`, or, with `pool` empty, freshly allocated. */
    ghost predicate TookFrom(pool: seq<ChunkBuffer>)
      reads this`buf, this`bufferPool
    {
      if |pool| > 0 then buf == pool[0] && bufferPool == pool[1..] else bufferPool == []
    }

    constructor (request: S3UploadRequest)
      requires request.objectId.Some? && request.chunkSize > 0
      ensures Valid() && fresh(Repr)
      ensures objectId == request.objectId.value
      ensures chunkSize == request.chunkSize && storageClass == request.storageClass
      ensures State() == SessionState(0, None, None, false)
      ensures calls == [] && written == [] && !closeCalled
      ensures Buffered() == [] && bufferPool == []
    {
      objectId := request.objectId.value;
      chunkSize := request.chunkSize;
      storageClass := request.storageClass;
      buf := new ChunkBuffer(request.chunkSize);
      bufferPool := [];
      partsCount, uploadId, partETags, closed, pendingParts := 0, None, None, false, 0;
      calls, written, closeCalled := [], [], false;
      new;
      Repr := {this, buf, buf.data};
      assert PartNumbers(calls) == [] == Numbers(0) && PartContents(calls) == [];
      assert Consistent(State(), calls);
      assert Buffered() == [];
    }

    /**
     * `write(b)`: when the working buffer has no room left it is flushed
     * first; then the low eight bits of `b` are put in it.
     */
    method Write(b: Int32, replies: Replies) returns (status: Status)
      requires Valid() && !closeCalled
      modifies Repr
      ensures Valid() && fresh(Repr - old(Repr)) && !closeCalled
      ensures written == old(written) + (if status.Ok? then [ToByte(b)] else [])
      ensures old(buf.position) < chunkSize ==>
        && status == Ok && State() == old(State()) && calls == old(calls)
        && Buffered() == old(Buffered()) + [ToByte(b)]
        && buf == old(buf) && bufferPool == old(bufferPool)
      ensures old(buf.position) == chunkSize ==>
        var e := SubmitEffect(old(State()), old(Buffered()), replies, storageClass);
        && State() == e.state && calls == old(calls) + e.calls && status == e.status
        && (status.Ok? ==> Buffered() == [ToByte(b)] && TookFrom(old(bufferPool) + (if e.recycled then [old(buf)] else [])))
        && (status.Ok? && |old(bufferPool) + (if e.recycled then [old(buf)] else [])| == 0 ==> fresh(buf) && fresh(buf.data))
        && (status.Failed? ==> Buffered() == old(Buffered()) && buf == old(buf) && bufferPool == old(bufferPool))
        && |old(Buffered())| == chunkSize
      ensures status.Ok? ==> 0 < buf.position <= chunkSize
    {
      if buf.position >= buf.limit {
        status := Flush(replies);
        if status.Failed? {
          return;
        }
      }
      ghost var pending := Buffered();
      AppendKeepsAccounted(State(), calls, pending, written, chunkSize, ToByte(b));
      buf.Put(ToByte(b));
      written := written + [ToByte(b)];
      assert Buffered() == pending + [ToByte(b)];
      status := Ok;
    }

    /** `flush()`: submit the working buffer, then take a cleared buffer from the pool or allocate one. */
    method Flush(replies: Replies) returns (status: Status)
      requires Valid() && !closeCalled
      modifies Repr
      ensures Valid() && fresh(Repr - old(Repr)) && !closeCalled
      ensures written == old(written)
      ensures var e := SubmitEffect(old(State()), old(Buffered()), replies, storageClass);
        && State() == e.state && calls == old(calls) + e.calls && status == e.status
        && (status.Ok? ==> Buffered() == [] && TookFrom(old(bufferPool) + (if e.recycled then [old(buf)] else [])))
        && (status.Ok? && |old(bufferPool) + (if e.recycled then [old(buf)] else [])| == 0 ==> fresh(buf) && fresh(buf.data))
      ensures status.Failed? ==> Buffered() == old(Buffered()) && buf == old(buf) && bufferPool == old(bufferPool)
    {
      status := SubmitWorkingBuffer(replies);
      if status.Ok? {
        ghost var pool := bufferPool;
        TakeBuffer();
        assert TookFrom(pool) && (|pool| == 0 ==> fresh(buf) && fresh(buf.data));
      }
    }

    /**
     * The first half of `flush()`: submit the working buffer.  When that
     * fails the buffer stays the working buffer, with its bytes pending.
     */
    method SubmitWorkingBuffer(replies: Replies) returns (status: Status)
      requires Frame() && SessionValid() && WriteMode()
      modifies buf, this`uploadId, this`partETags, this`closed, this`calls, this`bufferPool, this`pendingParts, this`partsCount
      ensures Frame() && SessionValid() && PoolDistinct()
      ensures var e := SubmitEffect(old(State()), old(Buffered()), replies, storageClass);
        && State() == e.state && calls == old(calls) + e.calls && status == e.status
        && bufferPool == old(bufferPool) + (if e.recycled then [buf] else [])
      ensures status.Ok? ==> Accounted(State(), calls, [], written, chunkSize)
      ensures status.Failed? ==> WriteMode() && Buffered() == old(Buffered()) && bufferPool == old(bufferPool)
    {
      ghost var content := Buffered();
      ghost var s0, calls0, pool0 := State(), calls, bufferPool;
      status := UploadBuffer(buf, replies);
      SubmittedKeepsInvariant(s0, calls0, content, written, chunkSize, replies, storageClass, State(), calls, status,
                              SubmitEffect(s0, content, replies, storageClass).recycled);
      if bufferPool != pool0 {
        PoolWithinAppend(pool0, buf, Repr, chunkSize);
      }
      if status.Failed? {
        assert Buffered() == content;
      }
    }

    /**
     * The second half of `flush()`: reuse the buffer at the head of the pool,
     * cleared, or allocate a new one.  Every byte written has been sent.
     */
    method TakeBuffer()
      requires Frame() && SessionValid() && PoolDistinct() && !closeCalled
      requires Accounted(State(), calls, [], written, chunkSize)
      modifies this`buf, this`bufferPool, this`Repr, if |bufferPool| > 0 then {bufferPool[0]} else {}
      ensures Valid() && Buffered() == [] && buf.limit == chunkSize
      ensures TookFrom(old(bufferPool))
      ensures State() == old(State()) && calls == old(calls) && written == old(written)
      ensures if |old(bufferPool)| == 0 then fresh(buf) && fresh(buf.data) && Repr == old(Repr) + {buf, buf.data}
              else Repr == old(Repr)
    {
      ghost var pending: seq<Byte> := [];
      if |bufferPool| > 0 {
        buf := bufferPool[0];
        bufferPool := bufferPool[1..];
        buf.Clear();
      } else {
        buf := Allocate();
        Repr := Repr + {buf, buf.data};
      }
      assert Buffered() == pending;
    }

    /** `allocate()`: a new, empty buffer of the chunk size. */
    method Allocate() returns (b: ChunkBuffer)
      ensures fresh(b) && fresh(b.data) && b.Valid()
      ensures b.data.Length == chunkSize && b.position == 0 && b.limit == chunkSize
    {
      b := new ChunkBuffer(chunkSize);
    }

    /**
     * `uploadBuffer(b)`: an empty buffer is ignored; otherwise the session is
     * initiated when no part has been numbered yet, and the buffer is
     * submitted as part `++partsCount`.
     */
    method UploadBuffer(b: ChunkBuffer, replies: Replies) returns (status: Status)
      requires b.Valid()
      modifies b, this`uploadId, this`partETags, this`closed, this`calls, this`bufferPool, this`pendingParts, this`partsCount
      ensures pendingParts == old(pendingParts) && b.Valid()
      ensures var e := SubmitEffect(old(State()), old(b.data[..b.position]), replies, storageClass);
        && State() == e.state && calls == old(calls) + e.calls && status == e.status
        && bufferPool == old(bufferPool) + (if e.recycled then [b] else [])
      ensures status.Ok? && old(b.position) > 0 ==> b.position == 0 && b.limit == old(b.position)
      ensures status.Failed? || old(b.position) == 0 ==> b.position == old(b.position) && b.limit == old(b.limit)
    {
      ghost var s0 := State();
      ghost var content := b.data[..b.position];
      if b.position == 0 {
        assert content == [];
        assert SubmitEffect(s0, content, replies, storageClass) == Effect(s0, [], Ok, false);
        return Ok;
      }
      ghost var init := if s0.partsCount == 0 then InitEffect(s0, replies.initiate, storageClass) else Effect(s0, [], Ok, false);
      if partsCount == 0 {
        status := Init(replies.initiate);
        if status.Failed? {
          assert SubmitEffect(s0, content, replies, storageClass) == init;
          return;
        }
      }
      assert State() == init.state && calls == old(calls) + init.calls;
      partsCount := partsCount + 1;
      Task(b, partsCount, replies);
      ghost var part := PartEffect(init.state.(partsCount := partsCount), partsCount, content, replies.part, replies.abortOk);
      AppendAssociates(old(calls), init.calls, part.calls);
      assert SubmitEffect(s0, content, replies, storageClass) == Effect(part.state, init.calls + part.calls, Ok, part.recycled);
      status := Ok;
    }

    /** `init()`: initiate the multipart upload; a null upload id is an error; start an empty tag list. */
    method Init(reply: InitiateReply) returns (status: Status)
      modifies this`uploadId, this`partETags, this`calls
      ensures var e := InitEffect(old(State()), reply, storageClass);
        State() == e.state && calls == old(calls) + e.calls && status == e.status
    {
      calls := calls + [Initiate(storageClass)];
      match reply {
        case InitiateThrows =>
          status := Failed(InitiateFailed);
        case InitiateReturns(id) =>
          uploadId := id;
          if id.None? {
            return Failed(NullUploadId);
          }
          partETags := Some([]);
          status := Ok;
      }
    }

    /**
     * `task(b, n)` and its run on the executor: register with the barrier,
     * upload the part, arrive.  An exception it throws is lost with the
     * discarded future, so the submitter learns nothing.
     */
    method Task(b: ChunkBuffer, partIndex: int, replies: Replies)
      requires b.Valid()
      modifies b, this`uploadId, this`partETags, this`closed, this`calls, this`bufferPool, this`pendingParts
      ensures pendingParts == old(pendingParts)
      ensures b.Valid() && b.position == 0 && b.limit == old(b.position)
      ensures var e := PartEffect(old(State()), partIndex, old(b.data[..b.position]), replies.part, replies.abortOk);
        && State() == e.state && calls == old(calls) + e.calls
        && bufferPool == old(bufferPool) + (if e.recycled then [b] else [])
    {
      pendingParts := pendingParts + 1;
      var uploaded := UploadPartBuffer(b, partIndex, replies.part, replies.abortOk);
      pendingParts := pendingParts - 1;
    }

    /** `uploadPart(ByteBuffer, ...)`: send the buffer's bytes; only a buffer whose part succeeded goes back to the pool. */
    method UploadPartBuffer(b: ChunkBuffer, partNumber: int, reply: PartReply, abortOk: bool) returns (ok: bool)
      requires b.Valid()
      modifies b, this`uploadId, this`partETags, this`closed, this`calls, this`bufferPool
      ensures b.Valid() && b.position == 0 && b.limit == old(b.position)
      ensures var e := PartEffect(old(State()), partNumber, old(b.data[..b.position]), reply, abortOk);
        State() == e.state && calls == old(calls) + e.calls && ok == e.recycled
      ensures bufferPool == old(bufferPool) + (if ok then [b] else [])
    {
      b.Flip();
      var len := b.limit;
      ok := UploadPartContent(len, b.data[..len], partNumber, reply, abortOk);
      if ok {
        bufferPool := bufferPool + [b];
      }
    }

    /**
     * `uploadPart(long, InputStream, ...)`: send the part and record its tag;
     * when that fails (or the tag list is null), mark the stream closed and
     * abort.  `ok` is false exactly when an exception leaves the method.
     */
    method UploadPartContent(contentLength: int, content: seq<Byte>, partNumber: int, reply: PartReply, abortOk: bool)
      returns (ok: bool)
      requires contentLength == |content|
      modifies this`uploadId, this`partETags, this`closed, this`calls
      ensures var e := PartEffect(old(State()), partNumber, content, reply, abortOk);
        State() == e.state && calls == old(calls) + e.calls && ok == e.recycled
    {
      calls := calls + [UploadPart(uploadId, partNumber, contentLength, content)];
      var success := false;
      if reply.PartReturns? && partETags.Some? {
        partETags := Some(partETags.value + [PartETag(partNumber, reply.etag)]);
        success := true;
      }
      if !success {
        closed := true;
        AbortMultipartUpload(abortOk);
      }
      ok := success;
    }

    /** `abortMultipartUpload()`: on success forget the upload id and tags; a failure is only logged. */
    method AbortMultipartUpload(ok: bool)
      modifies this`uploadId, this`partETags, this`calls
      ensures var e := AbortEffect(old(State()), ok); State() == e.state && calls == old(calls) + e.calls
    {
      calls := calls + [Abort(uploadId)];
      if ok {
        uploadId := None;
        partETags := None;
      }
    }

    /** `completeMultipartUpload()`: send the tags in the order recorded; clear the session only on success. */
    method CompleteMultipartUpload(ok: bool) returns (status: Status)
      modifies this`uploadId, this`partETags, this`calls
      ensures var e := CompleteEffect(old(State()), ok);
        State() == e.state && calls == old(calls) + e.calls && status == e.status
    {
      if partETags.None? {
        return Failed(MissingPartTags);
      }
      calls := calls + [Complete(uploadId, partETags.value)];
      if !ok {
        return Failed(CompleteFailed);
      }
      uploadId := None;
      partETags := None;
      status := Ok;
    }

    /** `putObject(ByteBuffer)`: flip the buffer and put what it holds as the whole object. */
    method PutObjectBuffer(b: ChunkBuffer, ok: bool) returns (status: Status)
      requires b.Valid()
      modifies b, this`calls
      ensures b.Valid() && b.position == 0 && b.limit == old(b.position)
      ensures calls == old(calls) + [Put(old(b.position), old(b.data[..b.position]), storageClass)]
      ensures status == if ok then Ok else Failed(PutFailed)
    {
      b.Flip();
      status := PutObjectContent(b.limit, b.data[..b.limit], ok);
    }

    /** `putObject(long, InputStream)`: one put with the content length set. */
    method PutObjectContent(contentLength: int, content: seq<Byte>, ok: bool) returns (status: Status)
      requires contentLength == |content|
      modifies this`calls
      ensures calls == old(calls) + [Put(contentLength, content, storageClass)]
      ensures status == if ok then Ok else Failed(PutFailed)
    {
      calls := calls + [Put(contentLength, content, storageClass)];
      status := if ok then Ok else Failed(PutFailed);
    }

    /**
     * `close()`: nothing once closed.  With no upload id, put the working
     * buffer as the whole object; otherwise finish the multipart session.
     * `closed` is set only when that succeeded.
     */
    method Close(replies: Replies) returns (status: Status)
      requires Valid()
      modifies Repr
      ensures Valid() && fresh(Repr - old(Repr)) && closeCalled
      ensures written == old(written)
      ensures var e := CloseEffect(old(State()), old(Buffered()), replies, storageClass);
        State() == e.state && calls == old(calls) + e.calls && status == e.status
      ensures !old(closed) ==> buf.position == 0
    {
      ghost var content := Buffered();
      if closed {
        closeCalled := true;
        assert calls == calls + [];
        return Ok;
      }
      if uploadId.None? {
        status := ClosePut(replies);
      } else {
        status := CloseSession(replies);
      }
      closeCalled := true;
    }

    /** The single-shot half of `close()`: put the working buffer as the whole object, closing on success. */
    method ClosePut(replies: Replies) returns (status: Status)
      requires Frame() && SessionValid() && !closed && uploadId.None?
      modifies buf, this`calls, this`closed
      ensures Frame() && SessionValid() && buf.position == 0
      ensures var e := CloseEffect(old(State()), old(Buffered()), replies, storageClass);
        State() == e.state && calls == old(calls) + e.calls && status == e.status
    {
      ghost var content := Buffered();
      PutKeepsConsistent(State(), calls, content, replies, storageClass);
      CloseKeepsChunksWithin(State(), calls, content, chunkSize, replies, storageClass);
      status := PutObjectBuffer(buf, replies.putOk);
      if status.Ok? {
        closed := true;
      }
    }

    /**
     * The multipart half of `close()`: submit the working buffer as the last
     * part, wait for the barrier, complete, and mark the stream closed when
     * completing succeeded.
     */
    method CloseSession(replies: Replies) returns (status: Status)
      requires Frame() && SessionValid() && !closed && uploadId.Some?
      modifies buf, this`uploadId, this`partETags, this`closed, this`calls, this`bufferPool, this`pendingParts, this`partsCount
      ensures Frame() && SessionValid() && buf.position == 0
      ensures var e := CloseEffect(old(State()), old(Buffered()), replies, storageClass);
        State() == e.state && calls == old(calls) + e.calls && status == e.status
    {
      ghost var content, s0, calls0, pool0 := Buffered(), State(), calls, bufferPool;
      status := UploadBuffer(buf, replies);
      ghost var s1, calls1, status1 := State(), calls, status;
      if bufferPool != pool0 {
        PoolWithinAppend(pool0, buf, Repr, chunkSize);
      }
      // The barrier: every task submitted has arrived.
      assert pendingParts == 0;
      status := CompleteMultipartUpload(replies.completeOk);
      ghost var s2, calls2 := State(), calls;
      if status.Ok? {
        closed := true;
      }
      CompletionSteps(s0, calls0, content, chunkSize, replies, storageClass, s1, calls1, status1, s2, calls2, status);
    }

    /** `getPartsCount()`: the number of parts submitted so far. */
    method GetPartsCount() returns (n: nat)
      requires Valid()
      ensures n == Count(calls, UploadPartCall)
      ensures PartNumbers(calls) == Numbers(n)
    {
      n := partsCount;
      PartNumbersCount(calls);
      NumbersLength(partsCount);
    }
  }
}
