/**
 * The multipart-upload session of one stream, as values.  `SessionState`
 * gathers the stream fields `partsCount`, `uploadId`, `partETags` and
 * `closed`; each `...Effect` function gives the new session, the calls sent
 * to S3 and the outcome of one step of the stream.  The stream class proves
 * that its methods perform exactly these effects; the lemmas here state what
 * the steps promise.
 */
module Session {
  import opened Wrappers
  import opened Bytes
  import opened Backend

  datatype SessionState = SessionState(
    partsCount: nat,
    uploadId: Option<UploadId>,
    partETags: Option<seq<PartETag>>,
    closed: bool)

  /** The session after a step, the calls the step sent, its outcome, and whether a part buffer went back to the pool. */
  datatype Effect = Effect(state: SessionState, calls: seq<Call>, status: Status, recycled: bool)

  /** `init`: ask S3 for an upload id; a null id is an error; otherwise start an empty tag list. */
  function InitEffect(s: SessionState, reply: InitiateReply, sc: Option<StorageClass>): Effect
  {
    match reply
    case InitiateThrows => Effect(s, [Initiate(sc)], Failed(InitiateFailed), false)
    case InitiateReturns(None) => Effect(s.(uploadId := None), [Initiate(sc)], Failed(NullUploadId), false)
    case InitiateReturns(Some(id)) => Effect(s.(uploadId := Some(id), partETags := Some([])), [Initiate(sc)], Ok, false)
  }

  /** `abortMultipartUpload`: on success forget the session; a failure is swallowed. */
  function AbortEffect(s: SessionState, ok: bool): Effect
  {
    Effect(if ok then s.(uploadId := None, partETags := None) else s, [Abort(s.uploadId)], Ok, false)
  }

  /**
   * `uploadPart` for part `n`: on success record its tag (adding to a null
   * tag list throws, which counts as a failure); on failure mark the stream
   * closed and abort.  The exception is lost with the discarded future, so the status is `Ok`.
   */
  function PartEffect(s: SessionState, n: int, content: seq<Byte>, reply: PartReply, abortOk: bool): Effect
  {
    var call := UploadPart(s.uploadId, n, |content|, content);
    if reply.PartReturns? && s.partETags.Some? then
      Effect(s.(partETags := Some(s.partETags.value + [PartETag(n, reply.etag)])), [call], Ok, true)
    else
      var abort := AbortEffect(s.(closed := true), abortOk);
      Effect(abort.state, [call] + abort.calls, Ok, false)
  }

  /** `uploadBuffer` on a buffer holding `content`: nothing when empty, else initiate if no part was numbered yet and submit part `++partsCount`. */
  function SubmitEffect(s: SessionState, content: seq<Byte>, replies: Replies, sc: Option<StorageClass>): Effect
  {
    if content == [] then Effect(s, [], Ok, false)
    else
      var init := if s.partsCount == 0 then InitEffect(s, replies.initiate, sc) else Effect(s, [], Ok, false);
      if init.status.Failed? then init
      else
        var n := init.state.partsCount + 1;
        var part := PartEffect(init.state.(partsCount := n), n, content, replies.part, replies.abortOk);
        Effect(part.state, init.calls + part.calls, Ok, part.recycled)
  }

  /** `completeMultipartUpload`: the tags in recording order; a null tag list throws before any call. */
  function CompleteEffect(s: SessionState, ok: bool): Effect
  {
    if s.partETags.None? then Effect(s, [], Failed(MissingPartTags), false)
    else
      var call := Complete(s.uploadId, s.partETags.value);
      if ok then Effect(s.(uploadId := None, partETags := None), [call], Ok, false)
      else Effect(s, [call], Failed(CompleteFailed), false)
  }

  /**
   * `close` with `content` in the working buffer: nothing once closed; a
   * single put when no upload id is held; otherwise submit the trailing
   * buffer and complete.  `closed` is set only when that all succeeded.
   */
  function CloseEffect(s: SessionState, content: seq<Byte>, replies: Replies, sc: Option<StorageClass>): Effect
  {
    if s.closed then Effect(s, [], Ok, false)
    else if s.uploadId.None? then
      Effect(s.(closed := replies.putOk), [Put(|content|, content, sc)],
             if replies.putOk then Ok else Failed(PutFailed), false)
    else
      var sub := SubmitEffect(s, content, replies, sc);
      if sub.status.Failed? then sub
      else
        var fin := CompleteEffect(sub.state, replies.completeOk);
        Effect(fin.state.(closed := fin.state.closed || fin.status.Ok?), sub.calls + fin.calls, fin.status, sub.recycled)
  }

  /**
   * What a session and the log of calls it sent always satisfy: parts are
   * numbered 1..partsCount in the order sent; an upload id is held exactly
   * when a tag list is; before the first part nothing was aborted or
   * completed; and while no part has failed the tag list names every part,
   * in order.
   */
  ghost predicate Consistent(s: SessionState, calls: seq<Call>)
  {
    && PartNumbers(calls) == Numbers(s.partsCount)
    && (s.uploadId.Some? <==> s.partETags.Some?)
    && (s.partsCount == 0 ==> s.uploadId.None? && Count(calls, AbortCall) == 0 && Count(calls, CompleteCall) == 0)
    && (!s.closed && s.partsCount > 0 ==> s.partETags.Some? && TagNumbers(s.partETags.value) == Numbers(s.partsCount))
  }

  /**
   * Nothing written is lost or sent twice: the parts sent, followed by the
   * bytes still pending in the buffer, are exactly the bytes written; the
   * buffer holds at most `max` bytes, every part sent holds 1..max bytes and
   * nothing is closed before a part is numbered.
   */
  ghost predicate Accounted(s: SessionState, calls: seq<Call>, pending: seq<Byte>, written: seq<Byte>, max: int)
  {
    && Flatten(PartContents(calls)) + pending == written
    && |pending| <= max
    && ChunksWithin(PartContents(calls), max)
    && (s.partsCount == 0 ==> !s.closed)
  }

  /** Whether the step submitted a part. */
  predicate Submitted(content: seq<Byte>, e: Effect)
  {
    content != [] && e.status.Ok?
  }

  lemma InitOutcome(s: SessionState, reply: InitiateReply, sc: Option<StorageClass>)
    ensures var e := InitEffect(s, reply, sc);
      && e.calls == [Initiate(sc)]
      && (e.status.Ok? <==> reply.InitiateReturns? && reply.uploadId.Some?)
      && (e.status.Ok? ==> e.state.uploadId == reply.uploadId && e.state.partETags == Some([]))
      && (reply == InitiateReturns(None) ==> e.status == Failed(NullUploadId) && e.state.uploadId.None?)
      && e.state.partsCount == s.partsCount && e.state.closed == s.closed
  {
  }

  /** A failed part marks the stream closed, keeps its buffer, records no tag and aborts exactly once. */
  lemma FailedPartAbortsOnce(s: SessionState, n: int, content: seq<Byte>, reply: PartReply, abortOk: bool)
    requires reply.PartThrows? || s.partETags.None?
    ensures var e := PartEffect(s, n, content, reply, abortOk);
      && e.state.closed && !e.recycled
      && e.calls == [UploadPart(s.uploadId, n, |content|, content), Abort(s.uploadId)]
      && Count(e.calls, AbortCall) == 1
      && (abortOk ==> e.state.uploadId.None? && e.state.partETags.None?)
      && (!abortOk ==> e.state.uploadId == s.uploadId && e.state.partETags == s.partETags)
  {
    var call := UploadPart(s.uploadId, n, |content|, content);
    OneCall(call);
    OneCall(Abort(s.uploadId));
    CountAppend([call], [Abort(s.uploadId)], AbortCall);
  }

  /** A successful part records the tag for its number at the end of the list and returns its buffer. */
  lemma SucceededPartRecordsTag(s: SessionState, n: int, content: seq<Byte>, etag: ETag, abortOk: bool)
    requires s.partETags.Some?
    ensures var e := PartEffect(s, n, content, PartReturns(etag), abortOk);
      && e.recycled && e.state.closed == s.closed && e.state.uploadId == s.uploadId
      && e.calls == [UploadPart(s.uploadId, n, |content|, content)]
      && e.state.partETags == Some(s.partETags.value + [PartETag(n, etag)])
      && TagNumbers(e.state.partETags.value) == TagNumbers(s.partETags.value) + [n]
  {
    TagNumbersAppend(s.partETags.value, [PartETag(n, etag)]);
  }

  /** The log of one part upload names that part, with its bytes, and initiates nothing. */
  lemma PartEffectLog(s: SessionState, n: int, content: seq<Byte>, reply: PartReply, abortOk: bool)
    ensures var e := PartEffect(s, n, content, reply, abortOk);
      && PartNumbers(e.calls) == [n] && PartContents(e.calls) == [content]
      && Count(e.calls, InitiateCall) == 0
      && e.state.partsCount == s.partsCount
  {
    var e := PartEffect(s, n, content, reply, abortOk);
    var call := UploadPart(s.uploadId, n, |content|, content);
    OneCall(call);
    if !(reply.PartReturns? && s.partETags.Some?) {
      OneCall(Abort(s.uploadId));
      PartNumbersAppend([call], [Abort(s.uploadId)]);
      PartContentsAppend([call], [Abort(s.uploadId)]);
      CountAppend([call], [Abort(s.uploadId)], InitiateCall);
    }
  }

  /** The log of a successful `init` (or of none) holds no part. */
  lemma InitLog(s: SessionState, reply: InitiateReply, sc: Option<StorageClass>)
    ensures var e := InitEffect(s, reply, sc);
      && PartNumbers(e.calls) == [] && PartContents(e.calls) == []
      && Count(e.calls, InitiateCall) == 1
      && Count(e.calls, AbortCall) == 0 && Count(e.calls, CompleteCall) == 0
  {
    OneCall(Initiate(sc));
  }

  /** A non-empty buffer that gets a number is sent as part `partsCount + 1`, carrying exactly its bytes. */
  lemma {:induction false} SubmitSendsOnePart(s: SessionState, content: seq<Byte>, replies: Replies, sc: Option<StorageClass>)
    requires Submitted(content, SubmitEffect(s, content, replies, sc))
    ensures var e := SubmitEffect(s, content, replies, sc);
      && e.state.partsCount == s.partsCount + 1
      && PartNumbers(e.calls) == [s.partsCount + 1]
      && PartContents(e.calls) == [content]
  {
    var e := SubmitEffect(s, content, replies, sc);
    var init := if s.partsCount == 0 then InitEffect(s, replies.initiate, sc) else Effect(s, [], Ok, false);
    if s.partsCount == 0 {
      InitLog(s, replies.initiate, sc);
      InitOutcome(s, replies.initiate, sc);
    }
    var n := s.partsCount + 1;
    assert init.state.partsCount == s.partsCount;
    var part := PartEffect(init.state.(partsCount := n), n, content, replies.part, replies.abortOk);
    PartEffectLog(init.state.(partsCount := n), n, content, replies.part, replies.abortOk);
    assert e == Effect(part.state, init.calls + part.calls, Ok, part.recycled);
    PartNumbersAppend(init.calls, part.calls);
    PartContentsAppend(init.calls, part.calls);
  }

  /** An empty buffer, or one whose session could not be initiated, sends no part and keeps the count. */
  lemma SubmitSendsNoPart(s: SessionState, content: seq<Byte>, replies: Replies, sc: Option<StorageClass>)
    requires !Submitted(content, SubmitEffect(s, content, replies, sc))
    ensures var e := SubmitEffect(s, content, replies, sc);
      && e.state.partsCount == s.partsCount && e.state.closed == s.closed && !e.recycled
      && PartNumbers(e.calls) == [] && PartContents(e.calls) == []
      && Count(e.calls, AbortCall) == 0 && Count(e.calls, CompleteCall) == 0
  {
    if content != [] {
      InitLog(s, replies.initiate, sc);
    }
  }

  /** Submitting adds the buffer to the parts sent exactly when it is submitted; a submission fails only when its initiation does. */
  lemma SubmitLog(s: SessionState, calls: seq<Call>, content: seq<Byte>, replies: Replies, sc: Option<StorageClass>)
    ensures var e := SubmitEffect(s, content, replies, sc);
      && PartContents(calls + e.calls) == PartContents(calls) + (if Submitted(content, e) then [content] else [])
      && (e.recycled ==> Submitted(content, e))
      && (!Submitted(content, e) ==> e.state.partsCount == s.partsCount && e.state.closed == s.closed)
      && (e.status.Failed? <==> content != [] && s.partsCount == 0 && InitEffect(s, replies.initiate, sc).status.Failed?)
  {
    var e := SubmitEffect(s, content, replies, sc);
    if Submitted(content, e) {
      SubmitSendsOnePart(s, content, replies, sc);
    } else {
      SubmitSendsNoPart(s, content, replies, sc);
    }
    PartContentsAppend(calls, e.calls);
  }

  /**
   * A first buffer whose initiation fails is not submitted: the submission
   * is that initiation, with its error, and nothing else.
   */
  lemma FailedInitStopsSubmit(s: SessionState, content: seq<Byte>, replies: Replies, sc: Option<StorageClass>)
    requires content != [] && s.partsCount == 0 && InitEffect(s, replies.initiate, sc).status.Failed?
    ensures SubmitEffect(s, content, replies, sc) == InitEffect(s, replies.initiate, sc)
    ensures !Submitted(content, SubmitEffect(s, content, replies, sc))
  {
  }

  /** The session is initiated exactly when a non-empty buffer is submitted before any part was numbered. */
  lemma {:induction false} SubmitInitiatesOnlyFirst(s: SessionState, content: seq<Byte>, replies: Replies, sc: Option<StorageClass>)
    ensures var e := SubmitEffect(s, content, replies, sc);
      Count(e.calls, InitiateCall) == (if content != [] && s.partsCount == 0 then 1 else 0)
  {
    if content != [] {
      var init := if s.partsCount == 0 then InitEffect(s, replies.initiate, sc) else Effect(s, [], Ok, false);
      if s.partsCount == 0 {
        InitLog(s, replies.initiate, sc);
      }
      if init.status.Ok? {
        var n := init.state.partsCount + 1;
        var part := PartEffect(init.state.(partsCount := n), n, content, replies.part, replies.abortOk);
        PartEffectLog(init.state.(partsCount := n), n, content, replies.part, replies.abortOk);
        CountAppend(init.calls, part.calls, InitiateCall);
      }
    }
  }

  /** Submitting the buffer moves its bytes to the parts sent when it succeeds, and leaves them pending when it fails. */
  lemma SubmitKeepsAccounted(s: SessionState, calls: seq<Call>, content: seq<Byte>, written: seq<Byte>, max: int,
                             replies: Replies, sc: Option<StorageClass>)
    requires Accounted(s, calls, content, written, max)
    ensures var e := SubmitEffect(s, content, replies, sc);
      Accounted(e.state, calls + e.calls, if e.status.Ok? then [] else content, written, max)
  {
    var e := SubmitEffect(s, content, replies, sc);
    SubmitLog(s, calls, content, replies, sc);
    var sent := if Submitted(content, e) then [content] else [];
    FlattenAppend(PartContents(calls), sent);
    ChunksWithinAppend(PartContents(calls), sent, max);
    if Submitted(content, e) {
      SubmitSendsOnePart(s, content, replies, sc);
    }
  }

  /** Putting one more byte in a buffer with room keeps every byte accounted for. */
  lemma AppendKeepsAccounted(s: SessionState, calls: seq<Call>, pending: seq<Byte>, written: seq<Byte>, max: int, b: Byte)
    requires Accounted(s, calls, pending, written, max) && |pending| < max
    ensures Accounted(s, calls, pending + [b], written + [b], max)
  {
    AppendAssociates(Flatten(PartContents(calls)), pending, [b]);
  }

  /** Submitting a buffer keeps the session consistent with the log. */
  lemma SubmitKeepsConsistent(s: SessionState, calls: seq<Call>, content: seq<Byte>, replies: Replies, sc: Option<StorageClass>)
    requires Consistent(s, calls)
    ensures var e := SubmitEffect(s, content, replies, sc); Consistent(e.state, calls + e.calls)
  {
    if Submitted(content, SubmitEffect(s, content, replies, sc)) {
      PartKeepsConsistent(s, calls, content, replies, sc);
    } else {
      IdleKeepsConsistent(s, calls, content, replies, sc);
    }
  }

  lemma IdleKeepsConsistent(s: SessionState, calls: seq<Call>, content: seq<Byte>, replies: Replies, sc: Option<StorageClass>)
    requires Consistent(s, calls)
    requires !Submitted(content, SubmitEffect(s, content, replies, sc))
    ensures var e := SubmitEffect(s, content, replies, sc); e.state == s && Consistent(s, calls + e.calls)
  {
    var e := SubmitEffect(s, content, replies, sc);
    SubmitSendsNoPart(s, content, replies, sc);
    PartNumbersAppend(calls, e.calls);
    CountAppend(calls, e.calls, AbortCall);
    CountAppend(calls, e.calls, CompleteCall);
  }

  lemma PartKeepsConsistent(s: SessionState, calls: seq<Call>, content: seq<Byte>, replies: Replies, sc: Option<StorageClass>)
    requires Consistent(s, calls)
    requires Submitted(content, SubmitEffect(s, content, replies, sc))
    ensures var e := SubmitEffect(s, content, replies, sc); Consistent(e.state, calls + e.calls)
  {
    var e := SubmitEffect(s, content, replies, sc);
    SubmitSendsOnePart(s, content, replies, sc);
    PartNumbersAppend(calls, e.calls);
    assert PartNumbers(calls + e.calls) == Numbers(e.state.partsCount);
    var init := if s.partsCount == 0 then InitEffect(s, replies.initiate, sc) else Effect(s, [], Ok, false);
    var n := s.partsCount + 1;
    var t := init.state.(partsCount := n);
    assert t.partETags.Some? && !t.closed ==> TagNumbers(t.partETags.value) == Numbers(s.partsCount);
    assert e.state == PartEffect(t, n, content, replies.part, replies.abortOk).state;
    if replies.part.PartReturns? && t.partETags.Some? {
      SucceededPartRecordsTag(t, n, content, replies.part.etag, replies.abortOk);
    } else {
      FailedPartAbortsOnce(t, n, content, replies.part, replies.abortOk);
    }
  }

  /** Completing keeps the session consistent: it sends no part, and after it only a closed session may lack tags. */
  lemma CompleteKeepsConsistent(s: SessionState, calls: seq<Call>, ok: bool)
    requires Consistent(s, calls) && s.partsCount > 0
    ensures var e := CompleteEffect(s, ok);
      Consistent(e.state.(closed := e.state.closed || e.status.Ok?), calls + e.calls)
  {
    var e := CompleteEffect(s, ok);
    PartNumbersAppend(calls, e.calls);
    if s.partETags.Some? {
      OneCall(Complete(s.uploadId, s.partETags.value));
    }
  }

  /** Closing keeps the session consistent with the log. */
  lemma CloseKeepsConsistent(s: SessionState, calls: seq<Call>, content: seq<Byte>, replies: Replies, sc: Option<StorageClass>)
    requires Consistent(s, calls)
    ensures var e := CloseEffect(s, content, replies, sc); Consistent(e.state, calls + e.calls)
  {
    var e := CloseEffect(s, content, replies, sc);
    if s.closed {
      assert calls + e.calls == calls;
    } else if s.uploadId.None? {
      PutKeepsConsistent(s, calls, content, replies, sc);
    } else {
      CompletionKeepsConsistent(s, calls, content, replies, sc);
    }
  }

  lemma PutKeepsConsistent(s: SessionState, calls: seq<Call>, content: seq<Byte>, replies: Replies, sc: Option<StorageClass>)
    requires Consistent(s, calls) && !s.closed && s.uploadId.None?
    ensures var e := CloseEffect(s, content, replies, sc); Consistent(e.state, calls + e.calls)
  {
    var e := CloseEffect(s, content, replies, sc);
    OneCall(Put(|content|, content, sc));
    PartNumbersAppend(calls, e.calls);
    CountAppend(calls, e.calls, AbortCall);
    CountAppend(calls, e.calls, CompleteCall);
  }

  lemma CompletionKeepsConsistent(s: SessionState, calls: seq<Call>, content: seq<Byte>, replies: Replies, sc: Option<StorageClass>)
    requires Consistent(s, calls) && !s.closed && s.uploadId.Some?
    ensures var e := CloseEffect(s, content, replies, sc); Consistent(e.state, calls + e.calls)
  {
    var sub := SubmitEffect(s, content, replies, sc);
    SubmitKeepsConsistent(s, calls, content, replies, sc);
    if sub.status.Ok? {
      var fin := CompleteEffect(sub.state, replies.completeOk);
      CompleteKeepsConsistent(sub.state, calls + sub.calls, replies.completeOk);
      assert calls + (sub.calls + fin.calls) == (calls + sub.calls) + fin.calls;
    }
  }


  /** With no upload id, close sends exactly one put carrying the buffered bytes and their length; no part was ever numbered. */
  lemma SingleShotClose(s: SessionState, calls: seq<Call>, content: seq<Byte>, replies: Replies, sc: Option<StorageClass>)
    requires Consistent(s, calls) && !s.closed && s.uploadId.None?
    ensures var e := CloseEffect(s, content, replies, sc);
      && s.partsCount == 0
      && e.calls == [Put(|content|, content, sc)]
      && Count(e.calls, InitiateCall) == 0 && Count(e.calls, UploadPartCall) == 0
      && (e.status.Ok? <==> replies.putOk) && (e.state.closed <==> replies.putOk)
      && e.state.uploadId.None? && e.state.partsCount == 0
  {
    OneCall(Put(|content|, content, sc));
  }

  /**
   * With a healthy session, a trailing part that succeeds and a completion
   * that succeeds, close sends the trailing part (if any) and then one
   * completion whose tags name parts 1..N in order, and clears the session.
   */
  lemma MultipartCloseCompletes(s: SessionState, calls: seq<Call>, content: seq<Byte>, replies: Replies, sc: Option<StorageClass>)
    requires Consistent(s, calls) && !s.closed && s.uploadId.Some?
    requires replies.part.PartReturns? && replies.completeOk
    ensures var e := CloseEffect(s, content, replies, sc);
      && e.status == Ok && e.state.closed
      && e.state.uploadId.None? && e.state.partETags.None?
      && e.state.partsCount == s.partsCount + (if content == [] then 0 else 1)
      && |e.calls| >= 1
      && e.calls[..|e.calls| - 1] == (if content == [] then [] else [UploadPart(s.uploadId, s.partsCount + 1, |content|, content)])
      && e.calls[|e.calls| - 1] == Complete(s.uploadId, s.partETags.value +
           (if content == [] then [] else [PartETag(s.partsCount + 1, replies.part.etag)]))
      && TagNumbers(e.calls[|e.calls| - 1].partETags) == Numbers(e.state.partsCount)
  {
    var e := CloseEffect(s, content, replies, sc);
    var sub := SubmitEffect(s, content, replies, sc);
    var n := s.partsCount + 1;
    var added := if content == [] then [] else [PartETag(n, replies.part.etag)];
    var tags := s.partETags.value + added;
    if content != [] {
      var t := s.(partsCount := n);
      SucceededPartRecordsTag(t, n, content, replies.part.etag, replies.abortOk);
      var part := PartEffect(t, n, content, replies.part, replies.abortOk);
      assert sub == Effect(part.state, [] + part.calls, Ok, true);
      TagNumbersAppend(s.partETags.value, added);
    } else {
      assert sub == Effect(s, [], Ok, false);
      assert tags == s.partETags.value;
    }
    assert sub.state.partETags == Some(tags) && sub.state.uploadId == s.uploadId;
    var fin := CompleteEffect(sub.state, replies.completeOk);
    assert fin.calls == [Complete(s.uploadId, tags)];
    assert e.calls == sub.calls + fin.calls;
  }

  /**
   * A trailing part that fails in close: the stream is marked closed and
   * aborted once.  If the abort succeeds, the null tag list makes the
   * completion throw before any call.  If the abort fails, the completion is
   * still sent, naming parts 1..N but not the failed part N+1.
   */
  lemma TrailingPartFailure(s: SessionState, calls: seq<Call>, content: seq<Byte>, replies: Replies, sc: Option<StorageClass>)
    requires Consistent(s, calls) && !s.closed && s.uploadId.Some?
    requires content != [] && replies.part.PartThrows?
    ensures var e := CloseEffect(s, content, replies, sc);
      && e.state.closed && Count(e.calls, AbortCall) == 1
      && (replies.abortOk ==>
            && e.status == Failed(MissingPartTags)
            && e.calls == [UploadPart(s.uploadId, s.partsCount + 1, |content|, content), Abort(s.uploadId)])
      && (!replies.abortOk ==>
            && e.status == (if replies.completeOk then Ok else Failed(CompleteFailed))
            && e.calls == [UploadPart(s.uploadId, s.partsCount + 1, |content|, content), Abort(s.uploadId),
                           Complete(s.uploadId, s.partETags.value)]
            && TagNumbers(s.partETags.value) == Numbers(s.partsCount))
  {
    var e := CloseEffect(s, content, replies, sc);
    var n := s.partsCount + 1;
    var t := s.(partsCount := n);
    var call := UploadPart(s.uploadId, n, |content|, content);
    var part := PartEffect(t, n, content, replies.part, replies.abortOk);
    FailedPartAbortsOnce(t, n, content, replies.part, replies.abortOk);
    assert SubmitEffect(s, content, replies, sc) == Effect(part.state, [] + part.calls, Ok, false);
    var fin := CompleteEffect(part.state, replies.completeOk);
    assert e.calls == part.calls + fin.calls;
    if !replies.abortOk {
      var done := Complete(s.uploadId, s.partETags.value);
      assert fin.calls == [done];
      OneCall(done);
      CountAppend(part.calls, [done], AbortCall);
    } else {
      assert fin.calls == [];
    }
  }

  /**
   * A completion that fails leaves the stream open, holding its session and
   * any trailing part just sent; closing again with an empty working buffer
   * sends that same completion again.
   */
  lemma FailedCompleteIsRetried(s: SessionState, calls: seq<Call>, content: seq<Byte>, replies: Replies, again: Replies,
                                sc: Option<StorageClass>)
    requires Consistent(s, calls) && !s.closed && s.uploadId.Some? && !replies.completeOk
    requires content == [] || replies.part.PartReturns?
    ensures var e := CloseEffect(s, content, replies, sc);
      && e.status == Failed(CompleteFailed) && !e.state.closed
      && e.state.uploadId == s.uploadId && e.state.partETags.Some?
      && e.state.partsCount == s.partsCount + (if content == [] then 0 else 1)
      && |e.calls| >= 1 && e.calls[|e.calls| - 1] == Complete(s.uploadId, e.state.partETags.value)
      && CloseEffect(e.state, [], again, sc).calls == [e.calls[|e.calls| - 1]]
  {
    var sub := SubmitEffect(s, content, replies, sc);
    if content != [] {
      var n := s.partsCount + 1;
      SucceededPartRecordsTag(s.(partsCount := n), n, content, replies.part.etag, replies.abortOk);
    }
    var fin := CompleteEffect(sub.state, replies.completeOk);
    assert CloseEffect(s, content, replies, sc).calls == sub.calls + fin.calls;
  }

  /** After a part failure the stream is closed, so close sends nothing and reports success. */
  lemma CloseAfterFailedPartIsSilent(s: SessionState, content: seq<Byte>, replies: Replies, sc: Option<StorageClass>,
                                     trailing: seq<Byte>, closing: Replies)
    requires Submitted(content, SubmitEffect(s, content, replies, sc))
    requires replies.part.PartThrows?
    ensures var e := SubmitEffect(s, content, replies, sc);
      CloseEffect(e.state, trailing, closing, sc) == Effect(e.state, [], Ok, false)
  {
  }

  /** Once a close has succeeded, closing again sends nothing and succeeds. */
  lemma CloseIsIdempotent(s: SessionState, content: seq<Byte>, replies: Replies, sc: Option<StorageClass>,
                          content2: seq<Byte>, replies2: Replies)
    requires CloseEffect(s, content, replies, sc).status.Ok?
    ensures var e := CloseEffect(s, content, replies, sc);
      e.state.closed && CloseEffect(e.state, content2, replies2, sc) == Effect(e.state, [], Ok, false)
  {
  }

  /** Closing sends at most one part, and that part carries the buffered bytes. */
  lemma CloseSendsAtMostTrailingPart(s: SessionState, content: seq<Byte>, replies: Replies, sc: Option<StorageClass>)
    ensures var e := CloseEffect(s, content, replies, sc);
      PartContents(e.calls) == [] || (content != [] && PartContents(e.calls) == [content])
  {
    var e := CloseEffect(s, content, replies, sc);
    if !s.closed && s.uploadId.None? {
      OneCall(Put(|content|, content, sc));
    } else if !s.closed {
      var sub := SubmitEffect(s, content, replies, sc);
      if Submitted(content, sub) {
        SubmitSendsOnePart(s, content, replies, sc);
      } else {
        SubmitSendsNoPart(s, content, replies, sc);
      }
      if sub.status.Ok? {
        var fin := CompleteEffect(sub.state, replies.completeOk);
        if sub.state.partETags.Some? {
          OneCall(Complete(sub.state.uploadId, sub.state.partETags.value));
        }
        PartContentsAppend(sub.calls, fin.calls);
      }
    }
  }

  /** Closing keeps every part sent within 1..max bytes, given a buffer of at most `max` bytes. */
  lemma CloseKeepsChunksWithin(s: SessionState, calls: seq<Call>, content: seq<Byte>, max: int,
                               replies: Replies, sc: Option<StorageClass>)
    requires ChunksWithin(PartContents(calls), max) && |content| <= max
    ensures var e := CloseEffect(s, content, replies, sc); ChunksWithin(PartContents(calls + e.calls), max)
  {
    var e := CloseEffect(s, content, replies, sc);
    CloseSendsAtMostTrailingPart(s, content, replies, sc);
    PartContentsAppend(calls, e.calls);
    ChunksWithinAppend(PartContents(calls), PartContents(e.calls), max);
    if PartContents(e.calls) != [] {
      assert PartContents(e.calls) == [content];
      assert ChunksWithin([content][1..], max);
    }
  }

  /**
   * Nothing written is lost at close: with no upload id the put carries
   * exactly the bytes written; with a session, the parts sent, in the order
   * of their numbers 1..N, hold exactly the bytes written, the trailing part
   * included.
   */
  lemma CloseSendsWritten(s: SessionState, calls: seq<Call>, content: seq<Byte>, written: seq<Byte>, max: int,
                          replies: Replies, sc: Option<StorageClass>)
    requires Consistent(s, calls) && Accounted(s, calls, content, written, max) && !s.closed
    ensures var e := CloseEffect(s, content, replies, sc);
      && (s.uploadId.None? ==> PartContents(calls) == [] && e.calls == [Put(|written|, written, sc)])
      && (s.uploadId.Some? ==>
            && Flatten(PartContents(calls + e.calls)) == written
            && PartNumbers(calls + e.calls) == Numbers(e.state.partsCount))
  {
    var e := CloseEffect(s, content, replies, sc);
    if s.uploadId.None? {
      SingleShotClose(s, calls, content, replies, sc);
      PartContentsCount(calls);
      assert PartContents(calls) == [];
      assert content == written;
    } else {
      var sub := SubmitEffect(s, content, replies, sc);
      SubmitLog(s, calls, content, replies, sc);
      SubmitKeepsAccounted(s, calls, content, written, max, replies, sc);
      var fin := CompleteEffect(sub.state, replies.completeOk);
      assert e.calls == sub.calls + fin.calls;
      AppendAssociates(calls, sub.calls, fin.calls);
      PartContentsAppend(calls + sub.calls, fin.calls);
      if sub.state.partETags.Some? {
        OneCall(Complete(sub.state.uploadId, sub.state.partETags.value));
      }
      assert PartContents(calls + e.calls) == PartContents(calls + sub.calls);
      CloseKeepsConsistent(s, calls, content, replies, sc);
    }
  }
}
