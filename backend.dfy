/**
 * The S3 client as the stream sees it: the calls it issues, the replies it
 * can get back, and projections of a log of calls.  The client itself is not
 * modelled; each call is an entry appended to a log and each reply is chosen
 * by the caller of the stream (an oracle).
 */
module Backend {
  import opened Wrappers
  import opened Bytes

  type UploadId = string
  type ETag = string

  /** The storage classes the S3 client library knows, with their wire names. */
  datatype StorageClass = Standard | ReducedRedundancy | Glacier | StandardInfrequentAccess

  function StorageClassName(c: StorageClass): string
  {
    match c
    case Standard => "STANDARD"
    case ReducedRedundancy => "REDUCED_REDUNDANCY"
    case Glacier => "GLACIER"
    case StandardInfrequentAccess => "STANDARD_IA"
  }

  /** `StorageClass.fromValue`: the class whose name is `value`; `None` where the library throws. */
  function StorageClassFromValue(value: string): (r: Option<StorageClass>)
    ensures forall c :: r == Some(c) <==> StorageClassName(c) == value
  {
    if value == "STANDARD" then Some(Standard)
    else if value == "REDUCED_REDUNDANCY" then Some(ReducedRedundancy)
    else if value == "GLACIER" then Some(Glacier)
    else if value == "STANDARD_IA" then Some(StandardInfrequentAccess)
    else None
  }

  /** The tag S3 returns for an uploaded part, paired with the part's number. */
  datatype PartETag = PartETag(partNumber: int, etag: ETag)

  /** One request sent to S3, with the fields the stream sets on it. */
  datatype Call =
    | Initiate(storageClass: Option<StorageClass>)
    | UploadPart(uploadId: Option<UploadId>, partNumber: int, partSize: int, content: seq<Byte>)
    | Complete(uploadId: Option<UploadId>, partETags: seq<PartETag>)
    | Abort(uploadId: Option<UploadId>)
    | Put(contentLength: int, content: seq<Byte>, storageClass: Option<StorageClass>)

  datatype CallKind = InitiateCall | UploadPartCall | CompleteCall | AbortCall | PutCall

  function KindOf(c: Call): CallKind
  {
    match c
    case Initiate(_) => InitiateCall
    case UploadPart(_, _, _, _) => UploadPartCall
    case Complete(_, _) => CompleteCall
    case Abort(_) => AbortCall
    case Put(_, _, _) => PutCall
  }

  /** What S3 answers to `initiateMultipartUpload`: an exception, or a result whose id may be null. */
  datatype InitiateReply = InitiateThrows | InitiateReturns(uploadId: Option<UploadId>)

  /** What S3 answers to `uploadPart`: an exception, or the part's tag. */
  datatype PartReply = PartThrows | PartReturns(etag: ETag)

  /**
   * The replies S3 gives to the calls one operation of the stream can issue;
   * an operation issues each kind of call at most once.  A `false` flag means
   * the call throws.
   */
  datatype Replies = Replies(initiate: InitiateReply, part: PartReply, abortOk: bool, completeOk: bool, putOk: bool)

  /** The `IOException`s (and the one `NullPointerException`) the stream lets escape. */
  datatype IoError = InitiateFailed | NullUploadId | CompleteFailed | PutFailed | MissingPartTags

  datatype Status = Ok | Failed(error: IoError)

  /** The number of calls of kind `k` in a log. */
  function Count(calls: seq<Call>, k: CallKind): nat
  {
    if calls == [] then 0 else (if KindOf(calls[0]) == k then 1 else 0) + Count(calls[1..], k)
  }

  /** The part numbers of the part uploads in a log, in the order they were sent. */
  function PartNumbers(calls: seq<Call>): seq<int>
  {
    if calls == [] then []
    else (if calls[0].UploadPart? then [calls[0].partNumber] else []) + PartNumbers(calls[1..])
  }

  /** The bytes of each part upload in a log, in the order they were sent. */
  function PartContents(calls: seq<Call>): seq<seq<Byte>>
  {
    if calls == [] then []
    else (if calls[0].UploadPart? then [calls[0].content] else []) + PartContents(calls[1..])
  }

  /** The part numbers a list of tags refers to, in list order. */
  function TagNumbers(tags: seq<PartETag>): seq<int>
  {
    if tags == [] then [] else [tags[0].partNumber] + TagNumbers(tags[1..])
  }

  /** The numbers 1, 2, ..., n. */
  function Numbers(n: nat): seq<int>
  {
    if n == 0 then [] else Numbers(n - 1) + [n]
  }

  lemma AppendAssociates<T>(a: seq<T>, b: seq<T>, c: seq<T>)
    ensures (a + b) + c == a + (b + c)
  {
  }

  lemma {:induction false} CountAppend(a: seq<Call>, b: seq<Call>, k: CallKind)
    ensures Count(a + b, k) == Count(a, k) + Count(b, k)
  {
    if a == [] {
      assert a + b == b;
    } else {
      assert (a + b)[1..] == a[1..] + b;
      CountAppend(a[1..], b, k);
    }
  }

  lemma {:induction false} PartNumbersAppend(a: seq<Call>, b: seq<Call>)
    ensures PartNumbers(a + b) == PartNumbers(a) + PartNumbers(b)
  {
    if a == [] {
      assert a + b == b;
    } else {
      assert (a + b)[1..] == a[1..] + b;
      PartNumbersAppend(a[1..], b);
      var head := if a[0].UploadPart? then [a[0].partNumber] else [];
      assert PartNumbers(a + b) == head + PartNumbers(a[1..] + b);
      assert PartNumbers(a) == head + PartNumbers(a[1..]);
      AppendAssociates(head, PartNumbers(a[1..]), PartNumbers(b));
    }
  }

  lemma {:induction false} PartContentsAppend(a: seq<Call>, b: seq<Call>)
    ensures PartContents(a + b) == PartContents(a) + PartContents(b)
  {
    if a == [] {
      assert a + b == b;
    } else {
      assert (a + b)[1..] == a[1..] + b;
      PartContentsAppend(a[1..], b);
    }
  }

  lemma {:induction false} TagNumbersAppend(a: seq<PartETag>, b: seq<PartETag>)
    ensures TagNumbers(a + b) == TagNumbers(a) + TagNumbers(b)
  {
    if a == [] {
      assert a + b == b;
    } else {
      assert (a + b)[1..] == a[1..] + b;
      TagNumbersAppend(a[1..], b);
    }
  }

  /** What a log of one call holds. */
  lemma OneCall(c: Call)
    ensures PartNumbers([c]) == (if c.UploadPart? then [c.partNumber] else [])
    ensures PartContents([c]) == (if c.UploadPart? then [c.content] else [])
    ensures forall k :: Count([c], k) == (if KindOf(c) == k then 1 else 0)
  {
    assert [c][1..] == [];
  }

  /** There is one part number per part upload. */
  lemma {:induction false} PartNumbersCount(calls: seq<Call>)
    ensures |PartNumbers(calls)| == Count(calls, UploadPartCall)
  {
    if calls != [] {
      PartNumbersCount(calls[1..]);
      assert |PartNumbers(calls)| == (if calls[0].UploadPart? then 1 else 0) + |PartNumbers(calls[1..])|;
    }
  }

  /** A log holds as many part contents as part numbers. */
  lemma {:induction false} PartContentsCount(calls: seq<Call>)
    ensures |PartContents(calls)| == |PartNumbers(calls)|
  {
    if calls != [] {
      PartContentsCount(calls[1..]);
    }
  }

  lemma {:induction false} NumbersLength(n: nat)
    ensures |Numbers(n)| == n
  {
    if n > 0 {
      NumbersLength(n - 1);
    }
  }
}
