/**
 * `S3UploadRequest`: the mutable settings a stream is built from.  Each
 * setter changes its one field; the text setters parse first and leave the
 * field as it was when the text is absent or does not parse.
 */
module UploadRequest {
  import opened Wrappers
  import opened Bytes
  import opened Backend
  import opened IntParsing

  /** `DEFAULT_CHUNK_SIZE`, written `10 << 20` in the source: ten MiB. */
  const DefaultChunkSize: Int32 := 10 * 0x10_0000

  datatype ObjectId = ObjectId(bucket: string, key: string)

  /** User metadata attached to the stored object. */
  type Metadata = map<string, string>

  class S3UploadRequest {
    var objectId: Option<ObjectId>
    var storageClass: Option<StorageClass>
    var metadata: Option<Metadata>
    var chunkSize: Int32
    var maxThreads: Int32

    /**
     * The defaults: ten-MiB chunks, and one worker per available processor,
     * less one when there is more than one.
     */
    constructor (availableProcessors: Int32)
      ensures objectId.None? && storageClass.None? && metadata.None?
      ensures chunkSize == DefaultChunkSize
      ensures availableProcessors > 1 ==> maxThreads == availableProcessors - 1
      ensures availableProcessors <= 1 ==> maxThreads == availableProcessors
    {
      objectId, storageClass, metadata := None, None, None;
      chunkSize := DefaultChunkSize;
      maxThreads := availableProcessors;
      new;
      if maxThreads > 1 {
        maxThreads := maxThreads - 1;
      }
    }

    method SetObjectId(id: Option<ObjectId>)
      modifies this`objectId
      ensures objectId == id
    {
      objectId := id;
    }

    method SetStorageClass(sc: Option<StorageClass>)
      modifies this`storageClass
      ensures storageClass == sc
    {
      storageClass := sc;
    }

    /** `setStorageClass(String)`: a known class name replaces the class; null or an unknown name keeps it. */
    method SetStorageClassName(name: Option<string>)
      modifies this`storageClass
      ensures name.Some? && StorageClassFromValue(name.value).Some? ==> storageClass == StorageClassFromValue(name.value)
      ensures name.None? || StorageClassFromValue(name.value).None? ==> storageClass == old(storageClass)
    {
      if name.None? {
        return;
      }
      var parsed := StorageClassFromValue(name.value);
      if parsed.Some? {
        SetStorageClass(parsed);
      }
    }

    method SetMetadata(m: Option<Metadata>)
      modifies this`metadata
      ensures metadata == m
    {
      metadata := m;
    }

    method SetChunkSize(n: Int32)
      modifies this`chunkSize
      ensures chunkSize == n
    {
      chunkSize := n;
    }

    /** `setChunkSize(String)`: any text `Integer.parseInt` accepts replaces the size, even a non-positive one. */
    method SetChunkSizeText(text: Option<string>)
      modifies this`chunkSize
      ensures text.Some? && ParseInt(text.value).Some? ==> chunkSize == ParseInt(text.value).value
      ensures text.None? || ParseInt(text.value).None? ==> chunkSize == old(chunkSize)
    {
      if text.None? {
        return;
      }
      var parsed := ParseInt(text.value);
      if parsed.Some? {
        SetChunkSize(parsed.value);
      }
    }

    method SetMaxThreads(n: Int32)
      modifies this`maxThreads
      ensures maxThreads == n
    {
      maxThreads := n;
    }

    /** `setMaxThreads(String)`: like `SetChunkSizeText`, for the worker count. */
    method SetMaxThreadsText(text: Option<string>)
      modifies this`maxThreads
      ensures text.Some? && ParseInt(text.value).Some? ==> maxThreads == ParseInt(text.value).value
      ensures text.None? || ParseInt(text.value).None? ==> maxThreads == old(maxThreads)
    {
      if text.None? {
        return;
      }
      var parsed := ParseInt(text.value);
      if parsed.Some? {
        SetMaxThreads(parsed.value);
      }
    }
  }
}
