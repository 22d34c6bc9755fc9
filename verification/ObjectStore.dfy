/** The in-memory object store of storage/fake_storage.py. */
module ObjectStore {
  import opened Wrappers
  import opened RgbCodec

  const ORIGINALS: string := "pages-originals"

  datatype ObjectId = ObjectId(bucket: string, key: string)

  datatype StoredObject = StoredObject(id: ObjectId, sha256: string, sizeBytes: nat, contentType: string)

  datatype StorageFailure = Timeout | UploadFailed | OverwriteForbidden | NotFound

  type Objects = map<ObjectId, seq<byte>>

  /** Only the bucket of originals refuses to be overwritten. */
  predicate Immutable(bucket: string) {
    bucket == ORIGINALS
  }

  class FakeStorage {
    var objects: Objects
    var metadata: map<ObjectId, StoredObject>
    var simulateTimeout: bool
    var simulateUploadFail: bool

    /** Every object has metadata of its own size, and there is no other metadata. */
    ghost predicate Valid()
      reads this
    {
      && metadata.Keys == objects.Keys
      && forall id :: id in objects ==> metadata[id].id == id && metadata[id].sizeBytes == |objects[id]|
    }

    constructor ()
      ensures Valid() && objects == map[] && !simulateTimeout && !simulateUploadFail
    {
      objects, metadata := map[], map[];
      simulateTimeout, simulateUploadFail := false, false;
    }

    method PutObject(bucket: string, key: string, data: seq<byte>, contentType: string, sha256: string, overwrite: bool)
      returns (r: Result<StoredObject, StorageFailure>)
      requires Valid()
      modifies this`objects, this`metadata
      ensures Valid()
      ensures var id := ObjectId(bucket, key);
              match r
              case Ok(stored) =>
                && stored == StoredObject(id, sha256, |data|, contentType)
                && !(old(simulateTimeout) || old(simulateUploadFail))
                && (overwrite || !Immutable(bucket) || id !in old(objects))
                && objects == old(objects)[id := data] && metadata == old(metadata)[id := stored]
              case Err(e) =>
                && objects == old(objects) && metadata == old(metadata)
                && (e == Timeout <==> old(simulateTimeout))
                && (e == UploadFailed <==> !old(simulateTimeout) && old(simulateUploadFail))
                && (e == OverwriteForbidden <==> !old(simulateTimeout) && !old(simulateUploadFail))
                && (e == OverwriteForbidden ==> !overwrite && Immutable(bucket) && id in objects)
    {
      if simulateTimeout {
        return Err(Timeout);
      }
      if simulateUploadFail {
        return Err(UploadFailed);
      }
      var id := ObjectId(bucket, key);
      if !overwrite && Immutable(bucket) && id in objects {
        return Err(OverwriteForbidden);
      }
      objects := objects[id := data];
      var stored := StoredObject(id, sha256, |data|, contentType);
      metadata := metadata[id := stored];
      return Ok(stored);
    }

    method ObjectExists(bucket: string, key: string) returns (exists_: bool)
      ensures exists_ <==> ObjectId(bucket, key) in objects
    {
      exists_ := ObjectId(bucket, key) in objects;
    }

    method GetObject(bucket: string, key: string) returns (r: Result<seq<byte>, StorageFailure>)
      ensures r == if ObjectId(bucket, key) in objects then Ok(objects[ObjectId(bucket, key)]) else Err(NotFound)
    {
      if ObjectId(bucket, key) !in objects {
        return Err(NotFound);
      }
      return Ok(objects[ObjectId(bucket, key)]);
    }

    method DeleteObject(bucket: string, key: string)
      requires Valid()
      modifies this`objects, this`metadata
      ensures Valid()
      ensures objects == old(objects) - {ObjectId(bucket, key)} && metadata == old(metadata) - {ObjectId(bucket, key)}
    {
      objects := objects - {ObjectId(bucket, key)};
      metadata := metadata - {ObjectId(bucket, key)};
    }
  }
}
