/** `uploadFile`: forward a received file to the storage service and record
    it in `Uploads`.

    The storage service's reply (its status and the URL of its JSON body) is
    an input, as is whether the database insert fails. */
module UploadService {
  import opened Values
  import opened Types
  import opened Store
  import opened UploadMiddleware

  /** The storage service's reply: status, the `file.url` of its JSON body,
      and its body as text. */
  datatype StorageReply = StorageReply(status: int, url: string, text: string)

  const Created := 201

  /** The handle returned to the caller. */
  datatype UploadHandle = UploadHandle(uploadId: Id, url: string, buffer: seq<byte>)

  /** The row `uploadFile` records for a file. */
  function RecordFor(id: Id, file: UploadedFile, bucket: UploadType, url: string, userId: string): UploadRow
  {
    UploadRow(id, file.originalName, file.mimeType, bucket, url, Some(userId))
  }

  /** Null and no row unless the storage service answers 201 and the insert
      succeeds; then exactly one row is appended (name, mime type, bucket
      tag, returned URL, user id) under a fresh id, and the handle carries
      that id and URL. Nothing else in the store changes. */
  function UploadFile(db: Db, file: UploadedFile, bucket: UploadType, userId: string, reply: StorageReply, insertFails: bool): (r: (Option<UploadHandle>, Db))
    ensures r.0.Some? <==> reply.status == Created && !insertFails
    ensures r.0.None? ==> r.1 == db
    ensures r.0.Some? ==>
      && r.1.uploads == db.uploads + [RecordFor(r.0.value.uploadId, file, bucket, reply.url, userId)]
      && r.1.jobs == db.jobs && r.1.applications == db.applications
      && r.0.value.url == reply.url && r.0.value.buffer == file.buffer
    ensures r.0.Some? && IdsBelowCounter(db) ==>
      (forall i :: 0 <= i < |db.uploads| ==> db.uploads[i].id != r.0.value.uploadId) && IdsBelowCounter(r.1)
  {
    if reply.status != Created then (None, db)
    else if insertFails then (None, db)
    else
      var (row, db') := InsertUpload(db, file.originalName, file.mimeType, bucket, reply.url, Some(userId));
      (Some(UploadHandle(row.id, reply.url, file.buffer)), db')
  }

  /** There is no deduplication: uploading the same file twice appends two
      rows with the same contents under different ids. */
  lemma NoDeduplication(db: Db, file: UploadedFile, bucket: UploadType, userId: string, reply: StorageReply)
    requires reply.status == Created
    requires IdsBelowCounter(db)
    ensures var (h1, db1) := UploadFile(db, file, bucket, userId, reply, false);
      var (h2, db2) := UploadFile(db1, file, bucket, userId, reply, false);
      && |db2.uploads| == |db.uploads| + 2
      && h1.Some? && h2.Some? && h1.value.uploadId != h2.value.uploadId
      && db2.uploads[|db.uploads|].(id := 0) == db2.uploads[|db.uploads| + 1].(id := 0)
  {
    var (h1, db1) := UploadFile(db, file, bucket, userId, reply, false);
    assert db1.uploads[|db.uploads|].id == h1.value.uploadId;
  }
}
