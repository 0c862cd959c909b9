/**
 * Whole-database backup and restore: export builds an envelope in which each media blob
 * is replaced by its text form; import validates a parsed envelope, decodes the media, and
 * inside one read-write transaction clears all six tables and reloads them.
 */
module ExportImport {
  import opened Wrappers
  import opened Seqs
  import opened Records
  import opened Db

  /**
   * The browser's blob-to-data-URL reader (`encode`) and the data-URL fetch that re-wraps
   * the bytes under a given MIME type (`decode`, which may fail).
   */
  datatype Codec = Codec(encode: Blob -> string, decode: (string, string) -> Option<Blob>)

  /** Decoding an encoded blob under `mime` gives back its bytes, typed as a Blob built with `mime`. */
  ghost predicate Invertible(c: Codec)
  {
    forall b: Blob, mime: string :: c.decode(c.encode(b), mime) == Some(Blob(b.bytes, BlobType(mime)))
  }

  const ExportVersion: int := 2

  datatype Meta = Meta(version: int, exportedAt: string)

  /** The export document. */
  datatype Envelope = Envelope(
    meta: Meta, schools: seq<School>, media: seq<Media>, classes: seq<SchoolClass>,
    marksheetSchemas: seq<MarksheetSchema>, students: seq<Student>, marks: seq<Mark>)

  /** A parsed import document: any member may be missing. */
  datatype Payload = Payload(
    meta: Option<Meta>, schools: Option<seq<School>>, media: Option<seq<Media>>,
    classes: Option<seq<SchoolClass>>, marksheetSchemas: Option<seq<MarksheetSchema>>,
    students: Option<seq<Student>>, marks: Option<seq<Mark>>)

  datatype ExportError = MediaWithoutBlob

  datatype ImportError = InvalidDataFormat | MediaDecodeFailed | TransactionFailed

  /** An exported media record: every field kept, `blobBase64` added, `blob` removed. */
  function ExportMedia(m: Media, codec: Codec): (r: Media)
    requires m.blob.Some?
    ensures r.blob.None? && r.blobBase64 == Some(codec.encode(m.blob.value))
    ensures r.(blob := m.blob, blobBase64 := m.blobBase64) == m
  {
    m.(blobBase64 := Some(codec.encode(m.blob.value)), blob := None)
  }

  /** The export document for the given table contents; fails when some media record has no blob. */
  function ExportSchoolData(t: Tables, codec: Codec, exportedAt: string): (r: Result<Envelope, ExportError>)
    ensures r.Success? <==> forall i :: 0 <= i < |t.media| ==> t.media[i].blob.Some?
    ensures r.Success? ==>
      && r.value.meta == Meta(2, exportedAt)
      && r.value.schools == t.schools && r.value.classes == t.classes
      && r.value.marksheetSchemas == t.marksheetSchemas
      && r.value.students == t.students && r.value.marks == t.marks
      && |r.value.media| == |t.media|
    ensures r.Success? ==> forall i :: 0 <= i < |t.media| ==>
      var m, e := t.media[i], r.value.media[i];
      && e.id == m.id && e.kind == m.kind && e.fileName == m.fileName && e.mimeType == m.mimeType
      && e.blob.None? && m.blob.Some? && e.blobBase64 == Some(codec.encode(m.blob.value))
  {
    if forall i :: 0 <= i < |t.media| ==> t.media[i].blob.Some? then
      Success(Envelope(
        Meta(ExportVersion, exportedAt), t.schools,
        seq(|t.media|, i requires 0 <= i < |t.media| => ExportMedia(t.media[i], codec)),
        t.classes, t.marksheetSchemas, t.students, t.marks))
    else
      Failure(MediaWithoutBlob)
  }

  /** The envelope as the import reads it back from its JSON text. */
  function ToPayload(e: Envelope): Payload
  {
    Payload(Some(e.meta), Some(e.schools), Some(e.media), Some(e.classes),
            Some(e.marksheetSchemas), Some(e.students), Some(e.marks))
  }

  /** `base64ToBlob(m.blobBase64, m.mimeType)`; a missing text is fetched as "undefined". */
  function DecodeMedia(m: Media, codec: Codec): (r: Option<Media>)
    ensures r.Some? <==> codec.decode(m.blobBase64.GetOr("undefined"), m.mimeType).Some?
    ensures r.Some? ==>
      r.value.(blob := m.blob) == m && r.value.blob == codec.decode(m.blobBase64.GetOr("undefined"), m.mimeType)
  {
    match codec.decode(m.blobBase64.GetOr("undefined"), m.mimeType)
    case None => None
    case Some(b) => Some(m.(blob := Some(b)))
  }

  /** Decoding every media record; fails when one fails. */
  function DecodeAll(ms: seq<Media>, codec: Codec): (r: Option<seq<Media>>)
    ensures r.Some? <==> forall i :: 0 <= i < |ms| ==> DecodeMedia(ms[i], codec).Some?
    ensures r.Some? ==> |r.value| == |ms| && forall i :: 0 <= i < |ms| ==>
      && r.value[i] == ms[i].(blob := r.value[i].blob)
      && r.value[i].blob == codec.decode(ms[i].blobBase64.GetOr("undefined"), ms[i].mimeType)
  {
    if ms == [] then Some([])
    else
      assert forall i :: 1 <= i < |ms| ==> ms[i] == ms[1..][i - 1];
      match DecodeMedia(ms[0], codec)
      case None => None
      case Some(m) =>
        match DecodeAll(ms[1..], codec)
        case None => None
        case Some(rest) => Some([m] + rest)
  }

  /**
   * What an import leaves in the tables, or why it fails. The first two errors arise before
   * the transaction; a missing array or a duplicate key makes a bulk add fail inside it.
   */
  function ImportPlan(data: Payload, codec: Codec): (r: Result<Tables, ImportError>)
    ensures r == Failure(InvalidDataFormat) <==> data.schools.None? || data.media.None?
    ensures r == Failure(MediaDecodeFailed) <==>
      data.schools.Some? && data.media.Some? && DecodeAll(data.media.value, codec).None?
    ensures r.Success? ==>
      && ValidTables(r.value)
      && Some(r.value.schools) == data.schools && Some(r.value.classes) == data.classes
      && Some(r.value.marksheetSchemas) == data.marksheetSchemas
      && Some(r.value.students) == data.students && Some(r.value.marks) == data.marks
      && Some(r.value.media) == DecodeAll(data.media.value, codec)
  {
    if data.schools.None? || data.media.None? then Failure(InvalidDataFormat)
    else
      match DecodeAll(data.media.value, codec)
      case None => Failure(MediaDecodeFailed)
      case Some(media) =>
        if data.classes.None? || data.marksheetSchemas.None? || data.students.None? || data.marks.None?
        then Failure(TransactionFailed)
        else
          var t := Tables(data.schools.value, media, data.classes.value, data.marksheetSchemas.value,
                          data.students.value, data.marks.value);
          if ValidTables(t) then Success(t) else Failure(TransactionFailed)
  }

  /** The tables an import reloads, when every array is present. */
  function Reloaded(data: Payload, media: seq<Media>): Option<Tables>
  {
    if data.schools.None? || data.classes.None? || data.marksheetSchemas.None? || data.students.None? || data.marks.None?
    then None
    else Some(Tables(data.schools.value, media, data.classes.value, data.marksheetSchemas.value,
                     data.students.value, data.marks.value))
  }

  /**
   * The body of the transaction: clear all six tables, then bulk add each array. The source
   * starts the six bulk adds together; once one fails the transaction aborts and rolls back, so
   * which of them ran first does not matter and the model stops at the first one that fails. It
   * succeeds when every array is present and no two records of a table share a key.
   */
  method ClearAndReload(store: SchoolDb, data: Payload, media: seq<Media>) returns (ok: bool)
    requires store.Valid()
    modifies store
    ensures store.Valid()
    ensures ok <==> Reloaded(data, media).Some? && ValidTables(Reloaded(data, media).value)
    ensures ok ==> store.State() == Reloaded(data, media).value
  {
    store.ClearAll();
    ok := store.BulkAddSchools(data.schools);
    if !ok { return; }
    assert store.schools == data.schools.value;
    ok := store.BulkAddMedia(Some(media));
    if !ok { return; }
    assert store.media == media;
    ok := store.BulkAddClasses(data.classes);
    if !ok { return; }
    assert store.classes == data.classes.value;
    ok := store.BulkAddSchemas(data.marksheetSchemas);
    if !ok { return; }
    assert store.marksheetSchemas == data.marksheetSchemas.value;
    ok := store.BulkAddStudents(data.students);
    if !ok { return; }
    assert store.students == data.students.value;
    ok := store.BulkAddMarks(data.marks);
    if !ok { return; }
    assert store.marks == data.marks.value;
  }

  /**
   * The import: validation, then decoding outside the transaction, then clear and bulk add
   * inside it. `storageFault` stands for a failure of the store itself (quota, abort); any
   * failure inside the transaction rolls all six tables back.
   */
  method ImportSchoolData(store: SchoolDb, data: Payload, codec: Codec, storageFault: bool)
    returns (r: Outcome<ImportError>)
    requires store.Valid()
    modifies store
    ensures store.Valid()
    ensures ImportPlan(data, codec).Failure? ==> r == Fail(ImportPlan(data, codec).error)
    ensures ImportPlan(data, codec).Success? ==> (r.Pass? <==> !storageFault)
    ensures r.Pass? ==> ImportPlan(data, codec).Success? && store.State() == ImportPlan(data, codec).value
    ensures r.Fail? ==> store.State() == old(store.State())
  {
    if data.schools.None? || data.media.None? {
      return Fail(InvalidDataFormat);
    }
    var decoded := DecodeAll(data.media.value, codec);
    if decoded.None? {
      return Fail(MediaDecodeFailed);
    }
    // one read-write transaction over the six tables
    var snapshot := store.State();
    var ok := ClearAndReload(store, data, decoded.value);
    if ok && !storageFault {
      r := Pass;
    } else {
      store.Rollback(snapshot);
      r := Fail(TransactionFailed);
    }
  }

  /** A media record after export and import: blob re-typed by its `mimeType`, `blobBase64` kept. */
  function RestoredMedia(m: Media, codec: Codec): Media
    requires m.blob.Some?
  {
    m.(blob := Some(Blob(m.blob.value.bytes, BlobType(m.mimeType))),
       blobBase64 := Some(codec.encode(m.blob.value)))
  }

  /**
   * Export then import restores every non-media table exactly, and each media record with its
   * blob passed through decode after encode and with the `blobBase64` text added.
   */
  lemma {:induction false} ExportThenImport(t: Tables, codec: Codec, exportedAt: string)
    requires ValidTables(t) && Invertible(codec)
    requires forall i :: 0 <= i < |t.media| ==> t.media[i].blob.Some?
    ensures var plan := ImportPlan(ToPayload(ExportSchoolData(t, codec, exportedAt).value), codec);
      && plan.Success?
      && plan.value.schools == t.schools && plan.value.classes == t.classes
      && plan.value.marksheetSchemas == t.marksheetSchemas
      && plan.value.students == t.students && plan.value.marks == t.marks
      && |plan.value.media| == |t.media|
      && forall i :: 0 <= i < |t.media| ==> plan.value.media[i] == RestoredMedia(t.media[i], codec)
  {
    var env := ExportSchoolData(t, codec, exportedAt).value;
    var restored := seq(|t.media|, i requires 0 <= i < |t.media| => RestoredMedia(t.media[i], codec));
    forall i | 0 <= i < |t.media|
      ensures DecodeMedia(env.media[i], codec) == Some(restored[i])
    {
      var b := t.media[i].blob.value;
      assert codec.decode(codec.encode(b), t.media[i].mimeType) == Some(Blob(b.bytes, BlobType(t.media[i].mimeType)));
    }
    var decoded := DecodeAll(env.media, codec);
    assert decoded.Some?;
    forall i | 0 <= i < |t.media| ensures decoded.value[i] == restored[i] {
      assert decoded.value[i].blob == Some(Blob(t.media[i].blob.value.bytes, BlobType(t.media[i].mimeType)));
    }
    assert decoded.value == restored;
    assert forall i :: 0 <= i < |restored| ==> MediaKey(restored[i]) == MediaKey(t.media[i]);
    var t' := Tables(t.schools, restored, t.classes, t.marksheetSchemas, t.students, t.marks);
    assert ValidTables(t');
  }

  /**
   * Media records whose blob type is the one their `mimeType` gives (as the school form
   * writes them) come back unchanged apart from the added `blobBase64` text.
   */
  lemma ExportThenImportMatchingBlobs(t: Tables, codec: Codec, exportedAt: string)
    requires ValidTables(t) && Invertible(codec)
    requires forall i :: 0 <= i < |t.media| ==> t.media[i].blob.Some? && BlobMatchesMime(t.media[i])
    ensures var plan := ImportPlan(ToPayload(ExportSchoolData(t, codec, exportedAt).value), codec);
      && plan.Success? && |plan.value.media| == |t.media|
      && forall i :: 0 <= i < |t.media| ==>
           plan.value.media[i].(blobBase64 := t.media[i].blobBase64) == t.media[i]
  {
    ExportThenImport(t, codec, exportedAt);
  }
}
