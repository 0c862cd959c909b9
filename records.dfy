/**
 * The record types of the six tables the application's handlers use (schools, media,
 * classes, marksheetSchemas, students, marks), the documents a marksheet schema holds,
 * and a snapshot of all six tables.
 */
module Records {
  import opened Wrappers
  import opened Seqs

  newtype byte = x: int | 0 <= x < 256

  /** A browser Blob: its bytes and the MIME type it records. */
  datatype Blob = Blob(bytes: seq<byte>, mimeType: string)

  function AsciiLower(c: char): char
  {
    if 'A' <= c <= 'Z' then (c as int - 'A' as int + 'a' as int) as char else c
  }

  /**
   * The type a Blob constructor records when asked for type `t` (W3C File API, Blob
   * constructor): the empty string when some character lies outside U+0020..U+007E,
   * otherwise `t` in ASCII lower case.
   */
  function BlobType(t: string): (r: string)
    ensures |r| == 0 || |r| == |t|
    ensures forall i :: 0 <= i < |r| ==> ' ' <= r[i] <= '~' && !('A' <= r[i] <= 'Z')
    ensures (forall i :: 0 <= i < |t| ==> ' ' <= t[i] <= '~') ==>
      |r| == |t| && forall i :: 0 <= i < |t| ==> r[i] == AsciiLower(t[i])
    ensures (exists i :: 0 <= i < |t| && !(' ' <= t[i] <= '~')) ==> r == ""
  {
    if exists i :: 0 <= i < |t| && !(' ' <= t[i] <= '~') then ""
    else seq(|t|, i requires 0 <= i < |t| => AsciiLower(t[i]))
  }

  /** A JSON value, as form data and untyped record parts hold them (numbers as integers). */
  datatype Json =
    | JNull
    | JBool(b: bool)
    | JNumber(n: int)
    | JString(s: string)
    | JArray(items: seq<Json>)
    | JObject(members: map<string, Json>)

  /** A school; `logoBlobId` names a media record. */
  datatype School = School(id: int, name: string, address: string, logoBlobId: Option<string>)

  /**
   * A media asset under a string key. `kind` is the record's `type` attribute ("logo");
   * `blob` is absent in an exported record and `blobBase64` is present only in exported
   * or imported records.
   */
  datatype Media = Media(
    id: string, kind: string, blob: Option<Blob>, fileName: string, mimeType: string,
    blobBase64: Option<string>)

  datatype SchoolClass = SchoolClass(
    id: int, schoolId: int, name: string, stream: Option<string>,
    activeMarksheetSchemaId: Option<int>)

  /** A property definition `{type: ...}` of a schema document. */
  datatype PropDef = PropDef(typ: string)

  /** The `ui:widget` attribute of a UI-hint entry. */
  const UiWidget: string := "ui:widget"

  /** One UI-hint entry (attribute to value) and a UI-hint document (property key to entry). */
  type UiEntry = map<string, string>
  type UiSchema = map<string, UiEntry>

  /** A JSON-Schema-like document: `type`, an optional `properties` map, an optional `required` list. */
  datatype SchemaDoc = SchemaDoc(
    typ: string, properties: Option<map<string, PropDef>>, required: Option<seq<string>>)

  datatype MarksheetSchema = MarksheetSchema(
    id: int, classId: int, name: string, schemaJson: SchemaDoc, uiSchemaJson: Option<UiSchema>)

  datatype Student = Student(
    id: int, classId: int, marksheetSchemaId: int, studentInfo: map<string, Json>,
    marks: map<string, Json>)

  /** A mark record: its keys and the rest of its attributes. */
  datatype Mark = Mark(id: int, studentId: int, schemaId: int, data: map<string, Json>)

  function SchoolKey(s: School): int { s.id }
  function MediaKey(m: Media): string { m.id }
  function ClassKey(c: SchoolClass): int { c.id }
  function SchemaKey(s: MarksheetSchema): int { s.id }
  function StudentKey(s: Student): int { s.id }
  function MarkKey(m: Mark): int { m.id }

  /** The contents of the six tables, each in the order the store returns it. */
  datatype Tables = Tables(
    schools: seq<School>, media: seq<Media>, classes: seq<SchoolClass>,
    marksheetSchemas: seq<MarksheetSchema>, students: seq<Student>, marks: seq<Mark>)

  const EmptyTables: Tables := Tables([], [], [], [], [], [])

  /** Every table is keyed by its primary key: no two records of a table share one. */
  predicate ValidTables(t: Tables)
  {
    && UniqueKeys(t.schools, SchoolKey)
    && UniqueKeys(t.media, MediaKey)
    && UniqueKeys(t.classes, ClassKey)
    && UniqueKeys(t.marksheetSchemas, SchemaKey)
    && UniqueKeys(t.students, StudentKey)
    && UniqueKeys(t.marks, MarkKey)
  }

  /** Every school's logo reference names a stored media record. */
  ghost predicate LogosResolve(t: Tables)
  {
    forall i :: 0 <= i < |t.schools| && t.schools[i].logoBlobId.Some? ==>
      t.schools[i].logoBlobId.value in Keys(t.media, MediaKey)
  }

  /** A media record holds a blob whose type is the one its `mimeType` produces. */
  predicate BlobMatchesMime(m: Media)
  {
    m.blob.Some? && m.blob.value.mimeType == BlobType(m.mimeType)
  }
}
