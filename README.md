# Student report card: a verified model of its data handlers

The application keeps every school's data in the browser's IndexedDB through Dexie. Its
handlers use six tables: schools, media (logos), classes, marksheet schemas, students and
marks (only four of them are declared; see below). This project models the handlers that write and read those tables, and proves what they leave
behind:

- **Schema builder** (`SchemaBuilder.tsx`): one loop compiles the entered fields into a JSON
  Schema document and a UI-hint document, and the result is stored as a new marksheet schema.
- **Marksheet form** (`MarksheetForm.tsx`): it loads a schema and drops the UI widgets that do
  not fit a property's type. On submit it stores one student record.
- **Export and import** (`exportImport.ts`): export builds an envelope of all six tables with
  each logo blob replaced by its text form. Import validates the envelope and decodes the
  logos. Then, in one transaction, it clears the six tables and bulk-adds every array.
- **School form** (`SchoolForm.tsx`): it stores an optional logo under `logo_<milliseconds>`,
  then adds the school that refers to it.
- **Class manager** (`ClassManager.tsx`): it adds a class with a non-empty name and reloads
  the school's classes.
- **Student list** (`StudentList.tsx`): it loads the marks of one schema, each joined with its
  student, and appends created entries.

The store is the class `Db.SchoolDb`, with one `seq` field per table. A sequence's order is
the order of insertion, which is Dexie's primary-key order for the auto-increment tables
(see "## Left out" for the media table).
Its invariant `Valid()` says that no two records of a table share a primary key. An
auto-increment key is a `freshId` argument above every key in its table: the next value
Dexie's generator hands out. `put` is `Seqs.Upsert`. A `bulkAdd` fails on a missing array
or a duplicate key. Each page is a class whose fields are the component's React state. Its
handlers are methods that state the new page state and the new store state.

The TypeScript declaration of the Dexie store in `report-card/src/bd/db.ts:76-91` lists only
four tables: schools, media, classes and marksheetSchemas. The handlers also use `students`
and `marks`. As written, `db.students` and `db.marks` are therefore undefined
properties of the database object. Every use of them throws a TypeError: the export
(`exportImport.ts:31-32`), the import transaction's table list (`exportImport.ts:85`), the
marksheet form's submit (`MarksheetForm.tsx:22`) and the student list's load
(`StudentList.tsx:30,35`). So in the code as it stands, export, import, student submit and
the student list all fail. The model describes the behaviour these handlers are written
for: the store gives all six tables, as the handlers and the import transaction use them. The mark record's shape (`id`, `studentId`, `schemaId`, data) comes
from how `StudentList.tsx` queries it.

These parts of the system are parameters of the model:

- **Time.** `Date.now()` and `new Date().toISOString()` are the arguments `now` and
  `exportedAt`.
- **Route parameters.** They arrive already converted by `Number(...)`, as `schemaId`,
  `schoolId` and `classId`.
- **Base64.** The blob-to-data-URL reader and the data-URL fetch are the pair of functions in
  `ExportImport.Codec`. The round-trip lemmas assume exactly one thing about them
  (`ExportImport.Invertible`): decoding an encoded blob under a MIME type gives the same bytes
  in a Blob built with that type.
- **Store failures.** A fault of the store itself, such as quota exhaustion or an abort, is
  the argument `storageFault`.
- **Blob types.** The constructor `new Blob(parts, {type})` normalises the type, as the W3C
  File API specifies for the Blob constructor: the type is dropped when a character lies
  outside U+0020..U+007E, and otherwise lower-cased. `Records.BlobType` models it.

Some results worth knowing:

- **Logos round-trip only when their type is clean.** Export followed by import restores the
  five non-media tables exactly (`ExportImport.ExportThenImport`). Each media record comes
  back with its blob re-typed by its `mimeType`. Logos stored by the school form already
  carry that type (`SchoolForm.SchoolFormPage.HandleSubmit` keeps `AllBlobsMatch`). So for
  them the round trip changes nothing but the added `blobBase64` text
  (`ExportImport.ExportThenImportMatchingBlobs`).
- **A form-submitted student does not appear in the list.** The marksheet form writes a
  student and never a mark, while the student list shows marks. So a student added by the
  form leaves the list unchanged, provided no stored mark already names the new student's
  key (`StudentList.AddedStudentNotListed`). The handlers never write such a dangling mark, so
  when every mark names a stored student the list is unchanged
  (`StudentList.FreshStudentNotListed`). The import checks no references, though. An imported
  mark that names a missing student key picks up the student later added under that key
  (`StudentList.DanglingMarkPicksUpNewStudent`). The list page hands the form an
  `onCreated` callback that the form never calls.
- **Widgets across the two pages.** The builder offers `text`, `updown` and `checkbox` for
  every type. The form keeps one of these widgets exactly when it belongs to the property's
  type (`MarksheetForm.BuilderWidgetSurvives`).
- **Same-millisecond logos collide.** Two logos saved in the same millisecond get the same
  media key, and the second `put` overwrites the first. Different milliseconds always give
  different keys (`SchoolForm.LogoIdInjective`).

## Model

| member | source | states |
|---|---|---|
| Seqs.Filter | report-card/src/pages/ClassManager.tsx:17 | an indexed `where(...).equals(v)` query returns only records of the table that match |
| Seqs.FilterPositions | report-card/src/pages/ClassManager.tsx:17 | the query result is the records at exactly the matching positions, in table order |
| Seqs.FilterAppend | report-card/src/pages/ClassManager.tsx:28 | querying a table that grew by some records gives the old result, then the matches among the new ones |
| Seqs.Find | report-card/src/pages/ClassManager.tsx:16 | a primary-key `get` returns a record that has the key, and returns nothing exactly when no record has it |
| Seqs.FindUnique | report-card/src/pages/StudentList.tsx:35 | when keys are unique, `get` on a record's key returns that record |
| Seqs.FindAppendOther | report-card/src/pages/StudentList.tsx:35 | a record added under another key does not change what `get` returns |
| Seqs.AppendFresh | report-card/src/bd/db.ts:87-90 | adding a record keyed by the auto-increment generator keeps keys unique and adds exactly that key |
| Seqs.UpsertReplaces | report-card/src/features/schools/SchoolForm.tsx:19-25 | a `put` whose key is present overwrites that record in place |
| Seqs.UpsertAppends | report-card/src/features/schools/SchoolForm.tsx:19-25 | a `put` whose key is absent appends the record |
| Seqs.UpsertKeys | report-card/src/features/schools/SchoolForm.tsx:19-25 | after a `put`, keys are still unique, the key set gains exactly the record's key, and the record is stored |
| Seqs.UpsertMembers | report-card/src/features/schools/SchoolForm.tsx:19-25 | a `put` brings in no record other than the one it stores |
| Records.BlobType | report-card/src/features/schools/SchoolForm.tsx:15-17 | the type recorded by `new Blob(..., {type})` is empty when some character lies outside U+0020..U+007E, and otherwise is the given type with ASCII upper case lowered, character by character |
| Db.SchoolDb.constructor | report-card/src/bd/db.ts:82-91 | a fresh database opens with all six tables empty, and keys are unique |
| Db.SchoolDb.AddSchool | report-card/src/bd/db.ts:87 | `schools.add` appends one school with a fresh key; the other tables are unchanged and keys stay unique |
| Db.SchoolDb.PutMedia | report-card/src/bd/db.ts:88 | `media.put` inserts or overwrites by string key; the other tables are unchanged |
| Db.SchoolDb.AddClass | report-card/src/bd/db.ts:89 | `classes.add` appends one class with a fresh key; the other tables are unchanged |
| Db.SchoolDb.AddSchema | report-card/src/bd/db.ts:90 | `marksheetSchemas.add` appends one schema with a fresh key; the other tables are unchanged |
| Db.SchoolDb.AddStudent | report-card/src/pages/MarksheetForm.tsx:22-27 | `students.add` appends one student with a fresh key; the other tables are unchanged |
| Db.SchoolDb.ClearAll | report-card/src/utils/exportImport.ts:87-94 | clearing leaves all six tables empty |
| Db.SchoolDb.BulkAddSchools | report-card/src/utils/exportImport.ts:97 | the bulk add succeeds exactly when the array is present and no key repeats, and then appends the array; otherwise nothing changes |
| Db.SchoolDb.BulkAddMedia | report-card/src/utils/exportImport.ts:98 | the same, for media |
| Db.SchoolDb.BulkAddClasses | report-card/src/utils/exportImport.ts:99 | the same, for classes |
| Db.SchoolDb.BulkAddSchemas | report-card/src/utils/exportImport.ts:100 | the same, for marksheet schemas |
| Db.SchoolDb.BulkAddStudents | report-card/src/utils/exportImport.ts:101 | the same, for students |
| Db.SchoolDb.BulkAddMarks | report-card/src/utils/exportImport.ts:102 | the same, for marks |
| Db.SchoolDb.Rollback | report-card/src/utils/exportImport.ts:83-86 | an aborted transaction puts back every table as it was when the transaction began |
| SchemaBuilder.HasWidget | report-card/src/pages/SchemaBuilder.tsx:40 | definition: the `if (field.widget)` test, a widget that is set and not the empty string |
| SchemaBuilder.PropertiesOf | report-card/src/pages/SchemaBuilder.tsx:37-38 | definition: the `properties` map the loop leaves; every field key is in it and every stored type is `string`, `number` or `boolean` |
| SchemaBuilder.RequiredOf | report-card/src/pages/SchemaBuilder.tsx:39 | definition: the `required` list the loop leaves; it is no longer than the fields, and each entry is the key of a required field |
| SchemaBuilder.UiOf | report-card/src/pages/SchemaBuilder.tsx:40 | definition: the UI document the loop leaves; each entry holds exactly a non-empty `ui:widget` |
| SchemaBuilder.SchemaOf | report-card/src/pages/SchemaBuilder.tsx:29-43 | definition: the stored schema document, of type `object` with the compiled properties; after the delete at line 43 it never holds an empty `required` list |
| SchemaBuilder.PropertiesKeys | report-card/src/pages/SchemaBuilder.tsx:37-38 | the keys of `properties` are exactly the keys of the entered fields |
| SchemaBuilder.PropertiesLastWins | report-card/src/pages/SchemaBuilder.tsx:37-38 | when fields share a key, the last one's type is stored |
| SchemaBuilder.RequiredInInputOrder | report-card/src/pages/SchemaBuilder.tsx:39 | `required` lists the keys of exactly the required fields, in input order, repeats included |
| SchemaBuilder.RequiredEmpty | report-card/src/pages/SchemaBuilder.tsx:39-43 | `required` is empty exactly when no field is required |
| SchemaBuilder.UiKeys | report-card/src/pages/SchemaBuilder.tsx:40 | the UI document has an entry exactly for the keys of fields that set a non-empty widget |
| SchemaBuilder.UiLastWidgetWins | report-card/src/pages/SchemaBuilder.tsx:40 | the entry for a key is `{ui:widget: w}`, where `w` comes from the last field with that key that sets one |
| SchemaBuilder.CompileFields | report-card/src/pages/SchemaBuilder.tsx:29-43 | the loop builds an `object` schema whose properties are the field keys, with `required` deleted exactly when no field is required, and a UI document keyed by the fields with a widget |
| SchemaBuilder.SchemaBuilderPage.constructor | report-card/src/pages/SchemaBuilder.tsx:22 | the page is bound to its store and class, and `onSaved` has not been called |
| SchemaBuilder.SchemaBuilderPage.HandleSave | report-card/src/pages/SchemaBuilder.tsx:28-53 | saving appends one schema with the class id, the name and both compiled documents, changes no other table, and calls `onSaved` once |
| MarksheetForm.ValidWidgets | report-card/src/pages/MarksheetForm.tsx:40-44 | definition: the widget lists; a list exists exactly for `string`, `number` and `boolean`, and holds at least two non-empty names |
| MarksheetForm.Allowed | report-card/src/pages/MarksheetForm.tsx:46 | definition: `validWidgets[type]?.includes(widget)` is truthy; an allowed widget is never the empty string |
| MarksheetForm.Rejects | report-card/src/pages/MarksheetForm.tsx:46 | definition: the guard of the delete, a truthy widget that the type does not allow |
| MarksheetForm.CleanUi | report-card/src/pages/MarksheetForm.tsx:34-49 | cleaning keeps every entry, and each entry either stays as it was or loses only its `ui:widget`, which happens only to a truthy widget its property's type does not allow; any truthy widget left on a listed type is allowed for it; an unlisted type keeps no truthy widget; entries without a property, or a schema without properties, are untouched |
| MarksheetForm.CleanIdempotent | report-card/src/pages/MarksheetForm.tsx:34-49 | cleaning an already cleaned document changes nothing |
| MarksheetForm.CleanUiSchema | report-card/src/pages/MarksheetForm.tsx:34-49 | the loop over the schema's properties yields the cleaned document, whatever order it visits the keys in |
| MarksheetForm.BuilderWidgetSurvives | report-card/src/pages/MarksheetForm.tsx:40-48 | for a schema saved by the builder, a key's widget survives cleaning exactly when it is `text` on a string, `updown` on a number or `checkbox` on a boolean |
| MarksheetForm.MarksheetFormPage.constructor | report-card/src/pages/MarksheetForm.tsx:8-11 | the page starts with no schema and no form data |
| MarksheetForm.MarksheetFormPage.LoadSchema | report-card/src/pages/MarksheetForm.tsx:13-17 | the loaded schema is the one stored under the route's id, or none |
| MarksheetForm.MarksheetFormPage.PrepareUiSchema | report-card/src/pages/MarksheetForm.tsx:33-49 | with no schema there is nothing to render; otherwise it returns the cleaned UI document, and the loaded schema's own UI document (a shallow copy) ends up equal to it |
| MarksheetForm.MarksheetFormPage.HandleSubmit | report-card/src/pages/MarksheetForm.tsx:19-30 | with no schema nothing changes; otherwise it appends one student with the schema's class, the schema id, the form data and empty marks, and remembers the data |
| ExportImport.ExportMedia | report-card/src/utils/exportImport.ts:37-42 | definition: an exported media record has no blob, holds the blob's text form, and keeps every other field |
| ExportImport.ExportSchoolData | report-card/src/utils/exportImport.ts:18-56 | export succeeds exactly when every media record has a blob; the envelope's meta is version 2 with the given time; five tables are copied as they are; each media record keeps its fields, loses its blob and gains the blob's text form |
| ExportImport.DecodeAll | report-card/src/utils/exportImport.ts:75-80 | decoding succeeds exactly when every record decodes; each record then differs from its input only in the blob, which decodes its text (missing text reads as "undefined") under its `mimeType` |
| ExportImport.DecodeMedia | report-card/src/utils/exportImport.ts:76-79 | definition: decoding one record succeeds exactly when its text decodes under its `mimeType`, and then changes only the blob |
| ExportImport.ImportPlan | report-card/src/utils/exportImport.ts:68-105 | definition: what an import leaves or why it fails; `InvalidDataFormat` exactly when `schools` or `media` is missing, `MediaDecodeFailed` exactly when a logo does not decode, and on success tables with unique keys equal to the arrays and the decoded media |
| ExportImport.ClearAndReload | report-card/src/utils/exportImport.ts:86-104 | the transaction body succeeds exactly when every array is present and each table's keys are unique, and then leaves the tables equal to the arrays |
| ExportImport.ImportSchoolData | report-card/src/utils/exportImport.ts:68-106 | a missing `schools` or `media` array fails before the transaction, and so does a logo that does not decode; a failure inside the transaction leaves all six tables as they were; success leaves exactly the planned tables |
| ExportImport.ExportThenImport | report-card/src/utils/exportImport.ts:18-106 | importing an export restores schools, classes, schemas, students and marks exactly, and each media record with its blob re-typed by its `mimeType` and its `blobBase64` kept |
| ExportImport.ExportThenImportMatchingBlobs | report-card/src/utils/exportImport.ts:18-106 | media whose blob already has its record's type come back unchanged apart from `blobBase64` |
| SchoolForm.NatToString | report-card/src/features/schools/SchoolForm.tsx:14 | a millisecond count renders as a non-empty string of decimal digits |
| SchoolForm.NatToStringNoLeadingZero | report-card/src/features/schools/SchoolForm.tsx:14 | the rendering has no leading zero, unless the number is zero |
| SchoolForm.NatToStringInjective | report-card/src/features/schools/SchoolForm.tsx:14 | different numbers render differently |
| SchoolForm.LogoId | report-card/src/features/schools/SchoolForm.tsx:14 | a logo key starts with `logo_` |
| SchoolForm.LogoIdInjective | report-card/src/features/schools/SchoolForm.tsx:14 | logos saved at different milliseconds get different keys |
| SchoolForm.LogoMedia | report-card/src/features/schools/SchoolForm.tsx:15-25 | the logo record has kind `logo`, the file's name and type, and its bytes in a Blob whose type is the normalised file type |
| SchoolForm.PutKeepsLogosResolved | report-card/src/features/schools/SchoolForm.tsx:19-25 | putting a logo keeps every school's logo reference resolvable, and makes the new key resolvable |
| SchoolForm.AddKeepsLogosResolved | report-card/src/features/schools/SchoolForm.tsx:28-32 | adding a school whose reference resolves keeps all references resolvable |
| SchoolForm.PutKeepsBlobsMatching | report-card/src/features/schools/SchoolForm.tsx:15-25 | putting a logo whose blob matches its type keeps that true of every media record |
| SchoolForm.SchoolFormPage.constructor | report-card/src/features/schools/SchoolForm.tsx:4-7 | the form starts empty, with no logo |
| SchoolForm.SchoolFormPage.HandleSubmit | report-card/src/features/schools/SchoolForm.tsx:9-38 | with a logo, it puts the logo record and adds the school referring to it; without one, it adds the school with no reference; no other table changes; references stay resolvable and blobs stay typed by their records; the form resets and `onCreated` is called once |
| ClassManager.ClassesOf | report-card/src/pages/ClassManager.tsx:17 | the query returns only classes of the table with the school's id |
| ClassManager.ClassesOfExact | report-card/src/pages/ClassManager.tsx:17 | the result holds exactly the school's classes, in table order |
| ClassManager.ClassesOfAppend | report-card/src/pages/ClassManager.tsx:23-29 | after a class is added, the school's list is the old list followed by the new class when it belongs to the school |
| ClassManager.ClassManagerPage.constructor | report-card/src/pages/ClassManager.tsx:6-10 | the page starts with no school, no classes and an empty name |
| ClassManager.ClassManagerPage.Load | report-card/src/pages/ClassManager.tsx:14-19 | the page shows the school stored under the id, present exactly when one is stored, and that school's classes |
| ClassManager.ClassManagerPage.HandleAddClass | report-card/src/pages/ClassManager.tsx:21-30 | an empty name changes nothing; otherwise it appends one class of the school, clears the name, and shows the school's old classes followed by the new one |
| StudentList.MarksOf | report-card/src/pages/StudentList.tsx:30 | the query returns only marks of the table with the schema's id |
| StudentList.WithStudents | report-card/src/pages/StudentList.tsx:33-38 | entry `i` spreads mark `i` and carries the student that `get` finds for its `studentId` |
| StudentList.EntriesOf | report-card/src/pages/StudentList.tsx:29-40 | every loaded entry holds a stored mark of the schema |
| StudentList.EntriesExact | report-card/src/pages/StudentList.tsx:29-40 | the entries hold exactly the schema's marks, in table order |
| StudentList.EntryStudent | report-card/src/pages/StudentList.tsx:35-36 | an entry's student is the stored student with the mark's `studentId`, and is absent exactly when no such student exists |
| StudentList.AddedStudentNotListed | report-card/src/pages/StudentList.tsx:29-40 | adding a student that no mark refers to, as the marksheet form does, leaves the loaded list unchanged |
| StudentList.FreshStudentNotListed | report-card/src/pages/StudentList.tsx:29-40 | when every mark names a stored student, a student added under a fresh key leaves the loaded list unchanged |
| StudentList.DanglingMarkPicksUpNewStudent | report-card/src/pages/StudentList.tsx:35-36 | a mark naming a missing student key picks up the student later added under that fresh key |
| StudentList.StudentListPage.constructor | report-card/src/pages/StudentList.tsx:23-26 | the page starts with an empty list and the form closed |
| StudentList.StudentListPage.LoadEntries | report-card/src/pages/StudentList.tsx:28-43 | loading replaces the list with the schema's entries and leaves the form flag alone |
| StudentList.StudentListPage.OpenForm | report-card/src/pages/StudentList.tsx:67 | "+ Add Student" opens the form and keeps the list |
| StudentList.StudentListPage.HandleCreated | report-card/src/pages/StudentList.tsx:45-50 | a created entry is appended to the list and the form closes |

## Left out

- Rendering, Formik's field arrays, the rjsf form and its ajv validation are not modelled. The
  model receives the values they produce: a `SchemaFormValues`, the submitted form data, the
  chosen name and file.
- JSON text is not modelled. The import starts from the parsed document (`ExportImport.Payload`),
  whose members are assumed to be well-typed: each is missing or an array of records of its
  table. A truthy `media` that is not an array makes `data.media.map` throw before the
  transaction (`exportImport.ts:76`), and so do other ill-typed members. The model cannot
  represent that case. The export ends at the envelope: `JSON.stringify`, the download link, `file.text()` and
  `JSON.parse` are left out. A number is an integer (`Records.Json`); JSON floating point is
  not modelled.
- Blob I/O is the codec parameter. `FileReader`, `fetch` of a data URL and
  `logoFile.arrayBuffer()` are not modelled. The file's bytes arrive in `SchoolForm.LogoFile`.
- Promises run one after another in the model. `Promise.all` in the export, the import and the
  student list's join is modelled as sequential. It reads a store that nothing else changes
  meanwhile, so the results are the same.
- ExportImport.ClearAndReload: Dexie may store part of the arrays before a bulk add aborts.
  The model does not show that intermediate state, because the abort rolls it back anyway.
- ExportImport.ImportSchoolData: `meta` and its version are read but never checked, as in the
  source.
- A `put` or `add` that fails on storage, outside the import transaction, is not modelled.
- Table order is insertion order. For the auto-increment keys the handlers add, that is
  Dexie's primary-key order. Imported records keep the order of their arrays, where Dexie would
  sort them by key. The media table has string keys: `Seqs.Upsert` appends a new key at the
  end, while Dexie returns media sorted by key. The two orders agree only for `logo_` keys of
  equal width written in clock order. No property proved here depends on that order beyond
  the list and query lemmas.
- A route parameter that is not a number (`Number(...)` giving NaN) is not modelled: such an id
  matches no record. The `if (schemaId)` and `if (schoolId)` guards are not modelled either,
  because the routes always supply the parameter.
- MarksheetForm.CleanUi: a property whose TYPE is the name of an `Object.prototype` member
  (`toString`, `constructor`) is not modelled. For such a type, `validWidgets[type]` finds the
  inherited function; with a truthy widget, `?.includes` is undefined on it, and calling it
  throws a TypeError during rendering (`MarksheetForm.tsx:46`). A property with no `type` is
  not modelled either. It reads `validWidgets["undefined"]` and behaves like an unlisted type,
  so its truthy widget is dropped.
- JavaScript object key order and the `__proto__` key are not modelled. JSON objects are maps.
- SchemaBuilder.SchemaBuilderPage.HandleSave: a field with an empty key or a key that repeats
  is stored as the loop leaves it. Formik's `required` inputs are not modelled.
- `defaultFrames`, declared on the marksheet schema record in `report-card/src/bd/db.ts:73`, is
  never written by the modelled handlers and is not modelled.
- The navigation in `ClassManager.tsx` and the print button in `StudentList.tsx` are not
  modelled.
- Callbacks are counters. `onSaved` and `onCreated` are counted on the page objects; what the
  parent page does in them is not modelled. The `onCreated` and `onCancel` that `StudentList.tsx`
  passes to the marksheet form are never called by it: the form takes no props.
