/** The browser database: six tables with the operations the handlers call on them. */
module Db {
  import opened Wrappers
  import opened Seqs
  import opened Records

  class SchoolDb {
    var schools: seq<School>
    var media: seq<Media>
    var classes: seq<SchoolClass>
    var marksheetSchemas: seq<MarksheetSchema>
    var students: seq<Student>
    var marks: seq<Mark>

    /** A snapshot of all six tables. */
    function State(): Tables
      reads this
    {
      Tables(schools, media, classes, marksheetSchemas, students, marks)
    }

    ghost predicate Valid()
      reads this
    {
      ValidTables(State())
    }

    constructor ()
      ensures Valid() && State() == EmptyTables
    {
      schools, media, classes := [], [], [];
      marksheetSchemas, students, marks := [], [], [];
    }

    /** `schools.add`: the record carries the key the generator handed out. */
    method AddSchool(s: School)
      requires Valid() && FreshKey(schools, SchoolKey, s.id)
      modifies this
      ensures Valid()
      ensures State() == old(State()).(schools := old(schools) + [s])
    {
      AppendFresh(schools, SchoolKey, s);
      schools := schools + [s];
    }

    /** `media.put`: overwrites the record with the same key, or inserts. */
    method PutMedia(m: Media)
      requires Valid()
      modifies this
      ensures Valid()
      ensures State() == old(State()).(media := Upsert(old(media), MediaKey, m))
    {
      UpsertKeys(media, MediaKey, m);
      media := Upsert(media, MediaKey, m);
    }

    /** `classes.add`. */
    method AddClass(c: SchoolClass)
      requires Valid() && FreshKey(classes, ClassKey, c.id)
      modifies this
      ensures Valid()
      ensures State() == old(State()).(classes := old(classes) + [c])
    {
      AppendFresh(classes, ClassKey, c);
      classes := classes + [c];
    }

    /** `marksheetSchemas.add`. */
    method AddSchema(s: MarksheetSchema)
      requires Valid() && FreshKey(marksheetSchemas, SchemaKey, s.id)
      modifies this
      ensures Valid()
      ensures State() == old(State()).(marksheetSchemas := old(marksheetSchemas) + [s])
    {
      AppendFresh(marksheetSchemas, SchemaKey, s);
      marksheetSchemas := marksheetSchemas + [s];
    }

    /** `students.add`. */
    method AddStudent(s: Student)
      requires Valid() && FreshKey(students, StudentKey, s.id)
      modifies this
      ensures Valid()
      ensures State() == old(State()).(students := old(students) + [s])
    {
      AppendFresh(students, StudentKey, s);
      students := students + [s];
    }

    /** `clear` on all six tables. */
    method ClearAll()
      modifies this
      ensures Valid() && State() == EmptyTables
    {
      schools, media, classes := [], [], [];
      marksheetSchemas, students, marks := [], [], [];
    }

    /** `schools.bulkAdd`: fails on a missing array or when two records would share a key. */
    method BulkAddSchools(rs: Option<seq<School>>) returns (ok: bool)
      requires Valid()
      modifies this
      ensures Valid()
      ensures ok == (rs.Some? && UniqueKeys(old(schools) + rs.value, SchoolKey))
      ensures schools == if ok then old(schools) + rs.value else old(schools)
      ensures media == old(media) && classes == old(classes) && marksheetSchemas == old(marksheetSchemas) && students == old(students) && marks == old(marks)
    {
      ok := rs.Some? && UniqueKeys(schools + rs.value, SchoolKey);
      if ok { schools := schools + rs.value; }
    }

    /** `media.bulkAdd`. */
    method BulkAddMedia(rs: Option<seq<Media>>) returns (ok: bool)
      requires Valid()
      modifies this
      ensures Valid()
      ensures ok == (rs.Some? && UniqueKeys(old(media) + rs.value, MediaKey))
      ensures media == if ok then old(media) + rs.value else old(media)
      ensures schools == old(schools) && classes == old(classes) && marksheetSchemas == old(marksheetSchemas) && students == old(students) && marks == old(marks)
    {
      ok := rs.Some? && UniqueKeys(media + rs.value, MediaKey);
      if ok { media := media + rs.value; }
    }

    /** `classes.bulkAdd`. */
    method BulkAddClasses(rs: Option<seq<SchoolClass>>) returns (ok: bool)
      requires Valid()
      modifies this
      ensures Valid()
      ensures ok == (rs.Some? && UniqueKeys(old(classes) + rs.value, ClassKey))
      ensures classes == if ok then old(classes) + rs.value else old(classes)
      ensures schools == old(schools) && media == old(media) && marksheetSchemas == old(marksheetSchemas) && students == old(students) && marks == old(marks)
    {
      ok := rs.Some? && UniqueKeys(classes + rs.value, ClassKey);
      if ok { classes := classes + rs.value; }
    }

    /** `marksheetSchemas.bulkAdd`. */
    method BulkAddSchemas(rs: Option<seq<MarksheetSchema>>) returns (ok: bool)
      requires Valid()
      modifies this
      ensures Valid()
      ensures ok == (rs.Some? && UniqueKeys(old(marksheetSchemas) + rs.value, SchemaKey))
      ensures marksheetSchemas == if ok then old(marksheetSchemas) + rs.value else old(marksheetSchemas)
      ensures schools == old(schools) && media == old(media) && classes == old(classes) && students == old(students) && marks == old(marks)
    {
      ok := rs.Some? && UniqueKeys(marksheetSchemas + rs.value, SchemaKey);
      if ok { marksheetSchemas := marksheetSchemas + rs.value; }
    }

    /** `students.bulkAdd`. */
    method BulkAddStudents(rs: Option<seq<Student>>) returns (ok: bool)
      requires Valid()
      modifies this
      ensures Valid()
      ensures ok == (rs.Some? && UniqueKeys(old(students) + rs.value, StudentKey))
      ensures students == if ok then old(students) + rs.value else old(students)
      ensures schools == old(schools) && media == old(media) && classes == old(classes) && marksheetSchemas == old(marksheetSchemas) && marks == old(marks)
    {
      ok := rs.Some? && UniqueKeys(students + rs.value, StudentKey);
      if ok { students := students + rs.value; }
    }

    /** `marks.bulkAdd`. */
    method BulkAddMarks(rs: Option<seq<Mark>>) returns (ok: bool)
      requires Valid()
      modifies this
      ensures Valid()
      ensures ok == (rs.Some? && UniqueKeys(old(marks) + rs.value, MarkKey))
      ensures marks == if ok then old(marks) + rs.value else old(marks)
      ensures schools == old(schools) && media == old(media) && classes == old(classes) && marksheetSchemas == old(marksheetSchemas) && students == old(students)
    {
      ok := rs.Some? && UniqueKeys(marks + rs.value, MarkKey);
      if ok { marks := marks + rs.value; }
    }

    /** Rolls a read-write transaction back to the snapshot taken when it began. */
    method Rollback(snapshot: Tables)
      requires ValidTables(snapshot)
      modifies this
      ensures Valid() && State() == snapshot
    {
      schools, media, classes := snapshot.schools, snapshot.media, snapshot.classes;
      marksheetSchemas, students, marks := snapshot.marksheetSchemas, snapshot.students, snapshot.marks;
    }
  }
}
