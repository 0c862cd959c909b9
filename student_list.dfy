/**
 * The student list of one marksheet schema: the schema's mark records, each joined with the
 * student it refers to, and the two changes the page makes to that list.
 */
module StudentList {
  import opened Wrappers
  import opened Seqs
  import opened Records
  import opened Db

  /** A saved entry: a mark record spread together with the student it refers to, if stored. */
  datatype Entry = Entry(mark: Mark, student: Option<Student>)

  predicate OfSchema(schemaId: int, m: Mark)
  {
    m.schemaId == schemaId
  }

  /** `marks.where("schemaId").equals(schemaId)`: the schema's marks, in store order. */
  function MarksOf(marks: seq<Mark>, schemaId: int): (r: seq<Mark>)
    ensures forall m :: m in r ==> m in marks && m.schemaId == schemaId
  {
    Filter(marks, m => OfSchema(schemaId, m))
  }

  /** Each mark in turn, joined with `students.get(mark.studentId)`. */
  function WithStudents(ms: seq<Mark>, students: seq<Student>): (r: seq<Entry>)
    ensures |r| == |ms|
    ensures forall i :: 0 <= i < |ms| ==> r[i].mark == ms[i]
    ensures forall i :: 0 <= i < |ms| ==> r[i].student == Find(students, StudentKey, ms[i].studentId)
  {
    if ms == [] then []
    else [Entry(ms[0], Find(students, StudentKey, ms[0].studentId))] + WithStudents(ms[1..], students)
  }

  /** What `loadEntries` puts in the list: the schema's marks, each with its student. */
  function EntriesOf(t: Tables, schemaId: int): (r: seq<Entry>)
    ensures |r| <= |t.marks|
    ensures forall j :: 0 <= j < |r| ==> r[j].mark in t.marks && r[j].mark.schemaId == schemaId
  {
    var ms := MarksOf(t.marks, schemaId);
    var r := WithStudents(ms, t.students);
    assert forall j :: 0 <= j < |r| ==> r[j].mark == ms[j] && ms[j] in ms;
    r
  }

  /**
   * The list holds exactly the schema's marks in store order: entry `j` is taken from
   * position `idx[j]` of the table, the positions increase, and a position is used if and
   * only if its mark belongs to the schema.
   */
  lemma EntriesExact(t: Tables, schemaId: int) returns (idx: seq<nat>)
    ensures |idx| == |EntriesOf(t, schemaId)|
    ensures forall j :: 0 <= j < |idx| ==> idx[j] < |t.marks| && EntriesOf(t, schemaId)[j].mark == t.marks[idx[j]]
    ensures forall j, k :: 0 <= j < k < |idx| ==> idx[j] < idx[k]
    ensures forall i :: 0 <= i < |t.marks| ==> (t.marks[i].schemaId == schemaId <==> i in idx)
  {
    idx := FilterPositions(t.marks, m => OfSchema(schemaId, m));
  }

  /**
   * The student joined to an entry is the stored student with the mark's `studentId`, and
   * is absent exactly when no such student is stored.
   */
  lemma EntryStudent(t: Tables, schemaId: int, j: nat)
    requires UniqueKeys(t.students, StudentKey) && j < |EntriesOf(t, schemaId)|
    ensures var e := EntriesOf(t, schemaId)[j];
      && (e.student.None? <==> e.mark.studentId !in Keys(t.students, StudentKey))
      && (forall i :: 0 <= i < |t.students| && t.students[i].id == e.mark.studentId ==>
            e.student == Some(t.students[i]))
  {
    var e := EntriesOf(t, schemaId)[j];
    forall i | 0 <= i < |t.students| && t.students[i].id == e.mark.studentId
      ensures e.student == Some(t.students[i])
    {
      FindUnique(t.students, StudentKey, i);
    }
  }

  lemma {:induction false} WithStudentsAddOther(ms: seq<Mark>, students: seq<Student>, s: Student)
    requires forall i :: 0 <= i < |ms| ==> ms[i].studentId != s.id
    ensures WithStudents(ms, students + [s]) == WithStudents(ms, students)
  {
    if ms != [] {
      FindAppendOther(students, StudentKey, s, ms[0].studentId);
      WithStudentsAddOther(ms[1..], students, s);
    }
  }

  /**
   * A student added without a mark record, as the marksheet form adds one, leaves the list
   * unchanged unless some stored mark already refers to the new student's key.
   */
  lemma AddedStudentNotListed(t: Tables, s: Student, schemaId: int)
    requires forall i :: 0 <= i < |t.marks| ==> t.marks[i].studentId != s.id
    ensures EntriesOf(t.(students := t.students + [s]), schemaId) == EntriesOf(t, schemaId)
  {
    var ms := MarksOf(t.marks, schemaId);
    forall i | 0 <= i < |ms|
      ensures ms[i].studentId != s.id
    {
      assert ms[i] in ms;
    }
    WithStudentsAddOther(ms, t.students, s);
  }

  /** Every mark names a stored student: what the handlers keep, and an import need not. */
  ghost predicate MarksResolve(t: Tables)
  {
    forall i :: 0 <= i < |t.marks| ==> t.marks[i].studentId in Keys(t.students, StudentKey)
  }

  /**
   * When every mark names a stored student, a student added under a fresh key (as the
   * marksheet form adds one) leaves the list unchanged.
   */
  lemma FreshStudentNotListed(t: Tables, s: Student, schemaId: int)
    requires MarksResolve(t) && FreshKey(t.students, StudentKey, s.id)
    ensures EntriesOf(t.(students := t.students + [s]), schemaId) == EntriesOf(t, schemaId)
  {
    forall i | 0 <= i < |t.marks|
      ensures t.marks[i].studentId != s.id
    {
      var j :| 0 <= j < |t.students| && StudentKey(t.students[j]) == t.marks[i].studentId;
    }
    AddedStudentNotListed(t, s, schemaId);
  }

  /**
   * Without that condition the new student can appear: an imported mark naming a missing
   * student key picks up the student later added under that key.
   */
  lemma DanglingMarkPicksUpNewStudent()
    ensures var t := Tables([], [], [], [], [], [Mark(1, 5, 7, map[])]);
      var s := Student(5, 1, 7, map[], map[]);
      && FreshKey(t.students, StudentKey, s.id)
      && EntriesOf(t, 7) == [Entry(Mark(1, 5, 7, map[]), None)]
      && EntriesOf(t.(students := t.students + [s]), 7) == [Entry(Mark(1, 5, 7, map[]), Some(s))]
  {
    var m := Mark(1, 5, 7, map[]);
    var s := Student(5, 1, 7, map[], map[]);
    assert Filter([m], x => OfSchema(7, x)) == [m] + Filter([], x => OfSchema(7, x));
    assert Find([s], StudentKey, 5) == Some(s);
  }

  class StudentListPage {
    const store: SchoolDb
    const schemaId: int
    var savedEntries: seq<Entry>
    var showForm: bool

    constructor (store: SchoolDb, schemaId: int)
      ensures this.store == store && this.schemaId == schemaId
      ensures savedEntries == [] && !showForm
    {
      this.store := store;
      this.schemaId := schemaId;
      savedEntries, showForm := [], false;
    }

    /** `loadEntries`, run whenever the schema changes: the list is replaced by a fresh load. */
    method LoadEntries()
      modifies this
      ensures savedEntries == EntriesOf(store.State(), schemaId) && showForm == old(showForm)
    {
      savedEntries := WithStudents(MarksOf(store.marks, schemaId), store.students);
    }

    /** "+ Add Student" opens the form. */
    method OpenForm()
      modifies this
      ensures showForm && savedEntries == old(savedEntries)
    {
      showForm := true;
    }

    /** A created entry is appended to the list and the form closes; the store is not read. */
    method HandleCreated(newEntry: Entry)
      modifies this
      ensures savedEntries == old(savedEntries) + [newEntry] && !showForm
    {
      savedEntries := savedEntries + [newEntry];
      showForm := false;
    }
  }
}
