/** The class management page of one school: the school, its classes, and adding a class. */
module ClassManager {
  import opened Wrappers
  import opened Seqs
  import opened Records
  import opened Db

  predicate InSchool(schoolId: int, c: SchoolClass)
  {
    c.schoolId == schoolId
  }

  /** `classes.where('schoolId').equals(schoolId)`: the classes of one school, in store order. */
  function ClassesOf(classes: seq<SchoolClass>, schoolId: int): (r: seq<SchoolClass>)
    ensures forall c :: c in r ==> c in classes && c.schoolId == schoolId
  {
    Filter(classes, c => InSchool(schoolId, c))
  }

  /**
   * The query result is exactly the classes of the school: the positions it is taken from
   * are increasing, and a position of the table is among them if and only if its class
   * belongs to the school.
   */
  lemma ClassesOfExact(classes: seq<SchoolClass>, schoolId: int) returns (idx: seq<nat>)
    ensures SubsequenceAt(classes, ClassesOf(classes, schoolId), idx)
    ensures forall i :: 0 <= i < |classes| ==> (classes[i].schoolId == schoolId <==> i in idx)
  {
    idx := FilterPositions(classes, c => InSchool(schoolId, c));
  }

  /** Adding a class of the school extends the school's list by that class, at its end. */
  lemma ClassesOfAppend(classes: seq<SchoolClass>, schoolId: int, c: SchoolClass)
    ensures ClassesOf(classes + [c], schoolId) ==
      ClassesOf(classes, schoolId) + (if c.schoolId == schoolId then [c] else [])
  {
    var p := (x: SchoolClass) => InSchool(schoolId, x);
    FilterAppend(classes, [c], p);
    assert Filter([c], p) == (if p(c) then [c] else []) + Filter([], p);
  }

  class ClassManagerPage {
    const store: SchoolDb
    const schoolId: int
    var school: Option<School>
    var classes: seq<SchoolClass>
    var className: string

    constructor (store: SchoolDb, schoolId: int)
      ensures this.store == store && this.schoolId == schoolId
      ensures school.None? && classes == [] && className == ""
    {
      this.store := store;
      this.schoolId := schoolId;
      school, classes, className := None, [], "";
    }

    /** The load on entering the page: the school by its key, and its classes. */
    method Load()
      modifies this
      ensures school == Find(store.schools, SchoolKey, schoolId)
      ensures school.Some? <==> schoolId in Keys(store.schools, SchoolKey)
      ensures school.Some? ==> school.value in store.schools && school.value.id == schoolId
      ensures classes == ClassesOf(store.classes, schoolId) && className == old(className)
    {
      school := Find(store.schools, SchoolKey, schoolId);
      classes := ClassesOf(store.classes, schoolId);
    }

    /**
     * Add a class: nothing happens while the name is empty; otherwise the class is added
     * under the school, the name field is cleared and the list is reloaded, which then equals
     * the school's previous classes followed by the new one.
     */
    method HandleAddClass(freshId: int)
      requires store.Valid() && FreshKey(store.classes, ClassKey, freshId)
      modifies this, store
      ensures store.Valid() && school == old(school)
      ensures old(className) == "" ==>
        store.State() == old(store.State()) && classes == old(classes) && className == ""
      ensures old(className) != "" ==> store.State() == old(store.State()).(
        classes := old(store.classes) + [SchoolClass(freshId, schoolId, old(className), None, None)])
      ensures old(className) != "" ==> className == "" && classes == ClassesOf(store.classes, schoolId)
      ensures old(className) != "" ==> (classes ==
        ClassesOf(old(store.classes), schoolId) + [SchoolClass(freshId, schoolId, old(className), None, None)])
    {
      if className == "" {
        return;
      }
      var c := SchoolClass(freshId, schoolId, className, None, None);
      ClassesOfAppend(store.classes, schoolId, c);
      store.AddClass(c);
      className := "";
      classes := ClassesOf(store.classes, schoolId);
    }
  }
}
