/**
 * The in-memory record store: a module-level list of `Student` records that lives for the
 * lifetime of the process, with append, read-all, lookup by id and clear.
 */
module Store {
  import opened Wrappers

  /** One portfolio record. The four file fields are optional in the record type. */
  datatype Student = Student(
    id: string,
    firstName: string,
    lastName: string,
    address: string,
    phone: string,
    school: string,
    gpa: real,
    talent: string,
    reason: string,
    faculty: string,
    university: string,
    image: Option<string>,
    activities: Option<seq<string>>,
    awards: Option<seq<string>>,
    works: Option<seq<string>>)

  /** Position of the first record whose id is `id`, or `|items|` when there is none. */
  function FirstIndex(items: seq<Student>, id: string): (k: nat)
    ensures k <= |items|
    ensures forall j :: 0 <= j < k ==> items[j].id != id
    ensures k < |items| ==> items[k].id == id
  {
    if items == [] then 0
    else if items[0].id == id then 0
    else 1 + FirstIndex(items[1..], id)
  }

  /** `items.find((s) => s.id === id)`: the earliest record carrying `id`, if any. */
  function Find(items: seq<Student>, id: string): (r: Option<Student>)
    ensures r.None? <==> forall j :: 0 <= j < |items| ==> items[j].id != id
    ensures r.Some? ==> r.value.id == id && exists k :: (0 <= k < |items| && items[k] == r.value
                                                         && forall j :: 0 <= j < k ==> items[j].id != id)
  {
    var k := FirstIndex(items, id);
    if k < |items| then Some(items[k]) else None
  }

  /**
   * Appending a record never changes what an id already present resolves to; an id not
   * present before resolves to the new record exactly when it carries that id.
   */
  lemma {:induction false} FindAfterAppend(items: seq<Student>, s: Student, id: string)
    ensures Find(items + [s], id) ==
      if Find(items, id).Some? then Find(items, id)
      else if s.id == id then Some(s) else None
  {
    FirstIndexAfterAppend(items, s, id);
    var k := FirstIndex(items, id);
    if k < |items| {
      assert (items + [s])[k] == items[k];
    } else {
      assert (items + [s])[|items|] == s;
    }
  }

  lemma {:induction false} FirstIndexAfterAppend(items: seq<Student>, s: Student, id: string)
    ensures FirstIndex(items + [s], id) == FirstIndex(items, id)
      || (FirstIndex(items, id) == |items| && s.id != id && FirstIndex(items + [s], id) == |items| + 1)
  {
    if items != [] {
      assert (items + [s])[1..] == items[1..] + [s];
      FirstIndexAfterAppend(items[1..], s, id);
    }
  }

  /**
   * Ids are not checked for uniqueness: when two records share an id, a lookup of that id
   * never returns a record that stands after the earlier one.
   */
  lemma DuplicateIdResolvesToEarliest(items: seq<Student>, i: nat, j: nat)
    requires i < j < |items| && items[i].id == items[j].id
    ensures FirstIndex(items, items[j].id) <= i
    ensures Find(items, items[j].id) == Some(items[FirstIndex(items, items[j].id)])
  {
  }

  /** The JavaScript array object that holds the records; callers may hold references to it. */
  class StudentList {
    var items: seq<Student>

    constructor ()
      ensures items == []
    {
      items := [];
    }

    /** `Array.prototype.push`: append at the end, in place. */
    method Push(s: Student)
      modifies this
      ensures items == old(items) + [s]
    {
      items := items + [s];
    }
  }

  /** The module state: the `students` binding, which `clearStudents` rebinds. */
  class StudentStore {
    var students: StudentList

    /** Module load: `let students: Student[] = []`. */
    constructor ()
      ensures fresh(students) && students.items == []
    {
      students := new StudentList();
    }

    /** `getStudents`: the live array itself, not a copy. */
    method GetStudents() returns (list: StudentList)
      ensures list == students
    {
      list := students;
    }

    /** `addStudent`: push onto the live array; the binding is not changed. */
    method AddStudent(s: Student)
      modifies students
      ensures students == old(students)
      ensures students.items == old(students.items) + [s]
      ensures |students.items| == |old(students.items)| + 1
      ensures students.items[|students.items| - 1] == s
      ensures forall j :: 0 <= j < |old(students.items)| ==> students.items[j] == old(students.items)[j]
    {
      students.Push(s);
    }

    /** `getStudentById`: the first record with that id, or undefined; reads only. */
    function GetStudentById(id: string): (r: Option<Student>)
      reads this, students
      ensures r.None? <==> forall j :: 0 <= j < |students.items| ==> students.items[j].id != id
      ensures r.Some? ==> r.value.id == id && r.value == students.items[FirstIndex(students.items, id)]
    {
      Find(students.items, id)
    }

    /** `clearStudents`: rebind to a new empty array; the old array is left as it was. */
    method ClearStudents()
      modifies this
      ensures fresh(students) && students.items == []
    {
      students := new StudentList();
    }
  }

  /**
   * An array obtained from `getStudents` is the live one: a later `addStudent` shows
   * through it.
   */
  method AddShowsThroughEarlierReference(store: StudentStore, s: Student) returns (earlier: StudentList)
    modifies store.students
    ensures earlier == store.students
    ensures earlier.items == old(store.students.items) + [s]
  {
    earlier := store.GetStudents();
    store.AddStudent(s);
  }

  /**
   * `clearStudents` rebinds rather than empties: an array obtained before it keeps its
   * contents, while the store reads as empty and every lookup finds nothing.
   */
  method ClearKeepsEarlierReference(store: StudentStore, id: string) returns (earlier: StudentList)
    modifies store
    ensures earlier == old(store.students) && earlier != store.students
    ensures earlier.items == old(store.students.items)
    ensures store.students.items == []
    ensures store.GetStudentById(id).None?
  {
    earlier := store.GetStudents();
    store.ClearStudents();
  }
}
