/**
 * The listing: the records loaded from the store once, shown sorted on a copy by GPA or by
 * name, with two buttons that pick the key and flip the direction.
 */
module Table {
  import opened Store
  import opened Sorting

  /** The two values `sortBy` takes. */
  datatype SortKey = Gpa | Name

  /**
   * What the listing needs of `localeCompare`: every two strings are ordered one way or the
   * other, and "comes no later than" is transitive.
   */
  ghost predicate IsComparator(localeCompare: (string, string) -> int) {
    && (forall a, b :: localeCompare(a, b) <= 0 || localeCompare(b, a) <= 0)
    && (forall a, b, c :: localeCompare(a, b) <= 0 && localeCompare(b, c) <= 0 ==> localeCompare(a, c) <= 0)
  }

  /** The name sort key, `${firstName} ${lastName}`.toLowerCase(). */
  function NameKey(s: Student, toLowerCase: string -> string): string {
    toLowerCase(s.firstName + " " + s.lastName)
  }

  /**
   * "The comparator returns <= 0 for (a, b)", for the comparator `sortedStudents` passes to
   * `sort` in the given state: `a.gpa - b.gpa` or its negation, `nameA.localeCompare(nameB)`
   * or `nameB.localeCompare(nameA)`.
   */
  function Precedes(sortBy: SortKey, sortAsc: bool, localeCompare: (string, string) -> int,
                    toLowerCase: string -> string): (Student, Student) -> bool
  {
    match sortBy
    case Gpa =>
      if sortAsc then (a: Student, b: Student) => a.gpa - b.gpa <= 0.0
      else (a: Student, b: Student) => b.gpa - a.gpa <= 0.0
    case Name =>
      if sortAsc then (a: Student, b: Student) => localeCompare(NameKey(a, toLowerCase), NameKey(b, toLowerCase)) <= 0
      else (a: Student, b: Student) => localeCompare(NameKey(b, toLowerCase), NameKey(a, toLowerCase)) <= 0
  }

  /** Each of the four comparators orders every pair and is transitive, in either direction. */
  lemma PrecedesIsTotalPreorder(sortBy: SortKey, sortAsc: bool, localeCompare: (string, string) -> int,
                                toLowerCase: string -> string)
    requires IsComparator(localeCompare)
    ensures TotalPreorder(Precedes(sortBy, sortAsc, localeCompare, toLowerCase))
  {
    var le := Precedes(sortBy, sortAsc, localeCompare, toLowerCase);
    forall a, b ensures le(a, b) || le(b, a) {
      var ka, kb := NameKey(a, toLowerCase), NameKey(b, toLowerCase);
      assert localeCompare(ka, kb) <= 0 || localeCompare(kb, ka) <= 0;
    }
    forall a, b, c | le(a, b) && le(b, c) ensures le(a, c) {
      var ka, kb, kc := NameKey(a, toLowerCase), NameKey(b, toLowerCase), NameKey(c, toLowerCase);
      if sortBy == Name && sortAsc {
        assert localeCompare(ka, kb) <= 0 && localeCompare(kb, kc) <= 0;
      } else if sortBy == Name {
        assert localeCompare(kc, kb) <= 0 && localeCompare(kb, ka) <= 0;
      }
    }
  }

  /** The state of the two buttons: `sortBy` and `sortAsc`. */
  datatype SortState = SortState(sortBy: SortKey, sortAsc: bool)

  /** The state before any click: by GPA, ascending. */
  const InitialSort := SortState(Gpa, true)

  /** A click on the button for `key`: `setSortBy(key)` and `setSortAsc(!sortAsc)`. */
  function Clicked(s: SortState, key: SortKey): SortState {
    SortState(key, !s.sortAsc)
  }

  /** Clicking the same button twice gives back the direction it started with. */
  lemma ClickTwiceRestoresDirection(s: SortState, key: SortKey)
    ensures Clicked(Clicked(s, key), key) == SortState(key, s.sortAsc)
  {
  }

  /**
   * Switching the key does not start it ascending: the direction flips whichever button is
   * clicked, so the first click on "name" after the initial state sorts names descending.
   */
  lemma SwitchingKeyFlipsDirection(s: SortState, key: SortKey)
    requires s.sortBy != key
    ensures Clicked(s, key).sortAsc == !s.sortAsc
    ensures Clicked(InitialSort, Name) == SortState(Name, false)
    ensures Clicked(InitialSort, Gpa) == SortState(Gpa, false)
  {
  }

  /** The arrow shown after a button's label. */
  function Indicator(s: SortState, button: SortKey): (arrow: string)
    ensures arrow == "" <==> button != s.sortBy
    ensures arrow == "\U{2191}" <==> button == s.sortBy && s.sortAsc
    ensures arrow == "\U{2193}" <==> button == s.sortBy && !s.sortAsc
  {
    if s.sortBy == button then (if s.sortAsc then "\U{2191}" else "\U{2193}") else ""
  }

  /** The `StudentTable` component's state. */
  class StudentTable {
    var sortBy: SortKey
    var sortAsc: bool
    /** The array the component's `students` state holds. */
    var students: StudentList
    const localeCompare: (string, string) -> int
    const toLowerCase: string -> string

    ghost function State(): SortState
      reads this
    {
      SortState(sortBy, sortAsc)
    }

    /** First render: by GPA, ascending, over an empty array. */
    constructor (localeCompare: (string, string) -> int, toLowerCase: string -> string)
      ensures State() == InitialSort
      ensures fresh(students) && students.items == []
      ensures this.localeCompare == localeCompare && this.toLowerCase == toLowerCase
    {
      sortBy, sortAsc := Gpa, true;
      students := new StudentList();
      this.localeCompare := localeCompare;
      this.toLowerCase := toLowerCase;
    }

    /** The mount effect, `setStudents(getStudents())`: the component now holds the store's live array. */
    method Mount(store: StudentStore)
      modifies this
      ensures students == store.students
      ensures State() == old(State())
    {
      students := store.GetStudents();
    }

    /** A click on the GPA button or the name button. */
    method Click(key: SortKey)
      modifies this
      ensures State() == Clicked(old(State()), key)
      ensures sortBy == key && sortAsc == !old(sortAsc)
      ensures students == old(students)
    {
      sortBy := key;
      sortAsc := !sortAsc;
    }

    /**
     * `sortedStudents`: a sorted copy of the held array. It holds the same records, and by
     * GPA it is non-decreasing (ascending) or non-increasing (descending); by name, the
     * lower-cased "first last" keys come in `localeCompare` order, or in reverse order.
     * Records that rank equally keep the order they have in the held array.
     */
    function SortedStudents(): (r: seq<Student>)
      reads this, students
      requires IsComparator(localeCompare)
      ensures multiset(r) == multiset(students.items)
      ensures sortBy == Gpa && sortAsc ==> forall i, j :: 0 <= i < j < |r| ==> r[i].gpa <= r[j].gpa
      ensures sortBy == Gpa && !sortAsc ==> forall i, j :: 0 <= i < j < |r| ==> r[i].gpa >= r[j].gpa
      ensures sortBy == Name && sortAsc ==> forall i, j :: 0 <= i < j < |r| ==>
        localeCompare(NameKey(r[i], toLowerCase), NameKey(r[j], toLowerCase)) <= 0
      ensures sortBy == Name && !sortAsc ==> forall i, j :: 0 <= i < j < |r| ==>
        localeCompare(NameKey(r[j], toLowerCase), NameKey(r[i], toLowerCase)) <= 0
      ensures forall z :: TiedWith(r, Precedes(sortBy, sortAsc, localeCompare, toLowerCase), z)
                       == TiedWith(students.items, Precedes(sortBy, sortAsc, localeCompare, toLowerCase), z)
    {
      PrecedesIsTotalPreorder(sortBy, sortAsc, localeCompare, toLowerCase);
      var le := Precedes(sortBy, sortAsc, localeCompare, toLowerCase);
      assert forall z :: TiedWith(Sort(students.items, le), le, z) == TiedWith(students.items, le, z) by {
        forall z ensures TiedWith(Sort(students.items, le), le, z) == TiedWith(students.items, le, z) {
          SortKeepsTies(students.items, le, z);
        }
      }
      Sort(students.items, le)
    }
  }
}
