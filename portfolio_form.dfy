/**
 * The application form: ten text inputs and four file inputs, field-level validation, and a
 * submit handler that validates, uploads each file group, appends one record to the store
 * and resets the form.
 */
module Form {
  import opened Wrappers
  import opened JsStrings
  import opened Store
  import opened Oracles
  import opened Actions

  /** The text inputs, by their `name` attribute. */
  datatype Field = FirstName | LastName | Address | Phone | School | Gpa | Talent | Reason | Faculty | University

  /** The `form` state object: one string per text input. */
  datatype FormValues = FormValues(
    firstName: string,
    lastName: string,
    address: string,
    phone: string,
    school: string,
    gpa: string,
    talent: string,
    reason: string,
    faculty: string,
    university: string)
  {
    /** `form[name]`. */
    function Get(f: Field): string {
      match f
      case FirstName => firstName
      case LastName => lastName
      case Address => address
      case Phone => phone
      case School => school
      case Gpa => gpa
      case Talent => talent
      case Reason => reason
      case Faculty => faculty
      case University => university
    }

    /** `{ ...form, [name]: value }`: the named input takes the value and no other changes. */
    function With(f: Field, v: string): (r: FormValues)
      ensures r.Get(f) == v
      ensures forall g :: g != f ==> r.Get(g) == Get(g)
    {
      match f
      case FirstName => this.(firstName := v)
      case LastName => this.(lastName := v)
      case Address => this.(address := v)
      case Phone => this.(phone := v)
      case School => this.(school := v)
      case Gpa => this.(gpa := v)
      case Talent => this.(talent := v)
      case Reason => this.(reason := v)
      case Faculty => this.(faculty := v)
      case University => this.(university := v)
    }
  }

  /** The initial and the reset value of `form`: every input empty. */
  const EmptyForm := FormValues("", "", "", "", "", "", "", "", "", "")

  /** A JavaScript number as `parseFloat` can return it. */
  datatype JsNumber = NaN | Infinity(negative: bool) | Finite(value: real)

  /** `n < x` for a finite `x`; false for NaN. */
  predicate Below(n: JsNumber, x: real) {
    match n
    case NaN => false
    case Infinity(negative) => negative
    case Finite(v) => v < x
  }

  /** `n > x` for a finite `x`; false for NaN. */
  predicate Above(n: JsNumber, x: real) {
    match n
    case NaN => false
    case Infinity(negative) => !negative
    case Finite(v) => v > x
  }

  /** `!s.trim()`: the trimmed string is empty, hence falsy. */
  predicate IsBlank(s: string) {
    Trim(s) == []
  }

  /** `/^\d{10}$/.test(s)`: exactly ten characters, each an ASCII digit. */
  predicate IsTenDigits(s: string) {
    |s| == 10 && forall k :: 0 <= k < |s| ==> '0' <= s[k] <= '9'
  }

  /** The condition under which `validateForm` records an error for `f`. */
  predicate Rejected(form: FormValues, parseFloat: string -> JsNumber, f: Field) {
    match f
    case FirstName => IsBlank(form.firstName)
    case LastName => IsBlank(form.lastName)
    case Phone => IsBlank(form.phone) || !IsTenDigits(form.phone)
    case Gpa =>
      var n := parseFloat(form.gpa);
      form.gpa == "" || n.NaN? || Below(n, 0.0) || Above(n, 4.0)
    case _ => false
  }

  /** The message recorded for a rejected field. */
  function Message(f: Field): string {
    match f
    case FirstName => "กรุณากรอกชื่อ"
    case LastName => "กรุณากรอกนามสกุล"
    case Phone => "เบอร์โทรต้องเป็น 10 หลัก"
    case Gpa => "GPA ต้องอยู่ระหว่าง 0-4.0"
    case _ => ""
  }

  /** A name is rejected exactly when it is empty or made of whitespace only. */
  lemma NameRule(form: FormValues, parseFloat: string -> JsNumber)
    ensures Rejected(form, parseFloat, FirstName) <==> forall k :: 0 <= k < |form.firstName| ==> IsWhitespace(form.firstName[k])
    ensures Rejected(form, parseFloat, LastName) <==> forall k :: 0 <= k < |form.lastName| ==> IsWhitespace(form.lastName[k])
  {
    TrimEmptyIffAllWhitespace(form.firstName);
    TrimEmptyIffAllWhitespace(form.lastName);
  }

  /**
   * The phone is rejected exactly when it is not ten ASCII digits; the blank test adds
   * nothing, and since the pattern is tested on the untrimmed value, surrounding spaces
   * make it fail.
   */
  lemma PhoneRule(form: FormValues, parseFloat: string -> JsNumber)
    ensures Rejected(form, parseFloat, Phone) <==> !IsTenDigits(form.phone)
    ensures |form.phone| > 0 && (IsWhitespace(form.phone[0]) || IsWhitespace(form.phone[|form.phone| - 1]))
      ==> Rejected(form, parseFloat, Phone)
  {
  }

  /**
   * The GPA is accepted exactly when the input is non-empty and parses to a finite number in
   * [0, 4.0], both bounds included.
   */
  lemma GpaRule(form: FormValues, parseFloat: string -> JsNumber)
    ensures !Rejected(form, parseFloat, Gpa) <==>
      form.gpa != "" && parseFloat(form.gpa).Finite? && 0.0 <= parseFloat(form.gpa).value <= 4.0
  {
  }

  /** The order in which `validateForm` checks the inputs; the other six are never checked. */
  function CheckOrder(f: Field): nat {
    match f
    case FirstName => 0
    case LastName => 1
    case Phone => 2
    case Gpa => 3
    case _ => 4
  }

  /** `errors` holds exactly the rejected inputs among the first `k` checked, with their messages. */
  ghost predicate ErrorsUpTo(errors: map<Field, string>, form: FormValues, parseFloat: string -> JsNumber, k: nat) {
    forall f :: (f in errors <==> CheckOrder(f) < k && Rejected(form, parseFloat, f))
      && (f in errors ==> errors[f] == Message(f))
  }

  /** Checking input `f` next extends the errors of the inputs checked before it. */
  lemma ErrorsStep(errors: map<Field, string>, form: FormValues, parseFloat: string -> JsNumber, f: Field)
    requires CheckOrder(f) < 4 && ErrorsUpTo(errors, form, parseFloat, CheckOrder(f))
    ensures ErrorsUpTo(if Rejected(form, parseFloat, f) then errors[f := Message(f)] else errors,
                       form, parseFloat, CheckOrder(f) + 1)
  {
  }

  /** No input is rejected: `validateForm` returns true. */
  ghost predicate NoneRejected(form: FormValues, parseFloat: string -> JsNumber) {
    forall f :: !Rejected(form, parseFloat, f)
  }

  /** `errors` holds exactly the rejected inputs, each with its message. */
  ghost predicate ExactErrors(errors: map<Field, string>, form: FormValues, parseFloat: string -> JsNumber) {
    forall f :: (f in errors <==> Rejected(form, parseFloat, f)) && (f in errors ==> errors[f] == Message(f))
  }

  /**
   * Once all four checked inputs are done the errors are exact, and they are empty exactly
   * when no input is rejected.
   */
  lemma ErrorsComplete(errors: map<Field, string>, form: FormValues, parseFloat: string -> JsNumber)
    requires ErrorsUpTo(errors, form, parseFloat, 4)
    ensures ExactErrors(errors, form, parseFloat)
    ensures errors == map[] <==> NoneRejected(form, parseFloat)
  {
  }

  /** What a submission ended with. */
  datatype SubmitOutcome =
    | Invalid                 // validation failed; nothing was uploaded or stored
    | Saved(student: Student) // the record was appended and the form reset
    | Failed(error: FsError)  // an upload threw; the alert shows its message

  /** The input the files of one of the three multi-file groups come from. */
  datatype FileGroup = Activities | Awards | Works

  /** The record's text fields are the form's inputs, as `...form` copies them. */
  predicate CopiesForm(s: Student, form: FormValues) {
    && s.firstName == form.firstName && s.lastName == form.lastName
    && s.address == form.address && s.phone == form.phone && s.school == form.school
    && s.talent == form.talent && s.reason == form.reason
    && s.faculty == form.faculty && s.university == form.university
  }

  /**
   * The filesystem calls made for one group when they all succeed: none when the group is
   * empty (the handler skips `uploadFiles`), else the `mkdir` and one write per file.
   */
  function Ops(files: seq<File>): nat {
    if |files| == 0 then 0 else 1 + |files|
  }

  /** The chosen image as a group of at most one file. */
  function ImageFiles(image: Option<File>): seq<File> {
    match image
    case None => []
    case Some(img) => [img]
  }

  /** The path the image block stores: the only path of the image's upload, when one was chosen. */
  function ImagePath(image: Option<File>, tape: nat -> string, start: nat): Option<string> {
    match image
    case None => None
    case Some(img) => Some(UploadPaths([img], tape, start)[0])
  }

  /** The stored image path names the image under the identifier drawn for it, keeping its extension. */
  lemma ImagePathNamesImage(img: File, tape: nat -> string, start: nat)
    ensures ImagePath(Some(img), tape, start) == Some(PublicPath(tape(start), img.name))
    ensures ImagePath(Some(img), tape, start) == Some("/uploads/" + (tape(start) + "." + Extension(img.name)))
  {
  }

  /** One multi-file group with the files chosen for it. */
  datatype GroupFiles = GroupFiles(group: FileGroup, files: seq<File>)

  /** The three groups in the order the submit handler uploads them. */
  function FormGroups(activities: seq<File>, awards: seq<File>, works: seq<File>): seq<GroupFiles> {
    [GroupFiles(Activities, activities), GroupFiles(Awards, awards), GroupFiles(Works, works)]
  }

  /** `studentData.<group> = paths`. */
  function SetGroup(s: Student, group: FileGroup, paths: seq<string>): Student {
    match group
    case Activities => s.(activities := Some(paths))
    case Awards => s.(awards := Some(paths))
    case Works => s.(works := Some(paths))
  }

  /** The filesystem calls the groups' uploads make when they all succeed. */
  function GroupsOps(groups: seq<GroupFiles>): nat
    decreases |groups|
  {
    if groups == [] then 0 else Ops(groups[0].files) + GroupsOps(groups[1..])
  }

  /** The identifiers the groups' uploads draw when they all succeed: one per file. */
  function GroupsFiles(groups: seq<GroupFiles>): nat
    decreases |groups|
  {
    if groups == [] then 0 else |groups[0].files| + GroupsFiles(groups[1..])
  }

  /**
   * The record after the group blocks run in order from identifier `start`: an empty group is
   * skipped, a non-empty one stores its upload's paths in its field.
   */
  function WithGroups(s: Student, groups: seq<GroupFiles>, tape: nat -> string, start: nat): Student
    decreases |groups|
  {
    if groups == [] then s
    else
      var g := groups[0];
      var s' := if |g.files| == 0 then s else SetGroup(s, g.group, UploadPaths(g.files, tape, start));
      WithGroups(s', groups[1..], tape, start + |g.files|)
  }

  /** The record after all four upload blocks, identifiers drawn from `start` on. */
  function Attached(s: Student, image: Option<File>, activities: seq<File>, awards: seq<File>, works: seq<File>,
                    tape: nat -> string, start: nat): Student
  {
    var s' := if image.None? then s else s.(image := ImagePath(image, tape, start));
    WithGroups(s', FormGroups(activities, awards, works), tape, start + |ImageFiles(image)|)
  }

  /**
   * Starting from the record `handleSubmit` builds (no image, three empty lists), the upload
   * blocks leave every other field alone, store the image's path exactly when one was chosen,
   * and give each list its group's paths (`[]` for an empty group), with identifiers drawn in
   * the order image, activities, awards, works.
   */
  lemma AttachedFields(s: Student, image: Option<File>, activities: seq<File>, awards: seq<File>, works: seq<File>,
                       tape: nat -> string, start: nat)
    requires s.image == None && s.activities == Some([]) && s.awards == Some([]) && s.works == Some([])
    ensures var k1 := start + |ImageFiles(image)|;
      var k2 := k1 + |activities|;
      var k3 := k2 + |awards|;
      Attached(s, image, activities, awards, works, tape, start)
        == s.(image := ImagePath(image, tape, start),
              activities := Some(UploadPaths(activities, tape, k1)),
              awards := Some(UploadPaths(awards, tape, k2)),
              works := Some(UploadPaths(works, tape, k3)))
  {
    var gs := FormGroups(activities, awards, works);
    assert gs[1..] == [GroupFiles(Awards, awards), GroupFiles(Works, works)];
    assert gs[1..][1..] == [GroupFiles(Works, works)];
    assert gs[1..][1..][1..] == [];
    var k1 := start + |ImageFiles(image)|;
    var k2 := k1 + |activities|;
    var k3 := k2 + |awards|;
    var s0 := if image.None? then s else s.(image := ImagePath(image, tape, start));
    var s1 := s0.(activities := Some(UploadPaths(activities, tape, k1)));
    var s2 := s1.(awards := Some(UploadPaths(awards, tape, k2)));
    var s3 := s2.(works := Some(UploadPaths(works, tape, k3)));
    assert UploadPaths([], tape, k1) == [] && UploadPaths([], tape, k2) == [] && UploadPaths([], tape, k3) == [];
    assert WithGroups(s2, gs[1..][1..], tape, k3) == s3;
    assert WithGroups(s1, gs[1..], tape, k2) == s3;
    assert WithGroups(s0, gs, tape, k1) == s3;
  }

  /** The three groups' uploads make the sum of their calls and draw one identifier per file. */
  lemma FormGroupsTotals(activities: seq<File>, awards: seq<File>, works: seq<File>)
    ensures GroupsOps(FormGroups(activities, awards, works)) == Ops(activities) + Ops(awards) + Ops(works)
    ensures GroupsFiles(FormGroups(activities, awards, works)) == |activities| + |awards| + |works|
  {
    var gs := FormGroups(activities, awards, works);
    assert gs[1..] == [GroupFiles(Awards, awards), GroupFiles(Works, works)];
    assert gs[1..][1..] == [GroupFiles(Works, works)];
    assert gs[1..][1..][1..] == [];
    assert GroupsOps(gs[1..][1..]) == Ops(works);
    assert GroupsFiles(gs[1..][1..]) == |works|;
  }

  /** The filesystem calls a submission with these files makes when they all succeed. */
  function SubmitOps(image: Option<File>, activities: seq<File>, awards: seq<File>, works: seq<File>): nat {
    Ops(ImageFiles(image)) + Ops(activities) + Ops(awards) + Ops(works)
  }

  /** The identifiers a saved submission draws: the record's own, then one per uploaded file. */
  function SubmitIds(image: Option<File>, activities: seq<File>, awards: seq<File>, works: seq<File>): nat {
    1 + |ImageFiles(image)| + |activities| + |awards| + |works|
  }

  /**
   * `s` is the record `handleSubmit` appends for these inputs when identifiers are drawn from
   * `tape` starting at `start`: its identifier is the first one drawn, its text fields are the
   * form's, its GPA is the parsed one (within 0 to 4), its image is the uploaded image's public
   * path when one was chosen, and each group's list holds the public paths of that group's
   * files, the identifiers following on in image, activities, awards, works order.
   */
  ghost predicate SavedRecord(s: Student, form: FormValues, parseFloat: string -> JsNumber, image: Option<File>,
                              activities: seq<File>, awards: seq<File>, works: seq<File>,
                              tape: nat -> string, start: nat)
  {
    var k1 := start + 1 + |ImageFiles(image)|;
    var k2 := k1 + |activities|;
    var k3 := k2 + |awards|;
    && s.id == tape(start)
    && CopiesForm(s, form)
    && parseFloat(form.gpa) == Finite(s.gpa) && 0.0 <= s.gpa <= 4.0
    && s.image == ImagePath(image, tape, start + 1)
    && s.activities == Some(UploadPaths(activities, tape, k1))
    && s.awards == Some(UploadPaths(awards, tape, k2))
    && s.works == Some(UploadPaths(works, tape, k3))
  }

  /** The `PortfolioForm` component's state and the store and services it calls. */
  class PortfolioForm {
    var form: FormValues
    var studentImage: Option<File>
    var activitiesFiles: seq<File>
    var awardsFiles: seq<File>
    var worksFiles: seq<File>
    var errors: map<Field, string>
    const parseFloat: string -> JsNumber
    const store: StudentStore
    const fs: FileSystem
    const ids: IdGenerator

    /** First render: empty inputs, no files, no errors. */
    constructor (parseFloat: string -> JsNumber, store: StudentStore, fs: FileSystem, ids: IdGenerator)
      ensures form == EmptyForm && studentImage == None
      ensures activitiesFiles == [] && awardsFiles == [] && worksFiles == []
      ensures errors == map[]
      ensures this.parseFloat == parseFloat && this.store == store && this.fs == fs && this.ids == ids
    {
      form := EmptyForm;
      studentImage := None;
      activitiesFiles, awardsFiles, worksFiles := [], [], [];
      errors := map[];
      this.parseFloat := parseFloat;
      this.store := store;
      this.fs := fs;
      this.ids := ids;
    }

    /**
     * `handleChange`: the named input takes the value; that input's error is blanked only
     * when it held a non-empty message; nothing else changes.
     */
    method HandleChange(name: Field, value: string)
      modifies this
      ensures form == old(form).With(name, value)
      ensures errors == if name in old(errors) && old(errors)[name] != "" then old(errors)[name := ""] else old(errors)
      ensures studentImage == old(studentImage) && activitiesFiles == old(activitiesFiles)
      ensures awardsFiles == old(awardsFiles) && worksFiles == old(worksFiles)
    {
      form := form.With(name, value);
      if name in errors && errors[name] != "" {
        errors := errors[name := ""];
      }
    }

    /** The image input's change handler: its first file, or none. */
    method HandleImageChange(chosen: seq<File>)
      modifies this
      ensures studentImage == if |chosen| > 0 then Some(chosen[0]) else None
      ensures form == old(form) && errors == old(errors)
      ensures activitiesFiles == old(activitiesFiles) && awardsFiles == old(awardsFiles) && worksFiles == old(worksFiles)
    {
      studentImage := if |chosen| > 0 then Some(chosen[0]) else None;
    }

    /** `handleFileChange` with the group's setter: the group takes the chosen files. */
    method HandleFileChange(group: FileGroup, chosen: seq<File>)
      modifies this
      ensures activitiesFiles == if group == Activities then chosen else old(activitiesFiles)
      ensures awardsFiles == if group == Awards then chosen else old(awardsFiles)
      ensures worksFiles == if group == Works then chosen else old(worksFiles)
      ensures form == old(form) && errors == old(errors) && studentImage == old(studentImage)
    {
      match group
      case Activities => activitiesFiles := chosen;
      case Awards => awardsFiles := chosen;
      case Works => worksFiles := chosen;
    }

    /**
     * `validateForm`: true exactly when no input is rejected. On failure the errors are
     * replaced by exactly the rejected inputs, each with its message; on success they are
     * left as they were.
     */
    method ValidateForm() returns (ok: bool)
      modifies this`errors
      ensures ok <==> NoneRejected(form, parseFloat)
      ensures ok ==> errors == old(errors)
      ensures !ok ==> ExactErrors(errors, form, parseFloat)
    {
      var newErrors: map<Field, string> := map[];
      ErrorsStep(newErrors, form, parseFloat, FirstName);
      if IsBlank(form.firstName) {
        newErrors := newErrors[FirstName := Message(FirstName)];
      }
      ErrorsStep(newErrors, form, parseFloat, LastName);
      if IsBlank(form.lastName) {
        newErrors := newErrors[LastName := Message(LastName)];
      }
      ErrorsStep(newErrors, form, parseFloat, Phone);
      if IsBlank(form.phone) || !IsTenDigits(form.phone) {
        newErrors := newErrors[Phone := Message(Phone)];
      }
      ErrorsStep(newErrors, form, parseFloat, Gpa);
      var gpaNum := parseFloat(form.gpa);
      if form.gpa == "" || gpaNum.NaN? || Below(gpaNum, 0.0) || Above(gpaNum, 4.0) {
        newErrors := newErrors[Gpa := Message(Gpa)];
      }
      ErrorsComplete(newErrors, form, parseFloat);
      if newErrors != map[] {
        errors := newErrors;
        return false;
      }
      return true;
    }

    /**
     * One block's `uploadFiles(formData)` call: it succeeds exactly when the `mkdir` and
     * every write do, and then yields the files' paths.
     */
    method UploadGroup(files: seq<File>, ghost start: nat) returns (r: Result<seq<string>, FsError>)
      requires ids.next == start
      modifies fs, ids
      ensures r.Success? <==> AllSucceed(fs.succeeds, old(fs.attempts), 1 + |files|)
      ensures r.Success? ==> r.value == UploadPaths(files, ids.tape, start)
      ensures r.Success? ==> fs.attempts == old(fs.attempts) + 1 + |files| && ids.next == start + |files|
      ensures r.Success? ==> fs.dirs == old(fs.dirs) + {UploadsDir(fs.cwd)}
      ensures r.Success? ==> fs.files == Written(old(fs.files), UploadsDir(fs.cwd), files, ids.tape, start, |files|)
    {
      r := UploadFiles(files, fs, ids);
      RunIsAll(fs.succeeds, old(fs.attempts), 1 + |files|);
    }

    /**
     * The group blocks, in order: each non-empty group is uploaded and its field set to the
     * paths; the first failing upload ends the run with its error.
     */
    method AttachGroups(s: Student, groups: seq<GroupFiles>, ghost start: nat) returns (r: Result<Student, FsError>)
      requires ids.next == start
      modifies fs, ids
      ensures r.Success? <==> AllSucceed(fs.succeeds, old(fs.attempts), GroupsOps(groups))
      ensures r.Success? ==> r.value == WithGroups(s, groups, ids.tape, start)
      ensures r.Success? ==> ids.next == start + GroupsFiles(groups)
      decreases |groups|
    {
      if groups == [] {
        return Success(s);
      }
      var g := groups[0];
      var updated := s;
      ghost var a0 := fs.attempts;
      AllSucceedConcat(fs.succeeds, a0, Ops(g.files), GroupsOps(groups[1..]));
      if |g.files| > 0 {
        var paths := UploadGroup(g.files, start);
        if paths.Failure? {
          return Failure(paths.error);
        }
        updated := SetGroup(s, g.group, paths.value);
      }
      r := AttachGroups(updated, groups[1..], start + |g.files|);
    }

    /**
     * The four upload blocks of `handleSubmit`, run on the record it builds (no image, three
     * empty lists): the chosen image, then the activities, awards and works groups. They all go
     * through exactly when every filesystem call does; the record then carries the image's
     * path when one was chosen and each group's paths, with identifiers drawn in that order,
     * and no other field changes.
     */
    method AttachUploads(student: Student, image: Option<File>, activities: seq<File>, awards: seq<File>, works: seq<File>)
      returns (r: Result<Student, FsError>)
      requires student.image == None && student.activities == Some([])
      requires student.awards == Some([]) && student.works == Some([])
      modifies fs, ids
      ensures var total := Ops(ImageFiles(image)) + Ops(activities) + Ops(awards) + Ops(works);
        r.Success? <==> AllSucceed(fs.succeeds, old(fs.attempts), total)
      ensures r.Success? ==>
        var k1 := old(ids.next) + |ImageFiles(image)|;
        var k2 := k1 + |activities|;
        var k3 := k2 + |awards|;
        r.value == student.(image := ImagePath(image, ids.tape, old(ids.next)),
                            activities := Some(UploadPaths(activities, ids.tape, k1)),
                            awards := Some(UploadPaths(awards, ids.tape, k2)),
                            works := Some(UploadPaths(works, ids.tape, k3)))
      ensures r.Success? ==> ids.next == old(ids.next) + |ImageFiles(image)| + |activities| + |awards| + |works|
    {
      var s := student;
      var groups := FormGroups(activities, awards, works);
      AttachedFields(student, image, activities, awards, works, ids.tape, ids.next);
      FormGroupsTotals(activities, awards, works);
      AllSucceedConcat(fs.succeeds, fs.attempts, Ops(ImageFiles(image)), GroupsOps(groups));
      if image.Some? {
        var paths := UploadGroup([image.value], ids.next);
        if paths.Failure? {
          return Failure(paths.error);
        }
        if |paths.value| > 0 {
          s := s.(image := Some(paths.value[0]));
        }
      }
      r := AttachGroups(s, groups, ids.next);
    }

    /**
     * The record-building part of the `try` block of `handleSubmit`, entered once the form is
     * valid: draw the record's identifier, build the record from the inputs, then run the
     * upload blocks. It succeeds exactly when every filesystem call does.
     */
    method BuildRecord() returns (r: Result<Student, FsError>)
      requires !Rejected(form, parseFloat, Gpa)
      modifies fs, ids
      ensures r.Success? <==> AllSucceed(fs.succeeds, old(fs.attempts), SubmitOps(studentImage, activitiesFiles, awardsFiles, worksFiles))
      ensures r.Success? ==> SavedRecord(r.value, form, parseFloat, studentImage, activitiesFiles, awardsFiles, worksFiles, ids.tape, old(ids.next))
      ensures r.Success? ==> ids.next == old(ids.next) + SubmitIds(studentImage, activitiesFiles, awardsFiles, worksFiles)
    {
      GpaRule(form, parseFloat);
      var id := ids.Next();
      var student := Student(id, form.firstName, form.lastName, form.address, form.phone, form.school,
                             parseFloat(form.gpa).value, form.talent, form.reason, form.faculty, form.university,
                             None, Some([]), Some([]), Some([]));
      r := AttachUploads(student, studentImage, activitiesFiles, awardsFiles, worksFiles);
    }

    /**
     * The `try` block of `handleSubmit`: build the record, then append it and reset the form.
     * When an upload fails the store, the inputs, the chosen files and the errors are left as
     * they were.
     */
    method SubmitValid() returns (outcome: SubmitOutcome)
      requires !Rejected(form, parseFloat, Gpa)
      modifies this, store.students, fs, ids
      ensures !outcome.Invalid?
      ensures store.students == old(store.students)
      ensures outcome.Failed? ==> store.students.items == old(store.students.items)
      ensures outcome.Failed? ==> form == old(form) && studentImage == old(studentImage) && errors == old(errors)
      ensures outcome.Failed? ==> activitiesFiles == old(activitiesFiles) && awardsFiles == old(awardsFiles) && worksFiles == old(worksFiles)
      ensures outcome.Saved? <==> AllSucceed(fs.succeeds, old(fs.attempts), SubmitOps(old(studentImage), old(activitiesFiles), old(awardsFiles), old(worksFiles)))
      ensures outcome.Saved? ==> store.students.items == old(store.students.items) + [outcome.student]
      ensures outcome.Saved? ==> SavedRecord(outcome.student, old(form), parseFloat, old(studentImage),
                                             old(activitiesFiles), old(awardsFiles), old(worksFiles), ids.tape, old(ids.next))
      ensures outcome.Saved? ==> ids.next == old(ids.next) + SubmitIds(old(studentImage), old(activitiesFiles), old(awardsFiles), old(worksFiles))
      ensures outcome.Saved? ==> form == EmptyForm && studentImage == None && errors == map[]
      ensures outcome.Saved? ==> activitiesFiles == [] && awardsFiles == [] && worksFiles == []
    {
      var r := BuildRecord();
      if r.Failure? {
        return Failed(r.error);
      }
      store.AddStudent(r.value);
      form := EmptyForm;
      studentImage := None;
      activitiesFiles, awardsFiles, worksFiles := [], [], [];
      errors := map[];
      return Saved(r.value);
    }

    /**
     * `handleSubmit`. An invalid form changes nothing but the errors, which then name exactly
     * the rejected inputs. A valid one is saved exactly when every filesystem call of its
     * uploads succeeds, and the record appended is then the one `SavedRecord` describes.
     */
    method HandleSubmit() returns (outcome: SubmitOutcome)
      modifies this, store.students, fs, ids
      ensures outcome.Invalid? <==> !NoneRejected(old(form), parseFloat)
      ensures outcome.Invalid? ==> ExactErrors(errors, form, parseFloat)
      ensures outcome.Invalid? ==> fs.attempts == old(fs.attempts) && ids.next == old(ids.next)
      ensures outcome.Invalid? ==> fs.files == old(fs.files) && fs.dirs == old(fs.dirs)
      ensures !outcome.Saved? ==> form == old(form) && studentImage == old(studentImage)
      ensures !outcome.Saved? ==> activitiesFiles == old(activitiesFiles) && awardsFiles == old(awardsFiles) && worksFiles == old(worksFiles)
      ensures outcome.Failed? ==> errors == old(errors)
      ensures store.students == old(store.students)
      ensures !outcome.Saved? ==> store.students.items == old(store.students.items)
      ensures outcome.Saved? <==> NoneRejected(old(form), parseFloat)
                                  && AllSucceed(fs.succeeds, old(fs.attempts), SubmitOps(old(studentImage), old(activitiesFiles), old(awardsFiles), old(worksFiles)))
      ensures outcome.Saved? ==> store.students.items == old(store.students.items) + [outcome.student]
      ensures outcome.Saved? ==> SavedRecord(outcome.student, old(form), parseFloat, old(studentImage),
                                             old(activitiesFiles), old(awardsFiles), old(worksFiles), ids.tape, old(ids.next))
      ensures outcome.Saved? ==> ids.next == old(ids.next) + SubmitIds(old(studentImage), old(activitiesFiles), old(awardsFiles), old(worksFiles))
      ensures outcome.Saved? ==> form == EmptyForm && studentImage == None && errors == map[]
      ensures outcome.Saved? ==> activitiesFiles == [] && awardsFiles == [] && worksFiles == []
    {
      var valid := ValidateForm();
      if !valid {
        return Invalid;
      }
      outcome := SubmitValid();
    }
  }
}
