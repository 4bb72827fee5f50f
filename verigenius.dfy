/**
 * The mock "university database" of the validation API: a table of students
 * and a table of classes, identity validation against the students, class
 * assignment by level and field of study, and the in-place status update.
 */
module MockDatabase {
  import opened Wrappers
  import opened Ascii
  import opened ArrayFind
  import opened Zod
  import StudentTypes

  /** A student row; `id` is the matricule. */
  datatype Student = Student(id: string, name: string, level: string, fieldOfStudy: string, status: StudentTypes.Status)

  /** A class row. */
  datatype Class = Class(id: string, name: string, level: string, fieldOfStudy: string)

  /** The identity claim of a validation request. */
  datatype ValidationPayload = ValidationPayload(studentId: string, name: string, level: string, fieldOfStudy: string)

  /** This file's own `studentValidationSchema`: four required non-empty strings. */
  function PayloadSchema(): Shape {
    map[
      "studentId" := NonEmptyString,
      "name" := NonEmptyString,
      "level" := NonEmptyString,
      "fieldOfStudy" := NonEmptyString
    ]
  }

  /** The payload schema accepts exactly the objects whose four fields are non-empty strings. */
  lemma PayloadSchemaIff(o: Object)
    ensures Accepts(PayloadSchema(), o) <==>
      && StudentTypes.NonEmptyStringAt(o, "studentId")
      && StudentTypes.NonEmptyStringAt(o, "name")
      && StudentTypes.NonEmptyStringAt(o, "level")
      && StudentTypes.NonEmptyStringAt(o, "fieldOfStudy")
  {
    var shape := PayloadSchema();
    if Accepts(shape, o) {
      assert FieldAccepts(shape["studentId"], o, "studentId");
      assert FieldAccepts(shape["name"], o, "name");
      assert FieldAccepts(shape["level"], o, "level");
      assert FieldAccepts(shape["fieldOfStudy"], o, "fieldOfStudy");
    }
  }

  /** The initial contents of `mockStudents`. */
  function MockStudents(): seq<Student> {
    [
      Student("STU12345", "Alice Johnson", "Undergraduate", "Computer Science", StudentTypes.Pending),
      Student("STU67890", "Bob Williams", "Graduate", "Data Science", StudentTypes.Pending),
      Student("STU11223", "Charlie Brown", "Undergraduate", "Electrical Engineering", StudentTypes.Pending),
      Student("STU44556", "Diana Prince", "Undergraduate", "Computer Science", StudentTypes.Active)
    ]
  }

  /** The contents of `mockClasses`, which nothing modifies. */
  function MockClasses(): seq<Class> {
    [
      Class("CS101", "Introduction à la programmation", "Undergraduate", "Computer Science"),
      Class("DS501", "Apprentissage automatique avancé", "Graduate", "Data Science"),
      Class("EE202", "Circuits numériques", "Undergraduate", "Electrical Engineering")
    ]
  }

  /** The identity test: id and name compared lower-cased, level and field of study exactly. */
  predicate IdentityMatches(payload: ValidationPayload, s: Student) {
    && ToLower(s.id) == ToLower(payload.studentId)
    && ToLower(s.name) == ToLower(payload.name)
    && s.level == payload.level
    && s.fieldOfStudy == payload.fieldOfStudy
  }

  function IdentityMatcher(payload: ValidationPayload): Student -> bool {
    (s: Student) => IdentityMatches(payload, s)
  }

  /** The class test: same level and same field of study. */
  function ClassMatcher(student: Student): Class -> bool {
    (c: Class) => c.level == student.level && c.fieldOfStudy == student.fieldOfStudy
  }

  /** The update's lookup: exact, case-sensitive id. */
  function IdMatcher(studentId: string): Student -> bool {
    (s: Student) => s.id == studentId
  }

  /**
   * The student table after the update: the first student whose id is
   * `studentId` becomes active; nothing else changes.
   */
  function ActivateFirst(students: seq<Student>, studentId: string): (r: seq<Student>)
    ensures |r| == |students|
    ensures forall j :: 0 <= j < |r| ==>
      && r[j].id == students[j].id && r[j].name == students[j].name
      && r[j].level == students[j].level && r[j].fieldOfStudy == students[j].fieldOfStudy
    ensures forall j :: IsFirstMatch(students, IdMatcher(studentId), j) ==> r[j].status == StudentTypes.Active
    ensures forall j :: 0 <= j < |r| && !IsFirstMatch(students, IdMatcher(studentId), j) ==> r[j] == students[j]
    ensures (forall j :: 0 <= j < |students| ==> students[j].id != studentId) ==> r == students
  {
    match FindIndex(students, IdMatcher(studentId))
    case None => students
    case Some(i) => students[i := students[i].(status := StudentTypes.Active)]
  }

  /** Activating twice has the effect of activating once. */
  lemma ActivateIdempotent(students: seq<Student>, studentId: string)
    ensures ActivateFirst(ActivateFirst(students, studentId), studentId) == ActivateFirst(students, studentId)
  {
    var pred := IdMatcher(studentId);
    var r := ActivateFirst(students, studentId);
    match FindIndex(students, pred)
    case None =>
    case Some(i) =>
      assert IsFirstMatch(r, pred, i) by {
        assert pred(r[i]) == pred(students[i]);
        forall j | 0 <= j < i ensures !pred(r[j]) {
          assert pred(r[j]) == pred(students[j]);
        }
      }
      FindIndexIsFirstMatch(r, pred, i);
      assert r[i := r[i].(status := StudentTypes.Active)] == r;
  }

  /** The mock database: `mockStudents` is updated in place, `mockClasses` never is. */
  class Database {
    var students: seq<Student>
    const classes: seq<Class> := MockClasses()

    constructor ()
      ensures students == MockStudents()
    {
      students := MockStudents();
    }

    /**
     * `validateStudentIdentity`: the first student, in table order, whose id
     * and name equal the payload's up to letter case and whose level and field
     * of study equal the payload's; `None` when there is none.
     */
    function ValidateStudentIdentity(payload: ValidationPayload): (r: Option<Student>)
      reads this
      ensures r.Some? ==> r.value in students
      ensures r.Some? ==>
        && EqualIgnoringCase(r.value.id, payload.studentId)
        && EqualIgnoringCase(r.value.name, payload.name)
        && r.value.level == payload.level
        && r.value.fieldOfStudy == payload.fieldOfStudy
      ensures r.Some? ==> exists i :: IsFirstMatch(students, IdentityMatcher(payload), i) && students[i] == r.value
      ensures r.None? <==> forall s :: s in students ==> !IdentityMatches(payload, s)
    {
      var r := Find(students, IdentityMatcher(payload));
      if r.Some? then
        ToLowerEqualIff(r.value.id, payload.studentId);
        ToLowerEqualIff(r.value.name, payload.name);
        r
      else
        r
    }

    /**
     * `assignClassForStudent`: the first class with the student's exact level
     * and field of study; `None` when there is none.
     */
    function AssignClassForStudent(student: Student): (r: Option<Class>)
      ensures r.Some? ==> r.value in classes
      ensures r.Some? ==> r.value.level == student.level && r.value.fieldOfStudy == student.fieldOfStudy
      ensures r.None? <==> forall c :: c in classes ==> !(c.level == student.level && c.fieldOfStudy == student.fieldOfStudy)
    {
      Find(classes, ClassMatcher(student))
    }

    /**
     * `updateStudentStatusInDb`: marks the first student whose id is exactly
     * `studentId` as active, and reports success whether or not one was found.
     * `classId` only appears in the source's log message.
     */
    method UpdateStudentStatusInDb(studentId: string, classId: string) returns (ok: bool)
      modifies this
      ensures ok
      ensures students == ActivateFirst(old(students), studentId)
    {
      match FindIndex(students, IdMatcher(studentId)) {
        case Some(i) =>
          students := students[i := students[i].(status := StudentTypes.Active)];
        case None =>
      }
      ok := true;
    }
  }

  /** Changing the letter case of the claimed id or name does not change the lookup. */
  lemma CaseOfIdAndNameIgnored(db: Database, p: ValidationPayload, q: ValidationPayload)
    requires EqualIgnoringCase(p.studentId, q.studentId) && EqualIgnoringCase(p.name, q.name)
    requires p.level == q.level && p.fieldOfStudy == q.fieldOfStudy
    ensures db.ValidateStudentIdentity(p) == db.ValidateStudentIdentity(q)
  {
    ToLowerEqualIff(p.studentId, q.studentId);
    ToLowerEqualIff(p.name, q.name);
    FindIndexCongruent(db.students, IdentityMatcher(p), IdentityMatcher(q));
  }

  /** Alice Johnson's row matches a claim that writes her id and name in other letter cases. */
  lemma AliceMatchesOtherCase(alice: Student, p: ValidationPayload)
    requires alice == Student("STU12345", "Alice Johnson", "Undergraduate", "Computer Science", StudentTypes.Pending)
    requires p == ValidationPayload("stu12345", "ALICE johnson", "Undergraduate", "Computer Science")
    ensures IdentityMatches(p, alice)
  {
    assert EqualIgnoringCase(alice.id, p.studentId) by {
      assert EqualIgnoringCase("STU12345", "stu12345");
    }
    assert EqualIgnoringCase(alice.name, p.name) by {
      assert EqualIgnoringCase("Alice Johnson", "ALICE johnson");
    }
    ToLowerEqualIff(alice.id, p.studentId);
    ToLowerEqualIff(alice.name, p.name);
  }

  /** On the initial table, a claim in other letter cases of id and name still finds Alice Johnson. */
  lemma OtherCaseFindsAlice(db: Database, p: ValidationPayload)
    requires db.students == MockStudents()
    requires p == ValidationPayload("stu12345", "ALICE johnson", "Undergraduate", "Computer Science")
    ensures db.ValidateStudentIdentity(p) == Some(MockStudents()[0])
  {
    assert db.students[0] == Student("STU12345", "Alice Johnson", "Undergraduate", "Computer Science", StudentTypes.Pending);
    AliceMatchesOtherCase(db.students[0], p);
    assert IdentityMatcher(p)(db.students[0]);
    FindIndexIsFirstMatch(db.students, IdentityMatcher(p), 0);
  }

  /** No row of the initial table spells its level `undergraduate`. */
  lemma NoLowerCaseLevelInTable()
    ensures forall i :: 0 <= i < |MockStudents()| ==> MockStudents()[i].level != "undergraduate"
  {
  }

  /**
   * On the initial table, any claim whose level is written `undergraduate`
   * finds no one, even Alice Johnson's exact id and name: level is compared exactly.
   */
  lemma LowerCaseLevelFindsNobody(db: Database, p: ValidationPayload)
    requires db.students == MockStudents()
    requires p.level == "undergraduate"
    ensures db.ValidateStudentIdentity(p).None?
  {
    NoLowerCaseLevelInTable();
    forall s | s in db.students ensures !IdentityMatches(p, s) {
      assert s.level != p.level;
    }
  }

  /** In the class table no two classes share a level and a field of study. */
  lemma ClassTableUnique()
    ensures forall i, j ::
      (&& 0 <= i < |MockClasses()| && 0 <= j < |MockClasses()|
       && MockClasses()[i].level == MockClasses()[j].level
       && MockClasses()[i].fieldOfStudy == MockClasses()[j].fieldOfStudy) ==> i == j
  {
  }

  /** Hence a matching class is the one assigned. */
  lemma AssignmentUnique(db: Database, student: Student, c: Class)
    requires c in db.classes
    requires c.level == student.level && c.fieldOfStudy == student.fieldOfStudy
    ensures db.AssignClassForStudent(student) == Some(c)
  {
    ClassTableUnique();
  }

  /** An undergraduate in Computer Science is assigned CS101. */
  lemma ComputerScienceUndergraduateGetsCS101(db: Database, student: Student)
    requires student.level == "Undergraduate" && student.fieldOfStudy == "Computer Science"
    ensures db.AssignClassForStudent(student).Some?
    ensures db.AssignClassForStudent(student).value.id == "CS101"
  {
    AssignmentUnique(db, student, MockClasses()[0]);
  }
}
