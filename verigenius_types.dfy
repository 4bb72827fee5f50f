/**
 * The request schemas of the students API and the Firestore student record:
 * `studentValidationSchema`, `studentCreationSchema` (its `.extend`), the
 * closed status enumeration, and the typed payloads a successful parse yields.
 */
module StudentTypes {
  import opened Wrappers
  import opened Zod

  /** The status union `'pending' | 'active' | 'inactive'`. */
  datatype Status = Pending | Active | Inactive

  /** The members of `z.enum(["pending", "active", "inactive"])`, in the source's order. */
  const StatusNames: seq<string> := ["pending", "active", "inactive"]

  /** The JSON spelling of a status. */
  function StatusName(st: Status): (r: string)
    ensures r in StatusNames
  {
    match st
    case Pending => "pending"
    case Active => "active"
    case Inactive => "inactive"
  }

  /** Reads a status from its JSON spelling; only the three enum members are statuses. */
  function ParseStatus(s: string): (r: Option<Status>)
    ensures r.Some? <==> s in StatusNames
    ensures r.Some? ==> StatusName(r.value) == s
  {
    if s == "pending" then Some(Pending)
    else if s == "active" then Some(Active)
    else if s == "inactive" then Some(Inactive)
    else None
  }

  /** Every status is read back from its spelling. */
  lemma StatusRoundTrip(st: Status)
    ensures ParseStatus(StatusName(st)) == Some(st)
  {
  }

  /** `studentValidationSchema`: five required non-empty strings. */
  function ValidationSchema(): Shape {
    map[
      "studentId" := NonEmptyString,
      "firstName" := NonEmptyString,
      "lastName" := NonEmptyString,
      "level" := NonEmptyString,
      "fieldOfStudy" := NonEmptyString
    ]
  }

  /** The keys `studentCreationSchema` adds to `studentValidationSchema`. */
  function CreationExtension(): Shape {
    map[
      "id" := OptionalString,
      "status" := Enum(StatusNames),
      "classId" := NonEmptyString
    ]
  }

  /** `studentCreationSchema = studentValidationSchema.extend({...})`. */
  function CreationSchema(): Shape {
    Extend(ValidationSchema(), CreationExtension())
  }

  /** Reference reading of `z.string().min(1)` at one key. */
  predicate NonEmptyStringAt(o: Object, key: string) {
    key in o && o[key].Str? && o[key].s != ""
  }

  /** The status field holds one of the three enum spellings. */
  predicate KnownStatusAt(o: Object) {
    "status" in o && o["status"].Str? && ParseStatus(o["status"].s).Some?
  }

  /** The validation schema accepts exactly the objects whose five fields are non-empty strings. */
  lemma ValidationSchemaIff(o: Object)
    ensures Accepts(ValidationSchema(), o) <==>
      && NonEmptyStringAt(o, "studentId")
      && NonEmptyStringAt(o, "firstName")
      && NonEmptyStringAt(o, "lastName")
      && NonEmptyStringAt(o, "level")
      && NonEmptyStringAt(o, "fieldOfStudy")
  {
    var shape := ValidationSchema();
    if Accepts(shape, o) {
      assert FieldAccepts(shape["studentId"], o, "studentId");
      assert FieldAccepts(shape["firstName"], o, "firstName");
      assert FieldAccepts(shape["lastName"], o, "lastName");
      assert FieldAccepts(shape["level"], o, "level");
      assert FieldAccepts(shape["fieldOfStudy"], o, "fieldOfStudy");
    }
  }

  /**
   * The creation schema accepts exactly the objects the validation schema
   * accepts that also carry a known status, a non-empty `classId`, and an `id`
   * that is absent or a string.
   */
  lemma CreationSchemaIff(o: Object)
    ensures Accepts(CreationSchema(), o) <==>
      && Accepts(ValidationSchema(), o)
      && KnownStatusAt(o)
      && NonEmptyStringAt(o, "classId")
      && ("id" in o ==> o["id"].Str?)
  {
    var ext := CreationExtension();
    ExtendAcceptsIff(ValidationSchema(), ext, o);
    if Accepts(ext, o) {
      assert FieldAccepts(ext["id"], o, "id");
      assert FieldAccepts(ext["status"], o, "status");
      assert FieldAccepts(ext["classId"], o, "classId");
    }
  }

  /** Whatever the creation schema accepts, the validation schema accepts. */
  lemma CreationImpliesValidation(o: Object)
    requires Accepts(CreationSchema(), o)
    ensures Accepts(ValidationSchema(), o)
  {
    CreationSchemaIff(o);
  }

  /**
   * The inclusion is strict: the admin form's placeholder identity, without a
   * status or a class, passes validation but is not a creatable student.
   */
  lemma ValidationDoesNotImplyCreation()
    ensures var o := map[
        "studentId" := Str("E20240101"), "firstName" := Str("John"), "lastName" := Str("Doe"),
        "level" := Str("Licence 3"), "fieldOfStudy" := Str("Informatique de Gestion")];
      Accepts(ValidationSchema(), o) && !Accepts(CreationSchema(), o)
  {
    var o := map[
        "studentId" := Str("E20240101"), "firstName" := Str("John"), "lastName" := Str("Doe"),
        "level" := Str("Licence 3"), "fieldOfStudy" := Str("Informatique de Gestion")];
    ValidationSchemaIff(o);
    CreationSchemaIff(o);
  }

  /** An empty string in any one of the five fields is rejected by both schemas, whatever else `o` holds. */
  lemma EmptyFieldRejected(o: Object, key: string)
    requires key in ValidationSchema()
    requires key in o && o[key] == Str("")
    ensures !Accepts(ValidationSchema(), o)
    ensures !Accepts(CreationSchema(), o)
  {
    assert !FieldAccepts(ValidationSchema()[key], o, key);
    CreationSchemaIff(o);
  }

  /** The set of statuses is closed: a missing, non-string or unknown status is rejected. */
  lemma UnknownStatusRejected(o: Object)
    requires !("status" in o && o["status"].Str? && o["status"].s in StatusNames)
    ensures !Accepts(CreationSchema(), o)
  {
    CreationSchemaIff(o);
  }

  /** The typed result of `studentValidationSchema.safeParse`. */
  datatype ValidationPayload = ValidationPayload(
    studentId: string, firstName: string, lastName: string, level: string, fieldOfStudy: string)

  /** The typed result of `studentCreationSchema.safeParse`. */
  datatype CreationPayload = CreationPayload(
    studentId: string, firstName: string, lastName: string, level: string, fieldOfStudy: string,
    id: Option<string>, status: Status, classId: string)

  /** The stored student document: the document id, the matricule `studentId`, and a class reference. */
  datatype Student = Student(
    id: string, firstName: string, lastName: string, studentId: string,
    level: string, fieldOfStudy: string, status: Status, classId: string)

  /** The stored class document; `studentIds` is optional. */
  datatype Class = Class(id: string, name: string, level: string, fieldOfStudy: string, studentIds: Option<seq<string>>)

  /** `studentValidationSchema.safeParse(o)`: the payload, or `None` when the schema rejects `o`. */
  function ParseValidation(o: Object): (r: Option<ValidationPayload>)
    ensures r.Some? <==> Accepts(ValidationSchema(), o)
    ensures r.Some? ==> forall key :: key in ValidationSchema() ==> key in o && ValidationObject(r.value)[key] == o[key]
  {
    ValidationSchemaIff(o);
    if && NonEmptyStringAt(o, "studentId") && NonEmptyStringAt(o, "firstName")
       && NonEmptyStringAt(o, "lastName") && NonEmptyStringAt(o, "level")
       && NonEmptyStringAt(o, "fieldOfStudy")
    then
      Some(ValidationPayload(o["studentId"].s, o["firstName"].s, o["lastName"].s, o["level"].s, o["fieldOfStudy"].s))
    else
      None
  }

  /** The JSON body a client sends for a validation payload. */
  function ValidationObject(p: ValidationPayload): Object {
    map[
      "studentId" := Str(p.studentId),
      "firstName" := Str(p.firstName),
      "lastName" := Str(p.lastName),
      "level" := Str(p.level),
      "fieldOfStudy" := Str(p.fieldOfStudy)
    ]
  }

  predicate ValidationFieldsNonEmpty(p: ValidationPayload) {
    p.studentId != "" && p.firstName != "" && p.lastName != "" && p.level != "" && p.fieldOfStudy != ""
  }

  /** A payload with non-empty fields survives being sent and parsed. */
  lemma ValidationRoundTrip(p: ValidationPayload)
    requires ValidationFieldsNonEmpty(p)
    ensures ParseValidation(ValidationObject(p)) == Some(p)
  {
    ValidationSchemaIff(ValidationObject(p));
  }

  /** `studentCreationSchema.safeParse(o)`: the payload, or `None` when the schema rejects `o`. */
  function ParseCreation(o: Object): (r: Option<CreationPayload>)
    ensures r.Some? <==> Accepts(CreationSchema(), o)
    ensures r.Some? ==> forall key :: key in CreationSchema() && key in o ==> key in CreationObject(r.value) && CreationObject(r.value)[key] == o[key]
    ensures r.Some? ==> forall key :: key in CreationSchema() && key !in o ==> key !in CreationObject(r.value)
  {
    CreationSchemaIff(o);
    match ParseValidation(o)
    case None => None
    case Some(v) =>
      if KnownStatusAt(o) && NonEmptyStringAt(o, "classId") && ("id" in o ==> o["id"].Str?) then
        var id := if "id" in o then Some(o["id"].s) else None;
        Some(CreationPayload(v.studentId, v.firstName, v.lastName, v.level, v.fieldOfStudy,
                             id, ParseStatus(o["status"].s).value, o["classId"].s))
      else
        None
  }

  /** The JSON body the admin form sends for a new student; an absent `id` is an absent key. */
  function CreationObject(p: CreationPayload): Object {
    var fields := map[
      "studentId" := Str(p.studentId),
      "firstName" := Str(p.firstName),
      "lastName" := Str(p.lastName),
      "level" := Str(p.level),
      "fieldOfStudy" := Str(p.fieldOfStudy),
      "status" := Str(StatusName(p.status)),
      "classId" := Str(p.classId)
    ];
    if p.id.Some? then fields["id" := Str(p.id.value)] else fields
  }

  predicate CreationFieldsNonEmpty(p: CreationPayload) {
    p.studentId != "" && p.firstName != "" && p.lastName != "" && p.level != "" && p.fieldOfStudy != ""
    && p.classId != ""
  }

  /** A creation payload with non-empty fields survives being sent and parsed. */
  lemma CreationRoundTrip(p: CreationPayload)
    requires CreationFieldsNonEmpty(p)
    ensures ParseCreation(CreationObject(p)) == Some(p)
  {
    var o := CreationObject(p);
    assert o["studentId"] == Str(p.studentId) && o["firstName"] == Str(p.firstName)
      && o["lastName"] == Str(p.lastName) && o["level"] == Str(p.level)
      && o["fieldOfStudy"] == Str(p.fieldOfStudy);
    assert o["status"] == Str(StatusName(p.status)) && o["classId"] == Str(p.classId);
    assert "id" in o <==> p.id.Some?;
    assert p.id.Some? ==> o["id"] == Str(p.id.value);
    var v := ValidationPayload(p.studentId, p.firstName, p.lastName, p.level, p.fieldOfStudy);
    assert ParseValidation(o) == Some(v) by {
      ValidationSchemaIff(o);
    }
    StatusRoundTrip(p.status);
  }
}
