# VeriGenius student validation: the mock database and the request schemas

This project models the decision logic of the VeriGenius student-validation
API in Dafny:

- The mock "university database" of `src/lib/verigenius.ts`. It holds a student
  table (`mockStudents`), which is updated in place, and a class table
  (`mockClasses`), which never changes. It has three operations:
  - `validateStudentIdentity` returns the first student whose matricule and
    name match the claim up to letter case and whose level and field of study
    match exactly.
  - `assignClassForStudent` returns the first class with the student's level
    and field of study.
  - `updateStudentStatusInDb` marks the first student with exactly the given id
    as `active` and always reports success.
- The zod schemas of `src/lib/verigenius-types.ts`.
  - `studentValidationSchema` requires five non-empty strings.
  - `studentCreationSchema` extends it with an optional `id`, a `status` from the
    closed enum `pending`/`active`/`inactive` and a non-empty `classId`.

Layout, one module per file:

- `wrappers.dfy` (`Wrappers`): `Option`, standing for the source's `T | null`
  results.
- `ascii.dfy` (`Ascii`): `toLowerCase` on ASCII letters. It also holds an
  independent definition of "equal up to letter case" and the lemma that ties
  the two together.
- `array_find.dfy` (`ArrayFind`): `Array.prototype.find`, a first-match search
  from left to right.
- `zod.dfy` (`Zod`): JSON values, object shapes built from the three field rules
  the schemas use, acceptance, and `.extend`.
- `verigenius_types.dfy` (`StudentTypes`): the status enum, the two schemas, the
  typed payloads a successful parse yields, and the stored `Student`/`Class`
  documents.
- `verigenius.dfy` (`MockDatabase`): the row types, the two tables, the
  file's own four-field payload schema, and the class `Database`. `students` is
  a `seq` field that the update method reassigns. `classes` is a constant.

The two files declare different `Student` shapes, and each module keeps its
own. The status union is the same in both files, so it is declared once, in
`StudentTypes`. The record types are datatypes:

- `MockDatabase.Student` and `MockDatabase.Class` are the rows of the mock
  tables (src/lib/verigenius.ts:14-28). `id` is the matricule.
- `MockDatabase.ValidationPayload` is the typed claim (src/lib/verigenius.ts:11).
- `StudentTypes.Status` is the union `'pending' | 'active' | 'inactive'`
  (src/lib/verigenius-types.ts:31, src/lib/verigenius.ts:19).
- `StudentTypes.ValidationPayload` and `StudentTypes.CreationPayload` are the
  inferred payload types (src/lib/verigenius-types.ts:19-20). They are what
  `ParseValidation` and `ParseCreation` return.
- `StudentTypes.Student` and `StudentTypes.Class` are the stored Firestore
  documents (src/lib/verigenius-types.ts:24-42). They only record the
  interface shapes: nothing in the two modelled files computes with them.

The behaviour follows the code. The code has no id-format check, no gate on
payment status and no audit log, and the `validate-student` route is a stub
that always answers 200. None of that is modelled. The statuses are the code's
`pending`/`active`/`inactive`.

## Model

| member | source | states |
|---|---|---|
| `Ascii.ToLower` | src/lib/verigenius.ts:54-55 | lower-casing keeps the length and maps every character through the ASCII lower-case map |
| `Ascii.ToLowerEqualIff` | src/lib/verigenius.ts:54-55 | two lower-cased strings are equal iff the strings are equal up to letter case, character by character (both directions) |
| `Ascii.ToLowerIdempotent` | src/lib/verigenius.ts:54-55 | lower-casing twice is the same as lower-casing once |
| `Ascii.ToLowerHasNoUpper` | src/lib/verigenius.ts:54-55 | a lower-cased string contains no upper-case letter |
| `ArrayFind.FindIndex` | src/lib/verigenius.ts:52-58 | `find` stops at the first index whose element the predicate accepts; it finds nothing iff no element is accepted |
| `ArrayFind.Find` | src/lib/verigenius.ts:52-59 | a found value is accepted, belongs to the array and is the element at the first accepted index; nothing is found iff no element is accepted |
| `ArrayFind.FindIndexIsFirstMatch` | src/lib/verigenius.ts:52 | the first accepted index is unique, so `find` returns exactly that one |
| `ArrayFind.FindIndexCongruent` | src/lib/verigenius.ts:52-58 | two predicates that agree on every element give the same search result |
| `Zod.FieldAccepts` | src/lib/verigenius-types.ts:5-16 | one field rule at one key: `z.string().min(1)` needs a string of length at least 1, `z.string().optional()` an absent key or a string, `z.enum` one of the listed strings; characterised per schema by `StudentTypes.ValidationSchemaIff` and `StudentTypes.CreationSchemaIff` |
| `Zod.Accepts` | src/lib/verigenius-types.ts:4-17 | `z.object(shape).safeParse(o).success`: every key of the shape passes its rule, keys outside the shape play no part (`Zod.UnknownKeyIgnored`) |
| `Zod.Extend` | src/lib/verigenius-types.ts:13-17 | `.extend` produces the union of the key sets; the extension's rule wins on a shared key and the base's rule is kept elsewhere |
| `Zod.ExtendAcceptsIff` | src/lib/verigenius-types.ts:13-17 | an extension that overrides no base key accepts exactly the objects that both the base and the extension accept |
| `Zod.UnknownKeyIgnored` | src/lib/verigenius-types.ts:4-10 | a key the schema does not name never changes acceptance |
| `StudentTypes.StatusName` | src/lib/verigenius-types.ts:15 | every status is spelled as one of the three enum members |
| `StudentTypes.ParseStatus` | src/lib/verigenius-types.ts:15 | a string is a status iff it is one of `pending`, `active`, `inactive`, and it reads back to that spelling |
| `StudentTypes.StatusRoundTrip` | src/lib/verigenius-types.ts:15 | every status is read back from its own spelling |
| `StudentTypes.ValidationSchema` | src/lib/verigenius-types.ts:4-10 | `studentValidationSchema`: five keys, each a non-empty string; what it accepts is stated by `StudentTypes.ValidationSchemaIff` |
| `StudentTypes.CreationExtension` | src/lib/verigenius-types.ts:14-16 | the argument of `.extend`: an optional `id`, a `status` from the enum, a non-empty `classId` |
| `StudentTypes.CreationSchema` | src/lib/verigenius-types.ts:13-17 | `studentCreationSchema` as the base schema extended by those three keys; what it accepts is stated by `StudentTypes.CreationSchemaIff` |
| `StudentTypes.ValidationSchemaIff` | src/lib/verigenius-types.ts:4-10 | the validation schema accepts iff `studentId`, `firstName`, `lastName`, `level` and `fieldOfStudy` are all non-empty strings |
| `StudentTypes.CreationSchemaIff` | src/lib/verigenius-types.ts:13-17 | the creation schema accepts iff the validation schema does, `status` is a known enum member, `classId` is a non-empty string, and `id` is absent or a string |
| `StudentTypes.CreationImpliesValidation` | src/lib/verigenius-types.ts:13 | every object the creation schema accepts is accepted by the validation schema |
| `StudentTypes.ValidationDoesNotImplyCreation` | src/lib/verigenius-types.ts:13-17 | the inclusion is strict: an identity claim with no status and no class passes validation but not creation |
| `StudentTypes.EmptyFieldRejected` | src/lib/verigenius-types.ts:5-9 | an empty string in any one of the five fields makes both schemas reject, whatever the other fields hold |
| `StudentTypes.UnknownStatusRejected` | src/lib/verigenius-types.ts:15 | a missing status, a non-string status or a string outside the enum is rejected by the creation schema |
| `StudentTypes.ParseValidation` | src/lib/verigenius-types.ts:4-19 | parsing succeeds iff the validation schema accepts, and the payload carries exactly the object's five strings |
| `StudentTypes.ValidationRoundTrip` | src/lib/verigenius-types.ts:4-10 | a payload with non-empty fields, once sent as JSON, parses back to itself |
| `StudentTypes.ParseCreation` | src/lib/verigenius-types.ts:13-20 | parsing succeeds iff the creation schema accepts; the payload agrees with the object on every schema key, and an absent `id` stays absent |
| `StudentTypes.CreationRoundTrip` | src/lib/verigenius-types.ts:13-17 | a creation payload with non-empty fields, once sent as JSON, parses back to itself |
| `MockDatabase.PayloadSchema` | src/lib/verigenius.ts:4-9 | this file's own `studentValidationSchema`: four keys, each a non-empty string; what it accepts is stated by `MockDatabase.PayloadSchemaIff` |
| `MockDatabase.IdentityMatches` | src/lib/verigenius.ts:53-57 | the predicate given to `find`: id and name equal after lower-casing, level and field of study equal exactly; read as "equal up to letter case" through `Ascii.ToLowerEqualIff` in `MockDatabase.Database.ValidateStudentIdentity` |
| `MockDatabase.PayloadSchemaIff` | src/lib/verigenius.ts:4-9 | this file's schema accepts iff `studentId`, `name`, `level` and `fieldOfStudy` are all non-empty strings |
| `MockDatabase.ActivateFirst` | src/lib/verigenius.ts:95-98 | the update keeps the table's length and every id, name, level and field of study; only the first student with exactly that id becomes active; with no such id the table is unchanged |
| `MockDatabase.ActivateIdempotent` | src/lib/verigenius.ts:95-103 | running the update twice has the same effect as running it once |
| `MockDatabase.Database.constructor` | src/lib/verigenius.ts:31-42 | the database starts with the four mock students; the class table is the three mock classes |
| `MockDatabase.Database.ValidateStudentIdentity` | src/lib/verigenius.ts:51-60 | a returned student is in the table, matches id and name up to letter case and level and field of study exactly, and is the first such student in table order; null iff no student matches |
| `MockDatabase.Database.AssignClassForStudent` | src/lib/verigenius.ts:67-74 | a returned class is in the table and has the student's exact level and field of study; null iff no class has both |
| `MockDatabase.Database.UpdateStudentStatusInDb` | src/lib/verigenius.ts:82-104 | always returns true; the new student table is the old one with its first exact-id match set to active |
| `MockDatabase.CaseOfIdAndNameIgnored` | src/lib/verigenius.ts:54-55 | changing the letter case of the claimed id or name never changes the result of the identity lookup |
| `MockDatabase.OtherCaseFindsAlice` | src/lib/verigenius.ts:51-59 | on the initial table, `stu12345` / `ALICE johnson` / Undergraduate / Computer Science finds Alice Johnson |
| `MockDatabase.AliceMatchesOtherCase` | src/lib/verigenius.ts:53-57 | Alice Johnson's row passes the identity test for a claim that writes her id and name in other letter cases |
| `MockDatabase.NoLowerCaseLevelInTable` | src/lib/verigenius.ts:31-36 | no row of the initial student table spells its level `undergraduate` |
| `MockDatabase.LowerCaseLevelFindsNobody` | src/lib/verigenius.ts:56-57 | on the initial table, any claim whose level is written `undergraduate` finds no one, even with Alice Johnson's id and name: level is compared exactly |
| `MockDatabase.ClassTableUnique` | src/lib/verigenius.ts:38-42 | no two classes in the table share both level and field of study |
| `MockDatabase.AssignmentUnique` | src/lib/verigenius.ts:67-73 | a class of the table with the student's level and field of study is the one assigned |
| `MockDatabase.ComputerScienceUndergraduateGetsCS101` | src/lib/verigenius.ts:38-42 | an undergraduate in Computer Science is assigned CS101 |

## Left out

- `Ascii.ToLower`: lower-cases only the ASCII letters A to Z. JavaScript's `toLowerCase` also folds other Unicode letters, such as accented capitals.
- `MockDatabase.Database.UpdateStudentStatusInDb`: runs synchronously. The 500 ms `setTimeout` and the `console.log` line change no state. `classId` is accepted but only appears in that log line.
- `MockDatabase.Database`: one object stands for the module-level tables, which every caller in the process shares.
- `MockDatabase.Database.ValidateStudentIdentity`: returns a copy of the row. In the source it returns the row object itself, and a later `updateStudentStatusInDb` changes that same object. A caller still holding the returned student therefore sees its `status` become `active`, while the model's copy stays as it was. This aliasing is not modelled.
- Zod's error messages and `flatten()` are not modelled. The parsed output with unknown keys removed is modelled by the typed payloads that `ParseValidation` and `ParseCreation` return, which carry only the schema's keys.
- JSON numbers are modelled as integers. A number is never a string, so no schema outcome depends on this.
- `.min(1)` counts UTF-16 code units, and the model counts characters. The difference does not matter for "at least one".
- Firebase start-up (`src/firebase/admin.ts`, `src/firebase/server.ts`) is left out. It consists of SDK calls and process I/O.
- The students CRUD routes are left out. They are thin Firestore wrappers, and their only decision is the schema call modelled above.
- The `validate-student` route is left out. It returns a constant 200 response.
- The React pages and components, the layout and `next.config.ts` are left out. They hold rendering and configuration, not decision logic.
- The validation flow with an id-format check, a payment-status gate and an audit log is left out. No code implements it.
