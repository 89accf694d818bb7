/** The three Mongoose schemas of the backend (users, OA questions,
    companies), with the validators Mongoose runs on them and the user
    schema's pre-save hook.

    Mongoose's `required` validator rejects an absent string and the empty
    string alike, so an absent string field is represented by "". */
module Schema {
  import opened Common

  // ---------------------------------------------------------------- users

  /** The `role` enum: the type admits exactly "user" and "admin". */
  datatype Role = UserRole | AdminRole

  datatype User = User(
    id: Id,
    username: string,
    password: string,
    refreshToken: Option<string>,
    role: Role)

  function UserId(u: User): Id { u.id }
  function Username(u: User): Id { u.username }

  const MinPasswordLength: nat := 6

  /** The validators of the user schema: `username` and `password` are
      required and `password` has at least six characters. */
  predicate UserFieldsValid(username: string, password: string) {
    username != "" && |password| >= MinPasswordLength
  }

  /** A document built from `{ username, password, role }`: the fields not
      given take their schema defaults. */
  function NewUser(id: Id, username: string, password: string, role: Role): (u: User)
    ensures u.refreshToken == None
    ensures u.id == id && u.username == username && u.password == password && u.role == role
  {
    User(id, username, password, None, role)
  }

  /** A document built without a role: the default role is "user". */
  function NewUserDefaultRole(id: Id, username: string, password: string): (u: User)
    ensures u.role == UserRole && u.refreshToken == None
  {
    NewUser(id, username, password, UserRole)
  }

  /** The pre-save hook, as far as the stored document goes. A modified
      password is hashed before the save goes on. For an unmodified one the
      guard calls `next()` without returning: the save goes on at once and
      writes the document as it is, while the rest of the hook, after
      awaiting bcrypt, re-hashes the password of the in-memory document
      only; that assignment is never written, and its `next()` comes after
      the save has already gone on. */
  function PreSave(u: User, passwordModified: bool, hash: string -> string): (r: User)
    ensures passwordModified ==> r.password == hash(u.password)
    ensures !passwordModified ==> r == u
    ensures r.(password := u.password) == u
  {
    if passwordModified then u.(password := hash(u.password)) else u
  }

  /** `bcrypt.compare`: the entered password matches when it hashes to the
      stored value. */
  predicate PasswordMatches(entered: string, stored: string, hash: string -> string) {
    hash(entered) == stored
  }

  // ------------------------------------------------------------ questions

  /** One element of `hiddenTestCases`. */
  datatype TestCase = TestCase(input: string, output: string)

  /** The content of a question: every field of the schema except `_id`. */
  datatype QuestionFields = QuestionFields(
    title: string,
    description: string,
    input: string,
    output: string,
    constraints: string,
    companyId: Option<Id>,
    hiddenTestCases: seq<TestCase>)

  datatype Question = Question(id: Id, fields: QuestionFields)

  function QuestionId(q: Question): Id { q.id }

  /** Both fields of a hidden test case are required. */
  predicate TestCaseValid(t: TestCase) {
    t.input != "" && t.output != ""
  }

  predicate TestCasesValid(ts: seq<TestCase>) {
    forall i :: 0 <= i < |ts| ==> TestCaseValid(ts[i])
  }

  /** `title`, `description`, `input`, `output` and `constraints` are
      required, `companyId` is optional, and every hidden test case is
      valid. */
  predicate QuestionValid(f: QuestionFields) {
    && f.title != "" && f.description != "" && f.input != ""
    && f.output != "" && f.constraints != ""
    && TestCasesValid(f.hiddenTestCases)
  }

  /** A request body for an update: the fields it sets (`None`: absent). */
  datatype QuestionPatch = QuestionPatch(
    title: Option<string>,
    description: Option<string>,
    input: Option<string>,
    output: Option<string>,
    constraints: Option<string>,
    companyId: Option<Id>,
    hiddenTestCases: Option<seq<TestCase>>)

  function Pick<T>(p: Option<T>, current: T): T {
    match p
    case Some(v) => v
    case None => current
  }

  /** Update validators run on the paths present in the update only. */
  predicate QuestionPatchValid(p: QuestionPatch) {
    && p.title != Some("") && p.description != Some("") && p.input != Some("")
    && p.output != Some("") && p.constraints != Some("")
    && (p.hiddenTestCases.Some? ==> TestCasesValid(p.hiddenTestCases.value))
  }

  /** `$set` of every present field; absent fields keep their value. */
  function ApplyQuestionPatch(f: QuestionFields, p: QuestionPatch): (r: QuestionFields)
    ensures r.title == (if p.title.Some? then p.title.value else f.title)
    ensures r.description == (if p.description.Some? then p.description.value else f.description)
    ensures r.input == (if p.input.Some? then p.input.value else f.input)
    ensures r.output == (if p.output.Some? then p.output.value else f.output)
    ensures r.constraints == (if p.constraints.Some? then p.constraints.value else f.constraints)
    ensures r.companyId == (if p.companyId.Some? then p.companyId else f.companyId)
    ensures r.hiddenTestCases == (if p.hiddenTestCases.Some? then p.hiddenTestCases.value else f.hiddenTestCases)
    ensures QuestionValid(f) && QuestionPatchValid(p) ==> QuestionValid(r)
  {
    QuestionFields(
      Pick(p.title, f.title), Pick(p.description, f.description),
      Pick(p.input, f.input), Pick(p.output, f.output),
      Pick(p.constraints, f.constraints),
      if p.companyId.Some? then p.companyId else f.companyId,
      Pick(p.hiddenTestCases, f.hiddenTestCases))
  }

  // ------------------------------------------------------------ companies

  /** A company: a required name and the ordered ids of its questions. */
  datatype Company = Company(id: Id, name: string, questions: seq<Id>)

  function CompanyId(c: Company): Id { c.id }

  predicate CompanyNameValid(name: string) { name != "" }

  datatype CompanyPatch = CompanyPatch(name: Option<string>, questions: Option<seq<Id>>)

  function ApplyCompanyPatch(c: Company, p: CompanyPatch): (r: Company)
    ensures r.id == c.id
    ensures p.name.Some? ==> r.name == p.name.value
    ensures p.name.None? ==> r.name == c.name
    ensures p.questions.Some? ==> r.questions == p.questions.value
    ensures p.questions.None? ==> r.questions == c.questions
  {
    Company(c.id, Pick(p.name, c.name), Pick(p.questions, c.questions))
  }
}
