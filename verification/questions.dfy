/** The OA-question controller. Creating a question also pushes its id onto
    the referenced company's `questions`; deleting one does not pull it
    back out. */
module QuestionController {
  import opened Common
  import opened Schema
  import opened Store
  import CompanyController

  /** A question with `populate("companyId")` applied: the referenced
      company, or `None` when it is absent or no longer exists. */
  datatype PopulatedQuestion = PopulatedQuestion(id: Id, fields: QuestionFields, company: Option<Company>)

  const NotFound: string := "OA question not found"
  const ForbiddenCreate: string := "You are not authorized to create a OA question"
  const ForbiddenUpdate: string := "You are not authorized to update a OA question"
  const ForbiddenDelete: string := "You are not authorized to delete a OA question"

  function PopulateQuestion(q: Question, companies: seq<Company>): (r: PopulatedQuestion)
    ensures r.id == q.id && r.fields == q.fields
    ensures r.company.None? <==> q.fields.companyId.None? || !Has(companies, CompanyId, q.fields.companyId.value)
    ensures r.company.Some? ==>
              && q.fields.companyId == Some(r.company.value.id)
              && r.company.value == companies[FindIndex(companies, CompanyId, q.fields.companyId.value)]
  {
    var company :=
      match q.fields.companyId
      case None => None
      case Some(c) => Find(companies, CompanyId, c);
    PopulatedQuestion(q.id, q.fields, company)
  }

  function GetOAQuestions(db: Db): (r: seq<PopulatedQuestion>)
    ensures |r| == |db.questions|
    ensures forall i :: 0 <= i < |r| ==> r[i] == PopulateQuestion(db.questions[i], db.companies)
    decreases |db.questions|
  {
    if |db.questions| == 0 then []
    else [PopulateQuestion(db.questions[0], db.companies)]
         + GetOAQuestions(db.(questions := db.questions[1..]))
  }

  function GetOAQuestion(db: Db, id: Id): (r: Outcome<PopulatedQuestion>)
    ensures r.Done? <==> Has(db.questions, QuestionId, id)
    ensures !r.Done? ==> r == ApiError(404, NotFound)
    ensures r.Done? ==>
              && r.status == 200
              && r.body == PopulateQuestion(db.questions[FindIndex(db.questions, QuestionId, id)], db.companies)
  {
    match Find(db.questions, QuestionId, id)
    case None => ApiError(404, NotFound)
    case Some(q) => Done(200, PopulateQuestion(q, db.companies))
  }

  /** `Company.findByIdAndUpdate(companyId, { $push: { questions: qid } })`,
      which updates the first company matching `{ _id: companyId }`. A
      present id that matches no company changes nothing. An absent id
      leaves `{ _id: undefined }`, which Mongoose casts to the empty filter
      (only `findById` turns `undefined` into `null`), so the first company
      in natural order receives the id. */
  function LinkToCompany(companies: seq<Company>, companyId: Option<Id>, qid: Id): (r: seq<Company>)
    ensures |r| == |companies|
    ensures forall i :: 0 <= i < |r| ==> r[i].id == companies[i].id && r[i].name == companies[i].name
    ensures companyId.Some? && !Has(companies, CompanyId, companyId.value) ==> r == companies
    ensures companyId.Some? && Has(companies, CompanyId, companyId.value) ==>
              var k := FindIndex(companies, CompanyId, companyId.value);
              && r[k].questions == companies[k].questions + [qid]
              && forall i :: 0 <= i < |r| && i != k ==> r[i] == companies[i]
    ensures companyId.None? && |companies| == 0 ==> r == companies
    ensures companyId.None? && |companies| > 0 ==>
              && r[0].questions == companies[0].questions + [qid]
              && forall i :: 0 < i < |r| ==> r[i] == companies[i]
  {
    var k := if companyId.None? then (if |companies| == 0 then -1 else 0)
             else FindIndex(companies, CompanyId, companyId.value);
    if k == -1 then companies
    else companies[k := companies[k].(questions := companies[k].questions + [qid])]
  }

  function CreateOAQuestion(db: Db, caller: Role, f: QuestionFields): (r: Step<Question>)
    ensures caller != AdminRole ==> r == Step(db, ApiError(403, ForbiddenCreate))
    ensures r.out.Done? <==> caller == AdminRole && QuestionValid(f)
    ensures !r.out.Done? ==> r.db == db
    ensures r.out.Done? ==>
              && r.out.status == 201
              && r.out.body.fields == f
              && !Has(db.questions, QuestionId, r.out.body.id)
              && (forall k :: 0 <= k < |db.companies| ==> r.out.body.id !in db.companies[k].questions)
              && r.db.questions == db.questions + [r.out.body]
              && r.db.users == db.users
              && r.db.companies == LinkToCompany(db.companies, f.companyId, r.out.body.id)
  {
    if caller != AdminRole then Step(db, ApiError(403, ForbiddenCreate))
    else if !QuestionValid(f) then Step(db, ValidationFailed)
    else
      var q := Question(NewQuestionId(db), f);
      Step(Db(db.users, LinkToCompany(db.companies, f.companyId, q.id), db.questions + [q]),
           Done(201, q))
  }

  function UpdateOAQuestion(db: Db, caller: Role, id: Id, patch: QuestionPatch): (r: Step<Question>)
    ensures caller != AdminRole ==> r == Step(db, ApiError(403, ForbiddenUpdate))
    ensures caller == AdminRole && QuestionPatchValid(patch) && !Has(db.questions, QuestionId, id) ==>
              r == Step(db, ApiError(404, NotFound))
    ensures r.out.Done? <==>
              caller == AdminRole && QuestionPatchValid(patch) && Has(db.questions, QuestionId, id)
    ensures !r.out.Done? ==> r.db == db
    ensures r.out.Done? ==>
              var k := FindIndex(db.questions, QuestionId, id);
              && r.out.status == 200
              && r.out.body == Question(id, ApplyQuestionPatch(db.questions[k].fields, patch))
              && r.db == db.(questions := db.questions[k := r.out.body])
  {
    if caller != AdminRole then Step(db, ApiError(403, ForbiddenUpdate))
    else if !QuestionPatchValid(patch) then Step(db, ValidationFailed)
    else
      var k := FindIndex(db.questions, QuestionId, id);
      if k == -1 then Step(db, ApiError(404, NotFound))
      else
        var q := Question(id, ApplyQuestionPatch(db.questions[k].fields, patch));
        Step(db.(questions := db.questions[k := q]), Done(200, q))
  }

  function DeleteOAQuestion(db: Db, caller: Role, id: Id): (r: Step<()>)
    ensures caller != AdminRole ==> r == Step(db, ApiError(403, ForbiddenDelete))
    ensures caller == AdminRole && !Has(db.questions, QuestionId, id) ==>
              r == Step(db, ApiError(404, NotFound))
    ensures r.out.Done? <==> caller == AdminRole && Has(db.questions, QuestionId, id)
    ensures r.db.companies == db.companies && r.db.users == db.users
    ensures r.out.Done? ==>
              var k := FindIndex(db.questions, QuestionId, id);
              && r.out == Done(200, ())
              && r.db.questions == db.questions[..k] + db.questions[k + 1..]
  {
    if caller != AdminRole then Step(db, ApiError(403, ForbiddenDelete))
    else
      var k := FindIndex(db.questions, QuestionId, id);
      if k == -1 then Step(db, ApiError(404, NotFound))
      else Step(db.(questions := db.questions[..k] + db.questions[k + 1..]), Done(200, ()))
  }

  // --------------------------------------------------------------- lemmas

  /** A question an admin creates for an existing company is listed among
      that company's questions, after the ones it already had. */
  lemma CreateLinksToCompany(db: Db, f: QuestionFields)
    requires CreateOAQuestion(db, AdminRole, f).out.Done?
    requires f.companyId.Some? && Has(db.companies, CompanyId, f.companyId.value)
    ensures var r := CreateOAQuestion(db, AdminRole, f);
            var k := FindIndex(db.companies, CompanyId, f.companyId.value);
            && k == FindIndex(r.db.companies, CompanyId, f.companyId.value)
            && r.db.companies[k].questions == db.companies[k].questions + [r.out.body.id]
  {
    var r := CreateOAQuestion(db, AdminRole, f);
    var k := FindIndex(db.companies, CompanyId, f.companyId.value);
    assert forall i :: 0 <= i < |db.companies| ==> CompanyId(r.db.companies[i]) == CompanyId(db.companies[i]);
  }

  /** A question created without a company is listed by the first company
      all the same, while reading the question shows no company. */
  lemma CreateWithoutCompanyLinksFirst(db: Db, f: QuestionFields)
    requires CreateOAQuestion(db, AdminRole, f).out.Done?
    requires f.companyId.None? && |db.companies| > 0
    ensures var r := CreateOAQuestion(db, AdminRole, f);
            && r.db.companies[0].questions == db.companies[0].questions + [r.out.body.id]
            && GetOAQuestion(r.db, r.out.body.id).Done?
            && GetOAQuestion(r.db, r.out.body.id).body.company.None?
  {
    var r := CreateOAQuestion(db, AdminRole, f);
    var n := |db.questions|;
    assert QuestionId(r.db.questions[n]) == r.out.body.id;
    assert FindIndex(r.db.questions, QuestionId, r.out.body.id) == n;
  }

  /** The list and the single read agree: on a valid database, entry `i`
      of the list is what reading question `i` by its id returns. */
  lemma GetOAQuestionsAgreesWithGetOAQuestion(db: Db, i: int)
    requires Valid(db) && 0 <= i < |db.questions|
    ensures GetOAQuestion(db, db.questions[i].id) == Done(200, GetOAQuestions(db)[i])
  {
    assert QuestionId(db.questions[i]) == db.questions[i].id;
    assert FindIndex(db.questions, QuestionId, db.questions[i].id) == i;
  }

  /** A question an admin creates can then be read back, with the fields it
      was created with. */
  lemma CreateThenGet(db: Db, f: QuestionFields)
    requires CreateOAQuestion(db, AdminRole, f).out.Done?
    ensures var r := CreateOAQuestion(db, AdminRole, f);
            && GetOAQuestion(r.db, r.out.body.id).Done?
            && GetOAQuestion(r.db, r.out.body.id).body.fields == f
  {
    var r := CreateOAQuestion(db, AdminRole, f);
    var n := |db.questions|;
    assert QuestionId(r.db.questions[n]) == r.out.body.id;
    assert FindIndex(r.db.questions, QuestionId, r.out.body.id) == n;
  }

  /** A question created for an existing company is the last entry of that
      company's populated question list, after the ones it already showed. */
  lemma CreateAppearsLastInCompany(db: Db, f: QuestionFields)
    requires CreateOAQuestion(db, AdminRole, f).out.Done?
    requires f.companyId.Some? && Has(db.companies, CompanyId, f.companyId.value)
    ensures var r := CreateOAQuestion(db, AdminRole, f);
            var before := CompanyController.GetCompanyQuestions(db, f.companyId.value);
            var after := CompanyController.GetCompanyQuestions(r.db, f.companyId.value);
            && before.Done? && after.Done?
            && after.body == before.body + [r.out.body]
  {
    var r := CreateOAQuestion(db, AdminRole, f);
    var q := r.out.body;
    var cid := f.companyId.value;
    CreateLinksToCompany(db, f);
    var k := FindIndex(db.companies, CompanyId, cid);
    var ids := db.companies[k].questions;
    assert r.db.companies[k].questions == ids + [q.id];
    PopulateAppend(ids, [q.id], r.db.questions);
    PopulateIgnoresNew(ids, db.questions, q);
    var t := db.questions + [q];
    assert QuestionId(t[|db.questions|]) == q.id;
    assert FindIndex(t, QuestionId, q.id) == |db.questions|;
    PopulateOne(q.id, t);
  }

  lemma CreatePreservesValid(db: Db, caller: Role, f: QuestionFields)
    requires Valid(db)
    ensures Valid(CreateOAQuestion(db, caller, f).db)
  {
    var r := CreateOAQuestion(db, caller, f);
    if r.out.Done? {
      AppendKeepsUnique(db.questions, QuestionId, r.out.body);
      var cs := r.db.companies;
      assert forall i :: 0 <= i < |cs| ==> CompanyId(cs[i]) == CompanyId(db.companies[i]);
      assert forall i :: 0 <= i < |r.db.questions| ==>
               r.db.questions[i] == if i < |db.questions| then db.questions[i] else r.out.body;
    }
  }

  lemma UpdatePreservesValid(db: Db, caller: Role, id: Id, patch: QuestionPatch)
    requires Valid(db)
    ensures Valid(UpdateOAQuestion(db, caller, id, patch).db)
  {
    var r := UpdateOAQuestion(db, caller, id, patch);
    if r.out.Done? {
      var qs := r.db.questions;
      assert forall i :: 0 <= i < |qs| ==> QuestionId(qs[i]) == QuestionId(db.questions[i]);
    }
  }

  /** Deleting a question removes only the question record: every company
      keeps its list of question ids, so a reference to the deleted
      question remains, but populating that list no longer yields it. */
  lemma DeleteLeavesDanglingId(db: Db, id: Id, companyIndex: int)
    requires Valid(db)
    requires DeleteOAQuestion(db, AdminRole, id).out.Done?
    requires 0 <= companyIndex < |db.companies| && id in db.companies[companyIndex].questions
    ensures var db' := DeleteOAQuestion(db, AdminRole, id).db;
            && id in db'.companies[companyIndex].questions
            && !Has(db'.questions, QuestionId, id)
            && forall i :: 0 <= i < |Populate(db'.companies[companyIndex].questions, db'.questions)| ==>
                 Populate(db'.companies[companyIndex].questions, db'.questions)[i].id != id
  {
    var db' := DeleteOAQuestion(db, AdminRole, id).db;
    var k := FindIndex(db.questions, QuestionId, id);
    var t := db'.questions;
    assert !Has(t, QuestionId, id) by {
      forall i | 0 <= i < |t| ensures t[i].id != id {
        assert t[i] == db.questions[if i < k then i else i + 1];
      }
    }
    var p := Populate(db'.companies[companyIndex].questions, t);
    forall i | 0 <= i < |p| ensures p[i].id != id {
      var j :| 0 <= j < |t| && t[j] == p[i];
    }
  }
}
