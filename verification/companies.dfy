/** The company controller: reads are open to every caller, except the
    per-company question list, which requires a signed-in caller; writes are
    reserved to admins; a well-formed id that matches nothing is a 404. */
module CompanyController {
  import opened Common
  import opened Schema
  import opened Store

  /** A company with `populate("questions")` applied. */
  datatype PopulatedCompany = PopulatedCompany(id: Id, name: string, questions: seq<Question>)

  const NotFound: string := "Company not found"
  const ForbiddenCreate: string := "You are not authorized to create a company"
  const ForbiddenUpdate: string := "You are not authorized to update a company"
  const ForbiddenDelete: string := "You are not authorized to delete a company"

  function PopulateCompany(c: Company, questions: seq<Question>): (r: PopulatedCompany)
    ensures r.id == c.id && r.name == c.name && r.questions == Populate(c.questions, questions)
  {
    PopulatedCompany(c.id, c.name, Populate(c.questions, questions))
  }

  function GetCompanies(db: Db): (r: seq<PopulatedCompany>)
    ensures |r| == |db.companies|
    ensures forall i :: 0 <= i < |r| ==> r[i].id == db.companies[i].id && r[i].name == db.companies[i].name
    ensures forall i :: 0 <= i < |r| ==> r[i].questions == Populate(db.companies[i].questions, db.questions)
    decreases |db.companies|
  {
    if |db.companies| == 0 then []
    else
      var rest := GetCompanies(db.(companies := db.companies[1..]));
      [PopulateCompany(db.companies[0], db.questions)] + rest
  }

  function GetCompany(db: Db, id: Id): (r: Outcome<PopulatedCompany>)
    ensures r.Done? || r == ApiError(404, NotFound)
    ensures r.Done? <==> Has(db.companies, CompanyId, id)
    ensures r.Done? ==>
              var c := db.companies[FindIndex(db.companies, CompanyId, id)];
              && r.status == 200 && r.body.id == id && r.body.name == c.name
              && r.body.questions == Populate(c.questions, db.questions)
  {
    match Find(db.companies, CompanyId, id)
    case None => ApiError(404, NotFound)
    case Some(c) => Done(200, PopulateCompany(c, db.questions))
  }

  function CreateCompany(db: Db, caller: Role, name: string, questions: seq<Id>): (r: Step<Company>)
    ensures caller != AdminRole ==> r == Step(db, ApiError(403, ForbiddenCreate))
    ensures r.out.Done? <==> caller == AdminRole && CompanyNameValid(name)
    ensures !r.out.Done? ==> r.db == db
    ensures r.out.Done? ==>
              && r.out.status == 201
              && r.db == db.(companies := db.companies + [r.out.body])
              && !Has(db.companies, CompanyId, r.out.body.id)
              && r.out.body.name == name && r.out.body.questions == questions
  {
    if caller != AdminRole then Step(db, ApiError(403, ForbiddenCreate))
    else if !CompanyNameValid(name) then Step(db, ValidationFailed)
    else
      var c := Company(FreshId(Ids(db.companies, CompanyId)), name, questions);
      FreshIdUnused(db.companies, CompanyId);
      Step(db.(companies := db.companies + [c]), Done(201, c))
  }

  /** `findByIdAndUpdate(id, body, { new: true, runValidators: true })`:
      validators run on the update before the document is looked up. */
  function UpdateCompany(db: Db, caller: Role, id: Id, patch: CompanyPatch): (r: Step<Company>)
    ensures caller != AdminRole ==> r == Step(db, ApiError(403, ForbiddenUpdate))
    ensures caller == AdminRole && patch.name != Some("") && !Has(db.companies, CompanyId, id) ==>
              r == Step(db, ApiError(404, NotFound))
    ensures r.out.Done? <==>
              caller == AdminRole && patch.name != Some("") && Has(db.companies, CompanyId, id)
    ensures !r.out.Done? ==> r.db == db
    ensures r.out.Done? ==>
              var k := FindIndex(db.companies, CompanyId, id);
              && r.out.status == 200
              && r.out.body == ApplyCompanyPatch(db.companies[k], patch)
              && r.db == db.(companies := db.companies[k := r.out.body])
  {
    if caller != AdminRole then Step(db, ApiError(403, ForbiddenUpdate))
    else if patch.name == Some("") then Step(db, ValidationFailed)
    else
      var k := FindIndex(db.companies, CompanyId, id);
      if k == -1 then Step(db, ApiError(404, NotFound))
      else
        var c := ApplyCompanyPatch(db.companies[k], patch);
        Step(db.(companies := db.companies[k := c]), Done(200, c))
  }

  function DeleteCompany(db: Db, caller: Role, id: Id): (r: Step<()>)
    ensures caller != AdminRole ==> r == Step(db, ApiError(403, ForbiddenDelete))
    ensures caller == AdminRole && !Has(db.companies, CompanyId, id) ==>
              r == Step(db, ApiError(404, NotFound))
    ensures r.out.Done? <==> caller == AdminRole && Has(db.companies, CompanyId, id)
    ensures r.out.Done? ==>
              var k := FindIndex(db.companies, CompanyId, id);
              && r.out == Done(200, ())
              && r.db == db.(companies := db.companies[..k] + db.companies[k + 1..])
  {
    if caller != AdminRole then Step(db, ApiError(403, ForbiddenDelete))
    else
      var k := FindIndex(db.companies, CompanyId, id);
      if k == -1 then Step(db, ApiError(404, NotFound))
      else Step(db.(companies := db.companies[..k] + db.companies[k + 1..]), Done(200, ()))
  }

  function GetCompanyQuestions(db: Db, id: Id): (r: Outcome<seq<Question>>)
    ensures r.Done? <==> Has(db.companies, CompanyId, id)
    ensures !r.Done? ==> r == ApiError(404, NotFound)
    ensures r.Done? ==>
              var c := db.companies[FindIndex(db.companies, CompanyId, id)];
              && r.status == 200
              && r.body == Populate(c.questions, db.questions)
  {
    match Find(db.companies, CompanyId, id)
    case None => ApiError(404, NotFound)
    case Some(c) => Done(200, Populate(c.questions, db.questions))
  }

  // --------------------------------------------------------------- lemmas

  /** Deleting one element of a sequence with unique keys keeps them unique
      and removes its key. */
  lemma DeleteAtKeepsUnique<T>(s: seq<T>, key: T -> Id, k: int)
    requires Unique(s, key) && 0 <= k < |s|
    ensures Unique(s[..k] + s[k + 1..], key)
    ensures !Has(s[..k] + s[k + 1..], key, key(s[k]))
  {
    var t := s[..k] + s[k + 1..];
    assert forall i :: 0 <= i < |t| ==> t[i] == s[if i < k then i else i + 1];
  }

  lemma CreatePreservesValid(db: Db, caller: Role, name: string, questions: seq<Id>)
    requires Valid(db)
    ensures Valid(CreateCompany(db, caller, name, questions).db)
  {
    var r := CreateCompany(db, caller, name, questions);
    if r.out.Done? {
      AppendKeepsUnique(db.companies, CompanyId, r.out.body);
    }
  }

  lemma UpdatePreservesValid(db: Db, caller: Role, id: Id, patch: CompanyPatch)
    requires Valid(db)
    ensures Valid(UpdateCompany(db, caller, id, patch).db)
  {
    var r := UpdateCompany(db, caller, id, patch);
    if r.out.Done? {
      var k := FindIndex(db.companies, CompanyId, id);
      var cs := r.db.companies;
      assert forall i :: 0 <= i < |cs| ==> CompanyId(cs[i]) == CompanyId(db.companies[i]);
    }
  }

  lemma DeletePreservesValid(db: Db, caller: Role, id: Id)
    requires Valid(db)
    ensures Valid(DeleteCompany(db, caller, id).db)
  {
    var r := DeleteCompany(db, caller, id);
    if r.out.Done? {
      var k := FindIndex(db.companies, CompanyId, id);
      DeleteAtKeepsUnique(db.companies, CompanyId, k);
      var t := r.db.companies;
      forall i | 0 <= i < |t| ensures CompanyNameValid(t[i].name) {
        assert t[i] == db.companies[if i < k then i else i + 1];
      }
    }
  }

  /** The list and the single read agree: on a valid database, entry `i`
      of the list is what reading company `i` by its id returns. */
  lemma GetCompaniesAgreesWithGetCompany(db: Db, i: int)
    requires Valid(db) && 0 <= i < |db.companies|
    ensures GetCompany(db, db.companies[i].id) == Done(200, GetCompanies(db)[i])
  {
    var k := FindIndex(db.companies, CompanyId, db.companies[i].id);
    assert CompanyId(db.companies[i]) == db.companies[i].id;
    assert k == i;
  }

  /** A company an admin creates can then be read back. */
  lemma CreateThenGet(db: Db, name: string, questions: seq<Id>)
    requires CreateCompany(db, AdminRole, name, questions).out.Done?
    ensures var r := CreateCompany(db, AdminRole, name, questions);
            GetCompany(r.db, r.out.body.id).Done?
  {
    var r := CreateCompany(db, AdminRole, name, questions);
    assert CompanyId(r.db.companies[|db.companies|]) == r.out.body.id;
  }

  /** After a successful delete the company is gone: reading it, or its
      questions, gives 404, and deleting it again gives 404. */
  lemma DeleteThenGet(db: Db, id: Id)
    requires Valid(db)
    requires DeleteCompany(db, AdminRole, id).out.Done?
    ensures var db' := DeleteCompany(db, AdminRole, id).db;
            && GetCompany(db', id) == ApiError(404, NotFound)
            && GetCompanyQuestions(db', id) == ApiError(404, NotFound)
            && DeleteCompany(db', AdminRole, id) == Step(db', ApiError(404, NotFound))
  {
    var k := FindIndex(db.companies, CompanyId, id);
    DeleteAtKeepsUnique(db.companies, CompanyId, k);
  }
}
