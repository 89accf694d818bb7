/** The `company` Redux slice: the company list, the selected company, that
    company's questions, and the loading/error flags, driven by six async
    thunks and the `clearError` action. */
module CompanySlice {
  import opened Common
  import opened Docs

  datatype State = State(
    companies: seq<CompanyDoc>,
    company: Option<CompanyDoc>,
    questions: seq<QuestionDoc>,
    loading: bool,
    error: Option<string>)

  const Initial: State := State([], None, [], false, None)

  datatype Thunk =
    | FetchCompanies
    | FetchCompany
    | FetchCompanyQuestions
    | CreateCompany
    | UpdateCompany
    | DeleteCompany

  /** The actions the reducer receives. `Pending` and `Rejected` stand for
      the lifecycle actions of each thunk; a rejected thunk carries the
      `message` of the error body it was rejected with. The remaining
      variants are the fulfilled actions, with `payload.data` (or, for the
      delete, the id the thunk returns). */
  datatype Action =
    | ClearError
    | Pending(thunk: Thunk)
    | Rejected(thunk: Thunk, message: Option<string>)
    | CompaniesFetched(companies: seq<CompanyDoc>)
    | CompanyFetched(company: CompanyDoc)
    | QuestionsFetched(questions: seq<QuestionDoc>)
    | CompanyCreated(created: CompanyDoc)
    | CompanyUpdated(updated: CompanyDoc)
    | CompanyDeleted(id: Id)

  predicate Fulfilled(a: Action) {
    !a.ClearError? && !a.Pending? && !a.Rejected?
  }

  function Reduce(s: State, a: Action): (r: State)
    ensures a.ClearError? ==> r.error == None && r.(error := s.error) == s
    ensures a.Pending? ==> r.loading && r.(loading := s.loading) == s
    ensures a.Rejected? ==> !r.loading && r.error == a.message && r.(loading := s.loading, error := s.error) == s
    ensures Fulfilled(a) ==> !r.loading && r.error == s.error
    ensures a.CompaniesFetched? ==> r.companies == a.companies
    ensures a.CompanyFetched? ==> r.company == Some(a.company)
    ensures a.QuestionsFetched? ==> r.questions == a.questions
    ensures !a.QuestionsFetched? ==> r.questions == s.questions
    ensures !a.CompanyFetched? ==> r.company == s.company
    ensures a.CompanyCreated? ==>
              && |r.companies| == |s.companies| + 1
              && r.companies[..|s.companies|] == s.companies
              && r.companies[|s.companies|] == a.created
    ensures a.CompanyUpdated? ==>
              && Ids(r.companies, CompanyDocId) == Ids(s.companies, CompanyDocId)
              && forall i :: 0 <= i < |s.companies| ==>
                   r.companies[i] == if s.companies[i].id == a.updated.id then a.updated else s.companies[i]
    ensures a.CompanyDeleted? ==>
              && !Has(r.companies, CompanyDocId, a.id)
              && forall i :: 0 <= i < |s.companies| && s.companies[i].id != a.id ==> s.companies[i] in r.companies
    ensures !a.CompaniesFetched? && !a.CompanyCreated? && !a.CompanyUpdated? && !a.CompanyDeleted? ==>
              r.companies == s.companies
  {
    match a
    case ClearError => s.(error := None)
    case Pending(_) => s.(loading := true)
    case Rejected(_, message) => s.(loading := false, error := message)
    case CompaniesFetched(cs) => s.(loading := false, companies := cs)
    case CompanyFetched(c) => s.(loading := false, company := Some(c))
    case QuestionsFetched(qs) => s.(loading := false, questions := qs)
    case CompanyCreated(c) =>
      assert (s.companies + [c])[..|s.companies|] == s.companies;
      s.(loading := false, companies := s.companies + [c])
    case CompanyUpdated(c) =>
      var cs := ReplaceWhere(s.companies, CompanyDocId, c);
      assert Ids(cs, CompanyDocId) == Ids(s.companies, CompanyDocId);
      s.(loading := false, companies := cs)
    case CompanyDeleted(id) =>
      var cs := RemoveWhere(s.companies, CompanyDocId, id);
      RemoveWhereKeeps(s.companies, CompanyDocId, id);
      s.(loading := false, companies := cs)
  }

  // --------------------------------------------------------------- lemmas

  /** A failed request followed by successful ones still shows its error. */
  lemma ErrorSurvivesSuccess(s: State, t: Thunk, message: string, later: seq<Action>)
    requires forall i :: 0 <= i < |later| ==> Fulfilled(later[i])
    ensures ReduceAll(Reduce(s, Rejected(t, Some(message))), later).error == Some(message)
  {
    ReduceAllKeepsErrorOnSuccess(Reduce(s, Rejected(t, Some(message))), later);
  }

  /** The state after a sequence of actions, dispatched in order. */
  function ReduceAll(s: State, actions: seq<Action>): State
    decreases |actions|
  {
    if |actions| == 0 then s else ReduceAll(Reduce(s, actions[0]), actions[1..])
  }

  lemma {:induction false} ReduceAllKeepsErrorOnSuccess(s: State, actions: seq<Action>)
    requires forall i :: 0 <= i < |actions| ==> Fulfilled(actions[i])
    ensures ReduceAll(s, actions).error == s.error
    decreases |actions|
  {
    if |actions| > 0 {
      assert Fulfilled(actions[0]);
      assert forall i :: 0 <= i < |actions| - 1 ==> actions[1..][i] == actions[i + 1];
      ReduceAllKeepsErrorOnSuccess(Reduce(s, actions[0]), actions[1..]);
    }
  }

  /** Deleting the same company twice is deleting it once. */
  lemma DeleteIdempotent(s: State, id: Id)
    ensures Reduce(Reduce(s, CompanyDeleted(id)), CompanyDeleted(id)) == Reduce(s, CompanyDeleted(id))
  {
    RemoveWhereIdempotent(s.companies, CompanyDocId, id);
  }

  /** The delete keeps the surviving companies in their order: deleting
      from a list made of two parts deletes from each part in place. */
  lemma DeleteKeepsOrder(s: State, id: Id, front: seq<CompanyDoc>, back: seq<CompanyDoc>)
    requires s.companies == front + back
    ensures Reduce(s, CompanyDeleted(id)).companies
            == RemoveWhere(front, CompanyDocId, id) + RemoveWhere(back, CompanyDocId, id)
  {
    RemoveWhereAppend(front, back, CompanyDocId, id);
  }

  /** An update reply that arrives after the company was deleted does not
      bring it back. */
  lemma UpdateAfterDeleteIsNoop(s: State, c: CompanyDoc)
    ensures var d := Reduce(s, CompanyDeleted(c.id));
            Reduce(d, CompanyUpdated(c)).companies == d.companies
  {
    var d := Reduce(s, CompanyDeleted(c.id));
    assert forall i :: 0 <= i < |d.companies| ==> d.companies[i].id != c.id;
  }

  /** Applying the same update twice is applying it once. */
  lemma UpdateIdempotent(s: State, c: CompanyDoc)
    ensures Reduce(Reduce(s, CompanyUpdated(c)), CompanyUpdated(c)).companies
            == Reduce(s, CompanyUpdated(c)).companies
  {
    var once := Reduce(s, CompanyUpdated(c)).companies;
    var twice := Reduce(Reduce(s, CompanyUpdated(c)), CompanyUpdated(c)).companies;
    assert |twice| == |once|;
    forall i | 0 <= i < |once| ensures twice[i] == once[i] {
      assert Ids(once, CompanyDocId)[i] == Ids(s.companies, CompanyDocId)[i];
    }
  }

  /** A created company whose id was not yet listed is then found by it. */
  lemma CreateThenFind(s: State, c: CompanyDoc)
    requires !Has(s.companies, CompanyDocId, c.id)
    ensures Find(Reduce(s, CompanyCreated(c)).companies, CompanyDocId, c.id) == Some(c)
  {
    var cs := Reduce(s, CompanyCreated(c)).companies;
    assert cs[|s.companies|] == c;
    assert forall i :: 0 <= i < |s.companies| ==> cs[i] == s.companies[i];
  }
}
