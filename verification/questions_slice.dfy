/** The `oaQuestions` Redux slice: the question list and the loading/error
    flags. Only the list fetch has pending and rejected handlers; create,
    update and delete are handled only when they succeed, and the single
    fetch is not handled at all. */
module QuestionsSlice {
  import opened Common
  import opened Docs

  datatype State = State(questions: seq<QuestionDoc>, loading: bool, error: Option<string>)

  const Initial: State := State([], false, None)

  datatype Thunk = FetchAll | FetchOne | Create | Update | Delete

  /** The actions the reducer receives; the fulfilled variants carry
      `payload.data`, or the id the delete thunk returns. */
  datatype Action =
    | ClearError
    | Pending(thunk: Thunk)
    | Rejected(thunk: Thunk, message: Option<string>)
    | Fetched(questions: seq<QuestionDoc>)
    | FetchedOne(question: QuestionDoc)
    | Created(created: QuestionDoc)
    | Updated(updated: QuestionDoc)
    | Deleted(id: Id)

  /** The actions the slice has a case for. */
  predicate Handled(a: Action) {
    match a
    case Pending(t) => t == FetchAll
    case Rejected(t, _) => t == FetchAll
    case FetchedOne(_) => false
    case _ => true
  }

  function Reduce(s: State, a: Action): (r: State)
    ensures !Handled(a) ==> r == s
    ensures a.ClearError? ==> r.error == None && r.(error := s.error) == s
    ensures a.Pending? && Handled(a) ==> r.loading && r.(loading := s.loading) == s
    ensures a.Rejected? && Handled(a) ==>
              !r.loading && r.error == a.message && r.(loading := s.loading, error := s.error) == s
    ensures a.Fetched? ==> !r.loading && r.error == s.error && r.questions == a.questions
    ensures a.Created? || a.Updated? || a.Deleted? ==> r.loading == s.loading && r.error == s.error
    ensures a.Created? ==>
              && |r.questions| == |s.questions| + 1
              && r.questions[..|s.questions|] == s.questions
              && r.questions[|s.questions|] == a.created
    ensures a.Updated? ==>
              && |r.questions| == |s.questions|
              && (!Has(s.questions, QuestionDocId, a.updated.id) ==> r.questions == s.questions)
              && (Has(s.questions, QuestionDocId, a.updated.id) ==>
                    var k := FindIndex(s.questions, QuestionDocId, a.updated.id);
                    r.questions == s.questions[k := a.updated])
    ensures a.Deleted? ==>
              && !Has(r.questions, QuestionDocId, a.id)
              && forall i :: 0 <= i < |s.questions| && s.questions[i].id != a.id ==> s.questions[i] in r.questions
  {
    match a
    case ClearError => s.(error := None)
    case Pending(t) => if t == FetchAll then s.(loading := true) else s
    case Rejected(t, message) => if t == FetchAll then s.(loading := false, error := message) else s
    case Fetched(qs) => s.(loading := false, questions := qs)
    case FetchedOne(_) => s
    case Created(q) =>
      assert (s.questions + [q])[..|s.questions|] == s.questions;
      s.(questions := s.questions + [q])
    case Updated(q) =>
      var k := FindIndex(s.questions, QuestionDocId, q.id);
      if k == -1 then s else s.(questions := s.questions[k := q])
    case Deleted(id) =>
      var qs := RemoveWhere(s.questions, QuestionDocId, id);
      RemoveWhereKeeps(s.questions, QuestionDocId, id);
      s.(questions := qs)
  }

  // --------------------------------------------------------------- lemmas

  /** The update is the first-match replacement of the shared list
      operations; on a list whose ids are unique it agrees with the
      replace-every-match the company slice uses. */
  lemma UpdateIsReplaceFirst(s: State, q: QuestionDoc)
    ensures Reduce(s, Updated(q)).questions == ReplaceFirst(s.questions, QuestionDocId, q)
    ensures Unique(s.questions, QuestionDocId) ==>
              Reduce(s, Updated(q)).questions == ReplaceWhere(s.questions, QuestionDocId, q)
  {
    if Unique(s.questions, QuestionDocId) {
      ReplaceFirstIsReplaceWhereWhenUnique(s.questions, QuestionDocId, q);
    }
  }

  /** Deleting the same question twice is deleting it once. */
  lemma DeleteIdempotent(s: State, id: Id)
    ensures Reduce(Reduce(s, Deleted(id)), Deleted(id)) == Reduce(s, Deleted(id))
  {
    RemoveWhereIdempotent(s.questions, QuestionDocId, id);
  }

  /** The delete keeps the surviving questions in their order. */
  lemma DeleteKeepsOrder(s: State, id: Id, front: seq<QuestionDoc>, back: seq<QuestionDoc>)
    requires s.questions == front + back
    ensures Reduce(s, Deleted(id)).questions
            == RemoveWhere(front, QuestionDocId, id) + RemoveWhere(back, QuestionDocId, id)
  {
    RemoveWhereAppend(front, back, QuestionDocId, id);
  }
}
