/** The JSON records the frontend receives from the API, as the Redux store
    and the pages hold them. */
module Docs {
  import opened Common
  import opened Schema

  /** An OA question document. `hiddenTestCases` is absent in a document
      that was stored without the array. */
  datatype QuestionDoc = QuestionDoc(
    id: Id,
    title: string,
    description: string,
    input: string,
    output: string,
    constraints: string,
    companyId: Option<Id>,
    hiddenTestCases: Option<seq<TestCase>>)

  function QuestionDocId(q: QuestionDoc): Id { q.id }

  /** The `questions` array of a company: question documents when the
      server populated it (the list and single-company reads), bare ids when
      it did not (the create and update replies). */
  datatype CompanyQuestions = Populated(docs: seq<QuestionDoc>) | Refs(ids: seq<Id>)

  datatype CompanyDoc = CompanyDoc(id: Id, name: string, questions: CompanyQuestions)

  function CompanyDocId(c: CompanyDoc): Id { c.id }

  /** A user as the register and login replies carry it. */
  datatype UserDoc = UserDoc(id: Id, username: string, role: Role)
}
