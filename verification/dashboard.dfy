/** The event handlers of the admin dashboard: the new-question form with
    its hidden-test-case draft, the edit form of an existing question, and
    the company accordion. Each handler is a function from the component
    state it reads to the state it sets. */
module Dashboard {
  import opened Common
  import opened Schema
  import opened Docs

  const EmptyTestCase: TestCase := TestCase("", "")

  // ----------------------------------------------------- new-question form

  /** `newQuestion`; the company field is free text. */
  datatype NewQuestion = NewQuestion(
    title: string,
    description: string,
    input: string,
    output: string,
    constraints: string,
    companyId: string,
    hiddenTestCases: seq<TestCase>)

  /** The state the hidden-test-case draft touches: the form, the draft
      `hiddenTestCase`, and whether the draft's inputs are shown. */
  datatype Form = Form(newQuestion: NewQuestion, hiddenTestCase: TestCase, showHiddenTestForm: bool)

  const InitialForm: Form := Form(NewQuestion("", "", "", "", "", "", []), EmptyTestCase, false)

  /** `handleAddHiddenTestCase`: a draft with both fields filled is moved
      to the end of the form's list and the draft is reset and hidden; an
      incomplete draft is ignored. */
  function AddHiddenTestCase(f: Form): (r: Form)
    ensures TestCaseValid(f.hiddenTestCase) ==>
              && |r.newQuestion.hiddenTestCases| == |f.newQuestion.hiddenTestCases| + 1
              && r.newQuestion.hiddenTestCases[..|f.newQuestion.hiddenTestCases|] == f.newQuestion.hiddenTestCases
              && r.newQuestion.hiddenTestCases[|f.newQuestion.hiddenTestCases|] == f.hiddenTestCase
              && r.newQuestion.(hiddenTestCases := f.newQuestion.hiddenTestCases) == f.newQuestion
              && r.hiddenTestCase == EmptyTestCase && !r.showHiddenTestForm
    ensures !TestCaseValid(f.hiddenTestCase) ==> r == f
  {
    if f.hiddenTestCase.input != "" && f.hiddenTestCase.output != "" then
      var ts := f.newQuestion.hiddenTestCases + [f.hiddenTestCase];
      assert ts[..|f.newQuestion.hiddenTestCases|] == f.newQuestion.hiddenTestCases;
      Form(f.newQuestion.(hiddenTestCases := ts), EmptyTestCase, false)
    else f
  }

  // ------------------------------------------------------------ edit form

  /** A hidden test case of the edit form. `stored` marks an object the form
      took from the company store, which Redux Toolkit's Immer has frozen;
      the ones `handleAddTestCase` creates are plain objects. */
  datatype EditCase = EditCase(test: TestCase, stored: bool)

  /** The test cases the form holds, as they are sent. */
  function Tests(cs: seq<EditCase>): (r: seq<TestCase>)
    ensures |r| == |cs|
    ensures forall i :: 0 <= i < |cs| ==> r[i] == cs[i].test
  {
    seq(|cs|, i requires 0 <= i < |cs| => cs[i].test)
  }

  /** `updatedQuestion` once an edit has started. */
  datatype Edit = Edit(
    title: string,
    description: string,
    input: string,
    output: string,
    constraints: string,
    companyId: Option<Id>,
    hiddenTestCases: seq<EditCase>)

  /** `editingQuestion` together with `updatedQuestion`. */
  datatype Editing = Editing(questionId: Id, edit: Edit)

  /** `handleEditClick`: the edit form starts from the question's fields, a
      missing hidden-test list becoming the empty one. */
  function EditClick(q: QuestionDoc): (r: Editing)
    ensures r.questionId == q.id
    ensures r.edit.title == q.title && r.edit.description == q.description
    ensures r.edit.input == q.input && r.edit.output == q.output
    ensures r.edit.constraints == q.constraints && r.edit.companyId == q.companyId
    ensures q.hiddenTestCases.Some? ==> Tests(r.edit.hiddenTestCases) == q.hiddenTestCases.value
    ensures q.hiddenTestCases.None? ==> r.edit.hiddenTestCases == []
    ensures forall i :: 0 <= i < |r.edit.hiddenTestCases| ==> r.edit.hiddenTestCases[i].stored
  {
    var ts := match q.hiddenTestCases
      case Some(ts) => ts
      case None => [];
    var cs := seq(|ts|, i requires 0 <= i < |ts| => EditCase(ts[i], true));
    assert Tests(cs) == ts;
    Editing(q.id, Edit(q.title, q.description, q.input, q.output, q.constraints, q.companyId, cs))
  }

  /** The inputs of the edit form that `handleInputChange` is called with. */
  datatype Field = Title | Description | Input | Output | Constraints | CompanyField

  /** The value of one input of the edit form. */
  function Get(e: Edit, f: Field): Option<string> {
    match f
    case Title => Some(e.title)
    case Description => Some(e.description)
    case Input => Some(e.input)
    case Output => Some(e.output)
    case Constraints => Some(e.constraints)
    case CompanyField => e.companyId
  }

  /** `handleInputChange`: the named input takes the typed value; every other
      input and the hidden tests keep theirs. */
  function InputChange(e: Edit, f: Field, value: string): (r: Edit)
    ensures Get(r, f) == Some(value)
    ensures forall g :: g != f ==> Get(r, g) == Get(e, g)
    ensures r.hiddenTestCases == e.hiddenTestCases
  {
    match f
    case Title => e.(title := value)
    case Description => e.(description := value)
    case Input => e.(input := value)
    case Output => e.(output := value)
    case Constraints => e.(constraints := value)
    case CompanyField => e.(companyId := Some(value))
  }

  /** `handleAddTestCase`: a new, empty test case is appended. */
  function AddTestCase(e: Edit): (r: Edit)
    ensures |r.hiddenTestCases| == |e.hiddenTestCases| + 1
    ensures r.hiddenTestCases[..|e.hiddenTestCases|] == e.hiddenTestCases
    ensures r.hiddenTestCases[|e.hiddenTestCases|] == EditCase(EmptyTestCase, false)
    ensures r.(hiddenTestCases := e.hiddenTestCases) == e
  {
    var ts := e.hiddenTestCases + [EditCase(EmptyTestCase, false)];
    assert ts[..|e.hiddenTestCases|] == e.hiddenTestCases;
    e.(hiddenTestCases := ts)
  }

  /** The two inputs of a hidden test case in the edit form. */
  datatype TestCaseField = InputOf | OutputOf

  /** `handleTestCaseChange`: one field of the test case at `index` takes the
      typed value. The handler assigns to the test-case object itself; for
      an object taken from the store, which is frozen, that assignment
      throws a TypeError before `setUpdatedQuestion` runs, and the form is
      unchanged. Only rendered entries call it, so the index is in range;
      another index would make the handler throw. */
  function TestCaseChange(e: Edit, index: int, f: TestCaseField, value: string): (r: Edit)
    requires 0 <= index < |e.hiddenTestCases|
    ensures e.hiddenTestCases[index].stored ==> r == e
    ensures |r.hiddenTestCases| == |e.hiddenTestCases|
    ensures forall i :: 0 <= i < |e.hiddenTestCases| && i != index ==> r.hiddenTestCases[i] == e.hiddenTestCases[i]
    ensures !e.hiddenTestCases[index].stored && f == InputOf ==>
              r.hiddenTestCases[index] == EditCase(e.hiddenTestCases[index].test.(input := value), false)
    ensures !e.hiddenTestCases[index].stored && f == OutputOf ==>
              r.hiddenTestCases[index] == EditCase(e.hiddenTestCases[index].test.(output := value), false)
    ensures r.(hiddenTestCases := e.hiddenTestCases) == e
  {
    var c := e.hiddenTestCases[index];
    if c.stored then e
    else
      var t' := match f
        case InputOf => c.test.(input := value)
        case OutputOf => c.test.(output := value);
      e.(hiddenTestCases := e.hiddenTestCases[index := EditCase(t', false)])
  }

  /** Where `Array.prototype.splice` starts for a given start argument: a
      negative start counts from the end, and both are clamped to the
      array. */
  function SpliceStart(len: nat, start: int): (k: nat)
    ensures k <= len
    ensures 0 <= start <= len ==> k == start
    ensures start > len ==> k == len
    ensures start < 0 && 0 <= len + start ==> k == len + start
    ensures len + start < 0 ==> k == 0
  {
    if start < 0 then (if len + start < 0 then 0 else len + start)
    else if start > len then len
    else start
  }

  /** `a.splice(start, 1)` on a copy: the array without the element at the
      start position, or unchanged when that position is past the end. */
  function SpliceOne<T>(s: seq<T>, start: int): (r: seq<T>)
    ensures SpliceStart(|s|, start) < |s| ==> |r| == |s| - 1
    ensures SpliceStart(|s|, start) < |s| ==>
              forall i :: 0 <= i < |r| ==> r[i] == s[if i < SpliceStart(|s|, start) then i else i + 1]
    ensures SpliceStart(|s|, start) < |s| ==>
              multiset(r) + multiset{s[SpliceStart(|s|, start)]} == multiset(s)
    ensures SpliceStart(|s|, start) == |s| ==> r == s
  {
    var k := SpliceStart(|s|, start);
    if k < |s| then
      assert s == s[..k] + [s[k]] + s[k + 1..];
      s[..k] + s[k + 1..]
    else s
  }

  /** `handleDeleteTestCase`. */
  function DeleteTestCase(e: Edit, index: int): (r: Edit)
    ensures r.(hiddenTestCases := e.hiddenTestCases) == e
    ensures 0 <= index < |e.hiddenTestCases| ==>
              && |r.hiddenTestCases| == |e.hiddenTestCases| - 1
              && forall i :: 0 <= i < |r.hiddenTestCases| ==>
                   r.hiddenTestCases[i] == e.hiddenTestCases[if i < index then i else i + 1]
    ensures index >= |e.hiddenTestCases| ==> r == e
  {
    e.(hiddenTestCases := SpliceOne(e.hiddenTestCases, index))
  }

  /** The update request `handleSaveQuestion` sends: every input of the form
      and the hidden tests; an absent company is left out of the body. */
  function SavePatch(e: Edit): (p: QuestionPatch)
    ensures p.title == Some(e.title) && p.description == Some(e.description)
    ensures p.input == Some(e.input) && p.output == Some(e.output)
    ensures p.constraints == Some(e.constraints)
    ensures p.companyId == e.companyId
    ensures p.hiddenTestCases == Some(Tests(e.hiddenTestCases))
  {
    QuestionPatch(Some(e.title), Some(e.description), Some(e.input), Some(e.output),
                  Some(e.constraints), e.companyId, Some(Tests(e.hiddenTestCases)))
  }

  // ------------------------------------------------------------ companies

  /** The accordion's click handler: clicking the open company closes it,
      clicking any other opens it in place of the one that was open. */
  function ToggleCompany(open: Option<Id>, clicked: Id): (r: Option<Id>)
    ensures r == Some(clicked) <==> open != Some(clicked)
    ensures r.None? <==> open == Some(clicked)
  {
    if open == Some(clicked) then None else Some(clicked)
  }

  // --------------------------------------------------------------- lemmas

  /** The draft guard is the schema's validator: every hidden test the
      new-question form collects has both fields filled. */
  lemma AddHiddenTestCaseKeepsValid(f: Form)
    requires TestCasesValid(f.newQuestion.hiddenTestCases)
    ensures TestCasesValid(AddHiddenTestCase(f).newQuestion.hiddenTestCases)
  {
    var r := AddHiddenTestCase(f);
    if TestCaseValid(f.hiddenTestCase) {
      var n := |f.newQuestion.hiddenTestCases|;
      forall i | 0 <= i < |r.newQuestion.hiddenTestCases|
        ensures TestCaseValid(r.newQuestion.hiddenTestCases[i])
      {
        if i < n {
          assert r.newQuestion.hiddenTestCases[i] == r.newQuestion.hiddenTestCases[..n][i];
        }
      }
    }
  }

  /** Deleting the test case just added gives the form back. */
  lemma AddThenDeleteTestCase(e: Edit)
    ensures DeleteTestCase(AddTestCase(e), |e.hiddenTestCases|) == e
  {
    var a := AddTestCase(e);
    var r := DeleteTestCase(a, |e.hiddenTestCases|);
    assert r.hiddenTestCases == e.hiddenTestCases by {
      forall i | 0 <= i < |e.hiddenTestCases| ensures r.hiddenTestCases[i] == e.hiddenTestCases[i] {
        assert a.hiddenTestCases[i] == a.hiddenTestCases[..|e.hiddenTestCases|][i];
      }
    }
  }

  /** A negative index deletes counting from the end, as `splice` does. */
  lemma DeleteFromEnd(e: Edit, index: int)
    requires -|e.hiddenTestCases| <= index < 0
    ensures DeleteTestCase(e, index) == DeleteTestCase(e, |e.hiddenTestCases| + index)
  {
  }

  /** Editing a test case and then deleting it is deleting it. */
  lemma ChangeThenDeleteTestCase(e: Edit, index: int, f: TestCaseField, value: string)
    requires 0 <= index < |e.hiddenTestCases|
    ensures DeleteTestCase(TestCaseChange(e, index, f, value), index) == DeleteTestCase(e, index)
  {
    var a := DeleteTestCase(TestCaseChange(e, index, f, value), index);
    var b := DeleteTestCase(e, index);
    assert a.hiddenTestCases == b.hiddenTestCases;
  }

  /** Saving right after adding a test case, before filling it in, sends a
      test case the server's validators refuse. */
  lemma SaveWithBlankTestCaseRejected(e: Edit)
    ensures !QuestionPatchValid(SavePatch(AddTestCase(e)))
  {
    var ts := Tests(AddTestCase(e).hiddenTestCases);
    assert !TestCaseValid(ts[|e.hiddenTestCases|]);
  }

  /** The fields of a stored question as the frontend receives them. */
  function DocOf(q: Question): QuestionDoc {
    QuestionDoc(q.id, q.fields.title, q.fields.description, q.fields.input, q.fields.output,
                q.fields.constraints, q.fields.companyId, Some(q.fields.hiddenTestCases))
  }

  /** Opening a question in the edit form and saving it unchanged writes
      back exactly the stored fields. */
  lemma SaveUnchangedEditIsNoop(q: Question)
    ensures ApplyQuestionPatch(q.fields, SavePatch(EditClick(DocOf(q)).edit)) == q.fields
  {
  }

  /** A test case the question was stored with cannot be edited in the form:
      every change to it leaves the form as it was. */
  lemma StoredTestCaseNotEditable(q: QuestionDoc, index: int, f: TestCaseField, value: string)
    requires 0 <= index < |EditClick(q).edit.hiddenTestCases|
    ensures TestCaseChange(EditClick(q).edit, index, f, value) == EditClick(q).edit
  {
  }

  /** A test case added in the form and then filled in is sent at the end of
      the hidden tests, after the ones the form held. */
  lemma AddedTestCaseIsSent(e: Edit, input: string, output: string)
    ensures var n := |e.hiddenTestCases|;
            var filled := TestCaseChange(TestCaseChange(AddTestCase(e), n, InputOf, input), n, OutputOf, output);
            SavePatch(filled).hiddenTestCases == Some(Tests(e.hiddenTestCases) + [TestCase(input, output)])
  {
    var n := |e.hiddenTestCases|;
    var a := AddTestCase(e);
    var filled := TestCaseChange(TestCaseChange(a, n, InputOf, input), n, OutputOf, output);
    assert filled.hiddenTestCases == e.hiddenTestCases + [EditCase(TestCase(input, output), false)] by {
      forall i | 0 <= i < n ensures filled.hiddenTestCases[i] == e.hiddenTestCases[i] {
        assert a.hiddenTestCases[i] == a.hiddenTestCases[..n][i];
      }
    }
    assert Tests(filled.hiddenTestCases) == Tests(e.hiddenTestCases) + [TestCase(input, output)];
  }

  /** Two clicks on the same company leave it open exactly when it was open
      before, and every other company closed. */
  lemma ToggleTwice(open: Option<Id>, clicked: Id)
    ensures ToggleCompany(ToggleCompany(open, clicked), clicked) == (if open == Some(clicked) then open else None)
  {
  }
}
