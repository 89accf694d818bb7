/** The question page: it finds the question named in the URL among the
    companies in the store, sends the code to the execution endpoints, and
    turns their replies into the messages it shows. */
module QuestionPage {
  import opened Common
  import opened Text
  import opened Schema
  import opened Docs
  import ExecuteController

  // --------------------------------------------------------------- lookup

  /** The question documents of a company in the store. A company whose
      questions were not populated holds bare id strings, whose `_id` is
      undefined, so none of them ever matches. */
  function QuestionsOf(c: CompanyDoc): seq<QuestionDoc> {
    match c.questions
    case Populated(qs) => qs
    case Refs(_) => []
  }

  /** Some company holds a question with this id. */
  ghost predicate Holds(companies: seq<CompanyDoc>, c: int, id: Id) {
    0 <= c < |companies| && Has(QuestionsOf(companies[c]), QuestionDocId, id)
  }

  /** `c` is the first company, in list order, holding the question. */
  ghost predicate FirstHolder(companies: seq<CompanyDoc>, c: int, id: Id) {
    Holds(companies, c, id) && forall d :: 0 <= d < c ==> !Has(QuestionsOf(companies[d]), QuestionDocId, id)
  }

  /** The loop of the lookup effect: companies are scanned in order and the
      scan stops at the first one whose questions contain the id. */
  function Lookup(companies: seq<CompanyDoc>, id: Id): (r: Option<QuestionDoc>)
    ensures r.None? <==> forall c :: 0 <= c < |companies| ==> !Has(QuestionsOf(companies[c]), QuestionDocId, id)
    ensures r.Some? ==> r.value.id == id
    decreases |companies|
  {
    if |companies| == 0 then None
    else
      assert forall c :: 0 < c < |companies| ==> companies[c] == companies[1..][c - 1];
      match Find(QuestionsOf(companies[0]), QuestionDocId, id)
      case Some(q) => Some(q)
      case None => Lookup(companies[1..], id)
  }

  /** What the two effects of the page do when the company list or the id
      changes: the question shown, and whether the company list is
      requested. The lookup replaces the question only when it finds one. */
  datatype Effects = Effects(question: Option<QuestionDoc>, fetchCompanies: bool)

  function RunEffects(current: Option<QuestionDoc>, companies: seq<CompanyDoc>, id: Id): (r: Effects)
    ensures r.fetchCompanies <==> |companies| == 0
    ensures r.fetchCompanies ==> r.question == current
    ensures r.question != current ==> r.question.Some? && r.question.value.id == id
    ensures Lookup(companies, id).Some? ==> r.question == Lookup(companies, id)
    ensures Lookup(companies, id).None? ==> r.question == current
  {
    var found := if |companies| > 0 then Lookup(companies, id) else None;
    Effects(if found.Some? then found else current, |companies| == 0)
  }

  // ------------------------------------------------------------- sample run

  const SamplePassed: string := "✅ Sample test case passed!"
  const SampleFailed: string := "❌ Sample test case failed."
  const ExecuteError: string := "Error executing code."

  /** The part of the page `handleRunCode` sets. */
  datatype RunView = RunView(output: Option<string>, loading: bool, testResult: Option<string>)

  /** `handleRunCode` from the reply on, starting from the output `shown`
      before the click. The handler first sets `loading` and clears the
      result; without a reply the page stays so. A 500 reply makes the
      request throw. A success sets the output to the body's top-level
      `output` field (`bodyOutput`; its presence depends on the reply
      envelope, which is not part of this model) and the result message
      from the verdict. */
  function RunCode(reply: ExecuteController.Reply<ExecuteController.RunReport>, shown: Option<string>,
                   bodyOutput: Option<string>): (r: RunView)
    ensures r.loading <==> reply.NoReply?
    ensures reply.NoReply? ==> r == RunView(shown, true, None)
    ensures reply.ServerError? ==> r.output == Some(ExecuteError) && r.testResult == None
    ensures reply.Ok? ==> r.output == bodyOutput && r.testResult.Some?
    ensures reply.Ok? ==> (r.testResult == Some(SamplePassed) <==> reply.data.verdict.passed)
    ensures reply.Ok? ==> (r.testResult == Some(SampleFailed) <==> !reply.data.verdict.passed)
  {
    match reply
    case NoReply => RunView(shown, true, None)
    case ServerError(_) => RunView(Some(ExecuteError), false, None)
    case Ok(report) =>
      RunView(bodyOutput, false, Some(if report.verdict.passed then SamplePassed else SampleFailed))
  }

  /** The check the page styles the result with: the message contains the
      check mark. */
  predicate ShownAsPass(message: string) {
    '✅' in message
  }

  // ----------------------------------------------------------- hidden tests

  const HiddenError: string := "Error running hidden test cases."
  const PassedText: string := "✅ Passed"
  const FailedText: string := "❌ Failed"

  /** The request body's `hiddenTests`: the question's hidden test cases as
      they are stored, or nothing when the question has none. */
  function HiddenTestsOf(q: QuestionDoc): (r: Option<seq<ExecuteController.HiddenTest>>)
    ensures r.None? <==> q.hiddenTestCases.None?
    ensures r.Some? ==> |r.value| == |q.hiddenTestCases.value|
    ensures r.Some? ==> forall i :: 0 <= i < |r.value| ==>
              r.value[i] == ExecuteController.HiddenTest(Some(q.hiddenTestCases.value[i].input),
                                                       Some(q.hiddenTestCases.value[i].output))
  {
    match q.hiddenTestCases
    case None => None
    case Some(ts) =>
      Some(seq(|ts|, i requires 0 <= i < |ts| =>
        ExecuteController.HiddenTest(Some(ts[i].input), Some(ts[i].output))))
  }

  /** `hiddenTestResult`: the verdicts of a successful request, the error
      text of a failed one, or, while no reply has come, nothing with the
      button still showing that the tests run. */
  datatype HiddenView = Results(verdicts: seq<ExecuteController.Verdict>) | Message(text: string) | Running

  function RunHidden(reply: ExecuteController.Reply<seq<ExecuteController.Verdict>>): (r: HiddenView)
    ensures reply.Ok? <==> r.Results?
    ensures reply.Ok? ==> r.verdicts == reply.data
    ensures reply.ServerError? ==> r == Message(HiddenError)
    ensures reply.NoReply? <==> r == Running
  {
    match reply
    case NoReply => Running
    case Ok(vs) => Results(vs)
    case ServerError(_) => Message(HiddenError)
  }

  /** The heading line of the `index`-th result. */
  function Label(index: nat, passed: bool): (r: string)
    ensures ShownAsPass(r) <==> passed
  {
    "Test " + NatToString(index + 1) + Status(passed)
  }

  /** The part of a result heading after the test number. */
  function Status(passed: bool): (r: string)
    ensures |r| > 0 && r[0] == ':'
    ensures ShownAsPass(r) <==> passed
  {
    ": " + (if passed then PassedText else FailedText)
  }

  /** The heading lines of all results, in the order of the results. */
  function Labels(vs: seq<ExecuteController.Verdict>): (r: seq<string>)
    ensures |r| == |vs|
    ensures forall i :: 0 <= i < |vs| ==> r[i] == Label(i, vs[i].passed)
  {
    seq(|vs|, i requires 0 <= i < |vs| => Label(i, vs[i].passed))
  }

  // ------------------------------------------------------------- languages

  const DefaultLanguage: string := "cpp"

  /** The values of the language selector, in display order. */
  const LanguageOptions: seq<string> := ["cpp", "python", "java", "javascript"]

  // --------------------------------------------------------------- lemmas

  /** The lookup returns the first matching question of the first company
      that holds one. */
  lemma {:induction false} LookupIsFirstHit(companies: seq<CompanyDoc>, c: int, id: Id)
    requires FirstHolder(companies, c, id)
    ensures Lookup(companies, id) == Find(QuestionsOf(companies[c]), QuestionDocId, id)
    decreases |companies|
  {
    if c > 0 {
      assert !Has(QuestionsOf(companies[0]), QuestionDocId, id);
      var rest := companies[1..];
      assert rest[c - 1] == companies[c];
      assert forall d :: 0 <= d < c - 1 ==> rest[d] == companies[d + 1];
      LookupIsFirstHit(rest, c - 1, id);
    }
  }

  /** With no companies loaded the page requests them and keeps what it
      shows until they arrive. */
  lemma EmptyStoreRequestsCompanies(current: Option<QuestionDoc>, id: Id)
    ensures RunEffects(current, [], id) == Effects(current, true)
  {
  }

  /** Once companies are loaded, the page shows the first matching question
      of the first company that holds one, and requests nothing. */
  lemma {:induction false} EffectsShowFirstHolder(current: Option<QuestionDoc>, companies: seq<CompanyDoc>,
                                                  c: int, id: Id)
    requires FirstHolder(companies, c, id)
    ensures !RunEffects(current, companies, id).fetchCompanies
    ensures RunEffects(current, companies, id).question == Find(QuestionsOf(companies[c]), QuestionDocId, id)
  {
    LookupIsFirstHit(companies, c, id);
  }

  /** Running the effects again, with the question they chose, changes
      nothing: the page settles after one pass. */
  lemma EffectsSettle(current: Option<QuestionDoc>, companies: seq<CompanyDoc>, id: Id)
    ensures var r := RunEffects(current, companies, id);
            RunEffects(r.question, companies, id) == r
  {
  }

  /** The message follows the verdict the server computed, and the page
      styles it as a pass exactly when the run passed. */
  lemma SampleMessageFollowsVerdict(language: string, code: string, input: Option<string>,
                                    output: Option<string>, service: ExecuteController.Service,
                                    shown: Option<string>, bodyOutput: Option<string>)
    requires ExecuteController.Execute(language, code, input, output, service).Ok?
    ensures var run := service(ExecuteController.MakeSubmission(language, code, input));
            var o := ExecuteController.Poll(run.trace).result;
            var v := RunCode(ExecuteController.Execute(language, code, input, output, service), shown, bodyOutput);
            && v.testResult.Some?
            && (ShownAsPass(v.testResult.value) <==> ExecuteController.Judge(o.stdout, output).passed)
  {
    MessagesStyledByVerdict();
  }

  /** A judge that keeps reporting a non-terminal status leaves the page
      loading for good, with the earlier output and no result shown. */
  lemma LoopingJudgeKeepsLoading(language: string, code: string, input: Option<string>,
                                 output: Option<string>, service: ExecuteController.Service,
                                 shown: Option<string>, bodyOutput: Option<string>)
    requires service(ExecuteController.MakeSubmission(language, code, input)).Accepted?
    requires !ExecuteController.Halts(service(ExecuteController.MakeSubmission(language, code, input)).trace)
    ensures RunCode(ExecuteController.Execute(language, code, input, output, service), shown, bodyOutput)
            == RunView(shown, true, None)
  {
  }

  /** Only the pass message contains the check mark. */
  lemma MessagesStyledByVerdict()
    ensures ShownAsPass(SamplePassed) && !ShownAsPass(SampleFailed)
  {
    assert SamplePassed[0] == '✅';
    forall i | 0 <= i < |SampleFailed| ensures SampleFailed[i] != '✅' {
      assert SampleFailed[i] == '❌' || SampleFailed[i] as int < 0x80;
    }
  }

  /** A question stored without hidden tests cannot be graded: the request
      fails and the page shows the error text. */
  lemma MissingHiddenTestsShowError(language: string, code: string, q: QuestionDoc,
                                    service: ExecuteController.Service)
    requires q.hiddenTestCases.None?
    ensures RunHidden(ExecuteController.RunHiddenTests(language, code, HiddenTestsOf(q), service))
            == Message(HiddenError)
  {
  }

  /** End to end: when every hidden test of a question runs, the page shows
      one line per test, in the question's order, numbered from one, each
      saying Passed exactly when the trimmed output of the submission that
      carried that test's input agrees with the test's output. */
  lemma HiddenResultsFollowQuestion(language: string, code: string, q: QuestionDoc,
                                    service: ExecuteController.Service, i: int)
    requires q.hiddenTestCases.Some?
    requires ExecuteController.RunHiddenTests(language, code, HiddenTestsOf(q), service).Ok?
    requires 0 <= i < |q.hiddenTestCases.value|
    ensures var view := RunHidden(ExecuteController.RunHiddenTests(language, code, HiddenTestsOf(q), service));
            var test := q.hiddenTestCases.value[i];
            var run := service(ExecuteController.MakeSubmission(language, code, Some(test.input)));
            && view.Results?
            && |Labels(view.verdicts)| == |q.hiddenTestCases.value|
            && run.Accepted?
            && ExecuteController.Halts(run.trace)
            && Labels(view.verdicts)[i]
               == Label(i, ExecuteController.Judge(ExecuteController.Poll(run.trace).result.stdout,
                                                   Some(test.output)).passed)
  {
    var tests := HiddenTestsOf(q).value;
    var subs := ExecuteController.BatchSubmissions(language, code, tests);
    var runs := ExecuteController.Submit(service, subs);
    var reply := ExecuteController.Batch(tests, runs);
    assert subs[i] == ExecuteController.MakeSubmission(language, code,
                                                       Some(q.hiddenTestCases.value[i].input));
    assert ExecuteController.FetchResult(runs[i].trace, tests[i].output)
           == ExecuteController.Fulfilled(reply.data[i]);
  }

  /** Reading a heading back: after "Test " comes a run of digits, ended
      by a colon, whose value is the 1-based position of the result. */
  lemma LabelNumbersFromOne(index: nat, passed: bool, n: nat)
    requires n == |NatToString(index + 1)|
    ensures var l := Label(index, passed);
            && 5 + n < |l| && l[..5] == "Test " && l[5 + n] == ':'
            && (forall k :: 5 <= k < 5 + n ==> '0' <= l[k] <= '9')
            && DigitsValue(l[5..5 + n]) == index + 1
  {
    var d := NatToString(index + 1);
    var l := Label(index, passed);
    assert l == "Test " + d + Status(passed);
    assert l[5..5 + n] == d;
    NatToStringRoundTrip(index + 1);
  }

  /** A run of digits between a fixed prefix and a string that starts with
      something else is determined by the whole. */
  lemma DigitsBetween(pre: string, d1: string, s1: string, d2: string, s2: string)
    requires forall k :: 0 <= k < |d1| ==> '0' <= d1[k] <= '9'
    requires forall k :: 0 <= k < |d2| ==> '0' <= d2[k] <= '9'
    requires |s1| > 0 && !('0' <= s1[0] <= '9') && |s2| > 0 && !('0' <= s2[0] <= '9')
    requires pre + d1 + s1 == pre + d2 + s2
    ensures d1 == d2
  {
    var l := pre + d1 + s1;
    var n := |pre|;
    assert forall k :: 0 <= k < |d1| ==> l[n + k] == d1[k];
    assert forall k :: 0 <= k < |d2| ==> l[n + k] == d2[k];
    assert l[n + |d1|] == s1[0];
    assert (pre + d2 + s2)[n + |d2|] == s2[0];
    assert d1 == l[n..n + |d1|] && d2 == l[n..n + |d2|];
  }

  /** Different positions get different labels, whatever the verdicts. */
  lemma LabelsDistinct(i: nat, j: nat, p: bool, q: bool)
    requires i != j
    ensures Label(i, p) != Label(j, q)
  {
    var d1, d2 := NatToString(i + 1), NatToString(j + 1);
    if Label(i, p) == Label(j, q) {
      DigitsBetween("Test ", d1, Status(p), d2, Status(q));
      NatToStringInjective(i + 1, j + 1);
    }
  }

  /** The selector offers exactly the keys of the server's language table,
      in the table's order, and starts on one of them. */
  lemma LanguageOptionsMatchServer()
    ensures LanguageOptions == ExecuteController.Languages
    ensures DefaultLanguage in LanguageOptions
    ensures forall i :: 0 <= i < |LanguageOptions| ==> ExecuteController.LanguageId(LanguageOptions[i]).Some?
  {
  }
}
