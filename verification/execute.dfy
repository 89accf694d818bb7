/** The code-execution controller: submit code to the Judge0 service, poll
    the submission until the judge reports a terminal status, and compare
    the trimmed output with the trimmed expected output.

    The judge is the environment, a `Service` applied to the submissions
    the controller builds. What it does with one submission is a
    `JudgeRun`: it either refuses the submission (the POST fails), or
    accepts it and then answers the successive status requests as recorded
    in a finite trace. The two-second sleeps, HTTP headers and the API key
    are not modelled. Nothing bounds the number of polls in the controller:
    a trace without an answer at which polling stops stands for a judge
    that keeps reporting a non-terminal status, and the request then never
    gets a reply. */
module ExecuteController {
  import opened Common
  import opened Text

  // --------------------------------------------------------- judge client

  /** The `languageMap` object. */
  function LanguageId(language: string): Option<int> {
    if language == "cpp" then Some(54)
    else if language == "python" then Some(71)
    else if language == "java" then Some(62)
    else if language == "javascript" then Some(63)
    else None
  }

  /** The four keys of the table. */
  const Languages: seq<string> := ["cpp", "python", "java", "javascript"]

  /** What `languageMap[language]` puts in the JSON body under `language_id`.
      The table is a plain object literal, so the lookup also sees what it
      inherits from `Object.prototype`. The key `__proto__` reads the
      inherited accessor, which returns `Object.prototype` itself, and
      `JSON.stringify` writes that as `{}`. Any other name outside the table
      gives `undefined` or an inherited method, and the key is dropped. */
  datatype LanguageField = Number(id: int) | EmptyObject | Omitted

  function SentLanguage(language: string): (r: LanguageField)
    ensures r.Number? <==> language in Languages
    ensures language in Languages ==> r == Number(LanguageId(language).value)
    ensures r.EmptyObject? <==> language == "__proto__"
  {
    match LanguageId(language)
    case Some(id) => Number(id)
    case None => if language == "__proto__" then EmptyObject else Omitted
  }

  /** The body of `POST /submissions`; a language outside the table is not
      rejected, and the request is sent all the same. */
  datatype Submission = Submission(sourceCode: string, languageId: LanguageField, stdin: Option<string>)

  function MakeSubmission(language: string, code: string, stdin: Option<string>): (r: Submission)
    ensures r.sourceCode == code && r.stdin == stdin
    ensures r.languageId.Number? <==> language in Languages
    ensures language in Languages ==> r.languageId == Number(LanguageId(language).value)
    ensures r.languageId.EmptyObject? <==> language == "__proto__"
  {
    Submission(code, SentLanguage(language), stdin)
  }

  // --------------------------------------------------------------- poller

  /** The part of a `GET /submissions/{token}` answer that is used. */
  datatype Observation = Observation(statusId: int, stdout: Option<string>, stderr: Option<string>)

  /** One status request: answered, or failed (network error, HTTP error). */
  datatype Fetch = Fetched(obs: Observation) | FetchFailed

  /** What the judge does with one submission. */
  datatype JudgeRun = Refused | Accepted(trace: seq<Fetch>)

  /** Status ids 1 and 2 are "In Queue" and "Processing"; anything greater is
      terminal. */
  predicate Terminal(o: Observation) {
    o.statusId > 2
  }

  /** The loop `while (!result || result.status.id <= 2)` leaves after this
      request: a terminal answer, or a failure that throws out of it. */
  predicate StopsPolling(f: Fetch) {
    f.FetchFailed? || Terminal(f.obs)
  }

  /** Some request of the trace stops the polling. */
  predicate Halts(trace: seq<Fetch>) {
    exists i :: 0 <= i < |trace| && StopsPolling(trace[i])
  }

  /** How a poll ended, and after how many status requests; or that it
      never ends. */
  datatype PollResult = Finished(fetches: nat, result: Observation) | PollFailed(fetches: nat) | Hung

  function PollFrom(trace: seq<Fetch>, i: nat): (r: PollResult)
    requires i <= |trace|
    ensures r.Hung? <==> forall j :: i <= j < |trace| ==> !StopsPolling(trace[j])
    ensures !r.Hung? ==> i < r.fetches <= |trace| && StopsPolling(trace[r.fetches - 1])
    ensures !r.Hung? ==> forall j :: i <= j < r.fetches - 1 ==> !StopsPolling(trace[j])
    ensures r.Finished? <==> !r.Hung? && trace[r.fetches - 1].Fetched?
    ensures r.Finished? ==> r.result == trace[r.fetches - 1].obs
    decreases |trace| - i
  {
    if i == |trace| then Hung
    else
      match trace[i]
      case FetchFailed => PollFailed(i + 1)
      case Fetched(o) => if Terminal(o) then Finished(i + 1, o) else PollFrom(trace, i + 1)
  }

  /** The polling loop `while (!result || result.status.id <= 2)`. It never
      ends when no answer is terminal or failed. Otherwise it makes at least
      one request and stops at the first answer that is terminal or failed:
      every earlier answer was a non-terminal status. */
  function Poll(trace: seq<Fetch>): (r: PollResult)
    ensures r.Hung? <==> !Halts(trace)
    ensures !r.Hung? ==> 1 <= r.fetches <= |trace| && StopsPolling(trace[r.fetches - 1])
    ensures !r.Hung? ==> forall j :: 0 <= j < r.fetches - 1 ==> trace[j].Fetched? && trace[j].obs.statusId <= 2
    ensures r.Finished? <==> !r.Hung? && trace[r.fetches - 1].Fetched?
    ensures r.Finished? ==> r.result == trace[r.fetches - 1].obs && r.result.statusId > 2
  {
    PollFrom(trace, 0)
  }

  // -------------------------------------------------------------- verdict

  /** `x ? x.trim() : ""`: an absent or empty string becomes "", any other
      string is trimmed. */
  function Normalize(x: Option<string>): (r: string)
    ensures Tight(r)
    ensures x.None? ==> r == ""
    ensures x.Some? ==> r == Trim(x.value)
  {
    match x
    case None => ""
    case Some(s) => if s == "" then "" else Trim(s)
  }

  datatype Verdict = Verdict(stdout: string, expectedOutput: string, passed: bool)

  /** The comparison shared by the single run and the hidden tests. */
  function Judge(stdout: Option<string>, expected: Option<string>): (v: Verdict)
    ensures v.stdout == Normalize(stdout) && v.expectedOutput == Normalize(expected)
    ensures v.passed <==> v.stdout == v.expectedOutput
  {
    var out := Normalize(stdout);
    var exp := Normalize(expected);
    Verdict(out, exp, out == exp)
  }

  // ----------------------------------------------------------- controllers

  /** The reply of an endpoint: 200 with data, the fixed 500 error every
      failure inside the `try` block is turned into, or none at all while
      a poll loops forever. */
  datatype Reply<T> = Ok(data: T) | ServerError(message: string) | NoReply

  const ExecuteFailure: string := "Error executing code"
  const HiddenTestsFailure: string := "Error running hidden test cases"

  /** The judge's answer extended with the fields `execute` adds. */
  datatype RunReport = RunReport(statusId: int, stderr: Option<string>, verdict: Verdict)

  /** The judge service: what it does with each submission it receives. */
  type Service = Submission -> JudgeRun

  /** `execute`: the submission built from the request is sent, polled, and
      its output compared with the expected one. */
  function Execute(language: string, code: string, input: Option<string>, output: Option<string>,
                   service: Service): (r: Reply<RunReport>)
    ensures r.ServerError? ==> r.message == ExecuteFailure
    ensures var run := service(MakeSubmission(language, code, input));
            r.Ok? <==> run.Accepted? && Poll(run.trace).Finished?
    ensures var run := service(MakeSubmission(language, code, input));
            r.NoReply? <==> run.Accepted? && !Halts(run.trace)
    ensures r.Ok? ==>
              var o := Poll(service(MakeSubmission(language, code, input)).trace).result;
              r.data == RunReport(o.statusId, o.stderr, Judge(o.stdout, output)) && o.statusId > 2
  {
    match service(MakeSubmission(language, code, input))
    case Refused => ServerError(ExecuteFailure)
    case Accepted(trace) =>
      match Poll(trace)
      case PollFailed(_) => ServerError(ExecuteFailure)
      case Hung => NoReply
      case Finished(_, o) => Ok(RunReport(o.statusId, o.stderr, Judge(o.stdout, output)))
  }

  /** One element of `hiddenTests` in the request body. */
  datatype HiddenTest = HiddenTest(input: Option<string>, output: Option<string>)

  /** The submissions of step 1, one per hidden test, in input order. */
  function BatchSubmissions(language: string, code: string, tests: seq<HiddenTest>): (r: seq<Submission>)
    ensures |r| == |tests|
    ensures forall i :: 0 <= i < |r| ==> r[i].stdin == tests[i].input
    ensures forall i :: 0 <= i < |r| ==> r[i].sourceCode == code && r[i].languageId == SentLanguage(language)
    decreases |tests|
  {
    if |tests| == 0 then []
    else [MakeSubmission(language, code, tests[0].input)] + BatchSubmissions(language, code, tests[1..])
  }

  /** What the service does with each submission, in order. */
  function Submit(service: Service, subs: seq<Submission>): (runs: seq<JudgeRun>)
    ensures |runs| == |subs|
    ensures forall i :: 0 <= i < |subs| ==> runs[i] == service(subs[i])
  {
    seq(|subs|, i requires 0 <= i < |subs| => service(subs[i]))
  }

  predicate AllAccepted(runs: seq<JudgeRun>) {
    forall i :: 0 <= i < |runs| ==> runs[i].Accepted?
  }

  /** How a promise ends: fulfilled with a value, rejected, or never
      settled. */
  datatype Settled<T> = Fulfilled(value: T) | Failed | Pending

  /** `Promise.all`: it rejects as soon as one promise rejects, whatever the
      others do; otherwise it waits for every promise, and fulfils with
      their values, in order, once all are fulfilled. */
  function All<T>(xs: seq<Settled<T>>): (r: Settled<seq<T>>)
    ensures r.Failed? <==> !(forall i :: 0 <= i < |xs| ==> !xs[i].Failed?)
    ensures r.Fulfilled? <==> forall i :: 0 <= i < |xs| ==> xs[i].Fulfilled?
    ensures r.Fulfilled? ==> |r.value| == |xs| && forall i :: 0 <= i < |xs| ==> xs[i] == Fulfilled(r.value[i])
    decreases |xs|
  {
    if |xs| == 0 then Fulfilled([])
    else
      var rest := All(xs[1..]);
      assert forall i :: 0 < i < |xs| ==> xs[i] == xs[1..][i - 1];
      if xs[0].Failed? || rest.Failed? then Failed
      else if xs[0].Pending? || rest.Pending? then Pending
      else Fulfilled([xs[0].value] + rest.value)
  }

  /** The outcome of one POST of step 1: the token (standing for the trace
      of answers it leads to), or a failure. */
  function Token(run: JudgeRun): (r: Settled<seq<Fetch>>)
    ensures !r.Pending?
    ensures r.Fulfilled? <==> run.Accepted?
    ensures r.Fulfilled? ==> r.value == run.trace
  {
    match run
    case Refused => Failed
    case Accepted(trace) => Fulfilled(trace)
  }

  function Tokens(runs: seq<JudgeRun>): (r: seq<Settled<seq<Fetch>>>)
    ensures |r| == |runs|
    ensures forall i :: 0 <= i < |runs| ==> r[i] == Token(runs[i])
  {
    seq(|runs|, i requires 0 <= i < |runs| => Token(runs[i]))
  }

  /** `fetchResults`: poll one submission and compare its output with the
      test's expected output; a failed poll rejects, and a poll that never
      ends never settles. */
  function FetchResult(trace: seq<Fetch>, expected: Option<string>): (r: Settled<Verdict>)
    ensures r.Fulfilled? <==> Poll(trace).Finished?
    ensures r.Failed? <==> Poll(trace).PollFailed?
    ensures r.Pending? <==> !Halts(trace)
    ensures r.Fulfilled? ==> r.value == Judge(Poll(trace).result.stdout, expected)
  {
    match Poll(trace)
    case PollFailed(_) => Failed
    case Hung => Pending
    case Finished(_, o) => Fulfilled(Judge(o.stdout, expected))
  }

  function FetchResults(tests: seq<HiddenTest>, traces: seq<seq<Fetch>>): (r: seq<Settled<Verdict>>)
    requires |traces| == |tests|
    ensures |r| == |tests|
    ensures forall i :: 0 <= i < |r| ==> r[i] == FetchResult(traces[i], tests[i].output)
  {
    seq(|tests|, i requires 0 <= i < |tests| => FetchResult(traces[i], tests[i].output))
  }

  /** Steps 1 and 2 of `runHiddenTests` over the runs of the submissions.
      The first `Promise.all` fails as soon as one submission is refused,
      before anything is polled. Once every submission was accepted the
      traces are polled: the second `Promise.all` fails as soon as one poll
      fails, even while another loops; with no failure, a poll that loops
      forever leaves the request without a reply; otherwise the verdicts
      come back in input order. */
  function Batch(tests: seq<HiddenTest>, runs: seq<JudgeRun>): (r: Reply<seq<Verdict>>)
    requires |runs| == |tests|
    ensures r.ServerError? ==> r.message == HiddenTestsFailure
    ensures !AllAccepted(runs) ==> r.ServerError?
    ensures AllAccepted(runs) ==>
              (r.ServerError? <==> !(forall i :: 0 <= i < |tests| ==> !Poll(runs[i].trace).PollFailed?))
    ensures r.Ok? <==>
              AllAccepted(runs) && forall i :: 0 <= i < |tests| ==> Poll(runs[i].trace).Finished?
    ensures r.Ok? ==> |r.data| == |tests|
    ensures r.Ok? ==>
              forall i :: 0 <= i < |tests| ==> FetchResult(runs[i].trace, tests[i].output) == Fulfilled(r.data[i])
  {
    match All(Tokens(runs))
    case Failed => ServerError(HiddenTestsFailure)
    case Pending => NoReply
    case Fulfilled(traces) =>
      assert AllAccepted(runs);
      assert forall i :: 0 <= i < |runs| ==> traces[i] == runs[i].trace;
      PollAll(tests, traces)
  }

  /** Step 2 alone, over the traces the tokens of step 1 lead to. */
  function PollAll(tests: seq<HiddenTest>, traces: seq<seq<Fetch>>): (r: Reply<seq<Verdict>>)
    requires |traces| == |tests|
    ensures r.ServerError? ==> r.message == HiddenTestsFailure
    ensures r.ServerError? <==> !(forall i :: 0 <= i < |tests| ==> !Poll(traces[i]).PollFailed?)
    ensures r.Ok? <==> forall i :: 0 <= i < |tests| ==> Poll(traces[i]).Finished?
    ensures r.Ok? ==> |r.data| == |tests|
    ensures r.Ok? ==>
              forall i :: 0 <= i < |tests| ==> FetchResult(traces[i], tests[i].output) == Fulfilled(r.data[i])
  {
    match All(FetchResults(tests, traces))
    case Failed => ServerError(HiddenTestsFailure)
    case Pending => NoReply
    case Fulfilled(verdicts) => Ok(verdicts)
  }

  /** `runHiddenTests`: the submissions built from the request go to the
      service, and the batch runs over what it does with them. A request
      without a `hiddenTests` array fails on `hiddenTests.map` and gets the
      same 500 reply. */
  function RunHiddenTests(language: string, code: string, hiddenTests: Option<seq<HiddenTest>>,
                          service: Service): (r: Reply<seq<Verdict>>)
    ensures hiddenTests.None? ==> r == ServerError(HiddenTestsFailure)
    ensures hiddenTests.Some? ==>
              r == Batch(hiddenTests.value, Submit(service, BatchSubmissions(language, code, hiddenTests.value)))
  {
    match hiddenTests
    case None => ServerError(HiddenTestsFailure)
    case Some(tests) => Batch(tests, Submit(service, BatchSubmissions(language, code, tests)))
  }

  // --------------------------------------------------------------- lemmas

  /** The table holds exactly the four languages, with distinct ids. */
  lemma LanguageTable(language: string)
    ensures LanguageId(language).Some? <==> language in Languages
    ensures LanguageId("cpp") == Some(54) && LanguageId("python") == Some(71)
    ensures LanguageId("java") == Some(62) && LanguageId("javascript") == Some(63)
    ensures forall a, b :: a in Languages && b in Languages && a != b ==> LanguageId(a) != LanguageId(b)
    ensures SentLanguage("__proto__") == EmptyObject
    ensures language !in Languages && language != "__proto__" ==> SentLanguage(language) == Omitted
  {
  }

  /** An unknown language is not rejected locally: the submission goes out
      without a language id, so every unknown language other than
      `__proto__` gets the same reply, whatever the service makes of that
      submission. */
  lemma UnknownLanguageStillSent(language: string, other: string, code: string, input: Option<string>,
                                 output: Option<string>, service: Service)
    requires language !in Languages && language != "__proto__"
    requires other !in Languages && other != "__proto__"
    ensures MakeSubmission(language, code, input) == Submission(code, Omitted, input)
    ensures Execute(language, code, input, output, service) == Execute(other, code, input, output, service)
  {
    assert MakeSubmission(other, code, input) == Submission(code, Omitted, input);
  }

  /** `__proto__` is the one unknown name sent differently: its body carries
      `"language_id": {}`, so a judge may answer it otherwise than any other
      unknown name. One such judge refuses the empty object and runs the
      rest. */
  lemma ProtoLanguageSentDifferently(other: string, code: string, input: Option<string>)
    requires other !in Languages && other != "__proto__"
    ensures MakeSubmission("__proto__", code, input) == Submission(code, EmptyObject, input)
    ensures var service := (s: Submission) =>
              if s.languageId.EmptyObject? then Refused
              else Accepted([Fetched(Observation(3, Some(""), None))]);
            && Execute("__proto__", code, input, None, service).ServerError?
            && Execute(other, code, input, None, service).Ok?
  {
    var service := (s: Submission) =>
      if s.languageId.EmptyObject? then Refused
      else Accepted([Fetched(Observation(3, Some(""), None))]);
    assert MakeSubmission(other, code, input).languageId == Omitted;
    assert Poll(service(MakeSubmission(other, code, input)).trace).Finished?;
  }

  /** White space around either output never decides the verdict. */
  lemma PaddingIrrelevant(out: string, exp: string, a: string, b: string, c: string, d: string)
    requires AllWhite(a) && AllWhite(b) && AllWhite(c) && AllWhite(d)
    ensures Judge(Some(a + out + b), Some(c + exp + d)).passed == Judge(Some(out), Some(exp)).passed
  {
    var padded := Judge(Some(a + out + b), Some(c + exp + d));
    var bare := Judge(Some(out), Some(exp));
    TrimIgnoresPadding(a, out, b);
    TrimIgnoresPadding(c, exp, d);
    assert padded.stdout == bare.stdout;
    assert padded.expectedOutput == bare.expectedOutput;
  }

  /** Between outputs with no white space at their ends the comparison is
      exact: interior white space and every other character count. */
  lemma ComparisonExact(out: string, exp: string)
    requires Tight(out) && Tight(exp)
    ensures Judge(Some(out), Some(exp)).passed <==> out == exp
  {
    TrimKeepsTight(out);
    TrimKeepsTight(exp);
    var v := Judge(Some(out), Some(exp));
    assert v.stdout == out && v.expectedOutput == exp;
  }

  /** A trailing newline on the program's output is ignored. */
  lemma TrailingNewlineIgnored(out: string)
    requires Tight(out)
    ensures Judge(Some(out + "\n"), Some(out)).passed
  {
    assert AllWhite("\n") by { assert "\n"[0] as int == 0x0A; }
    PaddingIrrelevant(out, out, "", "\n", "", "");
    assert "" + out + "\n" == out + "\n";
    assert "" + out + "" == out;
    ComparisonExact(out, out);
  }

  /** Different outputs fail, whatever white space follows them. */
  lemma DifferentOutputFails(out: string, exp: string, pad: string)
    requires Tight(out) && Tight(exp) && out != exp && AllWhite(pad)
    ensures !Judge(Some(out + pad), Some(exp)).passed
  {
    TrimTrailingPadding(out, pad);
    TrimKeepsTight(exp);
    var v := Judge(Some(out + pad), Some(exp));
    assert v.stdout == out;
  }

  /** No output at all passes against an empty expected output. */
  lemma AbsentOutputMatchesEmpty()
    ensures Judge(None, Some("")).passed
  {
  }

  /** Interior white space is significant: a space inserted between two
      non-blank parts fails against the parts written together. */
  lemma InteriorSpaceCounts(a: string, b: string)
    requires a != [] && b != [] && !IsWhiteSpace(a[0]) && !IsWhiteSpace(b[|b| - 1])
    ensures !Judge(Some(a + " " + b), Some(a + b)).passed
  {
    var spaced := a + " " + b;
    assert spaced[0] == a[0] && spaced[|spaced| - 1] == b[|b| - 1];
    assert (a + b)[0] == a[0] && (a + b)[|a + b| - 1] == b[|b| - 1];
    ComparisonExact(spaced, a + b);
    assert |spaced| != |a + b|;
  }

  /** The hidden tests use the comparison of the single run: a request with
      one hidden test fails exactly when the single run of the same code on
      the same input does, and otherwise carries its verdict. */
  lemma BatchOfOneMatchesExecute(language: string, code: string, t: HiddenTest, service: Service)
    ensures RunHiddenTests(language, code, Some([t]), service).Ok?
            <==> Execute(language, code, t.input, t.output, service).Ok?
    ensures RunHiddenTests(language, code, Some([t]), service).NoReply?
            <==> Execute(language, code, t.input, t.output, service).NoReply?
    ensures RunHiddenTests(language, code, Some([t]), service).Ok? ==>
              RunHiddenTests(language, code, Some([t]), service).data
              == [Execute(language, code, t.input, t.output, service).data.verdict]
  {
    var subs := BatchSubmissions(language, code, [t]);
    assert subs[0] == MakeSubmission(language, code, t.input);
    assert [t][0] == t;
  }

  /** An empty test list submits nothing and yields no verdicts. */
  lemma EmptyBatch(language: string, code: string, service: Service)
    ensures BatchSubmissions(language, code, []) == []
    ensures RunHiddenTests(language, code, Some([]), service) == Ok([])
  {
  }

  /** One refused submission fails the whole batch before anything is
      polled, whatever the other submissions' traces would do: no partial
      results. */
  lemma OneFailureFailsBatch(tests: seq<HiddenTest>, runs: seq<JudgeRun>, i: int)
    requires |runs| == |tests|
    requires 0 <= i < |tests| && runs[i] == Refused
    ensures Batch(tests, runs) == ServerError(HiddenTestsFailure)
  {
    assert !AllAccepted(runs);
  }

  /** A poll that fails fails the batch at once, even while the poll of
      another submission never ends. */
  lemma FailedPollFailsBatch(tests: seq<HiddenTest>, runs: seq<JudgeRun>, i: int, j: int)
    requires |runs| == |tests| && AllAccepted(runs)
    requires 0 <= i < |tests| && Poll(runs[i].trace).PollFailed?
    requires 0 <= j < |tests| && !Halts(runs[j].trace)
    ensures Batch(tests, runs) == ServerError(HiddenTestsFailure)
  {
  }

  /** With every submission accepted and no poll failing, one poll that
      never ends leaves the request without a reply. */
  lemma LoopingPollHangsBatch(tests: seq<HiddenTest>, runs: seq<JudgeRun>, j: int)
    requires |runs| == |tests| && AllAccepted(runs)
    requires forall i :: 0 <= i < |tests| ==> !Poll(runs[i].trace).PollFailed?
    requires 0 <= j < |tests| && !Halts(runs[j].trace)
    ensures Batch(tests, runs) == NoReply
  {
    assert !Poll(runs[j].trace).Finished?;
  }
}
