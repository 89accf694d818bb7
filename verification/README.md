# OA practice platform: a Dafny model of its core

The platform lets users practise online-assessment coding questions. Companies own lists of
questions. Each question has a sample input/output and hidden test cases. An admin manages
companies and questions from a dashboard. A user opens a question, writes code and runs it
against the sample or the hidden tests. The code runs on a remote Judge0 service.

This project models, as immutable datatypes and pure functions:

- **the execution controller** (`ExecuteController`, `execute.dfy`):
  - the language table;
  - polling the judge until a terminal status;
  - the trim-and-compare verdict;
  - the hidden-test batch with its all-or-nothing failure.
- **`String.prototype.trim`** and the decimal rendering of numbers (`Text`, `text.dfy`).
  - Trimming strips the WhiteSpace and LineTerminator code points of sections 12.2 and 12.3 of
    ECMA-262.
  - It is proved equal to a reference definition, `TrimmedAt`.
- **the backend controllers** (`UserController`, `CompanyController`, `QuestionController`).
  - Each is a transition of an abstract database (`Store.Db`, with three collections in insertion
    order) plus the reply it sends.
  - Reads are open to every caller, except the question list of one company, which needs a
    signed-in caller. Writes are reserved to admins, and non-admins get 403.
  - A well-formed id that matches no document gets 404.
  - The Mongoose schemas (`Schema`) supply the validators and the user pre-save hook.
- **the three Redux slices** (`CompanySlice`, `QuestionsSlice`, `AuthSlice`): each reducer is a
  function from state and action to state.
- **the dashboard handlers** (`Dashboard`): the hidden-test-case editing and the company accordion.
- **the question page** (`QuestionPage`):
  - finding the question named in the URL;
  - turning the execution replies into the messages shown.

The environment appears as parameters:

- **The judge.** A `Service` maps each submission the controller builds to a `JudgeRun`. A run
  either refuses the submission, or accepts it and answers the status requests as recorded in a
  finite trace. Nothing bounds polling in the source: a trace without an answer at which polling
  stops stands for a judge that keeps reporting a non-terminal status, and the poll then never
  ends and the request never gets a reply.
- **bcrypt** is an uninterpreted `hash`.
- **jwt signing** is represented by the tokens `Issued` for the request.
- **The admin username** from the environment is a parameter of `Register`.
- **New ids** come from `Common.FreshId`, and new question ids from `Store.NewQuestionId`.

The user schema's pre-save hook calls `next()` at once when the password is unmodified. The save
goes ahead with the document as it is then, so the stored password is kept. The hook's later
re-hash only changes the document in memory. `UserController.SecondLoginSucceeds` proves the
consequence: a user who has logged in once can log in again with the same password.

## Model

| member | source | states |
|---|---|---|
| ExecuteController.LanguageTable | backend/src/controllers/execute.controller.js:12-24 | the table maps exactly cpp, python, java and javascript, to 54, 71, 62 and 63, with distinct ids; because it is a plain object, the name `__proto__` reads the inherited `Object.prototype` and sends `{}` as the id, and every other name sends no id |
| ExecuteController.MakeSubmission | backend/src/controllers/execute.controller.js:19-25 | the request body carries the code and the input as given; it carries a numeric language id exactly when the language is in the table, namely its table entry, and the empty object `{}` exactly when the language is `__proto__` |
| ExecuteController.UnknownLanguageStillSent | backend/src/controllers/execute.controller.js:19-25 | an unknown language is not rejected locally: for every name outside the table except `__proto__` the submission goes out without a language id, so all those names get the same reply, whatever the service does with that submission |
| ExecuteController.ProtoLanguageSentDifferently | backend/src/controllers/execute.controller.js:12-25 | `__proto__` is sent with `"language_id": {}`, unlike any other unknown name, and some judge refuses the one while running the other |
| ExecuteController.PollFrom | backend/src/controllers/execute.controller.js:36-48 | from a given request on, polling never ends exactly when no later answer is terminal or failed; otherwise it stops at the first such answer, and every request before it was answered non-terminal |
| ExecuteController.Poll | backend/src/controllers/execute.controller.js:35-48 | the loop never ends exactly when no answer is terminal or failed; otherwise at least one request is made, a finished poll returns the first answer with status id above 2, and every earlier answer had status id at most 2 |
| ExecuteController.Normalize | backend/src/controllers/execute.controller.js:49-50 | an absent output becomes ""; a present one becomes its trim, which has no white space at either end |
| ExecuteController.Judge | backend/src/controllers/execute.controller.js:49-51 | both outputs are normalised, and the verdict passes exactly when the normalised strings are equal |
| ExecuteController.Execute | backend/src/controllers/execute.controller.js:8-60 | the submission built from the request is what the service judges; the reply is 200 exactly when the service accepts it and the poll finishes, carrying the final status and the verdict on that answer; no reply ever comes exactly when the accepted submission's poll never ends; every other outcome is the fixed 500 message |
| ExecuteController.BatchSubmissions | backend/src/controllers/execute.controller.js:74-94 | one submission per hidden test, in order; all carry the same code and language id, and only stdin differs, taken from each test |
| ExecuteController.Submit | backend/src/controllers/execute.controller.js:74-94 | the i-th run is what the service does with the i-th submission |
| ExecuteController.All | backend/src/controllers/execute.controller.js:96-126 | `Promise.all` rejects exactly when some promise rejects, whatever the others do; it fulfils exactly when every promise fulfils, listing the values in input order; otherwise it never settles |
| ExecuteController.Token | backend/src/controllers/execute.controller.js:74-96 | a submission yields a token exactly when it is accepted, and the token leads to that run's answers |
| ExecuteController.FetchResult | backend/src/controllers/execute.controller.js:99-124 | a test yields a verdict exactly when polling its submission finishes, rejects exactly when a status request fails, and never settles exactly when the poll never ends; the verdict compares that answer's output with the test's expected output |
| ExecuteController.FetchResults | backend/src/controllers/execute.controller.js:126 | the i-th outcome is that of polling the i-th submission against the i-th test |
| ExecuteController.Tokens | backend/src/controllers/execute.controller.js:96 | the i-th outcome of step 1 is that of the i-th submission |
| ExecuteController.Batch | backend/src/controllers/execute.controller.js:96-140 | a refused submission fails the batch before anything is polled; once all are accepted, the batch fails exactly when some poll fails, even while another loops, and succeeds exactly when every poll finishes, with one verdict per test, in input order, each from that test's own submission; every failure is the fixed 500 message |
| ExecuteController.PollAll | backend/src/controllers/execute.controller.js:99-126 | the second join alone: it fails exactly when some poll fails, succeeds exactly when every poll finishes, with each test's verdict in input order, and otherwise never replies |
| ExecuteController.RunHiddenTests | backend/src/controllers/execute.controller.js:62-141 | a request without a test list fails with the fixed 500 message; otherwise the batch runs over what the service does with one submission per test |
| ExecuteController.PaddingIrrelevant | backend/src/controllers/execute.controller.js:49-51 | white space added at either end of either output does not change the verdict |
| ExecuteController.ComparisonExact | backend/src/controllers/execute.controller.js:51 | for outputs without white space at their ends, the verdict passes exactly when the outputs are equal |
| ExecuteController.TrailingNewlineIgnored | backend/src/controllers/execute.controller.js:116-122 | a program printing the expected output followed by a newline passes |
| ExecuteController.DifferentOutputFails | backend/src/controllers/execute.controller.js:49-51 | an output that differs from the expected one by more than end padding fails |
| ExecuteController.InteriorSpaceCounts | backend/src/controllers/execute.controller.js:116-122 | interior white space is significant: a space between two non-blank parts fails against the parts written together |
| ExecuteController.AbsentOutputMatchesEmpty | backend/src/controllers/execute.controller.js:49-51 | a run with no output at all passes against an empty expected output |
| ExecuteController.BatchOfOneMatchesExecute | backend/src/controllers/execute.controller.js:8-123 | the hidden tests use the single run's rule: for the same code, language and input, a batch of one test succeeds exactly when the single run does, with the same verdict, and goes without a reply exactly when the single run does |
| ExecuteController.EmptyBatch | backend/src/controllers/execute.controller.js:74-96 | an empty test list submits nothing and yields an empty result |
| ExecuteController.OneFailureFailsBatch | backend/src/controllers/execute.controller.js:96-140 | one refused submission fails the whole batch with the fixed message, whatever the other runs would do, with no partial results |
| ExecuteController.FailedPollFailsBatch | backend/src/controllers/execute.controller.js:99-140 | a failed status request fails the batch with the fixed message even while another submission's poll never ends |
| ExecuteController.LoopingPollHangsBatch | backend/src/controllers/execute.controller.js:99-126 | with every submission accepted and no poll failing, one poll that never ends leaves the request without a reply |
| Text.Trim | backend/src/controllers/execute.controller.js:49-50 | the result is no longer than the input and has no white space at either end |
| Text.TrimWitness | backend/src/controllers/execute.controller.js:49-50 | the trim is the slice of the input between the leading and trailing white space, as the reference definition describes it |
| Text.TrimMatchesReference | backend/src/controllers/execute.controller.js:49-50 | wherever the reference definition places the trimmed part, the trim equals it |
| Text.TrimIgnoresPadding | backend/src/controllers/execute.controller.js:49-50 | white space added at either end does not change the trim |
| Text.TrimKeepsTight | backend/src/controllers/execute.controller.js:49-50 | a string without white space at its ends is its own trim, so interior white space is kept |
| Text.TrimIdempotent | backend/src/controllers/execute.controller.js:49-50 | trimming twice is trimming once |
| Text.TrimTrailingPadding | backend/src/controllers/execute.controller.js:116 | trimming a string with no white space at its ends, after trailing white space is added, gives the string back |
| Text.NatToString | frontend/src/pages/QuestionPage.jsx:185 | the rendering of a number is a non-empty run of decimal digits |
| Text.NatToStringRoundTrip | frontend/src/pages/QuestionPage.jsx:185 | reading the rendered digits back gives the number |
| Text.NatToStringInjective | frontend/src/pages/QuestionPage.jsx:185 | different numbers are rendered differently |
| Common.FindIndex | frontend/src/redux/slices/oaQuestionsSlice.js:102-104 | the index of the first element with the id, or -1 exactly when no element has it |
| Common.Find | frontend/src/pages/QuestionPage.jsx:25 | none exactly when no element has the id; otherwise the element at the first index holding it |
| Common.ReplaceWhere | frontend/src/redux/slices/companySlice.js:166-170 | the length is kept; every element with the new element's id is replaced by it; all others are unchanged |
| Common.ReplaceFirst | frontend/src/redux/slices/oaQuestionsSlice.js:102-107 | nothing changes when the id is absent; otherwise exactly the first element with the new element's id is replaced by it |
| Common.RemoveWhere | frontend/src/redux/slices/companySlice.js:183-185 | no element with the id remains, and a list without the id is unchanged |
| Common.RemoveWhereKeeps | frontend/src/redux/slices/companySlice.js:183-185 | every remaining element comes from the list, and every element with another id remains |
| Common.RemoveWhereAppend | frontend/src/redux/slices/oaQuestionsSlice.js:110-112 | filtering a concatenation filters each part in place, so the kept elements keep their order |
| Common.ReplaceFirstIsReplaceWhereWhenUnique | frontend/src/redux/slices/oaQuestionsSlice.js:101-108 | on a list with unique ids, replacing the first match and replacing every match agree |
| Schema.NewUser | backend/src/models/user.model.js:19-27 | a new user has the given fields and no refresh token |
| Schema.NewUserDefaultRole | backend/src/models/user.model.js:23-27 | a user created without a role gets the role "user" |
| Schema.PreSave | backend/src/models/user.model.js:32-44 | a save with a modified password stores its hash; a save with an unmodified password stores the user unchanged; nothing but the password ever changes |
| Schema.PasswordMatches | backend/src/models/user.model.js:46-48 | an entered password matches when its hash is the stored one |
| Schema.UserFieldsValid | backend/src/models/user.model.js:7-18 | the username is present and the password has at least six characters |
| Schema.ApplyQuestionPatch | backend/src/controllers/oaQuestions.controller.js:54-61 | each of the seven fields takes the patch's value when present and keeps the stored one when absent; a valid question under a valid patch stays valid |
| Schema.TestCaseValid | backend/src/models/OAQuestions.model.js:32-43 | a hidden test case has both its input and its output |
| Schema.TestCasesValid | backend/src/models/OAQuestions.model.js:32-43 | every hidden test case in the list is valid |
| Schema.QuestionValid | backend/src/models/OAQuestions.model.js:8-43 | the five required text fields are present and every hidden test case is valid |
| Schema.QuestionPatchValid | backend/src/models/OAQuestions.model.js:8-43 | an update sets no required field to empty and brings only valid hidden test cases |
| Schema.ApplyCompanyPatch | backend/src/controllers/company.controller.js:52-55 | the id is kept; each present field is set and each absent one kept |
| Store.AppendKeepsUnique | backend/src/models/user.model.js:7-13 | appending a document whose id (or username) is unused keeps them unique |
| Store.Valid | backend/src/models/user.model.js:7-13 | user ids, usernames, company ids and question ids are each unique; every stored username is present, every company has a name and every question passes its validators |
| Store.ReplaceKeepsUnique | frontend/src/redux/slices/companySlice.js:166-170 | the update's map, replacing every element with the new element's id, keeps ids unique |
| Store.RemoveKeepsUnique | frontend/src/redux/slices/companySlice.js:183-185 | the delete's filter keeps ids unique |
| Store.Populate | backend/src/controllers/company.controller.js:85-91 | the populated list is no longer than the id list; each entry is a stored question whose id is in the list; it loses nothing when every id exists |
| Store.PopulateOne | backend/src/controllers/company.controller.js:85-91 | populating one id yields the stored question with that id, or nothing when there is none |
| Store.PopulateAppend | backend/src/controllers/company.controller.js:85-91 | populating a concatenation of id lists populates each part in place |
| Store.PopulateIgnoresNew | backend/src/controllers/company.controller.js:85-91 | storing a question that an id list does not name leaves that list's population unchanged |
| Store.NewQuestionId | backend/src/controllers/oaQuestions.controller.js:33-38 | a new question id is used by no stored question and listed by no company |
| UserController.Register | backend/src/controllers/user.controller.js:9-33 | 400 for a missing field, and 400 for a taken username, with no change; a validation failure for a password shorter than six characters; otherwise a user is added with a fresh id, the hashed password, no refresh token, and role admin exactly for the configured name |
| UserController.RoleFor | backend/src/controllers/user.controller.js:20-23 | a new account is an admin exactly when its username is the configured admin username |
| UserController.Login | backend/src/controllers/user.controller.js:38-88 | 400 for a missing field; with both fields present, every failure is the same 401 "Invalid credentials" with no change, which covers an unknown user and a wrong password; success returns that user's public fields and the issued tokens, and stores the new refresh token on that user only, keeping its password |
| UserController.Logout | backend/src/controllers/user.controller.js:93-103 | the user's stored refresh token becomes null; nothing else changes, its password included |
| UserController.RefreshToken | backend/src/controllers/user.controller.js:108-153 | 401 with no change for a missing cookie or a token no user holds; otherwise that user's token is replaced by the new one, nothing else changes, and the reply carries the user and the issued tokens |
| UserController.UpdateUserKeepsValid | backend/src/models/user.model.js:7-13 | changing one user without touching its id or username keeps the database valid |
| UserController.RegisterPreservesValid | backend/src/controllers/user.controller.js:16-25 | registration keeps user ids and usernames unique |
| UserController.LoginPreservesValid | backend/src/controllers/user.controller.js:58-61 | login keeps the database valid |
| UserController.RefreshPreservesValid | backend/src/controllers/user.controller.js:123-126 | a refresh keeps the database valid |
| UserController.LogoutPreservesValid | backend/src/controllers/user.controller.js:93-103 | a logout keeps the database valid |
| UserController.LogoutRevokesRefreshToken | backend/src/controllers/user.controller.js:93-153 | after a logout, the refresh token the user held is refused when no other user holds it |
| UserController.RegisterThenLogin | backend/src/controllers/user.controller.js:20-56 | a freshly registered account can log in with its password and carries the configured role |
| UserController.SecondLoginSucceeds | backend/src/models/user.model.js:32-44 | because an unmodified-password save keeps the stored password, a user who has logged in once can log in again with the same password, and gets the same user back |
| UserController.RefreshRotates | backend/src/controllers/user.controller.js:115-126 | once a token has been rotated away, presenting it again is refused |
| CompanyController.GetCompanies | backend/src/controllers/company.controller.js:10-13 | one entry per stored company, in stored order, with its id and name and its question ids populated |
| CompanyController.GetCompany | backend/src/controllers/company.controller.js:18-26 | 200 exactly when the id exists, with the first such company's id, name and populated questions; otherwise 404 |
| CompanyController.CreateCompany | backend/src/controllers/company.controller.js:31-42 | a non-admin gets 403 with no change; an admin with a name adds one company with a fresh id at the end |
| CompanyController.UpdateCompany | backend/src/controllers/company.controller.js:47-62 | 403 for a non-admin and 404 for a missing id, with no change; otherwise only that company is patched |
| CompanyController.DeleteCompany | backend/src/controllers/company.controller.js:67-79 | 403 for a non-admin and 404 for a missing id; otherwise exactly that company is removed |
| CompanyController.GetCompanyQuestions | backend/src/controllers/company.controller.js:84-92 | 404 for a missing company; otherwise its id list populated from the stored questions |
| CompanyController.PopulateCompany | backend/src/controllers/company.controller.js:10-26 | a company is returned with its id and name and its question ids populated |
| CompanyController.GetCompaniesAgreesWithGetCompany | backend/src/controllers/company.controller.js:10-26 | on a valid database, reading one company by id gives the entry the list shows for it |
| CompanyController.CreatePreservesValid | backend/src/controllers/company.controller.js:40-41 | creating a company keeps the database valid |
| CompanyController.UpdatePreservesValid | backend/src/controllers/company.controller.js:52-55 | updating a company keeps the database valid |
| CompanyController.DeletePreservesValid | backend/src/controllers/company.controller.js:72-76 | deleting a company keeps the database valid |
| CompanyController.CreateThenGet | backend/src/controllers/company.controller.js:40-41 | a company an admin creates can then be read back |
| CompanyController.DeleteThenGet | backend/src/controllers/company.controller.js:72-76 | after a delete the company, its questions and a second delete all give 404 |
| QuestionController.PopulateQuestion | backend/src/controllers/oaQuestions.controller.js:10-21 | the question keeps its id and fields; its company is absent exactly when it references none or an unknown one, and otherwise is the first stored company with that id |
| QuestionController.GetOAQuestions | backend/src/controllers/oaQuestions.controller.js:10-13 | one entry per stored question, in stored order, each with its company populated |
| QuestionController.GetOAQuestion | backend/src/controllers/oaQuestions.controller.js:18-28 | 200 exactly when the id exists, with the first such question and its company populated; otherwise 404 |
| QuestionController.LinkToCompany | backend/src/controllers/oaQuestions.controller.js:39-41 | a present id appends the new id to the first company with that id and leaves the others unchanged, and changes nothing when no company has it; an absent id appends the new id to the first company, since the filter `{ _id: undefined }` matches every company |
| QuestionController.CreateOAQuestion | backend/src/controllers/oaQuestions.controller.js:33-43 | a non-admin gets 403 with no change; a valid question is appended with an id no question or company uses, and linked to a company as the push does |
| QuestionController.UpdateOAQuestion | backend/src/controllers/oaQuestions.controller.js:48-68 | 403 for a non-admin and 404 for a missing id, with no change; otherwise only that question is patched |
| QuestionController.DeleteOAQuestion | backend/src/controllers/oaQuestions.controller.js:73-85 | 403 for a non-admin and 404 for a missing id; otherwise only that question is removed, and companies are untouched |
| QuestionController.CreateLinksToCompany | backend/src/controllers/oaQuestions.controller.js:38-41 | a question created for an existing company ends that company's question list |
| QuestionController.CreateWithoutCompanyLinksFirst | backend/src/controllers/oaQuestions.controller.js:10-41 | a question created without a company is listed by the first company all the same, while reading the question shows no company |
| QuestionController.GetOAQuestionsAgreesWithGetOAQuestion | backend/src/controllers/oaQuestions.controller.js:10-28 | on a valid database, reading one question by id gives the entry the list shows for it |
| QuestionController.CreateThenGet | backend/src/controllers/oaQuestions.controller.js:18-43 | a question an admin creates can then be read back with the fields it was created with |
| QuestionController.CreateAppearsLastInCompany | backend/src/controllers/oaQuestions.controller.js:38-41 | a question created for an existing company is appended to what that company's question list returns, which is otherwise unchanged |
| QuestionController.CreatePreservesValid | backend/src/controllers/oaQuestions.controller.js:38-41 | creating a question keeps the database valid |
| QuestionController.UpdatePreservesValid | backend/src/controllers/oaQuestions.controller.js:54-61 | updating a question keeps the database valid |
| QuestionController.DeleteLeavesDanglingId | backend/src/controllers/oaQuestions.controller.js:78-84 | after a delete the company still lists the id, but populating its list no longer yields the question |
| CompanySlice.Reduce | frontend/src/redux/slices/companySlice.js:101-190 | pending sets loading and nothing else; rejected clears loading and records the message; fulfilled cases clear loading and keep error; fetches replace their field; create appends; update keeps ids and replaces matches; delete removes the id |
| CompanySlice.ErrorSurvivesSuccess | frontend/src/redux/slices/companySlice.js:112-190 | an error recorded by a rejection survives any later run of fulfilled actions |
| CompanySlice.ReduceAllKeepsErrorOnSuccess | frontend/src/redux/slices/companySlice.js:112-186 | any run of fulfilled actions leaves error as it was |
| CompanySlice.DeleteIdempotent | frontend/src/redux/slices/companySlice.js:181-186 | deleting a company twice is deleting it once |
| CompanySlice.DeleteKeepsOrder | frontend/src/redux/slices/companySlice.js:181-186 | the delete keeps the surviving companies in their order |
| CompanySlice.UpdateAfterDeleteIsNoop | frontend/src/redux/slices/companySlice.js:164-186 | an update arriving after the delete does not bring the company back |
| CompanySlice.UpdateIdempotent | frontend/src/redux/slices/companySlice.js:164-171 | applying the same update twice is applying it once |
| CompanySlice.CreateThenFind | frontend/src/redux/slices/companySlice.js:151-154 | a created company with a new id is then found by it |
| QuestionsSlice.Reduce | frontend/src/redux/slices/oaQuestionsSlice.js:80-113 | unhandled actions change nothing; the fetch sets loading, questions and error; create appends; update replaces the first match or does nothing; delete removes the id; none of these three touches loading or error |
| QuestionsSlice.UpdateIsReplaceFirst | frontend/src/redux/slices/oaQuestionsSlice.js:101-108 | the update replaces the first match, and on unique ids it agrees with replacing every match |
| QuestionsSlice.DeleteIdempotent | frontend/src/redux/slices/oaQuestionsSlice.js:109-113 | deleting a question twice is deleting it once |
| QuestionsSlice.DeleteKeepsOrder | frontend/src/redux/slices/oaQuestionsSlice.js:109-113 | the delete keeps the surviving questions in their order |
| AuthSlice.Initial | frontend/src/redux/slices/authSlice.js:62-67 | the stored user is restored, and a missing or empty stored token becomes null |
| AuthSlice.Reduce | frontend/src/redux/slices/authSlice.js:73-122 | register and login set loading and record failures; login sets user and token; logout clears both; refresh replaces only the token, and a failed refresh signs the user out and records the error; clearError resets only error |
| AuthSlice.Persist | frontend/src/redux/slices/authSlice.js:91-112 | a login stores the user and the token, a logout removes both, and no other action writes storage |
| AuthSlice.ReloadRestoresSession | frontend/src/redux/slices/authSlice.js:62-112 | a reload restores the session shown for as long as only logins with a token, logouts and actions that do not change the session are dispatched |
| AuthSlice.FailedRefreshUndoneByReload | frontend/src/redux/slices/authSlice.js:62-122 | a failed refresh signs the user out but leaves storage alone, so a reload signs them back in |
| AuthSlice.FailedThenSuccessfulLogin | frontend/src/redux/slices/authSlice.js:91-106 | after a failed then a successful login the user is signed in, but the failure's message is still shown |
| AuthSlice.NoUserWithoutSignIn | frontend/src/redux/slices/authSlice.js:107-122 | once signed out, the user stays absent until a register or login succeeds |
| AuthSlice.SuccessesKeepError | frontend/src/redux/slices/authSlice.js:74-122 | only clearError and rejections write error |
| Dashboard.AddHiddenTestCase | frontend/src/pages/Dashboard.jsx:62-71 | a draft with both fields filled is appended and the draft is reset and hidden; an incomplete draft changes nothing |
| Dashboard.EditClick | frontend/src/pages/Dashboard.jsx:73-84 | the edit form copies the question's fields; its hidden test cases are the question's, all marked as the store's own objects, and a missing list becomes empty |
| Dashboard.InputChange | frontend/src/pages/Dashboard.jsx:86-91 | the named input takes the value, and every other input and the hidden tests are unchanged |
| Dashboard.AddTestCase | frontend/src/pages/Dashboard.jsx:93-98 | one new, empty test case, not taken from the store, is appended, and everything else is unchanged |
| Dashboard.TestCaseChange | frontend/src/pages/Dashboard.jsx:100-107 | for an entry taken from the store the form is unchanged, since the assignment to the frozen object throws; for an entry added in the form only the chosen field of that entry changes; the length and the other entries are kept |
| Dashboard.SpliceStart | frontend/src/pages/Dashboard.jsx:111 | a start within the array is kept; a start past the end is the length; a negative start counts from the end, and one before the beginning is 0 |
| Dashboard.SpliceOne | frontend/src/pages/Dashboard.jsx:110-111 | when the start is inside the array exactly that element is removed, the later ones shift down and the multiset loses only it; at or past the end nothing changes |
| Dashboard.DeleteTestCase | frontend/src/pages/Dashboard.jsx:109-116 | an in-range index removes exactly that entry and shifts the later ones down; an index past the end changes nothing |
| Dashboard.SavePatch | frontend/src/pages/Dashboard.jsx:118-124 | the update request carries the five text inputs of the form, its company and the test cases it holds |
| Dashboard.Tests | frontend/src/pages/Dashboard.jsx:118-124 | the test cases sent are those of the form's entries, one per entry, in order |
| Dashboard.ToggleCompany | frontend/src/pages/Dashboard.jsx:324-328 | clicking the open company closes it; clicking another opens it instead |
| Dashboard.AddHiddenTestCaseKeepsValid | frontend/src/pages/Dashboard.jsx:62-66 | every hidden test the new-question form collects passes the schema's validator |
| Dashboard.AddThenDeleteTestCase | frontend/src/pages/Dashboard.jsx:93-116 | deleting the test case just added gives the form back |
| Dashboard.DeleteFromEnd | frontend/src/pages/Dashboard.jsx:109-116 | a negative index deletes counting from the end |
| Dashboard.ChangeThenDeleteTestCase | frontend/src/pages/Dashboard.jsx:100-116 | editing a test case and then deleting it is just deleting it |
| Dashboard.SaveWithBlankTestCaseRejected | frontend/src/pages/Dashboard.jsx:93-124 | saving right after adding a test case sends one the server's validators refuse |
| Dashboard.SaveUnchangedEditIsNoop | frontend/src/pages/Dashboard.jsx:73-124 | opening a question for editing and saving it unchanged writes back exactly the stored fields |
| Dashboard.ToggleTwice | frontend/src/pages/Dashboard.jsx:324-328 | two clicks on a company leave it open exactly when it was open, and otherwise leave nothing open |
| Dashboard.StoredTestCaseNotEditable | frontend/src/pages/Dashboard.jsx:73-107 | no test case the question was stored with can be changed in the edit form |
| Dashboard.AddedTestCaseIsSent | frontend/src/pages/Dashboard.jsx:93-124 | a test case added in the form and then filled in is sent after the test cases the form held |
| QuestionPage.Lookup | frontend/src/pages/QuestionPage.jsx:22-32 | nothing is found exactly when no company holds the id; a found question has that id |
| QuestionPage.RunEffects | frontend/src/pages/QuestionPage.jsx:22-38 | companies are requested exactly when the list is empty; a found question is shown, and when none is found the question shown is kept |
| QuestionPage.RunCode | frontend/src/pages/QuestionPage.jsx:40-68 | without a reply the page keeps loading, with the earlier output and no result; a failed request shows "Error executing code." and no result; a successful one shows the pass message exactly when the verdict passed, and the fail message otherwise |
| QuestionPage.HiddenTestsOf | frontend/src/pages/QuestionPage.jsx:80 | the request carries the question's hidden tests in order, or nothing when it has none |
| QuestionPage.RunHidden | frontend/src/pages/QuestionPage.jsx:70-90 | a successful reply shows its verdicts, a failed one the fixed error text, and without a reply the tests are shown as still running |
| QuestionPage.Status | frontend/src/pages/QuestionPage.jsx:185 | the text after the test number starts with a colon and shows the check mark exactly when the test passed |
| QuestionPage.Label | frontend/src/pages/QuestionPage.jsx:185 | a result heading shows the check mark exactly when the test passed |
| QuestionPage.Labels | frontend/src/pages/QuestionPage.jsx:177-185 | one heading per result, in order, each from its index and verdict |
| QuestionPage.LookupIsFirstHit | frontend/src/pages/QuestionPage.jsx:24-29 | the lookup returns the first matching question of the first company holding one |
| QuestionPage.EmptyStoreRequestsCompanies | frontend/src/pages/QuestionPage.jsx:22-38 | with no companies loaded the page requests them and keeps what it shows |
| QuestionPage.EffectsShowFirstHolder | frontend/src/pages/QuestionPage.jsx:22-38 | once companies are loaded the page shows the first match in the first company holding the id, and requests nothing |
| QuestionPage.EffectsSettle | frontend/src/pages/QuestionPage.jsx:22-38 | running the effects again with the question they chose changes nothing |
| QuestionPage.SampleMessageFollowsVerdict | frontend/src/pages/QuestionPage.jsx:40-63 | the page styles the sample result as a pass exactly when the trimmed output of the submitted code agrees with the expected output |
| QuestionPage.LoopingJudgeKeepsLoading | frontend/src/pages/QuestionPage.jsx:40-68 | a judge that keeps reporting a non-terminal status leaves the page loading for good, with the earlier output and no result |
| QuestionPage.MessagesStyledByVerdict | frontend/src/pages/QuestionPage.jsx:152-158 | only the pass message contains the check mark |
| QuestionPage.MissingHiddenTestsShowError | frontend/src/pages/QuestionPage.jsx:80-88 | a question without hidden tests gets the error text |
| QuestionPage.HiddenResultsFollowQuestion | frontend/src/pages/QuestionPage.jsx:70-185 | one line per hidden test, in the question's order and numbered from one, saying Passed exactly when the trimmed output of the submission carrying that test's input agrees with the test's output |
| QuestionPage.LabelNumbersFromOne | frontend/src/pages/QuestionPage.jsx:185 | the number in a heading reads back as the 1-based position |
| QuestionPage.LabelsDistinct | frontend/src/pages/QuestionPage.jsx:185 | different positions get different headings, whatever the verdicts |
| QuestionPage.LanguageOptionsMatchServer | frontend/src/pages/QuestionPage.jsx:111-120 | the selector offers exactly the server's four languages, in the same order, and starts on one of them |

## Left out

- HTTP and environment. axios, the RapidAPI headers and key, the two-second sleeps and
  `process.env` reads are not modelled. The judge's behaviour, the admin username and the issued
  tokens are parameters.
- Route middleware. `verifyJWT` is not modelled: a caller is given by its role, and a request
  without a valid access token, which the middleware answers with 401, is not a case of the model.
- `Promise.all` concurrency. Each `Promise.all` is modelled as a join that fails as a whole. The
  first join runs over all the submissions, so a refused submission fails the batch before
  anything is polled. Which submissions reach the judge before the failure is not modelled.
- The judge as a function. The service is a function of the submission, so two identical
  submissions are judged identically. A real judge may differ between runs.
- Non-string outputs. The controller calls `.trim` on `stdout` and on the expected output. When
  either is truthy but not a string (say, a number in the request's JSON), the call throws and
  the reply is the 500 error. The model's outputs are always strings.
- Mongoose internals.
  - Queries, `populate` and the ObjectId format are abstracted to lists searched by id. An id that
    is not a well-formed ObjectId makes `findById` and its relatives throw a `CastError` in the
    source. That holds for an id in the path and for `companyId` on create or update. The model
    answers 404 for such a path id and accepts such a `companyId`.
  - The HTTP status of a validation failure is set by `asyncHandler` and Express's default error
    handler, neither of which is part of this model, so it is the separate outcome
    `ValidationFailed`.
  - `find()` is taken to return documents in insertion order.
  - `findOneAndUpdate` without a sort is taken to update the first matching document in insertion
    order. MongoDB does not guarantee which document it picks.
- `Schema.UserFieldsValid`: Mongoose's `minlength` counts UTF-16 code units, and the model counts
  the characters of a Dafny string, which are Unicode scalar values. A password of three
  characters outside the Basic Multilingual Plane is six code units long. The source accepts it,
  while the model refuses it.
- `Schema.PreSave`: the re-hash the hook performs after an unmodified save has already gone
  ahead changes only the document in memory, which no caller reads again. The model leaves it out.
- `UserController.Register`: the username is stored as given. The schema's `trim` option on
  `username` is not modelled. Its `whitespace` key is not a Mongoose option.
- `UserController.Logout`: takes the signed-in user as a stored id. The authentication middleware
  that sets `req.user` is not part of this model.
- React and the browser.
  - JSX, the Monaco editor and router navigation are left out.
  - `localStorage` is the value `AuthSlice.Storage`, and `JSON.stringify` followed by
    `JSON.parse` is taken to give the user back.
- Rejected actions without a payload. When a request fails without a response, the company and
  question slices and the register case read `message` of `undefined` and throw. The model's
  `Rejected` always carries the (possibly absent) message.
- `Dashboard.TestCaseChange`: requires an index within the list, because the rendered inputs only
  pass such indices. The model takes the test cases the edit form copies from the company store to
  be frozen, as Redux Toolkit's Immer does by default. The assignment to such an object throws,
  which the model renders as an unchanged form. The test cases added in the form are plain objects
  that the handler mutates in place, shared with the previous state. The model makes a fresh copy.
- The dashboard's edit state before the first edit click (`{}`) is not modelled. The edit
  handlers start from the state `Dashboard.EditClick` builds.
- `QuestionPage.RunCode`: the displayed output is the parameter `bodyOutput`. The page reads a
  top-level `output` field whose presence depends on the `ApiResponse` envelope, which is not part
  of this model.
- The new-question form's submit, the company form and the question delete button only dispatch
  thunks, so their effect is that of the slices and controllers.
