# E-Learning platform: a verified model of its logic

This project models the logic of a small e-learning web application, in which
teachers create courses with a pre-test and a post-test and students take them.
It covers:

- **Test builder** (`TestBuilder`). The teacher's editor: a list of questions,
  each with two to five answer options. It is edited by whole-list
  replacements, checked by `validateTest`, and turned into the create-test
  request body.
- **Test-taking page** (`TakeTest`):
  - the `MM:SS` clock and the score colour;
  - the pass mark of 70;
  - the keyboard shortcuts that count as cheating;
  - the timer and warning effects and the answer map with its submission
    payload.
  - A `TestSession` class holds the page's state: current question, answers,
    time left, warning count, and whether a result is shown. Its timer step
    uses the corrected timer effect (see "## Findings"), not the one as
    written.
- **Input rules** (`Schema`). The registration and login schemas:
  - field lengths counted in UTF-16 code units;
  - the role enum and its `STUDENT` default;
  - the confirm-password refinement;
  - the order and paths of the issues they report.
- **Shared server logic** (`Server`):
  - user and course records and the JSON responses;
  - the token secret and the bearer-token middleware, where no token is 401
    and a bad token is 403;
  - the mapping of caught errors to 400 or 500;
  - a `Database` class holding users and courses.
- **Server routes**, one module each:
  - `Accounts`: the account routes, register, login and me. Both server entry
    points use this model.
  - `Users`: the user routes of the second entry point.
  - `Courses`: the course routes, plus the route table with its 404 catch-all.
- **Browser session store** (`ClientAuth`). An `AuthService` class over the two
  local-storage keys `auth_token` and `auth_user`.
- **View logic**, one module per page:
  - `StudentCourse`: the student's course page, with its status, percentage,
    badges, buttons, test and score lookups, and improvement;
  - `TeacherStudents`: the teacher's student list, with its filter and status
    counts;
  - `TeacherAnalytics`: the analytics page, with its CSV export and
    improvement badge.
- **Helper modules**:
  - `Text`: string helpers following JavaScript's `trim`, `split`, `join`,
    `toLowerCase`, `includes`, `toString` and `padStart`;
  - `Sequences`: `find` and sublists;
  - `Wrappers`: `Option` and `Result`.

Modelling choices:

- **Library calls are parameters.** These are bcrypt hashing and comparison,
  JWT signing and verification (the `Crypto` datatype), zod's e-mail check
  (`isEmail`), JSON stringify and parse (`JsonCodec`), and the course schema
  (`validate`).
- **Database failures.** A database call that throws is a `fault` flag, which
  leads to a 500 answer.
- **Request bodies.** A request body is the typed value the handler reads.
- **Object writes.** Objects the source writes in place are classes:
  `TestSession`, `Database` and `AuthService`. Everything the source computes
  with `map`, `filter`, `find` and conditionals is a function over sequences.

Against the routes the serverless entry point registers, several requests the
client sends have no handler and get the catch-all's 404:

- the submission of a test;
- reading and writing a student's progress;
- posting a new test.

The model shows this for each request: `Courses.SubmitIsNotFound`,
`Courses.ProgressIsNotFound` and `Courses.CreateTestIsNotFound`. On the course
page, the consequence is that the status always reads "not started" and the
post-test button stays disabled (`StudentCourse.PostTestNeverEnabled`).

## Model

| member | source | states |
|---|---|---|
| TestBuilder.BlankQuestion | client/src/components/test-builder.tsx:47-54 | a new question has the given id, empty text and two empty, incorrect options with distinct ids |
| TestBuilder.InitialQuestions | client/src/components/test-builder.tsx:32-41 | the editor opens with one well-formed question with id `1` |
| TestBuilder.AddQuestion | client/src/components/test-builder.tsx:45-56 | exactly one blank question with two empty incorrect options is appended; the earlier questions are unchanged and in order |
| TestBuilder.RemoveQuestion | client/src/components/test-builder.tsx:58-60 | no remaining question has the removed id, and the list does not grow |
| TestBuilder.RemoveQuestionKeepsOthers | client/src/components/test-builder.tsx:58-60 | the result is an order-preserving sublist; it keeps every question with another id and loses exactly those carrying the id |
| TestBuilder.RemoveQuestionIdempotent | client/src/components/test-builder.tsx:58-60 | removing the same id twice is the same as once |
| TestBuilder.UpdateQuestion | client/src/components/test-builder.tsx:62-66 | only the text of matching questions changes; ids, options, length and order are preserved |
| TestBuilder.AddOption | client/src/components/test-builder.tsx:68-79 | a matching question with fewer than five options gets one blank, incorrect option with id `<question>-<now>` at the end; every other question is unchanged |
| TestBuilder.AddOptionBounded | client/src/components/test-builder.tsx:68-79 | a question grows by at most one option and never past five |
| TestBuilder.WithoutOption | client/src/components/test-builder.tsx:86 | the filter keeps options of the input, none with the removed id |
| TestBuilder.WithoutOptionDropsAtMostOne | client/src/components/test-builder.tsx:83-86 | with distinct ids the filter drops at most one option and keeps the ids distinct |
| TestBuilder.WithoutAbsentOption | client/src/components/test-builder.tsx:86 | filtering out an id that is not there changes nothing |
| TestBuilder.RemoveOption | client/src/components/test-builder.tsx:81-91 | only a matching question with more than two options loses the options with that id; everything else is unchanged |
| TestBuilder.RenameOption | client/src/components/test-builder.tsx:98-100 | only the text of options with that id changes; ids, flags, length and order stay |
| TestBuilder.UpdateOption | client/src/components/test-builder.tsx:93-105 | only the option text inside matching questions changes |
| TestBuilder.MarkCorrect | client/src/components/test-builder.tsx:112-115 | an option is correct exactly when its id is the chosen one; ids and texts stay |
| TestBuilder.MarkCorrectCount | client/src/components/test-builder.tsx:107-120 | with distinct ids, exactly one option is correct if the id is present and none otherwise |
| TestBuilder.SetCorrectAnswer | client/src/components/test-builder.tsx:107-120 | matching questions get their options re-marked, and all other questions are untouched |
| TestBuilder.SetCorrectAnswerSingle | client/src/components/test-builder.tsx:107-120 | after `setCorrectAnswer` the question has one correct option when the id is among its ids, none otherwise |
| TestBuilder.EditsPreserveWellFormed | client/src/components/test-builder.tsx:45-120 | every editing operation keeps every question at two to five options with distinct ids, given a fresh clock reading for new ids |
| TestBuilder.AddQuestionWellFormed | client/src/components/test-builder.tsx:45-56 | adding a question keeps the editor's invariant |
| TestBuilder.AddOptionWellFormed | client/src/components/test-builder.tsx:68-79 | adding an option keeps the invariant when the new id is not yet taken in that question |
| TestBuilder.RemoveOptionWellFormed | client/src/components/test-builder.tsx:81-91 | removing an option keeps the invariant |
| TestBuilder.SameOptionIdsWellFormed | client/src/components/test-builder.tsx:62-120 | an edit that keeps every option id in place (renaming a question or an option, marking the correct one) keeps the invariant |
| TestBuilder.RemovedWellFormed | client/src/components/test-builder.tsx:58-60 | removing questions keeps the editor's invariant |
| TestBuilder.CheckQuestionComplete | client/src/components/test-builder.tsx:132-159 | one question passes exactly when its text and every option text are non-blank after trim and some option is correct |
| TestBuilder.NoBlankOptionIff | client/src/components/test-builder.tsx:142 | no option is blank after trim exactly when every option text has a non-space character |
| TestBuilder.ValidateTestIff | client/src/components/test-builder.tsx:122-162 | `validateTest` (`TestBuilder.ValidateTest`) succeeds iff there is at least one question and every question is complete |
| TestBuilder.CheckQuestionsIff | client/src/components/test-builder.tsx:132-161 | the loop over the questions succeeds iff every question passes its own checks |
| TestBuilder.ValidateTestReportsFirstFailure | client/src/components/test-builder.tsx:132-159 | a failed check reports the verdict of the first failing question, and all earlier questions pass |
| TestBuilder.TwoCorrectOptionsPass | client/src/components/test-builder.tsx:151 | the check asks for some correct option, not exactly one: two correct options pass |
| TestBuilder.SingleQuestionValid | client/src/components/test-builder.tsx:122-162 | a test of one complete question passes |
| TestBuilder.OptionsPayload | client/src/components/test-builder.tsx:174-177 | each option's text and flag are copied in order, the id dropped |
| TestBuilder.QuestionsPayload | client/src/components/test-builder.tsx:172-178 | same questions in the same order, text copied, options transformed |
| TestBuilder.PayloadForgetsOnlyIds | client/src/components/test-builder.tsx:172-178 | two editor states give the same payload exactly when they differ only in ids |
| TestBuilder.SubmitPayload | client/src/components/test-builder.tsx:164-191 | a body is sent iff validation passes; it carries the type, the questions' payload, and the passing score only for a post-test |
| TakeTest.Pad2Value | client/src/pages/take-test.tsx:180 | below 100 the padded number is two digits that read back as the number |
| TakeTest.FormatTimeReadsBack | client/src/pages/take-test.tsx:177-181 | below 6000 seconds `formatTime` (`TakeTest.FormatTime`) is five characters `MM:SS` with 60·MM + SS equal to the input |
| TakeTest.ScoreColorOf | client/src/pages/take-test.tsx:183-188 | green from 80, red below 60, and green or blue exactly for passing scores |
| TakeTest.VerdictIgnoresPassingScore | client/src/pages/take-test.tsx:251-252 | the badge's verdict (`TakeTest.Passed`) is a pass exactly at 70 or more, whatever passing score the teacher set for the test: below 70 it fails even above a lower passing score, and from 70 it passes even below a higher one |
| TakeTest.ScoreColorMonotone | client/src/pages/take-test.tsx:183-188 | a higher score never gets a worse colour |
| TakeTest.KeyDownWarnings | client/src/pages/take-test.tsx:43-65 | a key press adds at most one warning, and one exactly for the blocked copy/paste and developer-tools shortcuts |
| TakeTest.TimerResubmitsAfterResult | client/src/pages/take-test.tsx:108-115 | as written (`TakeTest.TimerEffectAsWritten`), the effect submits at zero both before and after the result is shown |
| TakeTest.TimerEffect | client/src/pages/take-test.tsx:108-115 | with a result shown it does nothing; otherwise it behaves as written, and it submits iff the clock is at zero and no result is shown |
| TakeTest.Put | client/src/pages/take-test.tsx:129-131 | the new choice for a question replaces any earlier one, other answers stay, keys stay ascending, and the answered count grows by one exactly for a new question |
| TakeTest.LookupAt | client/src/pages/take-test.tsx:130 | each stored entry is what lookup finds for its key |
| TakeTest.LookupBelowFirst | client/src/pages/take-test.tsx:130 | a key below the smallest stored key has no answer |
| TakeTest.LookupFound | client/src/pages/take-test.tsx:130 | an answered question has an entry |
| TakeTest.SubmissionOnePerQuestion | client/src/pages/take-test.tsx:138-143 | every recorded answer appears in the submission with its option |
| TakeTest.SubmissionMatchesAnswers | client/src/pages/take-test.tsx:138-143 | for every answer map, the submitted answers (`TakeTest.SubmissionPayload`) have one element per answered question with distinct ids, each carrying the recorded option |
| TakeTest.TestSession.constructor | client/src/pages/take-test.tsx:20-25 | first question, no answers, 3600 seconds, no warnings, no result |
| TakeTest.TestSession.Previous | client/src/pages/take-test.tsx:345-346 | one question back, never below the first |
| TakeTest.TestSession.Next | client/src/pages/take-test.tsx:382-383 | one question on, never past the last |
| TakeTest.TestSession.AnswerChange | client/src/pages/take-test.tsx:129-131 | the answers become the `Put` of the choice: last choice wins, others unchanged |
| TakeTest.TestSession.Tick | client/src/pages/take-test.tsx:108-115 | the clock falls by exactly one only while time is left and no result is shown, and the step to zero is the one that submits |
| TakeTest.TestSession.AddWarnings | client/src/pages/take-test.tsx:118-127 | the count rises by `n`, and the test auto-submits iff the count changed and is at least three |
| TakeTest.WarningEffect | client/src/pages/take-test.tsx:118-127 | the effect submits only at three warnings or more, always when the count reaches the limit, and never without a change of the count |
| TakeTest.TestSession.KeyDown | client/src/pages/take-test.tsx:43-65 | a blocked shortcut raises the count by exactly one, any other key by none |
| TakeTest.TestSession.ContextMenu | client/src/pages/take-test.tsx:67-75 | a right click raises the count by exactly one |
| TakeTest.TestSession.VisibilityChange | client/src/pages/take-test.tsx:77-86 | hiding the page raises the count by one; showing it again by none |
| TakeTest.TestSession.ShowResult | client/src/pages/take-test.tsx:157-158 | showing the result re-runs the corrected timer effect, which then does nothing |
| Schema.ParseRole | shared/schema.ts:21 | the enum accepts exactly `STUDENT` and `TEACHER` |
| Schema.Utf16Length | shared/schema.ts:18-20 | a string's JavaScript length is at least its code-point count and zero only for the empty string |
| Schema.ParseRegister | shared/schema.ts:16-26 | success iff the e-mail check passes, the password has at least 6 units, both names are non-empty, the role is valid or absent (default `STUDENT`), and the confirmation is absent, empty or equal; on failure each field carries an issue exactly when its own rule fails |
| Schema.RegisterIssuesEmpty | shared/schema.ts:16-26 | no issues exactly when every registration rule passes |
| Schema.RegisterIssueOnField | shared/schema.ts:16-26 | a field carries an issue exactly when its own rule fails, the confirmation on path `confirmPassword` |
| Schema.HasIssueOnAppend | shared/schema.ts:16-26 | issues on a path of a concatenation are those of either part |
| Schema.IssueIfOn | shared/schema.ts:17-25 | a single check reports on its own path and only when it fails |
| Schema.ChecksOnPath | shared/schema.ts:16-26 | the six registration checks put an issue on a path exactly when the check of that field fails, whatever the messages |
| Schema.BlankNamesAccepted | shared/schema.ts:19-20 | whitespace-only names are accepted |
| Schema.BadEmailRejected | shared/schema.ts:17-29 | an address that fails the e-mail check fails both schemas whatever the other fields hold |
| Schema.ParseLogin | shared/schema.ts:28-31 | success iff the e-mail passes and the password is non-empty; the issues name exactly the failing fields |
| Schema.LoginLooserThanRegister | shared/schema.ts:18-30 | a one-character password passes login while registration needs six |
| Server.JwtSecret | api/index.ts:16 | an unset or empty variable gives `your-secret-key`, so the secret is never empty |
| Server.Strip | api/index.ts:80 | the response user keeps every column but the password |
| Server.FailureResponse | api/index.ts:86-95 | an error with issues is 400 with the issues; anything else is 500 |
| Server.BearerToken | api/index.ts:35-36 | a token exists exactly when the header's second space-separated field exists and is non-empty, and it is that field |
| Server.BearerTokenAfterFirstSpace | api/index.ts:35-36 | the token is the text after the header's first space up to the next space or the end, and there is none when that text is empty |
| Server.BearerHeaderRoundTrip | api/index.ts:36 | `Bearer <token>` yields exactly the token |
| Server.HeaderWithoutSpace | api/index.ts:36 | a header without a space carries no token |
| Server.Authenticate | api/index.ts:34-49 | no token is 401, a token that fails verification is 403, otherwise the handler runs with the token's payload |
| Server.SignedTokenAccepted | api/index.ts:42-48 | a token the server signed lets the request through with the payload it was signed with |
| Server.FindByEmail | api/index.ts:57-59 | finds a user with that e-mail, and none exactly when no user has it |
| Server.FindById | api/index.ts:156-158 | finds a user with that id, and none exactly when no user has it |
| Server.FindCourse | api/index.ts:197-198 | finds a course with that id, and none exactly when no course has it |
| Server.FindByEmailAppend | api/index.ts:57-59 | after one user is added, an earlier match still wins and otherwise the new user is found |
| Server.Database.constructor | server/storage.ts:4-9 | an empty store |
| Server.Database.CreateUser | server/storage.ts:26-32 | the user with the next id is appended, unless the unique e-mail is taken, in which case nothing changes |
| Server.Database.CreateCourse | api/index.ts:244-246 | the course with the next id is appended |
| Accounts.NewAccount | api/index.ts:65-77 | the stored row has the validated e-mail and names, the hashed password, the role name, no confirmation, and is active |
| Accounts.Register | api/index.ts:52-96 | invalid input is 400 with its issues, a taken e-mail is 400 with nothing stored, a fault is 500; 201 exactly otherwise, storing exactly one new user and answering with it minus the password |
| Accounts.Login | api/index.ts:98-151 | check order unknown e-mail, password, active flag; the first two share one 401 answer; success signs exactly id, e-mail and role for 24h and returns the active user minus the password |
| Accounts.LoginHidesWhichCheckFailed | api/index.ts:107-115 | an unknown e-mail and a wrong password get identical answers |
| Accounts.Me | api/index.ts:154-170 | the token's user minus the password, 404 when no user has the token's id |
| Accounts.RegisterThenLogin | api/index.ts:52-151 | a successful registration followed by a login with the same credentials succeeds for the same user |
| Accounts.LoginFindsNewAccount | api/index.ts:98-151 | a user appended under an e-mail nobody has logs in with the password hashed for it and is the user returned |
| Users.StripAll | server/routes.ts:139 | every user in order, each without the password |
| Users.StripOnlyDropsPassword | server/routes.ts:139 | two users with the same public form differ at most in the password |
| Users.ListUsers | server/routes.ts:136-144 | behind the middleware: every stored user, same count and order, without passwords |
| Users.GetUser | server/routes.ts:146-160 | behind the middleware: 404 exactly when no user has the id; otherwise a stored user minus the password |
| Courses.CreateCourse | api/index.ts:231-262 | a non-teacher gets 403 before validation and nothing is created; invalid input is 400; on 201 exactly one course is added, owned by the caller whatever the body said |
| Courses.GetCourse | api/index.ts:194-228 | 404 exactly when no course has the id; otherwise that course |
| Courses.Segments | api/index.ts:286-288 | no path segment holds a slash |
| Courses.CatchAll | api/index.ts:286-288 | every request that the route table (`Courses.RouteOf`) matches to no handler gets 404, and only those |
| Courses.RouteFor | api/index.ts:52-286 | each handler is reached by exactly its own method and path pattern, with `:id` and `:courseId` read from their segment |
| Courses.TrailingSlashIgnored | api/index.ts:52-286 | under `Courses.RouteOf`, a path with one trailing slash reaches the same handler as without it |
| Courses.SubmitIsNotFound | client/src/pages/take-test.tsx:145-146 | the test submission path reaches no handler |
| Courses.ProgressIsNotFound | client/src/pages/student-course.tsx:78-80 | the progress path reaches no handler, whatever the method |
| Courses.CreateTestIsNotFound | client/src/components/test-builder.tsx:180-181 | posting a test reaches no handler, while reading the tests does |
| Courses.CoursePathRoutes | api/index.ts:194 | `/api/courses/<id>` reaches the get-course handler |
| ClientAuth.AuthService.constructor | client/src/lib/auth.ts:10-12 | empty storage, no user |
| ClientAuth.AuthService.GetToken | client/src/lib/auth.ts:14-16 | the stored token, none when the key is absent |
| ClientAuth.AuthService.SetToken | client/src/lib/auth.ts:18-20 | only the token key changes, and `getToken` then gives the token |
| ClientAuth.AuthService.RemoveToken | client/src/lib/auth.ts:22-25 | both keys are removed |
| ClientAuth.AuthService.GetUser | client/src/lib/auth.ts:27-30 | the user last stored, read back through JSON |
| ClientAuth.AuthService.SetUser | client/src/lib/auth.ts:32-34 | only the user key changes, and `getUser` then gives the user |
| ClientAuth.AuthService.IsAuthenticated | client/src/lib/auth.ts:36-38 | true iff a non-empty token is stored |
| ClientAuth.AuthService.Login | client/src/lib/auth.ts:40-50 | token and user are stored only when the answer has both; otherwise storage is unchanged |
| ClientAuth.AuthService.Logout | client/src/lib/auth.ts:57-59 | the same effect as `removeToken` |
| ClientAuth.AuthService.GetCurrentUser | client/src/lib/auth.ts:61-87 | no token means no request and no change; otherwise it sends `Bearer <token>`, clears both keys on a failed or thrown request, and stores the user an answer carries |
| StudentCourse.CurrentStatus | client/src/pages/student-course.tsx:138 | a missing or empty status reads `not started`; any other is kept |
| StudentCourse.ProgressPercentage | client/src/pages/student-course.tsx:141-143 | 50 exactly for `in progress`, 100 exactly for `สำเร็จแล้ว`, 0 otherwise |
| StudentCourse.StatusBadge | client/src/pages/student-course.tsx:145-156 | `สำเร็จแล้ว`, `in progress` and `not started` each get their own badge, and exactly the other statuses are shown raw (the same mapping as teacher-students.tsx:87-98) |
| StudentCourse.StartingOpensPostTest | client/src/pages/student-course.tsx:93-94 | the status the start button stores shows 50%, hides the start button and enables the post-test |
| StudentCourse.ShowStartButton | client/src/pages/student-course.tsx:204 | the start button appears exactly when the badge is the not-started one, and then the bar is at 0% and the post-test is closed |
| StudentCourse.PostTestEnabled | client/src/pages/student-course.tsx:330 | the post-test button is enabled exactly when the bar stands at 50%, never once completed |
| StudentCourse.PreTestDisabled | client/src/pages/student-course.tsx:288 | the pre-test button is disabled exactly when a score exists for the course's first pre-test |
| StudentCourse.FirstOfType | client/src/pages/student-course.tsx:132-133 | the test `find` returns is the one at the first position of its type |
| StudentCourse.FindTest | client/src/pages/student-course.tsx:132-133 | the first test of the type, none exactly when there is no such test |
| StudentCourse.FindScore | client/src/pages/student-course.tsx:135-136 | the first score for the test's id, none when the test or the score is missing |
| StudentCourse.Improvement | client/src/pages/student-course.tsx:403-408 | shown exactly when both scores exist, and then pre plus the difference is post |
| StudentCourse.ImprovementText | client/src/pages/student-course.tsx:408 | a plus sign before the difference's decimal text |
| StudentCourse.FetchedStatus | client/src/pages/student-course.tsx:52-54 | a failed progress request gives no status |
| StudentCourse.PostTestNeverEnabled | client/src/pages/student-course.tsx:44-57 | the progress request gets 404, so the page shows `not started`, 0%, the start button, and a disabled post-test button |
| TeacherStudents.FilterStudents | client/src/pages/teacher-students.tsx:79-85 | an order-preserving sublist holding exactly the students that match both the search (`TeacherStudents.MatchesSearch`: the term, lowercased, occurs in the lowercased first name, last name or e-mail) and the course, each as many times as in the input |
| TeacherStudents.EmptySearchKeepsAll | client/src/pages/teacher-students.tsx:80-84 | an empty search with every course selected keeps every student |
| TeacherStudents.EverythingMatchesEmpty | client/src/pages/teacher-students.tsx:80-84 | every student matches an empty search with every course selected |
| TeacherStudents.CountStatus | client/src/pages/teacher-students.tsx:167 | a card's count is the number of times the status occurs among the students' statuses, so at most the total and zero exactly when no student has it |
| TeacherStudents.CountOther | client/src/pages/teacher-students.tsx:152-199 | the remainder the page never shows: the students whose status none of the three cards counts, at most the total; `StatusCountsBounded` adds it to the three counts |
| TeacherStudents.StatusCountsBounded | client/src/pages/teacher-students.tsx:152-199 | the three cards' counts plus the students with another status make exactly the total |
| TeacherAnalytics.Row | client/src/pages/teacher-analytics.tsx:72-78 | name, course, pre-test, post-test and improvement, in that order |
| TeacherAnalytics.Lines | client/src/pages/teacher-analytics.tsx:70-81 | the header line, then one line per student in order |
| TeacherAnalytics.RowLines | client/src/pages/teacher-analytics.tsx:72-78 | one line per student, in order, each the student's cells joined by commas |
| TeacherAnalytics.RowFreeOf | client/src/pages/teacher-analytics.tsx:72-78 | numbers never hold a character other than digits and the minus sign |
| TeacherAnalytics.LinesFreeOfBreaks | client/src/pages/teacher-analytics.tsx:70-81 | without line breaks in names or courses, no line of the export holds one |
| TeacherAnalytics.CsvLines | client/src/pages/teacher-analytics.tsx:81 | without line breaks in names or courses, the file (`TeacherAnalytics.CsvContent`) splits into exactly the header line and one line per student, with no trailing newline |
| TeacherAnalytics.HeaderColumns | client/src/pages/teacher-analytics.tsx:70-71 | the header line splits back into its five titles |
| TeacherAnalytics.RowColumns | client/src/pages/teacher-analytics.tsx:72-78 | a student's line without commas in the name or course splits back into its five cells |
| TeacherAnalytics.CsvColumns | client/src/pages/teacher-analytics.tsx:71-81 | without commas, each line splits back into exactly its five cells |
| TeacherAnalytics.CommaShiftsColumns | client/src/pages/teacher-analytics.tsx:81 | a comma in a name or course is not escaped, so the line has more than five columns |
| TeacherAnalytics.BadgeFor | client/src/pages/teacher-analytics.tsx:98-103 | ≥20 very good, ≥10 good, ≥5 fair, otherwise needs work |
| TeacherAnalytics.BadgeMonotone | client/src/pages/teacher-analytics.tsx:98-103 | a larger improvement never earns a lower badge |
| Text.TrimStart | client/src/components/test-builder.tsx:133 | the leading whitespace is removed and the rest is kept |
| Text.TrimEnd | client/src/components/test-builder.tsx:133 | the trailing whitespace is removed and the rest is kept |
| Text.BlankIffAllSpace | client/src/components/test-builder.tsx:133-142 | a string is blank after trim exactly when it has no non-space character |
| Text.ToLower | client/src/pages/teacher-students.tsx:80-82 | the same length, each letter lowered |
| Text.Split | api/index.ts:36 | at least one piece, no piece holding the separator |
| Text.JoinSplit | api/index.ts:36 | joining a split with its separator gives back the input |
| Text.SplitJoin | client/src/pages/teacher-analytics.tsx:81 | splitting a join of separator-free pieces gives back the pieces |
| Text.SplitCount | client/src/pages/teacher-analytics.tsx:81 | a split has one piece more than the separator's occurrences |
| Text.SplitAtFirstSeparator | api/index.ts:36 | with the first separator at `k`, the pieces are the text before it and the text after it up to the next separator |
| Text.SplitAppendSeparator | api/index.ts:286-288 | a separator at the end adds one empty last piece |
| Text.CountCharJoin | client/src/pages/teacher-analytics.tsx:81 | a join holds the separators between the pieces plus those inside them |
| Text.NatToString | client/src/pages/take-test.tsx:180 | decimal digits, no leading zero, and the length for one- and two-digit numbers |
| Text.DecimalRoundTrip | client/src/pages/take-test.tsx:140 | `parseInt` of a number's decimal text gives the number back |
| Text.IntToString | client/src/pages/teacher-analytics.tsx:75-77 | a minus sign before the digits of a negative number |
| Text.PadStart | client/src/pages/take-test.tsx:180 | the padded text ends with the input, and fill characters pad it to the width |
| Sequences.FirstWhere | client/src/pages/student-course.tsx:132-136 | `find`: the first position that satisfies the test, none exactly when no element does |

## Left out

- Courses.CatchAll: the method type has only GET, POST, PUT, PATCH and DELETE. Express also answers HEAD with the `app.get` handlers, and other methods such as OPTIONS reach the `app.all` catch-all, so "only those" is stated for the five modelled methods only.

- Network requests, `fetch`, toasts, the DOM, the CSV file download, event-listener registration and `setTimeout` scheduling are not modelled. This includes the 3-second delay before the warning auto-submit. The model keeps the counters and decisions they drive.
- Logging middleware and timing.
- bcrypt, JWT, zod's e-mail check, JSON, and the course schema, which this model does not cover, are parameters with no behaviour assumed. `AuthService` assumes JSON parsing gives back what was stringified. `RegisterThenLogin` assumes bcrypt accepts a password against its own hash.
- `GET /api/courses` and the nested `include`/`select` shaping of courses and tests are not modelled; only the 404 decision of `GET /api/courses/:id` is. The tests route appears only in the route table.
- Route parameters arrive already converted by `parseInt`. `NaN` ids are not modelled, and neither is Express matching paths case-insensitively.
- Request bodies are taken as typed values. Missing or non-string fields, which zod would also reject, are not modelled.
- `createdAt`/`updatedAt` columns are not modelled. New accounts are active, on the assumption that the Prisma schema, which this model does not cover, defaults `isActive` to true.
- The second entry point, `server/routes.ts`, runs the same register, login and me steps as `api/index.ts` and shares the `Accounts` model. Its storage facade is the `Database` class.
- Text.ToLower: lowers ASCII letters only, where JavaScript's `toLowerCase` is full Unicode case mapping.
- Schema.Utf16Length: a character above U+FFFF counts two units. This relies on Dafny strings holding code points.
- TakeTest.TestSession.ShowResult: the class uses the corrected timer effect, so it does not capture the page as written, which submits a second time when the result is shown at `timeLeft == 0`; that behaviour is stated by `TakeTest.TimerResubmitsAfterResult`.
- TestBuilder.EditsPreserveWellFormed: assumes that two `addOption` clicks on one question never read the same `Date.now()` millisecond, so the new option id is not yet taken (also the premise of `TestBuilder.AddOptionWellFormed`).
- TakeTest.TestSession.Next: requires at least one question, because the page renders the button only then.
- The student list and the analytics table are fixed mock data on their pages; the model filters, counts and exports any rows.
- StudentCourse.FindScore: assumes every score carries a numeric `testId`, so no score matches a missing test.
- The pass-mark effect after submission (`score >= 70`) has an empty body in the source. Scoring and progress transitions are not modelled, since no code for them exists.

## Findings

| source | as written | input that shows it | evidently intended | confidence | as-written member | corrected member |
|---|---|---|---|---|---|---|
| client/src/pages/take-test.tsx:108-115 | the timer effect submits whenever `timeLeft === 0`, even when a result is already shown; setting `showResult` re-runs the effect | the clock reaches 0: the first run submits, the submission sets `showResult`, and the re-run with `timeLeft = 0, showResult = true` submits a second time | once a result is shown the effect does nothing | medium (not executed) | TakeTest.TimerResubmitsAfterResult | TakeTest.TimerEffect, TakeTest.TestSession.ShowResult |
