# mentorae tutoring app: a Dafny model of its component logic

mentorae is a tutoring web app. Tutors build quizzes and assessments for
their subjects, publish them, and watch their students' progress. Students
take assessments, chat with their tutor, and answer tutor extensions. The
app is a set of React components over a hosted Postgres backend. The logic
this project models lives inside those components:

- **Assessment scoring.** The runner counts correct answers in either
  schema format (legacy `questions`, or survey `pages`/`elements`). It
  computes the percentage and the pass mark, and converts a legacy
  schema into the survey the student sees.
- **Attempt gating.** Attempts count per student, an attempt limit is
  computed and handed to the runner, and the best score is shown. The
  runner does not read the limit, so it is not enforced (see Findings).
- **Question editors.** The quiz builder and the assessment builder, each
  an editable list of questions, plus the quiz save that writes the quiz
  and its ordered question rows.
- **Publishing.** Quizzes can be published one at a time or all drafts at
  once.
- **CSV export.** The scoreboard's hand-built CSV, and the attempts
  panel's export records.
- **Chat paging.** The chat hook's paged fetch, its realtime append, and
  sending.
- **Progress aggregation.** The tutor dashboard's weighted progress
  value with its low-progress flag, and the lesson completion viewer.
- **Content helpers.** The subject viewer's grade candidates, content
  extraction and once-only view record, and subject creation with the
  de-duplicated `subjects_taught` union.
- **Extensions.** The student's response to an extension, and ending a
  match, which is refused while an extension is still running.
- **Registration.** The form's ordered checks and where sign-up leads.

Each source file is one module, in the file of the same name in snake case:
`assess_runner.dfy` models `src/components/assessment/assess-runner.tsx`,
and so on. Three helper modules hold what several components share.
`Wrappers` has `Option`, JavaScript truthiness of an optional string, and
`||`. `Seqs` has `filter` and `Array.from(new Set(...))`. `Strs` has
`trim`, first-occurrence `replace`, and `join`/`split` on one character.

How the model treats the code:

- **Pure code.** Expressions, `filter`/`map`/`reduce` and conditionals
  become functions and lemmas.
- **Changing state.** Component state that handlers update becomes a
  class with `modifies` clauses. Loops that fill a map or count
  (`forEach`, `for`) become methods with loop invariants. Each such
  method is proved equal to a function, and the function's properties
  are proved as lemmas.
- **The backend.** A query becomes the rows it returns, passed in as a
  parameter. A table that a component writes becomes a small class over
  a `seq` or `map`.
- **Effects.** Browser dialogs, uploads, fresh UUIDs and the clock become
  parameters (`confirmed`, `url`, `freshId`, `now`). So do the success
  or failure of an insert or update.

## Model

| member | source | states |
|---|---|---|
| AssessRunner.QuestionTally | src/components/assessment/assess-runner.tsx:20-26 | `total` is the number of questions with an answer key, and `correct` never exceeds it |
| AssessRunner.ElementFold | src/components/assessment/assess-runner.tsx:31-38 | one page's elements add at most one to `total` each, and no more to `correct` than to `total` |
| AssessRunner.PageTally | src/components/assessment/assess-runner.tsx:27-40 | over all pages, `correct` never exceeds `total` |
| AssessRunner.Score | src/components/assessment/assess-runner.tsx:20-40 | the legacy questions are scored whenever present, otherwise the pages; `correct <= total` |
| AssessRunner.Percentage | src/components/assessment/assess-runner.tsx:42 | 0 with nothing scorable, otherwise `correct*100/total`; always in [0,100]; 100 exactly when something is scorable and `correct == total` |
| AssessRunner.TallyQuestions | src/components/assessment/assess-runner.tsx:20-26 | the counting loop returns the counts of QuestionTally |
| AssessRunner.TallyElements | src/components/assessment/assess-runner.tsx:31-38 | the inner loop adds one page's counts as ElementFold does |
| AssessRunner.TallyPages | src/components/assessment/assess-runner.tsx:27-40 | the page loop returns the counts of PageTally over the pages, with `elements ?? []` for a schema without pages |
| AssessRunner.AttemptFor | src/components/assessment/assess-runner.tsx:16-51 | the inserted row: the ids, a score no larger than the scorable total, a percentage in [0,100], and `passed` exactly when the percentage reaches the passing score |
| AssessRunner.SubmitAttempt | src/components/assessment/assess-runner.tsx:16-56 | the inserted row has the ids, the score of the branch taken, its percentage, and `passed` exactly when the percentage reaches the passing score (70 when none is given); it is AttemptFor's row |
| AssessRunner.NothingToScore | src/components/assessment/assess-runner.tsx:28-42 | with no schema, or neither pages nor elements, the tally is 0/0 and the percentage 0 |
| AssessRunner.ConvertLength | src/components/assessment/assess-runner.tsx:70-88 | the converted survey has one radio group per question plus one HTML element per question with a truthy image |
| AssessRunner.ImageUrlRoundTrip | src/components/assessment/assess-runner.tsx:71-76 | the image URL can be read back out of the generated `<img>` HTML |
| AssessRunner.ConvertRoundTrip | src/components/assessment/assess-runner.tsx:59-93 | the questions can be recovered from the converted elements, in order, with prompt, options, answer key and image intact (an empty image reads as none) |
| AssessRunner.ConvertedScoresAlike | src/components/assessment/assess-runner.tsx:20-88 | scoring the converted elements counts exactly as scoring the legacy questions |
| AssessRunner.ElementFoldAppend | src/components/assessment/assess-runner.tsx:31-38 | counting elements in one pass equals counting a prefix and then the rest |
| AssessRunner.SurveyScoresLikeSchema | src/components/assessment/assess-runner.tsx:20-93 | for a legacy schema, the survey shown to the student scores the same as the schema that `submitAttempt` scores |
| AssessRunner.AllCorrectScoresFull | src/components/assessment/assess-runner.tsx:20-26 | answering every keyed question with its key gives `correct == total` |
| AssessRunner.FullScoreMeansAllCorrect | src/components/assessment/assess-runner.tsx:20-26 | the converse: `correct == total` only when every keyed question was answered with its key |
| AssessRunner.PerfectSubmissionPasses | src/components/assessment/assess-runner.tsx:42-43 | such a submission scores 100% and passes any passing score up to 100 |
| AttemptsPage.StudentAttempts | src/components/assessment/attempts-page.tsx:79-82 | a student gets exactly their own attempts; any other role gets none |
| AttemptsPage.CanAttempt | src/components/assessment/attempts-page.tsx:84-86 | never for a non-student; always for a student without a limit; otherwise exactly while own attempts are below the limit, so a limit of 0 never allows |
| AttemptsPage.StudentAttemptsAppend | src/components/assessment/attempts-page.tsx:79-82 | the filter keeps load order: it distributes over concatenation |
| AttemptsPage.OwnAttemptsAllCount | src/components/assessment/attempts-page.tsx:79-82 | when every loaded attempt is the student's own, all of them count |
| AttemptsPage.RunnerInsert | src/components/assessment/attempts-page.tsx:94-104 | as written: a runner is rendered exactly for a student, and its submit inserts AttemptFor's row with no dependence on the attempts or the limit |
| AttemptsPage.LimitNotEnforced | src/components/assessment/attempts-page.tsx:84-104 | a student at or over the limit is refused by `canAttempt`, yet the runner inserts, and the student's attempts then exceed the limit |
| AttemptsPage.GatedInsert | src/components/assessment/attempts-page.tsx:84-104 | corrected: the runner inserts exactly when `canAttempt` holds, and then AttemptFor's row |
| AttemptsPage.GatedInsertKeepsLimit | src/components/assessment/attempts-page.tsx:84-86 | when `canAttempt` holds, which is exactly when GatedInsert inserts, the new attempt leaves the student with at most `attemptLimit` attempts |
| StudentAttempt.CanAttempt | src/components/assessment/student-attempt.tsx:47-48 | no limit, or fewer attempts than the limit; no role check |
| StudentAttempt.MaxPct | src/components/assessment/student-attempt.tsx:52 | an upper bound on every defaulted percentage that is attained by one of them |
| StudentAttempt.BestScore | src/components/assessment/student-attempt.tsx:50-53 | null exactly without attempts, else the maximum of the percentages (missing as 0) |
| StudentAttempt.ShowsBestScore | src/components/assessment/student-attempt.tsx:58 | the best-score line appears exactly when there is an attempt |
| StudentAttempt.BestScoreUnique | src/components/assessment/student-attempt.tsx:50-53 | any attained upper bound is the best score |
| QuizBuilder.SpliceStart | src/components/assessment/quiz-builder.tsx:43 | `splice` start: an index in range as is, a negative one from the end, clamped to the list |
| QuizBuilder.SpliceOne | src/components/assessment/quiz-builder.tsx:42-43 | one element goes when the start is inside the list; the others keep their order |
| QuizBuilder.QuestionRowsFaithful | src/components/assessment/quiz-builder.tsx:80-88 | the rows give back every question in order, each for the new quiz, one point, multiple choice, numbered from 1 upward |
| QuizBuilder.Builder.constructor | src/components/assessment/quiz-builder.tsx:32-34 | starts with one blank question of three empty options |
| QuizBuilder.Builder.AddQuestion | src/components/assessment/quiz-builder.tsx:36-38 | appends one blank question; the list stays non-empty |
| QuizBuilder.Builder.RemoveQuestion | src/components/assessment/quiz-builder.tsx:40-46 | the last remaining question is never removed; otherwise `splice(index, 1)` |
| QuizBuilder.Builder.UpdateQuestion | src/components/assessment/quiz-builder.tsx:48-57 | an index outside the list throws and changes nothing; otherwise only that question's text, answer, or one option changes |
| QuizBuilder.Builder.HandleSave | src/components/assessment/quiz-builder.tsx:59-104 | a blank title inserts nothing; the question rows are inserted only after the quiz insert returned an id; success only when both inserts succeed, with the matching alert |
| AssessBuilder.RemoveById | src/components/assessment/assess-builder.tsx:61-63 | keeps exactly the questions with another id |
| AssessBuilder.RemoveUnknownId | src/components/assessment/assess-builder.tsx:62 | removing an id nobody has leaves the list unchanged |
| AssessBuilder.RemoveByIdAppend | src/components/assessment/assess-builder.tsx:62 | removal keeps the order of the others |
| AssessBuilder.RemoveCanEmpty | src/components/assessment/assess-builder.tsx:61-63 | unlike the quiz builder, the last question can be removed |
| AssessBuilder.Builder.constructor | src/components/assessment/assess-builder.tsx:25-27 | the initial schema's questions, or none |
| AssessBuilder.Builder.AddQuestion | src/components/assessment/assess-builder.tsx:47-59 | appends one question with the fresh id and four empty options |
| AssessBuilder.Builder.RemoveQuestion | src/components/assessment/assess-builder.tsx:61-63 | afterwards no question has the id |
| AssessBuilder.Builder.EditPrompt | src/components/assessment/assess-builder.tsx:109-113 | only question `i`'s prompt changes |
| AssessBuilder.Builder.SetImage | src/components/assessment/assess-builder.tsx:122-127 | only question `i`'s image changes, to the uploaded URL |
| AssessBuilder.Builder.EditOption | src/components/assessment/assess-builder.tsx:144-148 | only option `j` of question `i` changes |
| AssessBuilder.Builder.SelectCorrect | src/components/assessment/assess-builder.tsx:161-165 | question `i`'s answer key becomes one of its options, and nothing else changes |
| AssessBuilder.Builder.Save | src/components/assessment/assess-builder.tsx:65-67 | hands over the current questions as they are |
| AssessBuilder.SavedQuestionsAllScored | src/components/assessment/assess-builder.tsx:47-67 | read back by the runner, every saved question counts towards the total, since its answer key is always defined (`""` until an option is selected) |
| SubjectQuizzesTab.Visible | src/components/assessment/subject-quizzes-tab.tsx:40-52 | a tutor sees every quiz, anyone else exactly the published ones |
| SubjectQuizzesTab.DraftIds | src/components/assessment/subject-quizzes-tab.tsx:86 | exactly the ids of the unpublished quizzes |
| SubjectQuizzesTab.DraftIdsAppend | src/components/assessment/subject-quizzes-tab.tsx:86 | the draft ids keep list order |
| SubjectQuizzesTab.NoDraftsWhenAllPublished | src/components/assessment/subject-quizzes-tab.tsx:86-92 | a fully published list has no drafts, so bulk publishing issues no update |
| SubjectQuizzesTab.Fetch | src/components/assessment/subject-quizzes-tab.tsx:37-54 | lists exactly the subject's quizzes, and only the published ones unless the viewer is the tutor |
| SubjectQuizzesTab.SetFlag | src/components/assessment/subject-quizzes-tab.tsx:68-71 | the rows with that id get the flag; every other row, and every other column, is unchanged |
| SubjectQuizzesTab.PublishAll | src/components/assessment/subject-quizzes-tab.tsx:94-97 | every listed row becomes published, every other row is unchanged, and no row is added |
| SubjectQuizzesTab.UnpublishedHiddenFromStudents | src/components/assessment/subject-quizzes-tab.tsx:37-79 | after a quiz is unpublished, the list a student reloads no longer shows it |
| SubjectQuizzesTab.BulkPublishLeavesNoDrafts | src/components/assessment/subject-quizzes-tab.tsx:37-107 | after the drafts the tutor saw are published, the tutor's reloaded list has no drafts |
| SubjectQuizzesTab.Tab.Load | src/components/assessment/subject-quizzes-tab.tsx:37-54 | the list is what the subject's query returns for this viewer, or empty when the query fails |
| SubjectQuizzesTab.Tab.TogglePublish | src/components/assessment/subject-quizzes-tab.tsx:60-79 | without confirmation nothing is issued; a successful update writes the negation of the shown flag to that quiz only and reloads the list from the updated table (empty if the reload fails); a failed update changes neither |
| SubjectQuizzesTab.Tab.BulkPublishAll | src/components/assessment/subject-quizzes-tab.tsx:81-107 | no update without confirmation or without drafts; otherwise one update publishing exactly the drafts of the shown list, then a reload from the updated table (empty if the reload fails); a failed update changes neither |
| QuizScoreboard.Cells | src/components/assessment/quiz-scoreboard.tsx:48-56 | seven cells per result, one per header |
| QuizScoreboard.Lines | src/components/assessment/quiz-scoreboard.tsx:57 | the header line plus one line per result |
| QuizScoreboard.ExportToCsv | src/components/assessment/quiz-scoreboard.tsx:45-57 | nothing exactly when there are no results |
| QuizScoreboard.HeaderLine | src/components/assessment/quiz-scoreboard.tsx:47 | the header line holds no newline and splits back into the seven header names |
| QuizScoreboard.ResultLine | src/components/assessment/quiz-scoreboard.tsx:48-57 | a line of plain fields splits back into its cells |
| QuizScoreboard.ExportRoundTrip | src/components/assessment/quiz-scoreboard.tsx:45-57 | when no field holds a comma or a newline, the file reads back as the header names and each result's cells, in order |
| QuizScoreboard.CommaInNameShiftsColumns | src/components/assessment/quiz-scoreboard.tsx:49-57 | with no quoting, a comma in a name reads back as eight columns, and the second is the rest of the name |
| AttemptsPanel.StudentName | src/components/assessment/attempts-panel.tsx:86-87 | the display name if truthy, else the email if truthy, else "Unknown"; never empty |
| AttemptsPanel.ExportRows | src/components/assessment/attempts-panel.tsx:82-93 | nothing without attempts; otherwise one record per attempt in order, carrying its student, time, score and percentage, named by `StudentName`, "Yes" exactly when passed |
| AttemptsPanel.ExportRowsAppend | src/components/assessment/attempts-panel.tsx:85-93 | the export of a longer load is the exports of its parts in order |
| UseChat.Page | src/components/chats/useChat.ts:15-16 | the rows from `offset` on, at most `pageSize` of them |
| UseChat.FetchStep | src/components/chats/useChat.ts:9-24 | a later fetch with `hasMore` false changes nothing; the offset grows by the page length; an initial page replaces the list and a later one goes before it; `hasMore` turns false on a short or empty page and never turns back |
| UseChat.FetchKeepsLoaded | src/components/chats/useChat.ts:9-24 | one more fetch keeps "the first `offset` rows are loaded, each once" |
| UseChat.SessionCoversPrefix | src/components/chats/useChat.ts:9-27 | after the initial fetch and n more, the offset is `(n+1)*pageSize` or the table size, and the messages are exactly those rows, none lost or repeated |
| UseChat.ScrollBackBreaksOrder | src/components/chats/useChat.ts:15-18 | with three messages and pages of two, the second fetch shows the newest message first |
| UseChat.FetchOlderStep | src/components/chats/useChat.ts:9-24 | the corrected fetch keeps the paging rules: no change when finished, the offset grows by at most a page |
| UseChat.FetchOlderKeepsOrder | src/components/chats/useChat.ts:9-24 | with the correction the list is always the newest `offset` messages in written order |
| UseChat.ChatHook.constructor | src/components/chats/useChat.ts:4-7 | no messages, offset 0, `hasMore` true |
| UseChat.ChatHook.FetchMessages | src/components/chats/useChat.ts:9-24 | the state changes as FetchStep says |
| UseChat.ChatHook.OnInsert | src/components/chats/useChat.ts:36 | a realtime insert appends the new row at the end and leaves the paging state |
| UseChat.ChatHook.SendMessage | src/components/chats/useChat.ts:46-48 | one insert of chat, sender and content; the hook's state is untouched |
| ProgressDashboard.LessonPct | src/components/progress-dashboard.tsx:79-82 | `completed/total` when there are lessons, else 0; at most 1 when completed ≤ total |
| ProgressDashboard.SumBounds | src/components/progress-dashboard.tsx:91 | a sum of percentages lies between 0 and 100 per item |
| ProgressDashboard.AvgScore | src/components/progress-dashboard.tsx:89-92 | the mean of the percentages, 0 without attempts |
| ProgressDashboard.AvgScoreBounds | src/components/progress-dashboard.tsx:89-92 | a mean of percentages is a percentage |
| ProgressDashboard.Progress | src/components/progress-dashboard.tsx:94-95 | lessons weigh 60 and assessments 40: full marks give 100, and in-range inputs give a value in [0,100] |
| ProgressDashboard.PercentagesInRange | src/components/progress-dashboard.tsx:84-92 | percentages in range stay in range once a null is read as 0 |
| ProgressDashboard.StudentProgressBounds | src/components/progress-dashboard.tsx:66-95 | with no more completions than lessons and percentages in range, a student's progress is in [0,100] |
| ProgressDashboard.ProgressCanExceedHundred | src/components/progress-dashboard.tsx:64-95 | one completed lesson of the row's grade and one of another grade, no attempts: the completed count is 2, the lesson count 1, and the value 120 |
| ProgressDashboard.GradeLessonsCompleted | src/components/progress-dashboard.tsx:64-82 | the corrected count (lessons of the row's subject and grade with a progress row whose `completed_at` is truthy) never exceeds the lesson count of that subject and grade |
| ProgressDashboard.CorrectedProgressBounds | src/components/progress-dashboard.tsx:64-95 | with the corrected count, progress is in [0,100] for any progress rows |
| ProgressDashboard.ProgressMapKeys | src/components/progress-dashboard.tsx:64-96 | the map has an entry for exactly the students of the rows |
| ProgressDashboard.ProgressMapLastWins | src/components/progress-dashboard.tsx:64-94 | a student with several rows gets the value of their last row |
| ProgressDashboard.BuildProgressMap | src/components/progress-dashboard.tsx:62-96 | the loop builds the map ProgressMap describes |
| ProgressDashboard.PctShown | src/components/progress-dashboard.tsx:121-122 | a student without an entry shows 0 and is flagged low |
| ProgressDashboard.Dashboard.Load | src/components/progress-dashboard.tsx:19-100 | without a user it stays loading; a failed match query only ends loading; otherwise the rows and their progress map are stored |
| CourseProgress.CompletedMapKeys | src/components/course-progress.tsx:39-43 | a key for exactly each lesson id in the progress rows |
| CourseProgress.CompletedMapLastWins | src/components/course-progress.tsx:41-43 | for a repeated lesson id, the last row's `completed_at` is kept |
| CourseProgress.CompletedMapOthers | src/components/course-progress.tsx:41-43 | rows about other lessons leave a lesson's entry as it was |
| CourseProgress.BuildCompletedMap | src/components/course-progress.tsx:39-43 | the loop builds the map CompletedMap describes; no data gives an empty map |
| CourseProgress.Render | src/components/course-progress.tsx:53-96 | "No lessons found" exactly when the list is empty; otherwise one line per lesson, shown completed exactly when its entry is truthy |
| CourseProgress.OtherLessonsIrrelevant | src/components/course-progress.tsx:72-82 | progress rows for lessons not in the list change nothing on screen |
| CourseProgress.Viewer.Load | src/components/course-progress.tsx:19-48 | stores the lessons (or none) and the completion map of the progress rows |
| SubjectViewer.GradeCandidates | src/components/subject-viewer.tsx:27-31 | three candidates: the grade itself first and "unspecified" last |
| SubjectViewer.GradePrefixStripped | src/components/subject-viewer.tsx:29 | `"Grade " + n` is also looked up as `n`, and only the first prefix goes |
| SubjectViewer.GradeWithoutPrefix | src/components/subject-viewer.tsx:29 | a grade without `"Grade "` yields two equal candidates |
| SubjectViewer.Selected | src/components/subject-viewer.tsx:22-31 | exactly the rows of the subject and tutor whose grade is one of GradeCandidates |
| SubjectViewer.QueryContent | src/components/subject-viewer.tsx:22-37 | `maybeSingle`: an error exactly when more than one row is selected, no content with none, otherwise the content of a row of the subject and tutor whose grade is a candidate |
| SubjectViewer.OtherGradeIgnored | src/components/subject-viewer.tsx:27-31 | a row whose grade is not a candidate never changes the query's result |
| SubjectViewer.ExtractHtml | src/components/subject-viewer.tsx:39-48 | a string as it is, an object's truthy `html`, otherwise the empty string |
| SubjectViewer.PlaceholderIffNoHtml | src/components/subject-viewer.tsx:39-83 | the placeholder appears exactly for an empty string, an object without truthy html, or no content |
| SubjectViewer.Viewer.FetchContent | src/components/subject-viewer.tsx:20-52 | no fetch without both ids; a failed request or several selected rows keep the HTML; otherwise the HTML extracted from QueryContent over the `subject_content` rows |
| SubjectViewer.Viewer.TrackView | src/components/subject-viewer.tsx:53-74 | inserts a view exactly when both ids are set, the flag is still clear and there is a user; after that the flag is set, so an instance records at most one view |
| CreateSubject.UpdatedTaught | src/components/create-subject.tsx:80-83 | the distinct names of the current list in first-occurrence order, then the new name unless already there: no duplicates, contains the name, keeps every current name, adds nothing else |
| CreateSubject.KnownNameLeavesListAlone | src/components/create-subject.tsx:83 | a duplicate-free list that already has the name is written back unchanged |
| CreateSubject.NewNameAppended | src/components/create-subject.tsx:83 | a new name goes to the end of a duplicate-free list |
| CreateSubject.InsertedNameTrimmed | src/components/create-subject.tsx:62-68 | the inserted name is non-empty, has no surrounding white space, and trimming it again changes nothing |
| CreateSubject.Form.HandleCreate | src/components/create-subject.tsx:61-102 | a blank name or no tutor does nothing; a failed insert only alerts; otherwise the trimmed name is inserted, the tutor's `subjects_taught` becomes the union, the local list gains the new subject at the end, and the input is cleared |
| StudentExtensionPanel.PendingFor | src/components/student-extension-panel.tsx:9-14 | exactly the student's pending extensions |
| StudentExtensionPanel.Answer | src/components/student-extension-panel.tsx:20 | "accepted" exactly when accepted, and never "pending" |
| StudentExtensionPanel.SetStatus | src/components/student-extension-panel.tsx:18-21 | every row with that id gets the status; the others are untouched |
| StudentExtensionPanel.WithoutId | src/components/student-extension-panel.tsx:23 | keeps exactly the extensions with another id |
| StudentExtensionPanel.RespondMatchesReload | src/components/student-extension-panel.tsx:17-23 | dropping the answered id locally gives the same list as loading the pending extensions again after the update |
| StudentExtensionPanel.Panel.Load | src/components/student-extension-panel.tsx:8-15 | the student's pending extensions, or none when the query fails |
| StudentExtensionPanel.Panel.Respond | src/components/student-extension-panel.tsx:17-25 | a successful update sets the answer on that id only; the local list loses that id whatever the update did |
| EndMatch.FindBlocking | src/hooks/end-match.tsx:5-13 | finds an extension exactly when one has the same student, subject and grade and expires strictly after now |
| EndMatch.StatusIgnored | src/hooks/end-match.tsx:5-11 | with every status set to one value, exactly the same matches are blocked: the status plays no part |
| EndMatch.ExpiredDoesNotBlock | src/hooks/end-match.tsx:11 | extensions expiring at or before now never block |
| EndMatch.EndMatch | src/hooks/end-match.tsx:3-24 | blocked exactly when such an extension exists, and then no match changes; otherwise only the match with that id becomes "ended" |
| RegistrationForm.Validate | src/components/auth/registration-form.tsx:33-40 | a missing email, password or confirmation gives the fill-all message, checked before a mismatch; the name is not required |
| RegistrationForm.Destination | src/components/auth/registration-form.tsx:45-52 | with a session a teacher goes to the tutor dashboard and anyone else to the learner dashboard; without one, to the login page |
| RegistrationForm.RegisterForm.constructor | src/components/auth/registration-form.tsx:21-27 | empty fields, role "student", no error |
| RegistrationForm.RegisterForm.HandleSubmit | src/components/auth/registration-form.tsx:29-58 | a failed check sets its message and calls no sign-up; otherwise exactly one sign-up call, then the route, or the thrown message ("Signup failed." when it has none) |

## Left out

- The student/tutor pairing and confirmation flow is not in the code's components. It is not modelled.
- Rounding is left out. Percentages and progress are exact reals: `Math.round(x*100)/100`, `toFixed` and floating-point division are not modelled.
- Dates are plain inputs. `toLocaleDateString`/`toLocaleString` results enter as strings, and `now` and `expires_at` as integers.
- Ids and uploads are parameters. `crypto.randomUUID()` ids and uploaded image URLs are given, not generated.
- Backend failures are parameters where the code reacts to them (`updateOk`, `queryOk`, `reloadOk`, an `Option` result). Otherwise they are left out: a failed count in the dashboard, a failed profile read in subject creation, the error of `maybeSingle` when several extensions match.
- EndMatch.EndMatch: models the gate as "an unexpired extension exists". Under `maybeSingle`, two or more such extensions would give an error and no data, and the match would be ended. That is not captured.
- `Papa.unparse` is not modelled. The attempts panel stops at the records it hands to the CSV writer, and the quoting and line endings are its own.
- Downloads and alerts are left out: `Blob`, object URLs, and the alert and toast texts other than those modelled.
- React timing is not modelled. The effects run as sequential steps, so async effect ordering, stale closures (the `offset` captured by `fetchMessages`) and unmount guards (`isMounted`) are not captured.
- SubjectViewer.Viewer.TrackView: the effect runs as one step. In the code the flag is set only after `await getUser()`, so two effect runs (as under `React.StrictMode`) can both insert. The ids are fixed per instance, so a view for a new subject in the same mounted viewer, which the flag suppresses, is not represented.
- UseChat.SessionCoversPrefix: holds for an unchanging table with no realtime inserts between fetches.
- UseChat.ChatHook.constructor: requires a positive page size (the default is 50). A range with its end before its start is backend behaviour that is not modelled.
- QuizBuilder.Builder.UpdateQuestion: requires an option index for an options edit, and one inside the options of an existing question. Without a number the code assigns the value to the whole `options` field. Past the end, a JavaScript array grows with holes. Neither is modelled.
- Aliasing is not modelled. The quiz and assessment builders copy the list shallowly and assign into the shared question objects, so the model treats each edit as a value update of one question.
- AssessBuilder.Builder.AddQuestion: the `type: "multiple_choice"` field of a new question is not carried.
- AssessRunner.PassingScore: a `passing_score` of null in the database reaches the runner as null, not undefined, so the default of 70 does not apply. Only the undefined case is modelled.
- Answers to survey questions are strings. An answer of another JSON type, compared with `===`, is not modelled.
- Two different end-match helpers exist. The `endMatch` in `src/lib/match-table.ts` writes "completed" instead of "ended" and has no extension gate. It is not part of this model.
- Video calling, authentication glue, notifications and pure rendering are not part of this model.

## Findings

The classes keep the behaviour as written: `UseChat.ChatHook` fetches with `FetchStep` and `ProgressDashboard.Dashboard` stores `StudentProgress`. The corrected definitions are stated and proved beside them.

| source | as written | input that shows it | evidently intended | confidence | as-written member | corrected member |
|---|---|---|---|---|---|---|
| src/components/chats/useChat.ts:15-18 | pages are read oldest first, but each later page is put before the messages already shown | messages m0, m1, m2 written in that order, page size 2: after the first fetch and one more, the chat shows m2, m0, m1 | scrolling up loads older messages above the shown ones, so the chat stays in written order | medium, not executed | UseChat.ScrollBackBreaksOrder | UseChat.FetchOlderKeepsOrder |
| src/components/progress-dashboard.tsx:64-82 | completed lessons are counted by student and subject, then divided by the lessons of the subject and grade | one lesson in Grade 5 and one in Grade 6 of the same subject, both completed by a Grade 5 student with no attempts: the dashboard shows 120 | the fraction of the grade's lessons the student completed (a progress row with a truthy `completed_at`, as the lesson viewer counts one), so progress stays within 0 to 100 | medium, not executed | ProgressDashboard.ProgressCanExceedHundred | ProgressDashboard.CorrectedProgressBounds |
| src/components/assessment/attempts-page.tsx:84-104 | `canAttempt`, the limit and the attempts used are passed to the runner, whose props do not include them, so the runner is shown and its submit inserts for every student (the same holds at student-attempt.tsx) | a student with `attempt_limit` 1 and one attempt: `canAttempt` is false, the runner still inserts, and the student has two attempts | a submit is refused once the limit is reached, so a student never has more attempts than the limit | high, not executed | AttemptsPage.LimitNotEnforced | AttemptsPage.GatedInsertKeepsLimit |
