# Exam platform core in Dafny

This project models the rules at the heart of an online exam platform. The
platform is an Express/Mongoose back end where teachers build and publish
exams, students take them, and submissions are scored, graded and reviewed.
The model covers:

- **The question evaluator** (`validateAnswer`, `calculateMarks`, `successRate`):
  one rule per question type. The output is a verdict, a wrong answer, or
  `null` for an essay, which waits for manual grading.
- **The score aggregator of a submission** (`calculateScore`, `assignGrade`,
  `checkPassed`) and the answer record it sums over.
- **The exam document**: the `status` virtual, `isAvailableForStudent`,
  `calculateTotalMarks` and the attempt-setting defaults.
- **The submission routes as state transitions on a submission**: starting an
  attempt, recording an answer, submitting, and a teacher grading one answer.
- **The exam routes**: adding questions, publishing, and the filter of the
  exam listing.
- **The login lockout counter of a user** and the `fullName` virtual.
- **The settings routes**: visibility, create, update with its validation
  rules, delete, bulk update, and the order in which Express tries the routes.
- **The user routes**: merging per-user settings with the defaults, updating
  one setting, reset, achievements, linking a parent to a student, and the
  profile field whitelist.
- **The self-contained validators** of `utils/validators.js`.

How the model is built:

- Each source file is one Dafny module.
- Documents the handlers change in place (`Submission`, `Exam`, `User`, the
  settings collection) are classes with `modifies` frames.
- Values such as questions, answers, settings and query filters are datatypes.
- Each handler is a method proved against pure functions. Lemmas then state
  what those functions guarantee.
- Time is a parameter `now`, in milliseconds, wherever the code reads the clock.
- A database lookup becomes a parameter: the document found, or `null`/`None`.

Where the source's documentation and its code disagree, the model follows the
code:

- `percentage` is not rounded or clamped.
- `fill-blanks` with an array key does not compare lengths. A shorter answer
  array throws only when every entry it has matches its blank, since the walk
  then reads past its end, and the handler answers 500; otherwise it is wrong.
- The grade route sets `isGraded` whatever the submission's state. Submitting
  never sets it.
- Adding questions replaces `totalMarks` with the sum over the questions of
  that call, and appends the supplied ids even when the exam already holds
  them (see Findings).
- The achievements route reads score fields that submissions do not have (see
  Findings).
- The settings rules check `options` even when the list is empty (see
  Findings).
- A matching answer is stored sorted, because `.sort()` reorders the array
  the handler then saves.
- `PUT /settings/bulk` is registered after `PUT /settings/:key` (see
  Findings).

The handlers are modelled as the code is written. Where that is evidently not
what was meant, the corrected definition is modelled beside it and listed
under Findings.

## Model

| member | source | states |
|---|---|---|
| QuestionModel.ParseQuestionType | models/Question.js:23-27 | a stored type string is read back as itself, and it is unrecognised exactly when it is not one of the six schema types |
| QuestionModel.NewQuestion | models/Question.js:41-49 | a new question is worth 1 mark, with no negative marking and no attempts |
| QuestionModel.ChoiceVerdict | models/Question.js:117-126 | multiple-choice and true-false never throw, and are right iff the lower-cased, trimmed string forms of key and answer are equal |
| QuestionModel.ChoiceIgnoresCase | models/Question.js:119-120 | lower-casing the answer does not change the verdict of a choice question |
| QuestionModel.ChoiceIgnoresPadding | models/Question.js:119-120 | white space around the answer does not change the verdict of a choice question |
| QuestionModel.ChoiceAcceptsKey | models/Question.js:117-126 | the key itself, lower-cased and padded, is a right answer |
| QuestionModel.FillBlanksFrom | models/Question.js:129-131 | walking the blanks with `every` either throws or yields a definite verdict, never `null` |
| QuestionModel.FillBlanksLongFrom | models/Question.js:129-131 | with at least as many entries as blanks, the walk from index i is right iff every blank from i on matches its entry |
| QuestionModel.FillBlanksShortFrom | models/Question.js:129-131 | with fewer entries than blanks, the walk throws iff every blank up to the last entry matches, since it then reads past the end |
| QuestionModel.FillBlanksShortNeverRight | models/Question.js:129-131 | an answer array shorter than the key never yields a right answer |
| QuestionModel.FillBlanksLongAnswer | models/Question.js:128-131 | an array key is right iff every blank matches the entry at its index after lower-casing and trimming |
| QuestionModel.FillBlanksIgnoresExtra | models/Question.js:129-131 | entries beyond the key's length do not change the verdict |
| QuestionModel.FillBlanksShortAnswer | models/Question.js:129-131 | a short answer array throws iff its entries all match, and is never right |
| QuestionModel.FillBlanksScalar | models/Question.js:133 | a string key is one normalised comparison, and a non-string answer throws |
| QuestionModel.FillBlanksOtherKeyThrows | models/Question.js:128-133 | a key that is a number or a boolean has no `toLowerCase`, so every answer throws and no marks are given |
| QuestionModel.FillBlanksNumberAnswerThrows | models/Question.js:129-131 | a number answering a non-empty array key reads `undefined` at index 0 and throws |
| QuestionModel.NumberChoiceKey | models/Question.js:117-126 | a choice key stored as the number 5 accepts the string "5", padded, and the number 5, since `String(5)` is "5" |
| QuestionModel.EssayPending | models/Question.js:134-135 | an essay's verdict and marks are both `null` |
| QuestionModel.MatchingIsPermutationTest | models/Question.js:137 | matching is right iff the answer is a permutation of the key (multiset equality) |
| QuestionModel.OrderingIsExact | models/Question.js:139 | ordering is right iff the answer is the key itself, in the same order |
| QuestionModel.UnrecognisedIsWrong | models/Question.js:140-141 | an unknown type is a wrong answer and scores `-negativeMarks` |
| QuestionModel.ValidateAnswer | models/Question.js:114-142 | the verdict of an answer by question type; `null` exactly for an essay; only fill-blanks and matching can throw; an unknown type is always wrong |
| QuestionModel.CalculateMarks | models/Question.js:145-157 | `null` iff the verdict is `null`, `marks` when right, `-negativeMarks` when wrong, and it throws iff the evaluator throws |
| QuestionModel.MarksRange | models/Question.js:145-157 | marks are only ever `marks`, `-negativeMarks` or `null` |
| QuestionModel.SuccessRate | models/Question.js:108-111 | 0 with no attempts, otherwise the share of correct attempts times 100 |
| QuestionModel.SuccessRateBounds | models/Question.js:108-111 | with no more correct attempts than attempts, the rate lies between 0 and 100 |
| Text.SortedEqualIffSameElements | models/Question.js:137 | two sorted string lists are equal iff they hold the same multiset, which is why comparing the sorted lists tests a permutation |
| SubmissionModel.MarksObtained | models/Submission.js:151-159 | the sum `calculateScore` accumulates over the answers in order, a `null` mark adding 0 (a definition; its properties are the lemmas below) |
| SubmissionModel.MarksObtainedAppend | models/Submission.js:155-159 | the sum over two runs of answers is the sum of their sums |
| SubmissionModel.MarksObtainedReplace | models/Submission.js:155-159 | replacing one answer moves the sum by the difference of the two answers' marks |
| SubmissionModel.PendingAddsNothing | models/Submission.js:156-158 | an answer with `null` marks adds nothing to the total |
| SubmissionModel.Percentage | models/Submission.js:166 | 0 when the total is not positive, otherwise percentage times total equals obtained times 100, with no rounding |
| SubmissionModel.PercentageAtLeast | models/Submission.js:166 | the percentage reaches k iff 100 times the obtained marks reaches k times the total |
| SubmissionModel.PercentageRange | models/Submission.js:166 | the percentage is negative iff the marks are, and reaches 100 iff the marks reach the total |
| SubmissionModel.GradeFor | models/Submission.js:176-187 | each band other than F lies at or above its floor, anything but A+ lies below 90, and F iff below 40 |
| SubmissionModel.GradeBand | models/Submission.js:179-185 | each band is exactly the interval from its floor to the next band's floor |
| SubmissionModel.GradeMonotone | models/Submission.js:179-185 | a higher percentage never earns a worse band |
| SubmissionModel.GradeLetterInjective | models/Submission.js:179-185 | the stored letter determines the band |
| SubmissionModel.GradeFromMarks | models/Submission.js:166-185 | A+ iff 100 times the marks reaches 90 times the total, and F iff it stays below 40 times the total |
| SubmissionModel.Submission.constructor | models/Submission.js:34-139 | a new attempt has no answers, is not submitted or graded, and has zero scores |
| SubmissionModel.Submission.CalculateScore | models/Submission.js:151-173 | stores and returns the sum of the answers' marks, the exam's total and the unrounded percentage, and writes no other field |
| SubmissionModel.Submission.AssignGrade | models/Submission.js:176-188 | stores and returns the band of the current percentage |
| SubmissionModel.Submission.CheckPassed | models/Submission.js:191-194 | passed iff the raw marks reach `passingMarks` |
| ExamModel.Exam.constructor | models/Exam.js:92-99 | a new exam has no questions, one attempt, no retakes and no eligibility list, and is active and unpublished |
| ExamModel.Exam.Status | models/Exam.js:215-223 | upcoming iff before the start; completed iff at or after the start and after the end, so a window whose end precedes its start reads as upcoming before the start; ongoing iff within both instants inclusive |
| ExamModel.Exam.IsAvailableForStudent | models/Exam.js:226-237 | available only when active, published and inside the inclusive window, and then to a listed student, or to everybody when the list is empty |
| ExamModel.Exam.AvailabilityRule | models/Exam.js:226-237 | never available when inactive, unpublished or outside the window; within it, available iff the list is empty or names the student |
| ExamModel.Exam.AvailableImpliesOngoing | models/Exam.js:215-237 | an exam available to a student is ongoing |
| ExamModel.Exam.OpenExamTreatsStudentsAlike | models/Exam.js:232-236 | with an empty eligibility list every student is treated alike |
| ExamModel.TotalMarks | models/Exam.js:240-244 | the `reduce` over the questions, a missing mark counting 0 (a definition; its properties are the lemmas below) |
| ExamModel.TotalMarksAppend | models/Exam.js:240-244 | the total of two lists of questions is the sum of their totals |
| ExamModel.TotalMarksBounds | models/Exam.js:240-244 | a missing mark counts as 0, so the total lies between count times the lowest and count times the highest mark |
| ExamModel.TotalMarksSwap | models/Exam.js:240-244 | the total does not depend on the order of the questions |
| SubmissionRoutes.SubmittedCount | routes/submissions.js:60-63 | the number of submitted attempts never exceeds the number of records |
| SubmissionRoutes.SubmittedCountPositive | routes/submissions.js:46-63 | a submitted attempt exists iff the count of submitted attempts is positive |
| SubmissionRoutes.OpenAttemptsDoNotCount | routes/submissions.js:60-63 | an unsubmitted attempt, or another student's or exam's, does not use up an attempt |
| SubmissionRoutes.StartRefusal | routes/submissions.js:29-72 | 404 exactly when the exam is missing; every refusal is a 404, 403 or 400; no refusal means the exam is available and the submitted attempts are below `maxAttempts` |
| SubmissionRoutes.StartAllowed | routes/submissions.js:29-72 | a start is let through iff the exam exists and is available to the student, retakes are allowed or nothing was submitted, and fewer than `maxAttempts` attempts were submitted |
| SubmissionRoutes.StartUnderDefaults | routes/submissions.js:46-72 | under the default settings a student may start iff the exam is available and nothing was submitted |
| SubmissionRoutes.StartedWithinLimit | routes/submissions.js:60-80 | every attempt let in is numbered from 1 up to `maxAttempts` |
| SubmissionRoutes.Start | routes/submissions.js:13-98 | answers the refusal when there is one; otherwise creates attempt number count + 1 with no answers, unsubmitted, started at `now` |
| SubmissionRoutes.Keys | routes/submissions.js:154-156 | the question ids of the answers, index by index |
| SubmissionRoutes.FindAnswerIndex | routes/submissions.js:154-156 | -1 iff no answer has the question id, otherwise the first index that has it |
| SubmissionRoutes.FirstIndexIsFound | routes/submissions.js:154-156 | the first index holding the question is the one found |
| SubmissionRoutes.Upsert | routes/submissions.js:153-172 | the list grows by at most one, holds the new entry, and grows exactly when no entry answers that question |
| SubmissionRoutes.UpsertShape | routes/submissions.js:153-172 | an existing entry is replaced at its index and nothing else changes, otherwise the entry is appended; the count grows by at most one |
| SubmissionRoutes.UpsertFinds | routes/submissions.js:153-172 | afterwards the lookup of the answered question finds the new entry |
| SubmissionRoutes.UpsertKeepsOthers | routes/submissions.js:153-172 | answers to every other question are found where they were, with the same content |
| SubmissionRoutes.UpsertKeySeq | routes/submissions.js:153-172 | the question-id list gains the new id at the end, or is written over at its first occurrence |
| SubmissionRoutes.UpsertKeys | routes/submissions.js:153-172 | the set of answered questions gains exactly the new question |
| SubmissionRoutes.UpsertNoDup | routes/submissions.js:153-172 | no question is ever answered twice |
| SubmissionRoutes.AnswerEntry | routes/submissions.js:158-164 | the stored entry carries the question, the time given and the evaluator's verdict and marks; building it throws iff the evaluator throws; the answer is stored as given, except a matching answer, which is stored sorted and holds the same items |
| SubmissionRoutes.StoredAnswerKeepsVerdict | routes/submissions.js:158-164 | re-evaluating the stored answer gives the verdict and marks of the answer submitted |
| SubmissionRoutes.MatchingAnswerStoredSorted | models/Question.js:137 | a matching answer `["b","a"]` against the key `["a","b"]` is right and is stored as `["a","b"]` |
| SubmissionRoutes.RecordAnswer | routes/submissions.js:101-188 | refuses a non-owner, then a submitted submission, then a missing question; answers 500 when evaluation throws; otherwise upserts the evaluated entry, whose matching answer is stored sorted; any refusal leaves the answers unchanged |
| SubmissionRoutes.Minutes | routes/submissions.js:242 | rounds down to whole minutes, also for a negative span |
| SubmissionRoutes.Rescore | routes/submissions.js:234-237 | scores agree with the answers and the exam total, the grade is the percentage's band, and passing is on raw marks |
| SubmissionRoutes.Submit | routes/submissions.js:191-265 | refuses a non-owner and an already-submitted submission with no change; otherwise scores, grades, flips `isSubmitted` one way and records end time and minutes; a second submit is refused |
| SubmissionRoutes.Reviewed | routes/submissions.js:406-410 | a reviewed answer keeps its question, answer and verdict, and takes the teacher's marks and feedback |
| SubmissionRoutes.GradeMovesTotal | routes/submissions.js:406-414 | grading one answer moves the total by the change of that answer's marks alone |
| SubmissionRoutes.GradeAnswer | routes/submissions.js:361-437 | refuses another teacher's exam and a missing answer with no change; otherwise reviews that answer, rescores, and sets `isGraded`, grader and time whatever the submission's state |
| ExamRoutes.Distinct | routes/exams.js:307 | the deduplicated list has no repetition, the same elements, and is no longer |
| ExamRoutes.DistinctPrefix | routes/exams.js:307 | deduplicating a concatenation keeps the first part's deduplication in front |
| ExamRoutes.DistinctOfNoDup | routes/exams.js:307 | a list without repetitions is left as it is |
| ExamRoutes.FoundCount | routes/exams.js:298 | the number of stored questions found never exceeds the number of ids supplied |
| ExamRoutes.FoundAllIff | routes/exams.js:298-304 | the add goes ahead iff the ids are distinct and all name stored questions, so a repeated id is refused |
| ExamRoutes.SuppliedMarksIsTotal | routes/exams.js:309 | the new total is the total of the supplied questions' marks |
| ExamRoutes.AddQuestions | routes/exams.js:276-325 | refuses another teacher's exam and an unknown or repeated id with no change; otherwise appends the supplied ids to the stored ones, counts both, and sets the supplied questions' marks as the new total |
| ExamRoutes.ReAddDuplicatesAsWritten | routes/exams.js:307-308 | as written, re-adding an id the exam already holds stores it twice and counts it twice |
| ExamRoutes.AddedQuestions | routes/exams.js:307-308 | the union by id, as evidently meant, keeps the old questions in front and holds every old and supplied id once |
| ExamRoutes.ReAddKeepsOnce | routes/exams.js:307-308 | under the union by id, re-adding an id the exam holds leaves its questions as they were |
| ExamRoutes.Publish | routes/exams.js:328-372 | refuses another teacher's exam and an exam with no questions; publishes otherwise |
| ExamRoutes.BuildQuery | routes/exams.js:16-45 | the filter built field by field is the listing filter for the role, the filters and the search term |
| ExamRoutes.StudentListingIsAvailability | routes/exams.js:23-35 | without search or filters a student is listed exactly the exams available to them |
| ExamRoutes.TeacherListingIsOwnExams | routes/exams.js:21-22 | a teacher is listed exactly their own exams |
| ExamRoutes.SearchDropsEligibility | routes/exams.js:39-45 | a search term replaces the eligibility clause with the text search |
| ExamRoutes.FiltersNarrow | routes/exams.js:37-38 | subject and grade filters only narrow the listing |
| UserModel.Locked | models/User.js:265-267 | a lock that is set and lies strictly in the future; a locked account is not expired, and one without a lock is never locked |
| UserModel.AfterFailure | models/User.js:288-303 | an expired lock restarts the count at 1 and clears the lock; otherwise the count goes up by one, a held lock is kept, and a count that reaches five leaves a lock in place |
| UserModel.FailureCounts | models/User.js:296 | without an expired lock a failure adds exactly one, and never lifts a lock |
| UserModel.ExpiredLockRestarts | models/User.js:289-294 | an expired lock is cleared and the count restarts at 1 |
| UserModel.LockedStaysLocked | models/User.js:298 | failing while locked keeps the same lock |
| UserModel.FewFailuresDoNotLock | models/User.js:288-303 | from a clean counter, up to four failures never lock |
| UserModel.FifthFailureLocks | models/User.js:298-300 | from a clean counter the fifth failure locks for two hours from that instant |
| UserModel.AfterFailuresSplit | models/User.js:288-303 | failures in two runs compose |
| UserModel.LockBoundaryInstant | models/User.js:266-300 | at the lock's own instant the account is neither locked nor expired, and a fifth failure relocks it |
| UserModel.ResetUnlocks | models/User.js:306-310 | after a reset the account is unlocked at every instant and a failure counts as the first |
| UserModel.User.constructor | models/User.js:109-233 | a new user has no failed logins, no lock, the default settings and no family links |
| UserModel.User.FullName | models/User.js:260-262 | the first name, one space, then the last name |
| UserModel.FullNameSplits | models/User.js:260-262 | a first name without spaces is recovered from the full name |
| UserModel.User.IsLocked | models/User.js:265-267 | locked iff `lockUntil` is set and later than `now` |
| UserModel.User.IncLoginAttempts | models/User.js:288-303 | the stored counter and lock become the failure step of the old ones |
| UserModel.User.ResetLoginAttempts | models/User.js:306-310 | both fields are cleared |
| UserRoutes.Merge | routes/users.js:362-373 | stored categories override the defaults wholesale; preferences merge key by key so default preference keys survive |
| UserRoutes.MergeIdempotent | routes/users.js:362-373 | merging the defaults into themselves gives the defaults |
| UserRoutes.MergeTwice | routes/users.js:362-373 | merging is idempotent: merging an already merged tree again gives that tree |
| UserRoutes.MergedSettings | routes/users.js:311-373 | the defaults when nothing is stored, otherwise every default and stored category, `preferences` always among them |
| UserRoutes.MergeOfDefaults | routes/users.js:331-373 | with nothing stored, or the defaults stored, the reply is the defaults |
| UserRoutes.WithSetting | routes/users.js:424-433 | afterwards the key holds the value, a missing category is created, and every other category and key is unchanged |
| UserRoutes.WithSettingSameValue | routes/users.js:424-433 | writing the value already held changes nothing |
| UserRoutes.WithSettingOverwrites | routes/users.js:424-433 | a second write to the key overrides the first |
| UserRoutes.UpdateSetting | routes/users.js:402-454 | refuses a missing category, key or value, leaving the settings unchanged; otherwise stores it |
| UserRoutes.ResetSettings | routes/users.js:493-553 | writes exactly the default tree |
| UserRoutes.ResetReadsAsDefaults | routes/users.js:331-373 | after a reset the settings read back as the defaults |
| UserRoutes.PushIf | routes/users.js:187-264 | a badge is added iff it is earned |
| UserRoutes.PushIfInOrder | routes/users.js:187-264 | pushing keeps the badge list in rank order |
| UserRoutes.CountAtLeast | routes/users.js:196-197 | the count of scores at or above a threshold never exceeds the number of scores, and is positive iff some score reaches it |
| UserRoutes.CountEqual | routes/users.js:215-216 | the count of scores equal to a value never exceeds the number of scores, and is positive iff the value occurs |
| UserRoutes.StudentBadges | routes/users.js:187-223 | Exam Taker iff 5 or more submissions, High Achiever iff 3 or more scores of 90 or more, First Steps iff one or more, Perfect Score iff some score is 100 |
| UserRoutes.StudentBadgesInOrder | routes/users.js:187-223 | the student's badges come in the route's order |
| UserRoutes.TeacherBadges | routes/users.js:239-264 | Educator iff 1 or more exams, Prolific Creator iff 10 or more, Experienced Teacher iff 5 or more |
| UserRoutes.TeacherBadgesInOrder | routes/users.js:239-264 | the teacher's badges come in the route's order |
| UserRoutes.ProlificIsExperienced | routes/users.js:245-262 | a prolific creator is always also an experienced teacher and an educator |
| UserRoutes.ParentBadges | routes/users.js:275-286 | a parent earns Engaged Parent iff at least one student is linked to them, and no badge otherwise |
| UserRoutes.ScoreOr | routes/users.js:196 | the `\|\|` chain yields the first present, non-zero score, else 0 |
| UserRoutes.ScoreAsWritten | routes/users.js:196 | with both fields absent from submissions, the score read is always 0 |
| UserRoutes.HighScoresNeverAwardedAsWritten | routes/users.js:196-216 | as written, no student ever earns High Achiever or Perfect Score |
| UserRoutes.HighScoresExample | routes/users.js:196-216 | scores 95, 95, 95, 100 earn both badges when read from the percentage and neither as written |
| UserRoutes.Achievements | routes/users.js:175-310 | the badges are those of the caller's role, with a student judged on the score as written, so never High Achiever or Perfect Score; an admin gets none |
| UserRoutes.StudentAchievements | routes/users.js:187-223 | the badge list built step by step from the given scores is the student's badges for them |
| UserRoutes.TeacherAchievements | routes/users.js:239-264 | the badge list built step by step is the teacher's badges |
| UserRoutes.AddIfAbsent | routes/users.js:778-781 | the student is added only if absent; the elements become the old ones plus the student, and the list stays duplicate-free |
| UserRoutes.AddIfAbsentIdempotent | routes/users.js:778-781 | linking twice is linking once |
| UserRoutes.LinkParent | routes/users.js:744-798 | refuses a missing or non-parent parent and a missing or non-student student, changing nothing; otherwise links both ways without duplicates |
| UserRoutes.ProfileUpdate | routes/users.js:655-666 | the update holds exactly the whitelisted fields that are present, with their values |
| UserRoutes.ProfileIgnoresOtherFields | routes/users.js:655-662 | fields outside the whitelist never reach the update |
| UserRoutes.BuildProfileUpdate | routes/users.js:655-666 | the update built in a loop is the whitelist update |
| SettingRoutes.Listed | routes/settings.js:17-24 | a non-admin is shown public settings only, a truthy category narrows the list, and an admin with no filters is shown everything |
| SettingRoutes.ListedInCategory | routes/settings.js:326-350 | the setting is in the path's category, public unless the caller is an admin, and every setting of the category is listed to an admin |
| SettingRoutes.ListKeys | routes/settings.js:11-41 | a key is listed iff its setting passes the role, public and category filters |
| SettingRoutes.NonAdminListsPublicOnly | routes/settings.js:18-19 | a non-admin sees only public settings |
| SettingRoutes.AdminListsEverything | routes/settings.js:18-24 | an admin with no filters sees every setting |
| SettingRoutes.GetByKey | routes/settings.js:44-75 | 404 iff the key is absent, 403 iff a non-admin asks for a non-public setting, otherwise the setting |
| SettingRoutes.FetchAgreesWithListing | routes/settings.js:18-62 | a non-admin can fetch a key iff an unfiltered listing shows it |
| SettingRoutes.RuleMessage | routes/settings.js:237-263 | the 400 message of each broken rule: "Value must be at least", "at most" or "one of:" followed by the bounds, or the fixed pattern message |
| SettingRoutes.CheckRules | routes/settings.js:237-263 | no error iff the value passes min, max, a non-empty options list and a non-empty pattern; each of the four errors iff the earlier rules pass and its own fails, so an empty options list never gives `NotAnOption` |
| SettingRoutes.RulesAgreeWithOptions | routes/settings.js:237-263 | with a non-empty options list the corrected rules are the rules as written |
| SettingRoutes.CheckRulesAsWritten | routes/settings.js:237-263 | no error iff the value passes min, max, the options test (which an empty list always fails) and a non-empty pattern; each error iff the earlier rules pass and its own fails, so min and max are still reported first; an empty options list refuses every value |
| SettingRoutes.EmptyOptionsRejectAsWritten | routes/settings.js:251-256 | as written, a value passing min and max but with an empty options list is always refused |
| SettingRoutes.UnvalidatedSettingExample | routes/settings.js:251-256 | a setting with no rules refuses the value 5 as written and accepts it corrected |
| SettingRoutes.Apply | routes/settings.js:384-420 | one item changes only the setting it names, and only when that setting is editable: its value and `updatedBy` are replaced, every other field is kept, and no key is added or removed |
| SettingRoutes.Outcome | routes/settings.js:375-420 | each result names its key, succeeds iff the key exists and is editable, and carries the matching message |
| SettingRoutes.BulkStore | routes/settings.js:371-428 | the bulk loop adds or removes no key and changes no setting's editability |
| SettingRoutes.BulkResults | routes/settings.js:371-428 | one result per item |
| SettingRoutes.BulkResultsSnoc | routes/settings.js:371-428 | each further item adds its outcome at the end |
| SettingRoutes.BulkStoreSnoc | routes/settings.js:371-428 | each further item is applied to the store so far |
| SettingRoutes.OutcomeAgrees | routes/settings.js:375-391 | stores with the same keys and editability give the same outcomes, so updates earlier in the request never change a later item's result |
| SettingRoutes.BulkKeepsLocked | routes/settings.js:384-391 | a setting that is not editable is left exactly as it was |
| SettingRoutes.BulkKeepsUnnamed | routes/settings.js:371-428 | a setting no item names is left exactly as it was |
| SettingRoutes.LastItemWins | routes/settings.js:371-428 | of several items naming one editable setting, the last, wherever it stands in the request, decides its value and records the editor |
| SettingRoutes.BulkSkipsRules | routes/settings.js:412-420 | the bulk path stores a value the min rule of the single update would refuse |
| SettingRoutes.FirstMatchWins | routes/settings.js:169-353 | dispatch answers with the first registered route that matches |
| SettingRoutes.NoMatchNoHandler | routes/settings.js:169-353 | with no matching route there is no handler |
| SettingRoutes.BulkShadowedAsWritten | routes/settings.js:169-353 | as registered, `PUT /bulk` reaches the single-key update handler |
| SettingRoutes.BulkReachable | routes/settings.js:169-353 | with the bulk route registered first, `PUT /bulk` in any case reaches the bulk handler, and every key that is not "bulk" in some case still reaches the single update |
| SettingRoutes.RoutesIgnoreCase | routes/settings.js:326 | literal segments match ignoring case, so `GET /CATEGORY/exam` lists that category |
| SettingRoutes.SettingStore.Create | routes/settings.js:78-166 | refuses an existing key with no change; otherwise adds exactly the new setting |
| SettingRoutes.SettingStore.Update | routes/settings.js:169-287 | 404 for a missing key, then 403 when not editable, then the first failing rule as written (so a setting without options refuses every value), each with no change; otherwise replaces the value, the description and `isPublic` only when given, and the editor |
| SettingRoutes.SettingStore.Delete | routes/settings.js:290-323 | refuses a missing key and a non-editable setting with no change; otherwise removes exactly that key |
| SettingRoutes.SettingStore.BulkUpdate | routes/settings.js:353-444 | returns one result per item, in order, each the outcome the original store predicts, and leaves the store the bulk fold gives |
| Validators.IsValidFileExtension | utils/validators.js:41-44 | the lower-cased text after the last dot is one of the allowed entries (its properties are the lemmas below) |
| Validators.ExtensionDecides | utils/validators.js:41-44 | a name `base.ext` is judged on `ext` alone, ignoring case |
| Validators.AfterLastDotOfJoin | utils/validators.js:41-44 | the text after the last dot of `base.ext` is `ext` |
| Validators.NoDotIsWholeName | utils/validators.js:41-44 | a name without a dot is its own extension |
| Validators.UpperCaseEntriesNeverMatch | utils/validators.js:41-44 | an allowed entry with upper-case letters never matches |
| Text.AfterLastDot | utils/validators.js:42 | the extension holds no dot, is a suffix of the name, and is the whole name when there is no dot |
| Validators.IsValidFileSize | utils/validators.js:47-49 | the size is at most the limit |
| Validators.FileSizeMonotone | utils/validators.js:47-49 | a file that fits a limit fits every larger one, and so does a smaller file |
| Validators.IsValidExamDuration | utils/validators.js:52-54 | a number that is an integer from 5 to 480 |
| Validators.DurationIsWholeMinutes | utils/validators.js:52-54 | valid durations are exactly the whole numbers from 5 to 480 |
| Validators.DurationExamples | utils/validators.js:52-54 | 90 passes; 90.5, 4, 481 and a non-number do not |
| Validators.IsValidGrade | utils/validators.js:57-60 | one of the strings "1" to "12" |
| Validators.GradesAreOneToTwelve | utils/validators.js:57-60 | a grade is valid iff it is the decimal form of a number from 1 to 12 |
| Validators.IsValidRole | utils/validators.js:63-66 | one of "student", "teacher", "parent" and "admin" |
| Validators.RolesAreTheSchemaRoles | utils/validators.js:63-66 | the valid roles are exactly the names of the four schema roles, one per role |
| Validators.IsValidQuestionType | utils/validators.js:69-72 | one of the six question type names |
| Validators.QuestionTypesMatchEvaluator | utils/validators.js:69-72 | a question type is valid iff the evaluator recognises it |
| Validators.IsValidDifficulty | utils/validators.js:75-78 | one of "easy", "medium" and "hard" |
| Validators.DifficultiesAreTheSchemaLevels | utils/validators.js:75-78 | the valid difficulties are exactly the three schema levels |
| Validators.IsValidExamSchedule | utils/validators.js:86-92 | both dates parse, the start is strictly before the end and strictly after the current instant |
| Validators.ValidScheduleLifecycle | utils/validators.js:86-92 | an exam with a valid schedule is upcoming and closed to students when checked, ongoing at both its instants, and not completed before its end |

## Left out

- Persistence is not modelled: `find`, `save`, `populate`, `countDocuments`, `findByIdAndUpdate` and the `$inc` analytics update. Documents are passed in, and a failed lookup is a `null` or `None` parameter.
- The 404 replies "Submission not found", "User not found" and "Exam not found" are not modelled where the model takes the document itself, rather than an id, as a parameter.
- Authentication and `authorize(...)` are not modelled: a handler's `requires` on the role states what the middleware lets through.
- The express-validator body rules and their 400 replies are not modelled.
- Concurrency between requests is not modelled; each handler runs alone on the documents it is given.
- Logging and notifications are not modelled. Neither are the catch blocks' 500 replies, except where evaluation throws.
- `Text.Lower`: lower-cases ASCII letters only. The JavaScript `toLowerCase` covers all of Unicode.
- `QuestionModel.ValidateAnswer` matching: the in-place reorder that `.sort()` makes to the question's own key is not modelled; the reorder of the answer is, in `SubmissionRoutes.AnswerEntry`.
- `ExamRoutes.MatchesIgnoringCase`: the search term is matched as a literal substring. The route builds a `$regex` from it, so its metacharacters and anchors, and the 500 an invalid pattern gives, are not modelled.
- Strings are sequences of Unicode scalar values. JavaScript strings are UTF-16 code units, so indexing and the order of `.sort()` differ for characters outside the Basic Multilingual Plane; that is not modelled.
- Marks and totals are integers. Fractional marks are not modelled. `Text.Decimal` writes every integer in full, where JavaScript's `String(n)` switches to exponent form from 1e21 on and such numbers are not exact; `QuestionModel.JsString` and `SettingRoutes.RuleMessage` differ from the source there.
- `QuestionModel.AnswerValue`: a key or an answer is a string, an array of strings, a boolean or a whole number. `null`, objects, fractional numbers and arrays holding anything but strings are not modelled. On them the source throws a TypeError, answered with a 500, wherever it calls `toLowerCase` or `sort` on a value that lacks it: an array key whose entry is not a string, an array answer with a non-string entry the walk reaches, `null` in place of an answer. `String()` and `JSON.stringify` of objects are not modelled either.
- `SubmissionModel.Percentage`: an exact rational stands for the IEEE double `(marksObtained / totalMarks) * 100`. Rounding error near a grade boundary is not modelled.
- `SettingRoutes.CheckRules`: the RegExp test of `pattern` is a parameter `patternHolds`, because regular-expression matching is not modelled.
- Setting values are integers. The type coercion of `PUT /settings/:key`, its "Invalid value for type" 400, and options stored as strings are not modelled.
- The sort order of the settings listings and the pagination of the exam listing are not modelled; listings are modelled as sets of keys.
- `PUT /users/settings/bulk` in routes/users.js:457-490 replaces the whole tree and is not modelled.
- Mongoose strict mode, which drops unknown fields on save, is not modelled.
- Applying the profile update with `findByIdAndUpdate` and the uploaded avatar are not modelled. The avatar is only a present or absent URL.
- The "Welcome" fallback badges, which the achievements route returns when a lookup throws, are not modelled.
- `UserRoutes.UpdateSetting`: the "User not found" 404 is not modelled, because the user is given. Neither are the typed leaves of the user schema's `settings`: assigning a value casts it to the leaf's type (the string "false" becomes `false` on a Boolean path), and `save()` checks the string enums such as `theme` and `profileVisibility`, so a value that cannot be cast or is outside the enum makes the handler answer 500 "Server error" and store nothing, where the model answers 200 and stores it.
- `SettingRoutes.PathMatches`: literals ignore case, as Express routers do by default, but only for ASCII letters; the non-strict trailing slash (`/bulk/` matching `/bulk`) and URL decoding of segments are not modelled.
- `Validators.IsValidExamSchedule`: dates are milliseconds, and `None` stands for a date that does not parse.

## Findings

| source | as written | input that shows it | evidently intended | confidence | as-written member | corrected member |
|---|---|---|---|---|---|---|
| routes/users.js:196-216 | each score is read as `sub.totalScore \|\| sub.score \|\| 0`, but a submission has neither field, so every score is 0 | a student with submissions at 95, 95, 95 and 100 percent | the submission's `percentage` is read, so that student earns High Achiever and Perfect Score | not executed | UserRoutes.HighScoresNeverAwardedAsWritten | UserRoutes.StudentBadges |
| routes/exams.js:307-308 | the stored ids are ObjectId objects and the supplied ones strings, and a `Set` compares objects by identity, so `new Set` merges no stored id with a supplied one | adding a question id the exam already holds | the union by id, so a re-added question is kept once | not executed | ExamRoutes.ReAddDuplicatesAsWritten | ExamRoutes.ReAddKeepsOnce |
| routes/settings.js:251-256 | `validation.options` is a Mongoose array that defaults to `[]`, which is truthy, so the options check always runs | a setting created without any validation rules, updated to the value 5 | the options check runs only when the list is non-empty | not executed | SettingRoutes.EmptyOptionsRejectAsWritten | SettingRoutes.CheckRules |
| routes/settings.js:169-353 | `PUT /bulk` is registered after `PUT /:key`, so Express routes `PUT /bulk` to the single-key update with key "bulk" | `PUT /settings/bulk` with a list of updates | the bulk route is registered before the parameterised one | not executed | SettingRoutes.BulkShadowedAsWritten | SettingRoutes.BulkReachable |
