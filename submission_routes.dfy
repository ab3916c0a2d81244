/**
 * The attempt life cycle of routes/submissions.js: starting an attempt,
 * recording answers, submitting, and a teacher's manual grading of one
 * answer. Each handler is a transition on one stored submission, guarded
 * by the checks the handler makes before it saves.
 */
module SubmissionRoutes {
  import opened Common
  import opened QuestionModel
  import opened SubmissionModel
  import opened ExamModel
  import Text

  // ---------------------------------------------------------------------
  // Starting an attempt.

  /** The fields of a stored submission that the start handler's queries filter on. */
  datatype AttemptRecord = AttemptRecord(student: Id, exam: Id, isSubmitted: bool)

  /** `countDocuments({ student, exam, isSubmitted: true })`. */
  function SubmittedCount(records: seq<AttemptRecord>, student: Id, exam: Id): (n: nat)
    ensures n <= |records|
  {
    if |records| == 0 then 0
    else SubmittedCount(records[..|records| - 1], student, exam)
         + (if records[|records| - 1] == AttemptRecord(student, exam, true) then 1 else 0)
  }

  /** `findOne` with the same filter finds something exactly when the count is positive. */
  lemma {:induction false} SubmittedCountPositive(records: seq<AttemptRecord>, student: Id, exam: Id)
    ensures SubmittedCount(records, student, exam) > 0 <==> AttemptRecord(student, exam, true) in records
  {
    if |records| > 0 {
      var init := records[..|records| - 1];
      SubmittedCountPositive(init, student, exam);
      assert records == init + [records[|records| - 1]];
    }
  }

  /** An attempt that was started but never submitted does not use up an attempt. */
  lemma OpenAttemptsDoNotCount(records: seq<AttemptRecord>, student: Id, exam: Id, other: AttemptRecord)
    requires !other.isSubmitted || other.student != student || other.exam != exam
    ensures SubmittedCount(records + [other], student, exam) == SubmittedCount(records, student, exam)
  {
    assert (records + [other])[..|records|] == records;
  }

  const ExamNotFound := Response(404, "Exam not found")
  const NotAvailable := Response(403, "Exam is not available for you")
  const AlreadyAttempted := Response(400, "You have already attempted this exam")
  const MaxAttemptsExceeded := Response(400, "Maximum attempts exceeded")
  const ExamStarted := Response(201, "Exam started successfully")

  /** The reply the start handler sends before it creates anything, if it refuses. */
  function StartRefusal(exam: Exam?, student: Id, records: seq<AttemptRecord>, now: Millis): (r: Option<Response>)
    reads exam
    ensures r == Some(ExamNotFound) <==> exam == null
    ensures r.Some? ==> r.value.status == 404 || r.value.status == 403 || r.value.status == 400
    ensures r.None? ==> exam != null && exam.IsAvailableForStudent(student, now) && SubmittedCount(records, student, exam.id) < exam.maxAttempts
  {
    if exam == null then Some(ExamNotFound)
    else if !exam.IsAvailableForStudent(student, now) then Some(NotAvailable)
    else if AttemptRecord(student, exam.id, true) in records && !exam.allowMultipleAttempts then Some(AlreadyAttempted)
    else if SubmittedCount(records, student, exam.id) >= exam.maxAttempts then Some(MaxAttemptsExceeded)
    else None
  }

  /**
   * A student may start exactly when the exam exists and is available to
   * them, they have fewer submitted attempts than `maxAttempts`, and either
   * they have none or the exam allows several.
   */
  lemma StartAllowed(exam: Exam?, student: Id, records: seq<AttemptRecord>, now: Millis)
    ensures StartRefusal(exam, student, records, now).None? <==>
              exam != null && exam.IsAvailableForStudent(student, now)
              && SubmittedCount(records, student, exam.id) < exam.maxAttempts
              && (SubmittedCount(records, student, exam.id) == 0 || exam.allowMultipleAttempts)
  {
    if exam != null {
      SubmittedCountPositive(records, student, exam.id);
    }
  }

  /** Under the default settings (one attempt, no retakes) a student gets one submitted attempt. */
  lemma StartUnderDefaults(exam: Exam, student: Id, records: seq<AttemptRecord>, now: Millis)
    requires !exam.allowMultipleAttempts && exam.maxAttempts == 1
    ensures StartRefusal(exam, student, records, now).None? <==>
              exam.IsAvailableForStudent(student, now) && AttemptRecord(student, exam.id, true) !in records
  {
    StartAllowed(exam, student, records, now);
    SubmittedCountPositive(records, student, exam.id);
  }

  /** Every attempt that is let in is numbered within the limit. */
  lemma StartedWithinLimit(exam: Exam, student: Id, records: seq<AttemptRecord>, now: Millis)
    requires StartRefusal(exam, student, records, now).None?
    ensures 1 <= SubmittedCount(records, student, exam.id) + 1 <= exam.maxAttempts
  {
  }

  /**
   * `POST /start`: creates the attempt numbered one more than the student's
   * submitted attempts, with no answers, unless the handler refuses.
   */
  method Start(exam: Exam?, id: Id, student: Id, records: seq<AttemptRecord>, now: Millis)
    returns (resp: Response, sub: Submission?)
    ensures StartRefusal(exam, student, records, now).Some? ==>
              resp == StartRefusal(exam, student, records, now).value && sub == null
    ensures StartRefusal(exam, student, records, now).None? ==>
              resp == ExamStarted && sub != null && fresh(sub)
              && sub.id == id && sub.student == student && sub.exam == exam.id && sub.startTime == now
              && sub.attemptNumber == SubmittedCount(records, student, exam.id) + 1
              && sub.answers == [] && !sub.isSubmitted && !sub.isGraded
  {
    var refusal := StartRefusal(exam, student, records, now);
    if refusal.Some? {
      resp, sub := refusal.value, null;
    } else {
      var count := SubmittedCount(records, student, exam.id);
      sub := new Submission(id, student, exam.id, now, count + 1);
      resp := ExamStarted;
    }
  }

  // ---------------------------------------------------------------------
  // Recording an answer.

  /** The question ids of the recorded answers, in order. */
  function Keys(answers: seq<Answer>): (ks: seq<Id>)
    ensures |ks| == |answers| && forall i :: 0 <= i < |answers| ==> ks[i] == answers[i].questionId
  {
    seq(|answers|, i requires 0 <= i < |answers| => answers[i].questionId)
  }

  /** `answers.findIndex(a => a.questionId === qid)`: the first matching index, or -1. */
  function FindAnswerIndex(answers: seq<Answer>, qid: Id): (r: int)
    ensures -1 <= r < |answers|
    ensures r == -1 <==> forall i :: 0 <= i < |answers| ==> answers[i].questionId != qid
    ensures r >= 0 ==> answers[r].questionId == qid && forall i :: 0 <= i < r ==> answers[i].questionId != qid
  {
    if |answers| == 0 then -1
    else if answers[0].questionId == qid then 0
    else
      var r := FindAnswerIndex(answers[1..], qid);
      if r == -1 then -1 else r + 1
  }

  /** The upsert of the answer handler: replace the entry for the same question, or append. */
  function Upsert(answers: seq<Answer>, x: Answer): (r: seq<Answer>)
    ensures |answers| <= |r| <= |answers| + 1
    ensures x in r
    ensures |r| == |answers| + 1 <==> forall i :: 0 <= i < |answers| ==> answers[i].questionId != x.questionId
  {
    var i := FindAnswerIndex(answers, x.questionId);
    if i == -1 then answers + [x]
    else assert answers[i := x][i] == x; answers[i := x]
  }

  /** The first index holding question `q` is the one `findIndex` returns. */
  lemma FirstIndexIsFound(answers: seq<Answer>, q: Id, i: nat)
    requires i < |answers| && answers[i].questionId == q
    requires forall k :: 0 <= k < i ==> answers[k].questionId != q
    ensures FindAnswerIndex(answers, q) == i
  {
  }

  /**
   * The upsert grows the list only for a question not answered before, and
   * keeps every answer but the one for `x`'s question.
   */
  lemma UpsertShape(answers: seq<Answer>, x: Answer)
    ensures var r := Upsert(answers, x);
            && (|r| == |answers| + 1 <==> x.questionId !in Keys(answers))
            && (|r| == |answers| <==> x.questionId in Keys(answers))
            && forall j :: 0 <= j < |answers| && j != FindAnswerIndex(answers, x.questionId) ==> r[j] == answers[j]
  {
    var i := FindAnswerIndex(answers, x.questionId);
    if i == -1 {
      assert x.questionId !in Keys(answers);
    } else {
      assert Keys(answers)[i] == x.questionId;
    }
  }

  /** Afterwards, looking up `x`'s question finds `x`. */
  lemma UpsertFinds(answers: seq<Answer>, x: Answer)
    ensures var r := Upsert(answers, x);
            FindAnswerIndex(r, x.questionId) >= 0 && r[FindAnswerIndex(r, x.questionId)] == x
  {
    var r := Upsert(answers, x);
    var i := FindAnswerIndex(answers, x.questionId);
    if i == -1 {
      FirstIndexIsFound(r, x.questionId, |answers|);
    } else {
      FirstIndexIsFound(r, x.questionId, i);
    }
  }

  /** Answers to other questions are found exactly where they were. */
  lemma UpsertKeepsOthers(answers: seq<Answer>, x: Answer, q: Id)
    requires q != x.questionId
    ensures var r := Upsert(answers, x);
            && FindAnswerIndex(r, q) == FindAnswerIndex(answers, q)
            && (FindAnswerIndex(answers, q) >= 0 ==> r[FindAnswerIndex(r, q)] == answers[FindAnswerIndex(answers, q)])
  {
    var r := Upsert(answers, x);
    var i := FindAnswerIndex(answers, x.questionId);
    var k := FindAnswerIndex(answers, q);
    if k >= 0 {
      assert r[k] == answers[k];
      assert forall j :: 0 <= j < k ==> r[j].questionId != q;
    } else {
      assert forall j :: 0 <= j < |r| ==> r[j].questionId != q by {
        forall j | 0 <= j < |r| ensures r[j].questionId != q {
          if j < |answers| && j != i { assert r[j] == answers[j]; }
        }
      }
    }
  }

  /** The question ids after the upsert: `x`'s id appended, or written over its first occurrence. */
  lemma UpsertKeySeq(answers: seq<Answer>, x: Answer)
    ensures var i := FindAnswerIndex(answers, x.questionId);
            Keys(Upsert(answers, x)) == if i == -1 then Keys(answers) + [x.questionId] else Keys(answers)
  {
  }

  /** The set of answered questions gains exactly `x`'s question. */
  lemma UpsertKeys(answers: seq<Answer>, x: Answer)
    ensures Elements(Keys(Upsert(answers, x))) == Elements(Keys(answers)) + {x.questionId}
  {
    var i := FindAnswerIndex(answers, x.questionId);
    var ks := Keys(answers);
    UpsertKeySeq(answers, x);
    if i == -1 {
      assert Elements(ks + [x.questionId]) == Elements(ks) + {x.questionId};
    } else {
      assert ks[i] == x.questionId;
    }
  }

  /** No question is ever answered twice. */
  lemma UpsertNoDup(answers: seq<Answer>, x: Answer)
    requires NoDup(Keys(answers))
    ensures NoDup(Keys(Upsert(answers, x)))
  {
    var i := FindAnswerIndex(answers, x.questionId);
    var ks := Keys(answers);
    UpsertKeySeq(answers, x);
    if i == -1 {
      var ks2 := ks + [x.questionId];
      forall a, b | 0 <= a < b < |ks2| ensures ks2[a] != ks2[b] {
        if b == |ks| {
          assert ks2[a] == answers[a].questionId;
        }
      }
    }
  }

  /**
   * The entry the answer handler stores, or the exception computing it
   * raises. Evaluating a matching answer sorts the submitted array in place,
   * and that same array is the one saved: a matching answer is stored sorted.
   */
  function AnswerEntry(q: Question, questionId: Id, answer: AnswerValue, timeTaken: nat): (r: Result<Answer, EvalError>)
    ensures r.Err? <==> ValidateAnswer(q, answer).Err?
    ensures r.Ok? ==> r.value.questionId == questionId && r.value.timeTaken == timeTaken
                      && Ok(r.value.isCorrect) == ValidateAnswer(q, answer)
                      && Ok(r.value.marksAwarded) == CalculateMarks(q, answer)
                      && !r.value.isReviewed && r.value.teacherFeedback.None?
    ensures r.Ok? && q.qtype != Matching ==> r.value.answer == answer
    ensures r.Ok? && q.qtype == Matching ==>
              answer.Items? && r.value.answer.Items? && Text.Sorted(r.value.answer.items)
              && multiset(r.value.answer.items) == multiset(answer.items)
  {
    match CalculateMarks(q, answer)
    case Err(e) => Err(e)
    case Ok(m) =>
      var stored := if q.qtype == Matching && answer.Items? then Items(Text.SortStrings(answer.items)) else answer;
      Text.SortStringsCorrect(if answer.Items? then answer.items else []);
      Ok(Answer(questionId, stored, timeTaken, ValidateAnswer(q, answer).value, m, false, None))
  }

  /** Evaluating the stored (sorted) answer again gives the verdict and marks of the submitted one. */
  lemma StoredAnswerKeepsVerdict(q: Question, questionId: Id, answer: AnswerValue, timeTaken: nat)
    requires AnswerEntry(q, questionId, answer, timeTaken).Ok?
    ensures var stored := AnswerEntry(q, questionId, answer, timeTaken).value.answer;
            ValidateAnswer(q, stored) == ValidateAnswer(q, answer)
            && CalculateMarks(q, stored) == CalculateMarks(q, answer)
  {
    if q.qtype == Matching {
      var stored := AnswerEntry(q, questionId, answer, timeTaken).value.answer;
      MatchingIsPermutationTest(q, answer.items);
      MatchingIsPermutationTest(q, stored.items);
    }
  }

  /** A matching answer ["b", "a"] against the key ["a", "b"] is right and is stored as ["a", "b"]. */
  lemma MatchingAnswerStoredSorted(q: Question, questionId: Id)
    requires q.qtype == Matching && q.correctAnswer == Items(["a", "b"])
    ensures AnswerEntry(q, questionId, Items(["b", "a"]), 0).Ok?
    ensures AnswerEntry(q, questionId, Items(["b", "a"]), 0).value.answer == Items(["a", "b"])
    ensures AnswerEntry(q, questionId, Items(["b", "a"]), 0).value.isCorrect == Some(true)
  {
    assert Text.StrLe("a", "b") && !Text.StrLe("b", "a");
  }

  const AccessDenied := Response(403, "Access denied")
  const AlreadySubmitted := Response(400, "Exam already submitted")
  const QuestionNotFound := Response(404, "Question not found")
  const ServerError := Response(500, "Server error")
  const AnswerSaved := Response(200, "Answer saved successfully")

  /**
   * `POST /answer`: stores the evaluated answer for `questionId` in the
   * student's unsubmitted attempt. `question` is the looked-up question, if
   * any. An evaluation that throws ends in a server error before anything
   * is saved.
   */
  method RecordAnswer(s: Submission, user: Id, question: Option<Question>, questionId: Id,
                      answer: AnswerValue, timeTaken: nat) returns (resp: Response)
    modifies s`answers
    ensures s.student != user ==> resp == AccessDenied
    ensures s.student == user && s.isSubmitted ==> resp == AlreadySubmitted
    ensures s.student == user && !s.isSubmitted && question.None? ==> resp == QuestionNotFound
    ensures s.student == user && !s.isSubmitted && question.Some? ==>
              match AnswerEntry(question.value, questionId, answer, timeTaken)
              case Err(_) => resp == ServerError
              case Ok(x) => resp == AnswerSaved && s.answers == Upsert(old(s.answers), x)
    ensures resp != AnswerSaved ==> s.answers == old(s.answers)
  {
    if s.student != user { return AccessDenied; }
    if s.isSubmitted { return AlreadySubmitted; }
    if question.None? { return QuestionNotFound; }
    var entry := AnswerEntry(question.value, questionId, answer, timeTaken);
    if entry.Err? { return ServerError; }
    var i := FindAnswerIndex(s.answers, questionId);
    if i != -1 {
      s.answers := s.answers[i := entry.value];
    } else {
      s.answers := s.answers + [entry.value];
    }
    resp := AnswerSaved;
  }

  // ---------------------------------------------------------------------
  // Submitting and grading.

  /** `Math.floor(ms / 60000)`: whole minutes, rounded down also for a negative span. */
  function Minutes(ms: int): (m: int)
    ensures m * 60000 <= ms < (m + 1) * 60000
  {
    ms / 60000
  }

  /** The three score fields agree with the answers and the exam's total, as `calculateScore` leaves them. */
  predicate ScoresCurrent(s: Submission, examTotalMarks: int)
    reads s
  {
    s.marksObtained == MarksObtained(s.answers) && s.totalMarks == examTotalMarks
    && s.percentage == Percentage(s.marksObtained, s.totalMarks)
  }

  /**
   * `calculateScore()`, `assignGrade()` and `checkPassed(exam.passingMarks)`
   * in that order, as both the submit and the grade handlers run them.
   */
  method Rescore(s: Submission, exam: Exam)
    modifies s`marksObtained, s`totalMarks, s`percentage, s`grade, s`isPassed
    ensures ScoresCurrent(s, exam.totalMarks)
    ensures s.grade == Some(GradeFor(s.percentage))
    ensures s.isPassed <==> s.marksObtained >= exam.passingMarks
  {
    var _, _, _ := s.CalculateScore(exam.totalMarks);
    var _ := s.AssignGrade();
    var _ := s.CheckPassed(exam.passingMarks);
  }

  const ExamSubmitted := Response(200, "Exam submitted successfully")

  /**
   * `POST /submit`: scores the student's attempt once and closes it. The
   * populated `exam` is `null` when it no longer exists, and reading its
   * marks then throws.
   */
  method Submit(s: Submission, user: Id, exam: Exam?, now: Millis) returns (resp: Response)
    modifies s`marksObtained, s`totalMarks, s`percentage, s`grade, s`isPassed
    modifies s`isSubmitted, s`submittedAt, s`endTime, s`timeTaken
    ensures s.student != user ==> resp == AccessDenied
    ensures s.student == user && old(s.isSubmitted) ==> resp == AlreadySubmitted
    ensures s.student == user && !old(s.isSubmitted) && exam == null ==> resp == ServerError
    ensures resp == ExamSubmitted <==> s.student == user && !old(s.isSubmitted) && exam != null
    ensures resp != ExamSubmitted ==>
              unchanged(s`isSubmitted, s`marksObtained, s`totalMarks, s`percentage, s`grade, s`isPassed,
                        s`submittedAt, s`endTime, s`timeTaken)
    ensures resp == ExamSubmitted ==>
              && ScoresCurrent(s, exam.totalMarks)
              && s.grade == Some(GradeFor(s.percentage))
              && (s.isPassed <==> s.marksObtained >= exam.passingMarks)
              && s.isSubmitted && s.submittedAt == Some(now) && s.endTime == Some(now)
              && s.timeTaken == Some(Minutes(now - s.startTime))
  {
    if s.student != user { return AccessDenied; }
    if s.isSubmitted { return AlreadySubmitted; }
    if exam == null { return ServerError; }
    Rescore(s, exam);
    s.isSubmitted := true;
    // The handler reads the clock twice, for `submittedAt` and for `endTime`;
    // both readings are the one instant `now` here.
    s.submittedAt := Some(now);
    s.endTime := Some(now);
    s.timeTaken := Some((now - s.startTime) / 60000);
    resp := ExamSubmitted;
  }

  /** The answer after a teacher's review. */
  function Reviewed(a: Answer, marks: int, feedback: Option<string>): (r: Answer)
    ensures r.questionId == a.questionId && r.answer == a.answer && r.isCorrect == a.isCorrect
    ensures MarkValue(r) == marks && r.isReviewed && r.teacherFeedback == feedback
  {
    a.(marksAwarded := Some(marks), teacherFeedback := feedback, isReviewed := true)
  }

  /** After grading one answer, the total moves by the change in that answer's marks alone. */
  lemma GradeMovesTotal(answers: seq<Answer>, i: nat, marks: int, feedback: Option<string>)
    requires i < |answers|
    ensures MarksObtained(answers[i := Reviewed(answers[i], marks, feedback)])
            == MarksObtained(answers) - MarkValue(answers[i]) + marks
  {
    MarksObtainedReplace(answers, i, Reviewed(answers[i], marks, feedback));
  }

  const AnswerNotFound := Response(404, "Answer not found")
  const Graded := Response(200, "Submission graded successfully")

  /**
   * `PUT /:id/grade`: a teacher (of this exam) or an admin overrides the
   * marks of the answer to `questionId` and the scores are recomputed.
   * Whether the attempt was submitted, or the question is an essay, is not
   * checked, and the submission is marked graded in every case.
   */
  method GradeAnswer(s: Submission, user: Id, role: Role, exam: Exam?, questionId: Id,
                     marks: int, feedback: Option<string>, now: Millis) returns (resp: Response)
    requires role == Teacher || role == Admin
    modifies s`answers, s`marksObtained, s`totalMarks, s`percentage, s`grade, s`isPassed
    modifies s`isGraded, s`gradedBy, s`gradedAt
    ensures role == Teacher && exam != null && exam.createdBy != user ==> resp == AccessDenied
    ensures ((role == Admin || (exam != null && exam.createdBy == user))
             && FindAnswerIndex(old(s.answers), questionId) == -1) ==> resp == AnswerNotFound
    ensures (exam == null && (role == Teacher || FindAnswerIndex(old(s.answers), questionId) >= 0))
            ==> resp == ServerError
    ensures resp == Graded <==>
              exam != null && (role == Admin || exam.createdBy == user)
              && FindAnswerIndex(old(s.answers), questionId) >= 0
    ensures resp != Graded ==>
              unchanged(s`answers, s`marksObtained, s`totalMarks, s`percentage, s`grade, s`isPassed,
                        s`isGraded, s`gradedBy, s`gradedAt)
    ensures resp == Graded ==>
              var i := FindAnswerIndex(old(s.answers), questionId);
              && s.answers == old(s.answers)[i := Reviewed(old(s.answers)[i], marks, feedback)]
              && ScoresCurrent(s, exam.totalMarks)
              && s.marksObtained == MarksObtained(old(s.answers)) - MarkValue(old(s.answers)[i]) + marks
              && s.grade == Some(GradeFor(s.percentage))
              && (s.isPassed <==> s.marksObtained >= exam.passingMarks)
              && s.isGraded && s.gradedBy == Some(user) && s.gradedAt == Some(now)
  {
    if role == Teacher {
      if exam == null { return ServerError; }
      if exam.createdBy != user { return AccessDenied; }
    }
    var i := FindAnswerIndex(s.answers, questionId);
    if i == -1 { return AnswerNotFound; }
    if exam == null { return ServerError; }
    GradeMovesTotal(s.answers, i, marks, feedback);
    s.answers := s.answers[i := Reviewed(s.answers[i], marks, feedback)];
    Rescore(s, exam);
    s.gradedBy := Some(user);
    s.gradedAt := Some(now);
    s.isGraded := true;
    resp := Graded;
  }
}
