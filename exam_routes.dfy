/**
 * Exam assembly in routes/exams.js: adding questions to an exam, the guard
 * on publishing it, and the query the exam listing builds for each role.
 */
module ExamRoutes {
  import opened Common
  import opened Text
  import opened QuestionModel
  import opened ExamModel

  // ---------------------------------------------------------------------
  // Adding questions.

  /** `[...new Set(xs)]`: the first occurrence of each id, in order. */
  function Distinct(xs: seq<Id>): (d: seq<Id>)
    ensures NoDup(d) && Elements(d) == Elements(xs) && |d| <= |xs|
  {
    if |xs| == 0 then []
    else
      var d := Distinct(xs[..|xs| - 1]);
      var last := xs[|xs| - 1];
      assert Elements(xs) == Elements(xs[..|xs| - 1]) + {last} by {
        assert xs == xs[..|xs| - 1] + [last];
      }
      if last in d then d
      else
        assert forall i :: 0 <= i < |d| ==> (d + [last])[i] == d[i];
        d + [last]
  }

  /** Deduplicating keeps the earlier ids in front, in their order. */
  lemma {:induction false} DistinctPrefix(a: seq<Id>, b: seq<Id>)
    ensures |Distinct(a)| <= |Distinct(a + b)| && Distinct(a + b)[..|Distinct(a)|] == Distinct(a)
    decreases |b|
  {
    if |b| > 0 {
      var b0 := b[..|b| - 1];
      assert (a + b)[..|a + b| - 1] == a + b0;
      DistinctPrefix(a, b0);
    } else {
      assert a + b == a;
    }
  }

  /** A list without repetitions is left as it is. */
  lemma {:induction false} DistinctOfNoDup(xs: seq<Id>)
    requires NoDup(xs)
    ensures Distinct(xs) == xs
  {
    if |xs| > 0 {
      var init := xs[..|xs| - 1];
      assert NoDup(init) by {
        forall i, j | 0 <= i < j < |init| ensures init[i] != init[j] {
          assert init[i] == xs[i] && init[j] == xs[j];
        }
      }
      DistinctOfNoDup(init);
      assert xs[|xs| - 1] !in init by {
        forall k | 0 <= k < |init| ensures init[k] != xs[|xs| - 1] {
          assert init[k] == xs[k];
        }
      }
      assert init + [xs[|xs| - 1]] == xs;
    }
  }

  /** The number of distinct supplied ids that name a stored question: what `find({ _id: { $in } })` returns. */
  function FoundCount(ids: seq<Id>, bank: map<Id, Question>): (n: nat)
    ensures n <= |ids|
  {
    var found := set id | id in ids && id in bank;
    ElementsCardinality(ids);
    SubsetCardinality(found, Elements(ids));
    |found|
  }

  /**
   * The add is accepted exactly when every supplied id names a stored
   * question and no id is supplied twice: a repeated id makes the found
   * count fall short too.
   */
  lemma FoundAllIff(ids: seq<Id>, bank: map<Id, Question>)
    ensures FoundCount(ids, bank) == |ids| <==> NoDup(ids) && forall i :: 0 <= i < |ids| ==> ids[i] in bank
  {
    var found := set id | id in ids && id in bank;
    ElementsCardinality(ids);
    assert found <= Elements(ids);
    if forall i :: 0 <= i < |ids| ==> ids[i] in bank {
      assert found == Elements(ids);
    } else {
      var i :| 0 <= i < |ids| && ids[i] !in bank;
      assert ids[i] in Elements(ids) - found;
      SubsetCardinality(found, Elements(ids));
    }
  }

  /** `questions.reduce((t, q) => t + q.marks, 0)` over the supplied questions. */
  function SuppliedMarks(ids: seq<Id>, bank: map<Id, Question>): int
  {
    if |ids| == 0 then 0
    else SuppliedMarks(ids[..|ids| - 1], bank) + (if ids[|ids| - 1] in bank then bank[ids[|ids| - 1]].marks else 0)
  }

  /** The supplied total is the exam-side total over the supplied questions' marks. */
  lemma {:induction false} SuppliedMarksIsTotal(ids: seq<Id>, bank: map<Id, Question>)
    requires forall i :: 0 <= i < |ids| ==> ids[i] in bank
    ensures SuppliedMarks(ids, bank) == TotalMarks(seq(|ids|, i requires 0 <= i < |ids| => Some(bank[ids[i]].marks)))
  {
    var ms := seq(|ids|, i requires 0 <= i < |ids| => Some(bank[ids[i]].marks));
    if |ids| > 0 {
      var init := ids[..|ids| - 1];
      SuppliedMarksIsTotal(init, bank);
      assert ms[..|ms| - 1] == seq(|init|, i requires 0 <= i < |init| => Some(bank[init[i]].marks));
    }
  }

  const ExamAccessDenied := Response(403, "Access denied")
  const SomeQuestionsNotFound := Response(400, "Some questions not found")
  const QuestionsAdded := Response(200, "Questions added to exam successfully")

  /**
   * `POST /:id/questions`: puts the stored question ids and the supplied
   * ones into one `Set`, recounts the questions, and sets `totalMarks` to the
   * marks of the questions supplied in this call, discarding the previous
   * total. The stored entries are ObjectId objects and the supplied ones
   * strings; a `Set` compares objects by identity, so it merges no stored id
   * with a supplied one, and only repeats among the supplied strings go.
   */
  method AddQuestions(exam: Exam, user: Id, role: Role, ids: seq<Id>, bank: map<Id, Question>)
    returns (resp: Response)
    requires role == Teacher || role == Admin
    modifies exam`questions, exam`totalQuestions, exam`totalMarks
    ensures role == Teacher && exam.createdBy != user ==> resp == ExamAccessDenied
    ensures (role == Admin || exam.createdBy == user) && FoundCount(ids, bank) != |ids| ==> resp == SomeQuestionsNotFound
    ensures resp == QuestionsAdded <==> (role == Admin || exam.createdBy == user) && FoundCount(ids, bank) == |ids|
    ensures resp != QuestionsAdded ==> unchanged(exam`questions, exam`totalQuestions, exam`totalMarks)
    ensures resp == QuestionsAdded ==>
              && exam.questions == old(exam.questions) + ids
              && exam.totalQuestions == |old(exam.questions)| + |ids|
              && exam.totalMarks == SuppliedMarks(ids, bank)
  {
    if role == Teacher && exam.createdBy != user { return ExamAccessDenied; }
    if FoundCount(ids, bank) != |ids| { return SomeQuestionsNotFound; }
    FoundAllIff(ids, bank);
    DistinctOfNoDup(ids);
    exam.questions := exam.questions + Distinct(ids);
    exam.totalQuestions := |exam.questions|;
    exam.totalMarks := SuppliedMarks(ids, bank);
    resp := QuestionsAdded;
  }

  /**
   * As written, adding a question the exam already holds stores it a
   * second time and counts it twice.
   */
  lemma ReAddDuplicatesAsWritten(questions: seq<Id>, x: Id)
    requires x in questions
    ensures var qs := questions + Distinct([x]);
            !NoDup(qs) && |qs| == |questions| + 1 && multiset(qs)[x] >= 2
  {
    var qs := questions + Distinct([x]);
    assert Distinct([x]) == [x] by {
      assert [x][..0] == [];
    }
    var i :| 0 <= i < |questions| && questions[i] == x;
    assert qs[i] == x && qs[|questions|] == x;
    assert multiset(qs) == multiset(questions) + multiset{x};
  }

  /**
   * The union by id the route evidently means: every earlier question,
   * still in front and in order, then every supplied one, each exactly once.
   */
  lemma AddedQuestions(old_questions: seq<Id>, ids: seq<Id>)
    requires NoDup(old_questions)
    ensures var qs := Distinct(old_questions + ids);
            && NoDup(qs) && Elements(qs) == Elements(old_questions) + Elements(ids)
            && |old_questions| <= |qs| && qs[..|old_questions|] == old_questions
  {
    DistinctOfNoDup(old_questions);
    DistinctPrefix(old_questions, ids);
    assert Elements(old_questions + ids) == Elements(old_questions) + Elements(ids);
  }

  /** By id, adding a question the exam already holds changes nothing. */
  lemma ReAddKeepsOnce(questions: seq<Id>, x: Id)
    requires NoDup(questions) && x in questions
    ensures Distinct(questions + [x]) == questions
  {
    DistinctOfNoDup(questions);
    assert (questions + [x])[..|questions|] == questions;
  }

  const NoQuestions := Response(400, "Cannot publish exam without questions")
  const Published := Response(200, "Exam published successfully")

  /** `PUT /:id/publish`: only an exam holding questions can be published. */
  method Publish(exam: Exam, user: Id, role: Role) returns (resp: Response)
    requires role == Teacher || role == Admin
    modifies exam`isPublished
    ensures role == Teacher && exam.createdBy != user ==> resp == ExamAccessDenied
    ensures (role == Admin || exam.createdBy == user) && |exam.questions| == 0 ==> resp == NoQuestions
    ensures resp == Published <==> (role == Admin || exam.createdBy == user) && |exam.questions| > 0
    ensures resp == Published ==> exam.isPublished
    ensures resp != Published ==> exam.isPublished == old(exam.isPublished)
  {
    if role == Teacher && exam.createdBy != user { return ExamAccessDenied; }
    if |exam.questions| == 0 { return NoQuestions; }
    exam.isPublished := true;
    resp := Published;
  }

  // ---------------------------------------------------------------------
  // The listing query.

  /** The two alternatives `$or` can hold. */
  datatype AnyOf =
    | EligibleOrOpen(student: Id)   // `{ eligibleStudents: id }` or `{ eligibleStudents: { $size: 0 } }`
    | TextSearch(term: string)      // `$regex` with option `i` on title, description or subject

  /** The MongoDB filter `GET /` passes to `find`; `None` is an absent condition. */
  datatype ExamQuery = ExamQuery(
    createdBy: Option<Id>,
    isPublished: Option<bool>,
    isActive: Option<bool>,
    anyOf: Option<AnyOf>,
    startAtMost: Option<Millis>,
    endAtLeast: Option<Millis>,
    subject: Option<string>,
    grade: Option<string>)

  const EmptyQuery := ExamQuery(None, None, None, None, None, None, None, None)

  /** `t` occurs in `s` as a contiguous piece. */
  predicate HasInfix(s: string, t: string)
    decreases |s|
  {
    if t <= s then true else if |s| == 0 then false else HasInfix(s[1..], t)
  }

  /** A case-insensitive `$regex`, with the term read literally. */
  predicate MatchesIgnoringCase(field: string, term: string)
  {
    HasInfix(Lower(field), Lower(term))
  }

  predicate AnyOfHolds(c: AnyOf, e: Exam)
    reads e
  {
    match c
    case EligibleOrOpen(s) => s in e.eligibleStudents || |e.eligibleStudents| == 0
    case TextSearch(t) =>
      MatchesIgnoringCase(e.title, t) || MatchesIgnoringCase(e.description, t) || MatchesIgnoringCase(e.subject, t)
  }

  /** Whether a stored exam satisfies every condition of the filter. */
  predicate Matches(q: ExamQuery, e: Exam)
    reads e
  {
    && (q.createdBy.None? || e.createdBy == q.createdBy.value)
    && (q.isPublished.None? || e.isPublished == q.isPublished.value)
    && (q.isActive.None? || e.isActive == q.isActive.value)
    && (q.anyOf.None? || AnyOfHolds(q.anyOf.value, e))
    && (q.startAtMost.None? || e.startDate <= q.startAtMost.value)
    && (q.endAtLeast.None? || e.endDate >= q.endAtLeast.value)
    && (q.subject.None? || e.subject == q.subject.value)
    && (q.grade.None? || e.grade == q.grade.value)
  }

  /** The filter the listing builds for a user of `role` at instant `now`. */
  function ListingQuery(role: Role, user: Id, now: Millis, subject: Option<string>, grade: Option<string>,
                        search: Option<string>): ExamQuery
  {
    var byRole :=
      if role == Teacher then EmptyQuery.(createdBy := Some(user))
      else if role == Student then
        EmptyQuery.(isPublished := Some(true), isActive := Some(true), anyOf := Some(EligibleOrOpen(user)),
                    startAtMost := Some(now), endAtLeast := Some(now))
      else EmptyQuery;
    var withSubject := if Truthy(subject) then byRole.(subject := subject) else byRole;
    var withGrade := if Truthy(grade) then withSubject.(grade := grade) else withSubject;
    if Truthy(search) then withGrade.(anyOf := Some(TextSearch(search.value))) else withGrade
  }

  /** The query object built field by field, as the handler does. */
  method BuildQuery(role: Role, user: Id, now: Millis, subject: Option<string>, grade: Option<string>,
                    search: Option<string>) returns (q: ExamQuery)
    ensures q == ListingQuery(role, user, now, subject, grade, search)
  {
    q := EmptyQuery;
    if role == Teacher {
      q := q.(createdBy := Some(user));
    } else if role == Student {
      q := q.(isPublished := Some(true));
      q := q.(isActive := Some(true));
      q := q.(anyOf := Some(EligibleOrOpen(user)));
      q := q.(startAtMost := Some(now));
      q := q.(endAtLeast := Some(now));
    }
    if Truthy(subject) { q := q.(subject := subject); }
    if Truthy(grade) { q := q.(grade := grade); }
    if Truthy(search) { q := q.(anyOf := Some(TextSearch(search.value))); }
  }

  /** Without a search term or filters, a student is listed exactly the exams available to them. */
  lemma StudentListingIsAvailability(user: Id, now: Millis, e: Exam)
    ensures Matches(ListingQuery(Student, user, now, None, None, None), e) <==> e.IsAvailableForStudent(user, now)
  {
  }

  /** A teacher is listed exactly their own exams, published or not. */
  lemma TeacherListingIsOwnExams(user: Id, now: Millis, e: Exam)
    ensures Matches(ListingQuery(Teacher, user, now, None, None, None), e) <==> e.createdBy == user
  {
  }

  /**
   * A search term replaces the eligibility alternative: the student's
   * listing then no longer depends on the eligibility list at all.
   */
  lemma SearchDropsEligibility(user: Id, now: Millis, term: string, e: Exam)
    requires term != ""
    ensures ListingQuery(Student, user, now, None, None, Some(term)).anyOf == Some(TextSearch(term))
    ensures Matches(ListingQuery(Student, user, now, None, None, Some(term)), e) <==>
              e.isPublished && e.isActive && e.startDate <= now <= e.endDate && AnyOfHolds(TextSearch(term), e)
  {
  }

  /** Filters only narrow the listing. */
  lemma FiltersNarrow(role: Role, user: Id, now: Millis, subject: Option<string>, grade: Option<string>, e: Exam)
    ensures Matches(ListingQuery(role, user, now, subject, grade, None), e) ==>
              Matches(ListingQuery(role, user, now, None, None, None), e)
    ensures Truthy(subject) && Matches(ListingQuery(role, user, now, subject, grade, None), e) ==> e.subject == subject.value
  {
  }
}
