/**
 * The exam document of models/Exam.js: its schedule, attempt settings and
 * publication flags, the `status` virtual, the availability rule students
 * are held to, and the marks total over its questions.
 */
module ExamModel {
  import opened Common

  /** The three values of the `status` virtual. */
  datatype ExamStatus = Upcoming | Ongoing | Completed

  /** Only the fields the modelled rules read or write are kept. */
  class Exam {
    var id: Id
    var title: string
    var description: string
    var subject: string
    var grade: string
    var createdBy: Id
    var questions: seq<Id>
    var totalQuestions: int
    var totalMarks: int
    var passingMarks: int
    var startDate: Millis
    var endDate: Millis
    var allowMultipleAttempts: bool
    var maxAttempts: int
    var eligibleStudents: seq<Id>
    var isPublished: bool
    var isActive: bool

    /** A new exam with the schema's defaults for every field the creator does not supply. */
    constructor (id: Id, title: string, description: string, subject: string, grade: string,
                 createdBy: Id, passingMarks: int, startDate: Millis, endDate: Millis)
      ensures this.id == id && this.title == title && this.description == description
      ensures this.subject == subject && this.grade == grade && this.createdBy == createdBy
      ensures this.passingMarks == passingMarks && this.startDate == startDate && this.endDate == endDate
      ensures questions == [] && totalQuestions == 0 && totalMarks == 0
      ensures !allowMultipleAttempts && maxAttempts == 1
      ensures eligibleStudents == []
      ensures !isPublished && isActive
    {
      this.id := id;
      this.title := title;
      this.description := description;
      this.subject := subject;
      this.grade := grade;
      this.createdBy := createdBy;
      this.passingMarks := passingMarks;
      this.startDate := startDate;
      this.endDate := endDate;
      questions := [];
      totalQuestions := 0;
      totalMarks := 0;
      allowMultipleAttempts := false;
      maxAttempts := 1;
      eligibleStudents := [];
      isPublished := false;
      isActive := true;
    }

    /** The `status` virtual at instant `now`. */
    function Status(now: Millis): (st: ExamStatus)
      reads this
      ensures st == Upcoming <==> now < startDate
      ensures st == Completed <==> startDate <= now && endDate < now
      ensures st == Ongoing <==> startDate <= now <= endDate
    {
      if now < startDate then Upcoming
      else if now > endDate then Completed
      else Ongoing
    }

    /**
     * `isAvailableForStudent` at instant `now`: an active, published exam
     * inside its window (both ends included), open to everybody when its
     * eligibility list is empty and otherwise to the students on it.
     */
    predicate IsAvailableForStudent(student: Id, now: Millis)
      reads this
      ensures IsAvailableForStudent(student, now) ==> isActive && isPublished && startDate <= now <= endDate
      ensures IsAvailableForStudent(student, now) && eligibleStudents != [] ==> student in eligibleStudents
      ensures isActive && isPublished && startDate <= now <= endDate && eligibleStudents == [] ==> IsAvailableForStudent(student, now)
    {
      if !isActive || !isPublished then false
      else if now < startDate || now > endDate then false
      else if |eligibleStudents| > 0 then student in eligibleStudents
      else true
    }

    /** The availability rule, clause by clause. */
    lemma AvailabilityRule(student: Id, now: Millis)
      ensures !isActive || !isPublished ==> !IsAvailableForStudent(student, now)
      ensures now < startDate || endDate < now ==> !IsAvailableForStudent(student, now)
      ensures isActive && isPublished && startDate <= now <= endDate ==>
                (IsAvailableForStudent(student, now) <==> |eligibleStudents| == 0 || student in eligibleStudents)
    {
    }

    /** A student can only start an exam while it is ongoing. */
    lemma AvailableImpliesOngoing(student: Id, now: Millis)
      requires IsAvailableForStudent(student, now)
      ensures Status(now) == Ongoing
    {
    }

    /** An exam that restricts nobody is available to one student exactly when it is to any other. */
    lemma OpenExamTreatsStudentsAlike(s1: Id, s2: Id, now: Millis)
      requires eligibleStudents == []
      ensures IsAvailableForStudent(s1, now) == IsAvailableForStudent(s2, now)
    {
    }
  }

  /** `question.marks || 0`: a missing mark counts as nothing. */
  function MarkOrZero(m: Option<int>): int
  {
    if m.Some? then m.value else 0
  }

  /**
   * `calculateTotalMarks`: the `reduce` over the exam's questions, each
   * given by its `marks` (absent when the question has none).
   */
  function TotalMarks(marks: seq<Option<int>>): int
  {
    if |marks| == 0 then 0 else TotalMarks(marks[..|marks| - 1]) + MarkOrZero(marks[|marks| - 1])
  }

  /** The total of two lists of questions put together is the sum of their totals. */
  lemma {:induction false} TotalMarksAppend(a: seq<Option<int>>, b: seq<Option<int>>)
    ensures TotalMarks(a + b) == TotalMarks(a) + TotalMarks(b)
    decreases |b|
  {
    if |b| == 0 {
      assert a + b == a;
    } else {
      assert (a + b)[..|a + b| - 1] == a + b[..|b| - 1];
      TotalMarksAppend(a, b[..|b| - 1]);
    }
  }

  /** Questions without marks add nothing, and the total is bounded by the marked questions. */
  lemma {:induction false} TotalMarksBounds(marks: seq<Option<int>>, lo: int, hi: int)
    requires forall i :: 0 <= i < |marks| && marks[i].Some? ==> lo <= marks[i].value <= hi
    requires lo <= 0 <= hi
    ensures |marks| * lo <= TotalMarks(marks) <= |marks| * hi
  {
    if |marks| > 0 {
      var n := |marks| - 1;
      TotalMarksBounds(marks[..n], lo, hi);
      assert lo <= MarkOrZero(marks[n]) <= hi;
      assert TotalMarks(marks) == TotalMarks(marks[..n]) + MarkOrZero(marks[n]);
      assert |marks| * lo == n * lo + lo && |marks| * hi == n * hi + hi;
    }
  }

  /** The total does not depend on the order of the questions. */
  lemma {:induction false} TotalMarksSwap(a: seq<Option<int>>, x: Option<int>, y: Option<int>, b: seq<Option<int>>)
    ensures TotalMarks(a + [x, y] + b) == TotalMarks(a + [y, x] + b)
  {
    TotalMarksAppend(a + [x, y], b);
    TotalMarksAppend(a + [y, x], b);
    TotalMarksAppend(a, [x, y]);
    TotalMarksAppend(a, [y, x]);
    assert [x][..0] == [] && [y][..0] == [];
    assert [x, y] == [x] + [y] && [y, x] == [y] + [x];
    TotalMarksAppend([x], [y]);
    TotalMarksAppend([y], [x]);
  }
}
