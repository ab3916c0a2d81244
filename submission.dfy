/**
 * The submission document of models/Submission.js: one candidate's attempt
 * at an exam, the answers recorded so far, and the three methods that
 * aggregate them into marks, a percentage, a letter grade and a pass flag.
 */
module SubmissionModel {
  import opened Common
  import opened QuestionModel

  /**
   * One entry of `answers`. `isCorrect` and `marksAwarded` hold what
   * `validateAnswer` and `calculateMarks` returned; `None` is their `null`.
   */
  datatype Answer = Answer(
    questionId: Id,
    answer: AnswerValue,
    timeTaken: nat,
    isCorrect: Option<bool>,
    marksAwarded: Option<int>,
    isReviewed: bool,
    teacherFeedback: Option<string>)

  /** What one answer adds to the total: `null` marks add as 0. */
  function MarkValue(a: Answer): int
  {
    if a.marksAwarded.Some? then a.marksAwarded.value else 0
  }

  /** The sum `calculateScore` accumulates over the answers, in order. */
  function MarksObtained(answers: seq<Answer>): int
  {
    if |answers| == 0 then 0
    else MarksObtained(answers[..|answers| - 1]) + MarkValue(answers[|answers| - 1])
  }

  /** The sum over two runs of answers is the sum of their sums. */
  lemma {:induction false} MarksObtainedAppend(a: seq<Answer>, b: seq<Answer>)
    ensures MarksObtained(a + b) == MarksObtained(a) + MarksObtained(b)
    decreases |b|
  {
    if |b| == 0 {
      assert a + b == a;
    } else {
      assert (a + b)[..|a + b| - 1] == a + b[..|b| - 1];
      MarksObtainedAppend(a, b[..|b| - 1]);
    }
  }

  /** Replacing one answer changes the sum by the difference of the two answers' marks. */
  lemma MarksObtainedReplace(answers: seq<Answer>, i: nat, x: Answer)
    requires i < |answers|
    ensures MarksObtained(answers[i := x]) == MarksObtained(answers) - MarkValue(answers[i]) + MarkValue(x)
  {
    var pre, post := answers[..i], answers[i + 1..];
    assert answers == pre + [answers[i]] + post;
    assert answers[i := x] == pre + [x] + post;
    MarksObtainedAppend(pre + [answers[i]], post);
    MarksObtainedAppend(pre + [x], post);
    MarksObtainedAppend(pre, [answers[i]]);
    MarksObtainedAppend(pre, [x]);
    assert [answers[i]][..0] == [] && [x][..0] == [];
  }

  /** An answer pending manual grading (`null` marks) leaves the total where it was. */
  lemma PendingAddsNothing(answers: seq<Answer>, x: Answer)
    requires x.marksAwarded.None?
    ensures MarksObtained(answers + [x]) == MarksObtained(answers)
  {
    assert (answers + [x])[..|answers|] == answers;
  }

  /** `(obtained / total) * 100`, or 0 for an exam without marks; never rounded nor clamped. */
  function Percentage(obtained: int, total: int): (p: real)
    ensures total <= 0 ==> p == 0.0
    ensures total > 0 ==> p * (total as real) == (obtained as real) * 100.0
  {
    if total > 0 then (obtained as real / total as real) * 100.0 else 0.0
  }

  /** The percentage reaches a threshold exactly when the marks, cross-multiplied, do. */
  lemma PercentageAtLeast(obtained: int, total: int, k: int)
    requires total > 0
    ensures Percentage(obtained, total) >= k as real <==> 100 * obtained >= k * total
  {
    var p := Percentage(obtained, total);
    var t := total as real;
    assert p * t == (obtained as real) * 100.0;
    if p >= k as real {
      assert p * t >= (k as real) * t;
    } else {
      assert p * t < (k as real) * t;
    }
  }

  /**
   * Nothing clamps the percentage: it is negative exactly when the marks are
   * (negative marking), and reaches 100 exactly when the marks reach the total.
   */
  lemma PercentageRange(obtained: int, total: int)
    requires total > 0
    ensures Percentage(obtained, total) < 0.0 <==> obtained < 0
    ensures Percentage(obtained, total) >= 100.0 <==> obtained >= total
  {
    PercentageAtLeast(obtained, total, 0);
    PercentageAtLeast(obtained, total, 100);
  }

  /** The letter bands of `assignGrade`, best first. */
  datatype Grade = APlus | A | BPlus | B | C | D | F

  /** The string stored in `grade`. */
  function GradeLetter(g: Grade): string
  {
    match g
    case APlus => "A+"
    case A => "A"
    case BPlus => "B+"
    case B => "B"
    case C => "C"
    case D => "D"
    case F => "F"
  }

  /** The position of a band, 0 for the best. */
  function Rank(g: Grade): nat
  {
    match g
    case APlus => 0
    case A => 1
    case BPlus => 2
    case B => 3
    case C => 4
    case D => 5
    case F => 6
  }

  /** The lower bound of each band; F has none. */
  function Floor(g: Grade): real
    requires g != F
  {
    match g
    case APlus => 90.0
    case A => 80.0
    case BPlus => 70.0
    case B => 60.0
    case C => 50.0
    case D => 40.0
  }

  /** The band `assignGrade` picks for a percentage. */
  function GradeFor(p: real): (g: Grade)
    ensures g != F ==> p >= Floor(g)
    ensures g != APlus ==> p < 90.0
    ensures g == F <==> p < 40.0
  {
    if p >= 90.0 then APlus
    else if p >= 80.0 then A
    else if p >= 70.0 then BPlus
    else if p >= 60.0 then B
    else if p >= 50.0 then C
    else if p >= 40.0 then D
    else F
  }

  /** Each band is the interval from its floor up to the next band's floor. */
  lemma GradeBand(p: real, g: Grade)
    requires g != F
    ensures GradeFor(p) == g <==> Floor(g) <= p && (g == APlus || p < Floor(g) + 10.0)
  {
  }

  /** A higher percentage never earns a worse band. */
  lemma GradeMonotone(p: real, q: real)
    requires p <= q
    ensures Rank(GradeFor(q)) <= Rank(GradeFor(p))
  {
  }

  /** The stored letters are distinct, so the letter determines the band. */
  lemma GradeLetterInjective(g: Grade, h: Grade)
    ensures GradeLetter(g) == GradeLetter(h) <==> g == h
  {
  }

  /** With an exam worth marks, the band read off the raw marks by cross-multiplication. */
  lemma GradeFromMarks(obtained: int, total: int)
    requires total > 0
    ensures GradeFor(Percentage(obtained, total)) == APlus <==> 100 * obtained >= 90 * total
    ensures GradeFor(Percentage(obtained, total)) == F <==> 100 * obtained < 40 * total
  {
    PercentageAtLeast(obtained, total, 90);
    PercentageAtLeast(obtained, total, 40);
  }

  /** A stored submission; the fields the modelled operations leave alone are not kept. */
  class Submission {
    var id: Id
    var student: Id
    var exam: Id
    var answers: seq<Answer>
    var startTime: Millis
    var endTime: Option<Millis>
    var timeTaken: Option<int>
    var isSubmitted: bool
    var submittedAt: Option<Millis>
    var totalMarks: int
    var marksObtained: int
    var percentage: real
    var grade: Option<Grade>
    var isPassed: bool
    var attemptNumber: int
    var isGraded: bool
    var gradedBy: Option<Id>
    var gradedAt: Option<Millis>

    /** A new attempt with the schema's defaults. */
    constructor (id: Id, student: Id, exam: Id, startTime: Millis, attemptNumber: int)
      ensures this.id == id && this.student == student && this.exam == exam
      ensures this.startTime == startTime && this.attemptNumber == attemptNumber
      ensures answers == [] && endTime == None && timeTaken == None
      ensures !isSubmitted && submittedAt == None
      ensures totalMarks == 0 && marksObtained == 0 && percentage == 0.0
      ensures grade == None && !isPassed
      ensures !isGraded && gradedBy == None && gradedAt == None
    {
      this.id := id;
      this.student := student;
      this.exam := exam;
      this.startTime := startTime;
      this.attemptNumber := attemptNumber;
      answers := [];
      endTime := None;
      timeTaken := None;
      isSubmitted := false;
      submittedAt := None;
      totalMarks := 0;
      marksObtained := 0;
      percentage := 0.0;
      grade := None;
      isPassed := false;
      isGraded := false;
      gradedBy := None;
      gradedAt := None;
    }

    /**
     * `calculateScore`, given the `totalMarks` of the populated exam: sums
     * the answers' marks from scratch and derives the percentage. It
     * writes the three score fields and nothing else, so a second call
     * with the same exam changes nothing.
     */
    method CalculateScore(examTotalMarks: int) returns (total: int, obtained: int, pct: real)
      modifies this`marksObtained, this`totalMarks, this`percentage
      ensures obtained == MarksObtained(answers) && total == examTotalMarks
      ensures pct == Percentage(obtained, total)
      ensures marksObtained == obtained && totalMarks == total && percentage == pct
    {
      obtained := 0;
      var k := 0;
      while k < |answers|
        invariant 0 <= k <= |answers|
        invariant obtained == MarksObtained(answers[..k])
      {
        assert answers[..k + 1][..k] == answers[..k];
        obtained := obtained + MarkValue(answers[k]);
        k := k + 1;
      }
      assert answers[..k] == answers;
      total := examTotalMarks;
      marksObtained := obtained;
      totalMarks := total;
      percentage := if total > 0 then (obtained as real / total as real) * 100.0 else 0.0;
      pct := percentage;
    }

    /** `assignGrade`: stores and returns the band of the current percentage. */
    method AssignGrade() returns (g: Grade)
      modifies this`grade
      ensures g == GradeFor(percentage) && grade == Some(g)
    {
      if percentage >= 90.0 { g := APlus; }
      else if percentage >= 80.0 { g := A; }
      else if percentage >= 70.0 { g := BPlus; }
      else if percentage >= 60.0 { g := B; }
      else if percentage >= 50.0 { g := C; }
      else if percentage >= 40.0 { g := D; }
      else { g := F; }
      grade := Some(g);
    }

    /** `checkPassed`: passing is judged on the raw marks, not on the percentage. */
    method CheckPassed(passingMarks: int) returns (passed: bool)
      modifies this`isPassed
      ensures passed <==> marksObtained >= passingMarks
      ensures isPassed == passed
    {
      isPassed := marksObtained >= passingMarks;
      passed := isPassed;
    }
  }
}
