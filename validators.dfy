/**
 * The self-contained predicates of utils/validators.js: file names and
 * sizes, exam durations and schedules, and membership in the fixed lists
 * of grades, roles, question types and difficulty levels.
 */
module Validators {
  import opened Common
  import opened Text
  import opened QuestionModel
  import opened ExamModel

  /** `isValidFileExtension`: the lower-cased text after the last dot is one of `allowed`. */
  predicate IsValidFileExtension(filename: string, allowed: seq<string>)
  {
    Lower(AfterLastDot(filename)) in allowed
  }

  /** The text after the last dot of `base.ext` is `ext`, whatever dots `base` holds. */
  lemma {:induction false} AfterLastDotOfJoin(base: string, ext: string)
    requires '.' !in ext
    ensures AfterLastDot(base + "." + ext) == ext
    decreases |ext|
  {
    var s := base + "." + ext;
    if |ext| == 0 {
      assert s[|s| - 1] == '.';
    } else {
      var n := |ext| - 1;
      assert s[..|s| - 1] == base + "." + ext[..n];
      assert s[|s| - 1] == ext[n];
      AfterLastDotOfJoin(base, ext[..n]);
      assert ext[..n] + [ext[n]] == ext;
    }
  }

  /**
   * A file `base.ext` is judged on `ext` alone, ignoring case, so
   * "photo.PNG" passes where "png" is allowed and "archive.png.exe" does not.
   */
  lemma ExtensionDecides(base: string, ext: string, allowed: seq<string>)
    requires '.' !in ext
    ensures IsValidFileExtension(base + "." + ext, allowed) <==> Lower(ext) in allowed
  {
    AfterLastDotOfJoin(base, ext);
  }

  /** A name without a dot is its own extension. */
  lemma NoDotIsWholeName(filename: string, allowed: seq<string>)
    requires '.' !in filename
    ensures IsValidFileExtension(filename, allowed) <==> Lower(filename) in allowed
  {
  }

  /** Only lower-case entries of `allowed` can ever match. */
  lemma UpperCaseEntriesNeverMatch(filename: string, allowed: seq<string>, e: string)
    requires e in allowed && Lower(e) != e
    ensures IsValidFileExtension(filename, allowed) ==> Lower(AfterLastDot(filename)) != e
  {
    LowerIdempotent(AfterLastDot(filename));
  }

  /** `isValidFileSize`: at most `maxSize` bytes. */
  predicate IsValidFileSize(size: int, maxSize: int)
  {
    size <= maxSize
  }

  /** A file that fits a limit fits every larger one, and a smaller file fits too. */
  lemma FileSizeMonotone(size: int, smaller: int, maxSize: int, larger: int)
    requires IsValidFileSize(size, maxSize) && smaller <= size && maxSize <= larger
    ensures IsValidFileSize(smaller, maxSize) && IsValidFileSize(size, larger)
  {
  }

  /**
   * `isValidExamDuration`: `Number.isInteger(d)` and 5 to 480 minutes.
   * `None` stands for a value that is not a number (a numeric string, say),
   * which `Number.isInteger` rejects.
   */
  predicate IsValidExamDuration(d: Option<real>)
  {
    d.Some? && d.value.Floor as real == d.value && 5.0 <= d.value <= 480.0
  }

  /** The valid durations are exactly the whole minutes from 5 to 480. */
  lemma DurationIsWholeMinutes(d: Option<real>)
    ensures IsValidExamDuration(d) <==> d.Some? && d.value == d.value.Floor as real && 5 <= d.value.Floor <= 480
    ensures IsValidExamDuration(d) ==> Some(d.value.Floor as real) == d
  {
  }

  /** Concretely: 90 passes, 90.5, 4 and 481 do not. */
  lemma DurationExamples()
    ensures IsValidExamDuration(Some(90.0))
    ensures !IsValidExamDuration(Some(90.5)) && !IsValidExamDuration(Some(4.0)) && !IsValidExamDuration(Some(481.0))
    ensures !IsValidExamDuration(None)
  {
    assert (90.5).Floor == 90;
  }

  const ValidGrades: seq<string> := ["1", "2", "3", "4", "5", "6", "7", "8", "9", "10", "11", "12"]

  /** `isValidGrade`: one of the strings "1" to "12". */
  predicate IsValidGrade(grade: string)
  {
    grade in ValidGrades
  }

  /** The valid grades are the decimal renderings of 1 to 12, and nothing else: not "01", not "0", not "13". */
  lemma GradesAreOneToTwelve(grade: string)
    ensures IsValidGrade(grade) <==> exists n :: 1 <= n <= 12 && grade == Decimal(n)
  {
    assert Decimal(10) == "10" && Decimal(11) == "11" && Decimal(12) == "12";
    if IsValidGrade(grade) {
      var i :| 0 <= i < |ValidGrades| && ValidGrades[i] == grade;
      assert grade == Decimal(i + 1);
    }
  }

  /** The role names of the user schema. */
  function RoleName(r: Role): string
  {
    match r
    case Student => "student"
    case Teacher => "teacher"
    case Parent => "parent"
    case Admin => "admin"
  }

  const ValidRoles: seq<string> := ["student", "teacher", "parent", "admin"]

  /** `isValidRole`. */
  predicate IsValidRole(role: string)
  {
    role in ValidRoles
  }

  /** The list holds exactly the names of the four roles, and each name denotes one role. */
  lemma RolesAreTheSchemaRoles(s: string)
    ensures IsValidRole(s) <==> exists r :: RoleName(r) == s
    ensures forall r1, r2 :: RoleName(r1) == RoleName(r2) ==> r1 == r2
  {
    if IsValidRole(s) {
      assert s == RoleName(Student) || s == RoleName(Teacher) || s == RoleName(Parent) || s == RoleName(Admin);
    }
  }

  const ValidQuestionTypes: seq<string> := ["multiple-choice", "true-false", "fill-blanks", "essay", "matching", "ordering"]

  /** `isValidQuestionType`. */
  predicate IsValidQuestionType(t: string)
  {
    t in ValidQuestionTypes
  }

  /** The validator accepts exactly the types the evaluator recognises: any other type scores as wrong. */
  lemma QuestionTypesMatchEvaluator(t: string)
    ensures IsValidQuestionType(t) <==> !ParseQuestionType(t).Unrecognised?
  {
  }

  /** The difficulty levels of the question and exam schemas. */
  datatype Difficulty = Easy | Medium | Hard

  function DifficultyName(d: Difficulty): string
  {
    match d
    case Easy => "easy"
    case Medium => "medium"
    case Hard => "hard"
  }

  const ValidDifficulties: seq<string> := ["easy", "medium", "hard"]

  /** `isValidDifficulty`. */
  predicate IsValidDifficulty(d: string)
  {
    d in ValidDifficulties
  }

  /** The list holds exactly the names of the three levels. */
  lemma DifficultiesAreTheSchemaLevels(s: string)
    ensures IsValidDifficulty(s) <==> exists d :: DifficultyName(d) == s
  {
    if IsValidDifficulty(s) {
      assert s == DifficultyName(Easy) || s == DifficultyName(Medium) || s == DifficultyName(Hard);
    }
  }

  /**
   * `isValidExamSchedule` at instant `now`: the start lies strictly before
   * the end and strictly after now. `None` is a date that does not parse,
   * whose comparisons are all false.
   */
  predicate IsValidExamSchedule(start: Option<Millis>, end: Option<Millis>, now: Millis)
  {
    start.Some? && end.Some? && start.value < end.value && start.value > now
  }

  /**
   * An exam scheduled by a valid schedule is upcoming and closed to every
   * student at the instant it is checked, ongoing from its first to its
   * last instant, and completed only after that.
   */
  lemma ValidScheduleLifecycle(e: Exam, now: Millis, student: Id)
    requires IsValidExamSchedule(Some(e.startDate), Some(e.endDate), now)
    ensures e.Status(now) == Upcoming && !e.IsAvailableForStudent(student, now)
    ensures e.Status(e.startDate) == Ongoing && e.Status(e.endDate) == Ongoing
    ensures forall t :: now <= t <= e.endDate ==> e.Status(t) != Completed
  {
  }
}
