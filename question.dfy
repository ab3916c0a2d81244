/**
 * The question evaluator of models/Question.js: `validateAnswer` decides
 * whether a candidate's answer is right for each question type, and
 * `calculateMarks` turns that verdict into marks.
 */
module QuestionModel {
  import opened Common
  import opened Text

  /** The question types of the schema; any other stored string is `Unrecognised`. */
  datatype QuestionType =
    | MultipleChoice | TrueFalse | FillBlanks | Essay | Matching | Ordering
    | Unrecognised(name: string)

  const KnownTypeNames: seq<string> :=
    ["multiple-choice", "true-false", "fill-blanks", "essay", "matching", "ordering"]

  function TypeName(t: QuestionType): string
  {
    match t
    case MultipleChoice => "multiple-choice"
    case TrueFalse => "true-false"
    case FillBlanks => "fill-blanks"
    case Essay => "essay"
    case Matching => "matching"
    case Ordering => "ordering"
    case Unrecognised(n) => n
  }

  /** The `type` string of a stored question, read as a question type. */
  function ParseQuestionType(s: string): (t: QuestionType)
    ensures TypeName(t) == s
    ensures t.Unrecognised? <==> s !in KnownTypeNames
  {
    if s == "multiple-choice" then MultipleChoice
    else if s == "true-false" then TrueFalse
    else if s == "fill-blanks" then FillBlanks
    else if s == "essay" then Essay
    else if s == "matching" then Matching
    else if s == "ordering" then Ordering
    else Unrecognised(s)
  }

  /**
   * The shapes a stored key (`correctAnswer`) or a submitted answer takes: a
   * string, an array of strings, a boolean (true-false keys are often
   * stored as booleans) or a whole number.
   */
  datatype AnswerValue = Text(s: string) | Items(items: seq<string>) | Flag(b: bool) | Whole(n: int)

  /** `String(v)`: arrays are joined with commas, booleans spelled out. */
  function JsString(v: AnswerValue): string
  {
    match v
    case Text(s) => s
    case Items(xs) => Join(xs, ",")
    case Flag(b) => if b then "true" else "false"
    case Whole(n) => Decimal(n)
  }

  /**
   * `v[i]` as a string, for the fill-blanks comparison: an array element, or
   * the i-th character of a string; `None` stands for `undefined`.
   */
  function ElementAt(v: AnswerValue, i: nat): Option<string>
  {
    match v
    case Items(xs) => if i < |xs| then Some(xs[i]) else None
    case Text(s) => if i < |s| then Some([s[i]]) else None
    case Flag(_) => None
    case Whole(_) => None
  }

  /** The exception `validateAnswer` can raise: a method called on a value that lacks it. */
  datatype EvalError = TypeError

  datatype Question = Question(
    qtype: QuestionType,
    marks: int,
    negativeMarks: int,
    correctAnswer: AnswerValue,
    totalAttempts: int,
    correctAttempts: int)

  /** A question as the schema creates it: 1 mark, no negative marking, no attempts yet. */
  function NewQuestion(t: QuestionType, key: AnswerValue): (q: Question)
    ensures q.marks == 1 && q.negativeMarks == 0
    ensures q.totalAttempts == 0 && q.correctAttempts == 0
  {
    Question(t, 1, 0, key, 0, 0)
  }

  /** One blank of the key and one entry of the answer agree once both are normalised. */
  predicate SameBlank(k: string, u: string)
  {
    Normalize(k) == Normalize(u)
  }

  /**
   * `correctAnswer.every((a, i) => same(a, userAnswer[i]))`, from index `i`
   * on; the fill-blanks check passes `SameBlank` as `same`. It stops at the
   * first mismatch; reaching an index the user's answer does not have reads
   * `undefined`, and normalising `undefined` throws.
   */
  function FillBlanksFrom(key: seq<string>, user: AnswerValue, i: nat, same: (string, string) -> bool): (r: Result<Option<bool>, EvalError>)
    ensures r.Ok? ==> r.value.Some?
    decreases |key| - i
  {
    if i >= |key| then Ok(Some(true))
    else match ElementAt(user, i)
      case None => Err(TypeError)
      case Some(u) =>
        if same(key[i], u) then FillBlanksFrom(key, user, i + 1, same) else Ok(Some(false))
  }

  /**
   * `validateAnswer`: `Ok(Some(b))` is a verdict, `Ok(None)` is the `null`
   * of an essay (manual grading), `Err` an exception.
   */
  function ValidateAnswer(q: Question, answer: AnswerValue): (r: Result<Option<bool>, EvalError>)
    ensures r == Ok(None) <==> q.qtype == Essay
    ensures r.Err? ==> q.qtype == FillBlanks || q.qtype == Matching
    ensures q.qtype.Unrecognised? ==> r == Ok(Some(false))
  {
    match q.qtype
    case MultipleChoice => Ok(Some(Normalize(JsString(q.correctAnswer)) == Normalize(JsString(answer))))
    case TrueFalse => Ok(Some(Normalize(JsString(q.correctAnswer)) == Normalize(JsString(answer))))
    case FillBlanks =>
      (match q.correctAnswer
       case Items(key) => FillBlanksFrom(key, answer, 0, SameBlank)
       case Text(k) => if answer.Text? then Ok(Some(Normalize(k) == Normalize(answer.s))) else Err(TypeError)
       case Flag(_) => Err(TypeError)
       case Whole(_) => Err(TypeError))
    case Essay => Ok(None)
    case Matching =>
      if q.correctAnswer.Items? && answer.Items?
      then Ok(Some(SortStrings(q.correctAnswer.items) == SortStrings(answer.items)))
      else Err(TypeError)
    case Ordering => Ok(Some(q.correctAnswer == answer))
    case Unrecognised(_) => Ok(Some(false))
  }

  /**
   * `calculateMarks`: `marks` for a right answer, `-negativeMarks` for a wrong
   * one, nothing for an essay; it fails exactly when `validateAnswer` does.
   */
  function CalculateMarks(q: Question, answer: AnswerValue): (r: Result<Option<int>, EvalError>)
    ensures r.Err? <==> ValidateAnswer(q, answer).Err?
    ensures ValidateAnswer(q, answer) == Ok(None) <==> r == Ok(None)
    ensures ValidateAnswer(q, answer) == Ok(Some(true)) ==> r == Ok(Some(q.marks))
    ensures ValidateAnswer(q, answer) == Ok(Some(false)) ==> r == Ok(Some(-q.negativeMarks))
  {
    match ValidateAnswer(q, answer)
    case Err(e) => Err(e)
    case Ok(None) => Ok(None)
    case Ok(Some(correct)) => Ok(Some(if correct then q.marks else -q.negativeMarks))
  }

  /** The `successRate` virtual: the share of correct attempts, in percent. */
  function SuccessRate(q: Question): (r: real)
    ensures q.totalAttempts == 0 ==> r == 0.0
    ensures q.totalAttempts != 0 ==> r * (q.totalAttempts as real) == (q.correctAttempts as real) * 100.0
  {
    if q.totalAttempts == 0 then 0.0
    else (q.correctAttempts as real / q.totalAttempts as real) * 100.0
  }

  // ---------------------------------------------------------------------
  // Properties of the evaluator.

  /** With no more correct attempts than attempts, the success rate is a percentage. */
  lemma SuccessRateBounds(q: Question)
    requires 0 <= q.correctAttempts <= q.totalAttempts
    ensures 0.0 <= SuccessRate(q) <= 100.0
  {
    if q.totalAttempts != 0 {
      var t := q.totalAttempts as real;
      var r := SuccessRate(q);
      assert r * t == (q.correctAttempts as real) * 100.0;
      assert r * t <= t * 100.0;
    }
  }

  predicate IsChoice(q: Question)
  {
    q.qtype == MultipleChoice || q.qtype == TrueFalse
  }

  /** Choice questions never throw, and their verdict depends only on the canonical forms. */
  lemma ChoiceVerdict(q: Question, a: AnswerValue)
    requires IsChoice(q)
    ensures ValidateAnswer(q, a) == Ok(Some(Normalize(JsString(q.correctAnswer)) == Normalize(JsString(a))))
  {
  }

  /** Choice questions ignore the case of the answer ... */
  lemma ChoiceIgnoresCase(q: Question, s: string)
    requires IsChoice(q)
    ensures ValidateAnswer(q, Text(Lower(s))) == ValidateAnswer(q, Text(s))
  {
    NormalizeIgnoresCase(s);
  }

  /** ... and white space around it. */
  lemma ChoiceIgnoresPadding(q: Question, w1: string, s: string, w2: string)
    requires IsChoice(q) && AllWhitespace(w1) && AllWhitespace(w2)
    ensures ValidateAnswer(q, Text(w1 + s + w2)) == ValidateAnswer(q, Text(s))
  {
    NormalizeIgnoresPadding(w1, s, w2);
  }

  /** Submitting the stored key with padding and in lower case is a right answer. */
  lemma ChoiceAcceptsKey(q: Question, w1: string, w2: string)
    requires IsChoice(q) && q.correctAnswer.Text? && AllWhitespace(w1) && AllWhitespace(w2)
    ensures ValidateAnswer(q, Text(w1 + Lower(q.correctAnswer.s) + w2)) == Ok(Some(true))
  {
    NormalizeIgnoresPadding(w1, Lower(q.correctAnswer.s), w2);
    NormalizeIgnoresCase(q.correctAnswer.s);
  }

  predicate BlankMatches(key: seq<string>, user: seq<string>, i: int, same: (string, string) -> bool)
    requires 0 <= i < |key| && i < |user|
  {
    same(key[i], user[i])
  }

  /** Every blank from index `i` to `last` (exclusive) matches the user's entry. */
  predicate BlanksMatch(key: seq<string>, user: seq<string>, i: int, last: int, same: (string, string) -> bool)
    requires 0 <= i && last <= |key| && last <= |user|
  {
    forall j :: i <= j < last ==> BlankMatches(key, user, j, same)
  }

  /** One step of `every` over an array answer. */
  lemma FillBlanksStep(key: seq<string>, user: seq<string>, i: nat, same: (string, string) -> bool)
    requires i < |key| && i < |user|
    ensures FillBlanksFrom(key, Items(user), i, same)
         == if BlankMatches(key, user, i, same) then FillBlanksFrom(key, Items(user), i + 1, same) else Ok(Some(false))
  {
    assert ElementAt(Items(user), i) == Some(user[i]);
  }

  lemma {:induction false} FillBlanksLongFrom(key: seq<string>, user: seq<string>, i: nat, same: (string, string) -> bool)
    requires |user| >= |key| && i <= |key|
    ensures FillBlanksFrom(key, Items(user), i, same) == Ok(Some(BlanksMatch(key, user, i, |key|, same)))
    decreases |key| - i
  {
    if i < |key| {
      FillBlanksStep(key, user, i, same);
      FillBlanksLongFrom(key, user, i + 1, same);
      var rest := BlanksMatch(key, user, i + 1, |key|, same);
      assert FillBlanksFrom(key, Items(user), i + 1, same) == Ok(Some(rest));
      assert BlanksMatch(key, user, i, |key|, same) <==> BlankMatches(key, user, i, same) && rest;
      if BlankMatches(key, user, i, same) {
        assert FillBlanksFrom(key, Items(user), i, same) == Ok(Some(rest));
      } else {
        assert FillBlanksFrom(key, Items(user), i, same) == Ok(Some(false));
      }
    } else {
      assert FillBlanksFrom(key, Items(user), i, same) == Ok(Some(true));
    }
  }

  lemma {:induction false} FillBlanksShortFrom(key: seq<string>, user: seq<string>, i: nat, same: (string, string) -> bool)
    requires |user| < |key| && i <= |user|
    ensures FillBlanksFrom(key, Items(user), i, same).Err? <==> BlanksMatch(key, user, i, |user|, same)
    decreases |key| - i
  {
    if i < |user| {
      FillBlanksStep(key, user, i, same);
      FillBlanksShortFrom(key, user, i + 1, same);
      assert BlanksMatch(key, user, i, |user|, same) <==> BlankMatches(key, user, i, same) && BlanksMatch(key, user, i + 1, |user|, same);
    } else {
      assert ElementAt(Items(user), i) == None;
    }
  }

  lemma {:induction false} FillBlanksShortNeverRight(key: seq<string>, user: seq<string>, i: nat, same: (string, string) -> bool)
    requires |user| < |key| && i <= |user|
    ensures FillBlanksFrom(key, Items(user), i, same) != Ok(Some(true))
    decreases |key| - i
  {
    if i < |user| {
      FillBlanksStep(key, user, i, same);
      FillBlanksShortNeverRight(key, user, i + 1, same);
    } else {
      assert ElementAt(Items(user), i) == None;
    }
  }

  /**
   * Fill-blanks with an array key and a user array at least as long: right
   * iff every blank of the key matches the entry at its index after
   * normalisation; entries past the key's length are never looked at.
   */
  lemma FillBlanksLongAnswer(q: Question, user: seq<string>)
    requires q.qtype == FillBlanks && q.correctAnswer.Items? && |user| >= |q.correctAnswer.items|
    ensures ValidateAnswer(q, Items(user)) == Ok(Some(BlanksMatch(q.correctAnswer.items, user, 0, |q.correctAnswer.items|, SameBlank)))
  {
    FillBlanksLongFrom(q.correctAnswer.items, user, 0, SameBlank);
  }

  /** Extra trailing entries do not change the verdict. */
  lemma FillBlanksIgnoresExtra(q: Question, user: seq<string>, extra: seq<string>)
    requires q.qtype == FillBlanks && q.correctAnswer.Items? && |user| >= |q.correctAnswer.items|
    ensures ValidateAnswer(q, Items(user + extra)) == ValidateAnswer(q, Items(user))
  {
    var key := q.correctAnswer.items;
    FillBlanksLongAnswer(q, user);
    FillBlanksLongAnswer(q, user + extra);
    forall j | 0 <= j < |key| ensures BlankMatches(key, user + extra, j, SameBlank) == BlankMatches(key, user, j, SameBlank) {
      assert (user + extra)[j] == user[j];
    }
    assert BlanksMatch(key, user + extra, 0, |key|, SameBlank) == BlanksMatch(key, user, 0, |key|, SameBlank);
  }

  /**
   * A user array shorter than the key is never right: it throws when every
   * entry it has matches, and is wrong when one of them does not.
   */
  lemma FillBlanksShortAnswer(q: Question, user: seq<string>)
    requires q.qtype == FillBlanks && q.correctAnswer.Items? && |user| < |q.correctAnswer.items|
    ensures ValidateAnswer(q, Items(user)).Err? <==> BlanksMatch(q.correctAnswer.items, user, 0, |user|, SameBlank)
    ensures ValidateAnswer(q, Items(user)) != Ok(Some(true))
  {
    FillBlanksShortFrom(q.correctAnswer.items, user, 0, SameBlank);
    FillBlanksShortNeverRight(q.correctAnswer.items, user, 0, SameBlank);
  }

  /** Fill-blanks with a string key is one normalised comparison, and throws on a non-string answer. */
  lemma FillBlanksScalar(q: Question, a: AnswerValue)
    requires q.qtype == FillBlanks && q.correctAnswer.Text?
    ensures a.Text? ==> ValidateAnswer(q, a) == Ok(Some(Normalize(q.correctAnswer.s) == Normalize(a.s)))
    ensures !a.Text? ==> ValidateAnswer(q, a).Err?
  {
  }

  /**
   * A fill-blanks key that is neither a string nor an array, such as the
   * number 5, has no `toLowerCase`, so every answer to it throws.
   */
  lemma FillBlanksOtherKeyThrows(q: Question, a: AnswerValue)
    requires q.qtype == FillBlanks && (q.correctAnswer.Flag? || q.correctAnswer.Whole?)
    ensures ValidateAnswer(q, a).Err? && CalculateMarks(q, a).Err?
  {
  }

  /** A number answering an array key reads `undefined` at index 0 and throws. */
  lemma FillBlanksNumberAnswerThrows(q: Question, n: int)
    requires q.qtype == FillBlanks && q.correctAnswer.Items? && |q.correctAnswer.items| > 0
    ensures ValidateAnswer(q, Whole(n)) == Err(TypeError)
  {
  }

  /** A choice key stored as the number 5 accepts the string "5", padded: `String(5)` is "5". */
  lemma NumberChoiceKey(q: Question)
    requires IsChoice(q) && q.correctAnswer == Whole(5)
    ensures ValidateAnswer(q, Text(" 5 ")) == Ok(Some(true))
    ensures ValidateAnswer(q, Whole(5)) == Ok(Some(true))
  {
    assert JsString(Whole(5)) == "5";
    ChoiceIgnoresPadding(q, " ", "5", " ");
  }

  /** Essays are never judged: both the verdict and the marks are `null`. */
  lemma EssayPending(q: Question, a: AnswerValue)
    requires q.qtype == Essay
    ensures ValidateAnswer(q, a) == Ok(None) && CalculateMarks(q, a) == Ok(None)
  {
  }

  /**
   * Matching compares the two arrays after sorting both: right iff they hold
   * the same strings the same number of times, in whatever order.
   */
  lemma MatchingIsPermutationTest(q: Question, user: seq<string>)
    requires q.qtype == Matching && q.correctAnswer.Items?
    ensures ValidateAnswer(q, Items(user)) == Ok(Some(multiset(q.correctAnswer.items) == multiset(user)))
  {
    SortedEqualIffSameElements(q.correctAnswer.items, user);
  }

  /** Ordering is exact and order-sensitive: right iff the answer is the key itself. */
  lemma OrderingIsExact(q: Question, a: AnswerValue)
    requires q.qtype == Ordering
    ensures ValidateAnswer(q, a) == Ok(Some(true)) <==> a == q.correctAnswer
    ensures ValidateAnswer(q, a).Ok? && ValidateAnswer(q, a).value.Some?
  {
  }

  /** A stored type the evaluator does not know scores as a wrong answer. */
  lemma UnrecognisedIsWrong(q: Question, a: AnswerValue)
    requires q.qtype.Unrecognised?
    ensures ValidateAnswer(q, a) == Ok(Some(false))
    ensures CalculateMarks(q, a) == Ok(Some(-q.negativeMarks))
  {
  }

  /** Marks are only ever `marks`, `-negativeMarks` or the essay's `null`. */
  lemma MarksRange(q: Question, a: AnswerValue)
    ensures match CalculateMarks(q, a)
      case Ok(Some(m)) => m == q.marks || m == -q.negativeMarks
      case Ok(None) => q.qtype == Essay
      case Err(_) => q.qtype == FillBlanks || q.qtype == Matching
  {
  }
}
