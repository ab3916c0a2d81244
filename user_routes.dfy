/**
 * The rules of routes/users.js: reading a user's settings merged with the
 * defaults, updating one setting, resetting them all, the achievement
 * badges, linking a parent to a student, and the profile field whitelist.
 */
module UserRoutes {
  import opened Common
  import opened UserModel

  // ---------------------------------------------------------------------
  // GET /settings

  /** The `preferences` object of a stored tree, or `{}` when it has none. */
  function StoredPreferences(tree: SettingsTree): map<string, Json>
  {
    if "preferences" in tree then tree["preferences"] else map[]
  }

  /**
   * `{...defaults, ...settings, preferences: {...defaults.preferences,
   * ...(settings.preferences || {})}}`, or the defaults alone when the user
   * has no stored settings. Every category but `preferences` is taken whole
   * from the user when present, so a stored category hides every default key
   * of it; `preferences` alone is merged key by key.
   */
  function Merge(defaults: SettingsTree, stored: Option<SettingsTree>): (m: SettingsTree)
    requires "preferences" in defaults
    ensures stored.None? ==> m == defaults
    ensures stored.Some? ==> m.Keys == defaults.Keys + stored.value.Keys
    ensures stored.Some? ==> forall c :: c in stored.value && c != "preferences" ==> m[c] == stored.value[c]
    ensures forall c :: c in defaults && (stored.None? || c !in stored.value) ==> m[c] == defaults[c]
    ensures stored.Some? ==> forall k :: k in m["preferences"] <==> k in defaults["preferences"] || k in StoredPreferences(stored.value)
    ensures stored.Some? ==> forall k :: k in StoredPreferences(stored.value) ==> m["preferences"][k] == StoredPreferences(stored.value)[k]
    ensures stored.Some? ==> forall k :: k in defaults["preferences"] && k !in StoredPreferences(stored.value) ==>
              m["preferences"][k] == defaults["preferences"][k]
  {
    if stored.None? then defaults
    else defaults + stored.value + map["preferences" := defaults["preferences"] + StoredPreferences(stored.value)]
  }

  /** What `GET /settings` returns for a user whose stored tree is `stored`. */
  function MergedSettings(stored: Option<SettingsTree>): (m: SettingsTree)
    ensures stored.None? ==> m == DefaultSettings
    ensures stored.Some? ==> m.Keys == DefaultSettings.Keys + stored.value.Keys
    ensures "preferences" in m
  {
    Merge(DefaultSettings, stored)
  }

  /** Merging the defaults into themselves gives them back. */
  lemma MergeIdempotent(defaults: SettingsTree)
    requires "preferences" in defaults
    ensures Merge(defaults, Some(defaults)) == defaults
  {
    var m := Merge(defaults, Some(defaults));
    assert StoredPreferences(defaults) == defaults["preferences"];
    assert m.Keys == defaults.Keys;
    assert m["preferences"] == defaults["preferences"];
  }

  /**
   * Merging is idempotent: saving the merged tree a user was shown and
   * reading it back gives that same tree.
   */
  lemma MergeTwice(defaults: SettingsTree, stored: SettingsTree)
    requires "preferences" in defaults
    ensures Merge(defaults, Some(Merge(defaults, Some(stored)))) == Merge(defaults, Some(stored))
  {
    var once := Merge(defaults, Some(stored));
    var twice := Merge(defaults, Some(once));
    assert StoredPreferences(once) == once["preferences"];
    assert twice["preferences"] == once["preferences"];
    assert twice.Keys == once.Keys;
    forall c | c in once
      ensures twice[c] == once[c]
    {
    }
  }

  /** A user whose tree is the default tree reads back exactly the defaults. */
  lemma MergeOfDefaults()
    ensures MergedSettings(Some(DefaultSettings)) == DefaultSettings
  {
    MergeIdempotent(DefaultSettings);
  }

  // ---------------------------------------------------------------------
  // PUT /settings and POST /settings/reset

  const SettingFieldsRequired := Response(400, "Category, key, and value are required")
  const SettingUpdated := Response(200, "Setting updated successfully")
  const SettingsReset := Response(200, "Settings reset successfully")

  /** `settings[category][key] = value`, creating the category when it is missing. */
  function WithSetting(tree: SettingsTree, category: string, key: string, value: Json): (r: SettingsTree)
    ensures category in r && key in r[category] && r[category][key] == value
    ensures r.Keys == tree.Keys + {category}
    ensures forall c :: c in tree && c != category ==> r[c] == tree[c]
    ensures category in tree ==> r[category].Keys == tree[category].Keys + {key}
    ensures category in tree ==> forall k :: k in tree[category] && k != key ==> r[category][k] == tree[category][k]
    ensures category !in tree ==> r[category] == map[key := value]
  {
    var current := if category in tree then tree[category] else map[];
    tree[category := current[key := value]]
  }

  /** Setting a key to the value it already holds changes nothing. */
  lemma WithSettingSameValue(tree: SettingsTree, category: string, key: string)
    requires category in tree && key in tree[category]
    ensures WithSetting(tree, category, key, tree[category][key]) == tree
  {
    var r := WithSetting(tree, category, key, tree[category][key]);
    assert r[category] == tree[category];
  }

  /** The last of two updates of the same key wins. */
  lemma WithSettingOverwrites(tree: SettingsTree, category: string, key: string, v1: Json, v2: Json)
    ensures WithSetting(WithSetting(tree, category, key, v1), category, key, v2) == WithSetting(tree, category, key, v2)
  {
    var a := WithSetting(WithSetting(tree, category, key, v1), category, key, v2);
    var b := WithSetting(tree, category, key, v2);
    assert a[category] == b[category];
  }

  /**
   * `PUT /settings`: `category` and `key` must be truthy and `value` given
   * (`None` is `undefined`; JSON `null` is a value).
   */
  method UpdateSetting(user: User, category: Option<string>, key: Option<string>, value: Option<Json>)
    returns (resp: Response)
    modifies user`settings
    ensures !Truthy(category) || !Truthy(key) || value.None? ==> resp == SettingFieldsRequired && user.settings == old(user.settings)
    ensures Truthy(category) && Truthy(key) && value.Some? ==>
              resp == SettingUpdated && user.settings == WithSetting(old(user.settings), category.value, key.value, value.value)
  {
    if !Truthy(category) || !Truthy(key) || value.None? {
      return SettingFieldsRequired;
    }
    var c, k := category.value, key.value;
    if c !in user.settings {
      user.settings := user.settings[c := map[]];
    }
    user.settings := user.settings[c := user.settings[c][k := value.value]];
    resp := SettingUpdated;
  }

  /** `POST /settings/reset`: the whole tree becomes the default literal. */
  method ResetSettings(user: User) returns (resp: Response)
    modifies user`settings
    ensures resp == SettingsReset && user.settings == DefaultSettings
  {
    user.settings := DefaultSettings;
    resp := SettingsReset;
  }

  /** After a reset, `GET /settings` reads back the same tree it shows a user who never saved any. */
  lemma ResetReadsAsDefaults()
    ensures MergedSettings(Some(DefaultSettings)) == MergedSettings(None)
  {
    MergeOfDefaults();
  }

  // ---------------------------------------------------------------------
  // GET /achievements

  /** The badges of the achievements list, in the order the route can push them. */
  datatype Badge = ExamTaker | HighAchiever | FirstSteps | PerfectScore
                 | Educator | ProlificCreator | ExperiencedTeacher
                 | EngagedParent

  function Title(b: Badge): string
  {
    match b
    case ExamTaker => "Exam Taker"
    case HighAchiever => "High Achiever"
    case FirstSteps => "First Steps"
    case PerfectScore => "Perfect Score"
    case Educator => "Educator"
    case ProlificCreator => "Prolific Creator"
    case ExperiencedTeacher => "Experienced Teacher"
    case EngagedParent => "Engaged Parent"
  }

  /** The position of a badge in the route's push order. */
  function BadgeRank(b: Badge): nat
  {
    match b
    case ExamTaker => 0
    case HighAchiever => 1
    case FirstSteps => 2
    case PerfectScore => 3
    case Educator => 4
    case ProlificCreator => 5
    case ExperiencedTeacher => 6
    case EngagedParent => 7
  }

  /** Strictly increasing ranks: no badge twice, and in push order. */
  predicate InOrder(badges: seq<Badge>)
  {
    forall i, j :: 0 <= i < j < |badges| ==> BadgeRank(badges[i]) < BadgeRank(badges[j])
  }

  /** `if (earned) achievements.push(badge)`. */
  function PushIf(badges: seq<Badge>, earned: bool, badge: Badge): (r: seq<Badge>)
    ensures forall x :: x in r <==> x in badges || (earned && x == badge)
  {
    if earned then badges + [badge] else badges
  }

  /** Pushing a badge that ranks after every badge already listed keeps the list in order. */
  lemma PushIfInOrder(badges: seq<Badge>, earned: bool, badge: Badge)
    requires InOrder(badges)
    requires forall x :: x in badges ==> BadgeRank(x) < BadgeRank(badge)
    ensures InOrder(PushIf(badges, earned, badge))
    ensures forall x :: x in PushIf(badges, earned, badge) ==> BadgeRank(x) <= BadgeRank(badge)
  {
    if earned {
      var r := badges + [badge];
      forall i, j | 0 <= i < j < |r|
        ensures BadgeRank(r[i]) < BadgeRank(r[j])
      {
        if j == |badges| {
          assert r[i] in badges;
        }
      }
    }
  }

  /** How many scores reach `threshold`: the length of the `filter`. */
  function CountAtLeast(scores: seq<real>, threshold: real): (n: nat)
    ensures n <= |scores|
    ensures n > 0 <==> exists i :: 0 <= i < |scores| && scores[i] >= threshold
  {
    if |scores| == 0 then 0
    else CountAtLeast(scores[..|scores| - 1], threshold) + (if scores[|scores| - 1] >= threshold then 1 else 0)
  }

  /** How many scores are exactly `value`. */
  function CountEqual(scores: seq<real>, value: real): (n: nat)
    ensures n <= |scores|
    ensures n > 0 <==> value in scores
  {
    if |scores| == 0 then 0
    else CountEqual(scores[..|scores| - 1], value) + (if scores[|scores| - 1] == value then 1 else 0)
  }

  /**
   * The badges of a student, given the score read off each of their
   * submissions (every attempt, submitted or not).
   */
  function StudentBadges(scores: seq<real>): (b: seq<Badge>)
    ensures ExamTaker in b <==> |scores| >= 5
    ensures HighAchiever in b <==> CountAtLeast(scores, 90.0) >= 3
    ensures FirstSteps in b <==> |scores| >= 1
    ensures PerfectScore in b <==> 100.0 in scores
  {
    var b1 := PushIf([], |scores| >= 5, ExamTaker);
    var b2 := PushIf(b1, CountAtLeast(scores, 90.0) >= 3, HighAchiever);
    var b3 := PushIf(b2, |scores| >= 1, FirstSteps);
    PushIf(b3, CountEqual(scores, 100.0) >= 1, PerfectScore)
  }

  /** The badges of a teacher who has created `exams` exams. */
  function TeacherBadges(exams: nat): (b: seq<Badge>)
    ensures Educator in b <==> exams >= 1
    ensures ProlificCreator in b <==> exams >= 10
    ensures ExperiencedTeacher in b <==> exams >= 5
  {
    var b1 := PushIf([], exams >= 1, Educator);
    var b2 := PushIf(b1, exams >= 10, ProlificCreator);
    PushIf(b2, exams >= 5, ExperiencedTeacher)
  }

  /** The student badges come in the order the route pushes them, each at most once. */
  lemma StudentBadgesInOrder(scores: seq<real>)
    ensures InOrder(StudentBadges(scores))
  {
    var b1 := PushIf([], |scores| >= 5, ExamTaker);
    PushIfInOrder([], |scores| >= 5, ExamTaker);
    var b2 := PushIf(b1, CountAtLeast(scores, 90.0) >= 3, HighAchiever);
    PushIfInOrder(b1, CountAtLeast(scores, 90.0) >= 3, HighAchiever);
    var b3 := PushIf(b2, |scores| >= 1, FirstSteps);
    PushIfInOrder(b2, |scores| >= 1, FirstSteps);
    PushIfInOrder(b3, CountEqual(scores, 100.0) >= 1, PerfectScore);
  }

  /** The teacher badges come in the order the route pushes them, each at most once. */
  lemma TeacherBadgesInOrder(exams: nat)
    ensures InOrder(TeacherBadges(exams))
  {
    var b1 := PushIf([], exams >= 1, Educator);
    PushIfInOrder([], exams >= 1, Educator);
    var b2 := PushIf(b1, exams >= 10, ProlificCreator);
    PushIfInOrder(b1, exams >= 10, ProlificCreator);
    PushIfInOrder(b2, exams >= 5, ExperiencedTeacher);
  }

  /** A prolific creator is always an experienced teacher too, listed after it. */
  lemma ProlificIsExperienced(exams: nat)
    requires exams >= 10
    ensures TeacherBadges(exams) == [Educator, ProlificCreator, ExperiencedTeacher]
  {
  }

  /** The badges of a parent with `children` linked students. */
  function ParentBadges(children: nat): (b: seq<Badge>)
    ensures b == [EngagedParent] <==> children >= 1
    ensures b == [] <==> children == 0
  {
    if children >= 1 then [EngagedParent] else []
  }

  /** JavaScript's `totalScore || score || 0` over two possibly undefined numbers. */
  function ScoreOr(totalScore: Option<real>, score: Option<real>): (r: real)
    ensures totalScore.Some? && totalScore.value != 0.0 ==> r == totalScore.value
    ensures r != 0.0 ==> totalScore == Some(r) || score == Some(r)
  {
    if totalScore.Some? && totalScore.value != 0.0 then totalScore.value
    else if score.Some? && score.value != 0.0 then score.value
    else 0.0
  }

  /**
   * The score the route reads from a stored submission. The submission
   * schema has neither `totalScore` nor `score`, so both read as undefined
   * and what the submission scored is never looked at.
   */
  function ScoreAsWritten(percentage: real): (r: real)
    ensures r == 0.0
  {
    ScoreOr(None, None)
  }

  /** The student badges as the route computes them from the submissions' percentages. */
  function StudentBadgesAsWritten(percentages: seq<real>): seq<Badge>
  {
    StudentBadges(seq(|percentages|, i requires 0 <= i < |percentages| => ScoreAsWritten(percentages[i])))
  }

  /** As written, no student can ever be a High Achiever or get a Perfect Score. */
  lemma {:induction false} HighScoresNeverAwardedAsWritten(percentages: seq<real>)
    ensures HighAchiever !in StudentBadgesAsWritten(percentages)
    ensures PerfectScore !in StudentBadgesAsWritten(percentages)
  {
    var scores := seq(|percentages|, i requires 0 <= i < |percentages| => ScoreAsWritten(percentages[i]));
    assert forall i :: 0 <= i < |scores| ==> scores[i] == 0.0;
    assert 100.0 !in scores;
    NoneAtLeast(scores, 90.0);
  }

  lemma NoneAtLeast(scores: seq<real>, threshold: real)
    requires forall i :: 0 <= i < |scores| ==> scores[i] < threshold
    ensures CountAtLeast(scores, threshold) == 0
  {
  }

  /** Four submissions at 95, 95, 95 and 100 per cent: corrected, both badges; as written, neither. */
  lemma HighScoresExample()
    ensures HighAchiever in StudentBadges([95.0, 95.0, 95.0, 100.0])
    ensures PerfectScore in StudentBadges([95.0, 95.0, 95.0, 100.0])
    ensures HighAchiever !in StudentBadgesAsWritten([95.0, 95.0, 95.0, 100.0])
    ensures PerfectScore !in StudentBadgesAsWritten([95.0, 95.0, 95.0, 100.0])
  {
    var s := [95.0, 95.0, 95.0, 100.0];
    assert s[..3] == [95.0, 95.0, 95.0] && s[..3][..2] == [95.0, 95.0] && s[..3][..2][..1] == [95.0];
    assert [95.0][..0] == [];
    assert CountAtLeast([95.0], 90.0) == 1;
    assert CountAtLeast([95.0, 95.0], 90.0) == 2;
    assert CountAtLeast([95.0, 95.0, 95.0], 90.0) == 3;
    assert CountAtLeast(s, 90.0) == 4;
    assert s[3] == 100.0;
    HighScoresNeverAwardedAsWritten(s);
  }

  /**
   * `GET /achievements`, pushing badge by badge. A student is judged on the
   * score the route reads from each submission, which as written is always
   * 0; a teacher on the exams they created, a parent on their linked
   * children, and an admin gets an empty list.
   */
  method Achievements(role: Role, percentages: seq<real>, exams: nat, children: nat) returns (badges: seq<Badge>)
    ensures role == Student ==> badges == StudentBadgesAsWritten(percentages)
    ensures role == Student ==> HighAchiever !in badges && PerfectScore !in badges
    ensures role == Teacher ==> badges == TeacherBadges(exams)
    ensures role == Parent ==> badges == ParentBadges(children)
    ensures role == Admin ==> badges == []
  {
    badges := [];
    if role == Student {
      var scores := seq(|percentages|, i requires 0 <= i < |percentages| => ScoreAsWritten(percentages[i]));
      badges := StudentAchievements(scores);
      HighScoresNeverAwardedAsWritten(percentages);
    } else if role == Teacher {
      badges := TeacherAchievements(exams);
    } else if role == Parent {
      if children >= 1 { badges := badges + [EngagedParent]; }
    }
  }

  /** The student branch over the scores it is given: four tests, each pushing one badge. */
  method StudentAchievements(scores: seq<real>) returns (badges: seq<Badge>)
    ensures badges == StudentBadges(scores)
  {
    badges := [];
    if |scores| >= 5 { badges := badges + [ExamTaker]; }
    if CountAtLeast(scores, 90.0) >= 3 { badges := badges + [HighAchiever]; }
    if |scores| >= 1 { badges := badges + [FirstSteps]; }
    if CountEqual(scores, 100.0) >= 1 { badges := badges + [PerfectScore]; }
  }

  /** The teacher branch: three tests, each pushing one badge. */
  method TeacherAchievements(exams: nat) returns (badges: seq<Badge>)
    ensures badges == TeacherBadges(exams)
  {
    badges := [];
    if exams >= 1 { badges := badges + [Educator]; }
    if exams >= 10 { badges := badges + [ProlificCreator]; }
    if exams >= 5 { badges := badges + [ExperiencedTeacher]; }
  }

  // ---------------------------------------------------------------------
  // POST /link-parent

  const InvalidParent := Response(400, "Invalid parent")
  const InvalidStudent := Response(400, "Invalid student")
  const ParentLinked := Response(200, "Parent linked to student successfully")

  /** `if (!list.includes(x)) list.push(x)`. */
  function AddIfAbsent(xs: seq<Id>, x: Id): (r: seq<Id>)
    ensures Elements(r) == Elements(xs) + {x}
    ensures x in xs ==> r == xs
    ensures x !in xs ==> |r| == |xs| + 1 && r[..|xs|] == xs
    ensures NoDup(xs) ==> NoDup(r)
  {
    if x in xs then xs else xs + [x]
  }

  /** Linking the same pair twice leaves the children as the first link left them. */
  lemma AddIfAbsentIdempotent(xs: seq<Id>, x: Id)
    ensures AddIfAbsent(AddIfAbsent(xs, x), x) == AddIfAbsent(xs, x)
  {
  }

  /**
   * `POST /link-parent`, given the two users the ids resolve to: the
   * parent must be a parent and the student a student; the student joins
   * the parent's children unless already there, and its `parentId` is set.
   */
  method LinkParent(parent: User?, student: User?, parentId: Id, studentId: Id) returns (resp: Response)
    modifies (if parent == null then {} else {parent})`children, (if student == null then {} else {student})`parentId
    ensures parent == null || parent.role != Parent ==> resp == InvalidParent
    ensures parent != null && parent.role == Parent && (student == null || student.role != Student) ==> resp == InvalidStudent
    ensures resp == ParentLinked <==> parent != null && parent.role == Parent && student != null && student.role == Student
    ensures resp != ParentLinked && parent != null ==> parent.children == old(parent.children)
    ensures resp != ParentLinked && student != null ==> student.parentId == old(student.parentId)
    ensures resp == ParentLinked ==> parent.children == AddIfAbsent(old(parent.children), studentId)
    ensures resp == ParentLinked ==> student.parentId == Some(parentId)
  {
    if parent == null || parent.role != Parent {
      return InvalidParent;
    }
    if student == null || student.role != Student {
      return InvalidStudent;
    }
    if studentId !in parent.children {
      parent.children := parent.children + [studentId];
    }
    student.parentId := Some(parentId);
    resp := ParentLinked;
  }

  // ---------------------------------------------------------------------
  // PUT /profile

  const ProfileFields: seq<string> := ["firstName", "lastName", "phone", "dateOfBirth", "address"]
  const ProfileUpdated := Response(200, "Profile updated successfully")

  /**
   * The update document: every whitelisted field the body defines, plus
   * `avatar` set to the uploaded file's path when there is one.
   */
  function ProfileUpdate(body: map<string, Json>, file: Option<string>): (u: map<string, Json>)
    ensures forall f :: f in u <==> (f in ProfileFields && f in body) || (f == "avatar" && file.Some?)
    ensures forall f :: f in u && f in ProfileFields ==> u[f] == body[f]
    ensures file.Some? ==> u["avatar"] == Str(file.value)
  {
    (map f | f in ProfileFields && f in body :: body[f])
    + (if file.Some? then map["avatar" := Str(file.value)] else map[])
  }

  /** Fields outside the whitelist, `role` or `email` say, never reach the update. */
  lemma ProfileIgnoresOtherFields(body: map<string, Json>, file: Option<string>, f: string, v: Json)
    requires f !in ProfileFields && f != "avatar"
    ensures ProfileUpdate(body[f := v], file) == ProfileUpdate(body, file)
  {
    var a, b := ProfileUpdate(body[f := v], file), ProfileUpdate(body, file);
    assert a.Keys == b.Keys;
  }

  /** The `forEach` over the whitelist and the avatar step. */
  method BuildProfileUpdate(body: map<string, Json>, file: Option<string>) returns (update: map<string, Json>)
    ensures update == ProfileUpdate(body, file)
  {
    update := map[];
    for i := 0 to |ProfileFields|
      invariant forall f :: f in update <==> f in ProfileFields[..i] && f in body
      invariant forall f :: f in update ==> update[f] == body[f]
    {
      var field := ProfileFields[i];
      if field in body {
        update := update[field := body[field]];
      }
    }
    assert ProfileFields[..|ProfileFields|] == ProfileFields;
    if file.Some? {
      update := update["avatar" := Str(file.value)];
    }
    var spec := ProfileUpdate(body, file);
    assert update.Keys == spec.Keys;
  }
}
