/** The report service: skill levels on a numeric scale, the required and the
    user level of every skill a job asks for, and the test score bucketed by
    difficulty and by question type. */
module Report {
  import opened Wrappers
  import opened PyStr
  import opened PyDict
  import opened JsonValue

  /** The text labels of the level scale and their numbers. */
  const LEVEL_MAP: Dict<string, int> :=
    [("Not Provided", 0), ("Basic", 1), ("Intermediate", 2), ("Advanced", 3)]

  /** The scale runs from "Not Provided" (0) to "Advanced" (3), one step per label. */
  lemma LevelMapIncreasing()
    ensures DistinctKeys(LEVEL_MAP)
    ensures forall i, j :: 0 <= i < j < |LEVEL_MAP| ==> LEVEL_MAP[i].1 < LEVEL_MAP[j].1
    ensures forall i :: 0 <= i < |LEVEL_MAP| ==> LEVEL_MAP[i].1 == i
  {
  }

  /** `LEVEL_MAP.get(label, 0)` */
  function LevelOfLabel(name: string): (r: int)
    ensures 0 <= r <= 3
    ensures Get(LEVEL_MAP, name).Some? ==> r == Get(LEVEL_MAP, name).value
    ensures Get(LEVEL_MAP, name).None? ==> r == 0
  {
    Get(LEVEL_MAP, name).GetOr(0)
  }

  /** A stored level on the numeric scale. A number (a bool counts as one) is
      kept as it is, `None` is 0, and anything else is written out as text,
      stripped and looked up, with 0 for an unknown label. A list or a dict
      is written out starting with `[` or `{`, which no label does. */
  function NormalizeLevel(level: Json): (r: real)
    ensures level.JNum? ==> r == level.n
    ensures level.JNull? ==> r == 0.0
    ensures level.JStr? ==> r == LevelOfLabel(Strip(level.s)) as real
    ensures !level.JNum? ==> 0.0 <= r <= 3.0
  {
    match level
    case JNum(n) => n
    case JBool(b) => if b then 1.0 else 0.0
    case JNull => 0.0
    case JStr(s) => LevelOfLabel(Strip(s)) as real
    case JArr(_) => 0.0
    case JObj(_) => 0.0
  }

  /** A label keeps its level whatever whitespace surrounds it. */
  lemma PaddedLabel(w1: string, i: nat, w2: string)
    requires AllSpace(w1) && AllSpace(w2) && i < |LEVEL_MAP|
    ensures NormalizeLevel(JStr(w1 + LEVEL_MAP[i].0 + w2)) == LEVEL_MAP[i].1 as real
  {
    var name := LEVEL_MAP[i].0;
    assert Trimmed(name);
    StripPadded(w1, name, w2);
    LevelMapIncreasing();
    GetAt(LEVEL_MAP, i);
  }

  /** `d.get(k)`, with `None` written as `JNull`. */
  function JGet<K(==)>(d: Dict<K, Json>, k: K): (r: Json)
    ensures k !in Keys(d) ==> r == JNull
  {
    Get(d, k).GetOr(JNull)
  }

  /** The required level of every skill of the job, in the job's key order. */
  function RequiredLevels(job: Dict<string, Json>): (r: seq<real>)
    ensures |r| == |job|
  {
    var skills := Keys(job);
    seq(|skills|, i requires 0 <= i < |skills| =>
      NormalizeLevel(Get(job, skills[i]).GetOr(JNum(0.0))))
  }

  /** Each required level is the normalized value stored under that skill. */
  lemma RequiredLevelsAt(job: Dict<string, Json>, i: nat)
    requires DistinctKeys(job) && i < |job|
    ensures RequiredLevels(job)[i] == NormalizeLevel(job[i].1)
  {
    GetAt(job, i);
  }

  /** The user's stored level for a skill: under its own name, else under its
      lower-case name, else under its title-case name, else 0; a falsy stored
      value counts as missing. */
  function UserLevel(user: Dict<string, Json>, skill: string): Json {
    Or(JGet(user, skill), Or(JGet(user, Lower(skill)), Or(JGet(user, Title(skill)), JNum(0.0))))
  }

  /** The order in which the spellings of a skill are tried. */
  lemma UserLevelLookup(user: Dict<string, Json>, skill: string)
    ensures Truthy(JGet(user, skill)) ==> UserLevel(user, skill) == JGet(user, skill)
    ensures !Truthy(JGet(user, skill)) && Truthy(JGet(user, Lower(skill)))
            ==> UserLevel(user, skill) == JGet(user, Lower(skill))
    ensures !Truthy(JGet(user, skill)) && !Truthy(JGet(user, Lower(skill)))
            && Truthy(JGet(user, Title(skill)))
            ==> UserLevel(user, skill) == JGet(user, Title(skill))
    ensures !Truthy(JGet(user, skill)) && !Truthy(JGet(user, Lower(skill)))
            && !Truthy(JGet(user, Title(skill)))
            ==> NormalizeLevel(UserLevel(user, skill)) == 0.0
  {
  }

  /** A skill the user has under no spelling scores 0. */
  lemma UnknownSkillScoresZero(user: Dict<string, Json>, skill: string)
    requires skill !in Keys(user) && Lower(skill) !in Keys(user) && Title(skill) !in Keys(user)
    ensures NormalizeLevel(UserLevel(user, skill)) == 0.0
  {
  }

  /** The user level of every skill of the job, aligned with `RequiredLevels`. */
  function UserLevels(user: Dict<string, Json>, job: Dict<string, Json>): (r: seq<real>)
    ensures |r| == |RequiredLevels(job)|
  {
    var skills := Keys(job);
    seq(|skills|, i requires 0 <= i < |skills| => NormalizeLevel(UserLevel(user, skills[i])))
  }

  /** The two level vectors are aligned: position `i` of each holds the job's
      `i`-th skill, its required level in one and the user's level in the other. */
  lemma UserLevelsAt(user: Dict<string, Json>, job: Dict<string, Json>, i: nat)
    requires DistinctKeys(job) && i < |job|
    ensures |UserLevels(user, job)| == |RequiredLevels(job)| == |job|
    ensures RequiredLevels(job)[i] == NormalizeLevel(job[i].1)
    ensures UserLevels(user, job)[i] == NormalizeLevel(UserLevel(user, job[i].0))
  {
    RequiredLevelsAt(job, i);
  }

  // ---------------------------------------------------------------------------
  // Test performance

  /** One stored follow-up answer. */
  datatype Answer = Answer(questionId: Json, selectedOption: Json)

  /** `{a["question_id"]: a["selected_option"] for a in answers}`: a later
      answer to the same question replaces an earlier one. */
  function AnswersMap(answers: seq<Answer>): (m: Dict<Json, Json>)
    ensures DistinctKeys(m)
  {
    if answers == [] then []
    else
      var n := |answers| - 1;
      var m := AnswersMap(answers[..n]);
      PutKeepsDistinct(m, answers[n].questionId, answers[n].selectedOption);
      Put(m, answers[n].questionId, answers[n].selectedOption)
  }

  /** The option of the last answer to question `qid`, if any. */
  function LastAnswer(answers: seq<Answer>, qid: Json): Option<Json> {
    if answers == [] then None
    else if answers[|answers| - 1].questionId == qid then Some(answers[|answers| - 1].selectedOption)
    else LastAnswer(answers[..|answers| - 1], qid)
  }

  /** Looking a question up in the answers map finds its last answer. */
  lemma {:induction false} AnswersMapLookup(answers: seq<Answer>, qid: Json)
    ensures Get(AnswersMap(answers), qid) == LastAnswer(answers, qid)
  {
    if answers != [] {
      AnswersMapLookup(answers[..|answers| - 1], qid);
    }
  }

  /** A question as stored: a document of named fields. */
  type Question = Dict<string, Json>

  /** `q.get("id") or q.get("question_id")` */
  function QuestionId(q: Question): (id: Json)
    ensures Truthy(JGet(q, "id")) ==> id == JGet(q, "id")
    ensures !Truthy(JGet(q, "id")) ==> id == JGet(q, "question_id")
  {
    Or(JGet(q, "id"), JGet(q, "question_id"))
  }

  /** `q.get(field, "Unknown")`: the bucket a question is counted in. */
  function BucketOf(q: Question, field: string): (r: Json)
    ensures field !in Keys(q) ==> r == JStr("Unknown")
    ensures field in Keys(q) ==> r == Get(q, field).value
  {
    Get(q, field).GetOr(JStr("Unknown"))
  }

  /** The letter a selected option stands for: its first non-space character,
      upper-cased; a blank option has none, and indexing it raises. */
  function Choice(selected: string): (r: Result<string>)
    ensures r.Err? <==> Strip(selected) == []
    ensures r.Ok? ==> exists a :: 0 <= a < |selected| && AllSpace(selected[..a])
                               && !IsSpace(selected[a]) && r.value == [UpperChar(selected[a])]
  {
    StripInfix(selected);
    var s := Strip(selected);
    if s == [] then Err("IndexError") else Ok(Upper([s[0]]))
  }

  /** Whether a question was answered correctly, given the selected option
      stored for it and its correct answer, or the exception raised on the way.
      An unanswered question is never correct; an answered one is correct
      exactly when the upper-cased first non-space character of the option is
      the upper-cased answer. A truthy option that is not text, a blank one,
      or a correct answer that is not text raises. */
  function Judged(userAnswer: Json, correctAnswer: Json): (r: Result<bool>)
    ensures !Truthy(userAnswer) && correctAnswer.JStr? ==> r == Ok(false)
    ensures Truthy(userAnswer) && !userAnswer.JStr? ==> r == Err("AttributeError")
    ensures userAnswer.JStr? && userAnswer.s != [] && Strip(userAnswer.s) == [] ==> r == Err("IndexError")
    ensures !correctAnswer.JStr? ==> r.Err?
    ensures r == Ok(true) ==> userAnswer.JStr? && Choice(userAnswer.s) == Ok(Upper(correctAnswer.s))
    ensures userAnswer.JStr? && correctAnswer.JStr? && Choice(userAnswer.s) == Ok(Upper(correctAnswer.s))
            ==> r == Ok(true)
    ensures r.Err? <==> (Truthy(userAnswer) && !userAnswer.JStr?)
                        || (userAnswer.JStr? && userAnswer.s != [] && Strip(userAnswer.s) == [])
                        || !correctAnswer.JStr?
  {
    var choice: Result<Option<string>> :=
      if !Truthy(userAnswer) then Ok(None)
      else if !userAnswer.JStr? then Err("AttributeError")
      else match Choice(userAnswer.s)
        case Err(e) => Err(e)
        case Ok(c) => Ok(Some(c));
    if choice.Err? then Err(choice.error)
    else if !correctAnswer.JStr? then Err("AttributeError")
    else Ok(choice.value == Some(Upper(correctAnswer.s)))
  }

  /** Scoring one question: its option is looked up under
      `q.get("id") or q.get("question_id")`. */
  function Judge(q: Question, answers: Dict<Json, Json>): (r: Result<bool>)
    ensures var selected := JGet(answers, QuestionId(q)); var correct := JGet(q, "answer");
            r == Ok(true) <==> selected.JStr? && correct.JStr? && Choice(selected.s) == Ok(Upper(correct.s))
  {
    Judged(JGet(answers, QuestionId(q)), JGet(q, "answer"))
  }

  /** The count of one bucket. */
  datatype Tally = Tally(correct: nat, total: nat)

  type Buckets = Dict<Json, Tally>

  /** `b.setdefault(key, {"correct": 0, "total": 0})`, then one more question
      in that bucket, and one more correct one when it was answered correctly. */
  function Count(b: Buckets, key: Json, isCorrect: bool): Buckets {
    Put(b, key, Counted(Get(b, key).GetOr(Tally(0, 0)), isCorrect))
  }

  /** A tally with one more question, and one more correct one if `isCorrect`. */
  function Counted(t: Tally, isCorrect: bool): (r: Tally)
    ensures r.total == t.total + 1
    ensures r.correct == t.correct + (if isCorrect then 1 else 0)
  {
    Tally(t.correct + (if isCorrect then 1 else 0), t.total + 1)
  }

  /** The tallies by difficulty and by question type after scoring every
      question, or the first exception raised. */
  function Tallies(questions: seq<Question>, answers: Dict<Json, Json>): Result<(Buckets, Buckets)> {
    if questions == [] then Ok(([], []))
    else
      var n := |questions| - 1;
      var q := questions[n];
      match Tallies(questions[..n], answers)
      case Err(e) => Err(e)
      case Ok((byDifficulty, byType)) =>
        match Judge(q, answers)
        case Err(e) => Err(e)
        case Ok(c) =>
          Ok((Count(byDifficulty, BucketOf(q, "difficulty"), c),
              Count(byType, BucketOf(q, "question_type"), c)))
  }

  /** The scoring succeeds exactly when no question raises. */
  lemma {:induction false} TalliesOkIff(questions: seq<Question>, answers: Dict<Json, Json>)
    ensures Tallies(questions, answers).Ok? <==> forall i :: 0 <= i < |questions| ==> Judge(questions[i], answers).Ok?
  {
    if questions != [] {
      var n := |questions| - 1;
      var earlier := questions[..n];
      TalliesOkIff(earlier, answers);
      assert Tallies(questions, answers).Ok?
             <==> Tallies(earlier, answers).Ok? && Judge(questions[n], answers).Ok?;
      if Tallies(questions, answers).Ok? {
        forall i | 0 <= i < |questions| ensures Judge(questions[i], answers).Ok? {
          if i < n {
            assert earlier[i] == questions[i];
            assert Judge(earlier[i], answers).Ok?;
          } else {
            assert i == n;
          }
        }
      } else if Judge(questions[n], answers).Ok? {
        var i :| 0 <= i < n && !Judge(earlier[i], answers).Ok?;
        assert earlier[i] == questions[i];
      }
    }
  }

  function SumTotal(b: Buckets): nat {
    if b == [] then 0 else SumTotal(b[..|b| - 1]) + b[|b| - 1].1.total
  }

  function SumCorrect(b: Buckets): nat {
    if b == [] then 0 else SumCorrect(b[..|b| - 1]) + b[|b| - 1].1.correct
  }

  /** Every bucket occurs once and never has more correct answers than questions. */
  predicate Consistent(b: Buckets) {
    DistinctKeys(b) && forall i :: 0 <= i < |b| ==> b[i].1.correct <= b[i].1.total
  }

  /** The number of questions scored correct. */
  function CorrectCount(questions: seq<Question>, answers: Dict<Json, Json>): nat {
    if questions == [] then 0
    else
      var n := |questions| - 1;
      CorrectCount(questions[..n], answers)
        + (if Judge(questions[n], answers) == Ok(true) then 1 else 0)
  }

  /** The number of questions whose `field` puts them in bucket `key`. */
  function InBucket(questions: seq<Question>, field: string, key: Json): nat {
    if questions == [] then 0
    else
      var n := |questions| - 1;
      InBucket(questions[..n], field, key) + (if BucketOf(questions[n], field) == key then 1 else 0)
  }

  /** The number of questions in bucket `key` that were answered correctly. */
  function CorrectInBucket(questions: seq<Question>, answers: Dict<Json, Json>, field: string, key: Json): nat {
    if questions == [] then 0
    else
      var n := |questions| - 1;
      CorrectInBucket(questions[..n], answers, field, key)
        + (if BucketOf(questions[n], field) == key && Judge(questions[n], answers) == Ok(true) then 1 else 0)
  }

  lemma {:induction false} SumsOfSnoc(b: Buckets, x: (Json, Tally))
    ensures SumTotal(b + [x]) == SumTotal(b) + x.1.total
    ensures SumCorrect(b + [x]) == SumCorrect(b) + x.1.correct
  {
    assert (b + [x])[..|b|] == b;
  }

  lemma {:induction false} SumsOfUpdate(b: Buckets, j: nat, x: (Json, Tally))
    requires j < |b|
    ensures SumTotal(b[j := x]) + b[j].1.total == SumTotal(b) + x.1.total
    ensures SumCorrect(b[j := x]) + b[j].1.correct == SumCorrect(b) + x.1.correct
  {
    var n := |b| - 1;
    if j < n {
      assert b[j := x][..n] == b[..n][j := x];
      SumsOfUpdate(b[..n], j, x);
    } else {
      assert b[j := x][..n] == b[..n];
    }
  }

  /** Counting a question in a bucket that exists bumps that bucket in place. */
  lemma CountExisting(b: Buckets, j: nat, isCorrect: bool)
    requires DistinctKeys(b) && j < |b|
    ensures Count(b, b[j].0, isCorrect) == b[j := (b[j].0, Counted(b[j].1, isCorrect))]
  {
    GetAt(b, j);
    PutExisting(b, j, Counted(b[j].1, isCorrect));
  }

  /** Counting a question in a new bucket appends that bucket. */
  lemma CountNew(b: Buckets, key: Json, isCorrect: bool)
    requires key !in Keys(b)
    ensures Count(b, key, isCorrect) == b + [(key, Counted(Tally(0, 0), isCorrect))]
  {
    PutNew(b, key, Counted(Tally(0, 0), isCorrect));
  }

  lemma ConsistentUpdate(b: Buckets, j: nat, x: (Json, Tally))
    requires Consistent(b) && j < |b| && x.0 == b[j].0 && x.1.correct <= x.1.total
    ensures Consistent(b[j := x])
  {
    assert forall i :: 0 <= i < |b| ==> b[j := x][i].0 == b[i].0;
  }

  lemma ConsistentSnoc(b: Buckets, x: (Json, Tally))
    requires Consistent(b) && x.0 !in Keys(b) && x.1.correct <= x.1.total
    ensures Consistent(b + [x])
  {
    forall i | 0 <= i < |b| ensures (b + [x])[i].0 != x.0 {
      assert Keys(b)[i] == b[i].0;
    }
  }

  /** Counting one question keeps the buckets consistent and adds one to the
      total, and one to the correct count when it was answered correctly. */
  lemma CountKeepsConsistent(b: Buckets, key: Json, isCorrect: bool)
    requires Consistent(b)
    ensures Consistent(Count(b, key, isCorrect))
    ensures SumTotal(Count(b, key, isCorrect)) == SumTotal(b) + 1
    ensures SumCorrect(Count(b, key, isCorrect)) == SumCorrect(b) + (if isCorrect then 1 else 0)
  {
    if key in Keys(b) {
      var j :| 0 <= j < |b| && Keys(b)[j] == key;
      var x := (key, Counted(b[j].1, isCorrect));
      CountExisting(b, j, isCorrect);
      SumsOfUpdate(b, j, x);
      ConsistentUpdate(b, j, x);
    } else {
      var x := (key, Counted(Tally(0, 0), isCorrect));
      CountNew(b, key, isCorrect);
      SumsOfSnoc(b, x);
      ConsistentSnoc(b, x);
    }
  }

  /** Scored without an exception, both bucketings are consistent, their
      totals add up to the number of questions and their correct counts to
      the number of correct answers. */
  lemma {:induction false} TalliesAddUp(questions: seq<Question>, answers: Dict<Json, Json>)
    requires Tallies(questions, answers).Ok?
    ensures var (byDifficulty, byType) := Tallies(questions, answers).value;
            && Consistent(byDifficulty) && Consistent(byType)
            && SumTotal(byDifficulty) == |questions| == SumTotal(byType)
            && SumCorrect(byDifficulty) == CorrectCount(questions, answers) == SumCorrect(byType)
  {
    if questions != [] {
      var n := |questions| - 1;
      var q := questions[n];
      TalliesAddUp(questions[..n], answers);
      var (d, t) := Tallies(questions[..n], answers).value;
      var c := Judge(q, answers).value;
      CountKeepsConsistent(d, BucketOf(q, "difficulty"), c);
      CountKeepsConsistent(t, BucketOf(q, "question_type"), c);
    }
  }

  /** Counting one question touches only its own bucket. */
  lemma CountAt(b: Buckets, bucket: Json, isCorrect: bool, key: Json)
    ensures Get(Count(b, bucket, isCorrect), key).GetOr(Tally(0, 0))
            == if bucket == key then Counted(Get(b, key).GetOr(Tally(0, 0)), isCorrect)
               else Get(b, key).GetOr(Tally(0, 0))
  {
  }

  /** The tallies of the questions before the last one, and how the last one
      extends them. */
  lemma TalliesStep(questions: seq<Question>, answers: Dict<Json, Json>)
    requires questions != [] && Tallies(questions, answers).Ok?
    ensures var n := |questions| - 1;
            var q := questions[n];
            Tallies(questions[..n], answers).Ok? && Judge(q, answers).Ok?
            && Tallies(questions, answers).value
               == (Count(Tallies(questions[..n], answers).value.0, BucketOf(q, "difficulty"), Judge(q, answers).value),
                   Count(Tallies(questions[..n], answers).value.1, BucketOf(q, "question_type"), Judge(q, answers).value))
  {
  }

  /** The total of a bucket is the number of questions that fall in it: a
      question without the field falls in "Unknown". */
  lemma {:induction false} BucketTotals(questions: seq<Question>, answers: Dict<Json, Json>, key: Json)
    requires Tallies(questions, answers).Ok?
    ensures Get(Tallies(questions, answers).value.0, key).GetOr(Tally(0, 0)).total
            == InBucket(questions, "difficulty", key)
    ensures Get(Tallies(questions, answers).value.1, key).GetOr(Tally(0, 0)).total
            == InBucket(questions, "question_type", key)
  {
    if questions != [] {
      var n := |questions| - 1;
      var q := questions[n];
      BucketTotals(questions[..n], answers, key);
      TalliesStep(questions, answers);
      CountAt(Tallies(questions[..n], answers).value.0, BucketOf(q, "difficulty"), Judge(q, answers).value, key);
      CountAt(Tallies(questions[..n], answers).value.1, BucketOf(q, "question_type"), Judge(q, answers).value, key);
    }
  }

  /** The correct count of a bucket is the number of its questions that were
      answered correctly. */
  lemma {:induction false} BucketCorrects(questions: seq<Question>, answers: Dict<Json, Json>, key: Json)
    requires Tallies(questions, answers).Ok?
    ensures Get(Tallies(questions, answers).value.0, key).GetOr(Tally(0, 0)).correct
            == CorrectInBucket(questions, answers, "difficulty", key)
    ensures Get(Tallies(questions, answers).value.1, key).GetOr(Tally(0, 0)).correct
            == CorrectInBucket(questions, answers, "question_type", key)
  {
    if questions != [] {
      var n := |questions| - 1;
      var q := questions[n];
      BucketCorrects(questions[..n], answers, key);
      TalliesStep(questions, answers);
      CountAt(Tallies(questions[..n], answers).value.0, BucketOf(q, "difficulty"), Judge(q, answers).value, key);
      CountAt(Tallies(questions[..n], answers).value.1, BucketOf(q, "question_type"), Judge(q, answers).value, key);
    }
  }

  /** Python's `correct / total * 100`, or 0 for an empty bucket. */
  function Accuracy(t: Tally): (r: real)
    ensures t.correct <= t.total ==> 0.0 <= r <= 100.0
    ensures t.total > 0 && t.correct == t.total ==> r == 100.0
    ensures t.correct == 0 ==> r == 0.0
  {
    if t.total > 0 then (t.correct as real / t.total as real) * 100.0 else 0.0
  }

  function Accuracies(b: Buckets): (r: Dict<Json, real>)
    ensures Keys(r) == Keys(b)
    ensures |r| == |b| && forall i :: 0 <= i < |b| ==> r[i] == (b[i].0, Accuracy(b[i].1))
  {
    seq(|b|, i requires 0 <= i < |b| => (b[i].0, Accuracy(b[i].1)))
  }

  /** The accuracy per difficulty and per question type. */
  datatype Performance = Performance(byDifficulty: Dict<Json, real>, byType: Dict<Json, real>)

  /** The score of a test: the answers are mapped by question, then every
      question is counted in its difficulty and type buckets, and each
      bucket's accuracy is reported. */
  method CalculateTestPerformance(questions: seq<Question>, answers: seq<Answer>)
    returns (r: Result<Performance>)
    ensures r.Err? <==> Tallies(questions, AnswersMap(answers)).Err?
    ensures r.Ok? ==> var (byDifficulty, byType) := Tallies(questions, AnswersMap(answers)).value;
                      r.value == Performance(Accuracies(byDifficulty), Accuracies(byType))
  {
    var answersMap := AnswersMap(answers);
    var byDifficulty: Buckets := [];
    var byType: Buckets := [];
    var i := 0;
    while i < |questions|
      invariant 0 <= i <= |questions|
      invariant Tallies(questions[..i], answersMap) == Ok((byDifficulty, byType))
    {
      var q := questions[i];
      assert questions[..i + 1][..i] == questions[..i];
      var judged := Judge(q, answersMap);
      if judged.Err? {
        TalliesErrStays(questions, answersMap, i + 1);
        return Err(judged.error);
      }
      byDifficulty := Count(byDifficulty, BucketOf(q, "difficulty"), judged.value);
      byType := Count(byType, BucketOf(q, "question_type"), judged.value);
      i := i + 1;
    }
    assert questions[..i] == questions;
    r := Ok(Performance(Accuracies(byDifficulty), Accuracies(byType)));
  }

  /** Once a question raises, scoring the rest changes nothing. */
  lemma {:induction false} TalliesErrStays(questions: seq<Question>, answers: Dict<Json, Json>, k: nat)
    requires k <= |questions| && Tallies(questions[..k], answers).Err?
    ensures Tallies(questions, answers) == Tallies(questions[..k], answers)
    decreases |questions| - k
  {
    if k < |questions| {
      assert questions[..k + 1][..k] == questions[..k];
      TalliesErrStays(questions, answers, k + 1);
    } else {
      assert questions[..k] == questions;
    }
  }
}
