/** The embedding service: readiness of the models and the job table, the
    follow-up scoring and language list of a user's data, and the ranking of
    jobs for a user, de-duplicated by title, with each kept job enriched by
    a language model or given placeholder values. The embedding model, the
    cosine similarity and the language model are inputs. */
module Embedding {
  import opened Wrappers
  import opened PyStr
  import opened PyDict
  import opened JsonValue
  import opened Distinct
  import opened CodeFence

  // ---------------------------------------------------------------------------
  // Options and follow-up answers

  predicate IsAsciiLetterUpper(c: char) { 'A' <= c <= 'Z' }

  /** `normalize_option`: an empty or missing option is "", otherwise the
      stripped, upper-cased text, cut down to its first character when that
      is a letter A-Z ("b. text" becomes "B"). */
  function NormalizeOption(opt: Option<string>): (r: string)
    ensures opt.None? || opt.value == [] ==> r == []
    ensures r == [] || IsAsciiLetterUpper(r[0]) ==> |r| <= 1
    ensures opt.Some? && Strip(opt.value) != [] && (IsAsciiLower(Strip(opt.value)[0]) || IsAsciiUpper(Strip(opt.value)[0]))
            ==> r == [UpperChar(Strip(opt.value)[0])]
    ensures opt.Some? && !(Strip(opt.value) != [] && IsAsciiLetterUpper(UpperChar(Strip(opt.value)[0])))
            ==> r == Upper(Strip(opt.value))
  {
    if opt.None? || opt.value == [] then []
    else
      var s := Upper(Strip(opt.value));
      if s != [] && IsAsciiLetterUpper(s[0]) then [s[0]] else s
  }

  /** Upper-casing keeps a trimmed text trimmed and is idempotent. */
  lemma UpperTrimmed(s: string)
    requires Trimmed(s)
    ensures Trimmed(Upper(s)) && Upper(Upper(s)) == Upper(s)
  {
  }

  /** Normalizing twice changes nothing. */
  lemma NormalizeOptionIdempotent(opt: Option<string>)
    ensures NormalizeOption(Some(NormalizeOption(opt))) == NormalizeOption(opt)
  {
    var r := NormalizeOption(opt);
    if r != [] {
      var t := Strip(opt.value);
      UpperTrimmed(t);
      assert Trimmed(r) && Upper(r) == r;
      StripTrimmed(r);
    }
  }

  /** A stored question: its text and its correct option, as far as present. */
  datatype GeneratedQuestion = GeneratedQuestion(questionText: Option<string>, answer: Option<string>)

  /** A follow-up answer: the question it answers and the option picked. */
  datatype FollowUp = FollowUp(questionId: int, selectedOption: Option<string>)

  /** `is_correct`: the question exists and its answer and the selection
      normalize to the same option. */
  function IsCorrect(question: Option<GeneratedQuestion>, selected: Option<string>): (r: bool)
    ensures question.None? ==> !r
    ensures r ==> NormalizeOption(question.value.answer) == NormalizeOption(selected)
    ensures question.Some? && NormalizeOption(question.value.answer) == NormalizeOption(selected) ==> r
  {
    question.Some? && NormalizeOption(question.value.answer) == NormalizeOption(selected)
  }

  /** An answer and a selection that start with the same letter, in any case and
      after any whitespace, are judged correct ("b" against " B. text"). */
  lemma SameLeadingLetterIsCorrect(q: GeneratedQuestion, selected: string)
    requires q.answer.Some?
    requires var a := Strip(q.answer.value); var s := Strip(selected);
             a != [] && s != [] && (IsAsciiLower(a[0]) || IsAsciiUpper(a[0]))
             && (IsAsciiLower(s[0]) || IsAsciiUpper(s[0])) && UpperChar(a[0]) == UpperChar(s[0])
    ensures IsCorrect(Some(q), Some(selected))
  {
  }

  /** One scored follow-up answer. */
  datatype FollowUpResult = FollowUpResult(
    questionId: int, questionText: Option<string>, selectedOption: Option<string>,
    correctAnswer: Option<string>, isCorrect: bool)

  /** The scored record of one follow-up answer, given the stored question it
      answers, if any. */
  function ResultOf(f: FollowUp, question: Option<GeneratedQuestion>): (r: FollowUpResult)
    ensures r.questionId == f.questionId && r.selectedOption == f.selectedOption
    ensures question.None? ==> r.questionText.None? && r.correctAnswer.None? && !r.isCorrect
    ensures question.Some? ==> r.questionText == question.value.questionText && r.correctAnswer == question.value.answer
    ensures r.isCorrect == IsCorrect(question, f.selectedOption)
  {
    FollowUpResult(f.questionId,
      if question.Some? then question.value.questionText else None,
      f.selectedOption,
      if question.Some? then question.value.answer else None,
      IsCorrect(question, f.selectedOption))
  }

  /** `[g(x) for x in xs]` */
  function MapSeq<A, B>(xs: seq<A>, g: A -> B): (ys: seq<B>)
    ensures |ys| == |xs|
  {
    if xs == [] then [] else MapSeq(xs[..|xs| - 1], g) + [g(xs[|xs| - 1])]
  }

  /** Item `i` of the mapped list is `g` of item `i`. */
  lemma {:induction false} MapSeqAt<A, B>(xs: seq<A>, g: A -> B, i: nat)
    requires i < |xs|
    ensures MapSeq(xs, g)[i] == g(xs[i])
  {
    var n := |xs| - 1;
    if i < n {
      MapSeqAt(xs[..n], g, i);
    }
  }

  /** Scoring one follow-up answer, its question looked up by id. */
  function ScoreWith(questionById: int -> Option<GeneratedQuestion>): FollowUp -> FollowUpResult {
    (f: FollowUp) => ResultOf(f, questionById(f.questionId))
  }

  /** The scoring loop of `get_user_embedding_data`: one record per follow-up
      answer, in order. */
  method ScoreFollowUps(followUps: seq<FollowUp>, questionById: int -> Option<GeneratedQuestion>)
    returns (results: seq<FollowUpResult>)
    ensures results == MapSeq(followUps, ScoreWith(questionById))
  {
    var score := ScoreWith(questionById);
    results := [];
    for i := 0 to |followUps|
      invariant results == MapSeq(followUps[..i], score)
    {
      assert followUps[..i + 1][..i] == followUps[..i];
      results := results + [score(followUps[i])];
    }
    assert followUps[..|followUps|] == followUps;
  }

  /** The strings as JSON values. */
  function JStrs(xs: seq<string>): (r: seq<Json>)
    ensures |r| == |xs| && forall i :: 0 <= i < |xs| ==> r[i] == JStr(xs[i])
  {
    seq(|xs|, i requires 0 <= i < |xs| => JStr(xs[i]))
  }

  lemma JStrsClean(langs: seq<string>)
    requires forall q :: q in langs ==> q != [] && Trimmed(q)
    ensures forall v :: v in JStrs(langs) ==> v.JStr? && v.s != [] && Trimmed(v.s)
  {
    forall v | v in JStrs(langs)
      ensures v.JStr? && v.s != [] && Trimmed(v.s)
    {
      var i :| 0 <= i < |langs| && JStrs(langs)[i] == v;
      assert langs[i] in langs;
    }
  }

  /** The text becomes its comma-separated pieces, each stripped; the pieces
      that are blank once stripped are dropped. */
  function CommaList(text: string): (r: seq<string>)
    ensures forall q :: q in r ==> q != [] && Trimmed(q)
    ensures forall p :: p in Split(text, ",") && Strip(p) != [] ==> Strip(p) in r
    ensures forall q :: q in r ==> exists p :: p in Split(text, ",") && Strip(p) == q
  {
    StrippedNonEmptyItems(Split(text, ","));
    StrippedNonEmpty(Split(text, ","))
  }

  /** A list of strings turned into JSON holds exactly those strings. */
  lemma JStrsMembers(xs: seq<string>)
    ensures forall v :: v in JStrs(xs) ==> v.JStr? && v.s in xs
    ensures forall x :: x in xs ==> JStr(x) in JStrs(xs)
  {
    forall v | v in JStrs(xs)
      ensures v.JStr? && v.s in xs
    {
      var i :| 0 <= i < |xs| && JStrs(xs)[i] == v;
    }
    forall x | x in xs
      ensures JStr(x) in JStrs(xs)
    {
      var i :| 0 <= i < |xs| && xs[i] == x;
      assert JStrs(xs)[i] == JStr(x);
    }
  }

  /** `programmingLanguages` as a list: text becomes its comma-separated,
      stripped, non-empty pieces; any other value is kept. */
  function ProgLangs(stored: Json): (r: Json)
    ensures !stored.JStr? ==> r == stored
    ensures stored.JStr? ==> r.JArr? && forall v :: v in r.items ==> v.JStr? && v.s != [] && Trimmed(v.s)
    ensures stored.JStr? ==> forall p :: p in Split(stored.s, ",") && Strip(p) != [] ==> JStr(Strip(p)) in r.items
    ensures stored.JStr? ==> forall v :: v in r.items ==> exists p :: p in Split(stored.s, ",") && v == JStr(Strip(p))
  {
    if stored.JStr? then
      var langs := CommaList(stored.s);
      JStrsClean(langs);
      JStrsMembers(langs);
      JArr(JStrs(langs))
    else stored
  }

  /** A list written out with commas is read back item by item. */
  lemma ProgLangsOfList(langs: seq<string>)
    requires |langs| >= 1
    requires forall p :: p in langs ==> p != [] && Trimmed(p) && ',' !in p
    ensures ProgLangs(JStr(Join(langs, ","))) == JArr(JStrs(langs))
  {
    assert CommaList(Join(langs, ",")) == StrippedNonEmpty(Split(Join(langs, ","), ","));
    SplitJoin(langs, ",");
    StrippedNonEmptyOfTrimmed(langs);
  }

  // ---------------------------------------------------------------------------
  // Parsing the enrichment replies

  /** The last position of `c` in `s`. */
  function LastIndex(s: string, c: char): (p: nat)
    requires c in s
    ensures p < |s| && s[p] == c && c !in s[p + 1..]
  {
    var n := |s| - 1;
    if s[n] == c then n
    else
      assert c in s[..n] by { assert s == s[..n] + [s[n]]; }
      var p := LastIndex(s[..n], c);
      assert s[p + 1..] == s[..n][p + 1..] + [s[n]];
      p
  }

  /** What `re.search(r'\{.*\}', text, re.DOTALL)` finds: from the first "{"
      to the last "}", when that "}" comes after that "{". */
  function BraceSpan(text: string): (r: Option<string>)
    ensures r.Some? ==> 2 <= |r.value| && r.value[0] == '{' && r.value[|r.value| - 1] == '}'
    ensures r.Some? ==> exists a :: (0 <= a <= |text| - |r.value| && r.value == text[a..a + |r.value|]
                                     && '{' !in text[..a] && '}' !in text[a + |r.value|..])
    ensures r.None? ==> forall i, j :: 0 <= i < j < |text| && text[i] == '{' ==> text[j] != '}'
  {
    if '{' in text && '}' in text then
      var a := FirstIndex(text, '{');
      var b := LastIndex(text, '}');
      if a < b then Some(text[a..b + 1]) else None
    else None
  }

  /** `parse_json_response`: the cleaned reply decoded as a dict; a reply that
      decodes to something else gives {}; one that does not decode is tried
      again on its brace span, and gives {} when that fails too. */
  function ParseJsonResponse(text: string, decode: string -> Option<Json>): (r: Json)
    ensures r.JObj?
    ensures r == JObj([]) || decode(StripJsonCodeblock(text)) == Some(r)
            || (BraceSpan(text).Some? && decode(BraceSpan(text).value) == Some(r))
    ensures var d := decode(StripJsonCodeblock(text));
            d.Some? ==> r == (if d.value.JObj? then d.value else JObj([]))
    ensures var d := decode(StripJsonCodeblock(text)); var span := BraceSpan(text);
            d.None? && span.Some? && decode(span.value).Some? && decode(span.value).value.JObj? ==>
              r == decode(span.value).value
    ensures var d := decode(StripJsonCodeblock(text)); var span := BraceSpan(text);
            d.None? && (span.None? || decode(span.value).None? || !decode(span.value).value.JObj?) ==>
              r == JObj([])
  {
    match decode(StripJsonCodeblock(text))
    case Some(v) => if v.JObj? then v else JObj([])
    case None =>
      match BraceSpan(text)
      case None => JObj([])
      case Some(span) =>
        match decode(span)
        case Some(v) => if v.JObj? then v else JObj([])
        case None => JObj([])
  }

  /** A dict reply wrapped in a "```json" fence is read as that dict. */
  lemma FencedDictParses(w1: string, body: string, w2: string, decode: string -> Option<Json>,
                         fields: seq<(string, Json)>)
    requires AllSpace(w1) && AllSpace(w2) && decode(Strip(body)) == Some(JObj(fields))
    ensures ParseJsonResponse(w1 + JSON_FENCE + body + FENCE + w2, decode) == JObj(fields)
  {
    JsonFencedRoundTrip(w1, body, w2);
  }

  /** A reply that decodes to something other than a dict gives {}, without
      the brace fallback. */
  lemma NonDictGivesEmpty(text: string, decode: string -> Option<Json>)
    requires decode(StripJsonCodeblock(text)).Some? && !decode(StripJsonCodeblock(text)).value.JObj?
    ensures ParseJsonResponse(text, decode) == JObj([])
  {
  }

  // ---------------------------------------------------------------------------
  // Enrichment of a kept job

  /** A job row: its named cells. */
  type Row = Dict<string, Json>

  /** `job.get("Title", "N/A")` */
  function Title(row: Row): (t: Json)
    ensures "Title" in Keys(row) ==> Get(row, "Title") == Some(t)
    ensures "Title" !in Keys(row) ==> t == JStr("N/A")
  {
    Get(row, "Title").GetOr(JStr("N/A"))
  }

  /** `job.get("Full Job Description", "N/A")` */
  function Description(row: Row): (d: Json)
    ensures "Full Job Description" in Keys(row) ==> Get(row, "Full Job Description") == Some(d)
    ensures "Full Job Description" !in Keys(row) ==> d == JStr("N/A")
  {
    Get(row, "Full Job Description").GetOr(JStr("N/A"))
  }

  /** The replies to the three language-model calls made for one job: the
      summary, the skills and the knowledge; `None` where the call raised. */
  datatype Calls = Calls(summary: Option<string>, skills: Option<string>, knowledge: Option<string>)

  /** What a kept job is reported with. */
  datatype Enriched = Enriched(description: Json, skills: Json, knowledge: Json)

  /** A one-item list standing in for requirements that were not extracted. */
  function Placeholder(note: string): (r: Json)
    ensures IsPlaceholder(r)
  {
    JArr([JStr(note)])
  }

  predicate IsPlaceholder(v: Json) {
    v.JArr? && |v.items| == 1 && v.items[0].JStr?
  }

  /** The description, skills and knowledge reported for a job. With the
      summary switched on and a description present, the model's summary
      replaces the description and the two replies are parsed as dicts; a
      failed reply gets its own placeholder, and a failed summary keeps the
      description and gives up on both. Otherwise placeholders say why. */
  function Enrich(description: Json, useSummary: bool, calls: Calls, decode: string -> Option<Json>)
    : (e: Enriched)
    ensures e.description == description || (calls.summary.Some? && e.description == JStr(calls.summary.value))
    ensures e.skills.JObj? || IsPlaceholder(e.skills)
    ensures e.knowledge.JObj? || IsPlaceholder(e.knowledge)
    ensures useSummary && description != JStr("N/A") && calls.summary.Some? ==>
              e.description == JStr(calls.summary.value)
              && (calls.skills.Some? ==> e.skills == ParseJsonResponse(calls.skills.value, decode))
              && (calls.skills.None? ==> e.skills == Placeholder("Error extracting skills"))
              && (calls.knowledge.Some? ==> e.knowledge == ParseJsonResponse(calls.knowledge.value, decode))
              && (calls.knowledge.None? ==> e.knowledge == Placeholder("Error extracting knowledge"))
  {
    if useSummary && description != JStr("N/A") then
      match calls.summary
      case None =>
        Enriched(description, Placeholder("Failed to extract skills"), Placeholder("Failed to extract knowledge"))
      case Some(summary) =>
        Enriched(JStr(summary),
          match calls.skills
            case None => Placeholder("Error extracting skills")
            case Some(reply) => ParseJsonResponse(reply, decode),
          match calls.knowledge
            case None => Placeholder("Error extracting knowledge")
            case Some(reply) => ParseJsonResponse(reply, decode))
    else if useSummary then
      Enriched(description, Placeholder("OpenAI extraction disabled"), Placeholder("OpenAI extraction disabled"))
    else
      Enriched(description, Placeholder("Enable OpenAI extraction for detailed skills"),
        Placeholder("Enable OpenAI extraction for detailed knowledge"))
  }

  /** The fallbacks, case by case: none of them depends on the parsed replies. */
  lemma EnrichFallbacks(description: Json, useSummary: bool, calls: Calls, decode: string -> Option<Json>)
    ensures !useSummary ==> (Enrich(description, useSummary, calls, decode)
              == Enriched(description, Placeholder("Enable OpenAI extraction for detailed skills"),
                          Placeholder("Enable OpenAI extraction for detailed knowledge")))
    ensures useSummary && description == JStr("N/A") ==> (Enrich(description, useSummary, calls, decode)
              == Enriched(description, Placeholder("OpenAI extraction disabled"),
                          Placeholder("OpenAI extraction disabled")))
    ensures useSummary && description != JStr("N/A") && calls.summary.None?
            ==> (Enrich(description, useSummary, calls, decode)
              == Enriched(description, Placeholder("Failed to extract skills"),
                          Placeholder("Failed to extract knowledge")))
    ensures useSummary && description != JStr("N/A") && calls.summary.Some? && calls.skills.None?
            ==> Enrich(description, useSummary, calls, decode).skills == Placeholder("Error extracting skills")
    ensures useSummary && description != JStr("N/A") && calls.summary.Some? && calls.knowledge.None?
            ==> Enrich(description, useSummary, calls, decode).knowledge == Placeholder("Error extracting knowledge")
  {
  }

  // ---------------------------------------------------------------------------
  // Ranking with title de-duplication

  /** At most this many jobs are reported. */
  const TOP_K: nat := 3

  function Min(a: nat, b: nat): nat {
    if a <= b then a else b
  }

  /** The positions of the ranking kept by the title de-duplication: those
      whose title was not seen earlier in the ranking, the first `topN` of them. */
  function KeptPositions(ts: seq<Json>, topN: nat): (ps: seq<nat>)
    ensures |ps| == Min(topN, |Dedup(ts)|)
    ensures forall j :: 0 <= j < |ps| ==> ps[j] < |ts| && ts[ps[j]] !in ts[..ps[j]]
    ensures forall i, j :: 0 <= i < j < |ps| ==> ps[i] < ps[j]
  {
    var fp := FirstPositions(ts);
    DedupAt(ts);
    var ps := fp[..Min(topN, |fp|)];
    forall j | 0 <= j < |ps| ensures ts[ps[j]] !in ts[..ps[j]] {
      assert ps[j] in fp;
      FirstPositionsAre(ts, ps[j]);
    }
    ps
  }

  /** The job indices the ranking keeps: for each of the first `topN` distinct
      titles met along `order`, the first index with that title. */
  function TopUnique(order: seq<nat>, titles: seq<Json>, topN: nat): (r: seq<nat>)
    requires forall k :: 0 <= k < |order| ==> order[k] < |titles|
    ensures |r| <= topN
    ensures forall j :: 0 <= j < |r| ==> r[j] in order
  {
    At(order, KeptPositions(At(titles, order), topN))
  }

  /** At most `topN` jobs are kept, exactly `topN` when there are that many
      distinct titles, and every distinct title otherwise. */
  lemma TopUniqueCount(order: seq<nat>, titles: seq<Json>, topN: nat)
    requires forall k :: 0 <= k < |order| ==> order[k] < |titles|
    ensures |TopUnique(order, titles, topN)| == Min(topN, |Dedup(At(titles, order))|)
  {
  }

  /** The kept jobs have pairwise different titles. */
  lemma TopUniqueDistinct(order: seq<nat>, titles: seq<Json>, topN: nat)
    requires forall k :: 0 <= k < |order| ==> order[k] < |titles|
    ensures var r := TopUnique(order, titles, topN);
            forall i, j :: 0 <= i < j < |r| ==> titles[r[i]] != titles[r[j]]
  {
    var ts := At(titles, order);
    var ps := KeptPositions(ts, topN);
    var r := TopUnique(order, titles, topN);
    forall i, j | 0 <= i < j < |r| ensures titles[r[i]] != titles[r[j]] {
      assert titles[r[i]] == ts[ps[i]] && titles[r[j]] == ts[ps[j]];
      assert ts[..ps[j]][ps[i]] == ts[ps[i]];
    }
  }

  /** Each kept job is the first along the ranking with its title, and the kept
      jobs keep the ranking's order. */
  lemma TopUniqueFirst(order: seq<nat>, titles: seq<Json>, topN: nat)
    requires forall k :: 0 <= k < |order| ==> order[k] < |titles|
    ensures var ts := At(titles, order); var ps := KeptPositions(ts, topN);
            && TopUnique(order, titles, topN) == At(order, ps)
            && (forall j :: 0 <= j < |ps| ==> ts[ps[j]] !in ts[..ps[j]])
            && (forall i, j :: 0 <= i < j < |ps| ==> ps[i] < ps[j])
  {
  }

  /** No title is skipped: a title met before the last kept one is kept. */
  lemma {:induction false} TopUniqueNoSkip(order: seq<nat>, titles: seq<Json>, topN: nat, p: nat)
    requires forall k :: 0 <= k < |order| ==> order[k] < |titles|
    requires p < |order|
    requires var ps := KeptPositions(At(titles, order), topN); ps != [] && p <= ps[|ps| - 1]
    ensures titles[order[p]] in At(titles, At(order, KeptPositions(At(titles, order), topN)))
  {
    var ts := At(titles, order);
    var fp := FirstPositions(ts);
    var ps := KeptPositions(ts, topN);
    var q := FirstIndex(ts, ts[p]);
    assert q <= p;
    FirstPositionsAre(ts, q);
    var k :| 0 <= k < |fp| && fp[k] == q;
    var m := |ps| - 1;
    assert ps[m] == fp[m];
    assert k <= m;
    assert ps[k] == q;
    var kept := At(titles, At(order, ps));
    assert kept[k] == titles[order[q]] == ts[q];
  }

  /** The de-duplication loop of `match_user_to_job`: walk the ranking, keep an
      index whose title is new, and stop once `topN` are kept. */
  method SelectTopUnique(order: seq<nat>, titles: seq<Json>, topN: nat) returns (unique: seq<nat>)
    requires forall k :: 0 <= k < |order| ==> order[k] < |titles|
    requires order != [] ==> topN >= 1
    ensures unique == TopUnique(order, titles, topN)
  {
    ghost var ts := At(titles, order);
    var seen: set<Json> := {};
    unique := [];
    var i := 0;
    while i < |order|
      invariant 0 <= i <= |order|
      invariant forall x :: x in seen <==> x in ts[..i]
      invariant unique == At(order, FirstPositions(ts[..i]))
      invariant |unique| <= topN && (i < |order| ==> |unique| < topN)
    {
      var idx := order[i];
      var title := titles[idx];
      assert title == ts[i];
      FirstPositionsStep(ts, i);
      ghost var ps := FirstPositions(ts[..i]);
      if title !in seen {
        seen := seen + {title};
        assert At(order, ps + [i]) == At(order, ps) + [idx];
        unique := unique + [idx];
      }
      assert ts[..i + 1] == ts[..i] + [ts[i]];
      i := i + 1;
      if |unique| >= topN {
        FirstPositionsPrefix(ts, i);
        var fp := FirstPositions(ts);
        DedupAt(ts);
        assert FirstPositions(ts[..i]) == fp[..topN];
        return;
      }
    }
    assert ts[..i] == ts;
  }

  // ---------------------------------------------------------------------------
  // The service

  /** One reported match. The similarity percentage is not part of this model. */
  datatype Match = Match(
    userTestId: int, jobIndex: nat, similarityScore: real, jobTitle: Json,
    jobDescription: Json, requiredSkills: Json, requiredKnowledge: Json)

  /** The titles of the job table, by row. */
  function Titles(jobs: seq<Row>): (ts: seq<Json>)
    ensures |ts| == |jobs| && forall i :: 0 <= i < |jobs| ==> ts[i] == Title(jobs[i])
  {
    seq(|jobs|, i requires 0 <= i < |jobs| => Title(jobs[i]))
  }

  /** `order` lists every job index once, by descending similarity; how ties
      are ordered is left open. */
  predicate IsRanking(order: seq<nat>, sims: seq<real>) {
    && |order| == |sims|
    && (forall k :: 0 <= k < |order| ==> order[k] < |sims|)
    && (forall a, b :: 0 <= a < b < |order| ==> order[a] != order[b])
    && (forall a, b :: 0 <= a < b < |order| ==> sims[order[a]] >= sims[order[b]])
  }

  /** The match reported for job `idx`. */
  function MatchOf(userTestId: int, jobs: seq<Row>, sims: seq<real>, idx: nat, useSummary: bool,
                   calls: nat -> Calls, decode: string -> Option<Json>): (m: Match)
    requires idx < |jobs| && idx < |sims|
    ensures m.jobIndex == idx && m.similarityScore == sims[idx] && m.jobTitle == Title(jobs[idx])
  {
    var e := Enrich(Description(jobs[idx]), useSummary, calls(idx), decode);
    Match(userTestId, idx, sims[idx], Title(jobs[idx]), e.description, e.skills, e.knowledge)
  }

  /** The matches reported for a ranking: one per kept index, in order. */
  function Matches(userTestId: int, jobs: seq<Row>, sims: seq<real>, order: seq<nat>, useSummary: bool,
                   calls: nat -> Calls, decode: string -> Option<Json>): (ms: seq<Match>)
    requires |sims| <= |jobs| && IsRanking(order, sims)
    ensures |ms| <= TOP_K
    ensures forall j :: 0 <= j < |ms| ==>
              && ms[j].userTestId == userTestId && ms[j].jobIndex < |sims|
              && ms[j].similarityScore == sims[ms[j].jobIndex]
              && ms[j].jobTitle == Title(jobs[ms[j].jobIndex])
  {
    var kept := TopUnique(order, Titles(jobs), Min(TOP_K, |sims|));
    seq(|kept|, j requires 0 <= j < |kept| => MatchOf(userTestId, jobs, sims, kept[j], useSummary, calls, decode))
  }

  /** At most three matches are reported, with pairwise different titles, and
      fewer only when there are fewer similarities or the ranking holds fewer
      different titles. */
  lemma MatchesTopThree(userTestId: int, jobs: seq<Row>, sims: seq<real>, order: seq<nat>, useSummary: bool,
                        calls: nat -> Calls, decode: string -> Option<Json>)
    requires |sims| <= |jobs| && IsRanking(order, sims)
    ensures var ms := Matches(userTestId, jobs, sims, order, useSummary, calls, decode);
            && |ms| == Min(Min(TOP_K, |sims|), |Dedup(At(Titles(jobs), order))|)
            && forall i, j :: 0 <= i < j < |ms| ==> ms[i].jobTitle != ms[j].jobTitle
  {
    var topN := Min(TOP_K, |sims|);
    var kept := TopUnique(order, Titles(jobs), topN);
    TopUniqueCount(order, Titles(jobs), topN);
    TopUniqueDistinct(order, Titles(jobs), topN);
  }

  /** The enrichment loop: one match per kept index, in order. */
  method MatchesOf(userTestId: int, jobs: seq<Row>, sims: seq<real>, kept: seq<nat>, useSummary: bool,
                   calls: nat -> Calls, decode: string -> Option<Json>)
    returns (ms: seq<Match>)
    requires forall k :: 0 <= k < |kept| ==> kept[k] < |jobs| && kept[k] < |sims|
    ensures |ms| == |kept|
    ensures forall k :: 0 <= k < |kept| ==>
              ms[k] == MatchOf(userTestId, jobs, sims, kept[k], useSummary, calls, decode)
  {
    ms := [];
    for j := 0 to |kept|
      invariant |ms| == j
      invariant forall k :: 0 <= k < j ==>
                  ms[k] == MatchOf(userTestId, jobs, sims, kept[k], useSummary, calls, decode)
    {
      ms := ms + [MatchOf(userTestId, jobs, sims, kept[j], useSummary, calls, decode)];
    }
  }

  /** The generated embeddings: one per row, of its description. */
  method GenerateEmbeddings(jobs: seq<Row>, embed: Json -> seq<real>) returns (embeddings: seq<seq<real>>)
    ensures |embeddings| == |jobs|
    ensures forall i :: 0 <= i < |jobs| ==> embeddings[i] == embed(Description(jobs[i]))
  {
    embeddings := [];
    for i := 0 to |jobs|
      invariant |embeddings| == i
      invariant forall k :: 0 <= k < i ==> embeddings[k] == embed(Description(jobs[k]))
    {
      embeddings := embeddings + [embed(Description(jobs[i]))];
    }
  }

  /** The tables read at start-up that hold rows; `None` is a file that turned
      out to be empty. */
  function LoadedTables(files: seq<Option<seq<Row>>>): (tables: seq<seq<Row>>)
    ensures forall t :: t in tables ==> t != []
    ensures tables == [] <==> forall i :: 0 <= i < |files| ==> files[i].None? || files[i].value == []
  {
    if files == [] then []
    else
      var n := |files| - 1;
      var tables := LoadedTables(files[..n]);
      if files[n].Some? && files[n].value != [] then tables + [files[n].value]
      else
        assert forall i :: 0 <= i < n ==> files[..n][i] == files[i];
        tables
  }

  /** The rows of the tables, one table after the other, as they were read. */
  function Stack(tables: seq<seq<Row>>): (rows: seq<Row>)
    ensures (forall t :: t in tables ==> t != []) ==> (rows == [] <==> tables == [])
  {
    if tables == [] then []
    else
      var n := |tables| - 1;
      assert forall t :: t in tables[..n] ==> t in tables;
      assert tables[n] in tables;
      Stack(tables[..n]) + tables[n]
  }

  /** Every column name met in the rows (a name may repeat). */
  function AllColumns(rows: seq<Row>): (cols: seq<string>)
    ensures forall i, k :: 0 <= i < |rows| && k in Keys(rows[i]) ==> k in cols
    ensures forall k :: k in cols ==> exists i :: 0 <= i < |rows| && k in Keys(rows[i])
  {
    if rows == [] then []
    else
      var n := |rows| - 1;
      assert forall i :: 0 <= i < n ==> rows[..n][i] == rows[i];
      AllColumns(rows[..n]) + Keys(rows[n])
  }

  /** A row widened to the columns `cols`: a column it lacks holds NaN, here null. */
  function Fill(row: Row, cols: seq<string>): (r: Row)
    ensures forall k :: Get(r, k) == if k in Keys(row) then Get(row, k) else if k in cols then Some(JNull) else None
  {
    if cols == [] then row
    else
      var n := |cols| - 1;
      var r := Fill(row, cols[..n]);
      assert forall k :: k in cols <==> k in cols[..n] || k == cols[n];
      if cols[n] in Keys(r) then r else Put(r, cols[n], JNull)
  }

  /** `pd.concat`: the rows of the tables one after the other, each with every
      column of every table, holding null (NaN) where its own table lacks it. */
  function Concat(tables: seq<seq<Row>>): (rows: seq<Row>)
    ensures |rows| == |Stack(tables)|
    ensures (forall t :: t in tables ==> t != []) ==> (rows == [] <==> tables == [])
    ensures forall i, k :: 0 <= i < |rows| && k in Keys(Stack(tables)[i]) ==>
              Get(rows[i], k) == Get(Stack(tables)[i], k)
    ensures forall i, j, k ::
              (0 <= i < |rows| && 0 <= j < |rows| && k in Keys(Stack(tables)[j]) && k !in Keys(Stack(tables)[i]))
              ==> Get(rows[i], k) == Some(JNull)
    ensures forall i, k :: 0 <= i < |rows| && k !in Keys(Stack(tables)[i]) ==>
              Get(rows[i], k) == None || Get(rows[i], k) == Some(JNull)
  {
    var stacked := Stack(tables);
    var cols := AllColumns(stacked);
    seq(|stacked|, i requires 0 <= i < |stacked| => Fill(stacked[i], cols))
  }

  /** The job matcher's loaded state: whether the tokenizer and the model are
      loaded, the job table and the job embeddings. */
  class EmbeddingService {
    var tokenizerLoaded: bool
    var modelLoaded: bool
    var jobs: seq<Row>
    var jobEmbeddings: seq<seq<real>>

    /** Nothing is loaded before start-up. */
    constructor ()
      ensures !tokenizerLoaded && !modelLoaded && jobs == [] && jobEmbeddings == []
    {
      tokenizerLoaded := false;
      modelLoaded := false;
      jobs := [];
      jobEmbeddings := [];
    }

    /** `is_initialized`: both models are loaded and the job table has rows. */
    predicate IsInitialized()
      reads this
      ensures IsInitialized() <==> tokenizerLoaded && modelLoaded && |jobs| > 0
    {
      tokenizerLoaded && modelLoaded && jobs != []
    }

    /** `_ensure_models_loaded`: an error unless both models are loaded. */
    method EnsureModelsLoaded() returns (r: Result<()>)
      ensures r.Ok? <==> tokenizerLoaded && modelLoaded
      ensures r.Err? ==> r.error == "AI models not initialized. Call initialize_ai_models() first."
    {
      if !tokenizerLoaded || !modelLoaded {
        return Err("AI models not initialized. Call initialize_ai_models() first.");
      }
      return Ok(());
    }

    /** `initialize_ai_models`: loads both models, concatenates the tables that
        have rows and, when there are rows, takes the embeddings from the cache
        (`None` when there is no cache file, `Some(None)` when it cannot be read)
        or else computes them; with no rows the job table is empty and the
        embeddings stay as they were. */
    method InitializeAiModels(files: seq<Option<seq<Row>>>, cache: Option<Option<seq<seq<real>>>>,
                              embed: Json -> seq<real>)
      modifies this
      ensures tokenizerLoaded && modelLoaded
      ensures jobs == Concat(LoadedTables(files))
      ensures IsInitialized() <==> exists i :: 0 <= i < |files| && files[i].Some? && files[i].value != []
      ensures jobs != [] && (cache.None? || cache.value.None?) ==>
                |jobEmbeddings| == |jobs|
                && forall i :: 0 <= i < |jobs| ==> jobEmbeddings[i] == embed(Description(jobs[i]))
      ensures jobs != [] && cache.Some? && cache.value.Some? ==> jobEmbeddings == cache.value.value
      ensures jobs == [] ==> jobEmbeddings == old(jobEmbeddings)
    {
      tokenizerLoaded := true;
      modelLoaded := true;
      var tables: seq<seq<Row>> := [];
      for i := 0 to |files|
        invariant tables == LoadedTables(files[..i])
      {
        assert files[..i + 1][..i] == files[..i];
        if files[i].Some? && files[i].value != [] {
          tables := tables + [files[i].value];
        }
      }
      assert files[..|files|] == files;
      if tables != [] {
        jobs := Concat(tables);
        if cache.Some? && cache.value.Some? {
          jobEmbeddings := cache.value.value;
        } else {
          jobEmbeddings := GenerateEmbeddings(jobs, embed);
        }
      } else {
        jobs := [];
      }
    }

    /** `match_user_to_job`, given each job's similarity to the user and the job
        indices by descending similarity: an error without jobs or embeddings,
        otherwise one match per kept index, enriched as `Enrich` says. */
    method MatchUserToJob(userTestId: int, sims: seq<real>, order: seq<nat>, useSummary: bool,
                          calls: nat -> Calls, decode: string -> Option<Json>)
      returns (r: Result<seq<Match>>)
      requires |sims| == |jobEmbeddings| <= |jobs| && IsRanking(order, sims)
      ensures r.Err? <==> jobs == [] || jobEmbeddings == []
      ensures r.Err? ==> r.error == "No jobs or embeddings available."
      ensures r.Ok? ==> r.value == Matches(userTestId, jobs, sims, order, useSummary, calls, decode)
    {
      if jobs == [] || jobEmbeddings == [] {
        return Err("No jobs or embeddings available.");
      }
      var topN := Min(TOP_K, |sims|);
      var titles := Titles(jobs);
      var unique := SelectTopUnique(order, titles, topN);
      var topMatches := MatchesOf(userTestId, jobs, sims, unique, useSummary, calls, decode);
      return Ok(topMatches);
    }
  }
}
