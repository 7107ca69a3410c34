/** The question generator: cleaning of model output, the spread of the five coding
    questions over the extracted languages, the split of the non-coding questions
    and the assembly of the final multiple-choice list. */
module QuestionGen {
  import opened Wrappers
  import opened PyStr
  import opened PyDict
  import opened JsonValue
  import opened Distinct
  import opened CodeFence

  // ---------------------------------------------------------------------------
  // The extracted programming languages

  /** No piece of a split contains a one-character separator. */
  lemma NoSeparatorChar(p: string, c: char)
    requires NoOccurrence(p, [c])
    ensures c !in p
  {
    forall k | 0 <= k < |p| ensures p[k] != c {
      assert !OccursAt(p, [c], k);
      assert p[k..k + 1] == [p[k]];
    }
  }

  /** The language list read from the model's reply: nothing when the trimmed,
      lower-cased reply is "none", otherwise the trimmed pieces between commas. */
  function ParseLanguages(reply: string): (r: seq<string>)
    ensures Lower(Strip(reply)) == "none" ==> r == []
    ensures Lower(Strip(reply)) != "none" ==> |r| >= 1
    ensures forall i :: 0 <= i < |r| ==> Trimmed(r[i]) && ',' !in r[i]
  {
    if Lower(Strip(reply)) == "none" then []
    else
      var pieces := Split(reply, ",");
      var r := seq(|pieces|, i requires 0 <= i < |pieces| => Strip(pieces[i]));
      assert forall i :: 0 <= i < |r| ==> ',' !in r[i] by {
        forall i | 0 <= i < |r| ensures ',' !in r[i] {
          assert pieces[i] in pieces;
          NoSeparatorChar(pieces[i], ',');
          if ',' in r[i] { StripChars(pieces[i], ','); }
        }
      }
      r
  }

  /** A comma-separated list comes back as its trimmed items. */
  lemma ParseLanguagesOfList(pieces: seq<string>)
    requires |pieces| >= 1 && forall p :: p in pieces ==> ',' !in p
    requires Lower(Strip(Join(pieces, ","))) != "none"
    ensures ParseLanguages(Join(pieces, ","))
         == seq(|pieces|, i requires 0 <= i < |pieces| => Strip(pieces[i]))
  {
    SplitJoin(pieces, ",");
  }

  /** "None", in any letter case and with any surrounding whitespace, means no language. */
  lemma NoneMeansNoLanguages(w1: string, x: string, w2: string)
    requires AllSpace(w1) && AllSpace(w2) && Lower(x) == "none"
    ensures ParseLanguages(w1 + x + w2) == []
  {
    assert LowerChar(x[0]) == 'n' && LowerChar(x[3]) == 'e';
    StripPadded(w1, x, w2);
  }

  // ---------------------------------------------------------------------------
  // Spreading the five coding questions over the languages

  const TOTAL_CODING_QUESTIONS: nat := 5

  /** One entry per language of `ls`, in order, each holding `base` plus the number
      of times the language occurs in `bumps`. */
  function SharesOf<T(==)>(ls: seq<T>, base: nat, bumps: seq<T>): (d: Dict<T, nat>)
    ensures |d| == |ls|
    ensures forall i {:trigger d[i]} :: 0 <= i < |ls| ==> d[i] == (ls[i], base + Count(bumps, ls[i]))
  {
    seq(|ls|, i requires 0 <= i < |ls| => (ls[i], base + Count(bumps, ls[i])))
  }

  /** A quota with one entry per distinct language, in order of first mention, each
      holding `base` plus the number of times the language occurs in `bumps`. The
      comprehension `{lang: base for lang in langs}` is `Shares(langs, base, [])`. */
  function Shares(langs: seq<string>, base: nat, bumps: seq<string>): Dict<string, nat> {
    SharesOf(Dedup(langs), base, bumps)
  }

  /** A quota is a proper dict whose keys are the distinct languages, in order of
      first mention. */
  lemma SharesKeys(langs: seq<string>, base: nat, bumps: seq<string>)
    ensures Keys(Shares(langs, base, bumps)) == Dedup(langs)
    ensures DistinctKeys(Shares(langs, base, bumps))
  {
  }

  /** In a quota, the entry of a mentioned language holds its share plus its bumps. */
  lemma ShareOf(langs: seq<string>, base: nat, bumps: seq<string>, x: string)
    requires x in langs
    ensures Get(Shares(langs, base, bumps), x) == Some(base + Count(bumps, x))
  {
    var ls := Dedup(langs);
    var j := FirstIndex(ls, x);
    var d := SharesOf(ls, base, bumps);
    assert d[j].0 == x && d[j].1 == base + Count(bumps, x);
    assert DistinctKeys(d);
    GetAt(d, j);
  }

  /** Bumping the entry of `ls[j]` is the same as adding `ls[j]` to the bumps. */
  lemma SharesOfBumped<T>(ls: seq<T>, base: nat, bumps: seq<T>, j: nat)
    requires forall a, b :: 0 <= a < b < |ls| ==> ls[a] != ls[b]
    requires j < |ls|
    ensures |SharesOf(ls, base, bumps)| == |ls|
    ensures SharesOf(ls, base, bumps)[j := (ls[j], base + Count(bumps, ls[j]) + 1)]
         == SharesOf(ls, base, bumps + [ls[j]])
  {
    var x := ls[j];
    var d := SharesOf(ls, base, bumps);
    var e := SharesOf(ls, base, bumps + [x]);
    var d2 := d[j := (x, base + Count(bumps, x) + 1)];
    forall i | 0 <= i < |ls| ensures d2[i] == e[i] {
      CountSnoc(bumps, x, ls[i]);
    }
    assert d2 == e;
  }

  /** `quota[x] += 1` on a key that is present. */
  function Bumped(quota: Dict<string, nat>, x: string): Dict<string, nat>
    requires Get(quota, x).Some?
  {
    Put(quota, x, Get(quota, x).value + 1)
  }

  /** `quota[x] += 1` for a listed language adds `x` to the bumps. */
  lemma BumpShare(langs: seq<string>, base: nat, bumps: seq<string>, x: string)
    requires x in langs
    ensures Get(Shares(langs, base, bumps), x).Some?
    ensures Bumped(Shares(langs, base, bumps), x) == Shares(langs, base, bumps + [x])
  {
    var ls := Dedup(langs);
    var d := SharesOf(ls, base, bumps);
    var j := FirstIndex(ls, x);
    ShareOf(langs, base, bumps, x);
    var v: nat := base + Count(bumps, x) + 1;
    assert d[j].0 == x;
    assert DistinctKeys(d);
    PutExisting(d, j, v);
    SharesOfBumped(ls, base, bumps, j);
  }

  /** The counts of the languages of `ls` in `bumps`, added up. */
  function SumCounts(ls: seq<string>, bumps: seq<string>): nat {
    if ls == [] then 0 else SumCounts(ls[..|ls| - 1], bumps) + Count(bumps, ls[|ls| - 1])
  }

  lemma {:induction false} SumCountsNone(ls: seq<string>)
    ensures SumCounts(ls, []) == 0
  {
    if ls != [] {
      SumCountsNone(ls[..|ls| - 1]);
    }
  }

  lemma {:induction false} SumCountsSnoc(ls: seq<string>, bumps: seq<string>, y: string)
    ensures SumCounts(ls, bumps + [y]) == SumCounts(ls, bumps) + Count(ls, y)
  {
    if ls != [] {
      SumCountsSnoc(ls[..|ls| - 1], bumps, y);
      CountSnoc(bumps, y, ls[|ls| - 1]);
    }
  }

  /** When every bump names one of the distinct languages `ls`, the counts add up
      to the number of bumps. */
  lemma {:induction false} SumCountsAll(ls: seq<string>, bumps: seq<string>)
    requires forall a, b :: 0 <= a < b < |ls| ==> ls[a] != ls[b]
    requires forall y :: y in bumps ==> y in ls
    ensures SumCounts(ls, bumps) == |bumps|
  {
    if bumps == [] {
      SumCountsNone(ls);
    } else {
      var n := |bumps| - 1;
      var y := bumps[n];
      assert bumps == bumps[..n] + [y];
      assert forall z :: z in bumps[..n] ==> z in bumps;
      SumCountsAll(ls, bumps[..n]);
      SumCountsSnoc(ls, bumps[..n], y);
      var i := FirstIndex(ls, y);
      CountInDistinctPrefix(ls, |ls|, i);
      assert ls[..|ls|] == ls;
    }
  }

  /** The number of questions a quota asks for. */
  function Total(d: Dict<string, nat>): nat {
    if d == [] then 0 else Total(d[..|d| - 1]) + d[|d| - 1].1
  }

  /** `n` copies of `b`, added up: `n * b`, kept apart from `*` so that the sums
      below stay linear. */
  function Times(n: nat, b: nat): nat {
    if n == 0 then 0 else Times(n - 1, b) + b
  }

  lemma {:induction false} TimesIsProduct(n: nat, b: nat)
    ensures Times(n, b) == n * b
  {
    if n > 0 {
      TimesIsProduct(n - 1, b);
    }
  }

  /** Python's `a // n` for a non-negative `a` and a positive `n`, by repeated
      subtraction (kept apart from `/` for the same reason). */
  function FloorDiv(a: nat, n: nat): nat
    requires n > 0
    decreases a
  {
    if a < n then 0 else 1 + FloorDiv(a - n, n)
  }

  /** Python's `a % n` for a non-negative `a` and a positive `n`. */
  function Mod(a: nat, n: nat): (r: nat)
    requires n > 0
    ensures r < n && r <= a
    decreases a
  {
    if a < n then a else Mod(a - n, n)
  }

  lemma {:induction false} TimesSucc(n: nat, b: nat)
    ensures Times(n, b + 1) == Times(n, b) + n
  {
    if n > 0 {
      TimesSucc(n - 1, b);
    }
  }

  /** `n` shares of `a // n` plus the remainder `a % n` make `a` again. */
  lemma {:induction false} FloorDivMod(a: nat, n: nat)
    requires n > 0
    ensures Times(n, FloorDiv(a, n)) + Mod(a, n) == a
  {
    if a >= n {
      FloorDivMod(a - n, n);
      TimesSucc(n, FloorDiv(a - n, n));
    } else {
      assert Times(n, 0) == 0 by { TimesZero(n); }
    }
  }

  lemma {:induction false} TimesZero(n: nat)
    ensures Times(n, 0) == 0
  {
    if n > 0 {
      TimesZero(n - 1);
    }
  }

  lemma {:induction false} TotalSharesOf(ls: seq<string>, base: nat, bumps: seq<string>)
    ensures Total(SharesOf(ls, base, bumps)) == Times(|ls|, base) + SumCounts(ls, bumps)
  {
    if ls != [] {
      var n := |ls| - 1;
      TotalSharesOf(ls[..n], base, bumps);
      var d := SharesOf(ls, base, bumps);
      var p := SharesOf(ls[..n], base, bumps);
      var c := Count(bumps, ls[n]);
      assert Total(d) == Total(p) + base + c by {
        assert d == p + [(ls[n], base + c)];
        assert d[..|d| - 1] == p;
      }
      assert SumCounts(ls, bumps) == SumCounts(ls[..n], bumps) + c;
    }
  }

  /** A quota asks for the even share for each distinct language plus one per bump. */
  lemma TotalShares(langs: seq<string>, base: nat, bumps: seq<string>)
    requires forall y :: y in bumps ==> y in langs
    ensures Total(Shares(langs, base, bumps)) == Times(|Dedup(langs)|, base) + |bumps|
  {
    var ls := Dedup(langs);
    TotalSharesOf(ls, base, bumps);
    SumCountsAll(ls, bumps);
  }

  /** The per-language quota exactly as the source computes it, for `total`
      questions (five in the source): the number of listed languages, duplicates
      included, divides the questions, and the first `total % n` listed items get
      one more each. */
  function QuotaAsWritten(langs: seq<string>, total: nat): Dict<string, nat>
    requires langs != []
  {
    var n := |langs|;
    Shares(langs, FloorDiv(total, n), langs[..Mod(total, n)])
  }

  /** Entry `j` of the quota is the `j`-th distinct language, holding the even share
      `total // n` plus the language's occurrences among the first `total % n`
      listed items, `n` counting duplicates. */
  lemma QuotaAsWrittenEntry(langs: seq<string>, total: nat, j: nat)
    requires langs != [] && j < |Dedup(langs)|
    ensures var n := |langs|;
      && |QuotaAsWritten(langs, total)| == |Dedup(langs)|
      && QuotaAsWritten(langs, total)[j]
         == (Dedup(langs)[j], FloorDiv(total, n) + Count(langs[..Mod(total, n)], Dedup(langs)[j]))
  {
  }

  /** The quota has one entry per distinct language, in order of first mention, and
      asks for `d * (total // n) + total % n` questions, where `d` counts the
      distinct languages and `n` the listed ones. */
  lemma QuotaAsWrittenTotal(langs: seq<string>, total: nat)
    requires langs != []
    ensures Keys(QuotaAsWritten(langs, total)) == Dedup(langs)
    ensures Total(QuotaAsWritten(langs, total))
         == Times(|Dedup(langs)|, FloorDiv(total, |langs|)) + Mod(total, |langs|)
  {
    var n := |langs|;
    var base := FloorDiv(total, n);
    var bumps := langs[..Mod(total, n)];
    assert forall y :: y in bumps ==> y in langs;
    SharesKeys(langs, base, bumps);
    TotalShares(langs, base, bumps);
  }

  /** Finding: a language listed twice shrinks the coding section. For
      `["Python", "Python"]` the share is 5 // 2 = 2, the single entry gets one
      more, and only three of the five questions are requested. */
  lemma DuplicateLanguageShrinksQuota()
    ensures QuotaAsWritten(["Python", "Python"], TOTAL_CODING_QUESTIONS) == [("Python", 3)]
    ensures Total(QuotaAsWritten(["Python", "Python"], TOTAL_CODING_QUESTIONS)) == 3
  {
    var langs := ["Python", "Python"];
    assert langs[..1] == ["Python"] && langs[1] in langs[..1];
    assert Dedup(langs[..1]) == ["Python"] by {
      assert langs[..1][..0] == [];
    }
    assert Dedup(langs) == ["Python"];
    assert Count(langs[..1], "Python") == 1 by {
      assert langs[..1][..0] == [];
    }
    var q := QuotaAsWritten(langs, TOTAL_CODING_QUESTIONS);
    assert FloorDiv(TOTAL_CODING_QUESTIONS, 2) == 2 && Mod(TOTAL_CODING_QUESTIONS, 2) == 1;
    assert q == SharesOf(["Python"], 2, langs[..1]);
    assert q[0] == ("Python", 3);
    assert Total(q) == 3 by {
      assert q[..0] == [];
    }
  }

  /** The quota as evidently intended: the distinct languages share the questions,
      the first `total % d` of them one more each. */
  function Quota(langs: seq<string>, total: nat): Dict<string, nat>
    requires langs != []
  {
    var ls := Dedup(langs);
    assert langs[0] in ls;
    QuotaAsWritten(ls, total)
  }

  /** Entry `j` of the corrected quota is the `j`-th distinct language, asking for
      `total // d + 1` questions when `j < total % d` and `total // d` otherwise. */
  lemma QuotaEntry(langs: seq<string>, total: nat, j: nat)
    requires langs != [] && j < |Dedup(langs)|
    ensures var d := |Dedup(langs)|;
      && |Quota(langs, total)| == d
      && Quota(langs, total)[j].0 == Dedup(langs)[j]
      && Quota(langs, total)[j].1 == FloorDiv(total, d) + (if j < Mod(total, d) then 1 else 0)
  {
    var ls := Dedup(langs);
    var d := |ls|;
    var rem := Mod(total, d);
    DedupOfDistinct(ls);
    assert Quota(langs, total) == SharesOf(ls, FloorDiv(total, d), ls[..rem]);
    CountInDistinctPrefix(ls, rem, j);
  }

  /** The corrected quota has one entry per mentioned language, in order of first
      mention, and asks for exactly `total` questions in all. */
  lemma QuotaSharesTotal(langs: seq<string>, total: nat)
    requires langs != []
    ensures Keys(Quota(langs, total)) == Dedup(langs)
    ensures Total(Quota(langs, total)) == total
  {
    var ls := Dedup(langs);
    assert langs[0] in ls;
    DedupOfDistinct(ls);
    QuotaAsWrittenTotal(ls, total);
    FloorDivMod(total, |ls|);
  }

  /** The quota loop for `total` questions (`TOTAL_CODING_QUESTIONS` at the call):
      the dict comprehension gives every language the even share, then each of
      the first `total % n` listed languages gets one more. */
  method DistributeQuestions(langs: seq<string>, total: nat) returns (quota: Dict<string, nat>)
    requires langs != []
    ensures quota == QuotaAsWritten(langs, total)
  {
    var numLanguages := |langs|;
    var baseCount := FloorDiv(total, numLanguages);
    var remainder := Mod(total, numLanguages);
    quota := BumpFirst(langs, baseCount, remainder);
  }

  /** The bumping loop: starting from the even share `base` for every language,
      each of the first `k` listed languages gets one more. */
  method BumpFirst(langs: seq<string>, base: nat, k: nat) returns (quota: Dict<string, nat>)
    requires k <= |langs|
    ensures quota == Shares(langs, base, langs[..k])
  {
    quota := Shares(langs, base, []);
    assert langs[..0] == [];
    for i := 0 to k
      invariant quota == Shares(langs, base, langs[..i])
    {
      assert langs[i] in langs;
      BumpShare(langs, base, langs[..i], langs[i]);
      assert langs[..i + 1] == langs[..i] + [langs[i]];
      quota := Bumped(quota, langs[i]);
    }
  }

  // ---------------------------------------------------------------------------
  // The coding questions, one model call per language

  /** What one coding reply adds, as the source evidently intends: the items of a
      JSON list; anything else adds nothing. */
  function ExtendChecked(acc: seq<Json>, decoded: Json): (r: seq<Json>)
    ensures decoded.JArr? ==> r == acc + decoded.items
    ensures !decoded.JArr? ==> r == acc
  {
    if decoded.JArr? then acc + decoded.items else acc
  }

  /** What one coding reply adds as the source is written: the guard tests the
      accumulator, which is always a list, so `extend` runs on whatever the reply
      decoded to. A dict adds its keys, a string its characters, and a number, a
      boolean or `null` raises a `TypeError` that nothing catches. */
  function ExtendAsWritten(acc: seq<Json>, decoded: Json): (r: Result<seq<Json>>)
    ensures decoded.JArr? ==> r == Ok(acc + decoded.items)
    ensures decoded.JObj? ==> r.Ok? && |r.value| == |acc| + |decoded.fields|
    ensures decoded.JStr? ==> r.Ok? && |r.value| == |acc| + |decoded.s|
    ensures r.Err? <==> decoded.JNum? || decoded.JBool? || decoded.JNull?
  {
    match decoded
    case JArr(items) => Ok(acc + items)
    case JObj(fields) => Ok(acc + seq(|fields|, i requires 0 <= i < |fields| => JStr(fields[i].0)))
    case JStr(str) => Ok(acc + seq(|str|, i requires 0 <= i < |str| => JStr([str[i]])))
    case _ => Err("TypeError")
  }

  /** The decoded coding reply for each language and count: the model's reply,
      cleaned of fences and parsed, with `None` when `json.loads` fails (which the
      source reports and skips). */
  function DecodedBatches(coding: (string, nat) -> string, decode: string -> Option<Json>)
    : (string, nat) -> Option<Json>
  {
    (lang: string, count: nat) => decode(StripJsonCodeblock(coding(lang, count)))
  }

  /** The coding questions gathered over the quota in its key order, as intended:
      entries asking for no question are skipped, and each reply that decodes to a
      list contributes its items. */
  function CodingQuestions(quota: Dict<string, nat>, batch: (string, nat) -> Option<Json>): seq<Json>
  {
    if quota == [] then []
    else
      var n := |quota| - 1;
      var acc := CodingQuestions(quota[..n], batch);
      var (lang, count) := quota[n];
      if count == 0 then acc
      else match batch(lang, count)
        case None => acc
        case Some(v) => ExtendChecked(acc, v)
  }

  /** A language whose count is 0 is never asked: replies that differ only for
      such entries gather the same questions. */
  lemma {:induction false} ZeroCountsNotAsked(quota: Dict<string, nat>, b1: (string, nat) -> Option<Json>,
                                              b2: (string, nat) -> Option<Json>)
    requires forall k :: 0 <= k < |quota| && quota[k].1 > 0 ==> b1(quota[k].0, quota[k].1) == b2(quota[k].0, quota[k].1)
    ensures CodingQuestions(quota, b1) == CodingQuestions(quota, b2)
  {
    if quota != [] {
      var n := |quota| - 1;
      assert forall k :: 0 <= k < n ==> quota[..n][k] == quota[k];
      ZeroCountsNotAsked(quota[..n], b1, b2);
    }
  }

  /** The same holds for the gathering as written, errors included. */
  lemma {:induction false} ZeroCountsNotAskedAsWritten(quota: Dict<string, nat>, b1: (string, nat) -> Option<Json>,
                                                       b2: (string, nat) -> Option<Json>)
    requires forall k :: 0 <= k < |quota| && quota[k].1 > 0 ==> b1(quota[k].0, quota[k].1) == b2(quota[k].0, quota[k].1)
    ensures CodingQuestionsAsWritten(quota, b1) == CodingQuestionsAsWritten(quota, b2)
  {
    if quota != [] {
      var n := |quota| - 1;
      assert forall k :: 0 <= k < n ==> quota[..n][k] == quota[k];
      ZeroCountsNotAskedAsWritten(quota[..n], b1, b2);
    }
  }

  /** The same gathering as the source is written: an uncaught `TypeError` ends it. */
  function CodingQuestionsAsWritten(quota: Dict<string, nat>, batch: (string, nat) -> Option<Json>): Result<seq<Json>>
  {
    if quota == [] then Ok([])
    else
      var n := |quota| - 1;
      match CodingQuestionsAsWritten(quota[..n], batch)
      case Err(e) => Err(e)
      case Ok(acc) =>
        var (lang, count) := quota[n];
        if count == 0 then Ok(acc)
        else match batch(lang, count)
          case None => Ok(acc)
          case Some(v) => ExtendAsWritten(acc, v)
  }

  /** Every reply for a non-zero entry either fails to parse or parses to a list. */
  predicate RepliesAreLists(quota: Dict<string, nat>, batch: (string, nat) -> Option<Json>)
  {
    forall i :: 0 <= i < |quota| && quota[i].1 > 0 ==>
      var b := batch(quota[i].0, quota[i].1);
      b.None? || b.value.JArr?
  }

  /** Where every reply is a list or unparsable, the code as written and the
      intended code gather the same questions. */
  lemma {:induction false} AsWrittenAgreesOnLists(quota: Dict<string, nat>, batch: (string, nat) -> Option<Json>)
    requires RepliesAreLists(quota, batch)
    ensures CodingQuestionsAsWritten(quota, batch) == Ok(CodingQuestions(quota, batch))
  {
    if quota != [] {
      var n := |quota| - 1;
      assert RepliesAreLists(quota[..n], batch) by {
        forall i | 0 <= i < n && quota[..n][i].1 > 0
          ensures var c := batch(quota[..n][i].0, quota[..n][i].1);
                  c.None? || c.value.JArr?
        {
          assert quota[..n][i] == quota[i];
        }
      }
      AsWrittenAgreesOnLists(quota[..n], batch);
    }
  }

  /** Every reply for a non-zero entry is a list of exactly the requested length. */
  predicate RepliesHaveCounts(quota: Dict<string, nat>, batch: (string, nat) -> Option<Json>)
  {
    forall i :: 0 <= i < |quota| && quota[i].1 > 0 ==>
      var b := batch(quota[i].0, quota[i].1);
      b.Some? && b.value.JArr? && |b.value.items| == quota[i].1
  }

  /** When the model returns what it is asked for, there are as many coding questions
      as the quota asks for. */
  lemma {:induction false} CodingQuestionsCount(quota: Dict<string, nat>, batch: (string, nat) -> Option<Json>)
    requires RepliesHaveCounts(quota, batch)
    ensures |CodingQuestions(quota, batch)| == Total(quota)
  {
    if quota != [] {
      var n := |quota| - 1;
      assert RepliesHaveCounts(quota[..n], batch) by {
        forall i | 0 <= i < n && quota[..n][i].1 > 0
          ensures var c := batch(quota[..n][i].0, quota[..n][i].1);
                  c.Some? && c.value.JArr? && |c.value.items| == quota[..n][i].1
        {
          assert quota[..n][i] == quota[i];
        }
      }
      CodingQuestionsCount(quota[..n], batch);
      assert quota[..|quota| - 1] == quota[..n];
    }
  }

  /** Finding: a coding reply that parses to a number makes the code as written
      raise, where the intended code skips it. */
  lemma NumberReplyRaises(lang: string, count: nat, batch: (string, nat) -> Option<Json>, x: real)
    requires count > 0
    requires batch(lang, count) == Some(JNum(x))
    ensures CodingQuestionsAsWritten([(lang, count)], batch).Err?
    ensures CodingQuestions([(lang, count)], batch) == []
  {
    var q := [(lang, count)];
    assert q[..0] == [];
    assert CodingQuestionsAsWritten(q[..0], batch) == Ok([]);
  }

  /** Finding: a coding reply that parses to an object adds its keys to the
      questions, where the intended code skips it. */
  lemma ObjectReplyAddsKeys(lang: string, count: nat, batch: (string, nat) -> Option<Json>, key: string, v: Json)
    requires count > 0
    requires batch(lang, count) == Some(JObj([(key, v)]))
    ensures CodingQuestionsAsWritten([(lang, count)], batch) == Ok([JStr(key)])
    ensures CodingQuestions([(lang, count)], batch) == []
  {
    var q := [(lang, count)];
    assert q[..0] == [];
    assert CodingQuestionsAsWritten(q[..0], batch) == Ok([]);
    var fields := [(key, v)];
    var keys := seq(|fields|, i requires 0 <= i < |fields| => JStr(fields[i].0));
    assert keys == [JStr(key)];
    assert [] + keys == keys;
  }

  /** Once a reply has raised, the gathering ends with that error whatever the
      later entries hold. */
  lemma {:induction false} AsWrittenErrStays(quota: Dict<string, nat>, batch: (string, nat) -> Option<Json>, k: nat)
    requires k <= |quota| && CodingQuestionsAsWritten(quota[..k], batch).Err?
    ensures CodingQuestionsAsWritten(quota, batch) == CodingQuestionsAsWritten(quota[..k], batch)
  {
    if k < |quota| {
      var n := |quota| - 1;
      assert quota[..n][..k] == quota[..k];
      AsWrittenErrStays(quota[..n], batch, k);
    } else {
      assert quota[..k] == quota;
    }
  }

  /** The loop over the quota entries, in the dict's order, as written: each reply
      that parses extends the accumulator, and a `TypeError` from `extend` ends the
      generation. */
  method CollectCodingQuestions(quota: Dict<string, nat>, coding: (string, nat) -> string,
                                decode: string -> Option<Json>) returns (questions: Result<seq<Json>>)
    ensures questions == CodingQuestionsAsWritten(quota, DecodedBatches(coding, decode))
  {
    var batch := DecodedBatches(coding, decode);
    var acc: seq<Json> := [];
    for i := 0 to |quota|
      invariant CodingQuestionsAsWritten(quota[..i], batch) == Ok(acc)
    {
      assert quota[..i + 1][..i] == quota[..i];
      var (lang, count) := quota[i];
      if count == 0 {
        continue;
      }
      var parsed := batch(lang, count);
      if parsed.Some? {
        var extended := ExtendAsWritten(acc, parsed.value);
        if extended.Err? {
          AsWrittenErrStays(quota, batch, i + 1);
          return extended;
        }
        acc := extended.value;
      }
    }
    assert quota[..|quota|] == quota;
    questions := Ok(acc);
  }

  // ---------------------------------------------------------------------------
  // The non-coding questions and the multiple-choice conversion

  /** The non-coding questions: line breaks in the reply become "||", the text is
      split at "||", and the trimmed pieces that are not blank are kept. */
  function NonCodingQuestions(reply: string): (r: seq<string>)
    ensures forall q :: q in r ==> q != [] && Trimmed(q)
    ensures forall p :: p in Split(ReplaceChar(reply, '\n', "||"), "||") && Strip(p) != [] ==> Strip(p) in r
    ensures forall q :: q in r ==> exists p :: p in Split(ReplaceChar(reply, '\n', "||"), "||") && Strip(p) == q
  {
    StrippedNonEmptyItems(Split(ReplaceChar(reply, '\n', "||"), "||"));
    StrippedNonEmpty(Split(ReplaceChar(reply, '\n', "||"), "||"))
  }

  /** No question keeps a line break: each is the trimmed piece of a text whose line
      breaks were all replaced. */
  lemma NonCodingQuestionsOneLine(reply: string)
    ensures forall q :: q in NonCodingQuestions(reply) ==> '\n' !in q
  {
    var text := ReplaceChar(reply, '\n', "||");
    var pieces := Split(text, "||");
    JoinLacksChar(pieces, "||", '\n');
    StrippedNonEmptyItems(pieces);
    forall q | q in NonCodingQuestions(reply) ensures '\n' !in q {
      var p :| p in pieces && Strip(p) == q;
      StripLacksChar(p, '\n');
    }
  }

  /** Questions written one per line come back as they were, provided none contains
      a '|' (which could merge with the "||" separator) and each is trimmed and
      not blank. */
  lemma NonCodingLinesRoundTrip(lines: seq<string>)
    requires |lines| >= 1
    requires forall l :: l in lines ==> l != [] && Trimmed(l) && '\n' !in l && '|' !in l
    ensures NonCodingQuestions(Join(lines, "\n")) == lines
  {
    ReplaceJoin(lines, '\n', "||");
    SplitJoin(lines, "||");
    StrippedNonEmptyOfTrimmed(lines);
  }

  /** The multiple-choice list read from a conversion reply: the decoded value when
      it is a list, and the empty list when the reply does not parse or is not a
      list. */
  function McqList(reply: string, decode: string -> Option<Json>): (r: seq<Json>)
    ensures var d := decode(StripJsonCodeblock(reply));
            && (d.Some? && d.value.JArr? ==> r == d.value.items)
            && (r != [] ==> d == Some(JArr(r)))
  {
    match decode(StripJsonCodeblock(reply))
    case Some(JArr(items)) => items
    case _ => []
  }

  /** A list in a "```json" fence, with any surrounding whitespace, is read back. */
  lemma McqListOfFencedList(w1: string, body: string, w2: string,
                            decode: string -> Option<Json>, items: seq<Json>)
    requires AllSpace(w1) && AllSpace(w2)
    requires decode(Strip(body)) == Some(JArr(items))
    ensures McqList(w1 + JSON_FENCE + body + FENCE + w2, decode) == items
  {
    JsonFencedRoundTrip(w1, body, w2);
  }

  /** A reply that does not parse, or parses to something other than a list, gives
      no questions rather than an error. */
  lemma McqListFallback(reply: string, decode: string -> Option<Json>)
    requires decode(StripJsonCodeblock(reply)).None? || !decode(StripJsonCodeblock(reply)).value.JArr?
    ensures McqList(reply, decode) == []
  {
  }

  // ---------------------------------------------------------------------------
  // The whole generation

  /** The model's replies to the prompts of one generation, as functions of what the
      prompt is built from: the languages reply, the coding reply for a language and
      a count, the non-coding reply, and the two conversion replies. */
  datatype Replies = Replies(
    languages: string,
    coding: (string, nat) -> string,
    nonCoding: string,
    codingMcqs: seq<Json> -> string,
    nonCodingMcqs: seq<string> -> string)

  /** The MCQs of a generation, given its coding questions: the coding MCQs, when
      there were coding questions to convert, followed by the non-coding MCQs, when
      there were non-coding questions. */
  function Merged(r: Replies, decode: string -> Option<Json>, coding: seq<Json>): seq<Json> {
    var nonCoding := NonCodingQuestions(r.nonCoding);
    (if coding == [] then [] else McqList(r.codingMcqs(coding), decode))
      + (if nonCoding == [] then [] else McqList(r.nonCodingMcqs(nonCoding), decode))
  }

  /** The coding questions of a generation as the source is written: the quota
      counts duplicate languages, and a reply of the wrong kind raises. */
  function CodingOf(r: Replies, decode: string -> Option<Json>): Result<seq<Json>> {
    var langs := ParseLanguages(r.languages);
    if langs == [] then Ok([])
    else CodingQuestionsAsWritten(QuotaAsWritten(langs, TOTAL_CODING_QUESTIONS), DecodedBatches(r.coding, decode))
  }

  /** The questions of a generation as the source is written, or the error that
      escapes it. */
  function Generated(r: Replies, decode: string -> Option<Json>): Result<seq<Json>> {
    match CodingOf(r, decode)
    case Err(e) => Err(e)
    case Ok(coding) => Ok(Merged(r, decode, coding))
  }

  /** The coding questions of a generation as evidently intended: the distinct
      languages share the quota, and only list replies are kept. */
  function CodingOfIntended(r: Replies, decode: string -> Option<Json>): seq<Json> {
    var langs := ParseLanguages(r.languages);
    if langs == [] then [] else CodingQuestions(Quota(langs, TOTAL_CODING_QUESTIONS), DecodedBatches(r.coding, decode))
  }

  /** The questions of a generation as evidently intended. */
  function GeneratedIntended(r: Replies, decode: string -> Option<Json>): seq<Json> {
    Merged(r, decode, CodingOfIntended(r, decode))
  }

  /** A languages reply of "None" leaves only the non-coding MCQs. */
  lemma NoLanguagesOnlyNonCoding(r: Replies, decode: string -> Option<Json>)
    requires Lower(Strip(r.languages)) == "none"
    ensures Generated(r, decode)
         == Ok(if NonCodingQuestions(r.nonCoding) == [] then []
               else McqList(r.nonCodingMcqs(NonCodingQuestions(r.nonCoding)), decode))
  {
    var langs := ParseLanguages(r.languages);
    assert langs == [];
    assert CodingOf(r, decode) == Ok([]);
    var nc := NonCodingQuestions(r.nonCoding);
    var tail := if nc == [] then [] else McqList(r.nonCodingMcqs(nc), decode);
    assert Merged(r, decode, []) == [] + tail;
    assert [] + tail == tail;
  }

  /** When the model answers every coding prompt with as many questions as asked,
      the code as written sends `d * (5 // n) + 5 % n` coding questions to the
      conversion, `d` counting the distinct languages and `n` the listed ones. */
  lemma CodingCountAsWritten(r: Replies, decode: string -> Option<Json>)
    requires ParseLanguages(r.languages) != []
    requires RepliesHaveCounts(QuotaAsWritten(ParseLanguages(r.languages), TOTAL_CODING_QUESTIONS),
                               DecodedBatches(r.coding, decode))
    ensures var langs := ParseLanguages(r.languages);
            && CodingOf(r, decode).Ok?
            && |CodingOf(r, decode).value|
               == Times(|Dedup(langs)|, FloorDiv(TOTAL_CODING_QUESTIONS, |langs|)) + Mod(TOTAL_CODING_QUESTIONS, |langs|)
  {
    var langs := ParseLanguages(r.languages);
    var q := QuotaAsWritten(langs, TOTAL_CODING_QUESTIONS);
    var batch := DecodedBatches(r.coding, decode);
    AsWrittenAgreesOnLists(q, batch);
    CodingQuestionsCount(q, batch);
    QuotaAsWrittenTotal(langs, TOTAL_CODING_QUESTIONS);
  }

  /** With no language listed twice, and every coding reply holding as many
      questions as asked, the code as written sends five coding questions to the
      conversion. */
  lemma FiveCodingQuestions(r: Replies, decode: string -> Option<Json>)
    requires ParseLanguages(r.languages) != []
    requires var langs := ParseLanguages(r.languages);
             forall a, b :: 0 <= a < b < |langs| ==> langs[a] != langs[b]
    requires RepliesHaveCounts(QuotaAsWritten(ParseLanguages(r.languages), TOTAL_CODING_QUESTIONS),
                               DecodedBatches(r.coding, decode))
    ensures CodingOf(r, decode).Ok? && |CodingOf(r, decode).value| == TOTAL_CODING_QUESTIONS
  {
    var langs := ParseLanguages(r.languages);
    CodingCountAsWritten(r, decode);
    DedupOfDistinct(langs);
    FloorDivMod(TOTAL_CODING_QUESTIONS, |langs|);
  }

  /** With the intended quota, five coding questions go to the conversion whenever
      the model answers every coding prompt with as many questions as asked, even
      when a language is listed twice. */
  lemma FiveCodingQuestionsIntended(r: Replies, decode: string -> Option<Json>)
    requires ParseLanguages(r.languages) != []
    requires RepliesHaveCounts(Quota(ParseLanguages(r.languages), TOTAL_CODING_QUESTIONS), DecodedBatches(r.coding, decode))
    ensures |CodingOfIntended(r, decode)| == TOTAL_CODING_QUESTIONS
  {
    var langs := ParseLanguages(r.languages);
    var q := Quota(langs, TOTAL_CODING_QUESTIONS);
    CodingQuestionsCount(q, DecodedBatches(r.coding, decode));
    QuotaSharesTotal(langs, TOTAL_CODING_QUESTIONS);
  }

  /** With no language listed twice and every asked reply a list or unparsable, the
      code as written and the intended code generate the same questions. */
  lemma AsWrittenMatchesIntended(r: Replies, decode: string -> Option<Json>)
    requires var langs := ParseLanguages(r.languages);
             forall a, b :: 0 <= a < b < |langs| ==> langs[a] != langs[b]
    requires ParseLanguages(r.languages) != [] ==>
             RepliesAreLists(QuotaAsWritten(ParseLanguages(r.languages), TOTAL_CODING_QUESTIONS),
                             DecodedBatches(r.coding, decode))
    ensures Generated(r, decode) == Ok(GeneratedIntended(r, decode))
  {
    var langs := ParseLanguages(r.languages);
    if langs != [] {
      DedupOfDistinct(langs);
      assert Quota(langs, TOTAL_CODING_QUESTIONS) == QuotaAsWritten(langs, TOTAL_CODING_QUESTIONS);
      AsWrittenAgreesOnLists(QuotaAsWritten(langs, TOTAL_CODING_QUESTIONS), DecodedBatches(r.coding, decode));
    }
  }

  /** `generate_questions` as written: the languages, the quota over the listed
      languages, one coding call per language, the non-coding split, the two
      conversions and the merge into `{"questions": [...]}`; a `TypeError` raised
      while collecting the coding questions escapes. */
  method GenerateQuestions(r: Replies, decode: string -> Option<Json>) returns (result: Result<Json>)
    ensures Generated(r, decode).Ok? ==> result == Ok(JObj([("questions", JArr(Generated(r, decode).value))]))
    ensures Generated(r, decode).Err? ==> result == Err(Generated(r, decode).error)
  {
    var languageList := ParseLanguages(r.languages);
    var codingQuestions: seq<Json> := [];
    if languageList != [] {
      var quota := DistributeQuestions(languageList, TOTAL_CODING_QUESTIONS);
      var collected := CollectCodingQuestions(quota, r.coding, decode);
      if collected.Err? {
        return Err(collected.error);
      }
      codingQuestions := collected.value;
    }
    var nonCodingQuestions := NonCodingQuestions(r.nonCoding);
    var codingMcqs: seq<Json> := [];
    if codingQuestions != [] {
      codingMcqs := McqList(r.codingMcqs(codingQuestions), decode);
    }
    var nonCodingMcqs: seq<Json> := [];
    if nonCodingQuestions != [] {
      nonCodingMcqs := McqList(r.nonCodingMcqs(nonCodingQuestions), decode);
    }
    result := Ok(JObj([("questions", JArr(codingMcqs + nonCodingMcqs))]));
  }
}
