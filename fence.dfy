/** Cleaning the code fences a language model wraps around JSON: the transform
    the question generator calls `strip_json_codeblock` and the job matcher
    calls `clean_openai_json`. */
module CodeFence {
  import opened PyStr

  const FENCE: string := "```"
  const JSON_FENCE: string := "```json"

  /** The middle step of `strip_json_codeblock`: one leading "```json" (or else one
      leading "```") and one trailing "```" are dropped. */
  function DropFences(t: string): (r: string)
    ensures |r| <= |t|
  {
    var t1 := if StartsWith(t, JSON_FENCE) then t[7..] else if StartsWith(t, FENCE) then t[3..] else t;
    if EndsWith(t1, FENCE) then t1[..|t1| - 3] else t1
  }

  /** At most one fence goes at each end, and nothing else: "```json" (seven
      characters) when the text starts with it, otherwise "```" (three) when it
      starts with that, and "```" (three) at the back when what is left after
      the front fence ends with it. */
  lemma DropFencesInfix(t: string)
    ensures exists a, e ::
              && (a == 0 || a == 3 || a == 7) && (e == |t| || e == |t| - 3) && a <= e
              && (a == 7 <==> StartsWith(t, JSON_FENCE))
              && (a == 3 <==> !StartsWith(t, JSON_FENCE) && StartsWith(t, FENCE))
              && (e == |t| - 3 <==> EndsWith(t[a..], FENCE))
              && DropFences(t) == t[a..e]
  {
    var a := if StartsWith(t, JSON_FENCE) then 7 else if StartsWith(t, FENCE) then 3 else 0;
    var t1 := t[a..];
    var e := if EndsWith(t1, FENCE) then |t| - 3 else |t|;
    assert DropFences(t) == t[a..e];
  }

  /** `strip_json_codeblock`: trims the text, drops the fences and trims again. */
  function StripJsonCodeblock(text: string): (r: string)
    ensures Trimmed(r)
    ensures |r| <= |text|
  {
    Strip(DropFences(Strip(text)))
  }

  lemma JsonFenceIsFence(t: string)
    ensures StartsWith(t, JSON_FENCE) ==> StartsWith(t, FENCE)
  {
    if StartsWith(t, JSON_FENCE) {
      assert t[..3] == t[..7][..3];
    }
  }

  /** Text with no fence at either end after trimming comes back trimmed and otherwise unchanged. */
  lemma FencelessTextIsTrimmed(text: string)
    requires !StartsWith(Strip(text), FENCE) && !EndsWith(Strip(text), FENCE)
    ensures StripJsonCodeblock(text) == Strip(text)
  {
    JsonFenceIsFence(Strip(text));
    StripIdempotent(text);
  }

  lemma DropJsonFence(body: string)
    ensures DropFences(JSON_FENCE + body + FENCE) == body
  {
    var x := JSON_FENCE + body + FENCE;
    assert x[..7] == JSON_FENCE;
    var t1 := x[7..];
    assert t1 == body + FENCE;
    assert t1[|t1| - 3..] == FENCE;
    assert t1[..|t1| - 3] == body;
  }

  lemma DropPlainFence(body: string)
    requires !StartsWith(FENCE + body + FENCE, JSON_FENCE)
    ensures DropFences(FENCE + body + FENCE) == body
  {
    var x := FENCE + body + FENCE;
    assert x[..3] == FENCE;
    var t1 := x[3..];
    assert t1 == body + FENCE;
    assert t1[|t1| - 3..] == FENCE;
    assert t1[..|t1| - 3] == body;
  }

  /** A body fenced as "```json" … "```", with any surrounding whitespace, comes back
      as the trimmed body. */
  lemma JsonFencedRoundTrip(w1: string, body: string, w2: string)
    requires AllSpace(w1) && AllSpace(w2)
    ensures StripJsonCodeblock(w1 + JSON_FENCE + body + FENCE + w2) == Strip(body)
  {
    var x := JSON_FENCE + body + FENCE;
    assert w1 + JSON_FENCE + body + FENCE + w2 == w1 + x + w2;
    assert x[0] == '`' && x[|x| - 1] == '`';
    StripPadded(w1, x, w2);
    DropJsonFence(body);
  }

  /** A body fenced as "```" … "```" that does not itself start with "json" comes
      back as the trimmed body. */
  lemma PlainFencedRoundTrip(w1: string, body: string, w2: string)
    requires AllSpace(w1) && AllSpace(w2)
    requires !StartsWith(FENCE + body + FENCE, JSON_FENCE)
    ensures StripJsonCodeblock(w1 + FENCE + body + FENCE + w2) == Strip(body)
  {
    var x := FENCE + body + FENCE;
    assert w1 + FENCE + body + FENCE + w2 == w1 + x + w2;
    assert x[0] == '`' && x[|x| - 1] == '`';
    StripPadded(w1, x, w2);
    DropPlainFence(body);
  }
}
