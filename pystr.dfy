/** The few Python `str` operations the services rely on: `strip`, `startswith`,
    `endswith`, `upper`, `lower`, `title`, `split(sep)` and `replace`. */
module PyStr {
  import opened Wrappers

  /** Python's `str.isspace` on the Basic Multilingual Plane. */
  predicate IsSpace(c: char) {
    var n := c as int;
    || 0x09 <= n <= 0x0D || 0x1C <= n <= 0x20 || n == 0x85 || n == 0xA0 || n == 0x1680
    || 0x2000 <= n <= 0x200A || n == 0x2028 || n == 0x2029 || n == 0x202F || n == 0x205F
    || n == 0x3000
  }

  predicate AllSpace(s: string) {
    forall i :: 0 <= i < |s| ==> IsSpace(s[i])
  }

  /** No whitespace at either end: what `strip` leaves. */
  predicate Trimmed(s: string) {
    s == [] || (!IsSpace(s[0]) && !IsSpace(s[|s| - 1]))
  }

  /** How many whitespace characters `s` starts with. */
  function LeadingSpace(s: string): (n: nat)
    ensures n <= |s|
    ensures forall i :: 0 <= i < n ==> IsSpace(s[i])
    ensures n < |s| ==> !IsSpace(s[n])
  {
    if s != [] && IsSpace(s[0]) then 1 + LeadingSpace(s[1..]) else 0
  }

  /** How many whitespace characters `s` ends with. */
  function TrailingSpace(s: string): (n: nat)
    ensures n <= |s|
    ensures forall i :: |s| - n <= i < |s| ==> IsSpace(s[i])
    ensures n < |s| ==> !IsSpace(s[|s| - n - 1])
  {
    if s != [] && IsSpace(s[|s| - 1]) then 1 + TrailingSpace(s[..|s| - 1]) else 0
  }

  /** The leading whitespace is the run of spaces that ends at the first other
      character. */
  lemma LeadingSpaceIs(s: string, k: nat)
    requires k < |s| && !IsSpace(s[k]) && forall i :: 0 <= i < k ==> IsSpace(s[i])
    ensures LeadingSpace(s) == k
  {
  }

  /** The trailing whitespace is the run of spaces after the last other character. */
  lemma TrailingSpaceIs(s: string, k: nat)
    requires k < |s| && !IsSpace(s[|s| - k - 1]) && forall i :: |s| - k <= i < |s| ==> IsSpace(s[i])
    ensures TrailingSpace(s) == k
  {
  }

  /** `s.lstrip()` */
  function LStrip(s: string): (r: string)
    ensures r == [] || !IsSpace(r[0])
  {
    s[LeadingSpace(s)..]
  }

  /** `s.rstrip()` */
  function RStrip(s: string): (r: string)
    ensures r == [] || !IsSpace(r[|r| - 1])
  {
    s[..|s| - TrailingSpace(s)]
  }

  /** `s.strip()`: the longest infix with no whitespace at either end, after only
      whitespace has been dropped. */
  function Strip(s: string): (r: string)
    ensures Trimmed(r) && |r| <= |s|
  {
    RStrip(LStrip(s))
  }

  /** What `strip` keeps is an infix of its input with only whitespace around it. */
  lemma StripInfix(s: string)
    ensures var r := Strip(s);
            exists a :: 0 <= a <= |s| - |r| && r == s[a..a + |r|]
                        && AllSpace(s[..a]) && AllSpace(s[a + |r|..])
  {
    var a := LeadingSpace(s);
    var l := s[a..];
    var r := l[..|l| - TrailingSpace(l)];
    assert Strip(s) == r;
    assert r == s[a..a + |r|];
    assert AllSpace(s[..a]);
    assert AllSpace(s[a + |r|..]) by {
      assert s[a + |r|..] == l[|r|..];
    }
  }

  lemma AllSpaceConcat(a: string, b: string)
    requires AllSpace(a) && AllSpace(b)
    ensures AllSpace(a + b)
  {
  }

  /** Surrounding whitespace is exactly what `strip` removes. */
  lemma StripPadded(w1: string, x: string, w2: string)
    requires AllSpace(w1) && AllSpace(w2) && Trimmed(x)
    ensures Strip(w1 + x + w2) == x
  {
    var s := w1 + x + w2;
    if x == [] {
      assert AllSpace(s);
    } else {
      assert s[|w1|] == x[0];
      LeadingSpaceIs(s, |w1|);
      var l := s[|w1|..];
      assert l == x + w2;
      assert l[|x| - 1] == x[|x| - 1];
      TrailingSpaceIs(l, |w2|);
      assert l[..|x|] == x;
    }
  }

  /** A text with no whitespace at either end is left as it is. */
  lemma StripTrimmed(x: string)
    requires Trimmed(x)
    ensures Strip(x) == x
  {
    StripPadded([], x, []);
    assert [] + x + [] == x;
  }

  /** Stripping twice is stripping once. */
  lemma StripIdempotent(s: string)
    ensures Strip(Strip(s)) == Strip(s)
  {
    StripTrimmed(Strip(s));
  }

  /** `s.startswith(p)` */
  predicate StartsWith(s: string, p: string) {
    |p| <= |s| && s[..|p|] == p
  }

  /** `s.endswith(p)` */
  predicate EndsWith(s: string, p: string) {
    |p| <= |s| && s[|s| - |p|..] == p
  }

  predicate IsAsciiLower(c: char) { 'a' <= c <= 'z' }
  predicate IsAsciiUpper(c: char) { 'A' <= c <= 'Z' }

  function UpperChar(c: char): char {
    if IsAsciiLower(c) then (c as int - 32) as char else c
  }

  function LowerChar(c: char): char {
    if IsAsciiUpper(c) then (c as int + 32) as char else c
  }

  /** `s.upper()` on ASCII letters. */
  function Upper(s: string): (r: string)
    ensures |r| == |s| && forall i :: 0 <= i < |s| ==> r[i] == UpperChar(s[i])
  {
    seq(|s|, i requires 0 <= i < |s| => UpperChar(s[i]))
  }

  /** `s.lower()` on ASCII letters. */
  function Lower(s: string): (r: string)
    ensures |r| == |s| && forall i :: 0 <= i < |s| ==> r[i] == LowerChar(s[i])
  {
    seq(|s|, i requires 0 <= i < |s| => LowerChar(s[i]))
  }

  /** `s.title()` on ASCII letters: a letter is upper-cased when the character
      before it is not a letter, and lower-cased otherwise. */
  function Title(s: string): (r: string)
    ensures |r| == |s|
  {
    TitleAfter(s, false)
  }

  function TitleAfter(s: string, prevCased: bool): (r: string)
    ensures |r| == |s|
  {
    if s == [] then []
    else
      var c := s[0];
      var cased := IsAsciiLower(c) || IsAsciiUpper(c);
      [if !cased then c else if prevCased then LowerChar(c) else UpperChar(c)]
        + TitleAfter(s[1..], cased)
  }

  /** `sep` starts at position `j` of `s`. */
  predicate OccursAt(s: string, sep: string, j: int) {
    0 <= j && j + |sep| <= |s| && s[j..j + |sep|] == sep
  }

  predicate NoOccurrence(s: string, sep: string) {
    forall j :: 0 <= j <= |s| ==> !OccursAt(s, sep, j)
  }

  /** The first position at or after `k` where `sep` occurs (`s.find(sep, k)`). */
  function FindFrom(s: string, sep: string, k: nat): (r: Option<nat>)
    requires |sep| > 0
    ensures r.Some? ==> k <= r.value && OccursAt(s, sep, r.value)
    ensures forall j :: k <= j && (r.None? || j < r.value) ==> !OccursAt(s, sep, j)
    decreases |s| - k
  {
    if k + |sep| > |s| then None
    else if OccursAt(s, sep, k) then Some(k)
    else FindFrom(s, sep, k + 1)
  }

  /** `sep.join(parts)` */
  function Join(parts: seq<string>, sep: string): string {
    if parts == [] then []
    else if |parts| == 1 then parts[0]
    else parts[0] + sep + Join(parts[1..], sep)
  }

  /** `s.split(sep)`: the pieces between the non-overlapping occurrences of `sep`,
      found left to right. There is always at least one piece, no piece contains
      `sep`, and joining the pieces with `sep` gives `s` back. */
  function Split(s: string, sep: string): (r: seq<string>)
    requires |sep| > 0
    ensures |r| >= 1
    ensures Join(r, sep) == s
    ensures forall p :: p in r ==> NoOccurrence(p, sep)
    decreases |s|
  {
    match FindFrom(s, sep, 0)
    case None => [s]
    case Some(i) =>
      var head := s[..i];
      var rest := Split(s[i + |sep|..], sep);
      assert NoOccurrence(head, sep) by {
        forall j | 0 <= j <= |head| ensures !OccursAt(head, sep, j) {
          if OccursAt(head, sep, j) {
            assert s[j..j + |sep|] == head[j..j + |sep|];
            assert OccursAt(s, sep, j);
          }
        }
      }
      assert s == head + sep + s[i + |sep|..];
      [head] + rest
  }

  /** `sep` cannot start inside a prefix that lacks its first character. */
  lemma NoOccurrenceWithin(s: string, sep: string, n: nat)
    requires |sep| > 0 && n <= |s| && sep[0] !in s[..n]
    ensures forall j :: 0 <= j < n ==> !OccursAt(s, sep, j)
  {
    forall j | 0 <= j < n ensures !OccursAt(s, sep, j) {
      assert s[..n][j] == s[j];
      assert s[j] != sep[0];
    }
  }

  /** Splitting undoes joining when the separator's first character occurs in no part. */
  lemma {:induction false} SplitJoin(parts: seq<string>, sep: string)
    requires |sep| > 0 && |parts| >= 1
    requires forall p :: p in parts ==> sep[0] !in p
    ensures Split(Join(parts, sep), sep) == parts
  {
    var s := Join(parts, sep);
    var p0 := parts[0];
    if |parts| == 1 {
      assert s[..|s|] == s == p0;
      NoOccurrenceWithin(s, sep, |s|);
      assert FindFrom(s, sep, 0).None?;
    } else {
      var rest := Join(parts[1..], sep);
      assert s == p0 + sep + rest;
      assert s[..|p0|] == p0;
      assert s[|p0|..|p0| + |sep|] == sep;
      assert OccursAt(s, sep, |p0|);
      NoOccurrenceWithin(s, sep, |p0|);
      assert FindFrom(s, sep, 0) == Some(|p0|);
      assert s[|p0| + |sep|..] == rest;
      forall p | p in parts[1..] ensures sep[0] !in p {
        assert p in parts;
      }
      SplitJoin(parts[1..], sep);
      assert Split(s, sep) == [p0] + Split(rest, sep);
    }
  }

  /** `s.replace(c, repl)` for a one-character pattern. */
  function ReplaceChar(s: string, c: char, repl: string): (r: string)
    ensures c !in repl ==> c !in r
    ensures c !in s ==> r == s
  {
    if s == [] then []
    else (if s[0] == c then repl else [s[0]]) + ReplaceChar(s[1..], c, repl)
  }

  lemma {:induction false} ReplaceConcat(a: string, b: string, c: char, repl: string)
    ensures ReplaceChar(a + b, c, repl) == ReplaceChar(a, c, repl) + ReplaceChar(b, c, repl)
  {
    if a == [] {
      assert a + b == b;
    } else {
      assert (a + b)[1..] == a[1..] + b;
      ReplaceConcat(a[1..], b, c, repl);
    }
  }

  /** Replacing a one-character separator that no part contains re-joins the parts
      with the replacement. */
  lemma {:induction false} ReplaceJoin(parts: seq<string>, c: char, repl: string)
    requires forall p :: p in parts ==> c !in p
    ensures ReplaceChar(Join(parts, [c]), c, repl) == Join(parts, repl)
  {
    if |parts| == 1 {
      assert parts[0] in parts;
    } else if |parts| >= 2 {
      var p0 := parts[0];
      assert p0 in parts;
      var rest := Join(parts[1..], [c]);
      assert Join(parts, [c]) == (p0 + [c]) + rest;
      ReplaceConcat(p0 + [c], rest, c, repl);
      ReplaceConcat(p0, [c], c, repl);
      assert [c][1..] == [];
      assert ReplaceChar([c], c, repl) == repl + ReplaceChar([], c, repl) == repl;
      assert ReplaceChar(p0, c, repl) == p0;
      forall p | p in parts[1..] ensures c !in p {
        assert p in parts;
      }
      ReplaceJoin(parts[1..], c, repl);
      assert Join(parts, repl) == p0 + repl + Join(parts[1..], repl);
    }
  }

  /** Every character of a part is a character of the joined string. */
  lemma {:induction false} JoinHasPartChars(parts: seq<string>, sep: string, i: nat, ch: char)
    requires i < |parts| && ch in parts[i]
    ensures ch in Join(parts, sep)
  {
    if |parts| >= 2 && i > 0 {
      JoinHasPartChars(parts[1..], sep, i - 1, ch);
    }
  }

  /** `strip` only removes characters. */
  lemma StripChars(s: string, ch: char)
    requires ch in Strip(s)
    ensures ch in s
  {
    var a := LeadingSpace(s);
    var l := s[a..];
    var r := l[..|l| - TrailingSpace(l)];
    assert Strip(s) == r;
    var k :| 0 <= k < |r| && r[k] == ch;
    assert s[a + k] == ch;
  }

  function DigitChar(d: nat): char
    requires d < 10
  {
    ('0' as int + d) as char
  }

  function NatToStr(n: nat): (r: string)
    ensures |r| >= 1 && forall i :: 0 <= i < |r| ==> '0' <= r[i] <= '9'
  {
    if n < 10 then [DigitChar(n)] else NatToStr(n / 10) + [DigitChar(n % 10)]
  }

  /** `str(n)` for an integer. */
  function IntToStr(n: int): string {
    if n < 0 then "-" + NatToStr(-n) else NatToStr(n)
  }

  predicate AllDigits(s: string) {
    forall i :: 0 <= i < |s| ==> '0' <= s[i] <= '9'
  }

  /** The value of a non-empty run of decimal digits. */
  function DigitsValue(s: string): nat
    requires s != [] && AllDigits(s)
  {
    var n := |s| - 1;
    var d := (s[n] as int - '0' as int) as nat;
    if n == 0 then d else 10 * DigitsValue(s[..n]) + d
  }

  /** `int(s)` for an optional minus sign followed by decimal digits; any other
      text is `None`. */
  function ParseInt(s: string): Option<int> {
    if s != [] && s[0] == '-' then
      if |s| > 1 && AllDigits(s[1..]) then Some(0 - DigitsValue(s[1..]) as int) else None
    else if s != [] && AllDigits(s) then Some(DigitsValue(s))
    else None
  }

  lemma {:induction false} NatToStrValue(n: nat)
    ensures DigitsValue(NatToStr(n)) == n
  {
    if n >= 10 {
      var p := NatToStr(n / 10);
      NatToStrValue(n / 10);
      assert (p + [DigitChar(n % 10)])[..|p|] == p;
    }
  }

  /** `int(str(n)) == n`: the decimal text of an integer reads back as it. */
  lemma IntToStrRoundTrip(n: int)
    ensures ParseInt(IntToStr(n)) == Some(n)
  {
    if n < 0 {
      NegativeParses(-n);
      assert IntToStr(n) == "-" + NatToStr(-n);
    } else {
      NaturalParses(n);
      assert IntToStr(n) == NatToStr(n);
    }
  }

  lemma NaturalParses(m: nat)
    ensures ParseInt(NatToStr(m)) == Some(m)
  {
    var s := NatToStr(m);
    NatToStrValue(m);
    assert AllDigits(s) && s[0] != '-';
  }

  lemma NegativeParses(m: nat)
    requires m > 0
    ensures ParseInt("-" + NatToStr(m)) == Some(0 - m as int)
  {
    var t := NatToStr(m);
    var s := "-" + t;
    NatToStrValue(m);
    assert s[0] == '-' && s[1..] == t;
    assert AllDigits(t);
  }

  /** Different integers have different decimal texts. */
  lemma IntToStrInjective()
    ensures forall a, b :: IntToStr(a) == IntToStr(b) ==> a == b
  {
    forall a, b | IntToStr(a) == IntToStr(b) ensures a == b {
      IntToStrRoundTrip(a);
      IntToStrRoundTrip(b);
    }
  }

  /** `[p.strip() for p in parts if p.strip()]` */
  function StrippedNonEmpty(parts: seq<string>): (r: seq<string>)
    ensures forall q :: q in r ==> q != [] && Trimmed(q)
  {
    if parts == [] then []
    else
      var h := Strip(parts[0]);
      var rest := StrippedNonEmpty(parts[1..]);
      if h != [] then [h] + rest else rest
  }

  /** Every item of the list comprehension is the strip of a part, and every part
      that is not blank contributes its strip. */
  lemma {:induction false} StrippedNonEmptyItems(parts: seq<string>)
    ensures forall p :: p in parts && Strip(p) != [] ==> Strip(p) in StrippedNonEmpty(parts)
    ensures forall q :: q in StrippedNonEmpty(parts) ==> exists p :: p in parts && Strip(p) == q
  {
    if parts != [] {
      var rest := parts[1..];
      var r := StrippedNonEmpty(parts);
      StrippedNonEmptyItems(rest);
      forall p | p in parts && Strip(p) != [] ensures Strip(p) in r {
        if p != parts[0] {
          assert p in rest;
        }
      }
      forall q | q in r ensures exists p :: p in parts && Strip(p) == q {
        if Strip(parts[0]) != [] && q == Strip(parts[0]) {
          assert parts[0] in parts;
        } else {
          assert q in StrippedNonEmpty(rest);
          var p :| p in rest && Strip(p) == q;
          assert p in parts;
        }
      }
    }
  }

  /** Parts that are already stripped and non-empty pass through the comprehension
      unchanged. */
  lemma {:induction false} StrippedNonEmptyOfTrimmed(parts: seq<string>)
    requires forall p :: p in parts ==> p != [] && Trimmed(p)
    ensures StrippedNonEmpty(parts) == parts
  {
    if parts != [] {
      var x := parts[0];
      var rest := parts[1..];
      assert parts == [x] + rest;
      assert x in parts;
      StripTrimmed(x);
      forall p | p in rest
        ensures p != [] && Trimmed(p)
      {
        assert p in parts;
      }
      StrippedNonEmptyOfTrimmed(rest);
    }
  }

  /** A character missing from a joined string is missing from every part. */
  lemma JoinLacksChar(parts: seq<string>, sep: string, ch: char)
    requires ch !in Join(parts, sep)
    ensures forall i :: 0 <= i < |parts| ==> ch !in parts[i]
  {
    forall i | 0 <= i < |parts| && ch in parts[i] ensures false {
      JoinHasPartChars(parts, sep, i, ch);
    }
  }

  /** `strip` adds no character. */
  lemma StripLacksChar(s: string, ch: char)
    requires ch !in s
    ensures ch !in Strip(s)
  {
    if ch in Strip(s) {
      StripChars(s, ch);
    }
  }
}
