/** Keeping the first occurrence of each value of a sequence: the rule behind the
    title de-duplication of the job ranking and the key order of a dict built by
    a comprehension. */
module Distinct {

  /** The positions of `s` whose value does not occur earlier in `s`, ascending. */
  function FirstPositions<T(==)>(s: seq<T>): (ps: seq<nat>)
    ensures forall j :: 0 <= j < |ps| ==> ps[j] < |s|
    ensures forall i, j :: 0 <= i < j < |ps| ==> ps[i] < ps[j]
  {
    if s == [] then []
    else
      var n := |s| - 1;
      var ps := FirstPositions(s[..n]);
      if s[n] in s[..n] then ps else ps + [n]
  }

  /** A position is kept exactly when its value is new there. */
  lemma {:induction false} FirstPositionsAre<T>(s: seq<T>, p: int)
    ensures p in FirstPositions(s) <==> 0 <= p < |s| && s[p] !in s[..p]
  {
    if s != [] {
      var n := |s| - 1;
      FirstPositionsAre(s[..n], p);
      if 0 <= p < n {
        assert s[..n][..p] == s[..p];
      }
    }
  }

  /** Extending the sequence by one element extends the positions by at most that one. */
  lemma FirstPositionsStep<T>(s: seq<T>, i: nat)
    requires i < |s|
    ensures FirstPositions(s[..i + 1])
         == FirstPositions(s[..i]) + (if s[i] in s[..i] then [] else [i])
  {
    assert s[..i + 1][..i] == s[..i];
  }

  /** The positions found in a prefix are a prefix of the positions found in the whole. */
  lemma {:induction false} FirstPositionsPrefix<T>(s: seq<T>, i: nat)
    requires i <= |s|
    ensures FirstPositions(s[..i]) <= FirstPositions(s)
    decreases |s| - i
  {
    if i < |s| {
      FirstPositionsPrefix(s, i + 1);
      FirstPositionsStep(s, i);
      assert s[..|s|] == s;
    } else {
      assert s[..i] == s;
    }
  }

  /** The values at the given positions. */
  function At<T>(s: seq<T>, ps: seq<nat>): (r: seq<T>)
    requires forall j :: 0 <= j < |ps| ==> ps[j] < |s|
    ensures |r| == |ps| && forall j :: 0 <= j < |ps| ==> r[j] == s[ps[j]]
  {
    seq(|ps|, j requires 0 <= j < |ps| => s[ps[j]])
  }

  /** The distinct values of `s`, in order of first occurrence. */
  function Dedup<T(==, !new)>(s: seq<T>): (r: seq<T>)
    ensures forall x :: x in r <==> x in s
    ensures forall i, j :: 0 <= i < j < |r| ==> r[i] != r[j]
  {
    if s == [] then []
    else
      var n := |s| - 1;
      var p := Dedup(s[..n]);
      assert s == s[..n] + [s[n]];
      if s[n] in s[..n] then p else p + [s[n]]
  }

  /** `Dedup` reads off the values at the first positions. */
  lemma {:induction false} DedupAt<T(!new)>(s: seq<T>)
    ensures Dedup(s) == At(s, FirstPositions(s))
  {
    if s != [] {
      var n := |s| - 1;
      DedupAt(s[..n]);
      var ps := FirstPositions(s[..n]);
      assert At(s[..n], ps) == At(s, ps);
      if s[n] !in s[..n] {
        assert At(s, ps + [n]) == At(s, ps) + [s[n]];
      }
    }
  }

  /** Where `x` first occurs in `s`. */
  function FirstIndex<T(==)>(s: seq<T>, x: T): (p: nat)
    requires x in s
    ensures p < |s| && s[p] == x && x !in s[..p]
  {
    if s[0] == x then 0
    else
      var p := 1 + FirstIndex(s[1..], x);
      assert s[..p] == [s[0]] + s[1..][..p - 1];
      p
  }

  /** How often `x` occurs in `s`. */
  function Count<T(==)>(s: seq<T>, x: T): nat {
    if s == [] then 0 else Count(s[..|s| - 1], x) + (if s[|s| - 1] == x then 1 else 0)
  }

  lemma CountSnoc<T>(s: seq<T>, x: T, y: T)
    ensures Count(s + [x], y) == Count(s, y) + (if x == y then 1 else 0)
  {
    assert (s + [x])[..|s|] == s;
  }

  /** In a duplicate-free sequence a value occurs once in each prefix that reaches it. */
  lemma {:induction false} CountInDistinctPrefix<T>(s: seq<T>, m: nat, i: nat)
    requires m <= |s| && i < |s|
    requires forall a, b :: 0 <= a < b < |s| ==> s[a] != s[b]
    ensures Count(s[..m], s[i]) == if i < m then 1 else 0
  {
    if m > 0 {
      CountInDistinctPrefix(s, m - 1, i);
      assert s[..m][..m - 1] == s[..m - 1];
    }
  }

  /** A duplicate-free sequence is its own de-duplication. */
  lemma {:induction false} DedupOfDistinct<T(!new)>(s: seq<T>)
    requires forall a, b :: 0 <= a < b < |s| ==> s[a] != s[b]
    ensures Dedup(s) == s
  {
    if s != [] {
      var n := |s| - 1;
      DedupOfDistinct(s[..n]);
      assert s[n] !in s[..n];
      assert s == s[..n] + [s[n]];
    }
  }
}
