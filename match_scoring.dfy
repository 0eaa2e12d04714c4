/**
 * The match scorer of the CV scan wizard: a score scan of the text the
 * remote generative service replies with, and the local word-overlap
 * fallback used whenever that scan yields nothing.
 */
module MatchScoring {
  import opened Wrappers
  import opened PyStrings

  const NEUTRAL_REASON := "Neutral match"
  const ANALYSIS_REASON := "Gemini analysis completed"

  /** A score with the short reason stored beside it. */
  datatype Scored = Scored(score: real, reason: string)

  /** What the remote call came back with: an exception anywhere on the way
      (transport, timeout, a reply of the wrong shape), or an HTTP status with
      the reply texts of its `candidates` (empty when the list is missing or empty). */
  datatype ServiceOutcome = Raised | Replied(status: int, candidateTexts: seq<string>)

  // ---- fallback --------------------------------------------------------------

  /** `set(s.lower().split())`. */
  function WordSet(s: string): (r: set<string>)
    ensures forall w <- r :: w != [] && NoSpace(w)
  {
    set w | w in Words(Lower(s))
  }

  function CommonWords(job: string, cv: string): set<string> {
    WordSet(job) * WordSet(cv)
  }

  function ClampReal(x: real, lo: real, hi: real): real {
    var m := if x >= lo then x else lo;
    if m <= hi then m else hi
  }

  function OverlapReason(common: nat): string {
    "Basic matching: " + NatToString(common) + " common terms"
  }

  /** `30 + (k / n) * 50`, before the clamp. */
  function OverlapScore(k: nat, n: nat): real
    requires n > 0
  {
    30.0 + (k as real) / (n as real) * 50.0
  }

  /** `_calculate_simple_fallback`: the share of job words found in the CV,
      mapped onto 30..80; a job without words gives the neutral 50. */
  function Fallback(job: string, cv: string): (r: Scored)
    ensures 30.0 <= r.score <= 80.0
    ensures WordSet(job) == {} <==> r == Scored(50.0, NEUTRAL_REASON)
  {
    var jobWords := WordSet(job);
    var cvWords := WordSet(cv);
    var common := jobWords * cvWords;
    if jobWords != {} then
      var score := ClampReal(OverlapScore(|common|, |jobWords|), 30.0, 80.0);
      assert OverlapReason(|common|) != NEUTRAL_REASON by {
        assert OverlapReason(|common|)[0] == 'B';
      }
      Scored(score, OverlapReason(|common|))
    else
      Scored(50.0, NEUTRAL_REASON)
  }

  lemma SubsetCard<T>(a: set<T>, b: set<T>)
    requires a <= b
    ensures |a| <= |b|
  {
    assert b == a + (b - a);
  }

  /** A share between 0 and 1 lands in 30..80, 30 and 80 at the ends. */
  lemma {:induction false} OverlapScoreRange(k: nat, n: nat)
    requires 0 < n && k <= n
    ensures 30.0 <= OverlapScore(k, n) <= 80.0
    ensures k == 0 ==> OverlapScore(k, n) == 30.0
    ensures k == n ==> OverlapScore(k, n) == 80.0
  {
    var ratio := (k as real) / (n as real);
    assert ratio * (n as real) == k as real;
    assert (1.0 - ratio) * (n as real) == (n - k) as real;
    assert 0.0 <= ratio <= 1.0;
  }

  lemma {:induction false} OverlapScoreMonotone(k1: nat, k2: nat, n: nat)
    requires 0 < n && k1 <= k2
    ensures OverlapScore(k1, n) <= OverlapScore(k2, n)
  {
    var d := (k2 as real) / (n as real) - (k1 as real) / (n as real);
    assert d * (n as real) == (k2 - k1) as real;
    assert 0.0 <= d;
  }

  /** With at least one job word, the score is exactly 30 + 50·|common|/|job|
      (the clamp never bites) and the reason counts the common words. */
  lemma {:induction false} FallbackOverlap(job: string, cv: string)
    requires WordSet(job) != {}
    ensures Fallback(job, cv) == Scored(OverlapScore(|CommonWords(job, cv)|, |WordSet(job)|),
                                        OverlapReason(|CommonWords(job, cv)|))
    ensures |CommonWords(job, cv)| <= |WordSet(job)|
  {
    SubsetCard(CommonWords(job, cv), WordSet(job));
    OverlapScoreRange(|CommonWords(job, cv)|, |WordSet(job)|);
  }

  /** Every job word in the CV gives the top fallback score. */
  lemma FallbackFullOverlap(job: string, cv: string)
    requires WordSet(job) != {} && WordSet(job) <= WordSet(cv)
    ensures Fallback(job, cv).score == 80.0
  {
    assert CommonWords(job, cv) == WordSet(job);
    FallbackOverlap(job, cv);
    OverlapScoreRange(|WordSet(job)|, |WordSet(job)|);
  }

  /** No job word in the CV gives the bottom fallback score. */
  lemma FallbackNoOverlap(job: string, cv: string)
    requires WordSet(job) != {} && CommonWords(job, cv) == {}
    ensures Fallback(job, cv).score == 30.0
  {
    FallbackOverlap(job, cv);
    OverlapScoreRange(0, |WordSet(job)|);
  }

  /** For one job, a CV sharing more job words never scores lower. */
  lemma FallbackMonotone(job: string, cv1: string, cv2: string)
    requires |CommonWords(job, cv1)| <= |CommonWords(job, cv2)|
    ensures Fallback(job, cv1).score <= Fallback(job, cv2).score
  {
    if WordSet(job) != {} {
      FallbackOverlap(job, cv1);
      FallbackOverlap(job, cv2);
      OverlapScoreMonotone(|CommonWords(job, cv1)|, |CommonWords(job, cv2)|, |WordSet(job)|);
    }
  }

  // ---- the score scan of the reply text ---------------------------------------

  /** End of the run of word characters starting at `i` (`i` itself when there is none). */
  function RunEnd(s: string, i: nat): (j: nat)
    requires i <= |s|
    ensures i <= j <= |s|
    ensures forall k :: i <= k < j ==> IsWordChar(s[k])
    ensures j == |s| || !IsWordChar(s[j])
    decreases |s| - i
  {
    if i < |s| && IsWordChar(s[i]) then RunEnd(s, i + 1) else i
  }

  /** `\b` at position `k`: word-ness changes between `s[k-1]` and `s[k]`. */
  predicate Boundary(s: string, k: nat)
    requires k <= |s|
  {
    (k > 0 && IsWordChar(s[k - 1])) != (k < |s| && IsWordChar(s[k]))
  }

  /** `t` is matched in full by `[0-9]{1,2}0?`. */
  predicate NumberBody(t: string) {
    AllDigits(t) && (1 <= |t| <= 2 || (|t| == 3 && t[2] == '0'))
  }

  /** `\b([0-9]{1,2}0?)\b` matches `s[i..j]`. */
  predicate RegexMatchAt(s: string, i: nat, j: nat) {
    i < j <= |s| && Boundary(s, i) && NumberBody(s[i..j]) && Boundary(s, j)
  }

  predicate IsRunStart(s: string, i: nat) {
    i < |s| && IsWordChar(s[i]) && (i == 0 || !IsWordChar(s[i - 1]))
  }

  /** The pattern matches exactly the maximal word runs that consist of one or
      two digits, or of three digits ending in 0; so at a given start at most
      one end can match. */
  lemma RegexMatchIsNumberRun(s: string, i: nat, j: nat)
    requires i <= j <= |s|
    ensures RegexMatchAt(s, i, j) <==> IsRunStart(s, i) && j == RunEnd(s, i) && NumberBody(s[i..j])
  {
    if RegexMatchAt(s, i, j) {
      var t := s[i..j];
      assert forall k :: i <= k < j ==> IsWordChar(s[k]) by {
        forall k | i <= k < j ensures IsWordChar(s[k]) {
          assert t[k - i] == s[k];
        }
      }
      assert RunEnd(s, i) == j;
    }
    if IsRunStart(s, i) && j == RunEnd(s, i) && NumberBody(s[i..j]) {
      assert s[i..j][0] == s[i];
      assert IsWordChar(s[j - 1]);
    }
  }

  /** The scan of `re.findall(r'\b([0-9]{1,2}0?)\b', s)` resumed at position `i`
      (the boundary at `i` still looks at `s[i - 1]`; `FindNumbers(s, 0)` is the
      whole `findall`): at each position try the pattern (its only possible end
      is the end of the word run there); after a match resume at its end,
      otherwise one further. */
  function FindNumbers(s: string, i: nat): (found: seq<string>)
    requires i <= |s|
    ensures forall k :: 0 <= k < |found| ==> NumberBody(found[k])
    decreases |s| - i
  {
    if i == |s| then []
    else
      var j := RunEnd(s, i);
      if RegexMatchAt(s, i, j) then [s[i..j]] + FindNumbers(s, j)
      else FindNumbers(s, i + 1)
  }

  /** A run of word characters holds no match except at its own start. */
  lemma NoMatchInsideRun(s: string, i: nat, a: nat, b: nat)
    requires i <= |s| && i < a < RunEnd(s, i)
    ensures !RegexMatchAt(s, a, b)
  {
    assert IsWordChar(s[a - 1]) && IsWordChar(s[a]);
  }

  /** The only match that can start in the word run at `i` is the whole run. */
  lemma MatchesAtRun(s: string, i: nat)
    requires i < |s|
    ensures forall a: nat, b: nat :: i <= a < RunEnd(s, i) && RegexMatchAt(s, a, b) ==> a == i && b == RunEnd(s, i)
  {
    var j := RunEnd(s, i);
    forall a: nat, b: nat | i <= a < j ensures RegexMatchAt(s, a, b) ==> a == i && b == j {
      if a == i && i <= b <= |s| {
        RegexMatchIsNumberRun(s, i, b);
      } else if a > i {
        NoMatchInsideRun(s, i, a, b);
      }
    }
  }

  /** When the run at `i` is not a match, no match starts at `i`. */
  lemma NoMatchAt(s: string, i: nat)
    requires i < |s| && !RegexMatchAt(s, i, RunEnd(s, i))
    ensures forall b: nat :: !RegexMatchAt(s, i, b)
  {
    forall b: nat ensures !RegexMatchAt(s, i, b) {
      if i <= b <= |s| {
        RegexMatchIsNumberRun(s, i, b);
      }
    }
  }

  /** Enumeration, first step: when `s[a..b]` is the first match starting at or
      after `i`, the scan from `i` reports it first and then resumes at `b`. */
  lemma {:induction false} FindNumbersFirst(s: string, i: nat, a: nat, b: nat)
    requires i <= a && RegexMatchAt(s, a, b)
    requires forall a': nat, b': nat :: i <= a' < a && a' <= b' <= |s| ==> !RegexMatchAt(s, a', b')
    ensures FindNumbers(s, i) == [s[a..b]] + FindNumbers(s, b)
    decreases a - i
  {
    var j := RunEnd(s, i);
    if i == a {
      RegexMatchIsNumberRun(s, a, b);
    } else {
      assert !RegexMatchAt(s, i, j);
      FindNumbersFirst(s, i + 1, a, b);
    }
  }

  /** Enumeration, last step: the scan from `i` is empty exactly when no match
      starts at or after `i`. */
  lemma {:induction false} FindNumbersEmpty(s: string, i: nat)
    requires i <= |s|
    ensures FindNumbers(s, i) == [] <==> forall a: nat, b: nat :: i <= a <= b <= |s| ==> !RegexMatchAt(s, a, b)
    decreases |s| - i
  {
    if i < |s| {
      var j := RunEnd(s, i);
      if !RegexMatchAt(s, i, j) {
        FindNumbersEmpty(s, i + 1);
        forall b: nat | i <= b <= |s| ensures !RegexMatchAt(s, i, b) {
          RegexMatchIsNumberRun(s, i, b);
        }
      }
    }
  }

  predicate AllNumerals(numbers: seq<string>) {
    forall k :: 0 <= k < |numbers| ==> AllDigits(numbers[k])
  }

  /** The first of `numbers` whose value is at most 100, if any. */
  function FirstScore(numbers: seq<string>): (r: Option<nat>)
    requires AllNumerals(numbers)
    ensures r.None? <==> forall k :: 0 <= k < |numbers| ==> DigitsValue(numbers[k]) > 100
    ensures r.Some? ==> r.value <= 100
                        && exists k :: 0 <= k < |numbers| && DigitsValue(numbers[k]) == r.value
                                       && forall m :: 0 <= m < k ==> DigitsValue(numbers[m]) > 100
  {
    if numbers == [] then None
    else if DigitsValue(numbers[0]) <= 100 then Some(DigitsValue(numbers[0]))
    else
      var r := FirstScore(numbers[1..]);
      assert forall k :: 1 <= k < |numbers| ==> numbers[k] == numbers[1..][k - 1];
      if r.Some? then
        ghost var k :| 0 <= k < |numbers[1..]| && DigitsValue(numbers[1..][k]) == r.value
                       && forall m :: 0 <= m < k ==> DigitsValue(numbers[1..][m]) > 100;
        assert DigitsValue(numbers[k + 1]) == r.value;
        r
      else r
  }

  /** The score the reply text yields: the first regex match worth at most 100. */
  function ReplyScore(reply: string): (r: Option<nat>)
    ensures r.Some? ==> r.value <= 100
  {
    FirstScore(FindNumbers(reply, 0))
  }

  /** `s[a..b]` is the first match at or after `i` whose value is at most 100. */
  ghost predicate FirstLowMatch(s: string, i: nat, a: nat, b: nat) {
    i <= a && RegexMatchAt(s, a, b) && DigitsValue(s[a..b]) <= 100
    && forall a': nat, b': nat :: i <= a' < a && RegexMatchAt(s, a', b') ==> DigitsValue(s[a'..b']) > 100
  }

  lemma {:induction false} FindNumbersScore(s: string, i: nat, a: nat, b: nat)
    requires FirstLowMatch(s, i, a, b)
    ensures FirstScore(FindNumbers(s, i)) == Some(DigitsValue(s[a..b]))
    decreases a - i
  {
    var j := RunEnd(s, i);
    var found := FindNumbers(s, i);
    RegexMatchIsNumberRun(s, a, b);
    if RegexMatchAt(s, i, j) {
      if i < a {
        if a < j {
          assert false;
        }
        assert found[1..] == FindNumbers(s, j);
        FindNumbersScore(s, j, a, b);
      }
    } else {
      if i == a {
        assert false;
      }
      FindNumbersScore(s, i + 1, a, b);
    }
  }

  /** A run worth more than 100 is passed over by the score scan. */
  lemma FirstScoreSkipsHighRun(s: string, i: nat)
    requires i < |s| && RegexMatchAt(s, i, RunEnd(s, i)) && DigitsValue(s[i..RunEnd(s, i)]) > 100
    ensures FirstScore(FindNumbers(s, i)) == FirstScore(FindNumbers(s, RunEnd(s, i)))
  {
    assert FindNumbers(s, i)[1..] == FindNumbers(s, RunEnd(s, i));
  }

  /** A first low match after a run worth more than 100 is the first low match from the run. */
  lemma FirstLowMatchAfterHighRun(s: string, i: nat, a: nat, b: nat)
    requires i < |s| && RegexMatchAt(s, i, RunEnd(s, i)) && DigitsValue(s[i..RunEnd(s, i)]) > 100
    requires FirstLowMatch(s, RunEnd(s, i), a, b)
    ensures FirstLowMatch(s, i, a, b)
  {
    MatchesAtRun(s, i);
  }

  /** A first low match after a position where nothing matches is the first from there. */
  lemma FirstLowMatchAfterNoMatch(s: string, i: nat, a: nat, b: nat)
    requires i < |s| && !RegexMatchAt(s, i, RunEnd(s, i)) && FirstLowMatch(s, i + 1, a, b)
    ensures FirstLowMatch(s, i, a, b)
  {
    NoMatchAt(s, i);
  }

  /** The match a value found by the scan comes from. */
  lemma {:induction false} FindNumbersSomeScore(s: string, i: nat) returns (a: nat, b: nat)
    requires i <= |s| && FirstScore(FindNumbers(s, i)).Some?
    ensures FirstLowMatch(s, i, a, b) && DigitsValue(s[a..b]) == FirstScore(FindNumbers(s, i)).value
    decreases |s| - i
  {
    var j := RunEnd(s, i);
    if !RegexMatchAt(s, i, j) {
      a, b := FindNumbersSomeScore(s, i + 1);
      FirstLowMatchAfterNoMatch(s, i, a, b);
    } else if DigitsValue(s[i..j]) <= 100 {
      a, b := i, j;
    } else {
      FirstScoreSkipsHighRun(s, i);
      a, b := FindNumbersSomeScore(s, j);
      FirstLowMatchAfterHighRun(s, i, a, b);
    }
  }

  lemma {:induction false} FindNumbersNoScore(s: string, i: nat)
    requires i <= |s|
    ensures FirstScore(FindNumbers(s, i)).None?
            <==> forall a: nat, b: nat :: i <= a && RegexMatchAt(s, a, b) ==> DigitsValue(s[a..b]) > 100
    decreases |s| - i
  {
    if i < |s| {
      var j := RunEnd(s, i);
      var found := FindNumbers(s, i);
      if RegexMatchAt(s, i, j) {
        assert found[1..] == FindNumbers(s, j);
        FindNumbersNoScore(s, j);
        MatchesAtRun(s, i);
      } else {
        FindNumbersNoScore(s, i + 1);
        NoMatchAt(s, i);
      }
    }
  }

  /** The reply yields `v` exactly when the first match worth at most 100 is worth `v`. */
  lemma ReplyScoreIsFirstLowMatch(reply: string, v: nat)
    ensures ReplyScore(reply) == Some(v) <==> exists a: nat, b: nat :: FirstLowMatch(reply, 0, a, b) && DigitsValue(reply[a..b]) == v
  {
    if ReplyScore(reply) == Some(v) {
      var a, b := FindNumbersSomeScore(reply, 0);
    }
    if exists a: nat, b: nat :: FirstLowMatch(reply, 0, a, b) && DigitsValue(reply[a..b]) == v {
      var a: nat, b: nat :| FirstLowMatch(reply, 0, a, b) && DigitsValue(reply[a..b]) == v;
      FindNumbersScore(reply, 0, a, b);
    }
  }

  /** The reply yields no score exactly when every match is worth more than 100. */
  lemma ReplyScoreNone(reply: string)
    ensures ReplyScore(reply) == None <==> forall a: nat, b: nat :: RegexMatchAt(reply, a, b) ==> DigitsValue(reply[a..b]) > 100
  {
    FindNumbersNoScore(reply, 0);
  }

  /** A first match of one or two digits is always taken: it cannot exceed 100. */
  lemma ReplyScoreShortFirst(reply: string)
    requires FindNumbers(reply, 0) != [] && |FindNumbers(reply, 0)[0]| <= 2
    ensures ReplyScore(reply) == Some(DigitsValue(FindNumbers(reply, 0)[0]))
  {
    DigitsValueBound(FindNumbers(reply, 0)[0]);
  }

  /** The loop over the regex matches: the first one worth at most 100 wins. */
  method PickScore(numbers: seq<string>) returns (score: Option<nat>)
    requires AllNumerals(numbers)
    ensures score == FirstScore(numbers)
  {
    var i := 0;
    while i < |numbers|
      invariant 0 <= i <= |numbers|
      invariant FirstScore(numbers) == FirstScore(numbers[i..])
    {
      var value := DigitsValue(numbers[i]);
      if value <= 100 {
        return Some(value);
      }
      assert numbers[i..][1..] == numbers[i + 1..];
      i := i + 1;
    }
    return None;
  }

  // ---- the scorer ------------------------------------------------------------

  /** The remote path produced a usable score. */
  predicate ReplyUsable(outcome: ServiceOutcome) {
    outcome.Replied? && outcome.status == 200 && outcome.candidateTexts != []
    && ReplyScore(outcome.candidateTexts[0]).Some?
  }

  /** `_get_gemini_match_score`: the reply's score when the call succeeded with
      a usable reply, otherwise the fallback; never an error. */
  function MatchScore(job: string, cv: string, outcome: ServiceOutcome): (r: Scored)
    ensures 0.0 <= r.score <= 100.0
    ensures r.reason == ANALYSIS_REASON <==> ReplyUsable(outcome)
    ensures ReplyUsable(outcome) ==> r.score == ReplyScore(outcome.candidateTexts[0]).value as real
    ensures !ReplyUsable(outcome) ==> r == Fallback(job, cv)
  {
    FallbackReason(job, cv);
    if outcome.Replied? && outcome.status == 200 && outcome.candidateTexts != [] then
      match ReplyScore(outcome.candidateTexts[0])
      case Some(v) => Scored(v as real, ANALYSIS_REASON)
      case None => Fallback(job, cv)
    else
      Fallback(job, cv)
  }

  /** No fallback reason can be mistaken for the remote one. */
  lemma FallbackReason(job: string, cv: string)
    ensures Fallback(job, cv).reason != ANALYSIS_REASON
  {
    var r := Fallback(job, cv).reason;
    if WordSet(job) == {} {
      assert r[0] == 'N';
    } else {
      assert r == OverlapReason(|CommonWords(job, cv)|);
      assert r[0] == 'B';
    }
  }

  /** The scorer as the wizard runs it: regex scan, the loop over its matches,
      fallback. */
  method GetMatchScore(job: string, cv: string, outcome: ServiceOutcome) returns (score: real, reason: string)
    ensures Scored(score, reason) == MatchScore(job, cv, outcome)
  {
    if outcome.Replied? && outcome.status == 200 && outcome.candidateTexts != [] {
      var numbers := FindNumbers(outcome.candidateTexts[0], 0);
      var found := PickScore(numbers);
      if found.Some? {
        return found.value as real, ANALYSIS_REASON;
      }
    }
    var fallback := Fallback(job, cv);
    return fallback.score, fallback.reason;
  }
}
