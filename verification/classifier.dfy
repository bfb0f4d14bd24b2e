/** The InPlayGuru alert classifier (`is_inplayguru_alert`, main.py).

    A message is an alert when it is at least 80 characters long, at least
    3 of the 16 content patterns occur in it, and none of the 5 exclusion
    patterns does. The regular-expression engine itself is a parameter: a
    `Matcher` says whether the body of a pattern matches the text starting at
    a given index. The `^` anchor is modelled here, because the two pattern
    lists are searched with different flags: content patterns with
    IGNORECASE | MULTILINE (an anchor may sit at the start of any line),
    exclusion patterns with IGNORECASE only (an anchor sits at index 0). */
module Classifier {

  /** The `re` flags that differ between the two searches. */
  datatype Flags = Flags(ignoreCase: bool, multiline: bool)

  const ContentFlags := Flags(true, true)
  const ExclusionFlags := Flags(true, false)

  /** The regex engine: `m(body, text, pos, ignoreCase)` holds when `body`
      (a pattern with any leading `^` removed) matches `text` from index `pos`.
      MULTILINE is not passed on: it changes only `^` and `$`, and the bodies
      of the patterns below contain neither. */
  type Matcher = (string, string, int, bool) -> bool

  /** Shorter messages are rejected before any pattern is tried. */
  const MinAlertLength := 80

  /** Number of distinct content patterns that make a message likely an alert. */
  const MinMatches := 3

  /** `ALERT_PATTERNS`, as the regex source strings. */
  const AlertPatterns: seq<string> := [
    @"Strike Rate %:\s*\d+",
    @"1X2 Pre-Match Odds:\s*[\d.]+",
    @"Over/Under\s+[\d.]+\s+Odds:",
    @"Timer:\s*\d+\'",
    @"Kickoff:\s*In\s*\d+",
    @"Goals:\s*\d+\s*[-–]\s*\d+",
    @"^BTTS\s*:\s*(yes|no)",
    @"^DRAW\s*\[HISTO\].*\d+%",
    @"^H\s*win\s*\[HISTO\].*\d+%",
    @"^A\s*win\s*\[HISTO\].*\d+%",
    @"Europe Friendlies|Premier League|Championship|Liga|Serie A|Bundesliga|Cosafa",
    @"\w+\s+vs\s+\w+",
    @"HT Score:\s*\d+-\d+",
    @"FT Score:\s*\d+-\d+",
    @"Last Goal:\s*\w+\s*at\s*\d+",
    @"Hit|Miss"
  ]

  /** The exclusion patterns local to `is_inplayguru_alert`. */
  const ExclusionPatterns: seq<string> := [
    @"^(good\s+morning|hello|hi|thanks|thank\s+you)",
    @"(question|help|how.*work|settings|admin)",
    @"^/\w+",
    @"^(welcome|bienvenue)",
    @"(subscribe|unsubscribe|subscription)"
  ]

  /** In every pattern above a `^` occurs only as the first character, and
      none contains `$`. */
  predicate Anchored(p: string) {
    |p| > 0 && p[0] == '^'
  }

  function Body(p: string): string {
    if Anchored(p) then p[1..] else p
  }

  /** Index `i` begins a line of `t`: the start of the text or just after a newline. */
  predicate LineStart(t: string, i: int) {
    i == 0 || (0 < i <= |t| && t[i - 1] == '\n')
  }

  /** `re.search` may try pattern `p` at index `i` of `t`. */
  predicate StartAllowed(p: string, t: string, flags: Flags, i: int) {
    0 <= i <= |t| &&
    (!Anchored(p) || i == 0 || (flags.multiline && LineStart(t, i)))
  }

  /** `re.search(p, t, flags)` finds a match. */
  predicate Search(m: Matcher, p: string, t: string, flags: Flags) {
    exists i | 0 <= i <= |t| :: StartAllowed(p, t, flags, i) && m(Body(p), t, i, flags.ignoreCase)
  }

  predicate Distinct(ps: seq<string>) {
    forall i, j :: 0 <= i < j < |ps| ==> ps[i] != ps[j]
  }

  /** The patterns of `ps` that `t` matches, in list order: the
      `pattern_matches` list. */
  function Matching(m: Matcher, ps: seq<string>, t: string, flags: Flags): (r: seq<string>)
    ensures |r| <= |ps|
    ensures forall p :: p in r ==> p in ps && Search(m, p, t, flags)
    ensures forall p :: p in ps && Search(m, p, t, flags) ==> p in r
    decreases |ps|
  {
    if ps == [] then []
    else
      var init := ps[..|ps| - 1];
      var last := ps[|ps| - 1];
      assert ps == init + [last];
      Matching(m, init, t, flags) + (if Search(m, last, t, flags) then [last] else [])
  }

  /** Trying one more pattern appends it to the matches exactly when it matches. */
  lemma MatchingSnoc(m: Matcher, ps: seq<string>, p: string, t: string, flags: Flags)
    ensures Matching(m, ps + [p], t, flags) ==
            Matching(m, ps, t, flags) + (if Search(m, p, t, flags) then [p] else [])
  {
    assert (ps + [p])[..|ps|] == ps;
  }

  /** `pattern_matches`: the content patterns found in `t`. */
  function MatchedPatterns(m: Matcher, t: string): seq<string> {
    Matching(m, AlertPatterns, t, ContentFlags)
  }

  /** `matches_count`. */
  function MatchCount(m: Matcher, t: string): nat {
    |MatchedPatterns(m, t)|
  }

  /** `has_exclusions`. */
  predicate HasExclusion(m: Matcher, t: string) {
    exists j :: 0 <= j < |ExclusionPatterns| && Search(m, ExclusionPatterns[j], t, ExclusionFlags)
  }

  /** The decision rule: long enough, at least 3 content patterns, no exclusion. */
  predicate IsAlert(m: Matcher, t: string) {
    |t| >= MinAlertLength && MatchCount(m, t) >= MinMatches && !HasExclusion(m, t)
  }

  /** The loop building `pattern_matches`: every pattern of `ps` tried once, in order. */
  method CollectMatches(m: Matcher, ps: seq<string>, t: string, flags: Flags) returns (matched: seq<string>)
    ensures matched == Matching(m, ps, t, flags)
  {
    matched := [];
    var k := 0;
    while k < |ps|
      invariant 0 <= k <= |ps|
      invariant matched == Matching(m, ps[..k], t, flags)
    {
      var p := ps[k];
      assert ps[..k + 1] == ps[..k] + [p];
      MatchingSnoc(m, ps[..k], p, t, flags);
      if Search(m, p, t, flags) {
        matched := matched + [p];
      }
      k := k + 1;
    }
    assert ps[..k] == ps;
  }

  /** The short-circuiting `any` over the exclusion patterns. */
  method AnyExclusion(m: Matcher, t: string) returns (excluded: bool)
    ensures excluded <==> HasExclusion(m, t)
  {
    excluded := false;
    var j := 0;
    while j < |ExclusionPatterns| && !excluded
      invariant 0 <= j <= |ExclusionPatterns|
      invariant excluded <==> exists i :: 0 <= i < j && Search(m, ExclusionPatterns[i], t, ExclusionFlags)
    {
      excluded := Search(m, ExclusionPatterns[j], t, ExclusionFlags);
      j := j + 1;
    }
  }

  /** What one classification yields: the verdict, and the `pattern_matches`
      list the source logs (empty when the text is rejected for its length). */
  datatype Analysis = Analysis(alert: bool, matched: seq<string>)

  /** `is_inplayguru_alert`. */
  method Classify(m: Matcher, t: string) returns (a: Analysis)
    ensures a.alert <==> IsAlert(m, t)
    ensures |t| < MinAlertLength ==> !a.alert && a.matched == []
    ensures |t| >= MinAlertLength ==> a.matched == MatchedPatterns(m, t)
  {
    if |t| < MinAlertLength {
      a := Analysis(false, []);
    } else {
      var matched := CollectMatches(m, AlertPatterns, t, ContentFlags);
      var likely := |matched| >= MinMatches;
      var excluded := AnyExclusion(m, t);
      a := Analysis(likely && !excluded, matched);
    }
  }

  // ---------------------------------------------------------------------
  // Counting

  lemma AlertPatternsDistinct()
    ensures |AlertPatterns| == 16
    ensures Distinct(AlertPatterns)
  {
  }

  /** No pattern enters the match list twice. */
  lemma {:induction false} MatchingKeepsDistinct(m: Matcher, ps: seq<string>, t: string, flags: Flags)
    requires Distinct(ps)
    ensures Distinct(Matching(m, ps, t, flags))
    decreases |ps|
  {
    if ps != [] {
      var init := ps[..|ps| - 1];
      var last := ps[|ps| - 1];
      assert ps == init + [last];
      assert Distinct(init);
      MatchingKeepsDistinct(m, init, t, flags);
      assert last !in init;
    }
  }

  /** `matches_count` counts each distinct matching pattern exactly once. */
  lemma {:induction false} MatchingCountsDistinctPatterns(m: Matcher, ps: seq<string>, t: string, flags: Flags)
    requires Distinct(ps)
    ensures |Matching(m, ps, t, flags)| == |set p | p in ps && Search(m, p, t, flags)|
    decreases |ps|
  {
    if ps != [] {
      var init := ps[..|ps| - 1];
      var last := ps[|ps| - 1];
      assert ps == init + [last];
      assert Distinct(init);
      MatchingCountsDistinctPatterns(m, init, t, flags);
      var before := set p | p in init && Search(m, p, t, flags);
      var after := set p | p in ps && Search(m, p, t, flags);
      assert last !in init;
      if Search(m, last, t, flags) {
        assert after == before + {last};
      } else {
        assert after == before;
      }
    }
  }

  /** `matches_count` is the number of distinct content patterns found, hence at most 16. */
  lemma MatchCountIsNumberOfMatchingPatterns(m: Matcher, t: string)
    ensures MatchCount(m, t) == |set p | p in AlertPatterns && Search(m, p, t, ContentFlags)|
    ensures 0 <= MatchCount(m, t) <= 16
  {
    AlertPatternsDistinct();
    MatchingCountsDistinctPatterns(m, AlertPatterns, t, ContentFlags);
  }

  /** When every pattern of `ps` matches, none is dropped. */
  lemma {:induction false} MatchingAll(m: Matcher, ps: seq<string>, t: string, flags: Flags)
    requires forall i :: 0 <= i < |ps| ==> Search(m, ps[i], t, flags)
    ensures Matching(m, ps, t, flags) == ps
    decreases |ps|
  {
    if ps != [] {
      var init := ps[..|ps| - 1];
      assert ps == init + [ps[|ps| - 1]];
      MatchingAll(m, init, t, flags);
    }
  }

  /** More matching patterns give a count at least as large. */
  lemma {:induction false} MatchingMonotone(m: Matcher, ps: seq<string>, t1: string, t2: string, flags: Flags)
    requires forall p :: p in ps && Search(m, p, t1, flags) ==> Search(m, p, t2, flags)
    ensures |Matching(m, ps, t1, flags)| <= |Matching(m, ps, t2, flags)|
    decreases |ps|
  {
    if ps != [] {
      var init := ps[..|ps| - 1];
      assert ps == init + [ps[|ps| - 1]];
      MatchingMonotone(m, init, t1, t2, flags);
    }
  }

  // ---------------------------------------------------------------------
  // The decision rule

  /** The rule spelt out: length, count threshold and the exclusion veto. */
  lemma AlertIff(m: Matcher, t: string)
    ensures IsAlert(m, t) <==>
      |t| >= MinAlertLength &&
      |set p | p in AlertPatterns && Search(m, p, t, ContentFlags)| >= MinMatches &&
      forall j :: 0 <= j < |ExclusionPatterns| ==> !Search(m, ExclusionPatterns[j], t, ExclusionFlags)
  {
    MatchCountIsNumberOfMatchingPatterns(m, t);
  }

  /** Exclusion dominates: with every content pattern matching, one exclusion
      match still vetoes the alert. */
  lemma ExclusionDominates(m: Matcher, t: string, j: int)
    requires forall i :: 0 <= i < |AlertPatterns| ==> Search(m, AlertPatterns[i], t, ContentFlags)
    requires 0 <= j < |ExclusionPatterns| && Search(m, ExclusionPatterns[j], t, ExclusionFlags)
    ensures MatchCount(m, t) == 16
    ensures !IsAlert(m, t)
  {
    MatchingAll(m, AlertPatterns, t, ContentFlags);
  }

  /** A long text on which every content pattern matches and no exclusion does is an alert. */
  lemma AllPatternsNoExclusionIsAlert(m: Matcher, t: string)
    requires |t| >= MinAlertLength
    requires forall i :: 0 <= i < |AlertPatterns| ==> Search(m, AlertPatterns[i], t, ContentFlags)
    requires !HasExclusion(m, t)
    ensures IsAlert(m, t)
  {
    MatchingAll(m, AlertPatterns, t, ContentFlags);
  }

  /** Monotonicity: a long, exclusion-free text matching every content pattern
      an alert matches is an alert as well. */
  lemma AlertMonotone(m: Matcher, t1: string, t2: string)
    requires IsAlert(m, t1)
    requires |t2| >= MinAlertLength && !HasExclusion(m, t2)
    requires forall p :: p in AlertPatterns && Search(m, p, t1, ContentFlags) ==> Search(m, p, t2, ContentFlags)
    ensures IsAlert(m, t2)
  {
    MatchingMonotone(m, AlertPatterns, t1, t2, ContentFlags);
  }

  // ---------------------------------------------------------------------
  // Anchors and flags

  /** An anchored exclusion only looks at the very start of the text. */
  lemma AnchoredExclusionAtTextStart(m: Matcher, p: string, t: string)
    requires Anchored(p)
    ensures Search(m, p, t, ExclusionFlags) <==> m(Body(p), t, 0, true)
  {
  }

  /** An anchored content pattern may match at the start of any line. */
  lemma AnchoredContentAtLineStarts(m: Matcher, p: string, t: string)
    requires Anchored(p)
    ensures Search(m, p, t, ContentFlags) <==> exists i | 0 <= i <= |t| :: LineStart(t, i) && m(Body(p), t, i, true)
  {
  }

  /** For unanchored patterns the MULTILINE flag makes no difference. This
      holds because the matcher is not told about MULTILINE; that is faithful
      only for patterns with no `$` and no `^` after the first character,
      which is true of every pattern in both lists above. */
  lemma UnanchoredIgnoresMultiline(m: Matcher, p: string, t: string)
    requires !Anchored(p)
    ensures Search(m, p, t, ContentFlags) <==> Search(m, p, t, ExclusionFlags)
  {
  }

  /** A greeting on a later line is seen by a MULTILINE search but does not
      trigger the anchored exclusion searched without it. */
  lemma LaterLineDoesNotTriggerAnchoredExclusion(m: Matcher, p: string, t: string, i: int)
    requires Anchored(p)
    requires 0 < i <= |t| && t[i - 1] == '\n' && m(Body(p), t, i, true)
    requires forall k :: 0 <= k <= |t| && k != i ==> !m(Body(p), t, k, true)
    ensures Search(m, p, t, ContentFlags)
    ensures !Search(m, p, t, ExclusionFlags)
  {
    assert StartAllowed(p, t, ContentFlags, i);
  }
}
