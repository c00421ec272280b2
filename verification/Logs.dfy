/** The log classifier (src/log_classifier.py), with regular-expression search as an abstract predicate. */
module Logs {
  import opened Common
  import opened Verdicts

  datatype Category = Category(name: string, patterns: seq<string -> bool>)

  /** The category of every pattern list, and the thresholds configured beside the defaults. */
  datatype Classifier = Classifier(categories: seq<Category>, thresholds: map<string, int>)
  {
    ghost predicate Valid() {
      forall i, j | 0 <= i < j < |categories| :: categories[i].name != categories[j].name
    }

    predicate IsEmpty() {
      forall i | 0 <= i < |categories| :: categories[i].patterns == []
    }
  }

  const DEFAULT_THRESHOLDS: map<string, int> := map[
    "auth_lost" := 1,
    "refresh_failure" := 3,
    "database_failure" := 3,
    "token_decryption" := 1,
    "network_failure" := 5,
    "refresh_success" := 1
  ]

  /** White space as the program's language defines it for strings. */
  predicate IsSpace(c: char) {
    var n := c as int;
    || 9 <= n <= 13 || 28 <= n <= 32 || n in {0x85, 0xA0, 0x1680}
    || 0x2000 <= n <= 0x200A || n in {0x2028, 0x2029, 0x202F, 0x205F, 0x3000}
  }

  lemma AsciiSpace(c: char)
    requires c as int < 128
    ensures IsSpace(c) <==> c in {' ', '\t', '\n', '\r'} || c as int in {11, 12, 28, 29, 30, 31}
  {
  }

  predicate IsBlank(line: string) {
    forall i | 0 <= i < |line| :: IsSpace(line[i])
  }

  predicate Hits(c: Category, line: string) {
    !IsBlank(line) && exists i | 0 <= i < |c.patterns| :: c.patterns[i](line)
  }

  function CountHits(c: Category, lines: seq<string>): nat {
    if lines == [] then 0 else CountHits(c, Front(lines)) + if Hits(c, Last(lines)) then 1 else 0
  }

  function Get(counts: map<string, nat>, name: string): nat {
    if name in counts then counts[name] else 0
  }

  ghost predicate Counted(cl: Classifier, counts: map<string, nat>, lines: seq<string>) {
    && (forall i | 0 <= i < |cl.categories| :: Get(counts, cl.categories[i].name) == CountHits(cl.categories[i], lines))
    && OnlyHits(cl, counts)
  }

  /** Only categories with a hit have an entry. */
  ghost predicate OnlyHits(cl: Classifier, counts: map<string, nat>) {
    forall name | name in counts :: counts[name] > 0 && exists i :: 0 <= i < |cl.categories| && cl.categories[i].name == name
  }

  method Classify(cl: Classifier, lines: seq<string>) returns (counts: map<string, nat>)
    requires cl.Valid()
    ensures Counted(cl, counts, lines)
  {
    counts := map[];
    for l := 0 to |lines|
      invariant Counted(cl, counts, lines[..l])
    {
      assert Front(lines[..l + 1]) == lines[..l] && Last(lines[..l + 1]) == lines[l];
      if !IsBlank(lines[l]) {
        counts := ClassifyLine(cl, counts, lines[l]);
      }
    }
    assert lines[..|lines|] == lines;
  }

  /** The inner loop of `classify`: every category of one line. */
  method ClassifyLine(cl: Classifier, counts: map<string, nat>, line: string) returns (updated: map<string, nat>)
    requires cl.Valid() && !IsBlank(line) && OnlyHits(cl, counts)
    ensures forall i | 0 <= i < |cl.categories| ::
              Get(updated, cl.categories[i].name)
              == Get(counts, cl.categories[i].name) + if Hits(cl.categories[i], line) then 1 else 0
    ensures OnlyHits(cl, updated)
  {
    updated := counts;
    for k := 0 to |cl.categories|
      invariant forall i | 0 <= i < |cl.categories| ::
                  Get(updated, cl.categories[i].name)
                  == Get(counts, cl.categories[i].name) + if i < k && Hits(cl.categories[i], line) then 1 else 0
      invariant OnlyHits(cl, updated)
    {
      var c := cl.categories[k];
      if exists i | 0 <= i < |c.patterns| :: c.patterns[i](line) {
        updated := updated[c.name := Get(updated, c.name) + 1];
      }
    }
  }

  /** The line holds more than white space, and some pattern of the category matches it. */
  ghost predicate Matched(c: Category, line: string) {
    && (exists j :: 0 <= j < |line| && !IsSpace(line[j]))
    && exists k :: 0 <= k < |c.patterns| && c.patterns[k](line)
  }

  ghost function MatchedLines(c: Category, lines: seq<string>): set<nat> {
    set i: nat | i < |lines| && Matched(c, lines[i])
  }

  lemma HitsAreMatches(c: Category, line: string)
    ensures Hits(c, line) <==> Matched(c, line)
  {
  }

  lemma LastMatchedLine(c: Category, lines: seq<string>)
    requires lines != []
    ensures MatchedLines(c, lines) == MatchedLines(c, Front(lines)) + if Matched(c, Last(lines)) then {|lines| - 1} else {}
  {
    forall i: nat
      ensures i in MatchedLines(c, lines) <==>
              i in MatchedLines(c, Front(lines)) || (i == |lines| - 1 && Matched(c, Last(lines)))
    {
    }
  }

  /** The count of a category is the number of its matched lines: a line counts once however many patterns match. */
  lemma {:induction false} HitsAreMatchedLines(c: Category, lines: seq<string>)
    ensures CountHits(c, lines) == |MatchedLines(c, lines)|
  {
    if lines == [] {
      assert MatchedLines(c, lines) == {};
    } else {
      var front, last := Front(lines), |lines| - 1;
      HitsAreMatchedLines(c, front);
      HitsAreMatches(c, lines[last]);
      LastMatchedLine(c, lines);
      assert last !in MatchedLines(c, front);
    }
  }

  /** The count of a category by name; an unknown category has none. */
  function CountOf(cs: seq<Category>, name: string, lines: seq<string>): nat {
    if cs == [] then 0
    else if cs[0].name == name then CountHits(cs[0], lines)
    else CountOf(cs[1..], name, lines)
  }

  /** The dictionary `Classify` builds answers by name what the recursive count answers. */
  lemma {:induction false} EntriesAreCounts(cl: Classifier, counts: map<string, nat>, lines: seq<string>, name: string, k: nat)
    requires cl.Valid() && Counted(cl, counts, lines) && k <= |cl.categories|
    requires forall i | 0 <= i < k :: cl.categories[i].name != name
    ensures Get(counts, name) == CountOf(cl.categories[k..], name, lines)
    decreases |cl.categories| - k
  {
    if k < |cl.categories| && cl.categories[k].name != name {
      EntriesAreCounts(cl, counts, lines, name, k + 1);
      assert cl.categories[k..][1..] == cl.categories[k + 1..];
    }
  }

  function Threshold(cl: Classifier, name: string): int {
    if name in cl.thresholds then cl.thresholds[name]
    else if name in DEFAULT_THRESHOLDS then DEFAULT_THRESHOLDS[name]
    else 1
  }

  predicate Reached(cl: Classifier, name: string, lines: seq<string>) {
    CountOf(cl.categories, name, lines) >= Threshold(cl, name)
  }

  function Signals(cl: Classifier, lines: seq<string>): LogSignals {
    LogSignals(
      Reached(cl, "refresh_failure", lines),
      Reached(cl, "auth_lost", lines),
      Reached(cl, "database_failure", lines),
      Reached(cl, "token_decryption", lines),
      Reached(cl, "refresh_success", lines))
  }

  /** The log evidence of one check: none without patterns or without text. */
  function WindowSignals(cl: Classifier, lines: seq<string>): Option<LogSignals> {
    if cl.IsEmpty() || lines == [] then None else Some(Signals(cl, lines))
  }

  /** Whether the lines matched by the category `name`, if there is one, reach its threshold, configured or else `default`. */
  ghost predicate Confirms(cl: Classifier, lines: seq<string>, name: string, default: int) {
    var threshold := if name in cl.thresholds then cl.thresholds[name] else default;
    || (exists i :: 0 <= i < |cl.categories| && cl.categories[i].name == name && |MatchedLines(cl.categories[i], lines)| >= threshold)
    || ((forall i | 0 <= i < |cl.categories| :: cl.categories[i].name != name) && 0 >= threshold)
  }

  lemma {:induction false} CountByName(cs: seq<Category>, lines: seq<string>, name: string)
    requires forall i, j | 0 <= i < j < |cs| :: cs[i].name != cs[j].name
    ensures forall i | 0 <= i < |cs| && cs[i].name == name :: CountOf(cs, name, lines) == |MatchedLines(cs[i], lines)|
    ensures (forall i | 0 <= i < |cs| :: cs[i].name != name) ==> CountOf(cs, name, lines) == 0
  {
    if cs != [] {
      HitsAreMatchedLines(cs[0], lines);
      CountByName(cs[1..], lines, name);
      assert forall i | 1 <= i < |cs| :: cs[i] == cs[1..][i - 1];
    }
  }

  lemma ReachedIsConfirmed(cl: Classifier, lines: seq<string>, name: string, default: int)
    requires cl.Valid() && default == if name in DEFAULT_THRESHOLDS then DEFAULT_THRESHOLDS[name] else 1
    ensures Reached(cl, name, lines) <==> Confirms(cl, lines, name, default)
  {
    CountByName(cl.categories, lines, name);
  }

  /** Each signal is the confirmation of its own category, with its own default threshold. */
  lemma SignalsAreConfirmations(cl: Classifier, lines: seq<string>)
    requires cl.Valid()
    ensures var s := Signals(cl, lines);
            && (s.authRefreshFailing <==> Confirms(cl, lines, "refresh_failure", 3))
            && (s.authLost <==> Confirms(cl, lines, "auth_lost", 1))
            && (s.databaseFailure <==> Confirms(cl, lines, "database_failure", 3))
            && (s.tokenDecryptionFailure <==> Confirms(cl, lines, "token_decryption", 1))
            && (s.refreshSuccess <==> Confirms(cl, lines, "refresh_success", 1))
    ensures WindowSignals(cl, lines).None? <==> lines == [] || forall i | 0 <= i < |cl.categories| :: cl.categories[i].patterns == []
    ensures WindowSignals(cl, lines).Some? ==> WindowSignals(cl, lines).value == Signals(cl, lines)
  {
    ReachedIsConfirmed(cl, lines, "refresh_failure", 3);
    ReachedIsConfirmed(cl, lines, "auth_lost", 1);
    ReachedIsConfirmed(cl, lines, "database_failure", 3);
    ReachedIsConfirmed(cl, lines, "token_decryption", 1);
    ReachedIsConfirmed(cl, lines, "refresh_success", 1);
  }

  // ---- Additive and monotone -------------------------------------------------------------------

  lemma {:induction false} HitsAdd(c: Category, a: seq<string>, b: seq<string>)
    ensures CountHits(c, a + b) == CountHits(c, a) + CountHits(c, b)
  {
    if b == [] {
      assert a + b == a;
    } else {
      assert Front(a + b) == a + Front(b);
      HitsAdd(c, a, Front(b));
    }
  }

  /** Counts over concatenated windows are sums, category by category. */
  lemma {:induction false} CountsAreAdditive(cs: seq<Category>, name: string, a: seq<string>, b: seq<string>)
    ensures CountOf(cs, name, a + b) == CountOf(cs, name, a) + CountOf(cs, name, b)
  {
    if cs != [] {
      HitsAdd(cs[0], a, b);
      CountsAreAdditive(cs[1..], name, a, b);
    }
  }

  /** `small` is `big` with some lines left out. */
  predicate IsSublist(small: seq<string>, big: seq<string>) {
    if small == [] then true
    else if big == [] then false
    else
      || IsSublist(small, Front(big))
      || (Last(small) == Last(big) && IsSublist(Front(small), Front(big)))
  }

  lemma {:induction false} SublistHitsFewer(c: Category, small: seq<string>, big: seq<string>)
    requires IsSublist(small, big)
    ensures CountHits(c, small) <= CountHits(c, big)
  {
    if small != [] {
      if IsSublist(small, Front(big)) {
        SublistHitsFewer(c, small, Front(big));
      } else {
        SublistHitsFewer(c, Front(small), Front(big));
      }
    }
  }

  lemma {:induction false} SublistCountsFewer(cs: seq<Category>, name: string, small: seq<string>, big: seq<string>)
    requires IsSublist(small, big)
    ensures CountOf(cs, name, small) <= CountOf(cs, name, big)
  {
    if cs != [] {
      SublistHitsFewer(cs[0], small, big);
      SublistCountsFewer(cs[1..], name, small, big);
    }
  }

  /** A shorter window never raises a signal a longer one did not raise. */
  lemma SublistConfirmsLess(cl: Classifier, name: string, small: seq<string>, big: seq<string>)
    requires IsSublist(small, big) && Reached(cl, name, small)
    ensures Reached(cl, name, big)
  {
    SublistCountsFewer(cl.categories, name, small, big);
  }

  /**
   With everything else about the check fixed, a log-driven AUTH_REFRESH_FAILED that is gone for a
   window stays gone for every part of that window.
   */
  lemma ResolvedIncidentsStayResolved(cl: Classifier, o: Observation, window: seq<string>, part: seq<string>)
    requires IsSublist(part, window)
    requires Evaluate(o.(signals := WindowSignals(cl, window))).state != AuthRefreshFailed
    ensures Evaluate(o.(signals := WindowSignals(cl, part))).state != AuthRefreshFailed
  {
    if part != [] {
      forall name | Reached(cl, name, part)
        ensures Reached(cl, name, window)
      {
        SublistConfirmsLess(cl, name, part, window);
      }
    }
  }
}
