/** Names of diagnostics bundles (src/diagnostics.py, `_unique_directory`) over the names that already exist. */
module Bundles {
  import opened Common

  function Digit(d: nat): char
    requires d < 10
  {
    "0123456789"[d]
  }

  /** The decimal numeral. */
  function Numeral(n: nat): (s: string)
    ensures s != ""
  {
    if n < 10 then [Digit(n)] else Numeral(n / 10) + [Digit(n % 10)]
  }

  /** What is tried at attempt `k`: the plain name first, then the name with suffix 2, 3, and so on. */
  function Candidate(base: string, k: nat): string
    requires k >= 1
  {
    if k == 1 then base else base + "-" + Numeral(k)
  }

  ghost function DigitValue(c: char): int {
    c as int - 48
  }

  ghost function Value(s: string): int {
    if s == "" then 0 else Value(Front(s)) * 10 + DigitValue(Last(s))
  }

  lemma {:induction false} NumeralHasItsValue(n: nat)
    ensures Value(Numeral(n)) == n
  {
    var d := n % 10;
    assert DigitValue(Digit(d)) == d;
    if n < 10 {
      assert Front([Digit(n)]) == "";
    } else {
      NumeralHasItsValue(n / 10);
      assert Front(Numeral(n / 10) + [Digit(d)]) == Numeral(n / 10);
    }
  }

  lemma CandidatesAreDistinct(base: string, a: nat, b: nat)
    requires a >= 1 && b >= 1 && Candidate(base, a) == Candidate(base, b)
    ensures a == b
  {
    if a > 1 && b > 1 {
      assert (base + "-" + Numeral(a))[|base| + 1..] == Numeral(a);
      assert (base + "-" + Numeral(b))[|base| + 1..] == Numeral(b);
      NumeralHasItsValue(a);
      NumeralHasItsValue(b);
    }
  }

  ghost predicate IsDigit(c: char) {
    '0' <= c <= '9'
  }

  lemma {:induction false} NumeralIsPlain(n: nat)
    requires n > 0
    ensures var s := Numeral(n); |s| > 0 && s[0] != '0' && forall i | 0 <= i < |s| :: IsDigit(s[i])
  {
    if n >= 10 {
      NumeralIsPlain(n / 10);
    }
  }

  /** The name tried at attempt `k > 1` is the plain one, a dash, and the decimal number without leading zeros. */
  lemma CandidateShape(base: string, k: nat)
    requires k > 1
    ensures var name := Candidate(base, k);
            && |name| > |base| + 1 && name[..|base|] == base && name[|base|] == '-'
            && Value(name[|base| + 1..]) == k && name[|base| + 1] != '0'
            && (forall i | |base| + 1 <= i < |name| :: IsDigit(name[i]))
    ensures Candidate(base, 1) == base
  {
    var name := Candidate(base, k);
    assert name[|base| + 1..] == Numeral(k);
    NumeralHasItsValue(k);
    NumeralIsPlain(k);
    forall i | |base| + 1 <= i < |name|
      ensures IsDigit(name[i])
    {
      assert name[i] == Numeral(k)[i - |base| - 1];
    }
  }

  /** The first candidate not taken. */
  ghost predicate FirstFree(existing: set<string>, base: string, name: string) {
    && name !in existing
    && exists k: nat :: FreeAt(existing, base, k) && name == Candidate(base, k)
  }

  ghost predicate FreeAt(existing: set<string>, base: string, k: nat) {
    k >= 1 && Candidate(base, k) !in existing && forall j: nat | 1 <= j < k :: Candidate(base, j) in existing
  }

  ghost function Tried(base: string, k: nat): set<string> {
    set j | 1 <= j < k :: Candidate(base, j)
  }

  lemma NextIsUntried(base: string, k: nat)
    requires k >= 1
    ensures Candidate(base, k) !in Tried(base, k)
    ensures Tried(base, k + 1) == Tried(base, k) + {Candidate(base, k)}
  {
    if j :| 1 <= j < k && Candidate(base, j) == Candidate(base, k) {
      CandidatesAreDistinct(base, j, k);
    }
  }

  /** Terminates for every finite set of names: each failed attempt uses up one of them. */
  method UniqueDirectory(existing: set<string>, base: string) returns (candidate: string)
    ensures FirstFree(existing, base, candidate)
  {
    candidate := base;
    var suffix := 2;
    while candidate in existing
      invariant suffix >= 2 && candidate == Candidate(base, suffix - 1)
      invariant forall j: nat | 1 <= j < suffix - 1 :: Candidate(base, j) in existing
      decreases existing - Tried(base, suffix - 1)
    {
      NextIsUntried(base, suffix - 1);
      candidate := base + "-" + Numeral(suffix);
      suffix := suffix + 1;
    }
    assert FreeAt(existing, base, suffix - 1);
  }

  /** The attempt at which the loop stops, counting on from attempt `k`. */
  ghost function StopsAt(existing: set<string>, base: string, k: nat): (n: nat)
    requires k >= 1 && forall j: nat | 1 <= j < k :: Candidate(base, j) in existing
    ensures FreeAt(existing, base, n)
    decreases existing - Tried(base, k)
  {
    NextIsUntried(base, k);
    if Candidate(base, k) in existing then StopsAt(existing, base, k + 1) else k
  }

  /** The directory one capture creates. */
  ghost function Chosen(existing: set<string>, base: string): string {
    Candidate(base, StopsAt(existing, base, 1))
  }

  /** There is one first free name, the one that is chosen. */
  lemma ChosenIsFirstFree(existing: set<string>, base: string, name: string)
    ensures FirstFree(existing, base, name) <==> name == Chosen(existing, base)
  {
    var n := StopsAt(existing, base, 1);
    assert FreeAt(existing, base, n);
    forall k: nat | FreeAt(existing, base, k)
      ensures k == n
    {
    }
  }

  function Elements(names: seq<string>): set<string> {
    set name | name in names
  }

  /** The directories a run of captures creates, with none deleted in between. */
  ghost function Captures(existing: set<string>, bases: seq<string>): (names: seq<string>)
    ensures |names| == |bases|
  {
    if bases == [] then []
    else
      var names := Captures(existing, Front(bases));
      names + [Chosen(existing + Elements(names), Last(bases))]
  }

  ghost predicate NewAndDistinct(existing: set<string>, names: seq<string>) {
    && (forall i | 0 <= i < |names| :: names[i] !in existing)
    && forall i, j | 0 <= i < j < |names| :: names[i] != names[j]
  }

  lemma OneMoreName(existing: set<string>, names: seq<string>, name: string)
    requires NewAndDistinct(existing, names) && name !in existing + Elements(names)
    ensures NewAndDistinct(existing, names + [name])
  {
    assert forall i | 0 <= i < |names| :: names[i] in Elements(names);
  }

  /** No bundle of a run lands on an existing one or on another of the run, even with equal base names. */
  lemma {:induction false} BundlesNeverCollide(existing: set<string>, bases: seq<string>)
    ensures NewAndDistinct(existing, Captures(existing, bases))
  {
    if bases != [] {
      BundlesNeverCollide(existing, Front(bases));
      var names := Captures(existing, Front(bases));
      var taken := existing + Elements(names);
      assert FreeAt(taken, Last(bases), StopsAt(taken, Last(bases), 1));
      OneMoreName(existing, names, Chosen(taken, Last(bases)));
    }
  }

  lemma SuffixesTaken(base: string, names: seq<string>, j: nat)
    requires j >= 1 && forall i | 0 <= i < |names| :: names[i] == Candidate(base, i + 1)
    ensures Candidate(base, j) in names <==> j <= |names|
  {
    if j <= |names| {
      assert names[j - 1] == Candidate(base, j);
    } else if i :| 0 <= i < |names| && names[i] == Candidate(base, j) {
      CandidatesAreDistinct(base, i + 1, j);
    }
  }

  lemma NextSuffixIsFree(existing: set<string>, base: string, names: seq<string>)
    requires forall k: nat | k >= 1 :: Candidate(base, k) !in existing
    requires forall i | 0 <= i < |names| :: names[i] == Candidate(base, i + 1)
    ensures FreeAt(existing + Elements(names), base, |names| + 1)
  {
    forall j: nat | j >= 1
      ensures Candidate(base, j) in existing + Elements(names) <==> j <= |names|
    {
      SuffixesTaken(base, names, j);
    }
  }

  /** Captures with one base name take the suffixes in order, whatever other names exist. */
  lemma {:induction false} SameBaseCountsUp(existing: set<string>, base: string, bases: seq<string>)
    requires forall i | 0 <= i < |bases| :: bases[i] == base
    requires forall k: nat | k >= 1 :: Candidate(base, k) !in existing
    ensures forall i | 0 <= i < |bases| :: Captures(existing, bases)[i] == Candidate(base, i + 1)
  {
    if bases != [] {
      SameBaseCountsUp(existing, base, Front(bases));
      var names := Captures(existing, Front(bases));
      NextSuffixIsFree(existing, base, names);
      assert Last(bases) == base;
      ChosenIsFirstFree(existing + Elements(names), base, Candidate(base, |bases|));
    }
  }
}
