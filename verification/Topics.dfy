/**
 Topic derivation (src/config.py, `TopicLayout`), against topic filter matching as in section
 4.7.1.3 of MQTT 3.1.1: a `+` level matches any one level.
 */
module Topics {
  import opened Common

  datatype TopicLayout = TopicLayout(healthFilter: string, stateFilter: Option<string>, primaryCarId: Option<string>)

  function Split(s: string): (parts: seq<string>)
    ensures parts != []
  {
    if |s| == 0 then [""]
    else if Last(s) == '/' then Split(Front(s)) + [""]
    else
      var parts := Split(Front(s));
      Front(parts) + [Last(parts) + [Last(s)]]
  }

  function Join(parts: seq<string>): string {
    if parts == [] then ""
    else if |parts| == 1 then parts[0]
    else Join(Front(parts)) + "/" + Last(parts)
  }

  function NonEmpty(parts: seq<string>): seq<string> {
    if parts == [] then []
    else if |Last(parts)| == 0 then NonEmpty(Front(parts))
    else NonEmpty(Front(parts)) + [Last(parts)]
  }

  function Derive(healthTopic: string): TopicLayout {
    var parts := NonEmpty(Split(healthTopic));
    if |parts| >= 3 && Last(parts) == "healthy" then
      var prefix := parts[..|parts| - 2];
      TopicLayout(Join(prefix + ["+", "healthy"]), Some(Join(prefix + ["+", "state"])), Some(parts[|parts| - 2]))
    else
      TopicLayout(healthTopic, None, None)
  }

  function CarIdFromTopic(topic: string): string {
    var parts := NonEmpty(Split(topic));
    if |parts| >= 2 then parts[|parts| - 2] else topic
  }

  /** Matching of a filter without a multi-level wildcard. */
  ghost predicate Matches(filter: string, topic: string) {
    var f, t := Split(filter), Split(topic);
    |f| == |t| && forall i | 0 <= i < |f| :: f[i] == "+" || f[i] == t[i]
  }

  /** A level as it appears between slashes. */
  ghost predicate Level(s: string) {
    forall i | 0 <= i < |s| :: s[i] != '/'
  }

  ghost predicate AllLevels(parts: seq<string>) {
    forall i | 0 <= i < |parts| :: Level(parts[i])
  }

  ghost predicate PlainLevel(s: string) {
    Level(s) && |s| > 0 && s != "+" && s != "#"
  }

  // ---- Splitting and joining -------------------------------------------------------------------

  lemma {:induction false} SplitAppends(s: string, level: string)
    requires Level(level)
    ensures Split(s + "/" + level) == Split(s) + [level]
  {
    var whole := s + "/" + level;
    if |level| == 0 {
      assert Front(whole) == s;
    } else {
      SplitAppends(s, Front(level));
      assert Front(whole) == s + "/" + Front(level);
      assert Front(level) + [Last(level)] == level;
    }
  }

  lemma {:induction false} SplitOfOneLevel(level: string)
    requires Level(level)
    ensures Split(level) == [level]
  {
    if |level| > 0 {
      SplitOfOneLevel(Front(level));
      assert Front(level) + [Last(level)] == level;
    }
  }

  lemma {:induction false} SplitUndoesJoin(parts: seq<string>)
    requires parts != [] && AllLevels(parts)
    ensures Split(Join(parts)) == parts
  {
    if |parts| == 1 {
      SplitOfOneLevel(parts[0]);
    } else {
      var front, last := Front(parts), Last(parts);
      SplitUndoesJoin(front);
      SplitAppends(Join(front), last);
      assert Split(Join(parts)) == front + [last];
    }
  }

  /** Growing the last level grows the joined string. */
  lemma JoinGrows(front: seq<string>, last: string, more: string)
    ensures Join(front + [last + more]) == Join(front + [last]) + more
  {
    assert Front(front + [last + more]) == front && Front(front + [last]) == front;
    if |front| > 0 {
      assert Join(front) + "/" + (last + more) == Join(front) + "/" + last + more;
    }
  }

  lemma {:induction false} LevelsOfSplit(s: string)
    ensures AllLevels(Split(s))
  {
    if |s| > 0 {
      LevelsOfSplit(Front(s));
      var parts := Split(Front(s));
      assert Level(Last(parts));
    }
  }

  lemma JoinClosesALevel(parts: seq<string>)
    requires parts != []
    ensures Join(parts + [""]) == Join(parts) + "/"
  {
    assert Front(parts + [""]) == parts;
    assert Join(parts) + "/" + "" == Join(parts) + "/";
  }

  lemma JoinGrowsALevel(parts: seq<string>, c: char)
    requires parts != []
    ensures Join(Front(parts) + [Last(parts) + [c]]) == Join(parts) + [c]
  {
    JoinGrows(Front(parts), Last(parts), [c]);
    assert parts == Front(parts) + [Last(parts)];
  }

  lemma {:induction false} JoinUndoesSplit(s: string)
    ensures Join(Split(s)) == s
  {
    if |s| > 0 {
      var front, parts := Front(s), Split(Front(s));
      JoinUndoesSplit(front);
      if Last(s) == '/' {
        JoinClosesALevel(parts);
        assert Join(Split(s)) == front + "/";
      } else {
        JoinGrowsALevel(parts, Last(s));
        assert Join(Split(s)) == front + [Last(s)];
      }
    }
  }

  lemma NonEmptyStep(parts: seq<string>, level: string)
    ensures NonEmpty(parts + [level]) == if |level| == 0 then NonEmpty(parts) else NonEmpty(parts) + [level]
  {
    assert Front(parts + [level]) == parts;
  }

  ghost predicate NoneEmpty(parts: seq<string>) {
    forall i | 0 <= i < |parts| :: |parts[i]| > 0
  }

  ghost predicate Keeps(parts: seq<string>, kept: seq<string>) {
    && NoneEmpty(kept)
    && (NoneEmpty(parts) ==> kept == parts)
    && (!NoneEmpty(parts) ==> |kept| < |parts|)
    && (AllLevels(parts) ==> AllLevels(kept))
  }

  lemma OneMoreNonEmpty(parts: seq<string>, level: string)
    ensures NoneEmpty(parts + [level]) <==> NoneEmpty(parts) && |level| > 0
  {
    var longer := parts + [level];
    assert longer[|parts|] == level && forall i | 0 <= i < |parts| :: longer[i] == parts[i];
  }

  lemma OneMoreLevel(parts: seq<string>, level: string)
    ensures AllLevels(parts + [level]) <==> AllLevels(parts) && Level(level)
  {
    var longer := parts + [level];
    assert longer[|parts|] == level && forall i | 0 <= i < |parts| :: longer[i] == parts[i];
  }

  lemma KeepsStep(parts: seq<string>, kept: seq<string>, level: string)
    requires Keeps(parts, kept)
    ensures Keeps(parts + [level], if |level| == 0 then kept else kept + [level])
  {
    OneMoreNonEmpty(parts, level);
    OneMoreNonEmpty(kept, level);
    OneMoreLevel(parts, level);
    OneMoreLevel(kept, level);
  }

  lemma DropsStep(parts: seq<string>, level: string)
    requires Keeps(parts, NonEmpty(parts))
    ensures Keeps(parts + [level], NonEmpty(parts + [level]))
  {
    KeepsStep(parts, NonEmpty(parts), level);
    NonEmptyStep(parts, level);
  }

  /** Dropping the empty levels leaves the others, fewer exactly when there was one to drop. */
  lemma {:induction false} NonEmptyDrops(parts: seq<string>)
    ensures Keeps(parts, NonEmpty(parts))
  {
    if |parts| > 0 {
      NonEmptyDrops(Front(parts));
      DropsStep(Front(parts), Last(parts));
      assert parts == Front(parts) + [Last(parts)];
    }
  }

  // ---- The derived layout ----------------------------------------------------------------------

  /** The topic of one key of one car under a prefix. */
  ghost function CarTopic(prefix: seq<string>, car: string, key: string): string {
    Join(prefix + [car, key])
  }

  ghost predicate PlainPrefix(prefix: seq<string>) {
    prefix != [] && forall i | 0 <= i < |prefix| :: PlainLevel(prefix[i])
  }

  lemma SplitCarTopic(prefix: seq<string>, car: string, key: string)
    requires PlainPrefix(prefix) && Level(car) && Level(key)
    ensures Split(CarTopic(prefix, car, key)) == prefix + [car, key]
  {
    SplitUndoesJoin(prefix + [car, key]);
  }

  lemma MatchedTopic(prefix: seq<string>, key: string, topic: string) returns (car: string)
    requires PlainPrefix(prefix) && PlainLevel(key)
    requires Matches(CarTopic(prefix, "+", key), topic)
    ensures Level(car) && topic == CarTopic(prefix, car, key)
  {
    SplitCarTopic(prefix, "+", key);
    JoinUndoesSplit(topic);
    LevelsOfSplit(topic);
    var f, t, n := prefix + ["+", key], Split(topic), |prefix|;
    car := t[n];
    forall i | 0 <= i < n
      ensures t[i] == prefix[i]
    {
      assert f[i] == prefix[i];
    }
    assert f[n + 1] == key && t[n + 1] == key;
    assert t == prefix + [car, key];
  }

  lemma EveryCarMatches(prefix: seq<string>, key: string, car: string)
    requires PlainPrefix(prefix) && PlainLevel(key) && Level(car)
    ensures Matches(CarTopic(prefix, "+", key), CarTopic(prefix, car, key))
  {
    SplitCarTopic(prefix, "+", key);
    SplitCarTopic(prefix, car, key);
  }

  ghost predicate IsCarTopic(prefix: seq<string>, key: string, topic: string) {
    exists car :: Level(car) && topic == CarTopic(prefix, car, key)
  }

  /** A derived filter matches exactly the topics of that key under that prefix, for any car. */
  lemma FilterMatchesExactly(prefix: seq<string>, key: string, topic: string)
    requires PlainPrefix(prefix) && PlainLevel(key)
    ensures Matches(CarTopic(prefix, "+", key), topic) <==> IsCarTopic(prefix, key, topic)
  {
    if Matches(CarTopic(prefix, "+", key), topic) {
      var car := MatchedTopic(prefix, key, topic);
    }
    if car :| Level(car) && topic == CarTopic(prefix, car, key) {
      EveryCarMatches(prefix, key, car);
    }
  }

  lemma NonEmptyOfCarLevels(prefix: seq<string>, car: string, key: string)
    requires PlainPrefix(prefix) && |key| > 0
    ensures NonEmpty(prefix + [car, key]) == if |car| == 0 then prefix + [key] else prefix + [car, key]
  {
    assert NoneEmpty(prefix);
    NonEmptyDrops(prefix);
    NonEmptyStep(prefix, car);
    NonEmptyStep(prefix + [car], key);
    assert prefix + [car, key] == prefix + [car] + [key];
  }

  /** The car id read back from a topic is the one the wildcard matched, exactly when that is not empty. */
  lemma CarIdIsTheMatchedLevel(prefix: seq<string>, car: string, key: string)
    requires PlainPrefix(prefix) && Level(car) && PlainLevel(key)
    ensures CarIdFromTopic(CarTopic(prefix, car, key)) == car <==> car != ""
  {
    SplitCarTopic(prefix, car, key);
    NonEmptyOfCarLevels(prefix, car, key);
    assert PlainLevel(prefix[|prefix| - 1]);
  }

  lemma PlainRoundTrip(prefix: seq<string>, other: string, topic: string)
    requires PlainPrefix(prefix) && Level(other)
    ensures Matches(CarTopic(prefix, "+", "healthy"), topic) <==> IsCarTopic(prefix, "healthy", topic)
    ensures Matches(CarTopic(prefix, "+", "state"), topic) <==> IsCarTopic(prefix, "state", topic)
    ensures CarIdFromTopic(CarTopic(prefix, other, "healthy")) == other <==> other != ""
    ensures CarIdFromTopic(CarTopic(prefix, other, "state")) == other <==> other != ""
  {
    FilterMatchesExactly(prefix, "healthy", topic);
    FilterMatchesExactly(prefix, "state", topic);
    CarIdIsTheMatchedLevel(prefix, other, "healthy");
    CarIdIsTheMatchedLevel(prefix, other, "state");
  }

  // ---- From a configured topic -----------------------------------------------------------------

  /** The shape the derivation recognises, with any number of empty levels strewn in. */
  ghost predicate Recognised(own: string) {
    var levels := NonEmpty(Split(own));
    |levels| >= 3 && Last(levels) == "healthy"
  }

  ghost predicate WildcardFree(levels: seq<string>) {
    forall i | 0 <= i < |levels| :: levels[i] != "+" && levels[i] != "#"
  }

  lemma {:induction false} NonEmptyAddsNoWildcard(parts: seq<string>)
    requires WildcardFree(parts)
    ensures WildcardFree(NonEmpty(parts))
  {
    if |parts| > 0 {
      NonEmptyAddsNoWildcard(Front(parts));
    }
  }

  /** The levels before the car of a recognised topic, and its car. */
  ghost function PrefixOf(own: string): seq<string>
    requires Recognised(own)
  {
    var levels := NonEmpty(Split(own));
    levels[..|levels| - 2]
  }

  ghost function CarOf(own: string): string
    requires Recognised(own)
  {
    var levels := NonEmpty(Split(own));
    levels[|levels| - 2]
  }

  lemma PartsOfTopic(own: string)
    requires Recognised(own)
    ensures NonEmpty(Split(own)) == PrefixOf(own) + [CarOf(own), "healthy"]
    ensures AllLevels(NonEmpty(Split(own))) && NoneEmpty(NonEmpty(Split(own)))
    ensures WildcardFree(Split(own)) ==> PlainPrefix(PrefixOf(own)) && PlainLevel(CarOf(own))
  {
    var levels := NonEmpty(Split(own));
    LevelsOfSplit(own);
    NonEmptyDrops(Split(own));
    if WildcardFree(Split(own)) {
      NonEmptyAddsNoWildcard(Split(own));
      assert forall i | 0 <= i < |levels| - 1 :: PlainLevel(levels[i]);
    }
  }

  lemma LayoutOfTopic(own: string)
    requires Recognised(own)
    ensures var prefix := PrefixOf(own);
            && Derive(own) == TopicLayout(CarTopic(prefix, "+", "healthy"), Some(CarTopic(prefix, "+", "state")), Some(CarOf(own)))
            && CarIdFromTopic(own) == CarOf(own)
  {
  }

  lemma FilterLevels(own: string)
    requires Recognised(own)
    ensures Split(CarTopic(PrefixOf(own), "+", "healthy")) == PrefixOf(own) + ["+", "healthy"]
  {
    PartsOfTopic(own);
    var levels, filter := NonEmpty(Split(own)), PrefixOf(own) + ["+", "healthy"];
    assert forall i | 0 <= i < |PrefixOf(own)| :: filter[i] == levels[i];
    SplitUndoesJoin(filter);
  }

  lemma SameLevels(parts: seq<string>, prefix: seq<string>, car: string)
    requires NonEmpty(parts) == prefix + [car, "healthy"]
    ensures NoneEmpty(parts) ==> parts == prefix + [car, "healthy"]
    ensures !NoneEmpty(parts) ==> |parts| != |prefix + ["+", "healthy"]|
  {
    NonEmptyDrops(parts);
  }

  /** The derived health filter matches the topic it was derived from exactly when no level was dropped. */
  lemma FilterMatchesItsTopic(own: string)
    ensures Matches(Derive(own).healthFilter, own) <==> !Recognised(own) || NoneEmpty(Split(own))
  {
    if Recognised(own) {
      LayoutOfTopic(own);
      FilterLevels(own);
      PartsOfTopic(own);
      SameLevels(Split(own), PrefixOf(own), CarOf(own));
    }
  }

  /** A topic of any other shape is watched as it stands, without a state topic or a car of its own. */
  lemma UnrecognisedIsWatchedAsIs(own: string)
    ensures !Recognised(own) ==> Derive(own) == TopicLayout(own, None, None)
    ensures Derive(own).stateFilter.Some? <==> Recognised(own)
    ensures |NonEmpty(Split(own))| < 2 ==> CarIdFromTopic(own) == own
  {
  }

  lemma {:induction false} JoinAfterASlash(parts: seq<string>)
    requires parts != []
    ensures Join([""] + parts) == "/" + Join(parts)
  {
    if |parts| == 1 {
      assert Front([""] + parts) == [""];
    } else {
      JoinAfterASlash(Front(parts));
      assert Front([""] + parts) == [""] + Front(parts);
    }
  }

  /** A leading slash is enough: the filter derived from such a topic is that of the topic without it, and misses it. */
  lemma LeadingSlashIsDropped(prefix: seq<string>, car: string)
    requires PlainPrefix(prefix) && PlainLevel(car)
    ensures var own := "/" + CarTopic(prefix, car, "healthy");
            Derive(own).healthFilter == CarTopic(prefix, "+", "healthy") && !Matches(Derive(own).healthFilter, own)
  {
    var parts, own := prefix + [car, "healthy"], "/" + CarTopic(prefix, car, "healthy");
    JoinAfterASlash(parts);
    SplitUndoesJoin([""] + parts);
    assert Split(own) == [""] + parts;
    DroppedAtTheFront(parts);
    FilterMatchesItsTopic(own);
    assert Split(own)[0] == "";
    assert parts[..|parts| - 2] == prefix;
  }

  lemma {:induction false} DroppedAtTheFront(parts: seq<string>)
    requires NoneEmpty(parts)
    ensures NonEmpty([""] + parts) == parts
  {
    if |parts| == 0 {
      assert Front([""]) == [];
    } else {
      DroppedAtTheFront(Front(parts));
      assert Front([""] + parts) == [""] + Front(parts);
      assert parts == Front(parts) + [Last(parts)];
    }
  }

  lemma JoinAppends(parts: seq<string>, level: string)
    requires parts != []
    ensures Join(parts + [level]) == Join(parts) + "/" + level
  {
    assert Front(parts + [level]) == parts;
  }

  lemma ExampleTopic(a: string, c: string, car: string, key: string)
    ensures CarTopic([a, c], car, key) == a + "/" + c + "/" + car + "/" + key
  {
    JoinAppends([a], c);
    JoinAppends([a] + [c], car);
    JoinAppends([a] + [c] + [car], key);
    assert [a, c] + [car, key] == [a] + [c] + [car] + [key];
  }

  /** One such topic. */
  lemma LeadingSlashExample()
    ensures !Matches(Derive("/a/c/1/healthy").healthFilter, "/a/c/1/healthy")
  {
    ExampleTopic("a", "c", "1", "healthy");
    LeadingSlashIsDropped(["a", "c"], "1");
    assert "/" + ("a" + "/" + "c" + "/" + "1" + "/" + "healthy") == "/a/c/1/healthy";
  }

  /**
   The round trip: from any wildcard-free topic of the recognised shape, the derived health and state
   filters match exactly the health and state topics of every car under the same prefix, each such
   topic gives its car back, and so does the topic itself.
   */
  lemma TopicRoundTrip(own: string, other: string, topic: string)
    requires Recognised(own) && WildcardFree(Split(own)) && Level(other)
    ensures var l, prefix := Derive(own), PrefixOf(own);
            && l.primaryCarId == Some(CarIdFromTopic(own)) == Some(CarOf(own))
            && l.stateFilter.Some?
            && (Matches(l.healthFilter, topic) <==> IsCarTopic(prefix, "healthy", topic))
            && (Matches(l.stateFilter.value, topic) <==> IsCarTopic(prefix, "state", topic))
            && (CarIdFromTopic(CarTopic(prefix, other, "healthy")) == other <==> other != "")
            && (CarIdFromTopic(CarTopic(prefix, other, "state")) == other <==> other != "")
  {
    PartsOfTopic(own);
    LayoutOfTopic(own);
    PlainRoundTrip(PrefixOf(own), other, topic);
  }
}
