/**
 * `analyzeIntent` (src/App.js): the place a request is about, and whether it
 * asks for the weather, for places to visit, or (when it says neither) both.
 */
module Intent {
  import opened JsText
  import opened IntentPatterns

  datatype Intent = Intent(place: string, needsWeather: bool, needsPlaces: bool)

  /** The extraction patterns, in the order they are tried. */
  const Chain: seq<Pattern> := [GoingTo, InAt, Whole]

  const WeatherWords: seq<string> := ["weather", "temperature", "temp", "rain", "climate"]
  const PlaceWords: seq<string> := ["place", "visit", "attraction", "see", "do", "trip", "plan"]

  /** One of `words` occurs in `lower`. */
  predicate Mentions(lower: string, words: seq<string>) {
    exists k :: 0 <= k < |words| && Includes(lower, words[k])
  }

  /**
   * The candidate place from pattern number `k` on: the trimmed group of the
   * first pattern that matches with a non-empty group, or the whole input
   * when none does.
   */
  function CandidateFrom(s: string, k: nat): (r: string)
    requires k <= |Chain|
    ensures r == s || IsTrimmed(r)
    ensures NoLineTerminator(s) ==> NoLineTerminator(r)
    decreases |Chain| - k
  {
    if k == |Chain| then s
    else
      var m := Exec(Chain[k], s);
      if m.Some? && Capture(s, m.value) != [] then
        var g := Capture(s, m.value);
        assert NoLineTerminator(s) ==> NoLineTerminator(Trim(g)) by {
          if NoLineTerminator(s) {
            NoLineTerminatorSlice(s, m.value.start, m.value.end);
            TrimNoLineTerminator(g);
          }
        }
        Trim(g)
      else CandidateFrom(s, k + 1)
  }

  /** The place the pattern loop settles on: the input itself, or a trimmed match group. */
  function Candidate(s: string): (r: string)
    ensures r == s || IsTrimmed(r)
  {
    CandidateFrom(s, 0)
  }

  /** The two replacements applied to the candidate, each followed by `trim`. */
  function Clean(candidate: string): (r: string)
    ensures IsTrimmed(r)
  {
    Trim(CutTopic(Trim(StripLead(candidate))))
  }

  /** What `analyzeIntent` returns. */
  function Analyze(userInput: string): (r: Intent)
    ensures IsTrimmed(r.place)
    ensures r.needsWeather || r.needsPlaces
    ensures r.needsWeather <==>
              Mentions(ToLower(userInput), WeatherWords) || !Mentions(ToLower(userInput), PlaceWords)
    ensures r.needsPlaces <==>
              Mentions(ToLower(userInput), PlaceWords) || !Mentions(ToLower(userInput), WeatherWords)
  {
    var lower := ToLower(userInput);
    var weather := Mentions(lower, WeatherWords);
    var places := Mentions(lower, PlaceWords);
    Intent(Clean(Candidate(userInput)), weather || !places, places || !weather)
  }

  lemma WeatherKeywords(lower: string)
    ensures Mentions(lower, WeatherWords) <==>
              Includes(lower, "weather") || Includes(lower, "temperature") || Includes(lower, "temp") ||
              Includes(lower, "rain") || Includes(lower, "climate")
  {
    assert WeatherWords[0] == "weather" && WeatherWords[1] == "temperature" && WeatherWords[2] == "temp";
    assert WeatherWords[3] == "rain" && WeatherWords[4] == "climate";
  }

  lemma PlaceKeywords(lower: string)
    ensures Mentions(lower, PlaceWords) <==>
              Includes(lower, "place") || Includes(lower, "visit") || Includes(lower, "attraction") ||
              Includes(lower, "see") || Includes(lower, "do") || Includes(lower, "trip") || Includes(lower, "plan")
  {
    assert PlaceWords[0] == "place" && PlaceWords[1] == "visit" && PlaceWords[2] == "attraction";
    assert PlaceWords[3] == "see" && PlaceWords[4] == "do" && PlaceWords[5] == "trip" && PlaceWords[6] == "plan";
  }

  /**
   * The `temperature` test never decides the weather flag: any input that
   * includes `temperature` also includes `temp`, which is tested next.
   */
  lemma TemperatureTestRedundant(lower: string)
    ensures Mentions(lower, WeatherWords) <==>
              Includes(lower, "weather") || Includes(lower, "temp") || Includes(lower, "rain") ||
              Includes(lower, "climate")
  {
    WeatherKeywords(lower);
    if Includes(lower, "temperature") {
      assert OccursAt("temperature", 0, "temp");
      IncludesTransitive(lower, "temperature", "temp");
    }
  }

  /** The loop over the patterns: the first match's group, trimmed, or the input itself. */
  method FirstCandidate(userInput: string) returns (place: string)
    ensures place == Candidate(userInput)
  {
    place := userInput;
    var k := 0;
    while k < |Chain|
      invariant 0 <= k <= |Chain|
      invariant place == userInput
      invariant CandidateFrom(userInput, k) == Candidate(userInput)
    {
      var m := Exec(Chain[k], userInput);
      if m.Some? && Capture(userInput, m.value) != [] {
        place := Trim(Capture(userInput, m.value));
        break;
      }
      k := k + 1;
    }
  }

  /**
   * `analyzeIntent` as the program runs it: the candidate from the pattern
   * loop, the two replacements, then the keyword flags on the lower-cased
   * input.
   */
  method AnalyzeIntent(userInput: string) returns (intent: Intent)
    ensures intent == Analyze(userInput)
  {
    var lowerInput := ToLower(userInput);
    var place := FirstCandidate(userInput);
    place := Trim(StripLead(place));
    place := Trim(CutTopic(place));

    var needsWeather := Includes(lowerInput, "weather") || Includes(lowerInput, "temperature") ||
                        Includes(lowerInput, "temp") || Includes(lowerInput, "rain") ||
                        Includes(lowerInput, "climate");
    var needsPlaces := Includes(lowerInput, "place") || Includes(lowerInput, "visit") ||
                       Includes(lowerInput, "attraction") || Includes(lowerInput, "see") ||
                       Includes(lowerInput, "do") || Includes(lowerInput, "trip") ||
                       Includes(lowerInput, "plan");
    var defaultToBoth := !needsWeather && !needsPlaces;
    WeatherKeywords(lowerInput);
    PlaceKeywords(lowerInput);
    intent := Intent(place, needsWeather || defaultToBoth, needsPlaces || defaultToBoth);
  }

  // ----- Which pattern supplies the place -----

  /** A pattern that fails lets the next one decide. */
  lemma SkipUnmatched(s: string, j: nat)
    requires j < |Chain| && Exec(Chain[j], s).None?
    ensures CandidateFrom(s, j) == CandidateFrom(s, j + 1)
  {
  }

  /** A match's group is never empty, so the emptiness test of the loop never rejects a match. */
  lemma MatchGroupNonEmpty(p: Pattern, s: string)
    requires Exec(p, s).Some?
    ensures Within(s, Exec(p, s).value) && Capture(s, Exec(p, s).value) != []
  {
    var m := Exec(p, s).value;
    assert At(p, s, m.index) == Exec(p, s);
    assert |Capture(s, m)| == m.end - m.start;
  }

  /** The first pattern that matches supplies the candidate: its group, trimmed. */
  lemma FirstPatternWins(s: string, k: nat)
    requires k < |Chain| && Exec(Chain[k], s).Some?
    requires forall i :: 0 <= i < k ==> Exec(Chain[i], s).None?
    ensures Candidate(s) == Trim(Capture(s, Exec(Chain[k], s).value))
  {
    if k > 0 {
      SkipUnmatched(s, 0);
    }
    if k > 1 {
      SkipUnmatched(s, 1);
    }
    MatchGroupNonEmpty(Chain[k], s);
  }

  /** When no pattern matches, the candidate is the raw input. */
  lemma NoPatternKeepsInput(s: string)
    requires forall i :: 0 <= i < |Chain| ==> Exec(Chain[i], s).None?
    ensures Candidate(s) == s
  {
    SkipUnmatched(s, 0);
    SkipUnmatched(s, 1);
    SkipUnmatched(s, 2);
  }

  // ----- The cleaned place -----

  /** Trimming a prefix of a trimmed string yields a prefix of it again. */
  lemma TrimmedPrefix(t: string, u: string)
    requires IsTrimmed(t) && u <= t
    ensures Trim(u) <= u
  {
    TrimPrefix(u, |u|);
    assert u[..|u|] == u;
  }

  /**
   * The place is what is left of the candidate after the lead word was
   * stripped and trimmed: a prefix of it, so nothing but a lead word and
   * whitespace is taken from the front and the cut only shortens it.
   */
  lemma PlaceIsPrefix(userInput: string)
    ensures Analyze(userInput).place <= Trim(StripLead(Candidate(userInput)))
  {
    var t := Trim(StripLead(Candidate(userInput)));
    var u := CutTopic(t);
    TrimmedPrefix(t, u);
  }

  /** A topic word after whitespace in a prefix of a string is one in the string. */
  lemma TopicAfterSpacePrefix(u: string, t: string, p: nat, k: nat, a: nat)
    requires u <= t && TopicAfterSpace(u, p, k, a)
    ensures TopicAfterSpace(t, p, k, a)
  {
    LiteralAtPrefix(u, t, p + k, TopicWords[a]);
    assert forall q :: p <= q < p + k ==> u[q] == t[q];
  }

  /** The lead strip and the trim after it keep a string free of line terminators. */
  lemma StrippedNoLineTerminator(c: string)
    requires NoLineTerminator(c)
    ensures NoLineTerminator(Trim(StripLead(c)))
  {
    NoLineTerminatorSlice(c, |c| - |StripLead(c)|, |c|);
    TrimNoLineTerminator(StripLead(c));
  }

  /** Cleaning a candidate without line terminators leaves no whitespace followed by a topic word. */
  lemma CleanHasNoTopic(c: string, p: nat, k: nat, a: nat)
    requires NoLineTerminator(c)
    ensures !TopicAfterSpace(Clean(c), p, k, a)
  {
    var t := Trim(StripLead(c));
    StrippedNoLineTerminator(c);
    var u := CutTopic(t);
    var place := Trim(u);
    TrimmedPrefix(t, u);
    if TopicAfterSpace(place, p, k, a) {
      TopicAfterSpacePrefix(place, t, p, k, a);
      CutTopicRemovesTopics(t, p, k, a);
      assert false;
    }
  }

  /**
   * For an input without line terminators the place has no whitespace that
   * is followed by a topic word (weather, temperature, places, attractions,
   * trip, plan, in any case).
   */
  lemma PlaceHasNoTopic(userInput: string, p: nat, k: nat, a: nat)
    requires NoLineTerminator(userInput)
    ensures !TopicAfterSpace(Analyze(userInput).place, p, k, a)
  {
    CleanHasNoTopic(Candidate(userInput), p, k, a);
  }

  // ----- The flags -----

  /** Inputs that differ only in letter case get the same flags. */
  lemma FlagsIgnoreCase(a: string, b: string)
    requires SameTextIgnoringCase(a, b)
    ensures Analyze(a).needsWeather == Analyze(b).needsWeather
    ensures Analyze(a).needsPlaces == Analyze(b).needsPlaces
  {
    ToLowerIgnoresCase(a, b);
  }
}
