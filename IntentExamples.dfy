/** What `analyzeIntent` (src/App.js) makes of a few particular requests. */
module IntentExamples {
  import opened JsText
  import opened IntentPatterns
  import opened Intent
  import opened PatternExamples

  /** A match of the first pattern supplies the candidate. */
  lemma GoingToWins(s: string, m: Span)
    requires Exec(GoingTo, s) == Some(m)
    ensures Candidate(s) == Trim(Capture(s, m))
  {
    FirstPatternWins(s, 0);
  }

  /** When the first pattern fails and the second matches, the second's group supplies the candidate. */
  lemma InAtWins(s: string, m: Span)
    requires Exec(GoingTo, s).None? && Exec(InAt, s) == Some(m)
    ensures Candidate(s) == Trim(Capture(s, m))
  {
    assert Chain[0] == GoingTo && Chain[1] == InAt;
    SkipUnmatched(s, 0);
    MatchGroupNonEmpty(InAt, s);
  }

  /** A request that is not blank can still give an empty place. */
  lemma BlankGroupGivesEmptyPlace()
    ensures Analyze("visit  ").place == []
  {
    VisitSpacesMatch();
    FirstPatternWins("visit  ", 0);
    assert Capture("visit  ", Span(0, 6, 7)) == " ";
  }

  lemma ParisCandidate()
    ensures Candidate("I'm going to Paris!") == "Paris!"
  {
    ParisMatch();
    GoingToWins("I'm going to Paris!", Span(4, 13, 19));
    ParisGroupTrimmed();
  }

  /** A candidate that the lead strip, the topic cut and the trims all leave alone is its own cleaned form. */
  lemma CleanKeeps(c: string)
    requires StripLead(c) == c && Trim(c) == c && CutTopic(c) == c
    ensures Clean(c) == c
  {
  }

  /** A candidate without a lead word, whitespace or a topic word is left as it is. */
  lemma ParisClean()
    ensures Clean("Paris!") == "Paris!"
  {
    ParisNoLead();
    ParisTrimmed();
    ParisNoTopic();
    CleanKeeps("Paris!");
  }

  /** The first pattern's group runs to the end of the input, so trailing punctuation stays in the place. */
  lemma PunctuationKept()
    ensures Analyze("I'm going to Paris!").place == "Paris!"
  {
    ParisCandidate();
    ParisClean();
  }

  // ----- A word boundary the second pattern does not ask for -----

  lemma WhatToDoCandidate()
    ensures Candidate("What to do in Tokyo") == "to do in Tokyo"
  {
    WhatToDoNoGoingTo();
    WhatToDoMatch();
    InAtWins("What to do in Tokyo", Span(2, 5, 19));
    WhatToDoGroupTrimmed();
  }

  /**
   * `"What to do in Tokyo"` gives `do in Tokyo`: the second pattern matches
   * the `at` of `What`, and the lead strip removes only the `to` after it.
   */
  lemma AtInsideWhat()
    ensures Analyze("What to do in Tokyo").place == "do in Tokyo"
  {
    WhatToDoCandidate();
    WhatToDoStripped();
    DoInTokyoKept();
  }

  lemma DoInTokyoCandidate()
    ensures Candidate("do in Tokyo") == "Tokyo"
  {
    DoInTokyoNoGoingTo();
    DoInTokyoMatch();
    InAtWins("do in Tokyo", Span(3, 6, 11));
    TokyoKept();
  }

  /** The analyzer is not idempotent: the place it extracts can itself yield a different place. */
  lemma NotIdempotent()
    ensures Analyze("What to do in Tokyo").place == "do in Tokyo"
    ensures Analyze(Analyze("What to do in Tokyo").place).place == "Tokyo"
  {
    AtInsideWhat();
    DoInTokyoCandidate();
    TokyoKept();
  }

  // ----- Substring keywords -----

  /** A word whose first letter does not occur in `s` is not included in it. */
  lemma FirstLetterMissing(s: string, w: string)
    requires |w| > 0 && w[0] !in s
    ensures !Includes(s, w)
  {
  }

  /**
   * The keyword tests look for substrings: `London` contains `do`, so it is a
   * request for places only.
   */
  lemma LondonAsksForPlaces()
    ensures Analyze("London").needsPlaces && !Analyze("London").needsWeather
  {
    var lower := ToLower("London");
    assert lower == "london";
    assert OccursAt(lower, 3, "do");
    PlaceKeywords(lower);
    WeatherKeywords(lower);
    FirstLetterMissing(lower, "temp");
    FirstLetterMissing(lower, "rain");
  }
}
