/**
 * The patterns of `analyzeIntent` (src/App.js) evaluated on particular
 * strings, and the lemmas that let the verifier do so.
 */
module PatternExamples {
  import opened JsText
  import opened IntentPatterns

  // ----- Evaluating the patterns on particular strings -----

  /** The two characters at `i` are `c` and `d`, in any case. */
  predicate Pair(s: string, i: nat, c: char, d: char) {
    i + 1 < |s| && SameIgnoringCase(s[i], c) && SameIgnoringCase(s[i + 1], d)
  }

  /** The two characters at `i` can begin one of the introducers of `p`. */
  predicate MayIntroduce(p: Pattern, s: string, i: nat)
    requires p != Whole
  {
    if p == GoingTo then Pair(s, i, 'g', 'o') || Pair(s, i, 'v', 'i') || Pair(s, i, 't', 'r')
    else Pair(s, i, 'i', 'n') || Pair(s, i, 'a', 't')
  }

  /** A literal of two or more characters occurs only where its first two characters do. */
  lemma LiteralStart(s: string, i: nat, w: string)
    requires |w| >= 2 && LiteralAt(s, i, w)
    ensures Pair(s, i, w[0], w[1])
  {
    assert LiteralFrom(s, i, w, 1);
  }

  /** When no introducer from number `a` on occurs at `i`, those alternatives fail. */
  lemma {:induction false} AlternativesMiss(p: Pattern, s: string, i: nat, a: nat)
    requires p != Whole && i <= |s| && a <= |Introducers(p)|
    requires forall b :: a <= b < |Introducers(p)| ==> !LiteralAt(s, i, Introducers(p)[b])
    ensures Alternatives(p, s, i, a).None?
    decreases |Introducers(p)| - a
  {
    if a < |Introducers(p)| {
      AlternativesMiss(p, s, i, a + 1);
    }
  }

  /** A match attempt fails where no introducer can begin. */
  lemma NoIntroducerAt(p: Pattern, s: string, i: nat)
    requires p != Whole && i <= |s| && !MayIntroduce(p, s, i)
    ensures At(p, s, i).None?
  {
    forall b | 0 <= b < |Introducers(p)| ensures !LiteralAt(s, i, Introducers(p)[b]) {
      var w := Introducers(p)[b];
      if LiteralAt(s, i, w) {
        LiteralStart(s, i, w);
        assert false;
      }
    }
    AlternativesMiss(p, s, i, 0);
  }

  /** No position in `[from, to)` can begin an introducer. */
  predicate NoneMayIntroduce(p: Pattern, s: string, from: nat, to: nat)
    requires p != Whole
    decreases if from < to then to - from else 0
  {
    from >= to || (!MayIntroduce(p, s, from) && NoneMayIntroduce(p, s, from + 1, to))
  }

  lemma SkipOne(p: Pattern, s: string, i: nat)
    requires p != Whole && i < |s| && !MayIntroduce(p, s, i)
    ensures Leftmost(p, s, i) == Leftmost(p, s, i + 1)
  {
    NoIntroducerAt(p, s, i);
  }

  /** The scan for the leftmost match passes over positions where no introducer can begin. */
  lemma {:induction false} SkipToIntroducer(p: Pattern, s: string, from: nat, to: nat)
    requires p != Whole && from <= to <= |s| && NoneMayIntroduce(p, s, from, to)
    ensures Leftmost(p, s, from) == Leftmost(p, s, to)
    decreases if from < to then to - from else 0
  {
    if from < to {
      SkipOne(p, s, from);
      SkipToIntroducer(p, s, from + 1, to);
    }
  }

  /** A pattern with no introducer anywhere in the input does not match it. */
  lemma NoIntroducer(p: Pattern, s: string)
    requires p != Whole && NoneMayIntroduce(p, s, 0, |s|)
    ensures Exec(p, s).None?
  {
    SkipToIntroducer(p, s, 0, |s|);
    NoIntroducerAt(p, s, |s|);
  }

  /** The two characters at `q` can begin one of the topic words. */
  predicate MayBeginTopic(s: string, q: nat) {
    Pair(s, q, 'w', 'e') || Pair(s, q, 't', 'e') || Pair(s, q, 'p', 'l') || Pair(s, q, 'a', 't') || Pair(s, q, 't', 'r')
  }

  lemma {:induction false} TopicWordsMiss(s: string, q: nat, a: nat)
    requires q <= |s| && a <= |TopicWords| && !MayBeginTopic(s, q)
    ensures !TopicWordFrom(s, q, a)
    decreases |TopicWords| - a
  {
    if a < |TopicWords| {
      if LiteralAt(s, q, TopicWords[a]) {
        LiteralStart(s, q, TopicWords[a]);
        assert false;
      }
      TopicWordsMiss(s, q, a + 1);
    }
  }

  /** A single whitespace character before a word that is not a topic word does not start a match. */
  lemma SpaceBeforeOtherWord(s: string, i: nat)
    requires i + 1 < |s| && IsWhitespace(s[i]) && !IsWhitespace(s[i + 1]) && !MayBeginTopic(s, i + 1)
    ensures !TopicAt(s, i)
  {
    RunLength(s, i, 1);
    TopicWordsMiss(s, i + 1, 0);
  }

  /** The cut leaves a string alone when no whitespace in it starts a match of the topic pattern. */
  lemma CutTopicKeeps(s: string)
    requires forall i :: 0 <= i < |s| && IsWhitespace(s[i]) ==> !TopicAt(s, i)
    ensures CutTopic(s) == s
  {
  }

  /** The lead strip leaves a string alone when its third character is not whitespace. */
  lemma NoLead(s: string)
    requires |s| > 2 && !IsWhitespace(s[2])
    ensures StripLead(s) == s
  {
    assert !Lead(s);
  }

  // ----- "visit  " -----

  /** The greedy `\s+` takes both spaces, leaving nothing for the group, then gives one back. */
  lemma VisitSpacesBacktrack()
    ensures Backtrack(GoingTo, "visit  ", 0, 5, 2) == Some(Span(0, 6, 7))
  {
    assert Lazy(GoingTo, "visit  ", 0, 7, 1).None?;
    assert Lazy(GoingTo, "visit  ", 0, 6, 1) == Some(Span(0, 6, 7));
  }

  lemma VisitSpacesIntroducer()
    ensures !LiteralAt("visit  ", 0, "going to") && LiteralAt("visit  ", 0, "visit")
    ensures WhitespaceRun("visit  ", 5) == 2
  {
    assert WhitespaceRun("visit  ", 7) == 0;
    assert WhitespaceRun("visit  ", 6) == 1;
  }

  lemma VisitSpacesMatch()
    ensures Exec(GoingTo, "visit  ") == Some(Span(0, 6, 7))
  {
    VisitSpacesBacktrack();
    VisitSpacesIntroducer();
    assert Introducers(GoingTo)[0] == "going to" && Introducers(GoingTo)[1] == "visit";
    assert At(GoingTo, "visit  ", 0) == Some(Span(0, 6, 7));
  }

  // ----- "visit  ," -----

  /** Two spans have the first pattern's shape: the group can be the second space or the comma. */
  lemma VisitCommaShapes()
    ensures Shape(GoingTo, "visit  ,", Span(0, 6, 7)) && Shape(GoingTo, "visit  ,", Span(0, 7, 8))
  {
    assert Introducers(GoingTo)[1] == "visit";
    assert Spaced("visit  ,", Span(0, 6, 7), Introducers(GoingTo)[1]);
    assert Spaced("visit  ,", Span(0, 7, 8), Introducers(GoingTo)[1]);
  }

  /** The greedy `\s+` keeps both spaces, because the comma then serves as the group. */
  lemma VisitCommaBacktrack()
    ensures Backtrack(GoingTo, "visit  ,", 0, 5, 2) == Some(Span(0, 7, 8))
  {
    assert Lazy(GoingTo, "visit  ,", 0, 7, 1) == Some(Span(0, 7, 8));
  }

  lemma VisitCommaIntroducer()
    ensures !LiteralAt("visit  ,", 0, "going to") && LiteralAt("visit  ,", 0, "visit")
    ensures WhitespaceRun("visit  ,", 5) == 2
  {
    RunLength("visit  ,", 5, 2);
  }

  lemma VisitCommaMatch()
    ensures Exec(GoingTo, "visit  ,") == Some(Span(0, 7, 8))
  {
    VisitCommaBacktrack();
    VisitCommaIntroducer();
    assert Introducers(GoingTo)[0] == "going to" && Introducers(GoingTo)[1] == "visit";
    assert At(GoingTo, "visit  ,", 0) == Some(Span(0, 7, 8));
  }

  // ----- "I'm going to Paris!" -----

  lemma ParisGroup()
    ensures Lazy(GoingTo, "I'm going to Paris!", 4, 13, 1) == Some(Span(4, 13, 19))
  {
    assert Lazy(GoingTo, "I'm going to Paris!", 4, 13, 6) == Some(Span(4, 13, 19));
    assert Lazy(GoingTo, "I'm going to Paris!", 4, 13, 5) == Some(Span(4, 13, 19));
    assert Lazy(GoingTo, "I'm going to Paris!", 4, 13, 4) == Some(Span(4, 13, 19));
    assert Lazy(GoingTo, "I'm going to Paris!", 4, 13, 3) == Some(Span(4, 13, 19));
    assert Lazy(GoingTo, "I'm going to Paris!", 4, 13, 2) == Some(Span(4, 13, 19));
  }

  lemma ParisIntroducer()
    ensures LiteralAt("I'm going to Paris!", 4, "going to")
  {
  }

  lemma ParisSpace()
    ensures WhitespaceRun("I'm going to Paris!", 12) == 1
  {
    RunLength("I'm going to Paris!", 12, 1);
  }

  lemma ParisAttempt()
    ensures At(GoingTo, "I'm going to Paris!", 4) == Some(Span(4, 13, 19))
  {
    ParisGroup();
    ParisIntroducer();
    ParisSpace();
    assert Introducers(GoingTo)[0] == "going to";
  }

  lemma ParisMatch()
    ensures Exec(GoingTo, "I'm going to Paris!") == Some(Span(4, 13, 19))
  {
    SkipToIntroducer(GoingTo, "I'm going to Paris!", 0, 4);
    ParisAttempt();
  }

  lemma ParisCapture()
    ensures Capture("I'm going to Paris!", Span(4, 13, 19)) == "Paris!"
  {
  }

  lemma ParisGroupTrimmed()
    ensures Trim(Capture("I'm going to Paris!", Span(4, 13, 19))) == "Paris!"
  {
    ParisCapture();
    TrimTrimmed("Paris!");
  }

  lemma ParisNoLead()
    ensures StripLead("Paris!") == "Paris!"
  {
    NoLead("Paris!");
  }

  lemma ParisTrimmed()
    ensures Trim("Paris!") == "Paris!"
  {
    TrimTrimmed("Paris!");
  }

  /** `Paris!` has no whitespace, so no topic word follows any. */
  lemma ParisNoTopic()
    ensures CutTopic("Paris!") == "Paris!"
  {
    CutTopicKeeps("Paris!");
  }

  // ----- Strings of plain words -----

  /**
   * From `from` on, `s` is ASCII letters and single spaces, and no space is
   * followed by the beginning of a topic word.
   */
  predicate PlainWordsFrom(s: string, from: nat)
    decreases |s| - from
  {
    from >= |s| ||
    ((IsAsciiLetter(s[from]) ||
      (s[from] == ' ' && from + 1 < |s| && IsAsciiLetter(s[from + 1]) && !MayBeginTopic(s, from + 1))) &&
     PlainWordsFrom(s, from + 1))
  }

  lemma {:induction false} PlainWordsNoTopicFrom(s: string, from: nat)
    requires PlainWordsFrom(s, from)
    ensures forall i :: from <= i < |s| && IsWhitespace(s[i]) ==> !TopicAt(s, i)
    decreases |s| - from
  {
    if from < |s| {
      PlainWordsNoTopicFrom(s, from + 1);
      if IsWhitespace(s[from]) {
        if IsAsciiLetter(s[from]) {
          LetterIsNotWhitespace(s[from], s[from]);
        }
        LetterIsNotWhitespace(s[from + 1], s[from + 1]);
        SpaceBeforeOtherWord(s, from);
      }
    }
  }

  /** A string of plain words is left alone by both trims and by the topic cut. */
  lemma PlainWordsKept(s: string)
    requires |s| > 0 && IsAsciiLetter(s[0]) && IsAsciiLetter(s[|s| - 1]) && PlainWordsFrom(s, 0)
    ensures Trim(s) == s && CutTopic(s) == s
  {
    LetterIsNotWhitespace(s[0], s[0]);
    LetterIsNotWhitespace(s[|s| - 1], s[|s| - 1]);
    TrimTrimmed(s);
    PlainWordsNoTopicFrom(s, 0);
    CutTopicKeeps(s);
  }

  /** A character that can begin a stop of the second pattern: `?`, `,`, `what` or `let`. */
  predicate MayStop(c: char) {
    c == '?' || c == ',' || SameIgnoringCase(c, 'w') || SameIgnoringCase(c, 'l')
  }

  /** From `from` on, the second pattern's group accepts every character and none can begin a stop. */
  predicate OpenGroupFrom(s: string, from: nat)
    decreases |s| - from
  {
    from >= |s| || (LetterOrSpace(s[from]) && !MayStop(s[from]) && OpenGroupFrom(s, from + 1))
  }

  /** With nothing to stop it, the second pattern's lazy group runs to the end of the input. */
  lemma {:induction false} LazyToEnd(s: string, index: nat, c: nat, len: nat)
    requires index <= c && 1 <= len && c + len <= |s|
    requires LetterOrSpace(s[c + len - 1]) && OpenGroupFrom(s, c + len)
    ensures Lazy(InAt, s, index, c, len) == Some(Span(index, c, |s|))
    decreases |s| - c - len
  {
    if c + len < |s| {
      assert !LiteralAt(s, c + len, "what") && !LiteralAt(s, c + len, "let");
      LazyToEnd(s, index, c, len + 1);
    }
  }

  // ----- "What to do in Tokyo" -----

  lemma WhatToDoNoIntroducerTail()
    ensures NoneMayIntroduce(GoingTo, "What to do in Tokyo", 10, 19)
  {
    assert NoneMayIntroduce(GoingTo, "What to do in Tokyo", 15, 19);
  }

  lemma WhatToDoNoGoingTo()
    ensures Exec(GoingTo, "What to do in Tokyo").None?
  {
    WhatToDoNoIntroducerTail();
    assert NoneMayIntroduce(GoingTo, "What to do in Tokyo", 5, 19);
    NoIntroducer(GoingTo, "What to do in Tokyo");
  }

  lemma WhatToDoOpen()
    ensures OpenGroupFrom("What to do in Tokyo", 7)
  {
    assert OpenGroupFrom("What to do in Tokyo", 14);
  }

  lemma WhatToDoGroup()
    ensures Lazy(InAt, "What to do in Tokyo", 2, 5, 2) == Some(Span(2, 5, 19))
  {
    WhatToDoOpen();
    LazyToEnd("What to do in Tokyo", 2, 5, 2);
  }

  lemma WhatToDoIntroducer()
    ensures !LiteralAt("What to do in Tokyo", 2, "in") && LiteralAt("What to do in Tokyo", 2, "at")
    ensures WhitespaceRun("What to do in Tokyo", 4) == 1
  {
    RunLength("What to do in Tokyo", 4, 1);
  }

  lemma WhatToDoAttempt()
    ensures At(InAt, "What to do in Tokyo", 2) == Some(Span(2, 5, 19))
  {
    WhatToDoGroup();
    WhatToDoIntroducer();
    assert Introducers(InAt) == ["in", "at"];
  }

  /** The second pattern has no word boundary: it matches the `at` inside `What`. */
  lemma WhatToDoMatch()
    ensures Exec(InAt, "What to do in Tokyo") == Some(Span(2, 5, 19))
  {
    SkipToIntroducer(InAt, "What to do in Tokyo", 0, 2);
    WhatToDoAttempt();
  }

  lemma WhatToDoGroupTrimmed()
    ensures Trim(Capture("What to do in Tokyo", Span(2, 5, 19))) == "to do in Tokyo"
  {
    assert Capture("What to do in Tokyo", Span(2, 5, 19)) == "to do in Tokyo";
    TrimTrimmed("to do in Tokyo");
  }

  /** The lead strip takes `to` and one space: the rest still begins with a word. */
  lemma WhatToDoStripped()
    ensures StripLead("to do in Tokyo") == "do in Tokyo"
  {
    RunLength("to do in Tokyo", 2, 1);
    assert LiteralAt("to do in Tokyo", 0, "to");
  }

  lemma DoInTokyoKept()
    ensures Trim("do in Tokyo") == "do in Tokyo" && CutTopic("do in Tokyo") == "do in Tokyo"
  {
    assert PlainWordsFrom("do in Tokyo", 5);
    PlainWordsKept("do in Tokyo");
  }

  // ----- "do in Tokyo" -----

  lemma DoInTokyoNoGoingTo()
    ensures Exec(GoingTo, "do in Tokyo").None?
  {
    assert NoneMayIntroduce(GoingTo, "do in Tokyo", 5, 11);
    NoIntroducer(GoingTo, "do in Tokyo");
  }

  lemma DoInTokyoGroup()
    ensures Lazy(InAt, "do in Tokyo", 3, 6, 2) == Some(Span(3, 6, 11))
  {
    assert OpenGroupFrom("do in Tokyo", 8);
    LazyToEnd("do in Tokyo", 3, 6, 2);
  }

  lemma DoInTokyoIntroducer()
    ensures LiteralAt("do in Tokyo", 3, "in") && WhitespaceRun("do in Tokyo", 5) == 1
  {
    RunLength("do in Tokyo", 5, 1);
  }

  lemma DoInTokyoAttempt()
    ensures At(InAt, "do in Tokyo", 3) == Some(Span(3, 6, 11))
  {
    DoInTokyoGroup();
    DoInTokyoIntroducer();
    assert Introducers(InAt) == ["in", "at"];
  }

  lemma DoInTokyoMatch()
    ensures Exec(InAt, "do in Tokyo") == Some(Span(3, 6, 11))
  {
    SkipToIntroducer(InAt, "do in Tokyo", 0, 3);
    DoInTokyoAttempt();
  }

  lemma TokyoKept()
    ensures Trim(Capture("do in Tokyo", Span(3, 6, 11))) == "Tokyo"
    ensures StripLead("Tokyo") == "Tokyo" && Trim("Tokyo") == "Tokyo" && CutTopic("Tokyo") == "Tokyo"
  {
    assert Capture("do in Tokyo", Span(3, 6, 11)) == "Tokyo";
    NoLead("Tokyo");
    PlainWordsKept("Tokyo");
  }
}
