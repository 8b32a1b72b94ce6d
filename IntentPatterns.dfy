/**
 * The five regular expressions of the intent analyzer (src/App.js), each
 * written out as the scan a JavaScript backtracking matcher performs:
 * start positions left to right, alternatives in order, a greedy `\s+` that
 * gives back one character at a time, and a lazy group that grows one
 * character at a time until what follows it matches. All five carry the `i`
 * flag, so literals compare with `SameIgnoringCase` and `[A-Z]` accepts any
 * ASCII letter.
 *
 *   GoingTo   /(?:going to|visit|trip to|travel to)\s+(.+?)(?:\?|,|$)/i
 *   InAt      /(?:in|at)\s+([A-Z][a-zA-Z\s]+?)(?:\?|,|what|let|$)/i
 *   Whole     /^([A-Z][a-zA-Z\s]+?)(?:\s+weather|\s+places|\s+trip)?$/i
 *   StripLead /^(to|in|at)\s+/i, replaced by ''
 *   CutTopic  /\s+(weather|temperature|places|attractions|trip|plan).*$/i, replaced by ''
 */
module IntentPatterns {
  import opened JsText

  /** A successful match: it begins at `index` and its first group is `s[start..end]`. */
  datatype Span = Span(index: nat, start: nat, end: nat)

  predicate Within(s: string, m: Span) {
    m.index <= m.start <= m.end <= |s|
  }

  function Capture(s: string, m: Span): string
    requires Within(s, m)
  {
    s[m.start..m.end]
  }

  /** The three extraction patterns, in the order the analyzer tries them. */
  datatype Pattern = GoingTo | InAt | Whole

  /** The alternatives `(?:…)` in front of `\s+` in the first two patterns. */
  function Introducers(p: Pattern): seq<string>
    requires p != Whole
  {
    if p == GoingTo then ["going to", "visit", "trip to", "travel to"] else ["in", "at"]
  }

  /** `[a-zA-Z\s]` under the `i` flag. */
  predicate LetterOrSpace(c: char) {
    IsAsciiLetter(c) || IsWhitespace(c)
  }

  /** A character the group may take: `.` in the first pattern, `[a-zA-Z\s]` in the second. */
  predicate GroupChar(p: Pattern, c: char) {
    if p == GoingTo then !IsLineTerminator(c) else LetterOrSpace(c)
  }

  /** What must follow the group: `(?:\?|,|$)`, or `(?:\?|,|what|let|$)` in the second pattern. */
  predicate Stop(p: Pattern, s: string, q: nat)
    requires q <= |s|
  {
    q == |s| || s[q] == '?' || s[q] == ',' ||
    (p != GoingTo && (LiteralAt(s, q, "what") || LiteralAt(s, q, "let")))
  }

  /** `Stop` fails at every position in `[from, to)`. */
  predicate NoStopIn(p: Pattern, s: string, from: nat, to: nat)
    requires to <= |s|
    decreases if from < to then to - from else 0
  {
    from >= to || (!Stop(p, s, from) && NoStopIn(p, s, from + 1, to))
  }

  /** `.+?` has at least one character, `[A-Z][a-zA-Z\s]+?` at least two. */
  function MinGroup(p: Pattern): nat {
    if p == GoingTo then 1 else 2
  }

  /** Every character of `s[from..to]` is one the group accepts. */
  predicate GroupChars(p: Pattern, s: string, from: nat, to: nat)
    requires from <= to <= |s|
  {
    forall q :: from <= q < to ==> GroupChar(p, s[q])
  }

  /**
   * What the group `s[m.start..m.end]` of a match looks like: at least
   * `MinGroup(p)` accepted characters (a letter first in the second pattern),
   * followed by the stop, and the shortest such.
   */
  predicate LazyGroup(p: Pattern, s: string, m: Span)
    requires p != Whole && Within(s, m)
  {
    GroupSpan(p, s, m.start, m.end) && NoStopIn(p, s, m.start + MinGroup(p), m.end)
  }

  /**
   * `s[c..e]` is a group the pattern accepts, not necessarily the shortest:
   * at least `MinGroup(p)` accepted characters (a letter first in the second
   * pattern), followed by the stop.
   */
  predicate GroupSpan(p: Pattern, s: string, c: nat, e: nat)
    requires p != Whole
  {
    c + MinGroup(p) <= e <= |s| && (p == InAt ==> IsAsciiLetter(s[c])) &&
    GroupChars(p, s, c, e) && Stop(p, s, e)
  }

  /**
   * The lazy group from `c`, currently `len` characters long: the newest
   * character must be one the group accepts; then, if the stop matches after
   * it, the match is found, otherwise the group takes one more character.
   */
  function Lazy(p: Pattern, s: string, index: nat, c: nat, len: nat): (r: Option<Span>)
    requires p != Whole && index <= c && 1 <= len
    ensures r.Some? ==> Within(s, r.value) && r.value.index == index && r.value.start == c
    ensures r.Some? ==> c + len <= r.value.end && Stop(p, s, r.value.end)
    ensures r.Some? ==> GroupChars(p, s, c + len - 1, r.value.end)
    ensures r.Some? ==> NoStopIn(p, s, c + len, r.value.end)
    decreases |s| - c - len
  {
    if c + len > |s| then None
    else if !GroupChar(p, s[c + len - 1]) then None
    else if Stop(p, s, c + len) then Some(Span(index, c, c + len))
    else Lazy(p, s, index, c, len + 1)
  }

  /** When accepted characters run from the newest one up to a stop at `e`, the lazy group stops there or earlier. */
  lemma {:induction false} LazyComplete(p: Pattern, s: string, index: nat, c: nat, len: nat, e: nat)
    requires p != Whole && index <= c && 1 <= len
    requires c + len <= e <= |s| && Stop(p, s, e) && GroupChars(p, s, c + len - 1, e)
    ensures Lazy(p, s, index, c, len).Some? && Lazy(p, s, index, c, len).value.end <= e
    decreases e - c - len
  {
    if !Stop(p, s, c + len) {
      LazyComplete(p, s, index, c, len + 1, e);
    }
  }

  /** The group starting at `c` (in the second pattern its first character must be a letter). */
  function Group(p: Pattern, s: string, index: nat, c: nat): (r: Option<Span>)
    requires p != Whole && index <= c
    ensures r.Some? ==> Within(s, r.value) && r.value.index == index && r.value.start == c
    ensures r.Some? ==> LazyGroup(p, s, r.value)
  {
    if p == GoingTo then Lazy(p, s, index, c, 1)
    else if c < |s| && IsAsciiLetter(s[c]) then Lazy(p, s, index, c, 2)
    else None
  }

  /** The group from `c` is found whenever some group from `c` is acceptable, and it is the shortest. */
  lemma GroupComplete(p: Pattern, s: string, index: nat, c: nat, e: nat)
    requires p != Whole && index <= c && GroupSpan(p, s, c, e)
    ensures Group(p, s, index, c).Some? && Group(p, s, index, c).value.end <= e
  {
    LazyComplete(p, s, index, c, MinGroup(p), e);
  }

  /** `\s+` after the introducer ends at `j`: try `k` whitespace characters, then `k - 1`, down to one. */
  function Backtrack(p: Pattern, s: string, index: nat, j: nat, k: nat): (r: Option<Span>)
    requires p != Whole && index <= j && 1 <= k && j + k <= |s|
    ensures r.Some? ==> Within(s, r.value) && r.value.index == index && j < r.value.start <= j + k
    ensures r.Some? ==> LazyGroup(p, s, r.value)
    decreases k
  {
    var r := Group(p, s, index, j + k);
    if r.Some? || k == 1 then r else Backtrack(p, s, index, j, k - 1)
  }

  /** The greedy `\s+` gives back as little as it can: a group found after `t` puts the result's group at `t` or later. */
  lemma {:induction false} BacktrackGreedy(p: Pattern, s: string, index: nat, j: nat, k: nat, t: nat)
    requires p != Whole && index <= j && 1 <= k && j + k <= |s|
    requires j < t <= j + k && Group(p, s, index, t).Some?
    ensures Backtrack(p, s, index, j, k).Some? && t <= Backtrack(p, s, index, j, k).value.start
    decreases k
  {
    if Group(p, s, index, j + k).None? {
      BacktrackGreedy(p, s, index, j, k - 1, t);
    }
  }

  /** The introducer `w` matched at `index`: the rest of the pattern from `index + |w|`. */
  function AfterIntroducer(p: Pattern, s: string, index: nat, w: string): (r: Option<Span>)
    requires p != Whole && LiteralAt(s, index, w)
    ensures r.Some? ==> Within(s, r.value) && r.value.index == index
    ensures r.Some? ==> Spaced(s, r.value, w) && LazyGroup(p, s, r.value)
  {
    var j := index + |w|;
    var n := WhitespaceRun(s, j);
    if n == 0 then None else Backtrack(p, s, index, j, n)
  }

  /** A group found after whitespace that follows the introducer puts the result's group there or later. */
  lemma AfterIntroducerGreedy(p: Pattern, s: string, index: nat, w: string, t: nat)
    requires p != Whole && LiteralAt(s, index, w)
    requires index + |w| < t <= |s| && AllWhitespace(s, index + |w|, t) && Group(p, s, index, t).Some?
    ensures AfterIntroducer(p, s, index, w).Some? && t <= AfterIntroducer(p, s, index, w).value.start
  {
    var j := index + |w|;
    var n := WhitespaceRun(s, j);
    assert t <= j + n;
    BacktrackGreedy(p, s, index, j, n, t);
  }

  /** The attempt with introducer number `a` at position `i`. */
  function Attempt(p: Pattern, s: string, i: nat, a: nat): (r: Option<Span>)
    requires p != Whole && a < |Introducers(p)|
    ensures r.Some? ==> Within(s, r.value) && r.value.index == i
    ensures r.Some? ==> Spaced(s, r.value, Introducers(p)[a]) && LazyGroup(p, s, r.value)
  {
    var w := Introducers(p)[a];
    if LiteralAt(s, i, w) then AfterIntroducer(p, s, i, w) else None
  }

  /**
   * An attempt succeeds whenever some span after that introducer has an
   * acceptable group, and its group starts no earlier than that span's.
   */
  lemma AttemptComplete(p: Pattern, s: string, a: nat, m: Span)
    requires p != Whole && a < |Introducers(p)| && Within(s, m)
    requires Spaced(s, m, Introducers(p)[a]) && GroupSpan(p, s, m.start, m.end)
    ensures Attempt(p, s, m.index, a).Some? && m.start <= Attempt(p, s, m.index, a).value.start
  {
    GroupComplete(p, s, m.index, m.start, m.end);
    AfterIntroducerGreedy(p, s, m.index, Introducers(p)[a], m.start);
  }

  /** No attempt with an introducer from number `a` up to `b` succeeds. */
  predicate NoAttemptBefore(p: Pattern, s: string, i: nat, a: nat, b: nat)
    requires p != Whole && b <= |Introducers(p)|
  {
    forall c :: a <= c < b ==> Attempt(p, s, i, c).None?
  }

  /** The introducers from number `a` on, tried in order at position `i`. */
  function Alternatives(p: Pattern, s: string, i: nat, a: nat): (r: Option<Span>)
    requires p != Whole && i <= |s| && a <= |Introducers(p)|
    ensures r.Some? ==> Within(s, r.value) && r.value.index == i
    ensures r.Some? ==> Introduced(p, s, r.value) && LazyGroup(p, s, r.value)
    decreases |Introducers(p)| - a
  {
    if a == |Introducers(p)| then None
    else
      var r := Attempt(p, s, i, a);
      if r.Some? then r else Alternatives(p, s, i, a + 1)
  }

  /**
   * The alternatives from number `a` on give `r` when `r` is the first
   * attempt that succeeds, and nothing when every attempt fails.
   */
  predicate FirstAttempt(p: Pattern, s: string, i: nat, a: nat, r: Option<Span>)
    requires p != Whole && a <= |Introducers(p)|
  {
    (r.Some? ==> exists b :: a <= b < |Introducers(p)| && r == Attempt(p, s, i, b) && NoAttemptBefore(p, s, i, a, b))
    && (r.None? ==> NoAttemptBefore(p, s, i, a, |Introducers(p)|))
  }

  /** The alternatives are tried in order. */
  lemma {:induction false} AlternativesFirst(p: Pattern, s: string, i: nat, a: nat)
    requires p != Whole && i <= |s| && a <= |Introducers(p)|
    ensures FirstAttempt(p, s, i, a, Alternatives(p, s, i, a))
    decreases |Introducers(p)| - a
  {
    if a == |Introducers(p)| {
      assert NoAttemptBefore(p, s, i, a, a);
    } else if Attempt(p, s, i, a).Some? {
      assert Alternatives(p, s, i, a) == Attempt(p, s, i, a);
      assert NoAttemptBefore(p, s, i, a, a);
    } else {
      AlternativesFirst(p, s, i, a + 1);
      FirstAttemptAfterMiss(p, s, i, a, Alternatives(p, s, i, a + 1));
    }
  }

  /** A failed attempt passes the choice on to the next introducer. */
  lemma FirstAttemptAfterMiss(p: Pattern, s: string, i: nat, a: nat, q: Option<Span>)
    requires p != Whole && a < |Introducers(p)|
    requires Attempt(p, s, i, a).None? && FirstAttempt(p, s, i, a + 1, q)
    ensures FirstAttempt(p, s, i, a, q)
  {
    if q.Some? {
      var b :| a + 1 <= b < |Introducers(p)| && q == Attempt(p, s, i, b) && NoAttemptBefore(p, s, i, a + 1, b);
      assert NoAttemptBefore(p, s, i, a, b);
    }
  }

  /** The match begins with one of the introducers, then at least one whitespace character up to the group. */
  predicate Introduced(p: Pattern, s: string, m: Span)
    requires p != Whole && Within(s, m)
  {
    exists a :: 0 <= a < |Introducers(p)| && Spaced(s, m, Introducers(p)[a])
  }

  predicate Spaced(s: string, m: Span, w: string)
    requires Within(s, m)
  {
    LiteralAt(s, m.index, w) && m.index + |w| < m.start && AllWhitespace(s, m.index + |w|, m.start)
  }

  const WholeSuffixes: seq<string> := ["weather", "places", "trip"]

  /** `\s+word$` at `q` with `\s+` taking `k` characters, then fewer. */
  predicate SpacedWordThenEnd(s: string, q: nat, k: nat, w: string)
    requires 1 <= k && q + k <= |s|
    decreases k
  {
    (LiteralAt(s, q + k, w) && q + k + |w| == |s|) || (k > 1 && SpacedWordThenEnd(s, q, k - 1, w))
  }

  /** The alternatives of `(?:\s+weather|\s+places|\s+trip)` from number `a` on, each followed by `$`. */
  predicate SuffixFrom(s: string, q: nat, a: nat)
    requires q <= |s| && a <= |WholeSuffixes|
    decreases |WholeSuffixes| - a
  {
    a < |WholeSuffixes| &&
    ((WhitespaceRun(s, q) >= 1 && SpacedWordThenEnd(s, q, WhitespaceRun(s, q), WholeSuffixes[a])) ||
     SuffixFrom(s, q, a + 1))
  }

  /** `(?:\s+weather|\s+places|\s+trip)?$` at `q`: the optional group is greedy, so it is tried first. */
  predicate WholeTail(s: string, q: nat)
    requires q <= |s|
  {
    SuffixFrom(s, q, 0) || q == |s|
  }

  /** `WholeTail` fails at every position in `[from, to)`. */
  predicate NoTailIn(s: string, from: nat, to: nat)
    requires to <= |s|
    decreases if from < to then to - from else 0
  {
    from >= to || (!WholeTail(s, from) && NoTailIn(s, from + 1, to))
  }

  predicate LettersOrSpaces(s: string, from: nat, to: nat)
    requires from <= to <= |s|
  {
    forall q :: from <= q < to ==> LetterOrSpace(s[q])
  }

  /**
   * What a match of the third pattern looks like: the group is a prefix of at
   * least two characters, a letter and then letters or whitespace, followed
   * by the optional suffix and the end; and it is the shortest such.
   */
  predicate WholeShape(s: string, m: Span)
    requires Within(s, m)
  {
    m.index == 0 && m.start == 0 && 2 <= m.end && IsAsciiLetter(s[0]) &&
    LettersOrSpaces(s, 1, m.end) && WholeTail(s, m.end) && NoTailIn(s, 2, m.end)
  }

  /** The lazy group of the third pattern, `s[0..len]`. */
  function WholeLazy(s: string, len: nat): (r: Option<Span>)
    requires 2 <= len
    ensures r.Some? ==> Within(s, r.value) && r.value.index == 0 && r.value.start == 0
    ensures r.Some? ==> len <= r.value.end && WholeTail(s, r.value.end)
    ensures r.Some? ==> LettersOrSpaces(s, len - 1, r.value.end)
    ensures r.Some? ==> NoTailIn(s, len, r.value.end)
    decreases |s| - len
  {
    if len > |s| then None
    else if !LetterOrSpace(s[len - 1]) then None
    else if WholeTail(s, len) then Some(Span(0, 0, len))
    else WholeLazy(s, len + 1)
  }

  /** When letters or whitespace run from the newest character up to a tail at `e`, the lazy group stops there or earlier. */
  lemma {:induction false} WholeLazyComplete(s: string, len: nat, e: nat)
    requires 2 <= len <= e <= |s| && WholeTail(s, e) && LettersOrSpaces(s, len - 1, e)
    ensures WholeLazy(s, len).Some? && WholeLazy(s, len).value.end <= e
    decreases e - len
  {
    if !WholeTail(s, len) {
      WholeLazyComplete(s, len + 1, e);
    }
  }

  /** The shape a match of pattern `p` has. */
  predicate Shape(p: Pattern, s: string, m: Span)
    requires Within(s, m)
  {
    if p == Whole then WholeShape(s, m) else Introduced(p, s, m) && LazyGroup(p, s, m)
  }

  /** The match attempt of pattern `p` that starts at position `i` (the third is anchored by `^`). */
  function At(p: Pattern, s: string, i: nat): (r: Option<Span>)
    requires i <= |s|
    ensures r.Some? ==> Within(s, r.value) && r.value.index == i && r.value.start < r.value.end
    ensures r.Some? ==> Shape(p, s, r.value)
  {
    if p == Whole then
      if i == 0 && 0 < |s| && IsAsciiLetter(s[0]) then WholeLazy(s, 2) else None
    else Alternatives(p, s, i, 0)
  }

  /** The attempt at a position fails only when no span there has the shape. */
  lemma AtComplete(p: Pattern, s: string, m: Span)
    requires Within(s, m) && Shape(p, s, m)
    ensures At(p, s, m.index).Some?
  {
    if p == Whole {
      WholeLazyComplete(s, 2, m.end);
    } else {
      var a :| 0 <= a < |Introducers(p)| && Spaced(s, m, Introducers(p)[a]);
      AttemptComplete(p, s, a, m);
      AlternativesFirst(p, s, m.index, 0);
    }
  }

  /**
   * When a span at `i` follows introducer number `a`, the attempt at `i`
   * succeeds with that introducer or an earlier one, the first that succeeds.
   */
  lemma AtFirstIntroducer(p: Pattern, s: string, m: Span, a: nat)
    requires p != Whole && Within(s, m) && a < |Introducers(p)|
    requires Spaced(s, m, Introducers(p)[a]) && LazyGroup(p, s, m)
    ensures exists b :: 0 <= b <= a && At(p, s, m.index) == Attempt(p, s, m.index, b) && NoAttemptBefore(p, s, m.index, 0, b)
  {
    AttemptComplete(p, s, a, m);
    AlternativesFirst(p, s, m.index, 0);
  }

  /** The attempts at the start positions `0` to `|s|`, in the order the matcher makes them. */
  function Attempts(p: Pattern, s: string): (ms: seq<Option<Span>>)
    ensures |ms| == |s| + 1
  {
    seq(|s| + 1, q requires 0 <= q <= |s| => At(p, s, q))
  }

  /** Every attempt in `ms[from..to]` fails. */
  predicate NoneIn(ms: seq<Option<Span>>, from: nat, to: nat)
    requires to <= |ms|
    decreases if from < to then to - from else 0
  {
    from >= to || (ms[from].None? && NoneIn(ms, from + 1, to))
  }

  lemma {:induction false} NoneAt(ms: seq<Option<Span>>, from: nat, to: nat, q: nat)
    requires to <= |ms| && from <= q < to && NoneIn(ms, from, to)
    ensures ms[q].None?
    decreases q - from
  {
    if from < q {
      NoneAt(ms, from + 1, to, q);
    }
  }

  /** No match attempt of `p` succeeds at a position in `[from, to)`. */
  predicate NoMatchIn(p: Pattern, s: string, from: nat, to: nat)
    requires to <= |s| + 1
  {
    NoneIn(Attempts(p, s), from, to)
  }

  /** The leftmost match from position `i` on. */
  function Leftmost(p: Pattern, s: string, i: nat): (r: Option<Span>)
    requires i <= |s|
    ensures r.Some? ==> Within(s, r.value) && i <= r.value.index && At(p, s, r.value.index) == r
    ensures r.Some? ==> NoMatchIn(p, s, i, r.value.index)
    ensures r.None? ==> NoMatchIn(p, s, i, |s| + 1)
    decreases |s| - i
  {
    var r := At(p, s, i);
    if r.Some? then r
    else if i == |s| then None
    else Leftmost(p, s, i + 1)
  }

  /** `s.match(pattern)`: the leftmost match, or `null`. */
  function Exec(p: Pattern, s: string): (r: Option<Span>)
    ensures r.Some? ==> Within(s, r.value) && Shape(p, s, r.value) && At(p, s, r.value.index) == r
  {
    Leftmost(p, s, 0)
  }

  /**
   * The match is the leftmost: every attempt before it fails, there is no
   * match only when every attempt fails, and since every span with the
   * pattern's shape starts a successful attempt, none starts earlier.
   */
  lemma ExecLeftmost(p: Pattern, s: string)
    ensures var r := Exec(p, s); r.Some? ==> forall q :: 0 <= q < r.value.index ==> At(p, s, q).None?
    ensures Exec(p, s).None? ==> forall q :: 0 <= q <= |s| ==> At(p, s, q).None?
    ensures forall m :: Within(s, m) && Shape(p, s, m) ==> Exec(p, s).Some? && Exec(p, s).value.index <= m.index
  {
    var ms := Attempts(p, s);
    var r := Exec(p, s);
    var to := if r.Some? then r.value.index else |s| + 1;
    forall q | 0 <= q < to ensures At(p, s, q).None? {
      NoneAt(ms, 0, to, q);
    }
    forall m | Within(s, m) && Shape(p, s, m) ensures r.Some? && r.value.index <= m.index {
      AtComplete(p, s, m);
    }
  }

  // ----- The leading strip: /^(to|in|at)\s+/i -----

  const LeadWords: seq<string> := ["to", "in", "at"]

  /** `s` starts with `to`, `in` or `at`, in any case, followed by whitespace. */
  predicate Lead(s: string) {
    (exists a :: 0 <= a < |LeadWords| && LiteralAt(s, 0, LeadWords[a])) && 2 < |s| && IsWhitespace(s[2])
  }

  /**
   * The replacement of the anchored strip pattern by ''. The three
   * alternatives are all two characters long and at most one of them matches,
   * and nothing follows the greedy `\s+`, so it takes the whole run.
   */
  function StripLead(s: string): (r: string)
    ensures |r| <= |s| && r == s[|s| - |r|..]
    ensures r != s <==> Lead(s)
    ensures r != s ==> |r| + 3 <= |s| && AllWhitespace(s, 2, |s| - |r|) && (r == [] || !IsWhitespace(r[0]))
  {
    if (LiteralAt(s, 0, LeadWords[0]) || LiteralAt(s, 0, LeadWords[1]) || LiteralAt(s, 0, LeadWords[2])) &&
       WhitespaceRun(s, 2) >= 1
    then
      var r := s[2 + WhitespaceRun(s, 2)..];
      assert |r| < |s|;
      r
    else
      s
  }

  // ----- The topic cut: /\s+(weather|temperature|places|attractions|trip|plan).*$/i -----

  const TopicWords: seq<string> := ["weather", "temperature", "places", "attractions", "trip", "plan"]

  /** The topic words from number `a` on at `q`, each followed by `.*$`: no line terminator up to the end. */
  predicate TopicWordFrom(s: string, q: nat, a: nat)
    requires q <= |s| && a <= |TopicWords|
    decreases |TopicWords| - a
  {
    a < |TopicWords| &&
    ((LiteralAt(s, q, TopicWords[a]) && NoLineTerminator(s[q + |TopicWords[a]|..])) ||
     TopicWordFrom(s, q, a + 1))
  }

  /** `\s+` from `i` taking `k` characters, then fewer, before the topic word. */
  predicate TopicBacktrack(s: string, i: nat, k: nat)
    requires 1 <= k && i + k <= |s|
    decreases k
  {
    TopicWordFrom(s, i + k, 0) || (k > 1 && TopicBacktrack(s, i, k - 1))
  }

  /** The topic pattern matches at position `i`. */
  predicate TopicAt(s: string, i: nat)
    requires i <= |s|
  {
    WhitespaceRun(s, i) >= 1 && TopicBacktrack(s, i, WhitespaceRun(s, i))
  }

  /** Topic word number `a` or a later one occurs at `q` with no line terminator after it. */
  lemma {:induction false} TopicWordFromMeans(s: string, q: nat, a: nat)
    requires q <= |s| && a <= |TopicWords|
    ensures TopicWordFrom(s, q, a) <==>
              exists b :: a <= b < |TopicWords| && LiteralAt(s, q, TopicWords[b]) &&
                          NoLineTerminator(s[q + |TopicWords[b]|..])
    decreases |TopicWords| - a
  {
    if a < |TopicWords| {
      TopicWordFromMeans(s, q, a + 1);
    }
  }

  /** Backing off the `\s+` from `k` characters tries every shorter run: a topic word follows one of `1..k` characters. */
  lemma {:induction false} TopicBacktrackMeans(s: string, i: nat, k: nat)
    requires 1 <= k && i + k <= |s|
    ensures TopicBacktrack(s, i, k) <==> exists q :: i < q <= i + k && TopicWordFrom(s, q, 0)
    decreases k
  {
    var q := i + k;
    if TopicWordFrom(s, q, 0) {
      assert TopicBacktrack(s, i, k);
      assert exists r :: i < r <= i + k && TopicWordFrom(s, r, 0);
    } else if k > 1 {
      TopicBacktrackMeans(s, i, k - 1);
    }
  }

  /**
   * The topic pattern matches at `i` exactly when some non-empty part of the
   * whitespace run at `i` is followed by a topic word with no line terminator
   * after it.
   */
  lemma TopicAtMeans(s: string, i: nat)
    requires i <= |s|
    ensures TopicAt(s, i) <==>
              exists q :: i < q <= i + WhitespaceRun(s, i) && TopicWordFrom(s, q, 0)
  {
    if WhitespaceRun(s, i) >= 1 {
      TopicBacktrackMeans(s, i, WhitespaceRun(s, i));
    }
  }

  /** For each start position `0..|s|`, whether the topic pattern matches there. */
  function TopicPositions(s: string): (m: seq<bool>)
    ensures |m| == |s| + 1
  {
    seq(|s| + 1, i requires 0 <= i <= |s| => TopicAt(s, i))
  }

  /** The first `true` from `i` on: the leftmost position where a match is found. */
  function FirstTrue(m: seq<bool>, i: nat): (r: Option<nat>)
    requires i <= |m|
    ensures r.Some? ==> i <= r.value < |m| && m[r.value]
    ensures forall j :: i <= j < (if r.Some? then r.value else |m|) ==> !m[j]
    decreases |m| - i
  {
    if i == |m| then None else if m[i] then Some(i) else FirstTrue(m, i + 1)
  }

  /** The replacement of the topic pattern by '': everything from the match on is dropped. */
  function CutTopic(s: string): (r: string)
    ensures r <= s
    ensures r != s ==> TopicAt(s, |r|)
  {
    match FirstTrue(TopicPositions(s), 0)
    case Some(i) =>
      assert TopicPositions(s)[i];
      s[..i]
    case None => s
  }

  /**
   * The cut is made at the leftmost match: no position before it matches,
   * and an uncut string has no match at any position.
   */
  lemma CutTopicLeftmost(s: string)
    ensures forall i :: 0 <= i < |CutTopic(s)| ==> !TopicAt(s, i)
    ensures CutTopic(s) == s ==> forall i :: 0 <= i <= |s| ==> !TopicAt(s, i)
  {
    var m := TopicPositions(s);
    assert !TopicAt(s, |s|) by {
      assert WhitespaceRun(s, |s|) == 0;
    }
    forall i | 0 <= i <= |s| && (i < |CutTopic(s)| || CutTopic(s) == s)
      ensures !TopicAt(s, i)
    {
      if i < |s| {
        assert !m[i];
      }
    }
  }

  /** `s` has, at `p`, a run of `k` whitespace characters followed by topic word number `a`. */
  predicate TopicAfterSpace(s: string, p: nat, k: nat, a: nat) {
    a < |TopicWords| && 1 <= k && p + k <= |s| && AllWhitespace(s, p, p + k) &&
    LiteralAt(s, p + k, TopicWords[a])
  }

  lemma LetterIsNotWhitespace(c: char, d: char)
    requires IsAsciiLetter(d) && SameIgnoringCase(c, d)
    ensures IsAsciiLetter(c) && !IsWhitespace(c)
  {
  }

  lemma {:induction false} TopicWordFromEarlier(s: string, q: nat, a: nat, b: nat)
    requires b <= a < |TopicWords| && q <= |s|
    requires LiteralAt(s, q, TopicWords[a]) && NoLineTerminator(s[q + |TopicWords[a]|..])
    ensures TopicWordFrom(s, q, b)
    decreases a - b
  {
    if b < a {
      TopicWordFromEarlier(s, q, a, b + 1);
    }
  }

  /**
   * In a string without line terminators, whitespace followed by a topic word
   * is a match of the topic pattern: once the run ends at a letter, giving
   * back whitespace cannot help, so the full run is the one that matches.
   */
  lemma TopicAfterSpaceMatches(s: string, p: nat, k: nat, a: nat)
    requires TopicAfterSpace(s, p, k, a) && NoLineTerminator(s)
    ensures TopicAt(s, p)
  {
    var w := TopicWords[a];
    assert IsAsciiLetter(w[0]);
    LetterIsNotWhitespace(s[p + k], w[0]);
    assert WhitespaceRun(s, p) == k by {
      RunLength(s, p, k);
    }
    NoLineTerminatorSlice(s, p + k + |w|, |s|);
    TopicWordFromEarlier(s, p + k, a, 0);
  }

  /** A whitespace run of length `k` ending at a non-whitespace character is the run `WhitespaceRun` measures. */
  lemma {:induction false} RunLength(s: string, i: nat, k: nat)
    requires i + k < |s| && AllWhitespace(s, i, i + k) && !IsWhitespace(s[i + k])
    ensures WhitespaceRun(s, i) == k
    decreases k
  {
    if k > 0 {
      RunLength(s, i + 1, k - 1);
    }
  }

  /**
   * In a string without line terminators, the cut is made at or before the
   * first whitespace that is followed by a topic word.
   */
  lemma CutTopicRemovesTopics(s: string, p: nat, k: nat, a: nat)
    requires NoLineTerminator(s) && TopicAfterSpace(s, p, k, a)
    ensures |CutTopic(s)| <= p
  {
    TopicAfterSpaceMatches(s, p, k, a);
    var m := TopicPositions(s);
    assert m[p];
  }
}
