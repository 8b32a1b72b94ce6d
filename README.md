# Travel Explorer request core, modelled in Dafny

Travel Explorer is a single-page React app (`src/App.js`). The user types a
free-text travel request ("I'm going to Paris!", "Rome weather"). The app:

- works out which place the request is about, and whether it asks for the weather, for places to visit, or for both (`analyzeIntent`);
- geocodes the place;
- fetches the current weather and/or up to five points of interest near it;
- shows either a response card or an error message.

The modules, in dependency order:

| file | module | what it models |
|---|---|---|
| `JsText.dfy` | `JsText` | The JavaScript string primitives the core uses: the `\s`/`trim` whitespace set, line terminators (what `.` refuses), ASCII case folding for `toLowerCase` and the `i` flag, `trim`, `includes`, and the `Option` type used for `null`. |
| `IntentPatterns.dfy` | `IntentPatterns` | The five regular expressions of `analyzeIntent`, each written as the scan a backtracking matcher performs (see below). |
| `Intent.dfy` | `Intent` | `analyzeIntent` itself. `Analyze` is the specification. `AnalyzeIntent` is the program's own sequence of statements, including its loop over the patterns (`FirstCandidate`). |
| `Places.dfy` | `Places` | The post-processing in `getPlaces`: filter the named elements, describe each one, keep the first five. |
| `Agent.dfy` | `Agent` | The request cycle, in two parts (see below). |
| `PatternExamples.dfy` | `PatternExamples` | The patterns evaluated on particular requests, with general lemmas that let the verifier skip positions where no introducer can begin and run a lazy group to the end of the input. |
| `IntentExamples.dfy` | `IntentExamples` | What `analyzeIntent` makes of the requests listed under "Where the code and its documented examples differ". |

**How the patterns are matched.** Each pattern is a scan of start positions from left to right:

- alternatives are tried in order;
- a greedy `\s+` takes the whole whitespace run, then gives back one character at a time;
- a lazy group grows one character at a time until what follows it matches;
- `$` matches only at the end of the input.

The functions' contracts say that what they find has the pattern's shape. Separate lemmas say that nothing is missed and which of several candidates wins:

- `LazyComplete`, `GroupComplete` and `WholeLazyComplete`: a group is found whenever one is acceptable, and it is the shortest;
- `BacktrackGreedy`, `AfterIntroducerGreedy` and `AttemptComplete`: the `\s+` keeps as much whitespace as it can;
- `AlternativesFirst` and `AtFirstIntroducer`: the first introducer that succeeds wins;
- `AtComplete` and `ExecLeftmost`: the match is the leftmost, and there is none only when no span has the pattern's shape.

**How a request is modelled.**

- `TourismAgent` is a class with the page's state (`input`, `loading`, `error`, `response`).
- The submit guard is modelled on the Enter key (`PressKey`) and on the button (`Click`).
- `processTourismRequest` is split into its start and its completion:
  - `Start` is the state the function sets before its first `await`;
  - `Complete` is everything after that, given how each lookup ended.
- The pure function `Settle` specifies the completion.

## Model

| member | source | states |
|---|---|---|
| `JsText.Trim` | src/App.js:24 | `trim` yields a string with no whitespace at either end (the full JavaScript `\s` set). |
| `JsText.TrimStart` | src/App.js:24 | The leading part `trim` drops is all whitespace, and what is left is a suffix that starts with non-whitespace. |
| `JsText.TrimEnd` | src/App.js:24 | The trailing part `trim` drops is all whitespace, and what is left is a prefix that ends with non-whitespace. |
| `JsText.ToLower` | src/App.js:12 | The lower-cased string has the same length, no upper-case ASCII letter, and each character equals the original one up to case, and is unchanged unless it was upper-case. |
| `JsText.IncludesTransitive` | src/App.js:32-44 | A string that includes `v` includes everything that `v` includes. |
| `JsText.ToLowerIgnoresCase` | src/App.js:12 | Two inputs that differ only in the case of letters lower-case to the same string. |
| `IntentPatterns.Lazy` | src/App.js:16-17 | A found group starts where asked, every character added from the current length on is accepted, the stop follows it, and the stop fails at every shorter end: the group is the shortest. |
| `IntentPatterns.LazyComplete` | src/App.js:16-17 | The lazy group is not missed: when accepted characters run up to a stop at `e`, the group is found and ends at `e` or earlier. Hence no group is found only when no end is acceptable. |
| `IntentPatterns.Group` | src/App.js:16-17 | A group found at a position has the shape of a lazy group there: at least one accepted character (a letter and one more in the second pattern), the stop after it, and no earlier stop. |
| `IntentPatterns.GroupComplete` | src/App.js:16-17 | Whenever some acceptable group starts at a position, the group is found there, and it ends no later than that one. |
| `IntentPatterns.Backtrack` | src/App.js:16-17 | After backing off the greedy `\s+`, the group starts after at least one and at most the whole run of whitespace, and has the lazy-group shape. |
| `IntentPatterns.BacktrackGreedy` | src/App.js:16-17 | The greedy `\s+` gives back as little as it can: if a group can start at `t` within the run, the result's group starts at `t` or later. |
| `IntentPatterns.AfterIntroducer` | src/App.js:16-17 | After an introducer, a match has at least one whitespace character up to its group, and a lazy group. |
| `IntentPatterns.AfterIntroducerGreedy` | src/App.js:16-17 | If a group can start at `t` after whitespace that follows the introducer, the match is found and its group starts at `t` or later. |
| `IntentPatterns.Attempt` | src/App.js:16-17 | An attempt with one introducer succeeds only with that introducer, whitespace after it, and a lazy group. |
| `IntentPatterns.AttemptComplete` | src/App.js:16-17 | An attempt succeeds whenever a span with an acceptable group follows its introducer and whitespace, and its group starts no earlier than that span's (longest `\s+`). |
| `IntentPatterns.Alternatives` | src/App.js:16-17 | A match of the first two patterns: one of the introducers, at least one whitespace character, then a lazy group. |
| `IntentPatterns.AlternativesFirst` | src/App.js:16-17 | The alternatives are tried in order: the result is the attempt of the first introducer that succeeds, and there is no result only when every introducer fails. |
| `IntentPatterns.WholeLazy` | src/App.js:18 | The third pattern's group is the shortest prefix of letters and whitespace after which the optional ` weather`/` places`/` trip` and the end match. |
| `IntentPatterns.WholeLazyComplete` | src/App.js:18 | The third pattern's group is not missed: when letters or whitespace run up to a tail at `e`, the group is found and ends at `e` or earlier. |
| `IntentPatterns.At` | src/App.js:16-18 | A match attempt at a position succeeds only with the shape of its pattern, and its group is non-empty. |
| `IntentPatterns.AtComplete` | src/App.js:16-18 | A match attempt at a position fails only when no span there has the pattern's shape. |
| `IntentPatterns.AtFirstIntroducer` | src/App.js:16-17 | When a span at a position follows introducer number `a`, the attempt there gives the attempt of the first introducer that succeeds, which is `a` or an earlier one. |
| `IntentPatterns.NoneAt` | src/App.js:22 | When every attempt in a range of positions fails, each one in it does. |
| `IntentPatterns.Leftmost` | src/App.js:22 | The scan from a position returns the first attempt that succeeds; no earlier position succeeds, and `null` means no position does. |
| `IntentPatterns.Exec` | src/App.js:22 | `match` returns a span with the pattern's shape, and it is the attempt made at its own position. |
| `IntentPatterns.ExecLeftmost` | src/App.js:22 | Every attempt before the match fails. `null` means every attempt fails. Every span with the pattern's shape starts at or after the match, so `null` means no span has the shape. |
| `IntentPatterns.StripLead` | src/App.js:29 | The strip removes something exactly when the input starts with `to`, `in` or `at` (any case) and whitespace. What it removes is that word and the whole whitespace run after it, and the rest is a suffix of the input. |
| `IntentPatterns.CutTopic` | src/App.js:30 | The cut keeps a prefix of the string. When it removes anything, the topic pattern matches where the kept prefix ends. |
| `IntentPatterns.CutTopicLeftmost` | src/App.js:30 | The cut is made at the leftmost match: the topic pattern matches at no position inside the kept prefix, and a string left whole has no match at any position. |
| `IntentPatterns.TopicWordFromMeans` | src/App.js:30 | The word part of the topic pattern at a position holds iff one of the six topic words occurs there with no line terminator after it. |
| `IntentPatterns.TopicBacktrackMeans` | src/App.js:30 | Backing off the `\s+` of the topic pattern tries every shorter run: it succeeds iff a topic word follows one of the run's non-empty prefixes. |
| `IntentPatterns.TopicAtMeans` | src/App.js:30 | The topic pattern matches at a position iff some non-empty part of the whitespace run there is followed by a topic word with no line terminator after it. |
| `IntentPatterns.TopicPositions` | src/App.js:30 | One entry per start position of the replacement's scan, the end of the string included. |
| `IntentPatterns.FirstTrue` | src/App.js:30 | The replacement's scan picks the first position that matches: it matches, and no position before it does. |
| `IntentPatterns.TopicAfterSpaceMatches` | src/App.js:30 | In a string without line terminators, any whitespace followed by a topic word is a match of the topic pattern. |
| `IntentPatterns.CutTopicRemovesTopics` | src/App.js:30 | In a string without line terminators, the cut starts at or before the first whitespace that is followed by a topic word. |
| `Intent.CandidateFrom` | src/App.js:14-27 | The candidate from pattern `k` on is the input itself or a trimmed string, and it has no line terminator when the input has none. |
| `Intent.Candidate` | src/App.js:14-27 | The candidate is the input itself or a trimmed match group. |
| `Intent.Clean` | src/App.js:29-30 | The cleaned place is trimmed. |
| `Intent.Analyze` | src/App.js:11-53 | The place is trimmed. At least one flag is set. `needsWeather` holds iff a weather keyword occurs in the lower-cased input or no places keyword does. `needsPlaces` holds iff a places keyword occurs or no weather keyword does. |
| `Intent.WeatherKeywords` | src/App.js:32-36 | The weather flag's chain of `includes` tests is a test for "one of the weather keywords occurs". |
| `Intent.PlaceKeywords` | src/App.js:38-44 | The places flag's chain of `includes` tests is a test for "one of the places keywords occurs". |
| `Intent.TemperatureTestRedundant` | src/App.js:32-36 | The `temperature` test never decides the weather flag: every input that includes `temperature` includes `temp`. |
| `Intent.FirstCandidate` | src/App.js:14-27 | The loop over the patterns, with its `break`, computes the candidate place of the specification. |
| `Intent.AnalyzeIntent` | src/App.js:11-53 | The statements of `analyzeIntent` compute exactly `Analyze`. |
| `Intent.MatchGroupNonEmpty` | src/App.js:23 | When a pattern matches, its first group is non-empty, so the `match[1]` test never rejects a match. |
| `Intent.FirstPatternWins` | src/App.js:21-27 | When patterns before pattern `k` fail and pattern `k` matches, the candidate is pattern `k`'s group, trimmed. |
| `Intent.NoPatternKeepsInput` | src/App.js:14-27 | When no pattern matches, the candidate is the raw input. |
| `Intent.PlaceIsPrefix` | src/App.js:29-30 | The place is a prefix of the candidate after the lead word was stripped and the result trimmed: the topic cut only shortens it. |
| `Intent.CleanHasNoTopic` | src/App.js:29-30 | Cleaning a candidate without line terminators leaves no whitespace followed by a topic word. |
| `Intent.PlaceHasNoTopic` | src/App.js:29-30 | For an input without line terminators, the place contains no whitespace followed by `weather`, `temperature`, `places`, `attractions`, `trip` or `plan` (any case). |
| `Intent.FlagsIgnoreCase` | src/App.js:12-52 | Inputs that differ only in letter case get the same two flags. |
| `Places.KindOf` | src/App.js:104 | The type is the `tourism` tag when it is set and non-empty, else the `historic` tag when it is, else `attraction`. It is never empty. |
| `Places.Describe` | src/App.js:102-105 | A described place carries the element's name, which is non-empty, and a non-empty type. |
| `Places.Named` | src/App.js:101 | The filter keeps only elements with a non-empty name (`HasName`: tags present and a name that is set and not empty) and never lengthens the list. |
| `Places.DescribeAll` | src/App.js:102-105 | The map describes every element, position by position. |
| `Places.TopPlaces` | src/App.js:100-106 | The result has `min(5, number of named elements)` entries. Entry `k` describes the `k`-th named element. |
| `Places.NamedIsSubsequence` | src/App.js:101 | The filter keeps the kept elements in their original order. |
| `Places.NamedMembers` | src/App.js:101 | An element is kept iff it is in the answer and has a name. |
| `Places.NamedAppend` | src/App.js:101 | Filtering a concatenation filters each part. |
| `Places.LaterElementsIgnored` | src/App.js:100-106 | Once five named elements have been seen, later elements do not change the result. |
| `Places.AllNamedKept` | src/App.js:101 | When every element has a name, the filter keeps them all. |
| `Agent.MessagesTellCausesApart` | src/App.js:121-143 | The "I don't know if …" message never equals an `Error: …` message, and each message determines the place or the error text it was made from. |
| `Agent.Settle` | src/App.js:111-146 | Exactly one of error and response is set. The geocode lookup comes first. A missing geocode result gives the "I don't know if …" message and no further lookup. A thrown geocode, a thrown weather lookup the flag asks for, or a thrown places lookup the flag asks for (after a weather lookup that returned) gives `Error: <message>` of that error. A response exists iff the place was found and every lookup the flags ask for returned. A response carries the place, the display name, the weather (`WeatherOf` of the reading) iff the weather flag is set, and the top places of the answer iff the places flag is set. Once the place is found, the lookups are the geocode, then the weather at its coordinates if asked for, then the places near them if asked for and the weather lookup did not throw. |
| `Agent.LookupsFollowIntent` | src/App.js:118-139 | At most three lookups are made. A weather lookup is made iff the place was found and the weather flag is set, and it is always second. A places lookup is made iff the place was found, the places flag is set and no weather lookup threw, and it is always last. Nothing follows a geocode with no result. |
| `Agent.TourismAgent.constructor` | src/App.js:6-9 | The page starts with an empty input, not loading, and no error or response. |
| `Agent.TourismAgent.SetInput` | src/App.js:171 | Typing changes only the input. |
| `Agent.TourismAgent.Start` | src/App.js:111-114 | Starting a request sets loading and clears the error and the response. |
| `Agent.TourismAgent.PressKey` | src/App.js:173-177 | A request is issued iff the key is Enter and `CanSubmit` held (nothing loading, the input not blank after `trim`). Otherwise nothing changes. The input and the recorded lookups never change. |
| `Agent.TourismAgent.Click` | src/App.js:182-184 | A click issues a request iff `CanSubmit` held: nothing loading and the input not blank after `trim` (the button is disabled otherwise). Otherwise nothing changes. The input and the recorded lookups never change. |
| `Agent.TourismAgent.Complete` | src/App.js:111-146 | After a request, loading is false, and the error, the response and the lookups are those `Settle` gives for the intent of the input. |
| `Agent.TourismAgent.Resolve` | src/App.js:116-146 | The `try`/`catch`/`finally` after the intent is known computes `Settle` step by step and clears the loading flag. |
| `PatternExamples.SkipToIntroducer` | src/App.js:22 | The scan for the leftmost match passes over every position whose two characters cannot begin an introducer. |
| `PatternExamples.NoIntroducer` | src/App.js:16-17 | A pattern whose introducers cannot begin anywhere in the input does not match it. |
| `PatternExamples.LazyToEnd` | src/App.js:17 | When every character from the group on is a letter or whitespace and none can begin `?`, `,`, `what` or `let`, the second pattern's lazy group runs to the end of the input. |
| `PatternExamples.PlainWordsKept` | src/App.js:30 | Words separated by single spaces, none of them beginning like a topic word, are left alone by `trim` and by the topic cut. |
| `PatternExamples.VisitSpacesMatch` | src/App.js:16 | On `"visit  "` the first pattern's group is the second space: the greedy `\s+` gives one space back. |
| `PatternExamples.VisitCommaShapes` | src/App.js:16 | On `"visit  ,"` two spans have the first pattern's shape: the group can be the second space or the comma. |
| `PatternExamples.VisitCommaMatch` | src/App.js:16 | On `"visit  ,"` the match is the one whose `\s+` takes both spaces, so its group is the comma. |
| `PatternExamples.WhatToDoMatch` | src/App.js:17 | On `"What to do in Tokyo"` the second pattern matches at the `at` inside `What`, and its group is `to do in Tokyo`. |
| `IntentExamples.BlankGroupGivesEmptyPlace` | src/App.js:14-30 | The non-blank request `"visit  "` gives an empty place. |
| `IntentExamples.PunctuationKept` | src/App.js:14-30 | `"I'm going to Paris!"` gives the place `Paris!`. |
| `IntentExamples.AtInsideWhat` | src/App.js:14-30 | `"What to do in Tokyo"` gives the place `do in Tokyo`. |
| `IntentExamples.NotIdempotent` | src/App.js:14-30 | Analyzing the place `do in Tokyo` again gives `Tokyo`, a different place. |
| `IntentExamples.LondonAsksForPlaces` | src/App.js:32-52 | `"London"` asks for places and not for the weather, because it contains `do`. |

The class keeps the invariant `Valid()` on every method: a request is in flight exactly while `loading` is set, and while it is, there is neither an error nor a response.

## Where the code and its documented examples differ

The model follows the code. The code and the examples in its documentation
disagree in these cases. Each of the first five is the contract of a lemma in `IntentExamples`.

- `"I'm going to Paris!"` gives the place `Paris!`, not `Paris` (`PunctuationKept`). The first pattern's lazy group ends only at `?`, `,` or the end, so the `!` stays.
- `"What to do in Tokyo"` gives the place `do in Tokyo`, not `Tokyo` (`AtInsideWhat`):
  - the second pattern has no word boundary, so it matches the `at` inside `What`;
  - its group is then `to do in Tokyo`;
  - the lead strip removes only `to`.
- The documentation says the place is never empty unless the input is. A blank match group of the first pattern, as in `"visit  "`, gives an empty place (`BlankGroupGivesEmptyPlace`). The greedy `\s+` gives back one space, and the lazy group takes the other.
- The analyzer is not idempotent on its own output (`NotIdempotent`): `do in Tokyo` gives `Tokyo`.
- The keyword tests are substring tests: `London` contains `do`, so it sets `needsPlaces` and not `needsWeather` (`LondonAsksForPlaces`).
- The topic cut `\s+(…).*$` does not match across a line terminator, because `.` refuses line terminators. So `PlaceHasNoTopic` is stated for inputs without line terminators.

## Left out

- Network calls (`fetch`, the URLs, the Overpass query, JSON decoding): each lookup's outcome is a parameter of `Complete` (a value, or a thrown error with its message).
- `parseFloat`, and numbers in general: latitudes, longitudes, temperatures and probabilities are `real`. A NaN probability, which `|| 0` also turns into 0, is not modelled.
- Rendering the response card and the JSX after line 147: not part of the core.
- Asynchrony and React's state batching: `Complete` is one atomic step. Another start cannot interleave with it, which the guard and the disabled button also ensure on the page. Stale closures are not modelled.
- `JsText.ToLower`: lowers only ASCII letters. JavaScript's `toLowerCase` also lowers non-ASCII letters, and a few of them become ASCII letters (the Kelvin sign becomes `k`), which could change a keyword test. The `i` flag of the patterns is exact as modelled, because without the `u` flag JavaScript never lets a non-ASCII character match an ASCII one.
- Strings are sequences of Unicode scalar values, not of UTF-16 code units: a character outside the Basic Multilingual Plane counts as one character here and as two in JavaScript. No pattern or keyword involves such characters.
- A geocode result without `display_name` (JavaScript `undefined`) is not modelled: `displayName` is always a string.
