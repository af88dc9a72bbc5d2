# Dead Internet Theory for Twitch, in Dafny

A model of the two halves of the browser extension that flags bot-like chat
users on Twitch:

- **the nickname classifier** (`detector.js`): `isBotNickname` trims the
  nickname and reports a bot when any of five fixed regular expressions
  (`digitalTail`, `unreadableEntropy`, `technicalId`, `templateAgent`,
  `wordNumber`) or the inline long-alphanumeric rule matches;
- **the content script's core** (`content.js`): the per-nickname activity
  history `userActivity` with its spam verdict (`checkActivitySpam`) and
  periodic cleanup (`cleanupActivity`), the idempotent marking of chat
  messages (`isMarked`/`markSuspicious`), the profile-link path rule of
  `isUserProfileLink`, and what one pass of `run` does for each user link,
  `data-a-user` element and 7TV username it meets.

Files and modules:

- `wrappers.dfy` — `Wrappers`: `Option`.
- `js_string.dfy` — `JsString`: JavaScript's `String.prototype.trim`.
- `detector.dfy` — `Detector`: each expression is written twice, as a ghost
  predicate that says what the expression matches (`*Match`) and as the
  checker the classifier runs (`Has*`), with a lemma proving the two equal;
  `IsBotNickname` runs the checkers in the source's order.
- `activity.dfy` — `Activity`: the filter `Within`, the verdict
  `IsActivitySpam`, the map updates `Record` and `Prune`, their lemmas, and
  the class `ActivityTracker` whose methods are proved to perform those updates.
- `marking.dfy` — `Marking`: the class `Page` (marker attribute and
  highlight class) and the profile path rule.
- `scan.dfy` — `Scan`: one occurrence (`Visit`) and a whole pass (`Fold`) as
  functions, the method `Run` with its loop proved against `Fold`, and lemmas
  about counts and marks.

A nickname is a `string`; one Dafny `char` is one Unicode scalar value. The
rules of the classifier only use ASCII character classes, so their verdicts
do not depend on how non-ASCII text is split into characters. Clock readings are
integers in milliseconds; the time `Date.now()` would return
is passed in as `now` (for the tracker) or carried by each occurrence as `at`
(for a pass).

Only the 7TV loop skips messages that are already marked (content.js:298). The
loops over user links and `data-a-user` elements check, count and record every
occurrence that passes their filters (a profile path for links, a nickname of
at least two characters), on every pass (content.js:244-290). One consequence
is proved as `Scan.RescanMarksAcrossPass`: a link or `data-a-user` element
that passes those filters and is met again less than a second after it was
first met gets its message marked as activity spam, whatever the nickname and
whatever was met in between, as long as the clock does not go back.

## Model

| member | source | states |
|---|---|---|
| JsString.TrimStartFacts | detector.js:36 | the result is a suffix of the input, does not start with white space, and everything dropped is white space |
| JsString.TrimEndFacts | detector.js:36 | the result is a prefix of the input, does not end with white space, and everything dropped is white space |
| JsString.Trim | detector.js:35-36 | `trim` leaves neither end as white space, and gives the empty string exactly when the input is all white space |
| JsString.TrimKeepsTrimmed | detector.js:36 | a string that neither starts nor ends with white space is its own trim |
| JsString.TrimRemovesPadding | detector.js:36 | white space added on both sides of a trimmed string is exactly what `trim` removes |
| JsString.TrimIdempotent | detector.js:36 | trimming twice gives the same string as trimming once |
| Detector.ScanSpan | detector.js:10 | the character-by-character scan holds exactly when every character of the span is in the class |
| Detector.DigitRunBefore | detector.js:10 | the run of digits ending at a position is maximal: all digits, and the character before it is not a digit |
| Detector.DigitalTailExact | detector.js:10 | the checker fires exactly when letters, then an optional `_`, `-` or `.`, then at least four digits reach the end of the nickname |
| Detector.DigitalTailExamples | detector.js:8-10 | "User_99827" and "abc1234" match the digital-tail rule; "Oleg123" and "Bot_99" do not |
| Detector.ConsonantRunExact | detector.js:14 | the checker fires exactly when five consecutive characters from `[bcdfghjklmnpqrstvwxz]` occur anywhere, in either case |
| Detector.VowelSplitsRun | detector.js:14 | a vowel or `y` breaks runs: the rule matches exactly when it matches the part before it or the part after it |
| Detector.ConsonantRunIgnoresCase | detector.js:14 | the `i` flag: lowering the ASCII capitals does not change the verdict of the consonant rule |
| Detector.ConsonantRunExamples | detector.js:12-14 | "przqtx" and "vlkshdf" match the consonant rule; "dfgh_user" does not |
| Detector.TechnicalIdExact | detector.js:18 | the checker fires exactly when three or more consecutive letter-digit pairs occur anywhere |
| Detector.TechnicalIdExamples | detector.js:16-18 | "a1b2c3" and "x9z8w7" match the technical-id rule; "a1b2" does not |
| Detector.IndexOf | detector.js:22 | the result is the first occurrence of the character at or after the start position, or the length when there is none |
| Detector.TemplateAgentExact | detector.js:22 | the checker fires exactly when the whole nickname is a capitalised word, `_`, a capitalised word, `_`, and at least one digit |
| Detector.TemplateAgentExamples | detector.js:20-22 | "John_Doe_12" and "Alex_Black_77" match the template-agent rule |
| Detector.WordNumberExact | detector.js:26 | the checker fires exactly when the whole nickname is letters, `_`, and at least three digits |
| Detector.WordNumberExamples | detector.js:24-26 | "Bot_123" and "User_999" match the word-number rule; "Bot_12" and "User_99" do not |
| Detector.CountDigitsCountsPositions | detector.js:47 | the digit count equals the number of positions holding an ASCII digit |
| Detector.LongAlphanumericExact | detector.js:46-49 | the inline rule fires exactly when the nickname has ten or more characters, all from `[A-Za-z0-9_]`, and at least four of them are digits |
| Detector.ShortNamesEscapeLengthRule | detector.js:46 | the inline rule never fires on a nickname shorter than ten characters |
| Detector.FiresExact | detector.js:38-49 | each rule's checker agrees with what its expression matches |
| Detector.FirstMatch | detector.js:38-51 | the rule found fires and every rule before it in the given order does not, and none is found exactly when no rule in that order fires |
| Detector.BotNicknameExact | detector.js:34-52 | `isBotNickname` is true exactly when the trimmed nickname is non-empty and one of the six rules matches it |
| Detector.RuleOrderIrrelevant | detector.js:38-51 | trying the rules in any order that includes all six gives the same verdict |
| Detector.TrimmedNicknameDecides | detector.js:36 | a nickname and its trimmed form get the same verdict |
| Detector.BlankIsNotBot | detector.js:35 | an empty or all-white-space nickname is never a bot |
| Detector.ShortNickIsNotBot | detector.js:34-51 | a nickname whose trimmed form has fewer than five characters is never a bot, since every rule needs five or more; so neither is one shorter than two |
| Detector.UserDigitsIsBot | detector.js:8-10 | "User_99827" is a bot, through its digital tail |
| Detector.BotNumberIsBot | detector.js:24-26 | "Bot_123" is a bot, through the word+number rule |
| Detector.ConsonantsAreBot | detector.js:12-14 | "przqtx" is a bot, through its consonant run |
| Detector.AlternationIsBot | detector.js:16-18 | "a1b2c3" is a bot, through the technical-id rule |
| Detector.TemplateIsBot | detector.js:20-22 | "John_Doe_12" is a bot, through the template-agent rule |
| Detector.LongNameIsBot | detector.js:44-49 | " user_1_2_3_4 " is a bot through the inline rule, after trimming |
| Detector.ThreeDigitTailIsNotBot | detector.js:9 | "Oleg123" is not a bot under any rule |
| Detector.TwoDigitSuffixIsNotBot | detector.js:9 | "Bot_99" is not a bot under any rule |
| Detector.ShortWordNumberIsNotBot | detector.js:25 | "Bot_12" is not a bot under any rule |
| Activity.Within | content.js:48-49 | the filter keeps every copy of each reading less than the window before `now` and drops all others |
| Activity.Record | content.js:41-45 | recording appends `now` to the nickname's history (creating it if absent), adds no other key and leaves every other history alone |
| Activity.WithinKeepsOrder | content.js:27 | filtering keeps readings in their order |
| Activity.WithinIdempotent | content.js:27 | filtering twice with the same bound is filtering once |
| Activity.NestedWindows | content.js:48-49 | the one-minute window never counts fewer readings than the 30-second window |
| Activity.FirstSightingIsNotSpam | content.js:63-72 | the first sighting of a nickname is never spam |
| Activity.QuickRepeatIsSpam | content.js:63-69 | a sighting less than 1000 ms after the previous one is spam |
| Activity.BurstIsSpam | content.js:48-55 | six sightings less than 30 s old are spam, however they are spaced |
| Activity.MinuteFloodIsSpam | content.js:49-60 | eleven sightings less than a minute old are spam |
| Activity.SteadyCadenceIsNotSpam | content.js:10-13 | a nickname seen at most once every 6 s is never spam: the three thresholds all allow that cadence |
| Activity.SpreadOutIsNotSpam | content.js:48-72 | six sightings 8 s apart, over 40 s, are not spam |
| Activity.PruneKeeps | content.js:26-32 | a nickname survives the cleanup exactly when it has a reading less than 120 s old, and keeps exactly those readings |
| Activity.PruneAddsNoKeys | content.js:26-33 | the cleanup never adds a nickname |
| Activity.PruneIdempotent | content.js:22-33 | running the cleanup twice at the same time is running it once |
| Activity.PruneForgetsQuiet | content.js:27-29 | a nickname whose last reading is 120 s old or more is deleted |
| Activity.RecordKeepsChronological | content.js:41-45 | with a clock that does not go back, every history stays non-empty and in non-decreasing order |
| Activity.PruneKeepsChronological | content.js:27-31 | the cleanup keeps every history non-empty and in non-decreasing order |
| Activity.CleanupKeepsVerdicts | content.js:22-72 | for in-order histories, a cleanup at any earlier time never changes the verdict on a later sighting |
| Activity.ActivityTracker.constructor | content.js:7 | the tracker starts with no history |
| Activity.ActivityTracker.CheckActivitySpam | content.js:37-73 | a nickname shorter than two characters gets false and changes nothing; any other is recorded and gets the verdict on its new history |
| Activity.ActivityTracker.CleanupActivity | content.js:22-34 | the loop over all nicknames leaves exactly the cleaned map |
| Marking.Page.MarkSuspicious | content.js:171-178 | an already marked container is left alone; otherwise the container gets the marker attribute and the highlight class together |
| Marking.Page.MarkSuspiciousTwice | content.js:171-178 | marking the same element twice leaves the page as marking it once does |
| Marking.StripDecorated | content.js:107 | stripping removes exactly one slash on either side of a channel name |
| Marking.ProfilePathExact | content.js:107-113 | a pathname passes exactly when it is a non-empty, slash-free, non-reserved name with or without one slash on either side |
| Marking.NoPathExamples | content.js:103-109 | a link without a usable address, or with the bare root path, is not a profile link |
| Marking.ReservedPathExamples | content.js:111 | "/directory" and "/p/" are not profile links |
| Marking.DeepPathExample | content.js:110 | "/videos/123" is not a profile link |
| Marking.ChannelPathExamples | content.js:107-113 | "/xqc" and "/xqc/" are profile links |
| Scan.VisitBounds | content.js:244-318 | one occurrence adds one to the checked count exactly when it is considered, adds at most two to the marked count, and can only mark its own container, never unmark |
| Scan.MarkedSevenTvSkipped | content.js:297-298 | a 7TV username inside an already marked message changes nothing |
| Scan.BotNicknameMarked | content.js:253-257 | a considered nickname the classifier flags gets its message marked and counted |
| Scan.DetectorMarksBotAttribute | content.js:271-282 | with the detector's classifier, a `data-a-user` element naming "Bot_123" gets its message marked |
| Scan.FirstBenignSightingMarksNothing | content.js:253-264 | a nickname the classifier lets through, seen for the first time, marks nothing |
| Scan.RescanWithinASecondMarks | content.js:259-264 | the same link or `data-a-user` element visited again right after itself, less than a second later, gets its message marked, whatever the nickname |
| Scan.QuickRepeatMarks | content.js:259-264 | an occurrence whose nickname was last recorded less than a second earlier gets its message marked |
| Scan.RescanMarksAcrossPass | content.js:244-290 | a link or `data-a-user` element met again within a second of its first visit is marked, whatever the pass met in between, when the clock does not go back |
| Scan.ShortNickSkipped | content.js:246-302 | a nickname shorter than two characters changes nothing: no count, no recording, no mark |
| Scan.FoldAppend | content.js:238-318 | walking two lists of occurrences one after the other is walking their concatenation |
| Scan.FoldBounds | content.js:238-318 | a pass checks at most one nickname per occurrence and counts at most two marks per check and at least one per newly marked message; marks only grow, and only with containers of the occurrences met |
| Scan.FoldSkipsMarkedSevenTv | content.js:296-303 | of N occurrences, K of them 7TV usernames in messages marked before the pass, at most N - K are checked |
| Scan.FoldKeepsChronological | content.js:260 | when the readings of a pass never go back, the activity map stays in order |
| Scan.VisitOccurrence | content.js:244-318 | the body of the scan loops changes the tracker, the page and the counters exactly as `Visit` says |
| Scan.Run | content.js:224-323 | a pass leaves the tracker, the page and both counters exactly as `Fold` says, and keeps the attribute and the class in step |

## Left out

- Finding the chat root (`getChatRoot`), the DOM walk of `findMessageContainer` and the text and attribute lookups of `extractNickname` are DOM queries; the model takes their results as given: a fixed element-to-container function, and each occurrence's kind and text.
- URL parsing of a link's `href` is a browser library call; the model takes the parsed pathname, or `None` when there is no `href` or parsing fails.
- `observe`, the `MutationObserver`, the readiness retries of `run` and `observe`, and the cleanup timer are event-loop plumbing; `Scan.Run` starts where the classifier and the chat root are available, and the cleanup is a method a caller invokes.
- The background, border and 7TV colour writes of `markSuspicious` are cosmetic; only the marker attribute and the highlight class are modelled.
- `log` and `DEBUG` produce console output only.
- Exporting the classifier as `window.BotDetector` is not modelled; `Scan.Run` receives the classifier as a parameter, as the content script calls it late-bound through that object.
- Scan.Run: the three node lists of `run` are given as one sequence of tagged occurrences, with each element's container and nickname text already resolved; the model cannot describe a DOM that changes during the pass.
- Scan.Run: the non-string and null checks (`typeof nick`, `!nick`) become the empty-string case, since every nickname in the model is a string.
- Activity.ActivityTracker.CheckActivitySpam: `Date.now()` becomes the parameter `now`, and nothing assumes the readings a caller passes are increasing, except in the lemmas that say so in their preconditions.
- Scan.Run and Activity.ActivityTracker.CheckActivitySpam: a nickname's length is counted in Unicode scalar values, whereas JavaScript counts UTF-16 code units; a nickname of one character outside the Basic Multilingual Plane (a single emoji) has length 2 in JavaScript, so the source checks, counts and records it while the model skips it as too short, and strings holding lone surrogates cannot be written at all.
- Timestamps are unbounded integers; JavaScript numbers are doubles, exact for every millisecond count a clock produces.
