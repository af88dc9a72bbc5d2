/**
 * The nickname shape classifier of detector.js: five fixed regular
 * expressions and one inline rule, OR-ed over the trimmed nickname.
 *
 * Each regular expression is written twice. `...Match` is a ghost predicate
 * that reads like the expression itself: an unanchored expression holds when
 * SOME position and SOME repetition count make it match; an anchored one
 * fixes the ends. `Has...` is a deterministic scan that the classifier
 * evaluates. A lemma per rule proves the two agree on every string.
 */
module Detector {
  import opened Wrappers
  import JsString

  /** The bracketed character classes the expressions use; all are ASCII only,
      as `\d` and `[a-zA-Z]` are in JavaScript. */
  datatype CharClass = Letter | Upper | Lower | Digit | Consonant | Word

  /** `c` lowered if it is an ASCII capital; the `i` flag of a non-Unicode
      JavaScript expression never equates a non-ASCII character with an ASCII one. */
  function ToLowerAscii(c: char): char
  {
    if 'A' <= c <= 'Z' then (c as int + 32) as char else c
  }

  predicate InClass(c: char, cls: CharClass)
  {
    match cls
    case Letter => 'a' <= c <= 'z' || 'A' <= c <= 'Z'
    case Upper => 'A' <= c <= 'Z'
    case Lower => 'a' <= c <= 'z'
    case Digit => '0' <= c <= '9'
    case Consonant =>
      ToLowerAscii(c) in {'b', 'c', 'd', 'f', 'g', 'h', 'j', 'k', 'l', 'm',
                          'n', 'p', 'q', 'r', 's', 't', 'v', 'w', 'x', 'z'}
    case Word => ('a' <= c <= 'z' || 'A' <= c <= 'Z') || ('0' <= c <= '9') || c == '_'
  }

  /** `[_\-.]` */
  predicate IsSeparator(c: char)
  {
    c == '_' || c == '-' || c == '.'
  }

  /** Every character of `s[i..j]` is in `cls`: the class repeated `j - i` times. */
  ghost predicate Span(s: string, i: int, j: int, cls: CharClass)
    requires 0 <= i <= j <= |s|
  {
    forall k :: i <= k < j ==> InClass(s[k], cls)
  }

  /** Checks `Span` one character at a time. */
  function ScanSpan(s: string, i: int, j: int, cls: CharClass): (r: bool)
    requires 0 <= i <= j <= |s|
    ensures r <==> Span(s, i, j, cls)
    decreases j - i
  {
    i == j || (InClass(s[i], cls) && ScanSpan(s, i + 1, j, cls))
  }

  // ---------------------------------------------------------------------------
  // digitalTail: /[a-zA-Z]+[_\-.]?\d{4,}$/

  ghost predicate DigitalTailMatch(s: string)
  {
    exists i, j, m ::
      && 0 <= i < j <= m <= |s|
      && Span(s, i, j, Letter)
      && (m == j || (m == j + 1 && IsSeparator(s[j])))
      && |s| - m >= 4
      && Span(s, m, |s|, Digit)
  }

  /** The length of the run of digits that ends just before position `e`. */
  function DigitRunBefore(s: string, e: int): (n: nat)
    requires 0 <= e <= |s|
    ensures n <= e
    ensures Span(s, e - n, e, Digit)
    ensures n < e ==> !InClass(s[e - n - 1], Digit)
  {
    if e == 0 || !InClass(s[e - 1], Digit) then 0 else 1 + DigitRunBefore(s, e - 1)
  }

  /** The digits that end the string must be its whole final run of digits
      (a letter or separator precedes them), so only one place is looked at. */
  function HasDigitalTail(s: string): bool
  {
    var n := DigitRunBefore(s, |s|);
    var m := |s| - n;
    n >= 4 && m >= 1
    && (InClass(s[m - 1], Letter) || (m >= 2 && IsSeparator(s[m - 1]) && InClass(s[m - 2], Letter)))
  }

  /** When the digits from `m` to the end are preceded by a non-digit, they
      are exactly the final run of digits. */
  lemma FinalDigitRun(s: string, m: int)
    requires 1 <= m <= |s|
    requires Span(s, m, |s|, Digit) && !InClass(s[m - 1], Digit)
    ensures DigitRunBefore(s, |s|) == |s| - m
  {
  }

  lemma DigitalTailExact(s: string)
    ensures HasDigitalTail(s) <==> DigitalTailMatch(s)
  {
    var n := DigitRunBefore(s, |s|);
    var m := |s| - n;
    if HasDigitalTail(s) {
      if InClass(s[m - 1], Letter) {
        assert Span(s, m - 1, m, Letter);
      } else {
        assert Span(s, m - 2, m - 1, Letter);
      }
    }
    if DigitalTailMatch(s) {
      var i, j, m' :| && 0 <= i < j <= m' <= |s|
                     && Span(s, i, j, Letter)
                     && (m' == j || (m' == j + 1 && IsSeparator(s[j])))
                     && |s| - m' >= 4
                     && Span(s, m', |s|, Digit);
      assert InClass(s[j - 1], Letter);
      FinalDigitRun(s, m');
    }
  }

  // ---------------------------------------------------------------------------
  // unreadableEntropy: /[bcdfghjklmnpqrstvwxz]{5,}/i

  ghost predicate ConsonantRunMatch(s: string)
  {
    exists i, j :: 0 <= i && i + 5 <= j <= |s| && Span(s, i, j, Consonant)
  }

  /** Some window of five consonants starts at or after `i`. */
  function ConsonantWindowFrom(s: string, i: nat): bool
    decreases |s| - i
  {
    i + 5 <= |s|
    && (ScanSpan(s, i, i + 5, Consonant) || ConsonantWindowFrom(s, i + 1))
  }

  function HasConsonantRun(s: string): bool
  {
    ConsonantWindowFrom(s, 0)
  }

  lemma {:induction false} ConsonantWindowFromExact(s: string, i: nat)
    ensures ConsonantWindowFrom(s, i)
            <==> exists a, b :: i <= a && a + 5 <= b <= |s| && Span(s, a, b, Consonant)
    decreases |s| - i
  {
    if i + 5 <= |s| {
      ConsonantWindowFromExact(s, i + 1);
      if exists a, b :: i <= a && a + 5 <= b <= |s| && Span(s, a, b, Consonant) {
        var a, b :| i <= a && a + 5 <= b <= |s| && Span(s, a, b, Consonant);
        if a == i {
          assert Span(s, i, i + 5, Consonant);
        } else {
          assert i + 1 <= a;
        }
      }
      if ScanSpan(s, i, i + 5, Consonant) {
        assert Span(s, i, i + 5, Consonant);
      }
    }
  }

  lemma ConsonantRunExact(s: string)
    ensures HasConsonantRun(s) <==> ConsonantRunMatch(s)
  {
    ConsonantWindowFromExact(s, 0);
  }

  /** A vowel or `y` breaks every run: a run of `s` lies wholly before or
      wholly after it. */
  lemma VowelSplitsRun(s: string, k: nat)
    requires k < |s| && ToLowerAscii(s[k]) in {'a', 'e', 'i', 'o', 'u', 'y'}
    ensures ConsonantRunMatch(s) <==> ConsonantRunMatch(s[..k]) || ConsonantRunMatch(s[k + 1..])
  {
    if ConsonantRunMatch(s) {
      var i, j :| 0 <= i && i + 5 <= j <= |s| && Span(s, i, j, Consonant);
      if j <= k {
        assert Span(s[..k], i, j, Consonant);
      } else if k < i {
        assert Span(s[k + 1..], i - (k + 1), j - (k + 1), Consonant);
      } else {
        assert false;
      }
    }
    if ConsonantRunMatch(s[..k]) {
      var i, j :| 0 <= i && i + 5 <= j <= k && Span(s[..k], i, j, Consonant);
      assert Span(s, i, j, Consonant);
    }
    if ConsonantRunMatch(s[k + 1..]) {
      var i, j :| 0 <= i && i + 5 <= j <= |s| - (k + 1) && Span(s[k + 1..], i, j, Consonant);
      assert Span(s, i + k + 1, j + k + 1, Consonant);
    }
  }

  /** `s` with its ASCII capitals lowered. */
  function LowerAsciiString(s: string): (r: string)
    ensures |r| == |s| && forall k :: 0 <= k < |s| ==> r[k] == ToLowerAscii(s[k])
  {
    seq(|s|, k requires 0 <= k < |s| => ToLowerAscii(s[k]))
  }

  /** The `i` flag: the consonant rule does not depend on the case of the letters. */
  lemma ConsonantRunIgnoresCase(s: string)
    ensures ConsonantRunMatch(LowerAsciiString(s)) <==> ConsonantRunMatch(s)
  {
    var t := LowerAsciiString(s);
    forall i, j | 0 <= i <= j <= |s|
      ensures Span(t, i, j, Consonant) <==> Span(s, i, j, Consonant)
    {
      forall k | i <= k < j
        ensures InClass(t[k], Consonant) <==> InClass(s[k], Consonant)
      {
        assert ToLowerAscii(t[k]) == ToLowerAscii(s[k]);
      }
    }
  }

  // ---------------------------------------------------------------------------
  // technicalId: /([a-zA-Z]\d){3,}/

  /** `([a-zA-Z]\d){k}` matches `s[i..i + 2k]`. */
  predicate Pairs(s: string, i: nat, k: nat)
    requires i + 2 * k <= |s|
    decreases k
  {
    k == 0 || (InClass(s[i], Letter) && InClass(s[i + 1], Digit) && Pairs(s, i + 2, k - 1))
  }

  ghost predicate TechnicalIdMatch(s: string)
  {
    exists i: nat, k: nat :: k >= 3 && i + 2 * k <= |s| && Pairs(s, i, k)
  }

  /** Three pairs start at or after `i`. */
  function TechnicalFrom(s: string, i: nat): bool
    decreases |s| - i
  {
    i + 6 <= |s| && (Pairs(s, i, 3) || TechnicalFrom(s, i + 1))
  }

  function HasTechnicalId(s: string): bool
  {
    TechnicalFrom(s, 0)
  }

  /** More repetitions contain fewer: the first `k'` of `k` pairs are pairs. */
  lemma {:induction false} PairsPrefix(s: string, i: nat, k: nat, k': nat)
    requires k' <= k && i + 2 * k <= |s|
    requires Pairs(s, i, k)
    ensures Pairs(s, i, k')
    decreases k'
  {
    if k' > 0 {
      PairsPrefix(s, i + 2, k - 1, k' - 1);
    }
  }

  lemma {:induction false} TechnicalFromExact(s: string, i: nat)
    ensures TechnicalFrom(s, i)
            <==> exists a: nat, k: nat :: i <= a && k >= 3 && a + 2 * k <= |s| && Pairs(s, a, k)
    decreases |s| - i
  {
    if TechnicalFrom(s, i) {
      if Pairs(s, i, 3) {
        assert exists a: nat, k: nat :: i <= a && k >= 3 && a + 2 * k <= |s| && Pairs(s, a, k);
      } else {
        TechnicalFromExact(s, i + 1);
        var a: nat, k: nat :| i + 1 <= a && k >= 3 && a + 2 * k <= |s| && Pairs(s, a, k);
        assert exists a: nat, k: nat :: i <= a && k >= 3 && a + 2 * k <= |s| && Pairs(s, a, k);
      }
    }
    if exists a: nat, k: nat :: i <= a && k >= 3 && a + 2 * k <= |s| && Pairs(s, a, k) {
      var a: nat, k: nat :| i <= a && k >= 3 && a + 2 * k <= |s| && Pairs(s, a, k);
      if a == i {
        PairsPrefix(s, i, k, 3);
        assert Pairs(s, i, 3);
      } else {
        TechnicalFromExact(s, i + 1);
        assert exists a: nat, k: nat :: i + 1 <= a && k >= 3 && a + 2 * k <= |s| && Pairs(s, a, k);
      }
    }
  }

  lemma TechnicalIdExact(s: string)
    ensures HasTechnicalId(s) <==> TechnicalIdMatch(s)
  {
    TechnicalFromExact(s, 0);
    if TechnicalIdMatch(s) {
      var i: nat, k: nat :| k >= 3 && i + 2 * k <= |s| && Pairs(s, i, k);
      assert exists a: nat, k: nat :: 0 <= a && k >= 3 && a + 2 * k <= |s| && Pairs(s, a, k);
    }
    if HasTechnicalId(s) {
      var i: nat, k: nat :| 0 <= i && k >= 3 && i + 2 * k <= |s| && Pairs(s, i, k);
      assert exists a: nat, k: nat :: k >= 3 && a + 2 * k <= |s| && Pairs(s, a, k);
    }
  }

  // ---------------------------------------------------------------------------
  // templateAgent: /^[A-Z][a-z]+_[A-Z][a-z]+_\d+$/

  /** `s[0..i]` is `[A-Z][a-z]+`, `s[i + 1..j]` is `[A-Z][a-z]+`, `s[j + 1..]` is `\d+`. */
  ghost predicate TemplateAgentAt(s: string, i: int, j: int)
  {
    && 2 <= i && i + 3 <= j && j + 2 <= |s|
    && InClass(s[0], Upper) && Span(s, 1, i, Lower) && s[i] == '_'
    && InClass(s[i + 1], Upper) && Span(s, i + 2, j, Lower) && s[j] == '_'
    && Span(s, j + 1, |s|, Digit)
  }

  ghost predicate TemplateAgentMatch(s: string)
  {
    exists i, j :: TemplateAgentAt(s, i, j)
  }

  /** The first `c` at or after `from`, or `|s|` when there is none. */
  function IndexOf(s: string, c: char, from: nat): (k: nat)
    requires from <= |s|
    ensures from <= k <= |s|
    ensures k < |s| ==> s[k] == c
    ensures forall t :: from <= t < k ==> s[t] != c
    decreases |s| - from
  {
    if from == |s| || s[from] == c then from else IndexOf(s, c, from + 1)
  }

  /** Neither word may hold an underscore, so the two underscores of a match
      are the first two of the string. */
  function HasTemplateAgent(s: string): bool
  {
    var i := IndexOf(s, '_', 0);
    i < |s| &&
    var j := IndexOf(s, '_', i + 1);
    && 2 <= i && i + 3 <= j && j + 2 <= |s|
    && InClass(s[0], Upper) && ScanSpan(s, 1, i, Lower)
    && InClass(s[i + 1], Upper) && ScanSpan(s, i + 2, j, Lower)
    && ScanSpan(s, j + 1, |s|, Digit)
  }

  /** An underscore that follows a run of non-underscores is the first one
      after the run starts. */
  lemma IndexOfAfterSpan(s: string, from: nat, i: nat, cls: CharClass)
    requires from <= i < |s| && s[i] == '_'
    requires cls != Word && Span(s, from, i, cls)
    ensures IndexOf(s, '_', from) == i
  {
  }

  lemma TemplateAgentExact(s: string)
    ensures HasTemplateAgent(s) <==> TemplateAgentMatch(s)
  {
    if HasTemplateAgent(s) {
      var i := IndexOf(s, '_', 0);
      var j := IndexOf(s, '_', i + 1);
      assert TemplateAgentAt(s, i, j);
    }
    if TemplateAgentMatch(s) {
      var i, j :| TemplateAgentAt(s, i, j);
      IndexOfAfterSpan(s, 1, i, Lower);
      assert IndexOf(s, '_', 0) == IndexOf(s, '_', 1);
      IndexOfAfterSpan(s, i + 2, j, Lower);
      assert IndexOf(s, '_', i + 1) == IndexOf(s, '_', i + 2);
    }
  }

  // ---------------------------------------------------------------------------
  // wordNumber: /^[a-zA-Z]+_\d{3,}$/

  ghost predicate WordNumberMatch(s: string)
  {
    exists i :: 1 <= i && i + 4 <= |s| && Span(s, 0, i, Letter) && s[i] == '_' && Span(s, i + 1, |s|, Digit)
  }

  function HasWordNumber(s: string): bool
  {
    var i := IndexOf(s, '_', 0);
    1 <= i && i + 4 <= |s| && ScanSpan(s, 0, i, Letter) && ScanSpan(s, i + 1, |s|, Digit)
  }

  lemma WordNumberExact(s: string)
    ensures HasWordNumber(s) <==> WordNumberMatch(s)
  {
    if WordNumberMatch(s) {
      var i :| 1 <= i && i + 4 <= |s| && Span(s, 0, i, Letter) && s[i] == '_' && Span(s, i + 1, |s|, Digit);
      IndexOfAfterSpan(s, 0, i, Letter);
    }
  }

  // ---------------------------------------------------------------------------
  // The inline rule: /^[a-zA-Z0-9_]{10,}$/ and at least four matches of /\d/g

  /** The positions `/\d/g` matches. */
  ghost function DigitPositions(s: string): set<nat>
  {
    set k: nat | k < |s| && InClass(s[k], Digit)
  }

  ghost predicate LongAlphanumericMatch(s: string)
  {
    |s| >= 10 && Span(s, 0, |s|, Word) && |DigitPositions(s)| >= 4
  }

  /** The number of digits in `s[..e]`. */
  function CountDigits(s: string, e: int): nat
    requires 0 <= e <= |s|
  {
    if e == 0 then 0
    else CountDigits(s, e - 1) + (if InClass(s[e - 1], Digit) then 1 else 0)
  }

  /** `CountDigits` counts the positions `/\d/g` matches. */
  lemma {:induction false} CountDigitsCountsPositions(s: string, e: int)
    requires 0 <= e <= |s|
    ensures CountDigits(s, e) == |set k: nat | k < e && InClass(s[k], Digit)|
  {
    var upTo := set k: nat | k < e && InClass(s[k], Digit);
    if e == 0 {
      assert upTo == {};
    } else {
      CountDigitsCountsPositions(s, e - 1);
      var before := set k: nat | k < e - 1 && InClass(s[k], Digit);
      if InClass(s[e - 1], Digit) {
        assert upTo == before + {e - 1};
      } else {
        assert upTo == before;
      }
    }
  }

  function HasLongAlphanumeric(s: string): bool
  {
    |s| >= 10 && ScanSpan(s, 0, |s|, Word) && CountDigits(s, |s|) >= 4
  }

  lemma LongAlphanumericExact(s: string)
    ensures HasLongAlphanumeric(s) <==> LongAlphanumericMatch(s)
  {
    CountDigitsCountsPositions(s, |s|);
    assert DigitPositions(s) == set k: nat | k < |s| && InClass(s[k], Digit);
  }

  // ---------------------------------------------------------------------------
  // isBotNickname

  /** The rules, named after the keys of PATTERNS, plus the inline rule. */
  datatype Rule = DigitalTail | UnreadableEntropy | TechnicalId | TemplateAgent | WordNumber | LongAlphanumeric

  /** The order in which isBotNickname tries the rules. */
  const SourceOrder: seq<Rule> :=
    [DigitalTail, UnreadableEntropy, TechnicalId, TemplateAgent, WordNumber, LongAlphanumeric]

  /** What the classifier evaluates for one rule. */
  function Fires(rule: Rule, s: string): bool
  {
    match rule
    case DigitalTail => HasDigitalTail(s)
    case UnreadableEntropy => HasConsonantRun(s)
    case TechnicalId => HasTechnicalId(s)
    case TemplateAgent => HasTemplateAgent(s)
    case WordNumber => HasWordNumber(s)
    case LongAlphanumeric => HasLongAlphanumeric(s)
  }

  /** What the rule's expression means. */
  ghost predicate Matches(rule: Rule, s: string)
  {
    match rule
    case DigitalTail => DigitalTailMatch(s)
    case UnreadableEntropy => ConsonantRunMatch(s)
    case TechnicalId => TechnicalIdMatch(s)
    case TemplateAgent => TemplateAgentMatch(s)
    case WordNumber => WordNumberMatch(s)
    case LongAlphanumeric => LongAlphanumericMatch(s)
  }

  lemma FiresExact(rule: Rule, s: string)
    ensures Fires(rule, s) <==> Matches(rule, s)
  {
    match rule
    case DigitalTail => DigitalTailExact(s);
    case UnreadableEntropy => ConsonantRunExact(s);
    case TechnicalId => TechnicalIdExact(s);
    case TemplateAgent => TemplateAgentExact(s);
    case WordNumber => WordNumberExact(s);
    case LongAlphanumeric => LongAlphanumericExact(s);
  }

  /** The rules of isBotNickname in its order, on the trimmed nickname `s`. */
  function FiresInSourceOrder(s: string): bool
  {
    if HasDigitalTail(s) then true
    else if HasConsonantRun(s) then true
    else if HasTechnicalId(s) then true
    else if HasTemplateAgent(s) then true
    else if HasWordNumber(s) then true
    else if |s| >= 10 && ScanSpan(s, 0, |s|, Word) then CountDigits(s, |s|) >= 4
    else false
  }

  /** isBotNickname: false for a blank nickname, otherwise the first rule
      that fires on the trimmed nickname decides. */
  function IsBotNickname(nick: string): bool
  {
    var s := JsString.Trim(nick);
    if s == [] then false else FiresInSourceOrder(s)
  }

  /** The rule that fires first when the rules are tried in `order`. */
  function FirstMatch(order: seq<Rule>, s: string): (r: Option<Rule>)
    ensures r.Some? ==> r.value in order && Fires(r.value, s)
    ensures r.None? <==> forall rule :: rule in order ==> !Fires(rule, s)
    ensures r.Some? ==>
      exists i :: 0 <= i < |order| && order[i] == r.value && forall j :: 0 <= j < i ==> !Fires(order[j], s)
  {
    if order == [] then None
    else if Fires(order[0], s) then Some(order[0])
    else
      var r := FirstMatch(order[1..], s);
      assert forall rule :: rule in order ==> rule == order[0] || rule in order[1..];
      if r.Some? then
        var i :| 0 <= i < |order[1..]| && order[1..][i] == r.value && forall j :: 0 <= j < i ==> !Fires(order[1..][j], s);
        assert order[i + 1] == r.value && forall j :: 0 <= j < i + 1 ==> !Fires(order[j], s);
        r
      else r
  }

  /** The classifier is the disjunction of the six rules, as the expressions
      mean them, over the trimmed nickname; an empty trimmed nickname is never a bot. */
  lemma BotNicknameExact(nick: string)
    ensures IsBotNickname(nick) <==>
      var s := JsString.Trim(nick);
      && s != []
      && (|| DigitalTailMatch(s) || ConsonantRunMatch(s) || TechnicalIdMatch(s)
          || TemplateAgentMatch(s) || WordNumberMatch(s) || LongAlphanumericMatch(s))
  {
    var s := JsString.Trim(nick);
    DigitalTailExact(s);
    ConsonantRunExact(s);
    TechnicalIdExact(s);
    TemplateAgentExact(s);
    WordNumberExact(s);
    LongAlphanumericExact(s);
  }

  /** Trying the rules in any order that includes them all gives the same
      verdict as the source's order. */
  lemma RuleOrderIrrelevant(order: seq<Rule>, nick: string)
    requires forall rule: Rule :: rule in order
    ensures IsBotNickname(nick) <==> (JsString.Trim(nick) != [] && FirstMatch(order, JsString.Trim(nick)).Some?)
  {
    var s := JsString.Trim(nick);
    var r := FirstMatch(order, s);
    if r.None? {
      assert !Fires(DigitalTail, s) && !Fires(UnreadableEntropy, s) && !Fires(TechnicalId, s);
      assert !Fires(TemplateAgent, s) && !Fires(WordNumber, s) && !Fires(LongAlphanumeric, s);
    }
  }

  /** All rules look at the trimmed nickname only. */
  lemma TrimmedNicknameDecides(nick: string)
    ensures IsBotNickname(JsString.Trim(nick)) == IsBotNickname(nick)
  {
    JsString.TrimIdempotent(nick);
  }

  /** A trimmed nickname shorter than five characters is never a bot: every
      rule needs at least five characters. In particular the nicknames shorter
      than two characters, which the content script does not even look at,
      are not bots. */
  lemma ShortNickIsNotBot(nick: string)
    requires |JsString.Trim(nick)| < 5
    ensures !IsBotNickname(nick)
  {
    var s := JsString.Trim(nick);
    BotNicknameExact(nick);
    assert !DigitalTailMatch(s) && !ConsonantRunMatch(s) && !TechnicalIdMatch(s);
    assert !TemplateAgentMatch(s) && !WordNumberMatch(s) && !LongAlphanumericMatch(s);
  }

  /** An empty or all-white-space nickname is never a bot. */
  lemma BlankIsNotBot(nick: string)
    requires JsString.AllWhiteSpace(nick)
    ensures !IsBotNickname(nick)
  {
  }

  // ---------------------------------------------------------------------------
  // The examples that the comments of PATTERNS give.

  lemma DigitalTailExamples()
    ensures DigitalTailMatch("User_99827") && DigitalTailMatch("abc1234")
    ensures !DigitalTailMatch("Oleg123") && !DigitalTailMatch("Bot_99")
  {
    assert DigitRunBefore("User_99827", 10) == 5;
    assert DigitRunBefore("abc1234", 7) == 4;
    assert DigitRunBefore("Oleg123", 7) == 3;
    assert DigitRunBefore("Bot_99", 6) == 2;
    DigitalTailExact("User_99827");
    DigitalTailExact("abc1234");
    DigitalTailExact("Oleg123");
    DigitalTailExact("Bot_99");
  }

  lemma ConsonantRunExamples()
    ensures ConsonantRunMatch("przqtx") && ConsonantRunMatch("vlkshdf")
    ensures !ConsonantRunMatch("dfgh_user")
  {
    ConsonantRunAccepts();
    ConsonantRunRejects();
    ConsonantRunExact("przqtx");
    ConsonantRunExact("vlkshdf");
    ConsonantRunExact("dfgh_user");
  }

  lemma ConsonantRunAccepts()
    ensures HasConsonantRun("przqtx") && HasConsonantRun("vlkshdf")
  {
  }

  lemma ConsonantRunRejects()
    ensures !HasConsonantRun("dfgh_user")
  {
  }

  lemma TechnicalIdExamples()
    ensures TechnicalIdMatch("a1b2c3") && TechnicalIdMatch("x9z8w7")
    ensures !TechnicalIdMatch("a1b2")
  {
    assert HasTechnicalId("a1b2c3") && HasTechnicalId("x9z8w7") && !HasTechnicalId("a1b2");
    TechnicalIdExact("a1b2c3");
    TechnicalIdExact("x9z8w7");
    TechnicalIdExact("a1b2");
  }

  lemma TemplateAgentExamples()
    ensures TemplateAgentMatch("John_Doe_12") && TemplateAgentMatch("Alex_Black_77")
  {
    TemplateAgentChecks();
    TemplateAgentExact("John_Doe_12");
    TemplateAgentExact("Alex_Black_77");
  }

  lemma TemplateAgentChecks()
    ensures HasTemplateAgent("John_Doe_12") && HasTemplateAgent("Alex_Black_77")
  {
    JohnDoeChecks();
    AlexBlackChecks();
  }

  lemma JohnDoeChecks()
    ensures HasTemplateAgent("John_Doe_12")
  {
    assert IndexOf("John_Doe_12", '_', 0) == 4 && IndexOf("John_Doe_12", '_', 5) == 8;
    assert ScanSpan("John_Doe_12", 1, 4, Lower) && ScanSpan("John_Doe_12", 6, 8, Lower);
    assert ScanSpan("John_Doe_12", 9, 11, Digit);
  }

  lemma AlexBlackChecks()
    ensures HasTemplateAgent("Alex_Black_77")
  {
    assert IndexOf("Alex_Black_77", '_', 0) == 4 && IndexOf("Alex_Black_77", '_', 5) == 10;
    assert ScanSpan("Alex_Black_77", 1, 4, Lower) && ScanSpan("Alex_Black_77", 6, 10, Lower);
    assert ScanSpan("Alex_Black_77", 11, 13, Digit);
  }

  lemma WordNumberExamples()
    ensures WordNumberMatch("Bot_123") && WordNumberMatch("User_999")
    ensures !WordNumberMatch("Bot_12") && !WordNumberMatch("User_99")
  {
    WordNumberAccepts();
    WordNumberRejects();
    WordNumberExact("Bot_123");
    WordNumberExact("User_999");
    WordNumberExact("Bot_12");
    WordNumberExact("User_99");
  }

  lemma WordNumberAccepts()
    ensures HasWordNumber("Bot_123") && HasWordNumber("User_999")
  {
    assert IndexOf("Bot_123", '_', 0) == 3 && IndexOf("User_999", '_', 0) == 4;
  }

  lemma WordNumberRejects()
    ensures !HasWordNumber("Bot_12") && !HasWordNumber("User_99")
  {
    assert IndexOf("Bot_12", '_', 0) == 3 && IndexOf("User_99", '_', 0) == 4;
  }

  /** A nickname whose trimmed form is non-empty and fires a rule is a bot. */
  lemma FiredIsBot(nick: string, s: string)
    requires JsString.Trim(nick) == s && s != [] && FiresInSourceOrder(s)
    ensures IsBotNickname(nick)
  {
  }

  /** A nickname that is its own trim and on which no rule fires is not a bot. */
  lemma RejectedIsNotBot(nick: string)
    requires JsString.Trim(nick) == nick && !FiresInSourceOrder(nick)
    ensures !IsBotNickname(nick)
  {
  }

  // Each verdict below is computed from the literal, one name per lemma.

  lemma UserDigitsFires()
    ensures FiresInSourceOrder("User_99827")
  {
    assert DigitRunBefore("User_99827", 10) == 5;
    assert HasDigitalTail("User_99827");
  }

  lemma BotNumberFires()
    ensures FiresInSourceOrder("Bot_123")
  {
    assert HasWordNumber("Bot_123");
  }

  lemma ConsonantsFire()
    ensures FiresInSourceOrder("przqtx")
  {
    assert HasConsonantRun("przqtx");
  }

  lemma AlternationFires()
    ensures FiresInSourceOrder("a1b2c3")
  {
    assert HasTechnicalId("a1b2c3");
  }

  lemma TemplateFires()
    ensures FiresInSourceOrder("John_Doe_12")
  {
    TemplateAgentChecks();
  }

  lemma LongNameFires()
    ensures FiresInSourceOrder("user_1_2_3_4")
  {
    assert CountDigits("user_1_2_3_4", 6) == 1 && CountDigits("user_1_2_3_4", 10) == 3;
    assert ScanSpan("user_1_2_3_4", 0, 12, Word) && CountDigits("user_1_2_3_4", 12) == 4;
  }

  lemma ThreeDigitTailRejected()
    ensures !FiresInSourceOrder("Oleg123")
  {
    assert DigitRunBefore("Oleg123", 7) == 3 && IndexOf("Oleg123", '_', 0) == 7;
    assert !HasConsonantRun("Oleg123") && !HasTechnicalId("Oleg123");
  }

  lemma TwoDigitSuffixRejected()
    ensures !FiresInSourceOrder("Bot_99")
  {
    assert DigitRunBefore("Bot_99", 6) == 2 && IndexOf("Bot_99", '_', 0) == 3 && IndexOf("Bot_99", '_', 4) == 6;
    assert !HasConsonantRun("Bot_99") && !HasTechnicalId("Bot_99");
  }

  lemma ShortWordNumberRejected()
    ensures !FiresInSourceOrder("Bot_12")
  {
    assert DigitRunBefore("Bot_12", 6) == 2 && IndexOf("Bot_12", '_', 0) == 3 && IndexOf("Bot_12", '_', 4) == 6;
    assert !HasConsonantRun("Bot_12") && !HasTechnicalId("Bot_12");
  }

  /** "User_99827" is a bot, through its digital tail. */
  lemma UserDigitsIsBot()
    ensures IsBotNickname("User_99827")
  {
    UserDigitsFires();
    JsString.TrimKeepsTrimmed("User_99827");
    FiredIsBot("User_99827", "User_99827");
  }

  /** "Bot_123" is a bot, through the word+number rule. */
  lemma BotNumberIsBot()
    ensures IsBotNickname("Bot_123")
  {
    BotNumberFires();
    JsString.TrimKeepsTrimmed("Bot_123");
    FiredIsBot("Bot_123", "Bot_123");
  }

  /** "przqtx" is a bot, through its consonant run. */
  lemma ConsonantsAreBot()
    ensures IsBotNickname("przqtx")
  {
    ConsonantsFire();
    JsString.TrimKeepsTrimmed("przqtx");
    FiredIsBot("przqtx", "przqtx");
  }

  /** "a1b2c3" is a bot, through the technical-id rule. */
  lemma AlternationIsBot()
    ensures IsBotNickname("a1b2c3")
  {
    AlternationFires();
    JsString.TrimKeepsTrimmed("a1b2c3");
    FiredIsBot("a1b2c3", "a1b2c3");
  }

  /** "John_Doe_12" is a bot, through the template-agent rule. */
  lemma TemplateIsBot()
    ensures IsBotNickname("John_Doe_12")
  {
    TemplateFires();
    JsString.TrimKeepsTrimmed("John_Doe_12");
    FiredIsBot("John_Doe_12", "John_Doe_12");
  }

  /** A long generator-style name, padded with spaces, is caught by the inline rule. */
  lemma LongNameIsBot()
    ensures IsBotNickname(" user_1_2_3_4 ")
  {
    LongNameFires();
    PaddedLongNameTrims();
    FiredIsBot(" user_1_2_3_4 ", "user_1_2_3_4");
  }

  lemma PaddedLongNameTrims()
    ensures JsString.Trim(" user_1_2_3_4 ") == "user_1_2_3_4"
  {
    assert " user_1_2_3_4 " == " " + "user_1_2_3_4" + " ";
    JsString.TrimRemovesPadding(" ", "user_1_2_3_4", " ");
  }

  /** "Oleg123" passes: three trailing digits are not enough. */
  lemma ThreeDigitTailIsNotBot()
    ensures !IsBotNickname("Oleg123")
  {
    ThreeDigitTailRejected();
    JsString.TrimKeepsTrimmed("Oleg123");
    RejectedIsNotBot("Oleg123");
  }

  /** "Bot_99" passes. */
  lemma TwoDigitSuffixIsNotBot()
    ensures !IsBotNickname("Bot_99")
  {
    TwoDigitSuffixRejected();
    JsString.TrimKeepsTrimmed("Bot_99");
    RejectedIsNotBot("Bot_99");
  }

  /** "Bot_12" passes: the word+number rule needs three digits. */
  lemma ShortWordNumberIsNotBot()
    ensures !IsBotNickname("Bot_12")
  {
    ShortWordNumberRejected();
    JsString.TrimKeepsTrimmed("Bot_12");
    RejectedIsNotBot("Bot_12");
  }

  /** The inline rule never fires on a name shorter than ten characters,
      however many digits it has. */
  lemma ShortNamesEscapeLengthRule(s: string)
    requires |s| < 10
    ensures !LongAlphanumericMatch(s)
  {
  }
}
