/**
 * One pass of `run` over the chat: every user link, every element with a
 * `data-a-user` attribute and every 7TV username span is looked at in turn;
 * each nickname that passes the filters is counted, tested by the nickname
 * classifier and by the activity tracker, and its message is marked once for
 * each of the two that answers yes.
 *
 * The three node lists `run` walks one after the other are given here as one
 * sequence of occurrences, each tagged with its kind; what the DOM lookups
 * return for an element is carried in the occurrence itself.
 */
module Scan {
  import opened Wrappers
  import JsString
  import Detector
  import Activity
  import Marking

  type ElementId = Marking.ElementId

  /** `window.BotDetector.isBotNickname`, which the detector script publishes
      and the content script calls late-bound; `Detector.IsBotNickname` is the
      one it publishes. */
  type Classifier = string -> bool

  datatype Kind =
      /** An `a[href]` of the chat; `pathname` is what URL parsing gives for its
          `href` (`None` for a missing `href` or one that does not parse). */
    | ProfileLink(pathname: Option<string>)
      /** An element carrying `data-a-user`. */
    | UserAttribute
      /** A `.seventv-chat-user-username span`; `scope` is its closest
          `.seventv-user-message, .seventv-message` ancestor, if any. */
    | SevenTvUsername(scope: Option<ElementId>)

  /** One element met by the pass. `text` is what the pass reads as the nickname
      before its own checks: `extractNickname` for a link, the attribute value,
      or the span's text content for 7TV. `at` is the clock reading taken when
      the element's nickname goes to the activity tracker. */
  datatype Occurrence = Occurrence(el: ElementId, text: string, kind: Kind, at: int)

  /** What a pass changes: the activity map, the marked elements and the two counters. */
  datatype Pass = Pass(activity: Activity.ActivityMap, marked: set<ElementId>, checked: nat, markedCount: nat)

  /** The nickname the pass tests: the 7TV loop trims the span's text itself. */
  function NickOf(o: Occurrence): string
  {
    if o.kind.SevenTvUsername? then JsString.Trim(o.text) else o.text
  }

  /** Whether the pass counts and tests the occurrence, given what is marked so
      far: only the 7TV loop skips messages that are marked already. */
  predicate Considered(o: Occurrence, marked: set<ElementId>)
  {
    match o.kind
    case ProfileLink(pathname) => Marking.IsUserProfileLink(pathname) && |NickOf(o)| >= 2
    case UserAttribute => |NickOf(o)| >= 2
    case SevenTvUsername(scope) => scope.Some? && scope.value !in marked && |NickOf(o)| >= 2
  }

  /** The effect of one occurrence on the pass. */
  function Visit(containerOf: ElementId -> ElementId, isBot: Classifier, s: Pass, o: Occurrence): Pass
  {
    if !Considered(o, s.marked) then s
    else
      var nick := NickOf(o);
      var bot := isBot(nick);
      var afterName := if bot then s.marked + {containerOf(o.el)} else s.marked;
      var activity := Activity.Record(s.activity, nick, o.at);
      var spam := Activity.IsActivitySpam(activity[nick], o.at);
      var afterSpam := if spam then afterName + {containerOf(o.el)} else afterName;
      Pass(activity, afterSpam, s.checked + 1,
           s.markedCount + (if bot then 1 else 0) + (if spam then 1 else 0))
  }

  /** The effect of the occurrences, visited in order. */
  function Fold(containerOf: ElementId -> ElementId, isBot: Classifier, s: Pass, occs: seq<Occurrence>): Pass
    decreases |occs|
  {
    if occs == [] then s
    else Visit(containerOf, isBot, Fold(containerOf, isBot, s, occs[..|occs| - 1]), occs[|occs| - 1])
  }

  // ---------------------------------------------------------------------
  // One occurrence

  /** An occurrence is counted at most once and adds at most two to the
      marked count; marks are only ever added, and only its own container. */
  lemma VisitBounds(containerOf: ElementId -> ElementId, isBot: Classifier, s: Pass, o: Occurrence)
    ensures var p := Visit(containerOf, isBot, s, o);
      && p.checked == s.checked + (if Considered(o, s.marked) then 1 else 0)
      && p.markedCount - s.markedCount <= 2 * (p.checked - s.checked)
      && s.marked <= p.marked <= s.marked + {containerOf(o.el)}
      && |p.marked - s.marked| <= p.markedCount - s.markedCount
  {
    var p := Visit(containerOf, isBot, s, o);
    if p.marked != s.marked {
      assert p.marked - s.marked == {containerOf(o.el)};
    } else {
      assert p.marked - s.marked == {};
    }
  }

  /** A 7TV username inside a message that is marked already changes nothing. */
  lemma MarkedSevenTvSkipped(containerOf: ElementId -> ElementId, isBot: Classifier, s: Pass, o: Occurrence)
    requires o.kind.SevenTvUsername? && o.kind.scope.Some? && o.kind.scope.value in s.marked
    ensures Visit(containerOf, isBot, s, o) == s
  {
  }

  /** A nickname the classifier flags gets its message marked. */
  lemma BotNicknameMarked(containerOf: ElementId -> ElementId, isBot: Classifier, s: Pass, o: Occurrence)
    requires Considered(o, s.marked) && isBot(NickOf(o))
    ensures containerOf(o.el) in Visit(containerOf, isBot, s, o).marked
    ensures Visit(containerOf, isBot, s, o).markedCount >= s.markedCount + 1
  {
  }

  /** With the detector's own classifier: a `data-a-user` element naming
      "Bot_123" gets its message marked. */
  lemma DetectorMarksBotAttribute(containerOf: ElementId -> ElementId, s: Pass, el: ElementId, at: int)
    ensures containerOf(el) in
      Visit(containerOf, Detector.IsBotNickname, s, Occurrence(el, "Bot_123", UserAttribute, at)).marked
  {
    var o := Occurrence(el, "Bot_123", UserAttribute, at);
    BotAttributeFlagged(o);
    BotNicknameMarked(containerOf, Detector.IsBotNickname, s, o);
  }

  lemma BotAttributeFlagged(o: Occurrence)
    requires o.text == "Bot_123" && o.kind == UserAttribute
    ensures Considered(o, {}) && Detector.IsBotNickname(NickOf(o))
  {
    Detector.BotNumberIsBot();
  }

  /** A nickname the classifier lets through, seen for the first time, leaves
      every mark as it was. */
  lemma FirstBenignSightingMarksNothing(containerOf: ElementId -> ElementId, isBot: Classifier, s: Pass, o: Occurrence)
    requires Considered(o, s.marked) && !isBot(NickOf(o))
    requires NickOf(o) !in s.activity
    ensures Visit(containerOf, isBot, s, o).marked == s.marked
    ensures Visit(containerOf, isBot, s, o).markedCount == s.markedCount
  {
    Activity.FirstSightingIsNotSpam(s.activity, NickOf(o), o.at);
  }

  /** The same link or `data-a-user` element met again less than a second later
      (by a second pass over a chat whose lines are still on screen) has its
      message marked, whatever the nickname: the second reading is under the
      minimum interval from the first. */
  lemma RescanWithinASecondMarks(containerOf: ElementId -> ElementId, isBot: Classifier, s: Pass, o: Occurrence, t: int)
    requires !o.kind.SevenTvUsername? && Considered(o, s.marked)
    requires o.at <= t < o.at + Activity.MinIntervalBetweenMessages
    ensures containerOf(o.el) in Visit(containerOf, isBot, Visit(containerOf, isBot, s, o), o.(at := t)).marked
  {
    var s1 := Visit(containerOf, isBot, s, o);
    var o2 := o.(at := t);
    assert NickOf(o2) == NickOf(o);
    assert Considered(o2, s1.marked);
    Activity.QuickRepeatIsSpam(s1.activity, NickOf(o), t);
  }

  /** A nickname shorter than two characters is skipped: nothing is counted,
      tested, recorded or marked. */
  lemma ShortNickSkipped(containerOf: ElementId -> ElementId, isBot: Classifier, s: Pass, o: Occurrence)
    requires |NickOf(o)| < 2
    ensures Visit(containerOf, isBot, s, o) == s
  {
  }

  // ---------------------------------------------------------------------
  // A whole pass

  /** Running over `a` and then over `b` is running over `a + b`. */
  lemma {:induction false} FoldAppend(containerOf: ElementId -> ElementId, isBot: Classifier, s: Pass, a: seq<Occurrence>, b: seq<Occurrence>)
    ensures Fold(containerOf, isBot, s, a + b) == Fold(containerOf, isBot, Fold(containerOf, isBot, s, a), b)
    decreases |b|
  {
    if b == [] {
      assert a + b == a;
    } else {
      assert (a + b)[..|a + b| - 1] == a + b[..|b| - 1];
      assert (a + b)[|a + b| - 1] == b[|b| - 1];
      FoldAppend(containerOf, isBot, s, a, b[..|b| - 1]);
    }
  }

  /** The counters of a pass: no more nicknames checked than occurrences met,
      at most two marks counted per checked nickname, and at least as many
      counted as messages newly marked (a message flagged by both tests, or met
      twice, is counted more than once). Marks only grow, and every new one is
      the container of some occurrence. */
  lemma {:induction false} FoldBounds(containerOf: ElementId -> ElementId, isBot: Classifier, s: Pass, occs: seq<Occurrence>)
    ensures var p := Fold(containerOf, isBot, s, occs);
      && p.checked <= s.checked + |occs|
      && p.markedCount - s.markedCount <= 2 * (p.checked - s.checked)
      && |p.marked - s.marked| <= p.markedCount - s.markedCount
      && s.marked <= p.marked
      && p.marked <= s.marked + set o | o in occs :: containerOf(o.el)
    decreases |occs|
  {
    if occs != [] {
      var init := occs[..|occs| - 1];
      var o := occs[|occs| - 1];
      var q := Fold(containerOf, isBot, s, init);
      var p := Visit(containerOf, isBot, q, o);
      FoldBounds(containerOf, isBot, s, init);
      VisitBounds(containerOf, isBot, q, o);
      assert p.marked - s.marked <= (q.marked - s.marked) + (p.marked - q.marked);
      SubsetCard(p.marked - s.marked, (q.marked - s.marked) + (p.marked - q.marked));
    }
  }

  lemma SubsetCard(a: set<ElementId>, b: set<ElementId>)
    requires a <= b
    ensures |a| <= |b|
  {
    assert b == a + (b - a);
  }

  /** A 7TV username whose message is marked when the pass starts. */
  predicate MarkedSevenTv(o: Occurrence, marked: set<ElementId>)
  {
    o.kind.SevenTvUsername? && o.kind.scope.Some? && o.kind.scope.value in marked
  }

  /** How many of the occurrences are 7TV usernames in messages marked when the pass starts. */
  function CountMarkedSevenTv(occs: seq<Occurrence>, marked: set<ElementId>): (n: nat)
    ensures n <= |occs|
  {
    if occs == [] then 0
    else CountMarkedSevenTv(occs[..|occs| - 1], marked) + (if MarkedSevenTv(occs[|occs| - 1], marked) then 1 else 0)
  }

  /** Of N occurrences of which K are 7TV usernames in messages marked before
      the pass, at most N - K are checked. */
  lemma {:induction false} FoldSkipsMarkedSevenTv(containerOf: ElementId -> ElementId, isBot: Classifier, s: Pass, occs: seq<Occurrence>)
    ensures Fold(containerOf, isBot, s, occs).checked <= s.checked + |occs| - CountMarkedSevenTv(occs, s.marked)
    decreases |occs|
  {
    if occs != [] {
      var init := occs[..|occs| - 1];
      var o := occs[|occs| - 1];
      FoldSkipsMarkedSevenTv(containerOf, isBot, s, init);
      FoldBounds(containerOf, isBot, s, init);
      VisitBounds(containerOf, isBot, Fold(containerOf, isBot, s, init), o);
    }
  }

  /** Readings that never go back keep the activity map chronological through a pass. */
  lemma {:induction false} FoldKeepsChronological(containerOf: ElementId -> ElementId, isBot: Classifier, s: Pass, clock: int, occs: seq<Occurrence>)
    requires Activity.Chronological(s.activity, clock)
    requires forall i :: 0 <= i < |occs| ==> clock <= occs[i].at
    requires forall i, j :: 0 <= i < j < |occs| ==> occs[i].at <= occs[j].at
    ensures Activity.Chronological(Fold(containerOf, isBot, s, occs).activity, if occs == [] then clock else occs[|occs| - 1].at)
    decreases |occs|
  {
    if occs != [] {
      var init := occs[..|occs| - 1];
      var o := occs[|occs| - 1];
      FoldKeepsChronological(containerOf, isBot, s, clock, init);
      var c := if init == [] then clock else init[|init| - 1].at;
      var q := Fold(containerOf, isBot, s, init);
      if Considered(o, q.marked) {
        Activity.RecordKeepsChronological(q.activity, c, NickOf(o), o.at);
      } else {
        Activity.ChronologicalLater(q.activity, c, o.at);
      }
    }
  }

  /** The newest reading recorded for `nick` stays between `lo` and `hi` when
      every occurrence of the pass reads a clock in that range. */
  lemma {:induction false} LastReadingInRange(containerOf: ElementId -> ElementId, isBot: Classifier, s: Pass,
                                              occs: seq<Occurrence>, nick: string, lo: int, hi: int)
    requires nick in s.activity && s.activity[nick] != []
    requires lo <= s.activity[nick][|s.activity[nick]| - 1] <= hi
    requires forall i :: 0 <= i < |occs| ==> lo <= occs[i].at <= hi
    ensures var a := Fold(containerOf, isBot, s, occs).activity;
      nick in a && a[nick] != [] && lo <= a[nick][|a[nick]| - 1] <= hi
    decreases |occs|
  {
    if occs != [] {
      var init := occs[..|occs| - 1];
      LastReadingInRange(containerOf, isBot, s, init, nick, lo, hi);
    }
  }

  /** An occurrence whose nickname was last recorded less than a second before
      gets its message marked. */
  lemma QuickRepeatMarks(containerOf: ElementId -> ElementId, isBot: Classifier, s: Pass, o: Occurrence)
    requires Considered(o, s.marked)
    requires NickOf(o) in s.activity && s.activity[NickOf(o)] != []
    requires o.at - s.activity[NickOf(o)][|s.activity[NickOf(o)]| - 1] < Activity.MinIntervalBetweenMessages
    ensures containerOf(o.el) in Visit(containerOf, isBot, s, o).marked
  {
    Activity.QuickRepeatIsSpam(s.activity, NickOf(o), o.at);
  }

  /** A link or `data-a-user` element met again, less than a second after it was
      first met, gets its message marked, whatever the nickname and whatever the
      pass met in between, provided the clock did not go back meanwhile. */
  lemma RescanMarksAcrossPass(containerOf: ElementId -> ElementId, isBot: Classifier, s: Pass, o: Occurrence,
                              between: seq<Occurrence>, t: int)
    requires !o.kind.SevenTvUsername? && Considered(o, s.marked)
    requires forall i :: 0 <= i < |between| ==> o.at <= between[i].at <= t
    requires o.at <= t < o.at + Activity.MinIntervalBetweenMessages
    ensures containerOf(o.el) in Fold(containerOf, isBot, s, [o] + between + [o.(at := t)]).marked
  {
    var o2 := o.(at := t);
    var s1 := Visit(containerOf, isBot, s, o);
    assert [o][..0] == [];
    assert Fold(containerOf, isBot, s, [o]) == s1;
    assert NickOf(o) in s1.activity && s1.activity[NickOf(o)] != [];
    assert s1.activity[NickOf(o)][|s1.activity[NickOf(o)]| - 1] == o.at;
    FoldAppend(containerOf, isBot, s, [o], between);
    LastReadingInRange(containerOf, isBot, s1, between, NickOf(o), o.at, t);
    var q := Fold(containerOf, isBot, s1, between);
    var all := [o] + between + [o2];
    assert all[..|all| - 1] == [o] + between && all[|all| - 1] == o2;
    assert Fold(containerOf, isBot, s, all) == Visit(containerOf, isBot, q, o2);
    assert NickOf(o2) == NickOf(o);
    QuickRepeatMarks(containerOf, isBot, q, o2);
  }

  /** `run`, from the point where the classifier and the chat root are
      available: walks the occurrences, counting and marking as it goes. */
  method Run(isBot: Classifier, tracker: Activity.ActivityTracker, page: Marking.Page, occs: seq<Occurrence>)
    returns (checkedCount: nat, markedCount: nat)
    modifies tracker, page
    ensures var p := Fold(page.containerOf, isBot, Pass(old(tracker.userActivity), old(page.markedAttr), 0, 0), occs);
      && tracker.userActivity == p.activity
      && page.markedAttr == p.marked
      && checkedCount == p.checked
      && markedCount == p.markedCount
    ensures old(page.Valid()) ==> page.Valid()
  {
    ghost var start := Pass(tracker.userActivity, page.markedAttr, 0, 0);
    markedCount := 0;
    checkedCount := 0;
    var i := 0;
    while i < |occs|
      invariant 0 <= i <= |occs|
      invariant Fold(page.containerOf, isBot, start, occs[..i])
             == Pass(tracker.userActivity, page.markedAttr, checkedCount, markedCount)
      invariant old(page.Valid()) ==> page.Valid()
    {
      checkedCount, markedCount := VisitOccurrence(isBot, tracker, page, occs[i], checkedCount, markedCount);
      assert occs[..i + 1][..i] == occs[..i];
      i := i + 1;
    }
    assert occs[..|occs|] == occs;
  }

  /** The body of the three loops of `run` for one element. */
  method VisitOccurrence(isBot: Classifier, tracker: Activity.ActivityTracker, page: Marking.Page, o: Occurrence,
                         checkedCount: nat, markedCount: nat)
    returns (checkedCount': nat, markedCount': nat)
    modifies tracker, page
    ensures Pass(tracker.userActivity, page.markedAttr, checkedCount', markedCount')
         == Visit(page.containerOf, isBot, Pass(old(tracker.userActivity), old(page.markedAttr), checkedCount, markedCount), o)
    ensures old(page.Valid()) ==> page.Valid()
  {
    var considered, nick := ReadNickname(page, o);
    if considered {
      checkedCount', markedCount' := CheckAndMark(isBot, tracker, page, o, nick, checkedCount, markedCount);
    } else {
      checkedCount', markedCount' := checkedCount, markedCount;
    }
  }

  /** The filters at the head of each loop: which nickname is read, and whether
      the element is looked at further. */
  method ReadNickname(page: Marking.Page, o: Occurrence) returns (considered: bool, nick: string)
    ensures considered == Considered(o, page.markedAttr)
    ensures considered ==> nick == NickOf(o)
  {
    match o.kind {
      case ProfileLink(pathname) =>
        nick := o.text;
        considered := Marking.IsUserProfileLink(pathname) && |nick| >= 2;
      case UserAttribute =>
        nick := o.text;
        considered := |nick| >= 2;
      case SevenTvUsername(scope) =>
        if scope.None? || page.IsMarked(scope.value) {
          nick := "";
          considered := false;
        } else {
          nick := JsString.Trim(o.text);
          considered := |nick| >= 2;
        }
    }
  }

  /** The rest of the loop body for an element that passed the filters: count
      it, mark its message if the classifier flags the nickname, record the
      sighting, and mark again if the tracker flags it. */
  method CheckAndMark(isBot: Classifier, tracker: Activity.ActivityTracker, page: Marking.Page, o: Occurrence,
                      nick: string, checkedCount: nat, markedCount: nat)
    returns (checkedCount': nat, markedCount': nat)
    requires Considered(o, page.markedAttr) && nick == NickOf(o)
    modifies tracker, page
    ensures Pass(tracker.userActivity, page.markedAttr, checkedCount', markedCount')
         == Visit(page.containerOf, isBot, Pass(old(tracker.userActivity), old(page.markedAttr), checkedCount, markedCount), o)
    ensures old(page.Valid()) ==> page.Valid()
  {
    ghost var container := page.containerOf(o.el);
    ghost var v := Visit(page.containerOf, isBot, Pass(tracker.userActivity, page.markedAttr, checkedCount, markedCount), o);
    ghost var bot := isBot(nick);
    ghost var recorded := Activity.Record(tracker.userActivity, nick, o.at);
    ghost var afterName' := if bot then page.markedAttr + {container} else page.markedAttr;
    assert v.activity == recorded;
    assert v.checked == checkedCount + 1;
    assert v.marked == if Activity.IsActivitySpam(recorded[nick], o.at) then afterName' + {container} else afterName';
    checkedCount' := checkedCount + 1;
    markedCount' := markedCount;
    if isBot(nick) {
      page.MarkSuspicious(o.el);
      markedCount' := markedCount' + 1;
    }
    ghost var afterName := page.markedAttr;
    assert afterName == if isBot(nick) then old(page.markedAttr) + {container} else old(page.markedAttr);
    var spam := tracker.CheckActivitySpam(nick, o.at);
    if spam {
      page.MarkSuspicious(o.el);
      markedCount' := markedCount' + 1;
    }
    assert page.markedAttr == if spam then afterName + {container} else afterName;
  }
}
