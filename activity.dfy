/**
 * Activity-spam detection of the content script: every nickname seen in chat
 * gets the clock reading of each sighting appended to its history; a history
 * with too many readings in the last 30 seconds or the last minute, or whose
 * last two readings are under a second apart, is flagged; a periodic cleanup
 * drops readings older than two minutes and forgets nicknames left without any.
 *
 * Clock readings are milliseconds, as `Date.now()` returns them; the caller
 * passes the reading in (`now`), so the model has no clock of its own.
 */
module Activity {

  const MaxMessagesPer30Sec := 5
  const MaxMessagesPerMinute := 10
  const MinIntervalBetweenMessages := 1000
  /** Period of the cleanup timer; the timer itself is not part of this model. */
  const CleanupInterval := 60000
  const ShortWindow := 30000
  const LongWindow := 60000
  /** Readings at least this old are dropped by the cleanup. */
  const MaxAge := 120000

  /** The map from nickname to the clock readings recorded for it, oldest first. */
  type ActivityMap = map<string, seq<int>>

  predicate Sorted(ts: seq<int>)
  {
    forall i, j :: 0 <= i < j < |ts| ==> ts[i] <= ts[j]
  }

  /** The readings of `ts` that lie less than `window` before `now`, in their
      order: each reading keeps all its copies when it is recent and none when not. */
  function Within(ts: seq<int>, now: int, window: int): (r: seq<int>)
    ensures |r| <= |ts|
    ensures forall t :: multiset(r)[t] == if now - t < window then multiset(ts)[t] else 0
  {
    if ts == [] then []
    else
      var t := ts[|ts| - 1];
      var rest := Within(ts[..|ts| - 1], now, window);
      assert ts == ts[..|ts| - 1] + [t];
      if now - t < window then rest + [t] else rest
  }

  /** The verdict `checkActivitySpam` returns once the history `ts` (ending with
      the reading just taken, `now`) has been recorded. */
  predicate IsActivitySpam(ts: seq<int>, now: int)
  {
    || |Within(ts, now, ShortWindow)| > MaxMessagesPer30Sec
    || |Within(ts, now, LongWindow)| > MaxMessagesPerMinute
    || (|ts| >= 2 && ts[|ts| - 1] - ts[|ts| - 2] < MinIntervalBetweenMessages)
  }

  function HistoryOf(m: ActivityMap, nick: string): seq<int>
  {
    if nick in m then m[nick] else []
  }

  /** The map after a sighting of `nick` at `now` has been recorded. */
  function Record(m: ActivityMap, nick: string, now: int): (r: ActivityMap)
    ensures r.Keys == m.Keys + {nick}
    ensures r[nick] == HistoryOf(m, nick) + [now]
    ensures forall k :: k in m && k != nick ==> r[k] == m[k]
  {
    m[nick := HistoryOf(m, nick) + [now]]
  }

  /** The map after the cleanup at `now`: only readings younger than `MaxAge`
      stay, and a nickname with none left goes. */
  function Prune(m: ActivityMap, now: int): ActivityMap
  {
    map k | k in m && Within(m[k], now, MaxAge) != [] :: Within(m[k], now, MaxAge)
  }

  /** Every history is non-empty, oldest first, and no reading is later than `clock`. */
  predicate Chronological(m: ActivityMap, clock: int)
  {
    forall k :: k in m ==> m[k] != [] && Sorted(m[k]) && m[k][|m[k]| - 1] <= clock
  }

  // ---------------------------------------------------------------------
  // Facts about the filter

  lemma {:induction false} WithinAppend(a: seq<int>, b: seq<int>, now: int, window: int)
    ensures Within(a + b, now, window) == Within(a, now, window) + Within(b, now, window)
    decreases |b|
  {
    if b == [] {
      assert a + b == a;
    } else {
      var b' := b[..|b| - 1];
      assert (a + b)[..|a + b| - 1] == a + b';
      assert (a + b)[|a + b| - 1] == b[|b| - 1];
      WithinAppend(a, b', now, window);
    }
  }

  /** A history made only of old readings filters to nothing. */
  lemma {:induction false} WithinOfOld(ts: seq<int>, now: int, window: int)
    requires forall i :: 0 <= i < |ts| ==> now - ts[i] >= window
    ensures Within(ts, now, window) == []
    decreases |ts|
  {
    if ts != [] {
      WithinOfOld(ts[..|ts| - 1], now, window);
    }
  }

  /** A history made only of recent readings filters to itself. */
  lemma {:induction false} WithinOfRecent(ts: seq<int>, now: int, window: int)
    requires forall i :: 0 <= i < |ts| ==> now - ts[i] < window
    ensures Within(ts, now, window) == ts
    decreases |ts|
  {
    if ts != [] {
      WithinOfRecent(ts[..|ts| - 1], now, window);
      assert ts == ts[..|ts| - 1] + [ts[|ts| - 1]];
    }
  }

  /** A wider window never counts fewer readings. */
  lemma {:induction false} NestedWindows(ts: seq<int>, now: int, w1: int, w2: int)
    requires w1 <= w2
    ensures |Within(ts, now, w1)| <= |Within(ts, now, w2)|
    decreases |ts|
  {
    if ts != [] {
      NestedWindows(ts[..|ts| - 1], now, w1, w2);
    }
  }

  /** Filtering keeps readings in order. */
  lemma {:induction false} WithinKeepsOrder(ts: seq<int>, now: int, window: int)
    requires Sorted(ts)
    ensures Sorted(Within(ts, now, window))
    decreases |ts|
  {
    if ts != [] {
      var init := ts[..|ts| - 1];
      var t := ts[|ts| - 1];
      var rest := Within(init, now, window);
      WithinKeepsOrder(init, now, window);
      forall x | x in rest
        ensures x <= t
      {
        assert multiset(rest)[x] > 0;
        assert x in multiset(init);
      }
      if now - t < window {
        var r := rest + [t];
        forall i, j | 0 <= i < j < |r|
          ensures r[i] <= r[j]
        {
          if j == |rest| {
            assert r[i] in rest;
          }
        }
      }
    }
  }

  /** Filtering twice with the same bound is filtering once. */
  lemma {:induction false} WithinIdempotent(ts: seq<int>, now: int, window: int)
    ensures Within(Within(ts, now, window), now, window) == Within(ts, now, window)
    decreases |ts|
  {
    if ts != [] {
      var init := ts[..|ts| - 1];
      var t := ts[|ts| - 1];
      WithinIdempotent(init, now, window);
      if now - t < window {
        var rest := Within(init, now, window);
        assert (rest + [t])[..|rest + [t]| - 1] == rest;
      }
    }
  }

  /** Counting the recent readings of an already cleaned history gives the
      same result as counting them in the full one, as long as the cleanup
      ran no later than `now` and the window is no wider than `MaxAge`. */
  lemma {:induction false} WithinAfterPrune(ts: seq<int>, c: int, now: int, window: int)
    requires c <= now && window <= MaxAge
    ensures Within(Within(ts, c, MaxAge), now, window) == Within(ts, now, window)
    decreases |ts|
  {
    if ts != [] {
      var init := ts[..|ts| - 1];
      var t := ts[|ts| - 1];
      WithinAfterPrune(init, c, now, window);
      if c - t < MaxAge {
        var rest := Within(init, c, MaxAge);
        assert (rest + [t])[..|rest + [t]| - 1] == rest;
      }
    }
  }

  /** When the newest reading is kept, it is still the newest one after filtering;
      when it is not, nothing is kept. */
  lemma LastAfterFilter(ts: seq<int>, now: int, window: int)
    requires Sorted(ts) && ts != []
    ensures now - ts[|ts| - 1] < window ==>
              Within(ts, now, window) != [] && Within(ts, now, window)[|Within(ts, now, window)| - 1] == ts[|ts| - 1]
    ensures now - ts[|ts| - 1] >= window ==> Within(ts, now, window) == []
  {
    if now - ts[|ts| - 1] >= window {
      WithinOfOld(ts, now, window);
    }
  }

  // ---------------------------------------------------------------------
  // The verdict

  /** The first sighting of a nickname is never spam. */
  lemma FirstSightingIsNotSpam(m: ActivityMap, nick: string, now: int)
    requires nick !in m
    ensures !IsActivitySpam(Record(m, nick, now)[nick], now)
  {
    assert Record(m, nick, now)[nick] == [now];
    assert Within([now], now, ShortWindow) == [now];
    assert Within([now], now, LongWindow) == [now];
  }

  /** Two sightings less than a second apart are spam. */
  lemma QuickRepeatIsSpam(m: ActivityMap, nick: string, now: int)
    requires nick in m && m[nick] != [] && now - m[nick][|m[nick]| - 1] < MinIntervalBetweenMessages
    ensures IsActivitySpam(Record(m, nick, now)[nick], now)
  {
    var h := Record(m, nick, now)[nick];
    assert h[|h| - 2] == m[nick][|m[nick]| - 1];
  }

  /** Six sightings within 30 seconds are spam, however they are spaced. */
  lemma BurstIsSpam(ts: seq<int>, now: int)
    requires |ts| >= MaxMessagesPer30Sec + 1
    requires forall k :: |ts| - (MaxMessagesPer30Sec + 1) <= k < |ts| ==> now - ts[k] < ShortWindow
    ensures IsActivitySpam(ts, now)
  {
    var n := |ts| - (MaxMessagesPer30Sec + 1);
    assert ts == ts[..n] + ts[n..];
    WithinAppend(ts[..n], ts[n..], now, ShortWindow);
    WithinOfRecent(ts[n..], now, ShortWindow);
  }

  /** Eleven sightings within a minute are spam, even when no six of them fall
      within 30 seconds. */
  lemma MinuteFloodIsSpam(ts: seq<int>, now: int)
    requires |ts| >= MaxMessagesPerMinute + 1
    requires forall k :: |ts| - (MaxMessagesPerMinute + 1) <= k < |ts| ==> now - ts[k] < LongWindow
    ensures IsActivitySpam(ts, now)
  {
    var n := |ts| - (MaxMessagesPerMinute + 1);
    assert ts == ts[..n] + ts[n..];
    WithinAppend(ts[..n], ts[n..], now, LongWindow);
    WithinOfRecent(ts[n..], now, LongWindow);
  }

  /** Consecutive readings at least `gap` apart. */
  predicate Spaced(ts: seq<int>, gap: int)
  {
    forall i :: 0 <= i < |ts| - 1 ==> ts[i + 1] - ts[i] >= gap
  }

  /** Each step back in a spaced history goes back at least `gap`. */
  lemma {:induction false} SpacedReach(ts: seq<int>, gap: int, k: int)
    requires Spaced(ts, gap) && 0 <= k < |ts|
    ensures ts[k] + gap * (|ts| - 1 - k) <= ts[|ts| - 1]
    decreases |ts| - 1 - k
  {
    if k < |ts| - 1 {
      SpacedReach(ts, gap, k + 1);
    }
  }

  lemma MulMonotone(a: int, b: int, c: int)
    requires a > 0 && b >= c
    ensures a * b >= a * c
  {
    assert a * b - a * c == a * (b - c);
  }

  /** At most `limit` readings of a history spaced `gap` apart, with
      `gap * limit == window`, fall within `window` of the newest one. */
  lemma SpacedWindowCount(ts: seq<int>, gap: int, limit: nat, window: int)
    requires Spaced(ts, gap) && ts != [] && 0 < gap && gap * limit == window
    ensures |Within(ts, ts[|ts| - 1], window)| <= limit
  {
    var now := ts[|ts| - 1];
    if |ts| > limit {
      var n := |ts| - limit;
      forall i | 0 <= i < n
        ensures now - ts[..n][i] >= window
      {
        SpacedReach(ts, gap, i);
        MulMonotone(gap, |ts| - 1 - i, limit);
      }
      assert ts == ts[..n] + ts[n..];
      WithinAppend(ts[..n], ts[n..], now, window);
      WithinOfOld(ts[..n], now, window);
    }
  }

  /** Someone who writes no more than once every six seconds is never flagged:
      that cadence puts at most five readings in 30 seconds and ten in a minute. */
  lemma SteadyCadenceIsNotSpam(ts: seq<int>)
    requires ts != [] && Spaced(ts, 6000)
    ensures !IsActivitySpam(ts, ts[|ts| - 1])
  {
    SpacedWindowCount(ts, 6000, MaxMessagesPer30Sec, ShortWindow);
    SpacedWindowCount(ts, 6000, MaxMessagesPerMinute, LongWindow);
  }

  /** Six sightings in 40 seconds, one every eight seconds, are not spam. */
  lemma SpreadOutIsNotSpam()
    ensures !IsActivitySpam([0, 8000, 16000, 24000, 32000, 40000], 40000)
  {
    SteadyCadenceIsNotSpam([0, 8000, 16000, 24000, 32000, 40000]);
  }

  // ---------------------------------------------------------------------
  // The cleanup

  /** A nickname survives the cleanup exactly when it has a reading younger
      than `MaxAge`, and its history is then cut to those readings. */
  lemma PruneKeeps(m: ActivityMap, now: int, nick: string)
    ensures nick in Prune(m, now) <==>
              nick in m && exists i :: 0 <= i < |m[nick]| && now - m[nick][i] < MaxAge
    ensures nick in Prune(m, now) ==>
              forall t :: t in Prune(m, now)[nick] <==> t in m[nick] && now - t < MaxAge
  {
    if nick in m {
      var h := m[nick];
      if exists i :: 0 <= i < |h| && now - h[i] < MaxAge {
        var i :| 0 <= i < |h| && now - h[i] < MaxAge;
        assert multiset(Within(h, now, MaxAge))[h[i]] > 0;
      } else {
        WithinOfOld(h, now, MaxAge);
      }
      forall t
        ensures t in Within(h, now, MaxAge) <==> t in h && now - t < MaxAge
      {
        assert t in Within(h, now, MaxAge) <==> multiset(Within(h, now, MaxAge))[t] > 0;
        assert t in h <==> multiset(h)[t] > 0;
      }
    }
  }

  /** The cleanup never adds a nickname. */
  lemma PruneAddsNoKeys(m: ActivityMap, now: int)
    ensures Prune(m, now).Keys <= m.Keys
  {
  }

  /** Running the cleanup twice at the same time is running it once. */
  lemma PruneIdempotent(m: ActivityMap, now: int)
    ensures Prune(Prune(m, now), now) == Prune(m, now)
  {
    forall k | k in Prune(m, now)
      ensures Within(Prune(m, now)[k], now, MaxAge) == Prune(m, now)[k]
    {
      WithinIdempotent(m[k], now, MaxAge);
    }
  }

  /** A nickname whose last reading is `MaxAge` or more old is forgotten. */
  lemma PruneForgetsQuiet(m: ActivityMap, clock: int, nick: string, now: int)
    requires Chronological(m, clock) && nick in m
    requires now - m[nick][|m[nick]| - 1] >= MaxAge
    ensures nick !in Prune(m, now)
  {
    LastAfterFilter(m[nick], now, MaxAge);
  }

  /** Recording keeps the map chronological when the clock does not go back. */
  lemma RecordKeepsChronological(m: ActivityMap, clock: int, nick: string, now: int)
    requires Chronological(m, clock) && clock <= now
    ensures Chronological(Record(m, nick, now), now)
  {
    var r := Record(m, nick, now);
    forall k | k in r
      ensures r[k] != [] && Sorted(r[k]) && r[k][|r[k]| - 1] <= now
    {
      if k == nick && nick in m {
        var h := m[nick];
        forall i | 0 <= i < |h|
          ensures h[i] <= now
        {
          assert h[i] <= h[|h| - 1];
        }
      }
    }
  }

  /** A chronological map stays so as the clock moves on. */
  lemma ChronologicalLater(m: ActivityMap, clock: int, later: int)
    requires Chronological(m, clock) && clock <= later
    ensures Chronological(m, later)
  {
  }

  /** The cleanup keeps the map chronological. */
  lemma PruneKeepsChronological(m: ActivityMap, clock: int, now: int)
    requires Chronological(m, clock)
    ensures Chronological(Prune(m, now), clock)
  {
    forall k | k in Prune(m, now)
      ensures Sorted(Prune(m, now)[k]) && Prune(m, now)[k][|Prune(m, now)[k]| - 1] <= clock
    {
      WithinKeepsOrder(m[k], now, MaxAge);
      var h := m[k];
      if now - h[|h| - 1] < MaxAge {
        LastAfterFilter(h, now, MaxAge);
      } else {
        LastAfterFilter(h, now, MaxAge);
        assert false;
      }
    }
  }

  /** The cleanup never changes a later verdict: a sighting at `now` gets the
      same answer whether or not the map was cleaned at any earlier time `c`. */
  lemma CleanupKeepsVerdicts(m: ActivityMap, clock: int, c: int, nick: string, now: int)
    requires Chronological(m, clock) && c <= now
    ensures IsActivitySpam(Record(Prune(m, c), nick, now)[nick], now)
         == IsActivitySpam(Record(m, nick, now)[nick], now)
  {
    if nick in m {
      var p := Within(m[nick], c, MaxAge);
      assert HistoryOf(Prune(m, c), nick) == p;
      CleanedHistoryVerdict(m[nick], c, now);
    }
  }

  /** The history-level half of `CleanupKeepsVerdicts`. */
  lemma CleanedHistoryVerdict(h: seq<int>, c: int, now: int)
    requires Sorted(h) && h != [] && c <= now
    ensures IsActivitySpam(Within(h, c, MaxAge) + [now], now) == IsActivitySpam(h + [now], now)
  {
    var p := Within(h, c, MaxAge);
    CleanedCounts(h, p, c, now, ShortWindow);
    CleanedCounts(h, p, c, now, LongWindow);
    LastAfterFilter(h, c, MaxAge);
    if p == [] {
      assert (p + [now])[..1] == p + [now];
    }
  }

  lemma CleanedCounts(h: seq<int>, p: seq<int>, c: int, now: int, window: int)
    requires p == Within(h, c, MaxAge) && c <= now && window <= MaxAge
    ensures |Within(p + [now], now, window)| == |Within(h + [now], now, window)|
  {
    WithinAfterPrune(h, c, now, window);
    WithinAppend(h, [now], now, window);
    WithinAppend(p, [now], now, window);
  }

  /** The state of the activity tracker: the `userActivity` map of the
      content script. */
  class ActivityTracker {
    var userActivity: ActivityMap

    constructor()
      ensures userActivity == map[]
    {
      userActivity := map[];
    }

    /** `checkActivitySpam`: a nickname shorter than two characters is
        ignored; any other has the reading `now` appended to its history, and
        the answer is the verdict on that history. */
    method CheckActivitySpam(nick: string, now: int) returns (spam: bool)
      modifies this
      ensures |nick| < 2 ==> !spam && userActivity == old(userActivity)
      ensures |nick| >= 2 ==> userActivity == Record(old(userActivity), nick, now)
      ensures |nick| >= 2 ==> spam == IsActivitySpam(userActivity[nick], now)
    {
      if |nick| < 2 {
        return false;
      }
      var timestamps := if nick in userActivity then userActivity[nick] else [];
      timestamps := timestamps + [now];
      userActivity := userActivity[nick := timestamps];

      var last30Sec := Within(timestamps, now, ShortWindow);
      var lastMinute := Within(timestamps, now, LongWindow);
      if |last30Sec| > MaxMessagesPer30Sec {
        return true;
      }
      if |lastMinute| > MaxMessagesPerMinute {
        return true;
      }
      if |timestamps| >= 2 {
        var interval := timestamps[|timestamps| - 1] - timestamps[|timestamps| - 2];
        if interval < MinIntervalBetweenMessages {
          return true;
        }
      }
      return false;
    }

    /** `cleanupActivity`: visits every nickname once, cutting its history to
        the readings younger than `MaxAge` and deleting it when none is left. */
    method CleanupActivity(now: int)
      modifies this
      ensures userActivity == Prune(old(userActivity), now)
    {
      ghost var start := userActivity;
      var pending := userActivity.Keys;
      while pending != {}
        invariant pending <= start.Keys
        invariant userActivity.Keys <= start.Keys
        invariant forall k :: k in pending ==> k in userActivity && userActivity[k] == start[k]
        invariant forall k :: k in start.Keys - pending ==>
                    (k in userActivity <==> k in Prune(start, now)) &&
                    (k in userActivity ==> userActivity[k] == Prune(start, now)[k])
        decreases pending
      {
        var nick :| nick in pending;
        var filtered := Within(userActivity[nick], now, MaxAge);
        if |filtered| == 0 {
          userActivity := map k | k in userActivity && k != nick :: userActivity[k];
        } else {
          userActivity := userActivity[nick := filtered];
        }
        pending := pending - {nick};
      }
    }
  }
}
