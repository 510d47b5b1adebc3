/** The fixed window of one key over any sequence of requests: when it opens, how long it lasts, how many
    requests it lets through, and how bursts and gaps use it up. */
module RateWindows {
  import opened Prelude
  import opened FallbackStore

  /** Every request reads the clock after the previous one finished with it. */
  ghost predicate MonotoneHits(hits: seq<Readings>) {
    && (forall i :: 0 <= i < |hits| ==> hits[i].Monotone())
    && (forall i, j :: 0 <= i < j < |hits| ==> hits[i].report <= hits[j].fetch)
  }

  /** The key's entry after the requests so far. */
  function EntryAfter(e: Option<Entry>, windowSec: int, hits: seq<Readings>): Option<Entry> {
    if hits == [] then e
    else
      var n := |hits| - 1;
      Some(AfterHit(EntryAfter(e, windowSec, hits[..n]), windowSec, hits[n]))
  }

  function CountAfter(e: Option<Entry>, windowSec: int, hits: seq<Readings>): nat {
    match EntryAfter(e, windowSec, hits) case None => 0 case Some(entry) => CountOf(entry.value)
  }

  /** Requests fetched within [from, to] that were allowed. */
  function AllowedWithin(e: Option<Entry>, windowSec: int, max: nat, hits: seq<Readings>, from: int, to: int): nat {
    if hits == [] then 0
    else
      var n := |hits| - 1;
      AllowedWithin(e, windowSec, max, hits[..n], from, to)
      + (if from <= hits[n].fetch <= to && CountAfter(e, windowSec, hits) <= max then 1 else 0)
  }

  /** When the current window was opened, if it was opened by one of these requests. */
  function OpenedAt(e: Option<Entry>, windowSec: int, hits: seq<Readings>): Option<int> {
    if hits == [] then None
    else
      var n := |hits| - 1;
      if Live(EntryAfter(e, windowSec, hits[..n]), hits[n].fetch).None? then Some(hits[n].fetch)
      else OpenedAt(e, windowSec, hits[..n])
  }

  /** A hit on a live entry moves its expiry only forward. With a single clock reading the move is
      under a second; otherwise it is larger by at most the time the request itself took. */
  lemma RoundingOnlyExtends(e: Entry, windowSec: int, t: Readings)
    requires t.Monotone() && !Expired(e, t.fetch) && e.expiresAt.Some? && e.expiresAt.value != 0
    ensures ExpiryAfterHit(Some(e), windowSec, t) >= e.expiresAt.value
    ensures e.expiresAt.value > t.round ==> ExpiryAfterHit(Some(e), windowSec, t) < e.expiresAt.value + 1000 + (t.write - t.round)
    ensures e.expiresAt.value <= t.round ==> ExpiryAfterHit(Some(e), windowSec, t) == t.write + 1000
  {
  }

  // Windows opened by these requests last at least their nominal length.
  lemma {:induction false} WindowLasts(e: Option<Entry>, windowSec: int, hits: seq<Readings>)
    requires MonotoneHits(hits) && windowSec > 0
    requires forall i :: 0 <= i < |hits| ==> hits[i].fetch > 0
    requires OpenedAt(e, windowSec, hits).Some?
    ensures EntryAfter(e, windowSec, hits).Some? && EntryAfter(e, windowSec, hits).value.expiresAt.Some?
    ensures EntryAfter(e, windowSec, hits).value.expiresAt.value >= OpenedAt(e, windowSec, hits).value + windowSec * 1000
    ensures exists i :: 0 <= i < |hits| && OpenedAt(e, windowSec, hits).value == hits[i].fetch
  {
    var n := |hits| - 1;
    var before := EntryAfter(e, windowSec, hits[..n]);
    if Live(before, hits[n].fetch).Some? {
      WindowLasts(e, windowSec, hits[..n]);
      RoundingOnlyExtends(before.value, windowSec, hits[n]);
    }
  }

  // What a window opened before the interval can still let through inside it: its opening request
  // lies outside, unless the key held an entry before the first request.
  function Carried(e: Option<Entry>, max: nat): nat {
    if e.None? && max > 0 then max - 1 else max
  }

  // The budget as a relation between numbers: `allowed` so far in the interval, the key's counter,
  // when its window opened and when the last request came.
  ghost predicate Budget(carried: nat, max: nat, from: int, to: int, allowed: nat, count: nat, since: Option<int>, last: int) {
    && (since.None? ==> allowed <= Min(count, max))
    && (since.Some? && since.value < from ==> allowed <= Min(count, max) - Min(1, max))
    && (since.Some? && from <= since.value <= to ==> allowed <= carried + Min(count, max))
    && (since.Some? ==> since.value <= last)
    && (last < from ==> allowed == 0)
    && allowed <= carried + max
  }

  ghost predicate WithinBudget(e: Option<Entry>, windowSec: int, max: nat, hits: seq<Readings>, from: int, to: int)
    requires hits != []
  {
    Budget(Carried(e, max), max, from, to, AllowedWithin(e, windowSec, max, hits, from, to),
           CountAfter(e, windowSec, hits), OpenedAt(e, windowSec, hits), hits[|hits| - 1].fetch)
  }

  // One more request, in the window already open or opening a new one after the old one ran its length.
  lemma BudgetStep(carried: nat, max: nat, from: int, to: int, allowed: nat, count: nat, since: Option<int>, last: int,
                   now: int, count': nat, since': Option<int>)
    requires Budget(carried, max, from, to, allowed, count, since, last) && last <= now && max - Min(1, max) <= carried
    requires (count' == count + 1 && since' == since)
          || (count' == 1 && since' == Some(now) && (since.None? ==> carried == max)
              && (since.Some? && from <= since.value ==> now > to || now < from))
    ensures Budget(carried, max, from, to, allowed + if from <= now <= to && count' <= max then 1 else 0, count', since', now)
  {
  }

  lemma BudgetStarts(e: Option<Entry>, windowSec: int, max: nat, hits: seq<Readings>, from: int, to: int)
    requires |hits| == 1 && windowSec > 0 && from <= to && hits[0].fetch > 0
    ensures WithinBudget(e, windowSec, max, hits, from, to)
  {
    var earlier := hits[..0];
    var now := hits[0].fetch;
    assert CountAfter(e, windowSec, earlier) == match e case None => 0 case Some(entry) => CountOf(entry.value);
    assert OpenedAt(e, windowSec, earlier) == None && AllowedWithin(e, windowSec, max, earlier, from, to) == 0;
    if e.None? {
      assert CountAfter(e, windowSec, hits) == 1;
    } else {
      BudgetStep(Carried(e, max), max, from, to, 0, CountAfter(e, windowSec, earlier), None, now,
                 now, CountAfter(e, windowSec, hits), OpenedAt(e, windowSec, hits));
    }
  }

  // The last hit counted on in the window already open, or opened one because there was none.
  lemma HitCounts(e: Option<Entry>, windowSec: int, hits: seq<Readings>)
    requires hits != []
    ensures var n := |hits| - 1;
      if Live(EntryAfter(e, windowSec, hits[..n]), hits[n].fetch).Some?
      then CountAfter(e, windowSec, hits) == CountAfter(e, windowSec, hits[..n]) + 1
           && OpenedAt(e, windowSec, hits) == OpenedAt(e, windowSec, hits[..n])
      else CountAfter(e, windowSec, hits) == 1 && OpenedAt(e, windowSec, hits) == Some(hits[n].fetch)
  {
  }

  // And then the one before it had run its length.
  lemma RanItsLength(e: Option<Entry>, windowSec: int, hits: seq<Readings>)
    requires MonotoneHits(hits) && windowSec > 0 && hits != []
    requires forall i :: 0 <= i < |hits| ==> hits[i].fetch > 0
    requires Live(EntryAfter(e, windowSec, hits[..|hits| - 1]), hits[|hits| - 1].fetch).None?
    requires OpenedAt(e, windowSec, hits[..|hits| - 1]).Some?
    ensures OpenedAt(e, windowSec, hits[..|hits| - 1]).value + windowSec * 1000 <= hits[|hits| - 1].fetch
  {
    WindowLasts(e, windowSec, hits[..|hits| - 1]);
  }

  lemma BudgetNext(e: Option<Entry>, windowSec: int, max: nat, hits: seq<Readings>, from: int, to: int)
    requires MonotoneHits(hits) && windowSec > 0 && from <= to < from + windowSec * 1000 && |hits| > 1
    requires forall i :: 0 <= i < |hits| ==> hits[i].fetch > 0
    requires WithinBudget(e, windowSec, max, hits[..|hits| - 1], from, to)
    ensures WithinBudget(e, windowSec, max, hits, from, to)
  {
    var n := |hits| - 1;
    var earlier := hits[..n];
    var now := hits[n].fetch;
    var since := OpenedAt(e, windowSec, earlier);
    assert earlier[n - 1] == hits[n - 1];
    HitCounts(e, windowSec, hits);
    if Live(EntryAfter(e, windowSec, earlier), now).None? {
      if since.Some? {
        RanItsLength(e, windowSec, hits);
      } else if e.None? {
        NeverUnopened(windowSec, earlier);
      }
    }
    BudgetStep(Carried(e, max), max, from, to, AllowedWithin(e, windowSec, max, earlier, from, to),
               CountAfter(e, windowSec, earlier), since, hits[n - 1].fetch,
               now, CountAfter(e, windowSec, hits), OpenedAt(e, windowSec, hits));
  }

  lemma {:induction false} BudgetKept(e: Option<Entry>, windowSec: int, max: nat, hits: seq<Readings>, from: int, to: int)
    requires MonotoneHits(hits) && windowSec > 0 && from <= to < from + windowSec * 1000 && hits != []
    requires forall i :: 0 <= i < |hits| ==> hits[i].fetch > 0
    ensures WithinBudget(e, windowSec, max, hits, from, to)
  {
    if |hits| == 1 {
      BudgetStarts(e, windowSec, max, hits, from, to);
    } else {
      BudgetKept(e, windowSec, max, hits[..|hits| - 1], from, to);
      BudgetNext(e, windowSec, max, hits, from, to);
    }
  }

  lemma {:induction false} NeverUnopened(windowSec: int, hits: seq<Readings>)
    requires hits != []
    ensures OpenedAt(None, windowSec, hits).Some?
  {
    if |hits| > 1 {
      NeverUnopened(windowSec, hits[..|hits| - 1]);
    }
  }

  function At(ms: int): Readings {
    Readings(ms, ms, ms, ms, ms)
  }

  function Burst(n: nat, ms: int): (hits: seq<Readings>)
    ensures |hits| == n && forall i :: 0 <= i < n ==> hits[i] == At(ms)
  {
    if n == 0 then [] else Burst(n - 1, ms) + [At(ms)]
  }

  lemma OneMore(e: Option<Entry>, windowSec: int, max: nat, hits: seq<Readings>, t: Readings, from: int, to: int)
    ensures EntryAfter(e, windowSec, hits + [t]) == Some(AfterHit(EntryAfter(e, windowSec, hits), windowSec, t))
    ensures AllowedWithin(e, windowSec, max, hits + [t], from, to)
         == AllowedWithin(e, windowSec, max, hits, from, to)
            + (if from <= t.fetch <= to && CountAfter(e, windowSec, hits + [t]) <= max then 1 else 0)
  {
    assert (hits + [t])[..|hits|] == hits;
  }

  lemma LateHit(e: Entry, windowSec: int, ms: int)
    requires 0 < ms && e.expiresAt.Some? && ms < e.expiresAt.value <= ms + 1000
    ensures AfterHit(Some(e), windowSec, At(ms)) == Entry(Counter(CountOf(e.value) + 1), Some(ms + 1000))
  {
  }

  // Requests that all come in the last second of a window: they count on, and put its end one second off.
  lemma {:induction false} LateBurst(e: Option<Entry>, windowSec: int, max: nat, hits: seq<Readings>, n: nat, ms: int, to: int)
    requires windowSec > 0 && 0 < ms <= to
    requires EntryAfter(e, windowSec, hits).Some? && EntryAfter(e, windowSec, hits).value.expiresAt.Some?
    requires ms < EntryAfter(e, windowSec, hits).value.expiresAt.value <= ms + 1000
    ensures EntryAfter(e, windowSec, hits + Burst(n, ms)).Some?
    ensures CountAfter(e, windowSec, hits + Burst(n, ms)) == CountAfter(e, windowSec, hits) + n
    ensures EntryAfter(e, windowSec, hits + Burst(n, ms)).value.expiresAt
         == if n == 0 then EntryAfter(e, windowSec, hits).value.expiresAt else Some(ms + 1000)
    ensures AllowedWithin(e, windowSec, max, hits + Burst(n, ms), ms, to)
         == AllowedWithin(e, windowSec, max, hits, ms, to)
            + Min(CountAfter(e, windowSec, hits) + n, max) - Min(CountAfter(e, windowSec, hits), max)
  {
    if n == 0 {
      assert hits + Burst(n, ms) == hits;
    } else {
      var most := hits + Burst(n - 1, ms);
      LateBurst(e, windowSec, max, hits, n - 1, ms, to);
      assert hits + Burst(n, ms) == most + [At(ms)];
      OneMore(e, windowSec, max, most, At(ms), ms, to);
      LateHit(EntryAfter(e, windowSec, most).value, windowSec, ms);
    }
  }

  lemma NewHit(e: Option<Entry>, windowSec: int, n: nat, ms: int)
    requires windowSec > 0 && 0 < ms
    requires if n == 0 then Live(e, ms).None? else e == Some(Entry(Counter(n), Some(ms + windowSec * 1000)))
    ensures AfterHit(e, windowSec, At(ms)) == Entry(Counter(n + 1), Some(ms + windowSec * 1000))
  {
  }

  // Requests that come at once after a window has ended.
  lemma {:induction false} NewBurst(e: Option<Entry>, windowSec: int, max: nat, hits: seq<Readings>, n: nat, from: int, ms: int)
    requires windowSec > 0 && 0 < from <= ms && 0 < n && Live(EntryAfter(e, windowSec, hits), ms).None?
    ensures EntryAfter(e, windowSec, hits + Burst(n, ms)) == Some(Entry(Counter(n), Some(ms + windowSec * 1000)))
    ensures AllowedWithin(e, windowSec, max, hits + Burst(n, ms), from, ms)
         == AllowedWithin(e, windowSec, max, hits, from, ms) + Min(n, max)
  {
    var most := hits + Burst(n - 1, ms);
    assert hits + Burst(n, ms) == most + [At(ms)];
    OneMore(e, windowSec, max, most, At(ms), from, ms);
    if n == 1 {
      assert most == hits;
    } else {
      NewBurst(e, windowSec, max, hits, n - 1, from, ms);
    }
    NewHit(EntryAfter(e, windowSec, most), windowSec, n - 1, ms);
  }

  // A burst in the last second of a window and another when that second is over.
  lemma TwoBursts(e: Option<Entry>, windowSec: int, max: nat, hits: seq<Readings>, n: nat, ms: int)
    requires windowSec > 0 && 0 < ms && AllowedWithin(e, windowSec, max, hits, ms, ms + 1000) == 0
    requires EntryAfter(e, windowSec, hits).Some? && EntryAfter(e, windowSec, hits).value.expiresAt.Some?
    requires ms < EntryAfter(e, windowSec, hits).value.expiresAt.value <= ms + 1000
    ensures AllowedWithin(e, windowSec, max, hits + Burst(n, ms) + Burst(max, ms + 1000), ms, ms + 1000)
         == Min(CountAfter(e, windowSec, hits) + n, max) - Min(CountAfter(e, windowSec, hits), max) + max
  {
    var first := hits + Burst(n, ms);
    LateBurst(e, windowSec, max, hits, n, ms, ms + 1000);
    if max > 0 {
      NewBurst(e, windowSec, max, first, max, ms, ms + 1000);
    } else {
      assert first + Burst(0, ms + 1000) == first;
    }
  }

  lemma FirstHit(windowSec: int, max: nat, end: int)
    requires end == windowSec * 1000 > 1
    ensures EntryAfter(None, windowSec, [At(1)]) == Some(Entry(Counter(1), Some(1 + end)))
    ensures AllowedWithin(None, windowSec, max, [At(1)], end, end + 1000) == 0
  {
    OneMore(None, windowSec, max, [], At(1), end, end + 1000);
    assert [] + [At(1)] == [At(1)];
  }

  /** The whole seconds between each request and the next, added up. */
  function WholeSeconds(hits: seq<Readings>): int {
    if |hits| <= 1 then 0
    else
      var n := |hits| - 1;
      WholeSeconds(hits[..n]) + (hits[n].fetch - hits[n - 1].fetch) / 1000
  }

  // Requests that read the clock once.
  ghost predicate SingleReadings(hits: seq<Readings>) {
    MonotoneHits(hits) && forall i :: 0 <= i < |hits| ==> 0 < hits[i].fetch == hits[i].report
  }

  // The entry after n requests between which `spent` whole seconds have gone, the last of them at `last`.
  ghost predicate Spent(e: Entry, windowSec: int, last: int, spent: int, n: nat) {
    && CountOf(e.value) <= n
    && (CountOf(e.value) == n <==> spent < windowSec)
    && (spent < windowSec ==> e.expiresAt == Some(last + 1000 * (windowSec - spent)))
  }

  lemma HitInWindow(at: int, last: int, left: int, now: int)
    requires last <= now && 0 < left && at == last + 1000 * left
    ensures at <= now <==> (now - last) / 1000 >= left
    ensures now < at ==> CeilSeconds(at - now) == left - (now - last) / 1000
  {
  }

  lemma SpentStep(e: Entry, windowSec: int, last: int, spent: int, n: nat, t: Readings)
    requires Spent(e, windowSec, last, spent, n) && 0 < n && 0 < windowSec
    requires t.Monotone() && 0 < last <= t.fetch == t.report
    ensures Spent(AfterHit(Some(e), windowSec, t), windowSec, t.fetch, spent + (t.fetch - last) / 1000, n + 1)
  {
    if spent < windowSec {
      HitInWindow(e.expiresAt.value, last, windowSec - spent, t.fetch);
    }
  }

  lemma {:induction false} SpentAfter(windowSec: int, hits: seq<Readings>)
    requires windowSec > 0 && SingleReadings(hits) && hits != []
    ensures Spent(EntryAfter(None, windowSec, hits).value, windowSec, hits[|hits| - 1].fetch, WholeSeconds(hits), |hits|)
  {
    var n := |hits| - 1;
    if n > 0 {
      var before := hits[..n];
      SpentAfter(windowSec, before);
      assert before[n - 1] == hits[n - 1] && hits[n - 1].report <= hits[n].fetch;
      SpentStep(EntryAfter(None, windowSec, before).value, windowSec, hits[n - 1].fetch, WholeSeconds(before), n, hits[n]);
    }
  }
}
