/** What the fixed-window limiter guarantees for one key over any sequence of requests. */
module RateLimiter {
  import opened Prelude
  import opened FallbackStore
  import opened RateWindows

  /** In a closed interval shorter than the window no key gets more than twice its limit through,
      whatever state the key starts in, and never quite twice when it starts empty. */
  lemma AtMostTwiceTheLimit(e: Option<Entry>, windowSec: int, max: nat, hits: seq<Readings>, from: int, to: int)
    requires MonotoneHits(hits) && windowSec > 0 && from <= to < from + windowSec * 1000
    requires forall i :: 0 <= i < |hits| ==> hits[i].fetch > 0
    ensures AllowedWithin(e, windowSec, max, hits, from, to) <= 2 * max
    ensures e.None? && max > 0 ==> AllowedWithin(e, windowSec, max, hits, from, to) <= 2 * max - 1
  {
    if hits != [] {
      BudgetKept(e, windowSec, max, hits, from, to);
    }
  }

  /** The bound is met, for every limit and every window longer than a second. A key that already holds an
      entry reading as zero lets twice the limit through within 1000 ms: the limit at the entry's last
      moment, which puts the end one second off, and the limit again when that second is over. */
  lemma BoundIsMetFrom(e: Entry, windowSec: int, max: nat, ms: int)
    requires windowSec > 1 && ms > 0 && CountOf(e.value) == 0 && e.expiresAt == Some(ms + 1)
    ensures AllowedWithin(Some(e), windowSec, max, Burst(max, ms) + Burst(max, ms + 1000), ms, ms + 1000) == 2 * max
  {
    assert [] + Burst(max, ms) == Burst(max, ms);
    TwoBursts(Some(e), windowSec, max, [], max, ms);
  }

  /** And an empty key lets one less than twice the limit through: its window is opened before the interval. */
  lemma BoundIsMet(windowSec: int, max: nat)
    requires windowSec > 1 && max > 0
    ensures var end := windowSec * 1000;
      AllowedWithin(None, windowSec, max, [At(1)] + Burst(max - 1, end) + Burst(max, end + 1000), end, end + 1000) == 2 * max - 1
  {
    FirstHit(windowSec, max, windowSec * 1000);
    TwoBursts(None, windowSec, max, [At(1)], max - 1, windowSec * 1000);
  }

  /** With one-second windows every hit puts the end a full second off, so no interval shorter than the
      window ever sees two of them: the limit itself is the bound. */
  lemma {:induction false} OneSecondWindows(e: Option<Entry>, max: nat, hits: seq<Readings>, from: int, to: int)
    requires MonotoneHits(hits) && from <= to < from + 1000
    requires forall i :: 0 <= i < |hits| ==> hits[i].fetch > 0
    ensures AllowedWithin(e, 1, max, hits, from, to) <= max
    ensures hits != [] && hits[|hits| - 1].fetch <= to ==>
      AllowedWithin(e, 1, max, hits, from, to) <= (if hits[|hits| - 1].fetch < from then 0 else CountAfter(e, 1, hits))
  {
    if hits != [] {
      var n := |hits| - 1;
      OneSecondWindows(e, max, hits[..n], from, to);
      if n > 0 {
        assert hits[..n][n - 1] == hits[n - 1];
        assert EntryAfter(e, 1, hits[..n]).value.expiresAt.value >= hits[n - 1].fetch + 1000 by {
          assert hits[..n][..n - 1] == hits[..n - 1];
        }
      }
    }
  }

  /** From an empty key the entry never outlives its last hit by more than one window, so an idle
      key's counter is gone one window after the last hit. */
  lemma {:induction false} IdleKeyForgotten(windowSec: int, hits: seq<Readings>, now: int)
    requires MonotoneHits(hits) && windowSec > 0 && hits != []
    ensures EntryAfter(None, windowSec, hits).value.expiresAt.Some?
    ensures EntryAfter(None, windowSec, hits).value.expiresAt.value <= hits[|hits| - 1].write + windowSec * 1000
    ensures now >= hits[|hits| - 1].write + windowSec * 1000 ==> Live(EntryAfter(None, windowSec, hits), now).None?
  {
    var n := |hits| - 1;
    if n > 0 {
      IdleKeyForgotten(windowSec, hits[..n], now);
      var before := EntryAfter(None, windowSec, hits[..n]);
      assert hits[..n][n - 1] == hits[n - 1];
      assert before.value.expiresAt.value <= hits[n].round + windowSec * 1000;
    }
  }

  /** When a window restarts. Every hit re-rounds what is left of it to whole seconds, so only the whole
      seconds between hits use it up: the counter has counted every request, never restarting, exactly
      while those add up to less than the window, and then the entry lives on for the difference. */
  lemma {:induction false} RestartsExactly(windowSec: int, hits: seq<Readings>)
    requires windowSec > 0 && SingleReadings(hits) && hits != []
    ensures CountAfter(None, windowSec, hits) == |hits| <==> WholeSeconds(hits) < windowSec
    ensures WholeSeconds(hits) < windowSec ==>
      EntryAfter(None, windowSec, hits).value.expiresAt == Some(hits[|hits| - 1].fetch + 1000 * (windowSec - WholeSeconds(hits)))
  {
    SpentAfter(windowSec, hits);
  }

  /** In particular requests that keep coming less than a second apart re-round the expiry to a full window
      every time: the counter is never reset, so only the first `max` are ever allowed. */
  lemma {:induction false} RapidHitsNeverReset(windowSec: int, hits: seq<Readings>)
    requires windowSec > 0 && SingleReadings(hits)
    requires forall i, j :: 0 <= i < |hits| && 0 <= j < |hits| && j == i + 1 ==> hits[j].fetch < hits[i].fetch + 1000
    ensures CountAfter(None, windowSec, hits) == |hits|
    ensures hits != [] ==> EntryAfter(None, windowSec, hits).value.expiresAt == Some(hits[|hits| - 1].fetch + windowSec * 1000)
  {
    if hits != [] {
      NoWholeSeconds(hits);
      RestartsExactly(windowSec, hits);
    }
  }

  lemma {:induction false} NoWholeSeconds(hits: seq<Readings>)
    requires SingleReadings(hits)
    requires forall i, j :: 0 <= i < |hits| && 0 <= j < |hits| && j == i + 1 ==> hits[j].fetch < hits[i].fetch + 1000
    ensures WholeSeconds(hits) == 0
  {
    if |hits| > 1 {
      var n := |hits| - 1;
      NoWholeSeconds(hits[..n]);
      assert hits[n - 1].report <= hits[n].fetch < hits[n - 1].fetch + 1000;
    }
  }

  // ----- the store runs the limiter

  /** The whole store after the requests so far for one key. */
  function EntriesAfter(entries: map<string, Entry>, key: string, windowSec: int, hits: seq<Readings>): map<string, Entry> {
    if hits == [] then entries
    else
      var n := |hits| - 1;
      EntriesAfterHit(EntriesAfter(entries, key, windowSec, hits[..n]), key, windowSec, hits[n])
  }

  lemma HitSeenAlike(entries: map<string, Entry>, key: string, e: Option<Entry>, windowSec: int, t: Readings, now: int)
    requires Live(Lookup(entries, key), t.fetch) == Live(e, t.fetch) && t.refetch <= now
    ensures AfterHit(Lookup(entries, key), windowSec, t) == AfterHit(e, windowSec, t)
    ensures Live(Lookup(EntriesAfterHit(entries, key, windowSec, t), key), now) == Live(Some(AfterHit(e, windowSec, t)), now)
    ensures EntriesAfterHit(entries, key, windowSec, t) - {key} == entries - {key}
  {
    assert EntriesAfterHit(entries, key, windowSec, t) - {key} == entries - {key};
  }

  /** What the store does to a key is what is said above of its entry: an entry that is dropped as it is
      read back had expired, so no later reader can tell, and other keys are left alone. */
  lemma {:induction false} StoreRunsTheLimiter(entries: map<string, Entry>, key: string, windowSec: int, hits: seq<Readings>, now: int)
    requires MonotoneHits(hits) && (hits != [] ==> hits[|hits| - 1].refetch <= now)
    ensures Live(Lookup(EntriesAfter(entries, key, windowSec, hits), key), now) == Live(EntryAfter(Lookup(entries, key), windowSec, hits), now)
    ensures hits != [] ==>
      AfterHit(Lookup(EntriesAfter(entries, key, windowSec, hits[..|hits| - 1]), key), windowSec, hits[|hits| - 1])
      == EntryAfter(Lookup(entries, key), windowSec, hits).value
    ensures EntriesAfter(entries, key, windowSec, hits) - {key} == entries - {key}
  {
    if hits != [] {
      var n := |hits| - 1;
      if n > 0 {
        assert hits[..n][n - 1] == hits[n - 1];
      }
      StoreRunsTheLimiter(entries, key, windowSec, hits[..n], hits[n].fetch);
      HitSeenAlike(EntriesAfter(entries, key, windowSec, hits[..n]), key,
                   EntryAfter(Lookup(entries, key), windowSec, hits[..n]), windowSec, hits[n], now);
    }
  }
}
