/** The in-process store that stands in for Redis, and the limiter on it. */
module FallbackStore {
  import opened Prelude

  // Counters are kept as decimal text in the program; other text reads as zero when incremented.
  datatype Value = Counter(n: nat) | Text(text: string)

  datatype Entry = Entry(value: Value, expiresAt: Option<int>)

  function CountOf(v: Value): nat {
    match v case Counter(n) => n case Text(_) => 0
  }

  predicate Expired(e: Entry, now: int) {
    e.expiresAt.Some? && e.expiresAt.value <= now
  }

  /** The entry a reader sees at `now`. */
  function Live(e: Option<Entry>, now: int): (r: Option<Entry>)
    ensures r.Some? <==> e.Some? && !Expired(e.value, now)
    ensures r.Some? ==> r == e
  {
    if e.None? || Expired(e.value, now) then None else e
  }

  function Lookup(entries: map<string, Entry>, key: string): Option<Entry> {
    if key in entries then Some(entries[key]) else None
  }

  /** Whole seconds needed to cover `ms` milliseconds. */
  function CeilSeconds(ms: int): (s: int)
    ensures 1000 * (s - 1) < ms <= 1000 * s
  {
    -((-ms) / 1000)
  }

  // One increment reads the clock up to five times: fetching the entry, re-rounding what is left of
  // its life, writing it back, and twice more when reporting the remaining time.
  datatype Readings = Readings(fetch: int, round: int, write: int, refetch: int, report: int) {
    predicate Monotone() {
      fetch <= round <= write <= refetch <= report
    }
  }

  function ExpiryAfterHit(e: Option<Entry>, ttlSec: int, t: Readings): int {
    match Live(e, t.fetch)
    case None => t.write + ttlSec * 1000
    case Some(entry) =>
      match entry.expiresAt
      case None => t.write + ttlSec * 1000
      case Some(at) =>
        if at == 0 then t.write + ttlSec * 1000
        else t.write + Max(1, CeilSeconds(at - t.round)) * 1000
  }

  /** The entry an increment leaves behind. */
  function AfterHit(e: Option<Entry>, ttlSec: int, t: Readings): Entry {
    var current := match Live(e, t.fetch) case None => 0 case Some(entry) => CountOf(entry.value);
    Entry(Counter(current + 1), Some(ExpiryAfterHit(e, ttlSec, t)))
  }

  /** The seconds to live an increment reports back, never less than one for a positive window. */
  function TtlAfterHit(e: Option<Entry>, ttlSec: int, t: Readings): (ttl: int)
    requires ttlSec > 0
    ensures ttl >= 1
  {
    if Live(e, t.fetch).None? then ttlSec
    else Max(1, TtlOf(Some(AfterHit(e, ttlSec, t)), t.refetch, t.report))
  }

  // An entry that runs out between being written and being read back is dropped again.
  function EntriesAfterHit(entries: map<string, Entry>, key: string, ttlSec: int, t: Readings): map<string, Entry> {
    var e := Lookup(entries, key);
    var written := AfterHit(e, ttlSec, t);
    if Live(e, t.fetch).Some? && Expired(written, t.refetch) then entries - {key} else entries[key := written]
  }

  /** Seconds to live as reported for an entry: -2 when absent, -1 when it never expires. */
  function TtlOf(e: Option<Entry>, fetch: int, report: int): int {
    match Live(e, fetch)
    case None => -2
    case Some(entry) =>
      match entry.expiresAt
      case None => -1
      case Some(at) => Max(0, CeilSeconds(at - report))
  }

  /** When a hit's window ends: a whole window from now for a key without a live entry, or whose entry never runs
      out; otherwise in as many whole seconds as cover what is left of its life, and in one at least. */
  lemma ExpiryCases(e: Option<Entry>, ttlSec: int, t: Readings)
    ensures var left := ExpiryAfterHit(e, ttlSec, t) - t.write;
      && (e.None? || Expired(e.value, t.fetch) || e.value.expiresAt.None? || e.value.expiresAt == Some(0) ==> left == ttlSec * 1000)
      && (e.Some? && !Expired(e.value, t.fetch) && e.value.expiresAt.Some? && e.value.expiresAt.value != 0 ==>
            var life := e.value.expiresAt.value - t.round;
            if life <= 1000 then left == 1000 else left % 1000 == 0 && left - 1000 < life <= left)
  {
  }

  /** What a hit reports: the window for a key that had no live entry, or else the whole seconds left, at least one. */
  lemma TtlCases(e: Option<Entry>, ttlSec: int, t: Readings)
    requires t.Monotone() && ttlSec > 0
    ensures var ttl, expiry := TtlAfterHit(e, ttlSec, t), ExpiryAfterHit(e, ttlSec, t);
      && (e.None? || Expired(e.value, t.fetch) ==> ttl == ttlSec)
      && (e.Some? && !Expired(e.value, t.fetch) ==>
            if expiry <= t.refetch || expiry - t.report <= 1000 then ttl == 1
            else 1000 * (ttl - 1) < expiry - t.report <= 1000 * ttl)
  {
  }

  class Store {
    var entries: map<string, Entry>

    constructor ()
      ensures entries == map[]
    {
      entries := map[];
    }

    /** Reading an expired entry removes it. */
    method Fetch(key: string, now: int) returns (e: Option<Entry>)
      modifies this
      ensures e == Live(Lookup(old(entries), key), now)
      ensures entries == if e.None? then old(entries) - {key} else old(entries)
    {
      if key !in entries {
        assert entries - {key} == entries;
        return None;
      }
      var entry := entries[key];
      if entry.expiresAt.Some? && entry.expiresAt.value <= now {
        entries := entries - {key};
        return None;
      }
      return Some(entry);
    }

    method Set(key: string, value: Value, ttlSec: Option<int>, now: int)
      modifies this
      ensures entries == old(entries)[key := Entry(value, if ttlSec.Some? then Some(now + ttlSec.value * 1000) else None)]
    {
      var expiresAt := if ttlSec.Some? then Some(now + ttlSec.value * 1000) else None;
      entries := entries[key := Entry(value, expiresAt)];
    }

    /** Writes only when no live entry exists, and says whether it wrote. */
    method SetNx(key: string, value: Value, ttlSec: int, fetch: int, write: int) returns (wrote: bool)
      modifies this
      ensures wrote <==> Live(Lookup(old(entries), key), fetch).None?
      ensures entries == if wrote then old(entries)[key := Entry(value, Some(write + ttlSec * 1000))] else old(entries)
    {
      var existing := Fetch(key, fetch);
      if existing.Some? {
        return false;
      }
      Set(key, value, Some(ttlSec), write);
      return true;
    }

    method Ttl(key: string, fetch: int, report: int) returns (ttl: int)
      modifies this
      ensures ttl == TtlOf(Lookup(old(entries), key), fetch, report)
      ensures key !in old(entries) || Expired(old(entries)[key], fetch) ==> ttl == -2
      ensures key in old(entries) && old(entries)[key].expiresAt.None? ==> ttl == -1
      ensures key in old(entries) && !Expired(old(entries)[key], fetch) && old(entries)[key].expiresAt.Some? ==>
        var left := old(entries)[key].expiresAt.value - report;
        if left <= 0 then ttl == 0 else 1000 * (ttl - 1) < left <= 1000 * ttl
      ensures entries == if ttl == -2 then old(entries) - {key} else old(entries)
    {
      var e := Fetch(key, fetch);
      if e.None? {
        return -2;
      }
      if e.value.expiresAt.None? {
        return -1;
      }
      return Max(0, CeilSeconds(e.value.expiresAt.value - report));
    }

    method IncrWithTtl(key: string, ttlSec: int, t: Readings) returns (count: nat, ttl: int)
      requires t.Monotone() && ttlSec > 0
      modifies this
      ensures count == CountOf(AfterHit(Lookup(old(entries), key), ttlSec, t).value)
      ensures count == 1 + (if key in old(entries) && !Expired(old(entries)[key], t.fetch) then CountOf(old(entries)[key].value) else 0)
      ensures ttl == TtlAfterHit(Lookup(old(entries), key), ttlSec, t)
      ensures entries == EntriesAfterHit(old(entries), key, ttlSec, t)
    {
      var entry := Fetch(key, t.fetch);
      var current := match entry case None => 0 case Some(e) => CountOf(e.value);
      var next := current + 1;
      if entry.None? {
        Set(key, Counter(next), Some(ttlSec), t.write);
        return next, ttlSec;
      }
      var remaining := match entry.value.expiresAt
        case None => ttlSec
        case Some(at) => if at == 0 then ttlSec else Max(1, CeilSeconds(at - t.round));
      Set(key, Counter(next), Some(remaining), t.write);
      ttl := Ttl(key, t.refetch, t.report);
      return next, Max(1, ttl);
    }

    /** Counts one request and decides it. */
    method ConsumeRateLimit(key: string, max: int, windowSec: int, t: Readings)
      returns (allowed: bool, current: nat, retryAfterSec: int)
      requires t.Monotone() && windowSec > 0
      modifies this
      ensures current == CountOf(AfterHit(Lookup(old(entries), key), windowSec, t).value)
      ensures allowed <==> current <= max
      ensures retryAfterSec == TtlAfterHit(Lookup(old(entries), key), windowSec, t)
      ensures entries == EntriesAfterHit(old(entries), key, windowSec, t)
    {
      var ttl;
      current, ttl := IncrWithTtl(key, windowSec, t);
      allowed := current <= max;
      retryAfterSec := Max(1, ttl);
    }
  }
}
