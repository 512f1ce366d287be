/**
 The in-process store of job reservations. Expired entries are deleted late: by the lookup that
 meets one, or by the purge at the next reservation. Seen from outside it is a store that never
 deletes and only compares times.
 */
module JobIdempotencyStore {
  import opened Wrappers

  type Time = real

  datatype Entry = Entry(jobId: string, expiresAt: Time)

  type Entries = map<string, Entry>

  predicate Expired(entry: Entry, now: Time) {
    now > entry.expiresAt
  }

  /** The live reservations. */
  function View(entries: Entries, now: Time): (live: map<string, string>) {
    map key | key in entries && !Expired(entries[key], now) :: entries[key].jobId
  }

  function LookUp(live: map<string, string>, key: string): (jobId: Option<string>) {
    if key in live then Some(live[key]) else None
  }

  /** No one who looks at `now` or later can tell the two tables apart. */
  ghost predicate SameFrom(a: Entries, b: Entries, now: Time) {
    forall later :: now <= later ==> View(a, later) == View(b, later)
  }

  function GetStep(entries: Entries, key: string, now: Time): (r: (Entries, Option<string>)) {
    if key !in entries then (entries, None)
    else if Expired(entries[key], now) then (entries - {key}, None)
    else (entries, Some(entries[key].jobId))
  }

  function Purge(entries: Entries, now: Time): (kept: Entries) {
    map key | key in entries && !Expired(entries[key], now) :: entries[key]
  }

  /** The purge and the new entry's expiry read the clock one after the other. */
  function ReserveStep(ttl: Time, entries: Entries, key: string, jobId: string, purgeAt: Time,
                       stamp: Time): (r: (Entries, bool)) {
    var kept := Purge(entries, purgeAt);
    if key in kept then (kept, false)
    else (kept[key := Entry(jobId, stamp + ttl)], true)
  }

  /** A lookup answers from the live reservations and changes none of them, now or later. */
  lemma GetReadsView(entries: Entries, key: string, now: Time)
    ensures GetStep(entries, key, now).1 == LookUp(View(entries, now), key)
    ensures SameFrom(GetStep(entries, key, now).0, entries, now)
  {
  }

  lemma PurgeKeepsView(entries: Entries, now: Time)
    ensures SameFrom(Purge(entries, now), entries, now)
  {
  }

  /** A reservation succeeds exactly when the key has no live one, and adds that reservation and nothing else. */
  lemma ReserveAddsToView(ttl: Time, entries: Entries, key: string, jobId: string, purgeAt: Time, stamp: Time)
    ensures var (after, ok) := ReserveStep(ttl, entries, key, jobId, purgeAt, stamp);
            && (ok <==> key !in View(entries, purgeAt))
            && SameFrom(after, if ok then entries[key := Entry(jobId, stamp + ttl)] else entries, purgeAt)
  {
  }

  class MemoryJobIdempotencyStore {
    const ttlSeconds: Time
    var entries: Entries

    constructor (ttlSeconds: Time)
      ensures this.ttlSeconds == ttlSeconds && entries == map[]
    {
      this.ttlSeconds, entries := ttlSeconds, map[];
    }

    method Get(key: string, now: Time) returns (jobId: Option<string>)
      modifies this
      ensures (entries, jobId) == GetStep(old(entries), key, now)
      ensures jobId == LookUp(View(old(entries), now), key)
      ensures SameFrom(entries, old(entries), now)
    {
      GetReadsView(entries, key, now);
      if key !in entries {
        return None;
      }
      var entry := entries[key];
      if now > entry.expiresAt {
        entries := entries - {key};
        return None;
      }
      return Some(entry.jobId);
    }

    method PurgeExpired(now: Time)
      modifies this
      ensures entries == Purge(old(entries), now)
    {
      var expired := set key | key in entries && now > entries[key].expiresAt;
      while expired != {}
        invariant expired <= entries.Keys <= old(entries).Keys
        invariant forall key :: key in old(entries) ==>
          (key in entries <==> key in expired || !Expired(old(entries)[key], now))
        invariant forall key :: key in entries ==> entries[key] == old(entries)[key]
        invariant forall key :: key in expired ==> Expired(old(entries)[key], now)
        decreases |expired|
      {
        var key :| key in expired;
        entries := entries - {key};
        expired := expired - {key};
      }
    }

    method Reserve(key: string, jobId: string, purgeAt: Time, stamp: Time) returns (ok: bool)
      modifies this
      ensures (entries, ok) == ReserveStep(ttlSeconds, old(entries), key, jobId, purgeAt, stamp)
      ensures ok <==> key !in View(old(entries), purgeAt)
      ensures var entry := Entry(jobId, stamp + ttlSeconds);
              SameFrom(entries, if ok then old(entries)[key := entry] else old(entries), purgeAt)
    {
      ReserveAddsToView(ttlSeconds, entries, key, jobId, purgeAt, stamp);
      PurgeExpired(purgeAt);
      if key in entries {
        return false;
      }
      entries := entries[key := Entry(jobId, stamp + ttlSeconds)];
      return true;
    }
  }
}
