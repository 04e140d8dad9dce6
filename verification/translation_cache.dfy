/**
 * The in-process translation cache: translated lyric lines keyed by
 * `(track id, language)`, each entry stamped with the whole second it was
 * stored and treated as absent once it is older than the allowed age.
 */
module TranslationCache {
  import opened Wrappers

  /** One translated line as stored: its time, the original text and its translation. */
  datatype CachedLine = CachedLine(t: int, orig: string, trans: string)

  /** A stored value: when it was written (whole seconds) and the lines. */
  datatype Entry = Entry(createdAt: int, lines: seq<CachedLine>)

  /** `(track_id, lang)`. */
  type Key = (string, string)

  /** Six hours, in seconds. */
  const DefaultMaxAgeSeconds: int := 6 * 60 * 60

  /** An entry is stale once strictly more than `maxAge` seconds have passed since it was written. */
  predicate Expired(e: Entry, now: int, maxAge: int) {
    now - e.createdAt > maxAge
  }

  /** An entry is fresh up to and including `maxAge` seconds after it was written, and stale from the second after. */
  lemma ExpiredBoundary(e: Entry, maxAge: int, now: int)
    ensures Expired(e, now, maxAge) <==> now >= e.createdAt + maxAge + 1
    ensures !Expired(e, e.createdAt + maxAge, maxAge) && Expired(e, e.createdAt + maxAge + 1, maxAge)
  {
  }

  /** What a read at `now` returns: the stored lines of a present, fresh entry, and nothing otherwise. */
  function Lookup(entries: map<Key, Entry>, key: Key, now: int, maxAge: int): (r: Option<seq<CachedLine>>)
    ensures r.Some? <==> key in entries && !Expired(entries[key], now, maxAge)
    ensures r.Some? ==> r.value == entries[key].lines
  {
    if key !in entries then None
    else if Expired(entries[key], now, maxAge) then None
    else Some(entries[key].lines)
  }

  /** The table after a read at `now`: a stale entry under `key` is dropped, nothing else changes. */
  function AfterRead(entries: map<Key, Entry>, key: Key, now: int, maxAge: int): (m: map<Key, Entry>)
    ensures key in m <==> key in entries && !Expired(entries[key], now, maxAge)
    ensures forall k :: k in m ==> k in entries && m[k] == entries[k]
    ensures forall k :: k != key && k in entries ==> k in m
  {
    if key in entries && Expired(entries[key], now, maxAge) then entries - {key} else entries
  }

  /** The table after a write at `now`: `key` maps to a fresh entry holding `lines`. */
  function AfterWrite(entries: map<Key, Entry>, key: Key, lines: seq<CachedLine>, now: int): (m: map<Key, Entry>)
    ensures key in m && m[key] == Entry(now, lines)
    ensures forall k :: k != key ==> (k in m <==> k in entries)
    ensures forall k :: k != key && k in entries ==> m[k] == entries[k]
  {
    entries[key := Entry(now, lines)]
  }

  /** The module-level table, with reads that evict lazily and writes that overwrite. */
  class Cache {
    var entries: map<Key, Entry>

    /** The table starts empty. */
    constructor()
      ensures entries == map[]
    {
      entries := map[];
    }

    /**
     * `get_cached`: the lines stored under `(trackId, lang)` unless the entry
     * is missing or older than `maxAge` seconds at `now`; a stale entry is
     * removed on the way.
     */
    method GetCached(trackId: string, lang: string, now: int, maxAge: int) returns (r: Option<seq<CachedLine>>)
      modifies this
      ensures r == Lookup(old(entries), (trackId, lang), now, maxAge)
      ensures entries == AfterRead(old(entries), (trackId, lang), now, maxAge)
    {
      var key := (trackId, lang);
      if key !in entries {
        return None;
      }
      var item := entries[key];
      if now - item.createdAt > maxAge {
        entries := entries - {key};
        return None;
      }
      return Some(item.lines);
    }

    /** `set_cached`: store `lines` under `(trackId, lang)` stamped with `now`, replacing any earlier entry. */
    method SetCached(trackId: string, lang: string, lines: seq<CachedLine>, now: int)
      modifies this
      ensures entries == AfterWrite(old(entries), (trackId, lang), lines, now)
    {
      entries := entries[(trackId, lang) := Entry(now, lines)];
    }
  }

  // ---------------------------------------------------------------------------
  // Properties of reads and writes
  // ---------------------------------------------------------------------------

  /** Reading a key that was never stored finds nothing and leaves the table as it was. */
  lemma ReadMissing(entries: map<Key, Entry>, key: Key, now: int, maxAge: int)
    requires key !in entries
    ensures Lookup(entries, key, now, maxAge) == None
    ensures AfterRead(entries, key, now, maxAge) == entries
  {
  }

  /**
   * A read within `maxAge` seconds of the write, the last second included,
   * returns exactly the lines written; one after that finds nothing and
   * evicts the entry.
   */
  lemma WriteThenRead(entries: map<Key, Entry>, key: Key, lines: seq<CachedLine>, written: int, now: int, maxAge: int)
    ensures now - written <= maxAge ==> Lookup(AfterWrite(entries, key, lines, written), key, now, maxAge) == Some(lines)
    ensures now - written > maxAge ==> Lookup(AfterWrite(entries, key, lines, written), key, now, maxAge) == None
    ensures now - written > maxAge ==> key !in AfterRead(AfterWrite(entries, key, lines, written), key, now, maxAge)
  {
  }

  /** Once a stale entry has been read, every later read of that key finds nothing, however old it is allowed to be. */
  lemma EvictedStaysAbsent(entries: map<Key, Entry>, key: Key, now: int, maxAge: int, later: int, laterMaxAge: int)
    requires key in entries && Expired(entries[key], now, maxAge)
    ensures Lookup(AfterRead(entries, key, now, maxAge), key, later, laterMaxAge) == None
  {
  }

  /** A read that returns lines leaves the table untouched; one that returns nothing leaves no entry under the key. */
  lemma ReadOutcome(entries: map<Key, Entry>, key: Key, now: int, maxAge: int)
    ensures Lookup(entries, key, now, maxAge).Some? ==> AfterRead(entries, key, now, maxAge) == entries
    ensures Lookup(entries, key, now, maxAge).None? ==> key !in AfterRead(entries, key, now, maxAge)
  {
  }

  /** Reading the same key twice at the same time changes the table no more than reading it once. */
  lemma ReadTwice(entries: map<Key, Entry>, key: Key, now: int, maxAge: int)
    ensures var once := AfterRead(entries, key, now, maxAge);
      AfterRead(once, key, now, maxAge) == once && Lookup(once, key, now, maxAge) == Lookup(entries, key, now, maxAge)
  {
  }

  /** The last write to a key wins: the earlier lines and their time are forgotten. */
  lemma LastWriteWins(entries: map<Key, Entry>, key: Key, first: seq<CachedLine>, t1: int, second: seq<CachedLine>, t2: int)
    ensures AfterWrite(AfterWrite(entries, key, first, t1), key, second, t2) == AfterWrite(entries, key, second, t2)
  {
  }

  /** Reads and writes of one key leave what every other key returns unchanged. */
  lemma OtherKeysUnaffected(entries: map<Key, Entry>, key: Key, other: Key, lines: seq<CachedLine>, now: int, maxAge: int, at: int, age: int)
    requires other != key
    ensures Lookup(AfterWrite(entries, key, lines, now), other, at, age) == Lookup(entries, other, at, age)
    ensures Lookup(AfterRead(entries, key, now, maxAge), other, at, age) == Lookup(entries, other, at, age)
  {
  }

  /** Stored lines come back as they were stored, an empty list included: only a missing or stale entry reads as nothing. */
  lemma EmptyLinesAreCached(entries: map<Key, Entry>, key: Key, now: int, maxAge: int)
    requires 0 <= maxAge
    ensures Lookup(AfterWrite(entries, key, [], now), key, now, maxAge) == Some([])
  {
  }

  /** A write under the default age stays readable for six hours to the second, and no longer. */
  method DefaultAgeScenario() returns (atLimit: Option<seq<CachedLine>>, pastLimit: Option<seq<CachedLine>>, afterEviction: Option<seq<CachedLine>>)
    ensures atLimit == Some([CachedLine(1000, "Hello", "Hola")])
    ensures pastLimit == None && afterEviction == None
  {
    var cache := new Cache();
    var lines := [CachedLine(1000, "Hello", "Hola")];
    cache.SetCached("track", "es", lines, 100);
    atLimit := cache.GetCached("track", "es", 100 + 21600, DefaultMaxAgeSeconds);
    pastLimit := cache.GetCached("track", "es", 100 + 21601, DefaultMaxAgeSeconds);
    afterEviction := cache.GetCached("track", "es", 100, DefaultMaxAgeSeconds);
  }
}
