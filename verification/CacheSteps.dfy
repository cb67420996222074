/** The cache operations of Cache are the steps of Staleness, key by key. */
module CacheSteps {
  import opened Prelude
  import opened Configuration
  import opened Cache
  import opened Staleness

  function View(entries: map<string, Entry>, key: string): Option<Entry> {
    if key in entries then Some(entries[key]) else None
  }

  function InDatabase(db: map<string, FlagConfiguration>, key: string): Option<FlagConfiguration> {
    if key in db then Some(db[key]) else None
  }

  /** The entries of all other keys are left alone. */
  ghost predicate OnlyKey(before: map<string, Entry>, after: map<string, Entry>, key: string) {
    forall other :: other != key ==> View(after, other) == View(before, other)
  }

  /** What `invalidate_and_publish` leaves is a delete of that key's flag, and of no other. */
  lemma {:induction false} InvalidationIsADelete(
    limits: Limits, s: State, entries: map<string, Entry>, key: string, takes: bool)
    requires s.history != [] && s.deleting > 0 && s.entry == View(entries, key)
    ensures OnlyKey(entries, Invalidated(entries, key, takes), key)
    ensures Next(limits, s, Delete(takes),
                 s.(deleting := s.deleting - 1, entry := View(Invalidated(entries, key, takes), key)))
  {
  }

  /**
   * `load_configuration` with nothing in between: a hit, or a load, the set if the database has the
   * flag, and the answer. It serves what the method returns and leaves the entry the method leaves.
   */
  lemma {:induction false} LoadIsSteps(
    limits: Limits, s: State, entries: map<string, Entry>, db: map<string, FlagConfiguration>, key: string,
    weather: Weather, reader: int)
    returns (states: seq<State>, steps: seq<Step>)
    requires Sensible(limits) && s.history != [] && s.entry == View(entries, key) && reader !in s.readers
    requires Reads(Latest(s), InDatabase(db, key))
    ensures IsPath(limits, states, steps) && states[0] == s
    ensures var t := states[|steps|];
      && t.served == s.served + [Serving(Lookup(entries, db, weather.readFails, s.now, key), s.now)]
      && t.entry == View(entries + Refilled(entries, db, [key], weather, s.now, s.now + limits.ttl), key)
      && t.history == s.history && t.now == s.now
    ensures OnlyKey(entries, entries + Refilled(entries, db, [key], weather, s.now, s.now + limits.ttl), key)
  {
    hide Reads;
    var value := InDatabase(db, key);
    if !weather.readFails && Fresh(entries, key, s.now) {
      states, steps := [s, s.(served := s.served + [Serving(Some(entries[key].config), s.now)])], [Hit];
    } else {
      var loaded := Reader(value, s.now, false, false);
      var s1 := s.(readers := s.readers[reader := loaded]);
      if value.None? {
        var s2 := s1.(
          readers := s1.readers[reader := loaded.(answered := true)],
          served := s.served + [Serving(value, s.now)]);
        states, steps := [s, s1, s2], [Load(reader, value), Answer(reader)];
      } else {
        var takes := key in weather.writeTakes;
        var entry := if takes then Some(Entry(value.value, s.now + limits.ttl)) else s.entry;
        var s2 := s1.(readers := s1.readers[reader := loaded.(stored := true)], entry := entry);
        var s3 := s2.(
          readers := s2.readers[reader := loaded.(stored := true, answered := true)],
          served := s.served + [Serving(value, s.now)]);
        states, steps := [s, s1, s2, s3], [Load(reader, value), Store(reader, takes), Answer(reader)];
      }
    }
  }

  /** A batch touches each requested key as a load of its own would, so LoadIsSteps speaks of it key by key. */
  lemma {:induction false} BatchIsLoads(
    entries: map<string, Entry>, db: map<string, FlagConfiguration>, keys: seq<string>, weather: Weather, now: int,
    expires: int, key: string)
    ensures View(entries + Refilled(entries, db, keys, weather, now, expires), key)
         == if key in keys then View(entries + Refilled(entries, db, [key], weather, now, expires), key)
            else View(entries, key)
  {
    hide Cached;
  }
}
