/** The mutation tracker: time-stamped markers per key, pruned by a background sweep. Times and
    durations are in nanoseconds. Only string keys are tracked.
 */
module ChangeSet {
  import opened Options

  datatype Key = Str(s: string) | Other(n: int)

  const DEFAULT_GC_INTERVAL := 300_000_000_000

  function Marker(changes: map<string, int>, s: string): Option<int> {
    if s in changes then Some(changes[s]) else None
  }

  /** The marker was set strictly after the given time. */
  predicate Since(marker: Option<int>, time: int) {
    marker.Some? && time < marker.value
  }

  /** What a sweep at the given tick leaves of a marker. */
  function Swept(marker: Option<int>, tick: int, gcInterval: int): Option<int> {
    if marker.Some? && marker.value < tick - gcInterval then None else marker
  }

  class ChangeSet {
    var changes: map<string, int>
    const gcInterval: int

    constructor (gcInterval: int)
      ensures changes == map[] && this.gcInterval > 0
      ensures gcInterval > 0 ==> this.gcInterval == gcInterval
      ensures gcInterval <= 0 ==> this.gcInterval == DEFAULT_GC_INTERVAL
    {
      this.changes := map[];
      this.gcInterval := if gcInterval <= 0 then DEFAULT_GC_INTERVAL else gcInterval;
    }

    /** Every string among keys gets the marker now, older or newer markers notwithstanding. */
    method Mark(keys: seq<Key>, now: int)
      modifies this
      ensures forall s :: s in changes <==> Str(s) in keys || s in old(changes)
      ensures forall s :: s in changes ==> changes[s] == if Str(s) in keys then now else old(changes)[s]
      ensures forall s :: Marker(changes, s) == if Str(s) in keys then Some(now) else Marker(old(changes), s)
    {
      for i := 0 to |keys|
        invariant forall s :: Marker(changes, s) == if Str(s) in keys[..i] then Some(now) else Marker(old(changes), s)
      {
        if keys[i].Str? {
          changes := changes[keys[i].s := now];
        }
      }
    }

    method Changed(key: Key, since: int) returns (r: bool)
      ensures r <==> key.Str? && key.s in changes && since < changes[key.s]
      ensures r <==> key.Str? && Since(Marker(changes, key.s), since)
    {
      if !key.Str? {
        return false;
      }
      if key.s !in changes {
        return false;
      }
      r := changes[key.s] > since;
    }

    method Clear(keys: seq<Key>)
      modifies this
      ensures forall s :: s in changes <==> Str(s) !in keys && s in old(changes)
      ensures forall s :: s in changes ==> changes[s] == old(changes)[s]
      ensures forall s :: Marker(changes, s) == if Str(s) in keys then None else Marker(old(changes), s)
    {
      for i := 0 to |keys|
        invariant forall s :: Marker(changes, s) == if Str(s) in keys[..i] then None else Marker(old(changes), s)
      {
        if keys[i].Str? {
          changes := changes - {keys[i].s};
        }
      }
    }

    /** One sweep, for the tick of time now; the keys come in no particular order. Exactly the markers that
        are older than the interval go. */
    method Sweep(now: int)
      modifies this
      ensures forall s :: s in changes <==> s in old(changes) && now - gcInterval <= old(changes)[s]
      ensures forall s :: s in changes ==> changes[s] == old(changes)[s]
      ensures forall s :: Marker(changes, s) == Swept(Marker(old(changes), s), now, gcInterval)
    {
      var cutoff := now - gcInterval;
      var rest := changes.Keys;
      while rest != {}
        invariant rest <= changes.Keys
        invariant forall s :: Marker(changes, s) ==
                    if s in rest then Marker(old(changes), s) else Swept(Marker(old(changes), s), now, gcInterval)
      {
        var k :| k in rest;
        if changes[k] < cutoff {
          changes := changes - {k};
        }
        rest := rest - {k};
      }
    }
  }
}
