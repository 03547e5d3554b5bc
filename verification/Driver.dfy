/** The miss path of the driver: the lock loop, the database query, and the recorder that stores the
    rows and releases the lock when the consumer closes it.
 */
module Driver {
  import opened Options
  import opened Recorder

  datatype WaitResult = RetryLocker | Got(entry: Entry) | NoEntry | WaitFailed

  /** One round of the lock loop: LockOrWait fails, or the caller wins, with or without a release
      function, or it waits. */
  datatype Attempt = LockFailed | Won(release: bool) | Waited(result: WaitResult)

  datatype Outcome = Hit(repeater: Repeater) | DbFailed | Recording(recorder: Recorder)

  /** The rounds of one call: it returns, so there is a last one, and only that one is no retry. */
  predicate Rounds(attempts: seq<Attempt>) {
    && attempts != [] && attempts[|attempts| - 1] != Waited(RetryLocker)
    && forall i :: 0 <= i < |attempts| - 1 ==> attempts[i] == Waited(RetryLocker)
  }

  class Driver {
    var hits: nat
    const journal: Journal

    constructor (journal: Journal)
      ensures this.journal == journal && hits == 0
    {
      this.journal, this.hits := journal, 0;
    }

    /** attempts is None when the cache has no lock. */
    method QueryWithStampedeLock(attempts: Option<seq<Attempt>>, db: Rows, dbFails: bool, skipNotFound: bool)
      returns (r: Outcome)
      requires db.Valid() && (attempts.Some? ==> Rounds(attempts.value))
      modifies `hits, journal
      ensures var last := if attempts.Some? then attempts.value[|attempts.value| - 1] else LockFailed;
              var served := last.Waited? && last.result.Got?;
              var held := last == Won(true);
              && hits == old(hits) + (if served then 1 else 0)
              && (r.Hit? <==> served)
              && (served ==>
                    r.repeater.values == last.result.entry.values && r.repeater.columns == last.result.entry.columns)
              && (r.DbFailed? <==> !served && dbFails)
              && journal.events == old(journal.events) + (if r.DbFailed? && held then [Released] else [])
              && (r.Recording? ==>
                    fresh(r.recorder) && r.recorder.Valid() && r.recorder.held == held && r.recorder.tape == []
                    && r.recorder.scanner == db && r.recorder.journal == journal
                    && r.recorder.skipNotFound == skipNotFound && !r.recorder.done)
    {
      var held := false;
      if attempts.Some? {
        var i := 0;
        while attempts.value[i] == Waited(RetryLocker)
          invariant 0 <= i < |attempts.value|
          decreases |attempts.value| - i
        {
          i := i + 1;
        }
        match attempts.value[i]
        case LockFailed =>
        case Won(release) => held := release;
        case Waited(result) =>
          if result.Got? {
            hits := hits + 1;
            var repeater := new Repeater(result.entry);
            return Hit(repeater);
          }
      }
      if dbFails {
        if held {
          journal.events := journal.events + [Released];
        }
        return DbFailed;
      }
      var recorder := new Recorder(db, journal, skipNotFound, held);
      r := Recording(recorder);
    }
  }

  // ---------------------------------------------------------------- releases

  function Releases(events: seq<Event>): nat {
    if events == [] then 0 else (if events[0].Released? then 1 else 0) + Releases(events[1..])
  }

  ghost predicate StoredAfterRelease(events: seq<Event>) {
    exists i, j :: 0 <= i < j < |events| && events[i].Released? && events[j].Stored?
  }

  lemma {:induction false} ReleasesAppend(a: seq<Event>, b: seq<Event>)
    ensures Releases(a + b) == Releases(a) + Releases(b)
  {
    if a == [] {
      assert a + b == b;
    } else {
      ReleasesAppend(a[1..], b);
      assert (a + b)[1..] == a[1..] + b;
    }
  }

  /** What one Close adds. */
  function CloseEvents(stored: Option<Entry>, held: bool): seq<Event> {
    (if stored.Some? then [Stored(stored.value)] else []) + (if held then [Released] else [])
  }

  lemma OneClose(stored: Option<Entry>, held: bool)
    ensures var more := CloseEvents(stored, held);
            && Releases(more) == (if held then 1 else 0)
            && !StoredAfterRelease(more)
            && ((exists i :: 0 <= i < |more| && more[i].Released?) <==> held)
            && ((exists j :: 0 <= j < |more| && more[j].Stored?) <==> stored.Some?)
  {
    var more := CloseEvents(stored, held);
    ReleasesAppend(if stored.Some? then [Stored(stored.value)] else [], if held then [Released] else []);
    if stored.Some? {
      assert more[0].Stored?;
    }
    if held {
      assert more[|more| - 1].Released?;
    }
  }

  ghost predicate HasRelease(events: seq<Event>) {
    exists i :: 0 <= i < |events| && events[i].Released?
  }

  /** What one more Close does to the events so far. */
  lemma NextClose(before: seq<Event>, stored: Option<Entry>, held: bool)
    ensures var after := before + CloseEvents(stored, held);
            && Releases(after) == Releases(before) + (if held then 1 else 0)
            && (HasRelease(after) <==> HasRelease(before) || held)
            && (StoredAfterRelease(after) <==> StoredAfterRelease(before) || (HasRelease(before) && stored.Some?))
  {
    var more := CloseEvents(stored, held);
    var after := before + more;
    OneClose(stored, held);
    ReleasesAppend(before, more);
    AfterRelease(before, more);
    assert forall i :: 0 <= i < |before| ==> after[i] == before[i];
    assert forall i :: 0 <= i < |more| ==> after[|before| + i] == more[i];
  }

  /** A recorder that is closed n times releases its lock exactly once, at the first. Every store
      comes before the release if and only if it is closed just once, or its Close does not store:
      a second Close stores again, with the lock gone. */
  method CloseTimes(rec: Recorder, n: nat) returns (ghost added: seq<Event>)
    requires rec.Valid()
    modifies rec`held, rec.journal
    ensures rec.Valid() && rec.journal.events == old(rec.journal.events) + added
    ensures Releases(added) == if old(rec.held) && n > 0 then 1 else 0
    ensures StoredAfterRelease(added) <==> old(rec.held) && n > 1 && rec.Stores()
  {
    added := [];
    for k := 0 to n
      invariant rec.Valid() && rec.journal.events == old(rec.journal.events) + added
      invariant rec.held == (old(rec.held) && k == 0)
      invariant Releases(added) == if old(rec.held) && k > 0 then 1 else 0
      invariant k == 0 ==> added == []
      invariant HasRelease(added) <==> old(rec.held) && k > 0
      invariant StoredAfterRelease(added) <==> old(rec.held) && k > 1 && rec.Stores()
    {
      ghost var before := added;
      ghost var held := rec.held;
      var ok, stored := rec.Close();
      added := before + CloseEvents(stored, held);
      NextClose(before, stored, held);
    }
  }

  /** A release and a store after it lie in the first part, in the second, or astride. */
  lemma AfterRelease(a: seq<Event>, b: seq<Event>)
    ensures StoredAfterRelease(a + b) <==>
              || StoredAfterRelease(a) || StoredAfterRelease(b)
              || ((exists i :: 0 <= i < |a| && a[i].Released?) && (exists j :: 0 <= j < |b| && b[j].Stored?))
  {
    var s := a + b;
    if StoredAfterRelease(a) {
      var i, j :| 0 <= i < j < |a| && a[i].Released? && a[j].Stored?;
      assert s[i].Released? && s[j].Stored?;
    }
    if StoredAfterRelease(b) {
      var i, j :| 0 <= i < j < |b| && b[i].Released? && b[j].Stored?;
      assert s[|a| + i].Released? && s[|a| + j].Stored?;
    }
    if (exists i :: 0 <= i < |a| && a[i].Released?) && (exists j :: 0 <= j < |b| && b[j].Stored?) {
      var i :| 0 <= i < |a| && a[i].Released?;
      var j :| 0 <= j < |b| && b[j].Stored?;
      assert s[i].Released? && s[|a| + j].Stored?;
    }
    if StoredAfterRelease(s) {
      var i, j :| 0 <= i < j < |s| && s[i].Released? && s[j].Stored?;
      if |a| <= i {
        assert b[i - |a|].Released? && b[j - |a|].Stored?;
      } else if |a| <= j {
        assert a[i].Released? && b[j - |a|].Stored?;
      }
    }
  }

  /** The whole life of a miss, for any lock outcome, any database failure, any outcome of each Scan, and
      any consumer that closes at least once: a lock won with a release function is released exactly
      once, and nothing else is ever released. */
  method MissLife(d: Driver, attempts: Option<seq<Attempt>>, db: Rows, dbFails: bool, skipNotFound: bool,
                  plan: seq<Try>, closes: nat)
    returns (ghost added: seq<Event>)
    requires db.Valid() && db.pos == 0 && !db.ended && closes > 0 && (attempts.Some? ==> Rounds(attempts.value))
    modifies d`hits, d.journal, db, db.buffers
    ensures d.journal.events == old(d.journal.events) + added
    ensures Releases(added) == if attempts.Some? && attempts.value[|attempts.value| - 1] == Won(true) then 1 else 0
    ensures closes == 1 ==> !StoredAfterRelease(added)
  {
    var r := d.QueryWithStampedeLock(attempts, db, dbFails, skipNotFound);
    added := d.journal.events[old(|d.journal.events|)..];
    if r.Recording? {
      ReadRows(r.recorder, plan);
      added := CloseTimes(r.recorder, closes);
    }
  }
}
