/** Driver.Query for one key with a change set, written as the calls it makes, and proved to follow
    the automaton of Staleness step by step. Between any two of its calls the rest of the world
    moves: other queries, marks, sweeps, losses, time.
 */
module QueryPath {
  import opened ChangeSet
  import opened Options
  import opened Staleness

  /** The cache entry of the key, the change set, the clock, and everybody who uses them. */
  class Site {
    const cfg: Config
    const key: string
    const changes: ChangeSet
    var world: World
    var schedule: seq<seq<Action>>
    ghost var ws: seq<World>
    ghost var acts: seq<Action>

    constructor (cfg: Config, key: string)
      requires cfg.gc > 0
      ensures Valid() && this.cfg == cfg && this.key == key && acts == []
    {
      this.cfg, this.key := cfg, key;
      changes := new ChangeSet(cfg.gc);
      world := World(0, None, None, -1, map[]);
      schedule := [];
      ws, acts := [World(0, None, None, -1, map[])], [];
    }

    /** The state is one that the automaton reaches, and the marker is that of the change set. */
    ghost predicate Valid()
      reads this, changes
    {
      && Run(cfg, ws, acts) && ws[|acts|] == world
      && changes.gcInterval == cfg.gc > 0 && Marker(changes.changes, key) == world.marker
    }

    ghost predicate Extends(before: seq<Action>, wsBefore: seq<World>)
      reads this
    {
      before <= acts && wsBefore <= ws
    }

    method Take(a: Action)
      requires Valid()
      modifies `world, `ws, `acts, changes
      ensures Valid() && acts == old(acts) + [a] && world == Step(cfg, old(world), a) && ws == old(ws) + [world]
    {
      match a {
        case Mark(t) => if t <= world.now { changes.Mark([Str(key)], t); }
        case Sweep(n) => if n > 0 && cfg.started + n * cfg.gc <= world.now { changes.Sweep(cfg.started + n * cfg.gc); }
        case Move(q, _) => if q in world.queries && world.queries[q].MidClear() { changes.Clear([Str(key)]); }
        case _ =>
      }
      world := Step(cfg, world, a);
      ws := ws + [world];
      acts := acts + [a];
    }

    /** Everybody but query q moves. */
    method Turn(q: nat)
      requires Valid() && q in world.queries
      modifies this, changes
      ensures Valid() && Extends(old(acts), old(ws)) && q in world.queries
      ensures world.queries[q].pc == old(world.queries[q].pc) && world.queries[q].mark == old(world.queries[q].mark)
    {
      if schedule == [] {
        return;
      }
      var moves := schedule[0];
      schedule := schedule[1..];
      for k := 0 to |moves|
        invariant Valid() && Extends(old(acts), old(ws)) && q in world.queries
        invariant world.queries[q].pc == old(world.queries[q].pc) && world.queries[q].mark == old(world.queries[q].mark)
      {
        if !moves[k].Move? || moves[k].q != q {
          TakeOther(moves[k], q);
        }
      }
    }

    method TakeOther(a: Action, ghost q: nat)
      requires Valid() && q in world.queries && !(a.Move? && a.q == q)
      modifies `world, `ws, `acts, changes
      ensures Valid() && Extends(old(acts), old(ws)) && q in world.queries
      ensures world.queries[q].pc == old(world.queries[q].pc) && world.queries[q].mark == old(world.queries[q].mark)
    {
      OtherQuery(cfg, world, a, q);
      Take(a);
    }
  }

  lemma OtherQuery(cfg: Config, w: World, a: Action, q: nat)
    requires q in w.queries && !(a.Move? && a.q == q)
    ensures var w' := Step(cfg, w, a);
            q in w'.queries && w'.queries[q].pc == w.queries[q].pc && w'.queries[q].mark == w.queries[q].mark
  {
  }

  /** One round of the lock loop: the query may load, or it waits, and then the wait asks for
      another round or comes back. */
  datatype Round = Load | Retry | Await

  datatype Answer = Hit(e: Stored) | WaitHit(e: Stored) | Kept | NotKept

  /** Where the automaton stands when Query has answered. */
  predicate Answered(pc: Pc, r: Answer) {
    match r
    case Hit(e) => pc.Served? && pc.e == e
    case WaitHit(e) => pc == ServedByWait(e)
    case Kept => pc.Loaded?
    case NotKept => pc.Failed?
  }

  /** The driver, as far as it concerns one key-addressed query. */
  class KeyedDriver {
    const site: Site

    constructor (site: Site)
      ensures this.site == site
    {
      this.site := site;
    }

    /** The query's next step, after everybody else has moved. */
    method Go(q: nat, take: bool) returns (ghost w: World)
      requires site.Valid() && q in site.world.queries
      modifies site, site.changes
      ensures site.Valid() && site.Extends(old(site.acts), old(site.ws))
      ensures q in w.queries && w.queries[q].pc == old(site.world.queries[q].pc)
      ensures site.world == Advance(site.cfg, w, q, take) && q in site.world.queries
      ensures site.world.queries[q].mark == old(site.world.queries[q].mark)
    {
      site.Turn(q);
      w := site.world;
      site.Take(Move(q, take));
    }

    /** The lookup, and the eviction of an entry that has changed since. */
    method FromCache(q: nat) returns (hit: Option<Stored>)
      requires site.Valid() && q in site.world.queries && site.world.queries[q].pc.Begun?
      modifies site, site.changes
      ensures site.Valid() && site.Extends(old(site.acts), old(site.ws)) && q in site.world.queries
      ensures if hit.Some? then Answered(site.world.queries[q].pc, Hit(hit.value)) else site.world.queries[q].pc.Missed?
      ensures site.world.queries[q].mark == old(site.world.queries[q].mark)
    {
      site.Turn(q);
      var found := Lookup(site.cfg, site.world);
      site.Take(Move(q, true));
      if found.None? {
        return None;
      }
      site.Turn(q);
      var changed := site.changes.Changed(Str(site.key), site.world.now - site.cfg.ttl);
      site.Take(Move(q, true));
      if !changed {
        return found;
      }
      Evict(q);
      hit := None;
    }

    /** Del, then Clear. */
    method Evict(q: nat)
      requires site.Valid() && q in site.world.queries && site.world.queries[q].pc.EvictDel?
      modifies site, site.changes
      ensures site.Valid() && site.Extends(old(site.acts), old(site.ws)) && q in site.world.queries
      ensures site.world.queries[q].pc.Missed? && site.world.queries[q].mark == old(site.world.queries[q].mark)
    {
      var _ := Go(q, true);
      var _ := Go(q, true);
    }

    /** The lock loop: it ends with an entry that the wait came back with, or with the load ahead. */
    method LockLoop(q: nat, rounds: seq<Round>) returns (waited: Option<Stored>)
      requires site.Valid() && q in site.world.queries && site.world.queries[q].pc.Missed?
      modifies site, site.changes
      ensures site.Valid() && site.Extends(old(site.acts), old(site.ws)) && q in site.world.queries
      ensures var pc := site.world.queries[q].pc;
              if waited.Some? then Answered(pc, WaitHit(waited.value)) else pc.Loading?
      ensures waited.Some? ==> FoundLive(site.cfg, site.ws, site.acts, |site.acts|, q, waited.value, false)
      ensures site.world.queries[q].mark == old(site.world.queries[q].mark)
    {
      for k := 0 to |rounds|
        invariant site.Valid() && site.Extends(old(site.acts), old(site.ws)) && q in site.world.queries
        invariant site.world.queries[q].pc.Missed? && site.world.queries[q].mark == old(site.world.queries[q].mark)
      {
        if rounds[k].Load? {
          break;
        }
        var _ := Go(q, false);
        if rounds[k].Await? {
          waited := Wake(q);
          return;
        }
        var _ := Go(q, false);
      }
      var _ := Go(q, true);
      waited := None;
    }

    /** The end of a wait: a Get. */
    method Wake(q: nat) returns (found: Option<Stored>)
      requires site.Valid() && q in site.world.queries && site.world.queries[q].pc.Waiting?
      modifies site, site.changes
      ensures site.Valid() && site.Extends(old(site.acts), old(site.ws)) && q in site.world.queries
      ensures var pc := site.world.queries[q].pc;
              if found.Some? then Answered(pc, WaitHit(found.value)) else pc.Loading?
      ensures found.Some? ==> FoundLive(site.cfg, site.ws, site.acts, |site.acts|, q, found.value, false)
      ensures site.world.queries[q].mark == old(site.world.queries[q].mark)
    {
      site.Turn(q);
      found := Lookup(site.cfg, site.world);
      site.Take(Move(q, true));
      ServedWasLive(site.cfg, site.ws, site.acts, |site.acts|, q);
    }

    /** The load: it reads the rows, and stores them when the consumer closes. */
    method LoadAndStore(q: nat, answers: bool, stores: bool) returns (r: Answer)
      requires site.Valid() && q in site.world.queries && site.world.queries[q].pc.Loading?
      modifies site, site.changes
      ensures site.Valid() && site.Extends(old(site.acts), old(site.ws)) && q in site.world.queries
      ensures r == (if answers && stores then Kept else NotKept) && Answered(site.world.queries[q].pc, r)
      ensures site.world.queries[q].mark == old(site.world.queries[q].mark)
    {
      var _ := Go(q, answers);
      if !answers {
        return NotKept;
      }
      var _ := Go(q, stores);
      if !stores {
        return NotKept;
      }
      var _ := Go(q, true);
      r := Kept;
    }

    /** One call. Its answer is the automaton's. An entry is served only if it was live when it was looked up,
        and one that a wait finds live is served. What it waited for was stored after every mark that had
        landed before the call. Its rows are not older than such a mark if the run is harmless; nor are
        those of an entry found in the cache, if the ttl is safe and the query prompt, too. */
    method Query(q: nat, rounds: seq<Round>, answers: bool, stores: bool) returns (r: Answer)
      requires site.Valid() && q !in site.world.queries
      modifies site, site.changes
      ensures site.Valid() && site.Extends(old(site.acts), old(site.ws)) && q in site.world.queries
      ensures Answered(site.world.queries[q].pc, r)
      ensures r.Hit? ==> FoundLive(site.cfg, site.ws, site.acts, |site.acts|, q, r.e, true)
      ensures r.WaitHit? ==> FoundLive(site.cfg, site.ws, site.acts, |site.acts|, q, r.e, false)
      ensures forall j, e :: 0 <= j < |site.acts| && WaitFinds(site.cfg, site.ws, site.acts, j, q, e) ==>
                r == WaitHit(e)
      ensures r.Kept? || r.NotKept? ==> r.Kept? == (answers && stores)
      ensures r.WaitHit? ==> old(site.world.lastMark) <= r.e.seen <= r.e.at
      ensures r.WaitHit? && Harmless(site.cfg, site.ws, site.acts) ==> old(site.world.lastMark) <= r.e.read
      ensures Harmless(site.cfg, site.ws, site.acts) && SafeTtl(site.cfg) ==>
                r.Hit? && Prompt(site.cfg, site.world.queries[q]) ==> old(site.world.lastMark) <= r.e.read
    {
      site.Take(Begin(q));
      var hit := FromCache(q);
      if hit.Some? {
        r := Hit(hit.value);
      } else {
        var waited := LockLoop(q, rounds);
        if waited.Some? {
          r := WaitHit(waited.value);
        } else {
          r := LoadAndStore(q, answers, stores);
        }
      }
      ServedIsLive(site, q, r);
      ServedIsNotStale(site, q, r);
    }
  }

  /** At step j a wait of query q comes back while the live entry e is in the cache. */
  ghost predicate WaitFinds(cfg: Config, ws: seq<World>, acts: seq<Action>, j: nat, q: nat, e: Stored)
    requires j < |acts| < |ws|
  {
    LooksUp(ws, acts, j, q) && ws[j].queries[q].pc.Waiting? && LiveEntry(cfg, ws[j], e)
  }

  lemma ServedIsLive(site: Site, q: nat, r: Answer)
    requires site.Valid() && q in site.world.queries && Answered(site.world.queries[q].pc, r)
    ensures r.Hit? ==> FoundLive(site.cfg, site.ws, site.acts, |site.acts|, q, r.e, true)
    ensures r.WaitHit? ==> FoundLive(site.cfg, site.ws, site.acts, |site.acts|, q, r.e, false)
    ensures forall j, e :: 0 <= j < |site.acts| && WaitFinds(site.cfg, site.ws, site.acts, j, q, e) ==> r == WaitHit(e)
  {
    ServedWasLive(site.cfg, site.ws, site.acts, |site.acts|, q);
    forall j: nat, e | j < |site.acts| && WaitFinds(site.cfg, site.ws, site.acts, j, q, e)
      ensures r == WaitHit(e)
    {
      LiveIsServed(site.cfg, site.ws, site.acts, j, |site.acts|, q, e);
    }
  }

  lemma ServedIsNotStale(site: Site, q: nat, r: Answer)
    requires site.Valid() && q in site.world.queries && Answered(site.world.queries[q].pc, r)
    ensures var me := site.world.queries[q];
            && (r.WaitHit? ==> me.mark <= r.e.seen <= r.e.at)
            && (Harmless(site.cfg, site.ws, site.acts) ==>
                  && (r.WaitHit? ==> me.mark <= r.e.read)
                  && (r.Hit? && SafeTtl(site.cfg) && Prompt(site.cfg, me) ==> me.mark <= r.e.read))
  {
    if r.WaitHit? {
      WaitersStaleExactly(site.cfg, site.ws, site.acts, q);
      if Harmless(site.cfg, site.ws, site.acts) {
        WaitersNeverStale(site.cfg, site.ws, site.acts, q);
      }
    }
    if r.Hit? && Harmless(site.cfg, site.ws, site.acts) && SafeTtl(site.cfg) {
      NeverStale(site.cfg, site.ws, site.acts, q);
    }
  }
}
