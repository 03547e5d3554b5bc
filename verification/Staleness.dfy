/** Invalidation of key-addressed queries over time: the steps of Driver.Query around the cache and
    the change set, for one key, under every interleaving of any number of queries with marks,
    sweeps, losses of the cached entry and the passing of time. Cache calls succeed.
 */
module Staleness {
  import opened ChangeSet
  import opened Options

  /** All stores under the key use the same ttl. A sweep runs at started + n * gc, n > 0. */
  datatype Config = Config(ttl: int, gc: int, started: int)

  /** An entry: when its rows were read from the database, and when it was stored. seen is history, the
      latest mark that had landed when it was stored. */
  datatype Stored = Stored(read: int, at: int, seen: int)

  datatype Pc =
    | Begun
    | Checking(e: Stored)
    | EvictDel
    | EvictClear
    | Missed
    | Waiting
    | Loading
    | Fetched(read: int)
    | Clearing
    | Served(e: Stored, at: int)
    | ServedByWait(e: Stored)
    | Failed
    | Loaded

  /** mark is the latest of the marks that had landed when the query began. bared says whether, after
      the query had got its entry and before it asked the change set, somebody cleared the marker or
      overwrote it with a mark that is not after the entry. */
  datatype Query = Query(pc: Pc, mark: int, bared: bool) {
    function At(pc: Pc): Query { this.(pc := pc) }
    function SeesClear(): Query { if pc.Checking? then this.(bared := true) else this }
    function SeesMark(t: int): Query { if pc.Checking? && t <= pc.e.at then this.(bared := true) else this }
    predicate MidClear() { pc.EvictClear? || pc.Clearing? }
  }

  /** lastMark is history: the latest of all marks, or one before every store if there is none. */
  datatype World = World(now: int, cached: Option<Stored>, marker: Option<int>, lastMark: int,
                         queries: map<nat, Query>)

  /** A mark carries the time read before the change set was locked, so marks may land out of order.
      take picks the outcome where the source has one: to wait or to load, to be served by the wait or
      not, to read or fail, to store or fail. */
  datatype Action =
    | Tick(d: nat)
    | Mark(t: int)
    | Sweep(n: nat)
    | Lose
    | Begin(q: nat)
    | Move(q: nat, take: bool)

  predicate Fresh(cfg: Config, e: Stored, now: int) {
    cfg.ttl == 0 || now <= e.at + cfg.ttl
  }

  /** The lookup of the cache: an expired entry is removed and not found. */
  function Lookup(cfg: Config, w: World): Option<Stored> {
    if w.cached.Some? && Fresh(cfg, w.cached.value, w.now) then w.cached else None
  }

  function ClearMarker(w: World): World {
    w.(marker := None, queries := map q | q in w.queries :: w.queries[q].SeesClear())
  }

  function SetMarker(w: World, t: int): World {
    w.(marker := Some(t), lastMark := if w.lastMark < t then t else w.lastMark,
       queries := map q | q in w.queries :: w.queries[q].SeesMark(t))
  }

  /** The next step of a query. */
  function Advance(cfg: Config, w: World, q: nat, take: bool): World
    requires q in w.queries
  {
    var me := w.queries[q];
    var found := Lookup(cfg, w);
    match me.pc
    case Begun =>
      w.(cached := found,
         queries := w.queries[q := if found.Some? then me.At(Checking(found.value)) else me.At(Missed)])
    case Checking(e) =>
      w.(queries := w.queries[q := if Since(w.marker, w.now - cfg.ttl) then me.At(EvictDel)
                                   else me.At(Served(e, w.now))])
    case EvictDel => w.(cached := None, queries := w.queries[q := me.At(EvictClear)])
    case EvictClear => var w' := ClearMarker(w); w'.(queries := w'.queries[q := me.At(Missed)])
    case Missed => w.(queries := w.queries[q := me.At(if take then Loading else Waiting)])
    case Waiting =>
      w.(cached := found,
         queries := w.queries[q := if take && found.Some? then me.At(ServedByWait(found.value))
                                   else me.At(if take then Loading else Missed)])
    case Loading => w.(queries := w.queries[q := me.At(if take then Fetched(w.now) else Failed)])
    case Fetched(read) =>
      if take then w.(cached := Some(Stored(read, w.now, w.lastMark)), queries := w.queries[q := me.At(Clearing)])
      else w.(queries := w.queries[q := me.At(Failed)])
    case Clearing => var w' := ClearMarker(w); w'.(queries := w'.queries[q := me.At(Loaded)])
    case _ => w
  }

  function Step(cfg: Config, w: World, a: Action): World {
    match a
    case Tick(d) => w.(now := w.now + d)
    case Mark(t) => if t <= w.now then SetMarker(w, t) else w
    case Sweep(n) =>
      var tick := cfg.started + n * cfg.gc;
      if n > 0 && tick <= w.now then w.(marker := Swept(w.marker, tick, cfg.gc)) else w
    case Lose => w.(cached := None)
    case Begin(q) => if q in w.queries then w else w.(queries := w.queries[q := Query(Begun, w.lastMark, false)])
    case Move(q, take) => if q in w.queries then Advance(cfg, w, q, take) else w
  }

  ghost predicate Run(cfg: Config, ws: seq<World>, acts: seq<Action>) {
    && |ws| == |acts| + 1
    && ws[0] == World(0, None, None, -1, map[])
    && forall k :: 0 <= k < |acts| ==> ws[k + 1] == Step(cfg, ws[k], acts[k])
  }

  /** The query answered with rows read strictly before a mark that had landed before it. */
  predicate Stale(q: Query) {
    (q.pc.Served? || q.pc.ServedByWait?) && q.pc.e.read < q.mark
  }

  /** The query asked the change set while its entry was unexpired and its marker had not been bared. */
  predicate Prompt(cfg: Config, q: Query) {
    !q.bared && (q.pc.Served? ==> Fresh(cfg, q.pc.e, q.pc.at))
  }

  // ---------------------------------------------------------------- what does the harm

  /** An unexpired entry is in the cache, with rows read before the latest mark. */
  predicate Outdated(cfg: Config, w: World) {
    w.cached.Some? && Fresh(cfg, w.cached.value, w.now) && w.cached.value.read < w.lastMark
  }

  /** The action is a Clear while such an entry is in the cache; or the Add of one, that is, of rows that
      a mark has overtaken since they were read; or a mark that makes the entry one, or leaves it one,
      and is not after its Add. */
  predicate Harms(cfg: Config, w: World, a: Action) {
    match a
    case Move(q, take) =>
      && q in w.queries
      && ((w.queries[q].MidClear() && Outdated(cfg, w)) || (take && AddsOutdated(cfg, w, w.queries[q])))
    case Mark(t) =>
      && t <= w.now && w.cached.Some? && Fresh(cfg, w.cached.value, w.now) && t <= w.cached.value.at
      && w.cached.value.read < (if w.lastMark < t then t else w.lastMark)
    case _ => false
  }

  predicate AddsOutdated(cfg: Config, w: World, q: Query) {
    q.pc.Fetched? && 0 <= cfg.ttl && q.pc.read < w.lastMark
  }

  ghost predicate Harmless(cfg: Config, ws: seq<World>, acts: seq<Action>) {
    Run(cfg, ws, acts) && forall k :: 0 <= k < |acts| ==> !Harms(cfg, ws[k], acts[k])
  }

  /** Such an entry is in the cache, and no marker after its Add. */
  predicate Exposed(cfg: Config, w: World) {
    Outdated(cfg, w) && !Since(w.marker, w.cached.value.at)
  }

  /** Entries do not outlive the sweep interval, give or take the smallest unit of time. */
  predicate SafeTtl(cfg: Config) {
    0 < cfg.gc && cfg.ttl != 0 && cfg.ttl <= cfg.gc + 1
  }

  // ---------------------------------------------------------------- the invariants

  predicate StoredSince(w: World, m: int) {
    w.cached.Some? ==> m <= w.cached.value.seen
  }

  predicate Entry(w: World, e: Stored) {
    e.read <= e.at <= w.now && e.seen <= e.at
  }

  /** What holds in every run. */
  ghost predicate QueryInv(w: World, q: Query) {
    && q.mark <= w.lastMark
    && match q.pc
       case EvictClear => StoredSince(w, q.mark)
       case Missed => StoredSince(w, q.mark)
       case Waiting => StoredSince(w, q.mark)
       case Fetched(read) => q.mark <= read <= w.now
       case Checking(e) => Entry(w, e)
       case ServedByWait(e) => Entry(w, e) && q.mark <= e.seen
       case _ => true
  }

  predicate SiteInv(w: World) {
    && w.lastMark <= w.now
    && (w.marker.Some? ==> w.marker.value <= w.lastMark)
    && (w.cached.Some? ==> Entry(w, w.cached.value))
  }

  ghost predicate Inv(w: World) {
    SiteInv(w) && forall q :: q in w.queries ==> QueryInv(w, w.queries[q])
  }

  /** What the steps of others may do under a query. */
  lemma Bystander(cfg: Config, w: World, a: Action, p: nat)
    requires SiteInv(w) && p in w.queries && QueryInv(w, w.queries[p]) && !(a.Move? && a.q == p)
    requires a.Move? && a.q in w.queries ==> QueryInv(w, w.queries[a.q])
    ensures var w' := Step(cfg, w, a); p in w'.queries && QueryInv(w', w'.queries[p])
  {
  }

  lemma Mover(cfg: Config, w: World, q: nat, take: bool)
    requires SiteInv(w) && q in w.queries && QueryInv(w, w.queries[q])
    ensures var w' := Step(cfg, w, Move(q, take)); q in w'.queries && QueryInv(w', w'.queries[q])
  {
  }

  lemma SiteKept(cfg: Config, w: World, a: Action)
    requires SiteInv(w) && (a.Move? && a.q in w.queries ==> QueryInv(w, w.queries[a.q]))
    ensures SiteInv(Step(cfg, w, a))
  {
  }

  lemma StepKeepsInv(cfg: Config, w: World, a: Action)
    requires Inv(w)
    ensures Inv(Step(cfg, w, a))
  {
    var w' := Step(cfg, w, a);
    SiteKept(cfg, w, a);
    if a.Move? && a.q in w.queries {
      Mover(cfg, w, a.q, a.take);
    }
    forall p | p in w'.queries
      ensures QueryInv(w', w'.queries[p])
    {
      if p in w.queries && !(a.Move? && a.q == p) {
        Bystander(cfg, w, a, p);
      }
    }
  }

  lemma {:induction false} RunKeepsInv(cfg: Config, ws: seq<World>, acts: seq<Action>, k: nat)
    requires Run(cfg, ws, acts) && k <= |acts|
    ensures Inv(ws[k])
  {
    if k > 0 {
      RunKeepsInv(cfg, ws, acts, k - 1);
      StepKeepsInv(cfg, ws[k - 1], acts[k - 1]);
    }
  }

  /** An entry becomes exposed exactly by a step that harms. */
  lemma ExposedByHarm(cfg: Config, w: World, a: Action)
    requires Inv(w) && SafeTtl(cfg)
    ensures Harms(cfg, w, a) ==> Exposed(cfg, Step(cfg, w, a))
    ensures !Exposed(cfg, w) && Exposed(cfg, Step(cfg, w, a)) ==> Harms(cfg, w, a)
  {
  }

  lemma {:induction false} ExposedInRun(cfg: Config, ws: seq<World>, acts: seq<Action>, k: nat)
    requires Run(cfg, ws, acts) && SafeTtl(cfg) && k <= |acts| && Exposed(cfg, ws[k])
    ensures exists j :: 0 <= j < k && Harms(cfg, ws[j], acts[j])
  {
    if k > 0 {
      RunKeepsInv(cfg, ws, acts, k - 1);
      ExposedByHarm(cfg, ws[k - 1], acts[k - 1]);
      if Exposed(cfg, ws[k - 1]) {
        ExposedInRun(cfg, ws, acts, k - 1);
      }
    }
  }

  // ---------------------------------------------------------------- exactly when a query is stale

  /** The last word on the marker before step k, sweeps aside: the mark that landed last, or None if
      a Clear came after it. */
  function LastWord(cfg: Config, ws: seq<World>, acts: seq<Action>, k: nat): Option<int>
    requires k <= |acts| && |acts| < |ws|
  {
    if k == 0 then None
    else
      var w := ws[k - 1];
      match acts[k - 1]
      case Mark(t) => if t <= w.now then Some(t) else LastWord(cfg, ws, acts, k - 1)
      case Move(q, _) =>
        if q in w.queries && w.queries[q].MidClear() then None else LastWord(cfg, ws, acts, k - 1)
      case _ => LastWord(cfg, ws, acts, k - 1)
  }

  lemma {:induction false} MarkerIsLastWord(cfg: Config, ws: seq<World>, acts: seq<Action>, k: nat)
    requires Run(cfg, ws, acts) && k <= |acts| && cfg.gc > 0
    ensures var word := LastWord(cfg, ws, acts, k);
            ws[k].marker == word || (ws[k].marker.None? && word.Some? && word.value + cfg.gc < ws[k].now)
  {
    if k > 0 {
      MarkerIsLastWord(cfg, ws, acts, k - 1);
    }
  }

  /** In every run, whatever races and however slow: a query that asks the change set at step k, with
      an entry in hand, answers stale exactly if its rows were read before a mark that had landed when
      it began, and the last word on the marker is not a mark within the last ttl. Sweeps do not
      matter. */
  lemma StaleExactly(cfg: Config, ws: seq<World>, acts: seq<Action>, k: nat, q: nat, take: bool)
    requires Run(cfg, ws, acts) && cfg.gc > 0 && cfg.ttl <= cfg.gc + 1 && k < |acts| && acts[k] == Move(q, take)
    requires q in ws[k].queries && ws[k].queries[q].pc.Checking?
    ensures var me := ws[k].queries[q];
            Stale(ws[k + 1].queries[q]) <==>
              me.pc.e.read < me.mark && !Since(LastWord(cfg, ws, acts, k), ws[k].now - cfg.ttl)
  {
    MarkerIsLastWord(cfg, ws, acts, k);
  }

  // ---------------------------------------------------------------- the promises

  ghost predicate CheckInv(cfg: Config, w: World, q: Query) {
    match q.pc
    case Checking(e) => e.read < q.mark && !q.bared && Fresh(cfg, e, w.now) ==> Since(w.marker, e.at)
    case Served(e, at) => !q.bared && Fresh(cfg, e, at) ==> q.mark <= e.read
    case _ => true
  }

  lemma CheckKept(cfg: Config, w: World, a: Action, p: nat)
    requires SiteInv(w) && SafeTtl(cfg) && !Exposed(cfg, w)
    requires p in w.queries && QueryInv(w, w.queries[p]) && CheckInv(cfg, w, w.queries[p])
    ensures var w' := Step(cfg, w, a); p in w'.queries && CheckInv(cfg, w', w'.queries[p])
  {
  }

  lemma StepKeepsCheck(cfg: Config, w: World, a: Action)
    requires Inv(w) && SafeTtl(cfg) && !Exposed(cfg, w)
    requires forall p :: p in w.queries ==> CheckInv(cfg, w, w.queries[p])
    ensures var w' := Step(cfg, w, a); forall p :: p in w'.queries ==> CheckInv(cfg, w', w'.queries[p])
  {
    var w' := Step(cfg, w, a);
    forall p | p in w'.queries
      ensures CheckInv(cfg, w', w'.queries[p])
    {
      if p in w.queries { CheckKept(cfg, w, a, p); }
    }
  }

  lemma {:induction false} HarmlessRunKeeps(cfg: Config, ws: seq<World>, acts: seq<Action>, k: nat)
    requires Harmless(cfg, ws, acts) && SafeTtl(cfg) && k <= |acts|
    ensures !Exposed(cfg, ws[k]) && forall p :: p in ws[k].queries ==> CheckInv(cfg, ws[k], ws[k].queries[p])
  {
    if k > 0 {
      HarmlessRunKeeps(cfg, ws, acts, k - 1);
      RunKeepsInv(cfg, ws, acts, k - 1);
      ExposedByHarm(cfg, ws[k - 1], acts[k - 1]);
      StepKeepsCheck(cfg, ws[k - 1], acts[k - 1]);
    }
  }

  /** A harmless run that ends with a prompt query which has answered with a stale entry. */
  ghost predicate StaleRun(cfg: Config, ws: seq<World>, acts: seq<Action>, q: nat) {
    && Harmless(cfg, ws, acts) && q in ws[|acts|].queries
    && Prompt(cfg, ws[|acts|].queries[q]) && Stale(ws[|acts|].queries[q])
  }

  /** In every harmless run with 0 < ttl <= gc + 1 (or ttl < 0), no prompt query serves rows read
      strictly before a mark that had landed when the query began. */
  lemma NeverStale(cfg: Config, ws: seq<World>, acts: seq<Action>, q: nat)
    requires Harmless(cfg, ws, acts) && SafeTtl(cfg)
    ensures !StaleRun(cfg, ws, acts, q)
  {
    HarmlessRunKeeps(cfg, ws, acts, |acts|);
    if q in ws[|acts|].queries {
      assert CheckInv(cfg, ws[|acts|], ws[|acts|].queries[q]);
      if ws[|acts|].queries[q].pc.ServedByWait? {
        WaitersNeverStale(cfg, ws, acts, q);
      }
    }
  }

  /** What a waiter gets was stored after every mark that had landed when it began. So, in any run and
      whatever the configuration, its answer is stale exactly if such a mark overtook the load: it
      landed after the rows were read and before they were stored. */
  lemma WaitersStaleExactly(cfg: Config, ws: seq<World>, acts: seq<Action>, q: nat)
    requires Run(cfg, ws, acts) && q in ws[|acts|].queries && ws[|acts|].queries[q].pc.ServedByWait?
    ensures var me := ws[|acts|].queries[q];
            && me.mark <= me.pc.e.seen <= me.pc.e.at
            && (Stale(me) <==> me.pc.e.read < me.mark <= me.pc.e.seen)
  {
    RunKeepsInv(cfg, ws, acts, |acts|);
    assert QueryInv(ws[|acts|], ws[|acts|].queries[q]);
  }

  /** A query that loads reads its rows after every mark that had landed when it began. */
  lemma LoadersNeverStale(cfg: Config, ws: seq<World>, acts: seq<Action>, q: nat)
    requires Run(cfg, ws, acts) && q in ws[|acts|].queries && ws[|acts|].queries[q].pc.Fetched?
    ensures ws[|acts|].queries[q].mark <= ws[|acts|].queries[q].pc.read
  {
    RunKeepsInv(cfg, ws, acts, |acts|);
    assert QueryInv(ws[|acts|], ws[|acts|].queries[q]);
  }

  /** What no load that a mark overtook has stored. */
  predicate Timely(cfg: Config, e: Stored) {
    0 <= cfg.ttl ==> e.seen <= e.read
  }

  predicate TimelyAnswer(cfg: Config, q: Query) {
    q.pc.ServedByWait? ==> 0 <= cfg.ttl && Timely(cfg, q.pc.e)
  }

  ghost predicate AllTimely(cfg: Config, w: World) {
    && (w.cached.Some? ==> Timely(cfg, w.cached.value))
    && forall q :: q in w.queries ==> TimelyAnswer(cfg, w.queries[q])
  }

  lemma AnswerKept(cfg: Config, w: World, a: Action, p: nat)
    requires SiteInv(w) && (w.cached.Some? ==> Timely(cfg, w.cached.value))
    requires p in w.queries && TimelyAnswer(cfg, w.queries[p])
    ensures var w' := Step(cfg, w, a); p in w'.queries && TimelyAnswer(cfg, w'.queries[p])
  {
  }

  lemma StepKeepsTimely(cfg: Config, w: World, a: Action)
    requires Inv(w) && AllTimely(cfg, w) && !Harms(cfg, w, a)
    ensures AllTimely(cfg, Step(cfg, w, a))
  {
    var w' := Step(cfg, w, a);
    forall p | p in w'.queries
      ensures TimelyAnswer(cfg, w'.queries[p])
    {
      if p in w.queries { AnswerKept(cfg, w, a, p); }
    }
  }

  lemma {:induction false} HarmlessRunIsTimely(cfg: Config, ws: seq<World>, acts: seq<Action>, k: nat)
    requires Harmless(cfg, ws, acts) && k <= |acts|
    ensures AllTimely(cfg, ws[k])
  {
    if k > 0 {
      HarmlessRunIsTimely(cfg, ws, acts, k - 1);
      RunKeepsInv(cfg, ws, acts, k - 1);
      StepKeepsTimely(cfg, ws[k - 1], acts[k - 1]);
    }
  }

  /** In a harmless run no waiter is answered stale, whatever the configuration. */
  lemma WaitersNeverStale(cfg: Config, ws: seq<World>, acts: seq<Action>, q: nat)
    requires Harmless(cfg, ws, acts) && q in ws[|acts|].queries && ws[|acts|].queries[q].pc.ServedByWait?
    ensures !Stale(ws[|acts|].queries[q])
  {
    WaitersStaleExactly(cfg, ws, acts, q);
    HarmlessRunIsTimely(cfg, ws, acts, |acts|);
  }

  // ---------------------------------------------------------------- what is served was live

  /** The cached entry, if it has not expired: it has with ttl 0 never, and else strictly after its ttl. */
  predicate LiveEntry(cfg: Config, w: World, e: Stored) {
    w.cached == Some(e) && (cfg.ttl == 0 || w.now <= e.at + cfg.ttl)
  }

  /** At step j query q looked into the cache, first or at the end of a wait. */
  predicate LooksUp(ws: seq<World>, acts: seq<Action>, j: nat, q: nat)
    requires j < |acts| < |ws|
  {
    && acts[j].Move? && acts[j].q == q && q in ws[j].queries
    && (ws[j].queries[q].pc.Begun? || (ws[j].queries[q].pc.Waiting? && acts[j].take))
  }

  ghost predicate FoundLive(cfg: Config, ws: seq<World>, acts: seq<Action>, k: nat, q: nat, e: Stored, first: bool)
    requires k <= |acts| < |ws|
  {
    exists j :: 0 <= j < k && LooksUp(ws, acts, j, q) && LiveEntry(cfg, ws[j], e)
                && (first <==> ws[j].queries[q].pc.Begun?)
  }

  /** What a look into the cache leads to: a live entry is found and stays, and otherwise there is none. */
  lemma LookupExactly(cfg: Config, w: World, q: nat)
    requires q in w.queries && (w.queries[q].pc.Begun? || w.queries[q].pc.Waiting?)
    ensures var me, w' := w.queries[q], Step(cfg, w, Move(q, true));
            && q in w'.queries
            && (forall e :: LiveEntry(cfg, w, e) ==>
                  w'.cached == Some(e)
                  && w'.queries[q].pc == if me.pc.Begun? then Checking(e) else ServedByWait(e))
            && ((forall e :: !LiveEntry(cfg, w, e)) ==>
                  w'.cached == None && w'.queries[q].pc == if me.pc.Begun? then Missed else Loading)
  {
    if w.cached.Some? {
      assert LiveEntry(cfg, w, w.cached.value) <==> Lookup(cfg, w).Some?;
    }
  }

  /** What the check of a found entry leads to: it is served unless a mark within the last ttl has landed and
      is still there; otherwise it is deleted, its marker is cleared, and the query goes on as a miss. */
  lemma CheckExactly(cfg: Config, w: World, q: nat, e: Stored, take: bool)
    requires q in w.queries && w.queries[q].pc == Checking(e)
    ensures var pc := Step(cfg, w, Move(q, take)).queries[q].pc;
            && (pc == Served(e, w.now) <==> (w.marker.Some? ==> w.marker.value <= w.now - cfg.ttl))
            && (pc == EvictDel <==> w.marker.Some? && w.now - cfg.ttl < w.marker.value)
    ensures var w' := Step(cfg, w.(queries := w.queries[q := w.queries[q].At(EvictDel)]), Move(q, take));
            && w'.cached == None && w'.marker == w.marker
            && var w'' := Step(cfg, w', Move(q, take));
               w''.cached == None && w''.marker == None && w''.queries[q].pc == Missed
  {
  }

  lemma Holds(cfg: Config, w: World, a: Action, q: nat)
    requires q in w.queries && !(a.Move? && a.q == q)
    ensures var w' := Step(cfg, w, a); q in w'.queries && w'.queries[q].pc == w.queries[q].pc
  {
  }

  /** In every run and any configuration, whoever has an entry in hand, or was served one, found it live in
      the cache: at its first look, or, if it was served by waiting, at the end of a wait. */
  lemma {:induction false} ServedWasLive(cfg: Config, ws: seq<World>, acts: seq<Action>, k: nat, q: nat)
    requires Run(cfg, ws, acts) && k <= |acts| && q in ws[k].queries
    ensures var pc := ws[k].queries[q].pc;
            && (pc.Checking? || pc.Served? ==> FoundLive(cfg, ws, acts, k, q, pc.e, true))
            && (pc.ServedByWait? ==> FoundLive(cfg, ws, acts, k, q, pc.e, false))
  {
    if k > 0 && q in ws[k - 1].queries {
      var w, a := ws[k - 1], acts[k - 1];
      ServedWasLive(cfg, ws, acts, k - 1, q);
      if a.Move? && a.q == q {
        if (w.queries[q].pc.Begun? || w.queries[q].pc.Waiting?) && w.cached.Some? {
          assert LiveEntry(cfg, w, w.cached.value) <==> Lookup(cfg, w).Some?;
          assert a.take || w.queries[q].pc.Begun? ==> LooksUp(ws, acts, k - 1, q);
        }
      } else {
        Holds(cfg, w, a, q);
      }
    }
  }

  /** And a wait that comes back while a live entry is in the cache is served it. */
  lemma {:induction false} LiveIsServed(cfg: Config, ws: seq<World>, acts: seq<Action>, j: nat, k: nat, q: nat,
                                        e: Stored)
    requires Run(cfg, ws, acts) && j < k <= |acts| && LooksUp(ws, acts, j, q)
    requires ws[j].queries[q].pc.Waiting? && LiveEntry(cfg, ws[j], e)
    ensures q in ws[k].queries && ws[k].queries[q].pc == ServedByWait(e)
  {
    if j + 1 == k {
      LookupExactly(cfg, ws[j], q);
    } else {
      LiveIsServed(cfg, ws, acts, j, k - 1, q, e);
      var a := acts[k - 1];
      if !(a.Move? && a.q == q) { Holds(cfg, ws[k - 1], a, q); }
    }
  }

  /** What comes from elsewhere: time, the loss of the entry, a mark whose time has come, and new queries, which
      know the marks that have landed. */
  lemma OutsideExactly(cfg: Config, w: World, d: nat, t: int, q: nat)
    ensures Step(cfg, w, Tick(d)) == w.(now := w.now + d)
    ensures Step(cfg, w, Lose) == w.(cached := None)
    ensures var w' := Step(cfg, w, Mark(t));
            && w'.marker == (if t <= w.now then Some(t) else w.marker) && w'.cached == w.cached
            && w'.lastMark == (if w.lastMark < t <= w.now then t else w.lastMark)
    ensures q !in w.queries ==>
              Step(cfg, w, Begin(q)) == w.(queries := w.queries[q := Query(Begun, w.lastMark, false)])
  {
  }

  // ---------------------------------------------------------------- where entries come from

  /** A round of the lock loop, which loads, or waits, and goes round when the wait asks for it; and the steps of
      a load: the rows are read at one moment and stored at a later one, and then the marker goes. */
  lemma LoadExactly(cfg: Config, w: World, q: nat, take: bool)
    requires q in w.queries
    ensures var me, w' := w.queries[q], Step(cfg, w, Move(q, take));
            && q in w'.queries
            && (me.pc.Missed? ==> w' == w.(queries := w.queries[q := me.At(if take then Loading else Waiting)]))
            && (me.pc.Waiting? && !take ==> w'.queries[q].pc == Missed)
            && (me.pc.Loading? ==>
                  w'.queries[q].pc == (if take then Fetched(w.now) else Failed)
                  && w'.cached == w.cached && w'.marker == w.marker)
            && (me.pc.Fetched? ==>
                  w'.queries[q].pc == (if take then Clearing else Failed)
                  && w'.cached == (if take then Some(Stored(me.pc.read, w.now, w.lastMark)) else w.cached)
                  && w'.marker == w.marker)
            && (me.pc.Clearing? ==> w'.queries[q].pc == Loaded && w'.cached == w.cached && w'.marker == None)
  {
  }

  ghost predicate ReadBy(ws: seq<World>, acts: seq<Action>, k: nat, q: nat, read: int)
    requires k <= |acts| < |ws|
  {
    exists i :: 0 <= i < k && acts[i] == Move(q, true) && q in ws[i].queries && ws[i].queries[q].pc.Loading?
                && ws[i].now == read
  }

  ghost predicate AddedBy(ws: seq<World>, acts: seq<Action>, k: nat, e: Stored)
    requires k <= |acts| < |ws|
  {
    exists j, q :: 0 <= j < k && acts[j] == Move(q, true) && q in ws[j].queries
                   && ws[j].queries[q].pc == Fetched(e.read) && ReadBy(ws, acts, j, q, e.read)
                   && ws[j].now == e.at && ws[j].lastMark == e.seen
  }

  lemma NewEntry(cfg: Config, w: World, a: Action)
    ensures var w' := Step(cfg, w, a);
            w'.cached.Some? && w'.cached != w.cached ==>
              && a.Move? && a.take && a.q in w.queries && w.queries[a.q].pc.Fetched?
              && w'.cached.value == Stored(w.queries[a.q].pc.read, w.now, w.lastMark)
  {
  }

  lemma NewRead(cfg: Config, w: World, a: Action, q: nat)
    requires q in Step(cfg, w, a).queries && Step(cfg, w, a).queries[q].pc.Fetched?
    ensures var pc := Step(cfg, w, a).queries[q].pc;
            && q in w.queries
            && (w.queries[q].pc == pc || (a == Move(q, true) && w.queries[q].pc.Loading? && pc.read == w.now))
  {
  }

  /** In every run, a cached entry was stored by a load at e.at, with rows that this load had read at e.read;
      and what a load has in hand it has read. */
  lemma {:induction false} EntryWasLoaded(cfg: Config, ws: seq<World>, acts: seq<Action>, k: nat)
    requires Run(cfg, ws, acts) && k <= |acts|
    ensures ws[k].cached.Some? ==> AddedBy(ws, acts, k, ws[k].cached.value)
    ensures forall q :: q in ws[k].queries && ws[k].queries[q].pc.Fetched? ==>
              ReadBy(ws, acts, k, q, ws[k].queries[q].pc.read)
  {
    if k > 0 {
      EntryWasLoaded(cfg, ws, acts, k - 1);
      NewEntry(cfg, ws[k - 1], acts[k - 1]);
      forall q | q in ws[k].queries && ws[k].queries[q].pc.Fetched?
        ensures ReadBy(ws, acts, k, q, ws[k].queries[q].pc.read)
      {
        NewRead(cfg, ws[k - 1], acts[k - 1], q);
      }
    }
  }

  /** A sweep that is due prunes exactly a marker that is older than the interval, and one that is not due
      prunes nothing. */
  lemma SweepExactly(cfg: Config, w: World, n: nat)
    ensures var w' := Step(cfg, w, Sweep(n));
            var due := n > 0 && cfg.started + n * cfg.gc <= w.now;
            && (w'.marker == None <==> w.marker == None || (due && w.marker.value + cfg.gc < cfg.started + n * cfg.gc))
            && (w'.marker != None ==> w'.marker == w.marker)
            && w' == w.(marker := w'.marker)
  {
  }

  /** A step under a query that has entry e in hand: somebody clears the marker, or a mark lands that is not
      after e. */
  predicate Bares(w: World, a: Action, e: Stored) {
    match a
    case Move(q, _) => q in w.queries && (w.queries[q].pc == EvictClear || w.queries[q].pc == Clearing)
    case Mark(t) => t <= w.now && t <= e.at
    case _ => false
  }

  ghost predicate BaredBy(ws: seq<World>, acts: seq<Action>, k: nat, q: nat)
    requires k <= |acts| < |ws|
  {
    exists j :: 0 <= j < k && q in ws[j].queries && ws[j].queries[q].pc.Checking?
                && Bares(ws[j], acts[j], ws[j].queries[q].pc.e)
  }

  lemma BareStep(cfg: Config, w: World, a: Action, q: nat)
    requires q in Step(cfg, w, a).queries
    ensures Step(cfg, w, a).queries[q].bared <==>
            q in w.queries && (w.queries[q].bared || (w.queries[q].pc.Checking? && Bares(w, a, w.queries[q].pc.e)))
  {
  }

  /** That is exactly what the history of a query says of it. */
  lemma {:induction false} BaredExactly(cfg: Config, ws: seq<World>, acts: seq<Action>, k: nat, q: nat)
    requires Run(cfg, ws, acts) && k <= |acts| && q in ws[k].queries
    ensures ws[k].queries[q].bared <==> BaredBy(ws, acts, k, q)
  {
    if k > 0 {
      BareStep(cfg, ws[k - 1], acts[k - 1], q);
      if q in ws[k - 1].queries {
        BaredExactly(cfg, ws, acts, k - 1, q);
      } else {
        NobodyYet(cfg, ws, acts, k - 1, q);
      }
    }
  }

  lemma {:induction false} NobodyYet(cfg: Config, ws: seq<World>, acts: seq<Action>, k: nat, q: nat)
    requires Run(cfg, ws, acts) && k <= |acts| && q !in ws[k].queries
    ensures forall j :: 0 <= j <= k ==> q !in ws[j].queries
  {
    if k > 0 {
      QueriesStay(cfg, ws[k - 1], acts[k - 1]);
      NobodyYet(cfg, ws, acts, k - 1, q);
    }
  }

  lemma QueriesStay(cfg: Config, w: World, a: Action)
    ensures w.queries.Keys <= Step(cfg, w, a).queries.Keys
  {
  }

  // ---------------------------------------------------------------- loads that a mark overtakes

  /** A mark after time t landed before step k. */
  ghost predicate MarkedAfter(ws: seq<World>, acts: seq<Action>, k: nat, t: int)
    requires k <= |acts| < |ws|
  {
    exists j :: 0 <= j < k && acts[j].Mark? && t < acts[j].t <= ws[j].now
  }

  lemma {:induction false} LastMarkIsLatest(cfg: Config, ws: seq<World>, acts: seq<Action>, k: nat, t: int)
    requires Run(cfg, ws, acts) && k <= |acts| && -1 <= t
    ensures t < ws[k].lastMark <==> MarkedAfter(ws, acts, k, t)
  {
    if k > 0 {
      LastMarkIsLatest(cfg, ws, acts, k - 1, t);
      if t < ws[k].lastMark && !(t < ws[k - 1].lastMark) {
        assert acts[k - 1].Mark? && t < acts[k - 1].t <= ws[k - 1].now;
      }
    }
  }

  /** The Add of a load harms exactly if a mark after its read has landed by then. */
  lemma AddHarmsExactly(cfg: Config, ws: seq<World>, acts: seq<Action>, k: nat, q: nat)
    requires Run(cfg, ws, acts) && k < |acts| && acts[k] == Move(q, true) && 0 <= cfg.ttl
    requires q in ws[k].queries && ws[k].queries[q].pc.Fetched?
    ensures Harms(cfg, ws[k], acts[k]) <==> MarkedAfter(ws, acts, k, ws[k].queries[q].pc.read)
  {
    RunKeepsInv(cfg, ws, acts, k);
    assert QueryInv(ws[k], ws[k].queries[q]);
    FirstMark(cfg, ws, acts, k, q);
    LastMarkIsLatest(cfg, ws, acts, k, ws[k].queries[q].pc.read);
  }

  lemma {:induction false} FirstMark(cfg: Config, ws: seq<World>, acts: seq<Action>, k: nat, q: nat)
    requires Run(cfg, ws, acts) && k <= |acts|
    ensures -1 <= ws[k].lastMark && (q in ws[k].queries ==> -1 <= ws[k].queries[q].mark)
  {
    if k > 0 {
      FirstMark(cfg, ws, acts, k - 1, q);
    }
  }

  /** No load is between its read and its Add in w when the action is a mark. */
  ghost predicate SparesLoads(w: World, a: Action) {
    a.Mark? ==> forall q :: q in w.queries ==> !w.queries[q].pc.Fetched?
  }

  predicate UpToDate(w: World, q: Query) {
    q.pc.Fetched? ==> w.lastMark <= q.pc.read
  }

  lemma SparedStep(cfg: Config, w: World, a: Action, p: nat)
    requires SiteInv(w) && SparesLoads(w, a) && p in w.queries && UpToDate(w, w.queries[p])
    ensures var w' := Step(cfg, w, a); p in w'.queries && UpToDate(w', w'.queries[p])
  {
  }

  /** If every mark spares the loads, no Add harms. */
  lemma {:induction false} SparedLoads(cfg: Config, ws: seq<World>, acts: seq<Action>, k: nat)
    requires Run(cfg, ws, acts) && k <= |acts| && forall j :: 0 <= j < k ==> SparesLoads(ws[j], acts[j])
    ensures forall q :: q in ws[k].queries ==>
              UpToDate(ws[k], ws[k].queries[q]) && !AddsOutdated(cfg, ws[k], ws[k].queries[q])
  {
    if k > 0 {
      SparedLoads(cfg, ws, acts, k - 1);
      RunKeepsInv(cfg, ws, acts, k - 1);
      assert SparesLoads(ws[k - 1], acts[k - 1]);
      forall p | p in ws[k].queries
        ensures UpToDate(ws[k], ws[k].queries[p])
      {
        if p in ws[k - 1].queries {
          SparedStep(cfg, ws[k - 1], acts[k - 1], p);
        }
      }
    }
  }

  /** The world after a new query q came d later and got its answer from the cache at once. */
  function Ask(cfg: Config, w: World, d: nat, q: nat): World {
    Step(cfg, Step(cfg, Step(cfg, Step(cfg, w, Tick(d)), Begin(q)), Move(q, true)), Move(q, true))
  }

  /** Some new query, asked and answered at once after some time, is answered stale. */
  ghost predicate WouldBeStale(cfg: Config, w: World) {
    exists d: nat, q: nat :: q !in w.queries && StaleAnswer(cfg, w, d, q)
  }

  ghost predicate StaleAnswer(cfg: Config, w: World, d: nat, q: nat) {
    var w' := Ask(cfg, w, d, q); q in w'.queries && Prompt(cfg, w'.queries[q]) && Stale(w'.queries[q])
  }

  lemma Answer(cfg: Config, w: World, d: nat, q: nat)
    requires q !in w.queries
    ensures var w' := Ask(cfg, w, d, q);
            var now := w.now + d;
            && q in w'.queries && w'.queries[q].mark == w.lastMark && !w'.queries[q].bared
            && w'.queries[q].pc ==
                 if w.cached.None? || !Fresh(cfg, w.cached.value, now) then Loading
                 else if Since(w.marker, now - cfg.ttl) then EvictDel
                 else Served(w.cached.value, now)
  {
  }

  lemma WouldBeStaleIfExposed(cfg: Config, w: World)
    requires Inv(w) && SafeTtl(cfg)
    ensures WouldBeStale(cfg, w) <==> Exposed(cfg, w)
  {
    if Exposed(cfg, w) {
      var q := Unused(w.queries.Keys);
      var d := if w.marker.Some? && w.now < w.marker.value + cfg.ttl then w.marker.value + cfg.ttl - w.now else 0;
      Answer(cfg, w, d, q);
      assert StaleAnswer(cfg, w, d, q);
    }
    forall d: nat, q: nat | q !in w.queries && StaleAnswer(cfg, w, d, q)
      ensures Exposed(cfg, w)
    {
      Answer(cfg, w, d, q);
    }
  }

  lemma {:induction false} Unused(used: set<nat>) returns (q: nat)
    ensures q !in used && forall x :: x in used ==> x < q
  {
    if used == {} {
      q := 0;
    } else {
      var x :| x in used;
      var r := Unused(used - {x});
      q := if r <= x then x + 1 else r;
      forall y | y in used
        ensures y < q
      {
        assert y == x || y in used - {x};
      }
    }
  }

  /** Exactly what breaks the bound, in any run whose entries do not outlive the sweep interval: at
      some point of the run a new query could be answered stale at once, or after some time, if and
      only if some step before that point harmed. */
  lemma StaleIfHarmed(cfg: Config, ws: seq<World>, acts: seq<Action>)
    requires Run(cfg, ws, acts) && SafeTtl(cfg)
    ensures (exists k :: 0 <= k <= |acts| && WouldBeStale(cfg, ws[k])) <==> !Harmless(cfg, ws, acts)
  {
    forall k | 0 <= k <= |acts|
      ensures WouldBeStale(cfg, ws[k]) <==> Exposed(cfg, ws[k])
    {
      RunKeepsInv(cfg, ws, acts, k);
      WouldBeStaleIfExposed(cfg, ws[k]);
    }
    if k :| 0 <= k <= |acts| && Exposed(cfg, ws[k]) {
      ExposedInRun(cfg, ws, acts, k);
    }
    if !Harmless(cfg, ws, acts) {
      var j :| 0 <= j < |acts| && Harms(cfg, ws[j], acts[j]);
      RunKeepsInv(cfg, ws, acts, j);
      ExposedByHarm(cfg, ws[j], acts[j]);
      assert Exposed(cfg, ws[j + 1]);
    }
  }

  /** The exact condition on the configuration: the bound fails in some harmless run if and only if
      entries never expire, or they outlive the sweep interval by more than a nanosecond. The README
      pairs a sweep interval of five minutes with a key ttl of an hour. */
  lemma SafeConfigurations(ttl: int, gc: int)
    requires gc > 0
    ensures (exists started, ws, acts, q :: StaleRun(Config(ttl, gc, started), ws, acts, q))
            <==> ttl == 0 || gc + 1 < ttl
  {
    if ttl == 0 {
      var ws, acts := NoExpiryIsStale(Config(ttl, gc, 2));
    } else if gc + 1 < ttl {
      var ws, acts := LongTtlIsStale(Config(ttl, gc, 2));
    } else {
      forall started, ws, acts, q
        ensures !StaleRun(Config(ttl, gc, started), ws, acts, q)
      {
        if Harmless(Config(ttl, gc, started), ws, acts) {
          NeverStale(Config(ttl, gc, started), ws, acts, q);
        }
      }
    }
  }

  // ---------------------------------------------------------------- concrete runs

  predicate InFlight(pc: Pc) {
    pc.Loading? || pc.Fetched? || pc.Clearing?
  }

  /** No load is in flight in w when the action is a mark. */
  ghost predicate QuietAt(w: World, a: Action) {
    a.Mark? ==> forall q :: q in w.queries ==> !InFlight(w.queries[q].pc)
  }

  ghost predicate NoLoadAtMarks(ws: seq<World>, acts: seq<Action>) {
    |ws| == |acts| + 1 && forall k :: 0 <= k < |acts| ==> QuietAt(ws[k], acts[k])
  }

  lemma Extend(cfg: Config, ws: seq<World>, acts: seq<Action>, a: Action)
    returns (ws': seq<World>, acts': seq<Action>)
    requires Run(cfg, ws, acts)
    ensures acts' == acts + [a] && ws' == ws + [Step(cfg, ws[|acts|], a)]
    ensures Run(cfg, ws', acts')
    ensures Harmless(cfg, ws, acts) && !Harms(cfg, ws[|acts|], a) ==> Harmless(cfg, ws', acts')
    ensures NoLoadAtMarks(ws, acts) && QuietAt(ws[|acts|], a) ==> NoLoadAtMarks(ws', acts')
  {
    acts', ws' := acts + [a], ws + [Step(cfg, ws[|acts|], a)];
  }

  /** A new query is asked and answered d later. */
  lemma AskNow(cfg: Config, ws: seq<World>, acts: seq<Action>, d: nat, q: nat)
    returns (ws': seq<World>, acts': seq<Action>)
    requires Run(cfg, ws, acts) && q !in ws[|acts|].queries
    ensures Run(cfg, ws', acts') && ws'[|acts'|] == Ask(cfg, ws[|acts|], d, q)
    ensures Harmless(cfg, ws, acts) ==> Harmless(cfg, ws', acts')
    ensures NoLoadAtMarks(ws, acts) ==> NoLoadAtMarks(ws', acts')
    ensures q in ws'[|acts'|].queries && Prompt(cfg, ws'[|acts'|].queries[q])
  {
    Answer(cfg, ws[|acts|], d, q);
    ws', acts' := Extend(cfg, ws, acts, Tick(d));
    ws', acts' := Extend(cfg, ws', acts', Begin(q));
    ws', acts' := Extend(cfg, ws', acts', Move(q, true));
    ws', acts' := Extend(cfg, ws', acts', Move(q, true));
  }

  const STORED := Query(Loaded, -1, false)

  /** Query 0 stores an entry at the given time. */
  lemma StoreAt(cfg: Config, t: nat) returns (ws: seq<World>, acts: seq<Action>)
    ensures Harmless(cfg, ws, acts) && NoLoadAtMarks(ws, acts)
    ensures ws[|acts|] == World(t, Some(Stored(t, t, -1)), None, -1, map[0 := STORED])
  {
    ws, acts := [World(0, None, None, -1, map[])], [];
    ws, acts := Extend(cfg, ws, acts, Tick(t));
    ws, acts := Extend(cfg, ws, acts, Begin(0));
    ws, acts := Extend(cfg, ws, acts, Move(0, true));
    ws, acts := Extend(cfg, ws, acts, Move(0, true));
    ws, acts := Extend(cfg, ws, acts, Move(0, true));
    ws, acts := Extend(cfg, ws, acts, Move(0, true));
    assert ws[|acts|] == World(t, Some(Stored(t, t, -1)), None, -1, map[0 := Query(Clearing, -1, false)]);
    ws, acts := Extend(cfg, ws, acts, Move(0, true));
  }

  /** Query 0 stores an entry at time 0; at time 1 a mark lands. */
  lemma StoreThenMark(cfg: Config) returns (ws: seq<World>, acts: seq<Action>)
    ensures Harmless(cfg, ws, acts) && NoLoadAtMarks(ws, acts)
    ensures ws[|acts|] == World(1, Some(Stored(0, 0, -1)), Some(1), 1, map[0 := STORED])
  {
    ws, acts := StoreAt(cfg, 0);
    ws, acts := Extend(cfg, ws, acts, Tick(1));
    ws, acts := Extend(cfg, ws, acts, Mark(1));
  }

  /** With ttl 0 the window that Changed looks at is empty, and the entry never expires. */
  lemma NoExpiryIsStale(cfg: Config) returns (ws: seq<World>, acts: seq<Action>)
    requires cfg.ttl == 0
    ensures StaleRun(cfg, ws, acts, 1)
  {
    ws, acts := StoreThenMark(cfg);
    Answer(cfg, ws[|acts|], 0, 1);
    ws, acts := AskNow(cfg, ws, acts, 0, 1);
  }

  /** The sweep at time gc + 2 prunes the marker while the entry is still live. */
  lemma LongTtlIsStale(cfg: Config) returns (ws: seq<World>, acts: seq<Action>)
    requires cfg.gc > 0 && cfg.started == 2 && cfg.gc + 1 < cfg.ttl
    ensures StaleRun(cfg, ws, acts, 1)
  {
    ws, acts := StoreThenMark(cfg);
    ws, acts := Extend(cfg, ws, acts, Tick(cfg.gc + 1));
    ws, acts := Extend(cfg, ws, acts, Sweep(1));
    assert ws[|acts|] == World(cfg.gc + 2, Some(Stored(0, 0, -1)), None, 1, map[0 := STORED]);
    Answer(cfg, ws[|acts|], 0, 1);
    ws, acts := AskNow(cfg, ws, acts, 0, 1);
  }

  /** The first race: two queries get the same old entry; one evicts it and clears the marker, and
      the other then finds no marker and serves the entry. */
  lemma ClearRace(cfg: Config) returns (ws: seq<World>, acts: seq<Action>)
    requires cfg.ttl > 0
    ensures Harmless(cfg, ws, acts) && 1 in ws[|acts|].queries
    ensures var q := ws[|acts|].queries[1]; Stale(q) && q.pc.Served? && Fresh(cfg, q.pc.e, q.pc.at)
  {
    ws, acts := StoreThenMark(cfg);
    ws, acts := Extend(cfg, ws, acts, Begin(1));
    ws, acts := Extend(cfg, ws, acts, Move(1, true));
    ws, acts := Extend(cfg, ws, acts, Begin(2));
    ws, acts := Extend(cfg, ws, acts, Move(2, true));
    var holds := Query(Checking(Stored(0, 0, -1)), 1, false);
    assert ws[|acts|] == World(1, Some(Stored(0, 0, -1)), Some(1), 1, map[0 := STORED, 1 := holds, 2 := holds]);
    ws, acts := Extend(cfg, ws, acts, Move(2, true));
    ws, acts := Extend(cfg, ws, acts, Move(2, true));
    assert ws[|acts|] == World(1, None, Some(1), 1, map[0 := STORED, 1 := holds, 2 := Query(EvictClear, 1, false)]);
    ws, acts := Extend(cfg, ws, acts, Move(2, true));
    ws, acts := Extend(cfg, ws, acts, Move(1, true));
  }

  /** The second race: the mark of time 2 lands while query 1 is between the Del and the Clear of
      its eviction and nobody is loading. The Clear erases it, and query 3, begun after the mark,
      promptly serves the entry that query 2 stored at time 1. */
  lemma EvictionRace(cfg: Config) returns (ws: seq<World>, acts: seq<Action>)
    requires cfg.ttl > 0
    ensures Run(cfg, ws, acts) && 3 in ws[|acts|].queries
    ensures Prompt(cfg, ws[|acts|].queries[3]) && Stale(ws[|acts|].queries[3])
    ensures NoLoadAtMarks(ws, acts)
  {
    ws, acts := MarkErased(cfg);
    Answer(cfg, ws[|acts|], 0, 3);
    ws, acts := AskNow(cfg, ws, acts, 0, 3);
  }

  lemma MarkErased(cfg: Config) returns (ws: seq<World>, acts: seq<Action>)
    requires cfg.ttl > 0
    ensures Run(cfg, ws, acts) && NoLoadAtMarks(ws, acts)
    ensures ws[|acts|] == World(2, Some(Stored(1, 1, 1)), None, 2,
                                map[0 := STORED, 1 := Query(Missed, 1, false), 2 := Query(Loaded, 1, false)])
  {
    ws, acts := EvictionUnderway(cfg);
    ws, acts := Extend(cfg, ws, acts, Tick(1));
    ws, acts := Extend(cfg, ws, acts, Mark(2));
    ws, acts := Extend(cfg, ws, acts, Move(1, true));
  }

  /** Marks out of order: Mark(1) read its time before Mark(3) did and lands after it. The entry of
      time 2 outlives the window of the marker that is left. Nothing is cleared. */
  lemma OutOfOrder(cfg: Config) returns (ws: seq<World>, acts: seq<Action>)
    requires cfg.ttl > 0
    ensures Run(cfg, ws, acts) && 1 in ws[|acts|].queries
    ensures Prompt(cfg, ws[|acts|].queries[1]) && Stale(ws[|acts|].queries[1])
  {
    ws, acts := StoreAt(cfg, 2);
    ws, acts := Extend(cfg, ws, acts, Tick(1));
    ws, acts := Extend(cfg, ws, acts, Mark(3));
    ws, acts := Extend(cfg, ws, acts, Mark(1));
    assert ws[|acts|] == World(3, Some(Stored(2, 2, -1)), Some(1), 3, map[0 := STORED]);
    Answer(cfg, ws[|acts|], if cfg.ttl < 2 then 0 else cfg.ttl - 2, 1);
    ws, acts := AskNow(cfg, ws, acts, if cfg.ttl < 2 then 0 else cfg.ttl - 2, 1);
  }

  /** A slow query: it gets the entry at time 1 and asks the change set a whole ttl later, when the
      mark of time 1 has left the window. Nobody else did anything. */
  lemma SlowQuery(cfg: Config) returns (ws: seq<World>, acts: seq<Action>)
    requires cfg.ttl > 0
    ensures Harmless(cfg, ws, acts) && 1 in ws[|acts|].queries
    ensures var q := ws[|acts|].queries[1]; Stale(q) && !q.bared && !Prompt(cfg, q)
  {
    ws, acts := StoreThenMark(cfg);
    ws, acts := Extend(cfg, ws, acts, Begin(1));
    ws, acts := Extend(cfg, ws, acts, Move(1, true));
    ws, acts := Extend(cfg, ws, acts, Tick(cfg.ttl));
    ws, acts := Extend(cfg, ws, acts, Move(1, true));
  }

  lemma Evicting(cfg: Config) returns (ws: seq<World>, acts: seq<Action>)
    requires cfg.ttl > 0
    ensures Run(cfg, ws, acts) && NoLoadAtMarks(ws, acts)
    ensures ws[|acts|] == World(1, None, Some(1), 1, map[0 := STORED, 1 := Query(EvictClear, 1, false)])
  {
    ws, acts := StoreThenMark(cfg);
    ws, acts := Extend(cfg, ws, acts, Begin(1));
    ws, acts := Extend(cfg, ws, acts, Move(1, true));
    ws, acts := Extend(cfg, ws, acts, Move(1, true));
    ws, acts := Extend(cfg, ws, acts, Move(1, true));
  }

  lemma AnotherLoads(cfg: Config) returns (ws: seq<World>, acts: seq<Action>)
    requires cfg.ttl > 0
    ensures Run(cfg, ws, acts) && NoLoadAtMarks(ws, acts)
    ensures ws[|acts|] == World(1, None, Some(1), 1,
                                map[0 := STORED, 1 := Query(EvictClear, 1, false), 2 := Query(Fetched(1), 1, false)])
  {
    ws, acts := Evicting(cfg);
    ws, acts := Extend(cfg, ws, acts, Begin(2));
    ws, acts := Extend(cfg, ws, acts, Move(2, true));
    ws, acts := Extend(cfg, ws, acts, Move(2, true));
    ws, acts := Extend(cfg, ws, acts, Move(2, true));
  }

  lemma EvictionUnderway(cfg: Config) returns (ws: seq<World>, acts: seq<Action>)
    requires cfg.ttl > 0
    ensures Run(cfg, ws, acts) && NoLoadAtMarks(ws, acts)
    ensures ws[|acts|] == World(1, Some(Stored(1, 1, 1)), None, 1,
                                map[0 := STORED, 1 := Query(EvictClear, 1, false), 2 := Query(Loaded, 1, false)])
  {
    ws, acts := AnotherLoads(cfg);
    ws, acts := Extend(cfg, ws, acts, Move(2, true));
    ws, acts := Extend(cfg, ws, acts, Move(2, true));
  }

  /** Query 0 has read its rows at time 0 when a mark lands at time 1. */
  lemma Overtaken(cfg: Config) returns (ws: seq<World>, acts: seq<Action>)
    ensures Harmless(cfg, ws, acts)
    ensures ws[|acts|] == World(1, None, Some(1), 1, map[0 := Query(Fetched(0), -1, false)])
  {
    ws, acts := [World(0, None, None, -1, map[])], [];
    ws, acts := Extend(cfg, ws, acts, Begin(0));
    ws, acts := Extend(cfg, ws, acts, Move(0, true));
    ws, acts := Extend(cfg, ws, acts, Move(0, true));
    ws, acts := Extend(cfg, ws, acts, Move(0, true));
    assert ws[|acts|] == World(0, None, None, -1, map[0 := Query(Fetched(0), -1, false)]);
    ws, acts := Extend(cfg, ws, acts, Tick(1));
    ws, acts := Extend(cfg, ws, acts, Mark(1));
  }

  /** A load in flight: the mark of time 1 overtakes it, it stores its old rows at time 2, and its own
      Clear erases the mark. Query 1, begun after the mark, promptly serves the old rows. */
  lemma InFlightLoad(cfg: Config) returns (ws: seq<World>, acts: seq<Action>)
    requires cfg.ttl > 0
    ensures Run(cfg, ws, acts) && 1 in ws[|acts|].queries
    ensures var q := ws[|acts|].queries[1]; Prompt(cfg, q) && Stale(q) && q.pc.Served? && q.mark <= q.pc.e.at
  {
    ws, acts := Overtaken(cfg);
    ws, acts := Extend(cfg, ws, acts, Tick(1));
    ws, acts := Extend(cfg, ws, acts, Move(0, true));
    ws, acts := Extend(cfg, ws, acts, Move(0, true));
    assert ws[|acts|] == World(2, Some(Stored(0, 2, 1)), None, 1, map[0 := STORED]);
    Answer(cfg, ws[|acts|], 0, 1);
    ws, acts := AskNow(cfg, ws, acts, 0, 1);
  }

  /** And a waiter: query 1 begins after the mark, misses, waits for that load, and gets the old rows. */
  lemma WaiterGetsOldRows(cfg: Config) returns (ws: seq<World>, acts: seq<Action>)
    requires cfg.ttl > 0
    ensures Run(cfg, ws, acts) && 1 in ws[|acts|].queries
    ensures var q := ws[|acts|].queries[1]; q.pc.ServedByWait? && Stale(q)
  {
    ws, acts := Overtaken(cfg);
    ws, acts := Extend(cfg, ws, acts, Begin(1));
    ws, acts := Extend(cfg, ws, acts, Move(1, true));
    ws, acts := Extend(cfg, ws, acts, Move(1, false));
    assert ws[|acts|] == World(1, None, Some(1), 1,
                               map[0 := Query(Fetched(0), -1, false), 1 := Query(Waiting, 1, false)]);
    ws, acts := Extend(cfg, ws, acts, Move(0, true));
    ws, acts := Extend(cfg, ws, acts, Move(1, true));
  }
}
