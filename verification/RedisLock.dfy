/** The stampede lock of rediscache and rueidiscache under every interleaving, over time.

    The two scripts are atomic: acquireLock is SET NX with a 30 s expiry, delkey deletes the lock
    when it still holds the given client id. A client id belongs to a process and is shared by all
    its callers. Heartbeat keys live 10 s after each SET. Reads of a waiter in the Redis client see
    the present; those of a waiter in the Rueidis client come from the client-side cache. They may
    see any earlier moment of the lock key, and of a heartbeat key any since it was first set.
 */
module RedisLock {
  const LOCK_MS: nat := 30000
  const BEAT_MS: nat := 10000

  /** The prefix of a client id tells the two clients apart; each probes only its own kind. */
  datatype Id = RedisId(n: nat) | RueidisId(n: nat)

  datatype Held = Held(id: Id, expires: nat)

  datatype Moment = Moment(now: nat, locks: map<string, Held>, beats: map<Id, nat>) {
    predicate Locked(name: string) { name in locks && now < locks[name].expires }
    predicate Beating(id: Id) { id in beats && now < beats[id] }
  }

  datatype Why = Release | Steal(seen: nat)

  /** History of the lock keys; who is the caller. Steal(seen) acted on a heartbeat read that
      showed the moment numbered seen. */
  datatype Event =
    | Granted(name: string, id: Id, at: nat, who: nat)
    | Deleted(name: string, id: Id, at: nat, who: nat, why: Why)

  datatype Net = Delivered | Dropped | ReplyLost

  datatype Pc =
    | Acquire
    | Won(grant: nat)
    | Idle(val: Id)
    | ReadAgain(val: Id, first: bool)
    | Probe(val: Id, first: bool)
    | Kill(val: Id, seen: nat)
    | ReadData
    | Served
    | LoadUnlocked
    | Done

  datatype Caller = Caller(name: string, id: Id, pc: Pc, retries: nat) {
    function At(pc: Pc): Caller { this.(pc := pc) }
    function Retry(): Caller { this.(pc := Acquire, retries := retries + 1) }
  }

  /** past holds every earlier moment; the present one has number |past|. born maps an id to the
      number of the first moment after its heartbeat was set. */
  datatype World = World(cur: Moment, past: seq<Moment>, events: seq<Event>,
                         callers: map<nat, Caller>, born: map<Id, nat>)
  {
    function At(m: nat): Moment { if m < |past| then past[m] else cur }
  }

  /** seen asks for a moment to read and is used by Rueidis callers only; hit says whether the
      data key has an entry. */
  datatype Action =
    | Tick(ms: nat)
    | BeatSet(id: Id)
    | BeatDel(id: Id)
    | Call(c: nat, name: string, id: Id)
    | Request(c: nat, net: Net, seen: nat, hit: bool)
    | Cancel(c: nat)

  /** The moment that a waiter's read of the lock shows. */
  function SeenLock(w: World, me: Caller, seen: nat): Moment {
    if me.id.RueidisId? then w.At(seen) else w.cur
  }

  /** The moment that a waiter's read of the heartbeat of val shows. */
  function SeenMoment(w: World, me: Caller, val: Id, seen: nat): (m: nat)
    ensures m <= |w.past|
    ensures me.id.RedisId? ==> m == |w.past|
    ensures val in w.born && w.born[val] <= |w.past| ==> w.born[val] <= m
  {
    if me.id.RueidisId? && seen < |w.past| && (val in w.born ==> w.born[val] <= seen) then seen else |w.past|
  }

  /** acquireLock: SET NX PX 30000, else GET. */
  function RunAcquire(w: World, c: nat): World
    requires c in w.callers
  {
    var me := w.callers[c];
    if w.cur.Locked(me.name) then w
    else w.(cur := w.cur.(locks := w.cur.locks[me.name := Held(me.id, w.cur.now + LOCK_MS)]),
            events := w.events + [Granted(me.name, me.id, w.cur.now, c)])
  }

  predicate HeldBy(m: Moment, name: string, id: Id) {
    m.Locked(name) && m.locks[name].id == id
  }

  /** delkey: DEL when the lock still holds id. */
  function RunDelkey(w: World, c: nat, id: Id, why: Why): World
    requires c in w.callers
  {
    var name := w.callers[c].name;
    if HeldBy(w.cur, name, id) then
      w.(cur := w.cur.(locks := w.cur.locks - {name}),
         events := w.events + [Deleted(name, id, w.cur.now, c, why)])
    else w
  }

  /** A poll that found nothing to do: wait for the next tick, or fail if its first read failed. */
  function EndOfPoll(me: Caller, val: Id, first: bool): Caller {
    if first then me.At(Idle(val)) else me.At(LoadUnlocked)
  }

  /** Only ids of the caller's own kind are probed. */
  predicate Probes(me: Caller, val: Id) {
    me.id.RedisId? == val.RedisId?
  }

  /** The request the caller's program counter stands at: the new server state and caller. */
  function Send(w: World, c: nat, net: Net, seen: nat, hit: bool): (World, Caller)
    requires c in w.callers
  {
    var me := w.callers[c];
    match me.pc
    case Acquire =>
      var w' := if net.Dropped? then w else RunAcquire(w, c);
      (w', if !net.Delivered? then me.At(LoadUnlocked)
           else if w.cur.Locked(me.name) then me.At(Idle(w.cur.locks[me.name].id))
           else me.At(Won(|w.events|)))
    case Won(_) => (if net.Dropped? then w else RunDelkey(w, c, me.id, Release), me.At(Done))
    case Idle(val) =>
      var m := SeenLock(w, me, seen);
      (w, if net.Delivered? && !m.Locked(me.name) then me.At(ReadData)
          else me.At(ReadAgain(val, net.Delivered?)))
    case ReadAgain(val, first) =>
      var m := SeenLock(w, me, seen);
      (w, if net.Delivered? && m.Locked(me.name) && m.locks[me.name].id != val then me.Retry()
          else if Probes(me, val) then me.At(Probe(val, first)) else EndOfPoll(me, val, first))
    case Probe(val, first) =>
      var m := SeenMoment(w, me, val, seen);
      (w, if net.Delivered? && !w.At(m).Beating(val) then me.At(Kill(val, m)) else EndOfPoll(me, val, first))
    case Kill(val, m) => (if net.Dropped? then w else RunDelkey(w, c, val, Steal(m)), me.Retry())
    case ReadData => (w, if net.Delivered? && hit then me.At(Served) else me.Retry())
    case _ => (w, me)
  }

  function Effect(w: World, a: Action): World {
    match a
    case Tick(ms) => w.(cur := w.cur.(now := w.cur.now + ms))
    case BeatSet(id) =>
      w.(cur := w.cur.(beats := w.cur.beats[id := w.cur.now + BEAT_MS]),
         born := if id in w.born then w.born else w.born[id := |w.past| + 1])
    case BeatDel(id) => w.(cur := w.cur.(beats := w.cur.beats - {id}))
    case Call(c, name, id) =>
      if c in w.callers || id !in w.born then w
      else w.(callers := w.callers[c := Caller(name, id, Acquire, 0)])
    case Request(c, net, seen, hit) =>
      if c !in w.callers then w
      else var (w', me) := Send(w, c, net, seen, hit); w'.(callers := w'.callers[c := me])
    case Cancel(c) =>
      if c in w.callers && w.callers[c].pc.Idle? then
        w.(callers := w.callers[c := w.callers[c].At(LoadUnlocked)])
      else w
  }

  function Step(w: World, a: Action): World {
    Effect(w, a).(past := w.past + [w.cur])
  }

  function Run(acts: seq<Action>): World {
    if acts == [] then World(Moment(0, map[], map[]), [], [], map[], map[])
    else Step(Run(acts[..|acts| - 1]), acts[|acts| - 1])
  }

  // ---------------------------------------------------------------- the invariant

  function LastOn(events: seq<Event>, t: nat, name: string): (r: int)
    requires t <= |events|
    ensures -1 <= r < t
    ensures r >= 0 ==> events[r].name == name
    ensures forall j :: r < j < t ==> events[j].name != name
    decreases t
  {
    if t == 0 then -1
    else if events[t - 1].name == name then t - 1
    else LastOn(events, t - 1, name)
  }

  /** The heartbeat of id was missing at the moment numbered m, after it had first been set. */
  ghost predicate MissingAt(w: World, id: Id, m: nat) {
    id in w.born && w.born[id] <= m < |w.past| && !w.past[m].Beating(id)
  }

  /** A grant comes when the lock is free: after a deletion, or 30 s after the grant before. A
      deletion hits the grant before, by a release of its own client id or by a lawful steal. */
  ghost predicate Sound(w: World, k: nat)
    requires k < |w.events|
  {
    var e := w.events[k];
    var prev := LastOn(w.events, k, e.name);
    && e.at <= w.cur.now
    && (prev >= 0 ==> w.events[prev].at <= e.at)
    && match e
       case Granted(_, _, at, _) =>
         prev >= 0 && w.events[prev].Granted? ==> w.events[prev].at + LOCK_MS <= at
       case Deleted(_, id, at, who, why) =>
         && prev >= 0 && w.events[prev].Granted? && w.events[prev].id == id
         && w.events[prev].at <= at < w.events[prev].at + LOCK_MS
         && (why.Steal? ==> MissingAt(w, id, why.seen))
         && (why.Release? ==> exists g :: 0 <= g < k && w.events[g].Granted? && w.events[g].name == e.name
                                          && w.events[g].id == id && w.events[g].who == who)
  }

  /** The lock key is what the last event of its name left behind. */
  ghost predicate Mirrors(w: World, name: string) {
    var last := LastOn(w.events, |w.events|, name);
    if last >= 0 && w.events[last].Granted?
    then name in w.cur.locks && w.cur.locks[name] == Held(w.events[last].id, w.events[last].at + LOCK_MS)
    else name !in w.cur.locks
  }

  /** Two clients of one kind. */
  predicate OwnKind(id: Id, val: Id) {
    match (id, val)
    case (RedisId(_), RedisId(_)) => true
    case (RueidisId(_), RueidisId(_)) => true
    case (_, _) => false
  }

  ghost predicate CallerInv(w: World, c: nat)
    requires c in w.callers
  {
    var me := w.callers[c];
    match me.pc
    case Won(g) => g < |w.events| && w.events[g].Granted? && w.events[g].name == me.name
                   && w.events[g].id == me.id && w.events[g].who == c
    case Kill(val, m) => MissingAt(w, val, m) && OwnKind(me.id, val)
    case Idle(val) => val in w.born
    case ReadAgain(val, _) => val in w.born
    case Probe(val, _) => val in w.born && OwnKind(me.id, val)
    case _ => true
  }

  ghost predicate Inv(w: World) {
    && (forall k {:trigger Sound(w, k)} :: 0 <= k < |w.events| ==> Sound(w, k))
    && (forall name {:trigger Mirrors(w, name)} :: Mirrors(w, name))
    && (forall c {:trigger CallerInv(w, c)} :: c in w.callers ==> CallerInv(w, c))
    && (forall c {:trigger w.callers[c]} :: c in w.callers ==> w.callers[c].id in w.born)
    && (forall k {:trigger w.events[k]} :: 0 <= k < |w.events| ==> w.events[k].id in w.born)
    && (forall id {:trigger id in w.born} :: id in w.born ==> w.born[id] <= |w.past|)
  }

  /** Steps that only add moments and time keep the rules of every event so far. */
  lemma SoundStable(w: World, w': World, k: nat)
    requires k < |w.events| && Sound(w, k)
    requires w.events <= w'.events && w.past <= w'.past && w.cur.now <= w'.cur.now
    requires forall id :: id in w.born ==> id in w'.born && w'.born[id] == w.born[id]
    ensures Sound(w', k)
  {
    var prev, prev' := LastOn(w.events, k, w.events[k].name), LastOn(w'.events, k, w.events[k].name);
    assert forall j :: 0 <= j < |w.events| ==> w'.events[j] == w.events[j];
    assert prev == prev';
    if w.events[k].Deleted? && w.events[k].why.Release? {
      var g :| 0 <= g < k && w.events[g].Granted? && w.events[g].name == w.events[k].name
               && w.events[g].id == w.events[k].id && w.events[g].who == w.events[k].who;
      assert w'.events[g] == w.events[g];
    }
  }

  lemma LastOnAppend(events: seq<Event>, e: Event, name: string)
    ensures LastOn(events + [e], |events| + 1, name) ==
            if e.name == name then |events| else LastOn(events, |events|, name)
    ensures LastOn(events + [e], |events|, name) == LastOn(events, |events|, name)
  {
    var r, r' := LastOn(events, |events|, name), LastOn(events + [e], |events|, name);
    assert forall j :: 0 <= j < |events| ==> (events + [e])[j] == events[j];
    assert r == r';
  }

  ghost predicate EventsInv(w: World) {
    && (forall k {:trigger Sound(w, k)} :: 0 <= k < |w.events| ==> Sound(w, k))
    && (forall name {:trigger Mirrors(w, name)} :: Mirrors(w, name))
  }

  /** The effect of a step on locks and events: none, one grant, or one deletion. */
  ghost predicate Quiet(w: World, w': World) {
    w'.events == w.events && w'.cur.locks == w.cur.locks
  }

  ghost predicate Grants(w: World, w': World, name: string, id: Id, who: nat) {
    && !w.cur.Locked(name)
    && w'.events == w.events + [Granted(name, id, w.cur.now, who)]
    && w'.cur.locks == w.cur.locks[name := Held(id, w.cur.now + LOCK_MS)]
  }

  ghost predicate Deletes(w: World, w': World, name: string, id: Id, who: nat, why: Why) {
    && HeldBy(w.cur, name, id)
    && w'.events == w.events + [Deleted(name, id, w.cur.now, who, why)]
    && w'.cur.locks == w.cur.locks - {name}
  }

  /** Time, moments and known ids only grow. */
  ghost predicate Grows(w: World, w': World) {
    && w.past <= w'.past && w.cur.now <= w'.cur.now && w.events <= w'.events
    && (forall id :: id in w.born ==> id in w'.born && w'.born[id] == w.born[id])
  }

  lemma QuietKeeps(w: World, w': World)
    requires EventsInv(w) && Grows(w, w') && Quiet(w, w')
    ensures EventsInv(w')
  {
    forall k: nat | k < |w'.events|
      ensures Sound(w', k)
    {
      SoundStable(w, w', k);
    }
    forall name
      ensures Mirrors(w', name)
    {
      assert Mirrors(w, name);
    }
  }

  /** A new event keeps the rules if it keeps its own, and the lock keys are still what the last
      events left. */
  lemma EventKeeps(w: World, w': World, e: Event)
    requires EventsInv(w) && Grows(w, w') && w'.events == w.events + [e] && Sound(w', |w.events|)
    requires Mirrors(w', e.name)
    requires forall n :: n != e.name ==>
               (n in w'.cur.locks <==> n in w.cur.locks) && (n in w.cur.locks ==> w'.cur.locks[n] == w.cur.locks[n])
    ensures EventsInv(w')
  {
    forall k: nat | k < |w'.events|
      ensures Sound(w', k)
    {
      if k < |w.events| {
        SoundStable(w, w', k);
      }
    }
    forall n
      ensures Mirrors(w', n)
    {
      LastOnAppend(w.events, e, n);
      assert Mirrors(w, n);
    }
  }

  lemma GrantKeeps(w: World, w': World, name: string, id: Id, who: nat)
    requires EventsInv(w) && Grows(w, w') && Grants(w, w', name, id, who)
    ensures EventsInv(w')
  {
    var e := Granted(name, id, w.cur.now, who);
    LastOnAppend(w.events, e, name);
    assert Mirrors(w, name);
    var prev := LastOn(w.events, |w.events|, name);
    if prev >= 0 {
      assert Sound(w, prev);
      assert w'.events[prev] == w.events[prev];
    }
    EventKeeps(w, w', e);
  }

  lemma DeleteKeeps(w: World, w': World, name: string, id: Id, who: nat, why: Why)
    requires EventsInv(w) && Grows(w, w') && Deletes(w, w', name, id, who, why)
    requires why.Steal? ==> MissingAt(w', id, why.seen)
    requires why.Release? ==> exists g :: 0 <= g < |w.events| && w.events[g].Granted? && w.events[g].name == name
                                          && w.events[g].id == id && w.events[g].who == who
    ensures EventsInv(w')
  {
    var e := Deleted(name, id, w.cur.now, who, why);
    LastOnAppend(w.events, e, name);
    assert Mirrors(w, name);
    var prev := LastOn(w.events, |w.events|, name);
    assert Sound(w, prev);
    assert w'.events[prev] == w.events[prev];
    if why.Release? {
      var g :| 0 <= g < |w.events| && w.events[g].Granted? && w.events[g].name == name
               && w.events[g].id == id && w.events[g].who == who;
      assert w'.events[g] == w.events[g];
    }
    EventKeeps(w, w', e);
  }

  /** A caller untouched by a step keeps its invariant. */
  lemma CallerStable(w: World, w': World, c: nat)
    requires c in w.callers && CallerInv(w, c) && Grows(w, w')
    requires c in w'.callers && w'.callers[c] == w.callers[c]
    ensures CallerInv(w', c)
  {
    assert forall j :: 0 <= j < |w.events| ==> w'.events[j] == w.events[j];
  }

  lemma SendKeepsEvents(w: World, c: nat, net: Net, seen: nat, hit: bool)
    requires Inv(w) && c in w.callers
    ensures var w' := Step(w, Request(c, net, seen, hit)); Grows(w, w') && EventsInv(w')
  {
    var me := w.callers[c];
    var w' := Step(w, Request(c, net, seen, hit));
    assert CallerInv(w, c);
    match me.pc
    case Acquire =>
      if !net.Dropped? && !w.cur.Locked(me.name) {
        GrantKeeps(w, w', me.name, me.id, c);
      } else {
        QuietKeeps(w, w');
      }
    case Won(_) =>
      if !net.Dropped? && HeldBy(w.cur, me.name, me.id) {
        DeleteKeeps(w, w', me.name, me.id, c, Release);
      } else {
        QuietKeeps(w, w');
      }
    case Kill(val, m) =>
      if !net.Dropped? && HeldBy(w.cur, me.name, val) {
        DeleteKeeps(w, w', me.name, val, c, Steal(m));
      } else {
        QuietKeeps(w, w');
      }
    case _ => QuietKeeps(w, w');
  }

  lemma SendKeepsCaller(w: World, c: nat, net: Net, seen: nat, hit: bool)
    requires Inv(w) && c in w.callers
    ensures var w' := Step(w, Request(c, net, seen, hit)); CallerInv(w', c) && w'.callers[c].id == w.callers[c].id
  {
    assert CallerInv(w, c);
    if w.callers[c].pc.Acquire? {
      AcquireKeepsCaller(w, c, net, seen, hit);
    }
  }

  lemma AcquireKeepsCaller(w: World, c: nat, net: Net, seen: nat, hit: bool)
    requires Inv(w) && c in w.callers && w.callers[c].pc.Acquire?
    ensures var w' := Step(w, Request(c, net, seen, hit)); CallerInv(w', c) && w'.callers[c].id == w.callers[c].id
  {
    var me := w.callers[c];
    if w.cur.Locked(me.name) {
      assert Mirrors(w, me.name);
      assert w.events[LastOn(w.events, |w.events|, me.name)].id in w.born;
    }
  }

  lemma RequestKeepsInv(w: World, c: nat, net: Net, seen: nat, hit: bool)
    requires Inv(w) && c in w.callers
    ensures Inv(Step(w, Request(c, net, seen, hit)))
  {
    var w' := Step(w, Request(c, net, seen, hit));
    SendKeepsEvents(w, c, net, seen, hit);
    SendKeepsCaller(w, c, net, seen, hit);
    forall d | d in w'.callers
      ensures CallerInv(w', d)
    {
      if d != c { CallerStable(w, w', d); }
    }
    RequestKeepsBorn(w, c, net, seen, hit);
  }

  lemma RequestKeepsBorn(w: World, c: nat, net: Net, seen: nat, hit: bool)
    requires Inv(w) && c in w.callers
    ensures var w' := Step(w, Request(c, net, seen, hit));
            w'.born == w.born && forall k {:trigger w'.events[k]} :: 0 <= k < |w'.events| ==> w'.events[k].id in w'.born
  {
    var w' := Step(w, Request(c, net, seen, hit));
    assert w.callers[c].id in w.born;
    assert CallerInv(w, c);
    assert forall k :: 0 <= k < |w.events| ==> w'.events[k] == w.events[k];
  }

  lemma StepKeepsInv(w: World, a: Action)
    requires Inv(w)
    ensures Inv(Step(w, a))
  {
    if a.Request? && a.c in w.callers {
      RequestKeepsInv(w, a.c, a.net, a.seen, a.hit);
    } else {
      OtherKeepsInv(w, a);
    }
  }

  lemma OtherKeepsInv(w: World, a: Action)
    requires Inv(w) && !(a.Request? && a.c in w.callers)
    ensures Inv(Step(w, a))
  {
    var w' := Step(w, a);
    QuietKeeps(w, w');
    forall c | c in w'.callers
      ensures CallerInv(w', c)
    {
      if c in w.callers {
        assert CallerInv(w, c);
        if w'.callers[c] == w.callers[c] { CallerStable(w, w', c); }
      }
    }
    forall c | c in w'.callers
      ensures w'.callers[c].id in w'.born
    {
      if c in w.callers { assert w.callers[c].id in w.born; }
    }
  }

  lemma {:induction false} RunKeepsInv(acts: seq<Action>)
    ensures Inv(Run(acts))
  {
    if acts != [] {
      RunKeepsInv(acts[..|acts| - 1]);
      StepKeepsInv(Run(acts[..|acts| - 1]), acts[|acts| - 1]);
    }
  }

  // ---------------------------------------------------------------- the promises

  /** Client id won the lock of name at event i, and later somebody won it at event j. */
  ghost predicate WonAgain(w: World, i: nat, j: nat) {
    i < j < |w.events| && w.events[i].Granted? && w.events[j].Granted? && w.events[i].name == w.events[j].name
  }

  ghost predicate ReleasedBetween(w: World, i: nat, j: nat)
    requires i < j < |w.events|
  {
    exists k :: i < k < j && w.events[k].Deleted? && w.events[k].name == w.events[i].name
                && w.events[k].id == w.events[i].id && w.events[k].why.Release?
  }

  ghost predicate MissedSinceBorn(w: World, id: Id) {
    exists m: nat :: MissingAt(w, id, m)
  }

  /** The next event of the name after a grant: a deletion of that grant, or a grant 30 s later. */
  lemma AfterGrant(w: World, i: nat, j: nat) returns (k: nat)
    requires EventsInv(w) && WonAgain(w, i, j)
    ensures i < k <= j && w.events[k].name == w.events[i].name
    ensures if w.events[k].Granted? then w.events[i].at + LOCK_MS <= w.events[k].at
            else k < j && w.events[k].id == w.events[i].id
                 && (w.events[k].why.Steal? ==> MissingAt(w, w.events[i].id, w.events[k].why.seen))
  {
    k := NextOn(w.events, i + 1, w.events[i].name);
    assert LastOn(w.events, k, w.events[i].name) == i;
    assert Sound(w, k);
  }

  /** In every run: once client id has won a lock, nobody wins it again within 30 s unless a
      release issued with that id came in between, or the heartbeat of that id was missing at some
      moment after it was first set. */
  lemma LockSafety(acts: seq<Action>, i: nat, j: nat)
    requires WonAgain(Run(acts), i, j)
    ensures var w := Run(acts);
            || ReleasedBetween(w, i, j)
            || MissedSinceBorn(w, w.events[i].id)
            || w.events[i].at + LOCK_MS <= w.events[j].at
  {
    var w := Run(acts);
    RunKeepsInv(acts);
    var k := AfterGrant(w, i, j);
    if w.events[k].Granted? {
      GrantTimes(w, k, j);
    }
  }

  function NextOn(events: seq<Event>, from: nat, name: string): (i: nat)
    requires from <= |events|
    ensures from <= i <= |events|
    ensures i < |events| ==> events[i].name == name
    ensures forall j :: from <= j < i ==> events[j].name != name
    decreases |events| - from
  {
    if from == |events| || events[from].name == name then from else NextOn(events, from + 1, name)
  }

  /** Events of one name come in the order of their times. */
  lemma {:induction false} GrantTimes(w: World, k: nat, j: nat)
    requires EventsInv(w) && k <= j < |w.events| && w.events[k].name == w.events[j].name
    ensures w.events[k].at <= w.events[j].at
    decreases j
  {
    if k < j {
      assert Sound(w, j);
      var prev := LastOn(w.events, j, w.events[j].name);
      GrantTimes(w, k, prev);
    }
  }

  lemma RunAppend(acts: seq<Action>, a: Action)
    ensures Run(acts + [a]) == Step(Run(acts), a)
  {
    assert (acts + [a])[..|acts|] == acts;
  }

  /** What a script that deletes can end, exactly: the release of a winner and the kill of a waiter
      end the tenure in force, whoever's it is, if and only if it belongs to the client id they
      name. There is no fence: neither asks whether it is the tenure it won or watched. */
  lemma DelkeyEndsTenure(acts: seq<Action>, c: nat, net: Net, seen: nat, hit: bool, g: nat)
    requires var w := Run(acts);
             && c in w.callers && (w.callers[c].pc.Won? || w.callers[c].pc.Kill?) && !net.Dropped?
             && g < |w.events| && w.events[g].Granted? && w.events[g].name == w.callers[c].name
             && LastOn(w.events, |w.events|, w.callers[c].name) == g && w.cur.Locked(w.callers[c].name)
    ensures var w, w' := Run(acts), Run(acts + [Request(c, net, seen, hit)]);
            var named := if w.callers[c].pc.Won? then w.callers[c].id else w.callers[c].pc.val;
            !w'.cur.Locked(w.callers[c].name) <==> w.events[g].id == named
  {
    var w := Run(acts);
    RunKeepsInv(acts);
    RunAppend(acts, Request(c, net, seen, hit));
    assert Mirrors(w, w.callers[c].name);
  }

  /** A winner's release reaches a tenure that is not its own only if its own ended before: 30 s
      passed, its client id released in between, or its heartbeat was missing since it was set. */
  lemma LateRelease(acts: seq<Action>, c: nat)
    requires c in Run(acts).callers && Run(acts).callers[c].pc.Won?
    requires var w := Run(acts);
             var last := LastOn(w.events, |w.events|, w.callers[c].name);
             last >= 0 && w.events[last].Granted? && last != w.callers[c].pc.grant
    ensures var w := Run(acts);
            var own := w.callers[c].pc.grant;
            var last := LastOn(w.events, |w.events|, w.callers[c].name);
            && own < last && last < |w.events| && w.events[own].Granted?
            && (|| ReleasedBetween(w, own, last)
                || MissedSinceBorn(w, w.callers[c].id)
                || w.events[own].at + LOCK_MS <= w.events[last].at)
  {
    var w := Run(acts);
    RunKeepsInv(acts);
    assert CallerInv(w, c);
    LockSafety(acts, w.callers[c].pc.grant, LastOn(w.events, |w.events|, w.callers[c].name));
  }

  function Once(c: nat): Action { Request(c, Delivered, 0, false) }

  ghost predicate NeverMissed(w: World, id: Id) {
    forall m {:trigger MissingAt(w, id, m)} :: !MissingAt(w, id, m)
  }

  lemma StepKeepsBeating(w: World, a: Action, id: Id)
    requires NeverMissed(w, id) && (id !in w.born || (w.cur.Beating(id) && w.born[id] <= |w.past|))
    ensures NeverMissed(Step(w, a), id)
  {
    var w' := Step(w, a);
    forall m: nat
      ensures !MissingAt(w', id, m)
    {
      assert !MissingAt(w, id, m);
      if id in w.born && m < |w.past| {
        assert w'.past[m] == w.past[m];
      }
    }
  }

  /** One more action of a concrete run. */
  lemma Extend(acts: seq<Action>, a: Action) returns (acts': seq<Action>)
    ensures acts' == acts + [a] && Run(acts') == Step(Run(acts), a)
    ensures |Run(acts').past| == |acts'|
  {
    acts' := acts + [a];
    RunAppend(acts, a);
    PastLength(acts');
  }

  lemma {:induction false} PastLength(acts: seq<Action>)
    ensures |Run(acts).past| == |acts|
  {
    if acts != [] {
      PastLength(acts[..|acts| - 1]);
    }
  }

  /** One more action of a concrete run in which id keeps beating. */
  lemma ExtendBeating(acts: seq<Action>, a: Action, id: Id) returns (acts': seq<Action>)
    requires NeverMissed(Run(acts), id) && (id in Run(acts).born ==> Run(acts).cur.Beating(id))
    ensures acts' == acts + [a] && Run(acts') == Step(Run(acts), a)
    ensures NeverMissed(Run(acts'), id)
  {
    acts' := Extend(acts, a);
    RunKeepsInv(acts);
    StepKeepsBeating(Run(acts), a, id);
  }

  /** The parts of a state that matter to the next steps of the concrete runs below, where id x
      was born, has never missed, and its heartbeat ends at beat. */
  ghost predicate Looks(w: World, x: Id, now: nat, beat: nat, held: Held, callers: map<nat, Caller>, events: nat) {
    && w.cur.now == now && w.cur.locks == map["k" := held] && x in w.cur.beats && w.cur.beats[x] == beat
    && now < beat && x in w.born && NeverMissed(w, x)
    && w.callers == callers && |w.events| == events
  }

  /** The client of the first process wins and keeps its heartbeat up for 30 s. */
  lemma OutlivesItsLock() returns (acts: seq<Action>)
    ensures Looks(Run(acts), RedisId(1), 30000, 37000, Held(RedisId(1), 30000),
                  map[1 := Caller("k", RedisId(1), Won(0), 0)], 1)
  {
    var x := RedisId(1);
    acts := ExtendBeating([], BeatSet(x), x);
    acts := ExtendBeating(acts, Call(1, "k", x), x);
    acts := ExtendBeating(acts, Once(1), x);
    for k := 1 to 4
      invariant Looks(Run(acts), x, 9000 * (k - 1), 9000 * (k - 1) + 10000, Held(x, 30000),
                      map[1 := Caller("k", x, Won(0), 0)], 1)
    {
      acts := ExtendBeating(acts, Tick(9000), x);
      acts := ExtendBeating(acts, BeatSet(x), x);
    }
    acts := ExtendBeating(acts, Tick(3000), x);
  }

  lemma SecondWin() returns (acts: seq<Action>)
    ensures Looks(Run(acts), RedisId(1), 30000, 37000, Held(RedisId(1), 60000),
                  map[1 := Caller("k", RedisId(1), Won(0), 0), 2 := Caller("k", RedisId(1), Won(1), 0)], 2)
  {
    var x := RedisId(1);
    acts := OutlivesItsLock();
    acts := ExtendBeating(acts, Call(2, "k", x), x);
    acts := ExtendBeating(acts, Once(2), x);
  }

  lemma LateReleaseDeletes() returns (acts: seq<Action>)
    ensures var w, x := Run(acts), RedisId(1);
            && w.cur.now == LOCK_MS && w.cur.locks == map[] && w.cur.Beating(x) && NeverMissed(w, x) && x in w.born
            && w.callers == map[1 := Caller("k", x, Done, 0), 2 := Caller("k", x, Won(1), 0)]
  {
    acts := SecondWin();
    acts := ExtendBeating(acts, Once(1), RedisId(1));
  }

  lemma RivalComes() returns (acts: seq<Action>)
    ensures var w, x, y := Run(acts), RedisId(1), RedisId(2);
            && w.cur.now == LOCK_MS && w.cur.locks == map[] && w.cur.Beating(x) && NeverMissed(w, x) && x in w.born
            && w.callers == map[1 := Caller("k", x, Done, 0), 2 := Caller("k", x, Won(1), 0),
                                3 := Caller("k", y, Acquire, 0)]
  {
    var x, y := RedisId(1), RedisId(2);
    acts := LateReleaseDeletes();
    acts := ExtendBeating(acts, BeatSet(y), x);
    acts := ExtendBeating(acts, Call(3, "k", y), x);
  }

  /** It does happen: caller 1 outlives its 30 s, caller 2 of the same process wins, the late
      release of caller 1 deletes the new lock, and caller 3 of another process wins at once. Two
      callers hold the lock, and the heartbeat of the first process never missed. */
  lemma LateReleaseHarms() returns (acts: seq<Action>)
    ensures var w, x := Run(acts), RedisId(1);
            && 2 in w.callers && 3 in w.callers && w.callers[2].pc.Won? && w.callers[3].pc.Won?
            && w.callers[2].name == w.callers[3].name && w.callers[2].id == x != w.callers[3].id
            && w.cur.now == LOCK_MS && NeverMissed(w, x)
  {
    acts := RivalComes();
    acts := ExtendBeating(acts, Once(3), RedisId(1));
  }

  /** A state of the second concrete run. */
  ghost predicate Is(w: World, cur: Moment, events: seq<Event>, callers: map<nat, Caller>) {
    w.cur == cur && w.events == events && w.callers == callers && RedisId(1) in w.born && RedisId(2) in w.born
  }

  lemma FirstWins() returns (acts: seq<Action>)
    ensures |acts| == 4 && var x, y := RedisId(1), RedisId(2);
            Is(Run(acts), Moment(0, map["k" := Held(x, 30000)], map[x := 10000, y := 10000]),
               [Granted("k", x, 0, 1)], map[1 := Caller("k", x, Won(0), 0)])
  {
    var x, y := RedisId(1), RedisId(2);
    acts := Extend([], BeatSet(x));
    acts := Extend(acts, BeatSet(y));
    acts := Extend(acts, Call(1, "k", x));
    acts := Extend(acts, Once(1));
  }

  lemma WaiterWaits() returns (acts: seq<Action>)
    ensures |acts| == 6 && var x, y := RedisId(1), RedisId(2);
            Is(Run(acts), Moment(0, map["k" := Held(x, 30000)], map[x := 10000, y := 10000]),
               [Granted("k", x, 0, 1)], map[1 := Caller("k", x, Won(0), 0), 2 := Caller("k", y, Idle(x), 0)])
  {
    var x, y := RedisId(1), RedisId(2);
    acts := FirstWins();
    acts := Extend(acts, Call(2, "k", y));
    acts := Extend(acts, Once(2));
  }

  lemma WaiterLooks() returns (acts: seq<Action>)
    ensures |acts| == 8 && var x, y := RedisId(1), RedisId(2);
            Is(Run(acts), Moment(10000, map["k" := Held(x, 30000)], map[x := 10000, y := 10000]),
               [Granted("k", x, 0, 1)], map[1 := Caller("k", x, Won(0), 0), 2 := Caller("k", y, ReadAgain(x, true), 0)])
  {
    acts := WaiterWaits();
    acts := Extend(acts, Tick(10000));
    acts := Extend(acts, Once(2));
  }

  lemma WaiterSeesGap() returns (acts: seq<Action>)
    ensures |acts| == 10 && var x, y := RedisId(1), RedisId(2);
            Is(Run(acts), Moment(10000, map["k" := Held(x, 30000)], map[x := 10000, y := 10000]),
               [Granted("k", x, 0, 1)], map[1 := Caller("k", x, Won(0), 0), 2 := Caller("k", y, Kill(x, 9), 0)])
  {
    acts := WaiterLooks();
    acts := Extend(acts, Once(2));
    assert Run(acts).callers[2].pc == Probe(RedisId(1), true);
    acts := Extend(acts, Once(2));
  }

  lemma WaiterDecides() returns (acts: seq<Action>)
    ensures |acts| == 11 && var x, y := RedisId(1), RedisId(2);
            Is(Run(acts), Moment(10000, map["k" := Held(x, 30000)], map[x := 20000, y := 10000]),
               [Granted("k", x, 0, 1)], map[1 := Caller("k", x, Won(0), 0), 2 := Caller("k", y, Kill(x, 9), 0)])
  {
    acts := WaiterSeesGap();
    acts := Extend(acts, BeatSet(RedisId(1)));
  }

  lemma HolderReleases() returns (acts: seq<Action>)
    ensures |acts| == 12 && var x, y := RedisId(1), RedisId(2);
            Is(Run(acts), Moment(10000, map[], map[x := 20000, y := 10000]),
               [Granted("k", x, 0, 1), Deleted("k", x, 10000, 1, Release)],
               map[1 := Caller("k", x, Done, 0), 2 := Caller("k", y, Kill(x, 9), 0)])
  {
    acts := WaiterDecides();
    acts := Extend(acts, Once(1));
  }

  lemma HolderCalls() returns (acts: seq<Action>)
    ensures |acts| == 13 && var x, y := RedisId(1), RedisId(2);
            Is(Run(acts), Moment(10000, map[], map[x := 20000, y := 10000]),
               [Granted("k", x, 0, 1), Deleted("k", x, 10000, 1, Release)],
               map[1 := Caller("k", x, Done, 0), 2 := Caller("k", y, Kill(x, 9), 0), 3 := Caller("k", x, Acquire, 0)])
  {
    acts := HolderReleases();
    acts := Extend(acts, Call(3, "k", RedisId(1)));
  }

  lemma HolderComesBack() returns (acts: seq<Action>)
    ensures |acts| == 14 && var x, y := RedisId(1), RedisId(2);
            Is(Run(acts), Moment(10000, map["k" := Held(x, 40000)], map[x := 20000, y := 10000]),
               [Granted("k", x, 0, 1), Deleted("k", x, 10000, 1, Release), Granted("k", x, 10000, 3)],
               map[1 := Caller("k", x, Done, 0), 2 := Caller("k", y, Kill(x, 9), 0), 3 := Caller("k", x, Won(2), 0)])
  {
    acts := HolderCalls();
    acts := Extend(acts, Once(3));
  }

  lemma KillLands() returns (acts: seq<Action>)
    ensures |acts| == 15 && var w, x, y := Run(acts), RedisId(1), RedisId(2);
            && Is(w, Moment(10000, map[], map[x := 20000, y := 10000]),
                  [Granted("k", x, 0, 1), Deleted("k", x, 10000, 1, Release), Granted("k", x, 10000, 3),
                   Deleted("k", x, 10000, 2, Steal(9))],
                  map[1 := Caller("k", x, Done, 0), 2 := Caller("k", y, Acquire, 1), 3 := Caller("k", x, Won(2), 0)])
            && |w.past| == 15 && w.At(14).Beating(x)
  {
    acts := HolderComesBack();
    acts := Extend(acts, Once(2));
  }

  /** Presence since the win is not enough. Caller 2 sees the heartbeat of caller 1's process
      missing; then the refresh lands, caller 1 releases, and caller 3 of that process wins. The
      kill that caller 2 had decided on deletes the lock of caller 3, and caller 2 wins. Moment 14
      is the first after the win of caller 3; the heartbeat is present from then on. */
  lemma OldEvidenceHarms() returns (acts: seq<Action>)
    ensures var w, x := Run(acts), RedisId(1);
            && 2 in w.callers && 3 in w.callers && w.callers[3].pc == Won(2) && w.callers[2].pc == Won(4)
            && WonAgain(w, 2, 4) && w.events[2].id == x && w.callers[2].id != x
            && w.events[2].at == w.events[4].at && !ReleasedBetween(w, 2, 4)
            && |w.past| == 16 && forall m :: 14 <= m <= |w.past| ==> w.At(m).Beating(x)
  {
    acts := KillLands();
    acts := Extend(acts, Once(2));
  }

  // ---------------------------------------------------------------- freeing a dead holder's lock

  predicate NotMine(a: Action, c: nat) {
    !(a.Request? && a.c == c) && a != Cancel(c)
  }

  ghost predicate AllNotMine(moves: seq<Action>, c: nat) {
    forall k :: 0 <= k < |moves| ==> NotMine(moves[k], c)
  }

  lemma OtherMoves(w: World, a: Action, c: nat)
    requires NotMine(a, c) && c in w.callers
    ensures var w' := Step(w, a);
            && c in w'.callers && w'.callers[c] == w.callers[c] && w.events <= w'.events && w.cur.now <= w'.cur.now
            && w.born.Keys <= w'.born.Keys
  {
  }

  /** While everybody else moves, caller c stands still, and neither time nor history runs back. */
  lemma {:induction false} OthersMove(acts: seq<Action>, moves: seq<Action>, c: nat)
    requires AllNotMine(moves, c) && c in Run(acts).callers
    ensures var w, w' := Run(acts), Run(acts + moves);
            c in w'.callers && w'.callers[c] == w.callers[c] && w.events <= w'.events && w.cur.now <= w'.cur.now
    decreases |moves|
  {
    if moves == [] {
      assert acts + moves == acts;
    } else {
      var front, a := moves[..|moves| - 1], moves[|moves| - 1];
      OthersMove(acts, front, c);
      assert acts + moves == (acts + front) + [a];
      RunAppend(acts + front, a);
      OtherMoves(Run(acts + front), a, c);
    }
  }

  // ---------------------------------------------------------------- what a read of the past shows

  /** Moment m of a run is where its first m actions led. Time and history have only grown since, and
      what happened since happened no earlier. */
  lemma {:induction false} Earlier(acts: seq<Action>, m: nat)
    requires m <= |acts|
    ensures var w, w' := Run(acts[..m]), Run(acts);
            && |w'.past| == |acts| && w'.At(m) == w.cur && w.cur.now <= w'.cur.now && w.events <= w'.events
            && forall k :: |w.events| <= k < |w'.events| ==> w.cur.now <= w'.events[k].at
  {
    PastLength(acts);
    if m == |acts| {
      assert acts[..m] == acts;
    } else {
      var front, a := acts[..|acts| - 1], acts[|acts| - 1];
      Earlier(front, m);
      assert front[..m] == acts[..m];
      StepGoesOn(Run(front), a);
    }
  }

  lemma StepGoesOn(w: World, a: Action)
    ensures var w' := Step(w, a);
            && w'.past == w.past + [w.cur] && w.cur.now <= w'.cur.now && w.events <= w'.events
            && forall k :: |w.events| <= k < |w'.events| ==> w'.events[k].at == w.cur.now
  {
  }

  /** The heartbeat of id was last set at action j. */
  ghost predicate LastSet(acts: seq<Action>, j: nat, id: Id) {
    j < |acts| && acts[j] == BeatSet(id) && forall i :: j < i < |acts| ==> acts[i] != BeatSet(id)
  }

  lemma NotSet(w: World, a: Action, id: Id)
    requires a != BeatSet(id)
    ensures var w' := Step(w, a); id in w'.cur.beats ==> id in w.cur.beats && w'.cur.beats[id] == w.cur.beats[id]
  {
  }

  lemma {:induction false} HeartbeatEnds(acts: seq<Action>, j: nat, id: Id)
    requires LastSet(acts, j, id)
    ensures id in Run(acts).cur.beats ==> Run(acts).cur.beats[id] == Run(acts[..j]).cur.now + BEAT_MS
  {
    var front := acts[..|acts| - 1];
    if j < |acts| - 1 {
      HeartbeatEnds(front, j, id);
      NotSet(Run(front), acts[|acts| - 1], id);
      assert front[..j] == acts[..j];
    }
  }

  lemma TimeGrows(acts: seq<Action>, m: nat, j: nat)
    requires m <= |acts| && j <= |acts|
    ensures m <= j ==> Run(acts[..m]).cur.now <= Run(acts[..j]).cur.now
  {
    if m <= j {
      Earlier(acts[..j], m);
      assert acts[..j][..m] == acts[..m];
    }
  }

  lemma BeatOver(met: seq<Action>, m: nat, j: nat, val: Id)
    requires LastSet(met, j, val) && m <= |met| && Run(met[..j]).cur.now + BEAT_MS <= Run(met[..m]).cur.now
    ensures !Run(met[..m]).cur.Beating(val)
  {
    TimeGrows(met, m, j);
    assert met[..m][..j] == met[..j];
    HeartbeatEnds(met[..m], j, val);
  }

  /** Val has not won the lock again since grant g. */
  ghost predicate LastWin(w: World, g: nat, val: Id) {
    && g < |w.events| && w.events[g].Granted? && w.events[g].id == val
    && forall k :: g < k < |w.events| && w.events[k].Granted? && w.events[k].name == w.events[g].name ==>
         w.events[k].id != val
  }

  /** From 30 s after its last win on, val does not hold the lock. */
  lemma GrantRunsOut(acts: seq<Action>, g: nat, val: Id)
    requires var w := Run(acts); LastWin(w, g, val) && w.events[g].at + LOCK_MS <= w.cur.now
    ensures !HeldBy(Run(acts).cur, Run(acts).events[g].name, val)
  {
    RunKeepsInv(acts);
    assert Mirrors(Run(acts), Run(acts).events[g].name);
  }

  lemma GrantRanOut(met: seq<Action>, m: nat, g: nat, val: Id)
    requires var w := Run(met); m <= |met| && LastWin(w, g, val) && w.events[g].at + LOCK_MS <= Run(met[..m]).cur.now
    ensures !HeldBy(Run(met[..m]).cur, Run(met).events[g].name, val)
  {
    Earlier(met, m);
    var w, w' := Run(met[..m]), Run(met);
    assert forall k :: 0 <= k < |w.events| ==> w.events[k] == w'.events[k];
    GrantRunsOut(met[..m], g, val);
  }
}
