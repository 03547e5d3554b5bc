/** The polling wait of rediscache and rueidiscache, one poll at a time, with everybody else moving before
    each of its requests: when it ends the wait, and how long a dead or a slow holder can hold it up.
 */
module RedisPoll {
  import opened RedisLock

  // ---------------------------------------------------------------- what the reads of a waiter show

  /** A Redis read shows the present. A Rueidis read of the lock may show any moment so far, and one of a
      heartbeat any since it was first set. */
  lemma ReadsShow(w: World, me: Caller, val: Id)
    ensures me.id.RedisId? ==> forall seen ::
              SeenLock(w, me, seen) == w.cur && w.At(SeenMoment(w, me, val, seen)) == w.cur
    ensures me.id.RueidisId? ==> forall m: nat :: m <= |w.past| ==> SeenLock(w, me, m) == w.At(m)
    ensures me.id.RueidisId? && val in w.born ==> forall m: nat :: w.born[val] <= m <= |w.past| ==>
              SeenMoment(w, me, val, m) == m
  {
  }

  /** A waiter probes and kills only ids of its own kind. */
  lemma KillsOwnKind(acts: seq<Action>, c: nat)
    requires c in Run(acts).callers && (Run(acts).callers[c].pc.Probe? || Run(acts).callers[c].pc.Kill?)
    ensures OwnKind(Run(acts).callers[c].id, Run(acts).callers[c].pc.val)
  {
    RunKeepsInv(acts);
    assert CallerInv(Run(acts), c);
  }

  // ---------------------------------------------------------------- the lock and its release

  /** The script that asks for the lock: it is granted exactly if it is free, for 30 s from then on, and
      otherwise its holder's id is the answer. Without an answer the caller goes on without the lock. */
  lemma AcquireExactly(w: World, c: nat, net: Net, seen: nat, hit: bool)
    requires c in w.callers && w.callers[c].pc.Acquire?
    ensures var me, w' := w.callers[c], Step(w, Request(c, net, seen, hit));
            var free := me.name in w.cur.locks ==> w.cur.locks[me.name].expires <= w.cur.now;
            && c in w'.callers
            && w'.callers[c] == (if !net.Delivered? then me.At(LoadUnlocked)
                                 else if free then me.At(Won(|w.events|))
                                 else me.At(Idle(w.cur.locks[me.name].id)))
            && w'.cur == (if !net.Dropped? && free
                          then w.cur.(locks := w.cur.locks[me.name := Held(me.id, w.cur.now + 30000)]) else w.cur)
  {
  }

  /** The script that deletes it, sent by a release or a kill. */
  lemma DeleteExactly(w: World, c: nat, net: Net, seen: nat, hit: bool)
    requires c in w.callers && (w.callers[c].pc.Won? || w.callers[c].pc.Kill?)
    ensures var me, w' := w.callers[c], Step(w, Request(c, net, seen, hit));
            var id := if me.pc.Won? then me.id else me.pc.val;
            var held := me.name in w.cur.locks && w.cur.now < w.cur.locks[me.name].expires
                        && w.cur.locks[me.name].id == id;
            && c in w'.callers && w'.callers[c] == (if me.pc.Won? then me.At(Done) else me.Retry())
            && w'.cur == if !net.Dropped? && held then w.cur.(locks := w.cur.locks - {me.name}) else w.cur
  {
  }

  /** The heartbeat: each SET keeps it for 10 s, and its id is known from the first SET on. */
  lemma SetExactly(w: World, id: Id)
    ensures var w' := Step(w, BeatSet(id));
            && w'.cur == w.cur.(beats := w.cur.beats[id := w.cur.now + 10000])
            && id in w'.born && w'.born[id] == if id in w.born then w.born[id] else |w.past| + 1
  {
  }

  /** What comes from elsewhere: a heartbeat is deleted, time passes, a call begins with an id that is known. */
  lemma OutsideExactly(w: World, id: Id, ms: nat, c: nat, name: string)
    ensures Step(w, BeatDel(id)).cur == w.cur.(beats := w.cur.beats - {id})
    ensures Step(w, Tick(ms)).cur == w.cur.(now := w.cur.now + ms)
    ensures c !in w.callers && id in w.born ==>
              Step(w, Call(c, name, id)).callers == w.callers[c := Caller(name, id, Acquire, 0)]
  {
  }

  /** The end of its context ends a wait between two polls with an error. */
  lemma CancelExactly(w: World, c: nat)
    requires c in w.callers && w.callers[c].pc.Idle?
    ensures Step(w, Cancel(c)).callers == w.callers[c := w.callers[c].At(LoadUnlocked)]
  {
  }

  // ---------------------------------------------------------------- a poll

  /** What everybody else does before a request of the poll, what becomes of the request, and the moment
      that it asks for if it is a Rueidis read. */
  datatype Turn = Turn(moves: seq<Action>, net: Net, seen: nat)

  /** Caller c polls for the lock that it saw val hold; hit says whether the data key has an entry. */
  datatype Poll = Poll(start: seq<Action>, c: nat, val: Id, turns: seq<Turn>, hit: bool) {
    ghost predicate Valid() {
      && c in Run(start).callers && Me().pc == Idle(val)
      && |turns| == 4 && forall n :: 0 <= n < 4 ==> AllNotMine(turns[n].moves, c)
    }

    function Me(): Caller
      requires c in Run(start).callers
    {
      Run(start).callers[c]
    }

    /** The run after n requests, the run that request n meets, and the state that it meets. */
    function Sent(n: nat): seq<Action>
      requires n <= |turns|
    {
      if n == 0 then start
      else Sent(n - 1) + turns[n - 1].moves + [Request(c, turns[n - 1].net, turns[n - 1].seen, hit)]
    }

    function Until(n: nat): seq<Action>
      requires n < |turns|
    {
      Sent(n) + turns[n].moves
    }

    function Met(n: nat): World
      requires n < |turns|
    {
      Run(Until(n))
    }

    /** What read n of the lock shows, and what the probe shows. */
    function Shown(n: nat): Moment
      requires n < |turns| && c in Run(start).callers
    {
      SeenLock(Met(n), Me(), turns[n].seen)
    }

    function Probed(): Moment
      requires 2 < |turns| && c in Run(start).callers
    {
      Met(2).At(SeenMoment(Met(2), Me(), val, turns[2].seen))
    }

    /** The poll sees the lock gone, in other hands, or its holder, of its own kind, without a heartbeat. */
    predicate Gone()
      requires 2 < |turns| && c in Run(start).callers
    {
      turns[0].net.Delivered? && !Shown(0).Locked(Me().name)
    }

    predicate Taken()
      requires 2 < |turns| && c in Run(start).callers
    {
      turns[1].net.Delivered? && Shown(1).Locked(Me().name) && Shown(1).locks[Me().name].id != val
    }

    predicate Dead()
      requires 2 < |turns| && c in Run(start).callers
    {
      OwnKind(Me().id, val) && turns[2].net.Delivered? && !Probed().Beating(val)
    }

    /** The caller after n requests. */
    predicate Ends(n: nat, after: Caller)
      requires n <= |turns|
    {
      c in Run(Sent(n)).callers && Run(Sent(n)).callers[c] == after
    }

    /** The wait is over after n requests, with an entry or with ErrRetryLocker. */
    predicate EndsWait(n: nat)
      requires n <= |turns| && c in Run(start).callers
    {
      Ends(n, Me().Retry()) || Ends(n, Me().At(Served))
    }
  }

  /** The request of caller c that meets w, after moves of everybody else from before on. */
  ghost predicate Goes(before: World, w: World, after: World, c: nat, t: Turn, hit: bool) {
    && c in before.callers && c in w.callers && w.callers[c] == before.callers[c]
    && before.events <= w.events && before.cur.now <= w.cur.now
    && after == Step(w, Request(c, t.net, t.seen, hit))
  }

  lemma NextRequest(p: Poll, n: nat)
    requires p.Valid() && n < 4 && p.c in Run(p.Sent(n)).callers
    ensures Goes(Run(p.Sent(n)), p.Met(n), Run(p.Sent(n + 1)), p.c, p.turns[n], p.hit)
  {
    OthersMove(p.Sent(n), p.turns[n].moves, p.c);
    RunAppend(p.Until(n), Request(p.c, p.turns[n].net, p.turns[n].seen, p.hit));
  }

  lemma FirstRead(before: World, w: World, after: World, c: nat, t: Turn, hit: bool, val: Id)
    requires Goes(before, w, after, c, t, hit) && before.callers[c].pc == Idle(val)
    ensures var me := before.callers[c];
            c in after.callers && after.events == w.events && after.cur == w.cur
            && after.callers[c] == if t.net.Delivered? && !SeenLock(w, me, t.seen).Locked(me.name)
                                   then me.At(ReadData) else me.At(ReadAgain(val, t.net.Delivered?))
  {
  }

  lemma SecondRead(before: World, w: World, after: World, c: nat, t: Turn, hit: bool, val: Id, first: bool)
    requires Goes(before, w, after, c, t, hit) && before.callers[c].pc == ReadAgain(val, first)
    ensures var me := before.callers[c];
            var m := SeenLock(w, me, t.seen);
            c in after.callers
            && after.callers[c] == if t.net.Delivered? && m.Locked(me.name) && m.locks[me.name].id != val
                                   then me.Retry()
                                   else if OwnKind(me.id, val) then me.At(Probe(val, first))
                                   else if first then me.At(Idle(val)) else me.At(LoadUnlocked)
  {
  }

  lemma DataRead(before: World, w: World, after: World, c: nat, t: Turn, hit: bool)
    requires Goes(before, w, after, c, t, hit) && before.callers[c].pc == ReadData
    ensures var me := before.callers[c];
            c in after.callers && after.callers[c] == if t.net.Delivered? && hit then me.At(Served) else me.Retry()
  {
  }

  lemma ProbeRead(me: Caller, before: World, w: World, after: World, c: nat, t: Turn, hit: bool, val: Id, first: bool)
    requires Goes(before, w, after, c, t, hit) && before.callers[c] == me.At(Probe(val, first))
    ensures var m := SeenMoment(w, me, val, t.seen);
            c in after.callers
            && after.callers[c] == if t.net.Delivered? && !w.At(m).Beating(val) then me.At(Kill(val, m))
                                   else if first then me.At(Idle(val)) else me.At(LoadUnlocked)
  {
  }

  lemma KillGoes(before: World, w: World, after: World, c: nat, t: Turn, hit: bool, val: Id, m: nat)
    requires Goes(before, w, after, c, t, hit) && before.callers[c].pc == Kill(val, m)
    ensures var me := before.callers[c];
            && c in after.callers && after.callers[c] == me.Retry()
            && (!t.net.Dropped? ==> !HeldBy(after.cur, me.name, val))
  {
  }

  /** Where a poll stands that has found nothing: it goes on waiting, or it has failed with the error of its
      first read. */
  function NothingFound(p: Poll): Caller
    requires p.Valid()
  {
    if p.turns[0].net.Delivered? then p.Me() else p.Me().At(LoadUnlocked)
  }

  /** The first two requests. */
  lemma PollReads(p: Poll)
    requires p.Valid()
    ensures p.Gone() ==> p.Ends(2, if p.turns[1].net.Delivered? && p.hit then p.Me().At(Served) else p.Me().Retry())
    ensures !p.Gone() ==>
              p.Ends(2, if p.Taken() then p.Me().Retry()
                        else if OwnKind(p.Me().id, p.val) then p.Me().At(Probe(p.val, p.turns[0].net.Delivered?))
                        else NothingFound(p))
  {
    PollBegins(p);
    if p.Gone() {
      PollReadsData(p);
    } else {
      PollReadsAgain(p);
    }
  }

  lemma PollReadsData(p: Poll)
    requires p.Valid() && p.Ends(1, p.Me().At(ReadData))
    ensures p.Ends(2, if p.turns[1].net.Delivered? && p.hit then p.Me().At(Served) else p.Me().Retry())
  {
    NextRequest(p, 1);
    DataRead(Run(p.Sent(1)), p.Met(1), Run(p.Sent(2)), p.c, p.turns[1], p.hit);
  }

  lemma PollReadsAgain(p: Poll)
    requires p.Valid() && p.Ends(1, p.Me().At(ReadAgain(p.val, p.turns[0].net.Delivered?)))
    ensures p.Ends(2, if p.Taken() then p.Me().Retry()
                      else if OwnKind(p.Me().id, p.val) then p.Me().At(Probe(p.val, p.turns[0].net.Delivered?))
                      else NothingFound(p))
  {
    NextRequest(p, 1);
    SecondRead(Run(p.Sent(1)), p.Met(1), Run(p.Sent(2)), p.c, p.turns[1], p.hit, p.val, p.turns[0].net.Delivered?);
  }

  lemma InOrder(p: Poll)
    requires p.Valid()
    ensures p.Met(0).events <= p.Met(1).events && p.Met(0).cur.now <= p.Met(1).cur.now
  {
    PollBegins(p);
    NextRequest(p, 1);
  }

  lemma PollBegins(p: Poll)
    requires p.Valid()
    ensures Run(p.Sent(1)).events == p.Met(0).events && Run(p.Sent(1)).cur == p.Met(0).cur
    ensures p.Ends(1, p.Me().At(if p.Gone() then ReadData else ReadAgain(p.val, p.turns[0].net.Delivered?)))
  {
    NextRequest(p, 0);
    FirstRead(Run(p.start), p.Met(0), Run(p.Sent(1)), p.c, p.turns[0], p.hit, p.val);
  }

  /** The probe, and the kill if there is no heartbeat. */
  lemma PollProbes(p: Poll) returns (n: nat)
    requires p.Valid() && OwnKind(p.Me().id, p.val) && p.Ends(2, p.Me().At(Probe(p.val, p.turns[0].net.Delivered?)))
    ensures n == if p.Dead() then 4 else 3
    ensures p.Ends(n, if n == 4 then p.Me().Retry() else NothingFound(p))
    ensures n == 4 && !p.turns[3].net.Dropped? ==> !HeldBy(Run(p.Sent(n)).cur, p.Me().name, p.val)
  {
    var m := PollLooks(p);
    n := 3;
    if p.Dead() {
      PollKills(p, m);
      n := 4;
    }
  }

  lemma PollLooks(p: Poll) returns (m: nat)
    requires p.Valid() && OwnKind(p.Me().id, p.val) && p.Ends(2, p.Me().At(Probe(p.val, p.turns[0].net.Delivered?)))
    ensures p.Ends(3, if p.Dead() then p.Me().At(Kill(p.val, m)) else NothingFound(p))
  {
    var me, t, first := p.Me(), p.turns[2], p.turns[0].net.Delivered?;
    var b2, w2, b3 := Run(p.Sent(2)), p.Met(2), Run(p.Sent(3));
    m := SeenMoment(w2, me, p.val, t.seen);
    NextRequest(p, 2);
    ProbeRead(me, b2, w2, b3, p.c, t, p.hit, p.val, first);
  }

  lemma PollKills(p: Poll, m: nat)
    requires p.Valid() && p.Ends(3, p.Me().At(Kill(p.val, m)))
    ensures p.Ends(4, p.Me().Retry())
    ensures !p.turns[3].net.Dropped? ==> !HeldBy(Run(p.Sent(4)).cur, p.Me().name, p.val)
  {
    NextRequest(p, 3);
    KillGoes(Run(p.Sent(3)), p.Met(3), Run(p.Sent(4)), p.c, p.turns[3], p.hit, p.val, m);
  }

  /** One poll of either client, with everybody else moving before each of its requests, any of them lost,
      and its reads as old as they may be: it has at most four requests. It ends the wait exactly if it
      sees the lock gone, and then with the entry if its data read brings one, or in other hands, or its
      holder dead, and it ends with an error exactly if it sees none of that and its first read failed. It
      kills exactly for a dead holder, and a kill that arrives leaves the lock free of val. */
  lemma PollEnds(p: Poll) returns (n: nat)
    requires p.Valid()
    ensures n <= 4 && (n == 4 <==> !p.Gone() && !p.Taken() && p.Dead())
    ensures p.Gone() ==> p.Ends(n, if p.turns[1].net.Delivered? && p.hit then p.Me().At(Served) else p.Me().Retry())
    ensures !p.Gone() && (p.Taken() || p.Dead()) ==> p.Ends(n, p.Me().Retry())
    ensures !p.Gone() && !p.Taken() && !p.Dead() ==>
              p.Ends(n, if p.turns[0].net.Delivered? then p.Me() else p.Me().At(LoadUnlocked))
    ensures n == 4 && !p.turns[3].net.Dropped? ==> !HeldBy(Run(p.Sent(n)).cur, p.Me().name, p.val)
  {
    PollReads(p);
    n := 2;
    if !p.Gone() && !p.Taken() && OwnKind(p.Me().id, p.val) {
      n := PollProbes(p);
    }
  }

  // ---------------------------------------------------------------- when a poll must end the wait

  /** The number of the moment that read n of the lock shows. */
  lemma ReadIsEarlier(p: Poll, n: nat) returns (m: nat)
    requires p.Valid() && n < 4
    ensures m <= |p.Until(n)| && p.Shown(n) == Run(p.Until(n)[..m]).cur
  {
    var met := p.Until(n);
    PastLength(met);
    m := if p.Me().id.RueidisId? && p.turns[n].seen < |met| then p.turns[n].seen else |met|;
    Earlier(met, m);
  }

  lemma ProbeIsEarlier(p: Poll) returns (m: nat)
    requires p.Valid()
    ensures m <= |p.Until(2)| && p.Probed() == Run(p.Until(2)[..m]).cur
  {
    var met := p.Until(2);
    PastLength(met);
    m := SeenMoment(Run(met), p.Me(), p.val, p.turns[2].seen);
    Earlier(met, m);
  }

  /** A crashed holder blocks nobody for long. If the heartbeat of val is never set again after action j,
      and the probe shows it at most s ms late, every poll of either client that probes it 10 s and s ms
      after that SET or later ends the wait, whatever everybody else does before and between its
      requests; unless it saw the lock gone or in other hands it kills. The probe of a Redis caller is
      not late at all. */
  lemma DeadHolderIsReplaced(p: Poll, j: nat, s: nat) returns (n: nat)
    requires p.Valid() && OwnKind(p.Me().id, p.val) && p.turns[2].net.Delivered?
    requires LastSet(p.Until(2), j, p.val) && Run(p.Until(2)[..j]).cur.now + BEAT_MS + s <= p.Met(2).cur.now
    requires p.Met(2).cur.now <= p.Probed().now + s
    ensures n <= 4 && p.EndsWait(n)
    ensures !p.Gone() && !p.Taken() && !p.turns[3].net.Dropped? ==> !HeldBy(Run(p.Sent(n)).cur, p.Me().name, p.val)
  {
    var m := ProbeIsEarlier(p);
    BeatOver(p.Until(2), m, j, p.val);
    n := PollEnds(p);
  }

  /** Let the reads of the lock show it at most s ms late. A poll that begins 30 s and s ms after the
      last win of val ends the wait, heartbeat or not, except in one case: the lock is in other hands at
      its first read and gone at its second, and val is not seen dead. */
  lemma SlowHolderIsReplaced(p: Poll, g: nat, s: nat) returns (n: nat)
    requires p.Valid() && p.turns[0].net.Delivered? && p.turns[1].net.Delivered?
    requires LastWin(p.Met(1), g, p.val) && p.Met(1).events[g].name == p.Me().name
    requires g < |p.Met(0).events| && p.Met(0).events[g].at + LOCK_MS + s <= p.Met(0).cur.now
    requires forall k :: 0 <= k < 2 ==> p.Met(k).cur.now <= p.Shown(k).now + s
    ensures n <= 4
    ensures var name := p.Me().name;
            if p.Shown(0).Locked(name) && !HeldBy(p.Shown(0), name, p.val) && !p.Shown(1).Locked(name) && !p.Dead()
            then p.Ends(n, p.Me())
            else p.EndsWait(n)
  {
    InOrder(p);
    assert forall k :: 0 <= k < |p.Met(0).events| ==> p.Met(1).events[k] == p.Met(0).events[k];
    var k0 := ReadIsEarlier(p, 0);
    GrantRanOut(p.Until(0), k0, g, p.val);
    var k1 := ReadIsEarlier(p, 1);
    GrantRanOut(p.Until(1), k1, g, p.val);
    n := PollEnds(p);
  }

  // ---------------------------------------------------------------- concrete runs

  /** The case is real. Caller 2 polls for the lock of client 1, which has released it. Caller 3 wins
      before the first read and releases before the second: caller 2 goes on waiting for client 1. */
  lemma PollMissesBoth() returns (acts: seq<Action>)
    ensures |acts| == 13 && acts[8..] == [Once(3), Once(2), Once(3), Once(2), Once(2)]
    ensures Flicker(Run(acts), map[], Done, Done, Idle(RedisId(1)), 4)
  {
    acts := LockSeenGone();
    acts := Extend(acts, Once(2));
  }

  /** A state of that run; 1, 2 and 3 say where the callers stand. */
  ghost predicate Flicker(w: World, locks: map<string, Held>, pc1: Pc, pc3: Pc, pc2: Pc, events: nat) {
    var x, y := RedisId(1), RedisId(2);
    && Is(w, Moment(0, locks, map[x := 10000, y := 10000]), w.events,
          map[1 := Caller("k", x, pc1, 0), 2 := Caller("k", y, pc2, 0), 3 := Caller("k", y, pc3, 0)])
    && |w.events| == events
  }

  lemma HolderLeaves() returns (acts: seq<Action>)
    ensures |acts| == 7 && var x, y := RedisId(1), RedisId(2);
            && Is(Run(acts), Moment(0, map[], map[x := 10000, y := 10000]), Run(acts).events,
                  map[1 := Caller("k", x, Done, 0), 2 := Caller("k", y, Idle(x), 0)])
            && |Run(acts).events| == 2
  {
    acts := WaiterWaits();
    acts := Extend(acts, Once(1));
  }

  lemma RivalWins() returns (acts: seq<Action>)
    ensures |acts| == 9 && acts[8..] == [Once(3)]
    ensures Flicker(Run(acts), map["k" := Held(RedisId(2), 30000)], Done, Won(2), Idle(RedisId(1)), 3)
  {
    acts := HolderLeaves();
    acts := Extend(acts, Call(3, "k", RedisId(2)));
    acts := Extend(acts, Once(3));
  }

  lemma LockSeenHeld() returns (acts: seq<Action>)
    ensures |acts| == 10 && acts[8..] == [Once(3), Once(2)]
    ensures Flicker(Run(acts), map["k" := Held(RedisId(2), 30000)], Done, Won(2), ReadAgain(RedisId(1), true), 3)
  {
    acts := RivalWins();
    acts := Extend(acts, Once(2));
  }

  lemma LockSeenGone() returns (acts: seq<Action>)
    ensures |acts| == 12 && acts[8..] == [Once(3), Once(2), Once(3), Once(2)]
    ensures Flicker(Run(acts), map[], Done, Done, Probe(RedisId(1), true), 4)
  {
    acts := LockSeenHeld();
    acts := Extend(acts, Once(3));
    acts := Extend(acts, Once(2));
  }

  /** A Rueidis waiter frees the lock of a dead Rueidis client. The holder wins at time 0 and is never heard
      of again; the waiter comes at 15 s and polls at 25 s, when the lock has 5 s left to run. */
  lemma RueidisFreesDeadHolder() returns (acts: seq<Action>)
    ensures |acts| == 12 && acts[8..] == [Latest(2), Latest(2), Latest(2), Latest(2)]
    ensures Ghosted(Run(acts), 25000, map[], Acquire, 1, 2)
  {
    acts := DeadHolderSeen();
    acts := Extend(acts, Latest(2));
  }

  /** A request of a Rueidis caller that shows the present. */
  function Latest(c: nat): Action { Request(c, Delivered, 1000, false) }

  /** A state of that run: the holder is still where it was. */
  ghost predicate Ghosted(w: World, now: nat, locks: map<string, Held>, pc: Pc, retries: nat, events: nat) {
    var x, y := RueidisId(1), RueidisId(2);
    && w.cur == Moment(now, locks, map[x := 10000, y := 10000]) && x in w.born && w.born[x] <= |w.past|
    && w.callers == map[1 := Caller("k", x, Won(0), 0), 2 := Caller("k", y, pc, retries)]
    && |w.events| == events
  }

  lemma RueidisHolderDies() returns (acts: seq<Action>)
    ensures |acts| == 5 && var x, y := RueidisId(1), RueidisId(2);
            var w := Run(acts);
            && w.cur == Moment(15000, map["k" := Held(x, 30000)], map[x := 10000, y := 10000])
            && x in w.born && y in w.born && w.born[x] <= |w.past|
            && w.callers == map[1 := Caller("k", x, Won(0), 0)] && |w.events| == 1
  {
    var x, y := RueidisId(1), RueidisId(2);
    acts := Extend([], BeatSet(x));
    acts := Extend(acts, BeatSet(y));
    acts := Extend(acts, Call(1, "k", x));
    acts := Extend(acts, Latest(1));
    acts := Extend(acts, Tick(15000));
  }

  lemma RueidisWaits() returns (acts: seq<Action>)
    ensures |acts| == 8 && Ghosted(Run(acts), 25000, map["k" := Held(RueidisId(1), 30000)], Idle(RueidisId(1)), 0, 1)
  {
    acts := RueidisHolderDies();
    acts := Extend(acts, Call(2, "k", RueidisId(2)));
    acts := Extend(acts, Latest(2));
    acts := Extend(acts, Tick(10000));
  }

  lemma RueidisProbes() returns (acts: seq<Action>)
    ensures |acts| == 10 && acts[8..] == [Latest(2), Latest(2)]
    ensures Ghosted(Run(acts), 25000, map["k" := Held(RueidisId(1), 30000)], Probe(RueidisId(1), true), 0, 1)
  {
    acts := RueidisWaits();
    acts := Extend(acts, Latest(2));
    assert Ghosted(Run(acts), 25000, map["k" := Held(RueidisId(1), 30000)], ReadAgain(RueidisId(1), true), 0, 1);
    acts := Extend(acts, Latest(2));
  }

  lemma DeadHolderSeen() returns (acts: seq<Action>)
    ensures |acts| == 11 && acts[8..] == [Latest(2), Latest(2), Latest(2)]
    ensures Ghosted(Run(acts), 25000, map["k" := Held(RueidisId(1), 30000)], Kill(RueidisId(1), 10), 0, 1)
  {
    acts := RueidisProbes();
    acts := Extend(acts, Latest(2));
  }
}
