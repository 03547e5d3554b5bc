/** The clients of rediscache and rueidiscache: keepalive, refresh, LockOrWait, release and the
    polling wait, written as the loops and requests they are, and proved to follow the automaton of
    RedisLock step by step. The two clients run the same code; they differ in the prefix of their
    ids, and in that a Rueidis read may show an earlier moment.
 */
module RedisClient {
  import opened Options
  import opened RedisLock

  datatype Req = AcquireScript | DelkeyScript(id: Id) | GetLock | GetBeat(id: Id) | GetData

  datatype Reply = NetError | Nil | Str(id: Id) | Bytes

  /** The reply of the server, or of the client-side cache, to a request of caller c. */
  function Answer(w: World, c: nat, req: Req, seen: nat, hit: bool): Reply
    requires c in w.callers
  {
    var name := w.callers[c].name;
    match req
    case AcquireScript => if w.cur.Locked(name) then Str(w.cur.locks[name].id) else Nil
    case DelkeyScript(_) => Nil
    case GetLock =>
      var m := SeenLock(w, w.callers[c], seen);
      if m.Locked(name) then Str(m.locks[name].id) else Nil
    case GetBeat(id) => if w.At(SeenMoment(w, w.callers[c], id, seen)).Beating(id) then Bytes else Nil
    case GetData => if hit then Bytes else Nil
  }

  /** The request the automaton is about to make. */
  function Wants(me: Caller): Option<Req> {
    match me.pc
    case Acquire => Some(AcquireScript)
    case Won(_) => Some(DelkeyScript(me.id))
    case Idle(val) => Some(GetLock)
    case ReadAgain(val, _) => Some(GetLock)
    case Probe(val, _) => Some(GetBeat(val))
    case Kill(val, _) => Some(DelkeyScript(val))
    case ReadData => Some(GetData)
    case _ => None
  }

  /** One slot of the schedule: moves of everybody else, and what becomes of our request. */
  datatype Slot = Slot(moves: seq<Action>, net: Net, seen: nat, hit: bool)

  class Server {
    var world: World
    var schedule: seq<Slot>
    ghost var acts: seq<Action>

    ghost predicate Valid()
      reads this
    {
      world == Run(acts)
    }

    method Take(a: Action)
      requires Valid()
      modifies `world, `acts
      ensures Valid() && acts == old(acts) + [a] && world == Step(old(world), a)
    {
      RunAppend(acts, a);
      world := Step(world, a);
      acts := acts + [a];
    }

    /** Everybody but caller c moves. */
    method Turn(c: nat) returns (slot: Slot)
      requires Valid() && c in world.callers
      modifies this
      ensures Valid() && old(acts) <= acts && c in world.callers && world.callers[c] == old(world.callers[c])
      ensures old(world.born.Keys) <= world.born.Keys
    {
      if schedule == [] {
        return Slot([], Delivered, |world.past|, false);
      }
      slot := schedule[0];
      schedule := schedule[1..];
      for k := 0 to |slot.moves|
        invariant Valid() && old(acts) <= acts && c in world.callers && world.callers[c] == old(world.callers[c])
        invariant old(world.born.Keys) <= world.born.Keys
      {
        var a := slot.moves[k];
        if NotMine(a, c) {
          TakeOther(a, c);
        }
      }
    }

    method TakeOther(a: Action, ghost c: nat)
      requires Valid() && c in world.callers && NotMine(a, c)
      modifies `world, `acts
      ensures Valid() && old(acts) <= acts && c in world.callers && world.callers[c] == old(world.callers[c])
      ensures old(world.born.Keys) <= world.born.Keys
    {
      OtherMoves(world, a, c);
      Take(a);
    }

    method Ask(c: nat, req: Req) returns (reply: Reply, slot: Slot, ghost before: World)
      requires Valid() && c in world.callers && Wants(world.callers[c]) == Some(req)
      modifies this
      ensures Valid() && old(acts) <= acts && c in before.callers && before.callers[c] == old(world.callers[c])
      ensures c in world.callers
      ensures world.callers[c] == Send(before, c, slot.net, slot.seen, slot.hit).1
      ensures reply == if slot.net.Delivered? then Answer(before, c, req, slot.seen, slot.hit) else NetError
      ensures old(world.born.Keys) <= world.born.Keys
    {
      slot := Turn(c);
      before := world;
      reply := if slot.net.Delivered? then Answer(world, c, req, slot.seen, slot.hit) else NetError;
      Take(Request(c, slot.net, slot.seen, slot.hit));
      BornStays(before, c, slot.net, slot.seen, slot.hit);
    }
  }

  lemma BornStays(w: World, c: nat, net: Net, seen: nat, hit: bool)
    requires c in w.callers
    ensures Step(w, Request(c, net, seen, hit)).born == w.born
  {
  }

  datatype Outcome = Winner | MustWait(val: Id) | Failed

  datatype WaitResult = Entry | RetryLocker | WaitError

  class Redis {
    const server: Server
    var id: Option<Id>

    constructor (server: Server)
      ensures this.server == server && id == None
    {
      this.server := server;
      this.id := None;
    }

    /** An installed id has had its heartbeat set. */
    ghost predicate Valid()
      reads this, server
    {
      server.Valid() && (id.Some? ==> id.value in server.world.born)
    }

    /** drawn is the id made from the clock, ok says whether its SET succeeds, and rival is an id
        that another goroutine installs meanwhile, its own SET done. */
    method Keepalive(drawn: Id, ok: bool, rival: Option<Id>) returns (mine: Option<Id>)
      requires Valid() && (rival.Some? ==> rival.value in server.world.born)
      modifies this, server`world, server`acts
      ensures Valid() && old(server.acts) <= server.acts && server.world.callers == old(server.world.callers)
      ensures id == if old(id).Some? then old(id)
                    else if !ok then None else if rival.Some? then rival else Some(drawn)
      ensures mine == id && (id.None? ==> server.world == old(server.world))
    {
      if id.Some? {
        return id;
      }
      if !ok {
        return None;
      }
      server.Take(BeatSet(drawn));
      id := rival;
      if id.None? {
        id := Some(drawn);
      }
      mine := id;
    }

    /** A retrying caller comes back with the id it had. */
    method LockOrWait(c: nat, name: string, drawn: Id, ok: bool, rival: Option<Id>) returns (r: Outcome)
      requires Valid() && (rival.Some? ==> rival.value in server.world.born)
      requires c in server.world.callers ==>
                 server.world.callers[c].pc.Acquire? && server.world.callers[c].name == name
                 && id == Some(server.world.callers[c].id)
      modifies this, server
      ensures Valid() && old(server.acts) <= server.acts
      ensures id.None? ==> r == Failed && server.world == old(server.world)
      ensures id.Some? ==>
                c in server.world.callers &&
                var me := server.world.callers[c];
                && me.name == name && me.id == id.value
                && match r
                   case Winner => me.pc.Won?
                   case MustWait(val) => me.pc == Idle(val)
                   case Failed => me.pc.LoadUnlocked?
    {
      var mine := Keepalive(drawn, ok, rival);
      if mine.None? {
        return Failed;
      }
      if c !in server.world.callers {
        server.Take(Call(c, name, mine.value));
      }
      var reply, _, _ := server.Ask(c, AcquireScript);
      match reply
      case Nil => r := Winner;
      case Str(val) => r := MustWait(val);
      case _ => r := Failed;
    }

    method Release(c: nat)
      requires Valid() && c in server.world.callers && server.world.callers[c].pc.Won?
      modifies server
      ensures Valid() && old(server.acts) <= server.acts && c in server.world.callers
      ensures server.world.callers[c] == old(server.world.callers[c]).At(Done)
    {
      var holder := server.world.callers[c].id;
      var _, _, _ := server.Ask(c, DelkeyScript(holder));
    }

    /** Each of the given ticks fires once; then the caller's context ends the wait. */
    method WaitPoll(c: nat, val: Id, ticks: nat) returns (r: WaitResult)
      requires Valid() && c in server.world.callers && server.world.callers[c].pc == Idle(val)
      modifies server
      ensures Valid() && old(server.acts) <= server.acts && c in server.world.callers
      ensures Polled(old(server.world.callers[c]), server.world.callers[c], val, true, r)
    {
      for k := 0 to ticks
        invariant Valid() && old(server.acts) <= server.acts && c in server.world.callers
        invariant server.world.callers[c] == old(server.world.callers[c])
      {
        var done, result := Poll(c, val);
        if done {
          return result;
        }
      }
      server.Take(Cancel(c));
      r := WaitError;
    }

    method Poll(c: nat, val: Id) returns (done: bool, r: WaitResult)
      requires Valid() && c in server.world.callers && server.world.callers[c].pc == Idle(val)
      modifies server
      ensures Valid() && old(server.acts) <= server.acts && c in server.world.callers
      ensures Polled(old(server.world.callers[c]), server.world.callers[c], val, done, r)
    {
      var first, _, _ := server.Ask(c, GetLock);
      if first == Nil {
        var data, _, _ := server.Ask(c, GetData);
        return true, if data == Bytes then Entry else RetryLocker;
      }
      done, r := CheckHolder(c, val, first != NetError);
    }

    /** The rest of a poll, when the lock was not seen gone; first says whether that read worked. */
    method CheckHolder(c: nat, val: Id, first: bool) returns (done: bool, r: WaitResult)
      requires Valid() && c in server.world.callers && server.world.callers[c].pc == ReadAgain(val, first)
      modifies server
      ensures Valid() && old(server.acts) <= server.acts && c in server.world.callers
      ensures Polled(old(server.world.callers[c]), server.world.callers[c], val, done, r)
    {
      var second, _, _ := server.Ask(c, GetLock);
      if second.Str? && second.id != val {
        return true, RetryLocker;
      }
      if Probes(server.world.callers[c], val) {
        done, r := ProbeHolder(c, val, first);
      } else {
        done, r := !first, WaitError;
      }
    }

    method ProbeHolder(c: nat, val: Id, first: bool) returns (done: bool, r: WaitResult)
      requires Valid() && c in server.world.callers && server.world.callers[c].pc == Probe(val, first)
      modifies server
      ensures Valid() && old(server.acts) <= server.acts && c in server.world.callers
      ensures Polled(old(server.world.callers[c]), server.world.callers[c], val, done, r)
    {
      var beat, _, _ := server.Ask(c, GetBeat(val));
      if beat != Nil {
        return !first, WaitError;
      }
      var _, _, _ := server.Ask(c, DelkeyScript(val));
      return true, RetryLocker;
    }

    /** Everybody but the refresher of me moves. */
    method Pass(ghost me: Id, moves: seq<Action>, ghost from: nat)
      requires server.Valid() && me in server.world.cur.beats && from <= |server.world.past|
      requires forall k :: 0 <= k < |moves| ==> LeavesBeat(moves[k], me)
      modifies server`world, server`acts
      ensures server.Valid() && old(server.acts) <= server.acts && from <= |server.world.past|
      ensures server.world.cur.now == old(server.world.cur.now) + Elapsed(moves, |moves|)
      ensures me in server.world.cur.beats && server.world.cur.beats[me] == old(server.world.cur.beats[me])
      ensures AlwaysBeating(server.world, me, from) <==>
              AlwaysBeating(old(server.world), me, from) && server.world.cur.Beating(me)
    {
      assert AlwaysBeating(server.world, me, from) ==> server.world.At(|server.world.past|).Beating(me);
      for k := 0 to |moves|
        invariant server.Valid() && old(server.acts) <= server.acts && from <= |server.world.past|
        invariant server.world.cur.now == old(server.world.cur.now) + Elapsed(moves, k)
        invariant me in server.world.cur.beats && server.world.cur.beats[me] == old(server.world.cur.beats[me])
        invariant AlwaysBeating(server.world, me, from) <==>
                  AlwaysBeating(old(server.world), me, from) && server.world.cur.Beating(me)
      {
        AlwaysStep(server.world, moves[k], me, from);
        BeatLeft(server.world, moves[k], me);
        server.Take(moves[k]);
      }
    }

    /** The refresh loop, whatever everybody else does meanwhile: rounds[k].0 is what happens from the
        return of one SET to the landing of the next, with the 5 s of the timer in it, and rounds[k].1
        what happens until that one returns; replied is what happened until the SET of keepalive
        returned. The heartbeat key is present at every moment if and only if no SET lands 10 s or
        more after the one before. */
    method Refresh(me: Id, replied: seq<Action>, rounds: seq<(seq<Action>, seq<Action>)>)
      requires server.Valid() && server.world.cur.Beating(me)
      requires server.world.cur.beats[me] == server.world.cur.now + BEAT_MS
      requires forall i :: 0 <= i < |replied| ==> LeavesBeat(replied[i], me)
      requires forall k :: 0 <= k < |rounds| ==> Round(rounds[k], me)
      modifies server`world, server`acts
      ensures server.Valid() && old(server.acts) <= server.acts && old(|server.world.past|) <= |server.world.past|
      ensures AlwaysBeating(server.world, me, old(|server.world.past|)) <==> InTime(Elapsed(replied, |replied|), rounds)
    {
      ghost var from := |server.world.past|;
      Pass(me, replied, from);
      ghost var last := Elapsed(replied, |replied|);
      for k := 0 to |rounds|
        invariant server.Valid() && old(server.acts) <= server.acts && from <= |server.world.past|
        invariant me in server.world.cur.beats
        invariant server.world.cur.now + BEAT_MS == server.world.cur.beats[me] + last
        invariant (AlwaysBeating(server.world, me, from) && InTime(last, rounds[k..]))
                  <==> InTime(Elapsed(replied, |replied|), rounds)
      {
        assert Round(rounds[k], me);
        Set(me, rounds[k], from);
        last := Elapsed(rounds[k].1, |rounds[k].1|);
        assert rounds[k..][1..] == rounds[k + 1..];
      }
      assert server.world.At(|server.world.past|) == server.world.cur;
    }

    /** One round: the timer, the SET, its return. */
    method Set(me: Id, round: (seq<Action>, seq<Action>), ghost from: nat)
      requires server.Valid() && me in server.world.cur.beats && from <= |server.world.past| && Round(round, me)
      modifies server`world, server`acts
      ensures server.Valid() && old(server.acts) <= server.acts && from <= |server.world.past|
      ensures me in server.world.cur.beats
      ensures server.world.cur.now + BEAT_MS == server.world.cur.beats[me] + Elapsed(round.1, |round.1|)
      ensures AlwaysBeating(server.world, me, from) <==>
              && AlwaysBeating(old(server.world), me, from)
              && old(server.world.cur.now) + Elapsed(round.0, |round.0|) < old(server.world.cur.beats[me])
              && Elapsed(round.1, |round.1|) < BEAT_MS
    {
      Pass(me, round.0, from);
      AlwaysStep(server.world, BeatSet(me), me, from);
      server.Take(BeatSet(me));
      Pass(me, round.1, from);
    }
  }

  /** A move of anybody but the process of id. */
  predicate LeavesBeat(a: Action, id: Id) {
    a != BeatSet(id) && a != BeatDel(id)
  }

  lemma BeatLeft(w: World, a: Action, id: Id)
    requires LeavesBeat(a, id) && id in w.cur.beats
    ensures var w' := Step(w, a);
            && id in w'.cur.beats && w'.cur.beats[id] == w.cur.beats[id]
            && w'.cur.now == w.cur.now + (if a.Tick? then a.ms else 0)
  {
  }

  /** The time that the first k moves take. */
  function Elapsed(moves: seq<Action>, k: nat): nat
    requires k <= |moves|
  {
    if k == 0 then 0 else Elapsed(moves, k - 1) + if moves[k - 1].Tick? then moves[k - 1].ms else 0
  }

  /** The timer fires 5 s after the last SET returned. */
  ghost predicate Round(round: (seq<Action>, seq<Action>), me: Id) {
    && 5000 <= Elapsed(round.0, |round.0|)
    && (forall i :: 0 <= i < |round.0| ==> LeavesBeat(round.0[i], me))
    && (forall i :: 0 <= i < |round.1| ==> LeavesBeat(round.1[i], me))
  }

  /** How the end of a poll, or of the wait, reads in the automaton. */
  ghost predicate Polled(before: Caller, after: Caller, val: Id, done: bool, r: WaitResult) {
    if !done then after == before.At(Idle(val))
    else match r
         case Entry => after == before.At(Served)
         case RetryLocker => after == before.Retry()
         case WaitError => after == before.At(LoadUnlocked)
  }

  ghost predicate AlwaysBeating(w: World, id: Id, from: nat) {
    forall m :: from <= m <= |w.past| ==> w.At(m).Beating(id)
  }

  lemma AlwaysStep(w: World, a: Action, id: Id, from: nat)
    requires from <= |w.past|
    ensures AlwaysBeating(Step(w, a), id, from) <==> AlwaysBeating(w, id, from) && Step(w, a).cur.Beating(id)
  {
    var w' := Step(w, a);
    assert w'.At(|w'.past|) == w'.cur;
    assert forall m :: from <= m <= |w.past| ==> w'.At(m) == w.At(m);
  }

  /** No SET lands 10 s or more after the one before, nor is the last reply that late. */
  predicate InTime(replied: nat, rounds: seq<(seq<Action>, seq<Action>)>)
    decreases |rounds|
  {
    if rounds == [] then replied < BEAT_MS
    else
      && replied + Elapsed(rounds[0].0, |rounds[0].0|) < BEAT_MS
      && InTime(Elapsed(rounds[0].1, |rounds[0].1|), rounds[1..])
  }
}
