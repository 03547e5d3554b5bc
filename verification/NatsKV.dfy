/** The natscache client itself: keepalive, refresh, LockOrWait, wait and release, written as the
    loops and requests they are, and proved to follow the automaton of NatsLock step by step. So
    every promise proved there about runs is a promise about this code.

    Before each request of this client the rest of the world moves: other callers, heartbeats,
    expiry. A schedule, which the contracts leave arbitrary, says how, and what the network does
    to the request.
 */
module NatsKV {
  import opened JetStream
  import opened NatsLock
  import opened Options

  datatype Req =
    | Get(key: Key)
    | Create(key: Key, val: Val)
    | PurgeRev(key: Key, rev: nat, cause: Cause)
    | Watch(key: Key)

  datatype Reply =
    | NetError
    | Found(val: Val, rev: nat)
    | NotFound
    | Created(rev: nat)
    | KeyExists
    | Acknowledged

  /** What the server does with a request that reaches it. */
  function Serve(log: seq<Op>, req: Req): (seq<Op>, Reply) {
    match req
    case Get(key) =>
      (log, if Present(log, key) then Found(log[Last(log, key)].val, Last(log, key)) else NotFound)
    case Create(key, val) =>
      if Present(log, key) then (log, KeyExists) else (log + [Put(key, val)], Created(|log|))
    case PurgeRev(key, rev, cause) => (PurgeIf(log, key, rev, cause), Acknowledged)
    case Watch(key) => (log, Acknowledged)
  }

  /** The request the automaton is about to make. */
  function Wants(me: Caller): Option<Req> {
    match me.pc
    case FastGet => Some(Get(Data(me.name)))
    case Acquire => Some(Create(me.Key(), Holder(me.id)))
    case Holding(rev) => Some(PurgeRev(me.Key(), rev, Released))
    case WaitData(_) => Some(Get(Data(me.name)))
    case WaitLookup(_) => Some(Get(me.Key()))
    case CheckBeat(holder, _) => Some(Get(Beat(holder)))
    case Steal(_, rev, seenAt) => Some(PurgeRev(me.Key(), rev, Stolen(seenAt)))
    case WatchStart(_, _) => Some(Watch(me.Key()))
    case Watching(holder, _, _) => Some(Get(Beat(holder)))
    case AfterRemoval(_) => Some(Get(Data(me.name)))
    case _ => None
  }

  lemma ServeFollowsSend(log: seq<Op>, me: Caller, net: Net)
    requires Wants(me).Some?
    ensures Send(log, me, net).0 == if net.Dropped? then log else Serve(log, Wants(me).value).0
  {
  }

  /** An entry read from a data key, as the client decodes it. */
  function Decode(reply: Reply): Option<nat> {
    if reply.Found? && reply.val.Payload? then reply.val.entry else None
  }

  lemma DecodeIsReadData(log: seq<Op>, name: string)
    ensures Decode(Serve(log, Get(Data(name))).1) == ReadData(log, name)
  {
  }

  /** A delivered read of the data key has met the entry that it decodes to. */
  lemma Answered(before: seq<Op>, after: seq<Op>, me: Caller, net: Net)
    requires ReadsData(me.pc) && after == before
    ensures Decode(Serve(before, Get(Data(me.name))).1) == ReadData(before, me.name)
    ensures var r := if net.Delivered? then Decode(Serve(before, Get(Data(me.name))).1) else None;
            r.Some? ==> HeldAt(after, me.name, |before|, r.value)
  {
    DecodeIsReadData(before, me.name);
  }

  /** The bucket together with everybody who uses it. */
  class Cluster {
    var world: World
    var schedule: seq<(seq<Action>, Net)>
    ghost var acts: seq<Action>

    /** The state is one that the automaton reaches. */
    ghost predicate Valid()
      reads this
    {
      world == Run(acts)
    }

    /** Everybody but caller c makes the next moves of the schedule. */
    method Turn(c: nat) returns (net: Net)
      requires Valid() && c in world.callers
      modifies this
      ensures Valid() && old(acts) <= acts && old(world.log) <= world.log
      ensures c in world.callers && world.callers[c] == old(world.callers[c])
    {
      if schedule == [] {
        return Delivered;
      }
      var moves := schedule[0].0;
      net := schedule[0].1;
      schedule := schedule[1..];
      for k := 0 to |moves|
        invariant Valid() && old(acts) <= acts && old(world.log) <= world.log
        invariant c in world.callers && world.callers[c] == old(world.callers[c])
      {
        var mine := match moves[k] case BeatPut(_) => false case BeatRemove(_) => false
                      case DataPut(_, _) => false case DataRemove(_) => false case a => a.c == c;
        if !mine {
          Take(moves[k]);
        }
      }
    }

    method Take(a: Action)
      requires Valid()
      modifies `world, `acts
      ensures Valid() && acts == old(acts) + [a]
      ensures world == Step(old(world), a) && old(world.log) <= world.log
    {
      RunKeepsInv(acts);
      StepKeepsInv(world, a);
      world := Step(world, a);
      acts := acts + [a];
      assert acts[..|acts| - 1] == old(acts);
    }

    /** Sends a request of caller c, which must be the one the automaton stands at; before is the
        stream when it reached the server. */
    method Ask(c: nat, req: Req) returns (reply: Reply, before: seq<Op>, net: Net)
      requires Valid() && c in world.callers && Wants(world.callers[c]) == Some(req)
      modifies this
      ensures Valid() && old(acts) <= acts && old(world.log) <= before <= world.log
      ensures c in world.callers
      ensures (world.log, world.callers[c]) == Send(before, old(world.callers[c]), net)
      ensures world.log == if net.Dropped? then before else Serve(before, req).0
      ensures reply == if net.Delivered? then Serve(before, req).1 else NetError
    {
      var outcome := Turn(c);
      net := outcome;
      before := world.log;
      reply := if outcome.Delivered? then Serve(world.log, req).1 else NetError;
      ServeFollowsSend(world.log, world.callers[c], outcome);
      Take(Request(c, outcome));
    }
  }

  datatype Outcome = Won(rev: nat) | Hit(entry: nat) | MustWait | Failed

  datatype WaitResult = Entry(entry: nat) | RetryLocker | WaitError

  /** What the select of the watch loop picks: the heartbeat ticker, the next update (nothing may
      be queued), or the end of the watch channel. */
  datatype Event = Tick | Update | Closed

  /** One tick of the refresh loop: whether the heartbeat has expired before it and before its
      read, and what the network does to its three requests. */
  datatype Beating = Beating(lapsed: bool, update: Net, create: Net, lapsesAgain: bool, get: Net) {
    predicate Healthy() { create.Delivered? && get.Delivered? && !lapsesAgain }
  }

  class NatsKV {
    const bucket: Cluster
    var id: Option<Id>

    constructor (bucket: Cluster)
      ensures this.bucket == bucket && id == None
    {
      this.bucket := bucket;
      this.id := None;
    }

    /** uuid is the uuid this call draws; rival is an id that another goroutine of the process
        installs while the heartbeat is being created. An id once installed is never replaced. */
    method Keepalive(uuid: Id, created: bool, rival: Option<Id>) returns (mine: Id)
      requires bucket.Valid()
      modifies this, bucket`world, bucket`acts
      ensures bucket.Valid() && old(bucket.acts) <= bucket.acts
      ensures old(id).Some? ==> id == old(id) && mine == id.value && bucket.world == old(bucket.world)
      ensures id.Some? ==> mine == id.value
      ensures id.Some? || !created
      ensures bucket.world.callers == old(bucket.world.callers)
      ensures old(id).None? && created ==>
                bucket.world.log == old(bucket.world.log) + [Put(Beat(uuid), One)]
                && id == if rival.Some? then rival else Some(uuid)
      ensures old(id).None? && !created ==> bucket.world == old(bucket.world) && id == None && mine == uuid
    {
      if id.Some? {
        return id.value;
      }
      mine := uuid;
      if created {
        bucket.Take(BeatPut(uuid));
        id := rival;
        if id.None? {
          id := Some(uuid);
        } else {
          mine := id.value;
        }
      }
    }

    /** The heartbeat loop. Lost replies and expiry can leave it with a wrong revision; a tick
        whose requests get through leaves the key present and the revision right again. */
    method Refresh(me: Id, rev: nat, ticks: seq<Beating>) returns (current: nat)
      requires bucket.Valid()
      modifies bucket`world, bucket`acts
      ensures bucket.Valid() && old(bucket.acts) <= bucket.acts
      ensures bucket.world.callers == old(bucket.world.callers)
      ensures ticks != [] && ticks[|ticks| - 1].Healthy() ==> Beats(bucket.world.log, me, current)
    {
      current := rev;
      for k := 0 to |ticks|
        invariant bucket.Valid() && old(bucket.acts) <= bucket.acts
        invariant bucket.world.callers == old(bucket.world.callers)
        invariant k > 0 && ticks[k - 1].Healthy() ==> Beats(bucket.world.log, me, current)
      {
        current := RefreshOnce(me, current, ticks[k]);
      }
    }

    /** An update at the known revision, else a create, else a read. The update alone is enough if the
        revision is right, and the create if the heartbeat is gone, whatever became of the update. If the
        update is of no use and the create gets no answer, or none of the three does, the revision stays. */
    method RefreshOnce(me: Id, rev: nat, t: Beating) returns (current: nat)
      requires bucket.Valid()
      modifies bucket`world, bucket`acts
      ensures bucket.Valid() && old(bucket.acts) <= bucket.acts
      ensures bucket.world.callers == old(bucket.world.callers)
      ensures t.Healthy() ==> Beats(bucket.world.log, me, current)
      ensures var right := !t.lapsed && Beats(old(bucket.world.log), me, rev);
              && (right && t.update.Delivered? ==> Beats(bucket.world.log, me, current))
              && (right && !t.update.Dropped? ==> old(bucket.world.log) + [Put(Beat(me), One)] <= bucket.world.log)
              && (!(right && t.update.Delivered?) && !t.create.Delivered? ==> current == rev)
      ensures t.lapsed || !Present(old(bucket.world.log), Beat(me)) ==>
                && (t.create.Delivered? ==> Beats(bucket.world.log, me, current))
                && (Present(bucket.world.log, Beat(me)) <==> !t.create.Dropped?)
    {
      current := rev;
      if t.lapsed {
        Append(Remove(Beat(me), Last(bucket.world.log, Beat(me)), Other));
      }
      var fits := Last(bucket.world.log, Beat(me)) == current && Present(bucket.world.log, Beat(me));
      if fits && !t.update.Dropped? {
        Append(Put(Beat(me), One));
      }
      if fits && t.update.Delivered? {
        return |bucket.world.log| - 1;
      }
      var present := Present(bucket.world.log, Beat(me));
      if !present && !t.create.Dropped? {
        Append(Put(Beat(me), One));
      }
      if !t.create.Delivered? {
        return;
      }
      if !present {
        return |bucket.world.log| - 1;
      }
      if t.lapsesAgain {
        Append(Remove(Beat(me), Last(bucket.world.log, Beat(me)), Other));
      }
      if t.get.Delivered? && Present(bucket.world.log, Beat(me)) {
        current := Last(bucket.world.log, Beat(me));
      }
    }

    /** A message for a heartbeat key reaches the stream. */
    method Append(op: Op)
      requires bucket.Valid() && op.key.Beat?
      requires op == Put(op.key, One) || op == Remove(op.key, Last(bucket.world.log, op.key), Other)
      modifies bucket`world, bucket`acts
      ensures bucket.Valid() && old(bucket.acts) <= bucket.acts
      ensures bucket.world == World(old(bucket.world.log) + [op], old(bucket.world.callers))
      ensures Last(bucket.world.log, op.key) == |bucket.world.log| - 1
      ensures Present(bucket.world.log, op.key) == op.Put?
    {
      bucket.Take(if op.Put? then BeatPut(op.key.id) else BeatRemove(op.key.id));
    }

    /** Won carries the fenced revision that release will purge. */
    method LockOrWait(c: nat, uuid: Id, created: bool, rival: Option<Id>) returns (r: Outcome)
      requires bucket.Valid() && c in bucket.world.callers && bucket.world.callers[c].pc.FastGet?
      modifies this, bucket
      ensures bucket.Valid() && old(bucket.acts) <= bucket.acts && c in bucket.world.callers
      ensures var me := bucket.world.callers[c];
              && me == old(bucket.world.callers[c]).(pc := me.pc, id := me.id)
              && match r
                 case Won(rev) => me.pc == Holding(rev)
                 case Hit(e) => me.pc == Served(e)
                 case MustWait => me.pc.WaitData?
                 case Failed => me.pc.LoadUnlocked?
      ensures r.Hit? ==>
                HeldSince(bucket.world.log, old(bucket.world.callers[c]).name, old(|bucket.world.log|), r.entry)
    {
      ghost var me := bucket.world.callers[c];
      var name := bucket.world.callers[c].name;
      var reply, before, net := bucket.Ask(c, Get(Data(name)));
      Answered(before, bucket.world.log, me, net);
      if Decode(reply).Some? {
        return Hit(Decode(reply).value);
      }
      var holder := Keepalive(uuid, created, rival);
      bucket.Take(GotId(c, holder));
      reply, before, net := bucket.Ask(c, Create(Lock(name), Holder(holder)));
      match reply
      case Created(rev) => r := Won(rev);
      case KeyExists => r := MustWait;
      case _ => r := Failed;
    }

    /** The purge is conditional on the revision that the caller's own Create returned. */
    method Release(c: nat, rev: nat)
      requires bucket.Valid() && c in bucket.world.callers && bucket.world.callers[c].pc == Holding(rev)
      modifies bucket
      ensures bucket.Valid() && old(bucket.acts) <= bucket.acts && c in bucket.world.callers
      ensures bucket.world.callers[c] == old(bucket.world.callers[c]).At(Done)
    {
      var name := bucket.world.callers[c].name;
      var _, _, _ := bucket.Ask(c, PurgeRev(Lock(name), rev, Released));
    }

    /** The wait closure. When the select has no further event the caller's context ends it. */
    method Wait(c: nat, events: seq<Event>) returns (r: WaitResult)
      requires bucket.Valid() && c in bucket.world.callers && bucket.world.callers[c].pc.WaitData?
      modifies bucket
      ensures bucket.Valid() && old(bucket.acts) <= bucket.acts && c in bucket.world.callers
      ensures Reflects(old(bucket.world.callers[c]), bucket.world.callers[c], r)
      ensures r.Entry? ==>
                HeldSince(bucket.world.log, old(bucket.world.callers[c]).name, old(|bucket.world.log|), r.entry)
    {
      ghost var me := bucket.world.callers[c];
      var name := bucket.world.callers[c].name;
      var reply, before, net := bucket.Ask(c, Get(Data(name)));
      Answered(before, bucket.world.log, me, net);
      if Decode(reply).Some? {
        return Entry(Decode(reply).value);
      }
      reply, before, net := bucket.Ask(c, Get(Lock(name)));
      if reply.NotFound? {
        return RetryLocker;
      }
      if !reply.Found? {
        return WaitError;
      }
      LockHoldsHolder(bucket.acts, before, name);
      r := AwaitHolder(c, name, reply.val.holder, reply.rev, events);
    }

    /** Steals at once from a holder without a heartbeat, and watches the lock of any other. */
    method AwaitHolder(c: nat, name: string, holder: Id, rev: nat, events: seq<Event>) returns (r: WaitResult)
      requires bucket.Valid() && c in bucket.world.callers
      requires bucket.world.callers[c].pc == CheckBeat(holder, rev) && bucket.world.callers[c].name == name
      modifies bucket
      ensures bucket.Valid() && old(bucket.acts) <= bucket.acts && c in bucket.world.callers
      ensures Reflects(old(bucket.world.callers[c]), bucket.world.callers[c], r)
      ensures r.Entry? ==>
                HeldSince(bucket.world.log, old(bucket.world.callers[c]).name, old(|bucket.world.log|), r.entry)
    {
      var reply, before, net := bucket.Ask(c, Get(Beat(holder)));
      if reply.NotFound? {
        r := StealLock(c, name, rev, |before|);
        return;
      }
      reply, before, net := bucket.Ask(c, Watch(Lock(name)));
      if reply.NetError? {
        return WaitError;
      }
      r := WatchLoop(c, name, holder, rev, events);
    }

    method WatchLoop(c: nat, name: string, holder: Id, rev: nat, events: seq<Event>) returns (r: WaitResult)
      requires bucket.Valid() && c in bucket.world.callers
      requires bucket.world.callers[c].pc.Watching? && bucket.world.callers[c].name == name
      requires bucket.world.callers[c].pc.holder == holder && bucket.world.callers[c].pc.rev == rev
      modifies bucket
      ensures bucket.Valid() && old(bucket.acts) <= bucket.acts && c in bucket.world.callers
      ensures Reflects(old(bucket.world.callers[c]), bucket.world.callers[c], r)
      ensures r.Entry? ==>
                HeldSince(bucket.world.log, old(bucket.world.callers[c]).name, old(|bucket.world.log|), r.entry)
    {
      for k := 0 to |events|
        invariant bucket.Valid() && old(bucket.acts) <= bucket.acts && c in bucket.world.callers
        invariant old(|bucket.world.log|) <= |bucket.world.log|
        invariant var me := bucket.world.callers[c];
                  me.pc.Watching? && me.pc.holder == holder && me.pc.rev == rev
                  && me == old(bucket.world.callers[c]).At(me.pc)
      {
        match events[k]
        case Tick =>
          var reply, before, _ := bucket.Ask(c, Get(Beat(holder)));
          if reply.NotFound? {
            r := StealLock(c, name, rev, |before|);
            return;
          }
        case Closed =>
          bucket.Take(WatcherClosed(c));
          return RetryLocker;
        case Update =>
          var done := OnUpdate(c, name, holder, rev);
          if done.Some? {
            return done.value;
          }
      }
      bucket.Take(Cancel(c));
      r := WaitError;
    }

    /** The next operation on the lock key arrives. Only a removal ends the wait. */
    method OnUpdate(c: nat, name: string, ghost holder: Id, ghost rev: nat) returns (r: Option<WaitResult>)
      requires bucket.Valid() && c in bucket.world.callers
      requires bucket.world.callers[c].pc.Watching? && bucket.world.callers[c].name == name
      requires bucket.world.callers[c].pc.holder == holder && bucket.world.callers[c].pc.rev == rev
      modifies bucket
      ensures bucket.Valid() && old(bucket.acts) <= bucket.acts && c in bucket.world.callers
      ensures var me := bucket.world.callers[c];
              if r.Some? then Reflects(old(bucket.world.callers[c]), me, r.value)
              else me.pc.Watching? && me.pc.holder == holder && me.pc.rev == rev
                   && me == old(bucket.world.callers[c]).At(me.pc)
      ensures old(|bucket.world.log|) <= |bucket.world.log|
      ensures r.Some? && r.value.Entry? ==>
                HeldSince(bucket.world.log, old(bucket.world.callers[c]).name, old(|bucket.world.log|), r.value.entry)
    {
      bucket.Take(Deliver(c));
      ghost var me := bucket.world.callers[c];
      if !bucket.world.callers[c].pc.AfterRemoval? {
        return None;
      }
      var reply, before, net := bucket.Ask(c, Get(Data(name)));
      Answered(before, bucket.world.log, me, net);
      r := Some(if Decode(reply).Some? then Entry(Decode(reply).value) else RetryLocker);
    }

    /** The holder's heartbeat was missing: purge exactly the tenure that was looked up. */
    method StealLock(c: nat, name: string, rev: nat, seenAt: nat) returns (r: WaitResult)
      requires bucket.Valid() && c in bucket.world.callers && bucket.world.callers[c].name == name
      requires bucket.world.callers[c].pc.Steal?
      requires bucket.world.callers[c].pc.rev == rev && bucket.world.callers[c].pc.seenAt == seenAt
      modifies bucket
      ensures bucket.Valid() && old(bucket.acts) <= bucket.acts && c in bucket.world.callers
      ensures r.RetryLocker? && Reflects(old(bucket.world.callers[c]), bucket.world.callers[c], r)
    {
      var _, _, _ := bucket.Ask(c, PurgeRev(Lock(name), rev, Stolen(seenAt)));
      r := RetryLocker;
    }
  }

  /** The heartbeat key is present with revision rev. */
  predicate Beats(log: seq<Op>, me: Id, rev: nat) {
    Present(log, Beat(me)) && Last(log, Beat(me)) == rev
  }

  /** How a result of wait reads in the automaton. */
  ghost predicate Reflects(before: Caller, after: Caller, r: WaitResult) {
    match r
    case Entry(e) => after == before.At(Served(e))
    case WaitError => after == before.At(LoadUnlocked)
    case RetryLocker =>
      && after == before.(pc := FastGet, retries := before.retries + 1,
                          blocks := after.blocks, uncertified := after.uncertified)
      && before.blocks <= after.blocks
      && before.uncertified <= after.uncertified <= before.uncertified + 1
  }

  lemma LockHoldsHolder(acts: seq<Action>, log: seq<Op>, name: string)
    requires Run(acts).log == log && Present(log, Lock(name))
    ensures log[Last(log, Lock(name))].val.Holder?
  {
    RunKeepsInv(acts);
    assert Sound(log, Last(log, Lock(name)));
  }
}
