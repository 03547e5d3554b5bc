/** One pass through LockOrWait and wait of natscache, with everybody else moving before each of its requests
    and any of them lost: where it leads, by what each of its requests meets.
 */
module NatsWait {
  import opened JetStream
  import opened NatsLock
  import opened Options

  /** The key is present, and revision rev is its latest message. */
  ghost predicate PutAt(log: seq<Op>, key: Key, rev: int, val: Val) {
    0 <= rev < |log| && log[rev] == Put(key, val) && forall j :: rev < j < |log| ==> log[j].key != key
  }

  ghost predicate Missing(log: seq<Op>, key: Key) {
    forall rev, val :: !PutAt(log, key, rev, val)
  }

  lemma PresentMeans(log: seq<Op>, key: Key)
    ensures Present(log, key) <==> !Missing(log, key)
    ensures forall rev, val :: PutAt(log, key, rev, val) ==> Present(log, key) && rev == Last(log, key)
  {
    var r := Last(log, key);
    if r >= 0 && log[r].Put? { assert PutAt(log, key, r, log[r].val); }
  }

  /** What everybody else does before a request, and what becomes of it. */
  datatype Turn = Turn(moves: seq<Action>, net: Net)

  /** Requests of caller c, one after each turn. */
  datatype Pass = Pass(start: seq<Action>, c: nat, turns: seq<Turn>) {
    ghost predicate Valid() {
      c in Run(start).callers && forall n :: 0 <= n < |turns| ==> AllNotMine(turns[n].moves, c)
    }

    function Me(): Caller
      requires c in Run(start).callers
    {
      Run(start).callers[c]
    }

    /** The run after n requests, and the stream that request n meets. */
    function Sent(n: nat): seq<Action>
      requires n <= |turns|
    {
      if n == 0 then start else Sent(n - 1) + turns[n - 1].moves + [Request(c, turns[n - 1].net)]
    }

    function Met(n: nat): seq<Op>
      requires n < |turns|
    {
      Run(Sent(n) + turns[n].moves).log
    }

    predicate Arrives(n: nat)
      requires n < |turns|
    {
      turns[n].net.Delivered?
    }

    ghost predicate Ends(n: nat, after: Caller)
      requires n <= |turns|
    {
      c in Run(Sent(n)).callers && Run(Sent(n)).callers[c] == after
    }
  }

  /** The next request goes out from where the caller stands, and the stream is what it makes of it. */
  lemma NextRequest(p: Pass, n: nat, me: Caller)
    requires p.Valid() && n < |p.turns| && p.Ends(n, me)
    ensures var (log', me') := Send(p.Met(n), me, p.turns[n].net);
            p.Ends(n + 1, me') && Run(p.Sent(n + 1)).log == log'
  {
    OthersMove(p.Sent(n), p.turns[n].moves, p.c);
    RunAppend(p.Sent(n) + p.turns[n].moves, Request(p.c, p.turns[n].net));
  }

  // ---------------------------------------------------------------- the requests, one by one

  /** A read of the data key that is not answered with an entry leads on: to the lock, to its holder, or, after
      a removal, round again. */
  lemma ReadExactly(log: seq<Op>, me: Caller, net: Net)
    requires ReadsData(me.pc)
    ensures var (log', me') := Send(log, me, net);
            && log' == log
            && (forall e :: net.Delivered? && HeldAt(log, me.name, |log|, e) ==> me' == me.At(Served(e)))
            && (!(exists e :: net.Delivered? && HeldAt(log, me.name, |log|, e)) ==>
                  me' == match me.pc
                         case FastGet => me.At(KeepAlive)
                         case WaitData(blk) => me.At(WaitLookup(blk))
                         case AfterRemoval(rev) => me.Retry(rev)
                         case _ => me)
  {
    ReadServes(log, me, net);
    var r := Last(log, Data(me.name));
    assert forall e :: ReadData(log, me.name) == Some(e) ==> HeldAt(log, me.name, |log|, e);
  }

  /** Create: it makes a tenure of the caller's own exactly if it gets through and the lock is free; a lost
      answer leaves the caller without the lock, and a taken lock makes it wait for the tenure in force. */
  lemma CreateExactly(log: seq<Op>, me: Caller, net: Net)
    requires me.pc.Acquire?
    ensures var (log', me') := Send(log, me, net);
            && log' == log + (if !net.Dropped? && Missing(log, Lock(me.name)) then [Put(Lock(me.name), Holder(me.id))]
                              else [])
            && (!net.Delivered? ==> me' == me.At(LoadUnlocked))
            && (net.Delivered? && Missing(log, Lock(me.name)) ==> me' == me.At(Holding(|log|)))
            && (forall rev, val :: net.Delivered? && PutAt(log, Lock(me.name), rev, val) ==>
                  me' == me.At(WaitData(rev)))
  {
    PresentMeans(log, Lock(me.name));
  }

  /** Looking up the holder. */
  lemma LookupExactly(log: seq<Op>, me: Caller, net: Net)
    requires me.pc.WaitLookup?
    ensures var (log', me') := Send(log, me, net);
            && log' == log
            && (!net.Delivered? ==> me' == me.At(LoadUnlocked))
            && (net.Delivered? && Missing(log, Lock(me.name)) ==> me' == me.Retry(me.pc.blk))
            && (forall rev, id :: net.Delivered? && PutAt(log, Lock(me.name), rev, Holder(id)) ==>
                  me' == me.At(CheckBeat(id, rev)))
  {
    PresentMeans(log, Lock(me.name));
  }

  /** A probe of the heartbeat, before the watch or at a tick of it. */
  lemma ProbeExactly(log: seq<Op>, me: Caller, net: Net)
    requires me.pc.CheckBeat? || me.pc.Watching?
    ensures var (log', me') := Send(log, me, net);
            && log' == log
            && me' == if net.Delivered? && Missing(log, Beat(me.pc.holder))
                      then me.At(Steal(me.pc.holder, me.pc.rev, |log|))
                      else if me.pc.CheckBeat? then me.At(WatchStart(me.pc.holder, me.pc.rev)) else me
  {
    PresentMeans(log, Beat(me.pc.holder));
  }

  /** A steal, like a release, removes exactly the tenure it names, if that is still in force; a steal always
      ends in a retry, a release in nothing more to do. */
  lemma PurgeExactly(log: seq<Op>, me: Caller, net: Net)
    requires me.pc.Steal? || me.pc.Holding?
    requires me.pc.rev < |log| && log[me.pc.rev].Put? && log[me.pc.rev].key == Lock(me.name)
    ensures var (log', me') := Send(log, me, net);
            var live := PutAt(log, Lock(me.name), me.pc.rev, log[me.pc.rev].val);
            && (net.Dropped? || !live ==> log' == log)
            && (!net.Dropped? && live ==> |log'| == |log| + 1 && log <= log' && log'[|log|].Remove?
                                          && log'[|log|].key == Lock(me.name) && log'[|log|].fence == me.pc.rev)
            && (me.pc.Steal? ==> me' == if net.Dropped? then me.RetryUncertified() else me.Retry(me.pc.rev))
            && (me.pc.Holding? ==> me' == me.At(Done))
  {
    PresentMeans(log, Lock(me.name));
    assert me.pc.rev == Last(log, Lock(me.name)) ==> PutAt(log, Lock(me.name), me.pc.rev, log[me.pc.rev].val);
  }

  /** Message j is the latest of its key. */
  ghost predicate LatestAt(log: seq<Op>, key: Key, j: nat) {
    j < |log| && log[j].key == key && forall i :: j < i < |log| ==> log[i].key != key
  }

  /** Starting to watch: the latest message of the lock key, and every later one, is still to come. */
  lemma WatchExactly(log: seq<Op>, me: Caller, net: Net)
    requires me.pc.WatchStart?
    ensures var (log', me') := Send(log, me, net);
            && log' == log
            && (!net.Delivered? ==> me' == me.At(LoadUnlocked))
            && (net.Delivered? ==>
                  && me'.pc.Watching? && me' == me.At(Watching(me.pc.holder, me.pc.rev, me'.pc.cursor))
                  && me'.pc.cursor <= |log|
                  && (forall j {:trigger LatestAt(log, Lock(me.name), j)} ::
                        LatestAt(log, Lock(me.name), j) ==> me'.pc.cursor == j)
                  && ((forall j :: 0 <= j < |log| ==> log[j].key != Lock(me.name)) ==> me'.pc.cursor == |log|))
  {
  }

  /** Message j is the next of its lock key that the watcher has not handed over. */
  ghost predicate ComesNext(log: seq<Op>, me: Caller, j: nat)
    requires me.pc.Watching?
  {
    && me.pc.cursor <= j < |log| && log[j].key == Lock(me.name)
    && forall i :: me.pc.cursor <= i < j ==> log[i].key != Lock(me.name)
  }

  /** What else may happen in the watch loop: the next message of the lock key arrives, if there is one, and
      only a removal ends the wait; a closed watcher makes the caller retry, the end of its context makes it
      fail. */
  lemma WatchingExactly(log: seq<Op>, me: Caller, c: nat)
    requires me.pc.Watching? && me.pc.cursor <= |log|
    ensures Local(log, me, WatcherClosed(c)) == me.RetryUncertified()
    ensures Local(log, me, Cancel(c)) == me.At(LoadUnlocked)
    ensures (forall j :: me.pc.cursor <= j < |log| ==> log[j].key != Lock(me.name)) ==>
              Local(log, me, Deliver(c)) == me
    ensures forall j: nat {:trigger ComesNext(log, me, j)} :: ComesNext(log, me, j) ==>
              Local(log, me, Deliver(c)) ==
                me.At(if log[j].Remove? then AfterRemoval(me.pc.rev) else Watching(me.pc.holder, me.pc.rev, j + 1))
  {
  }

  /** What comes from elsewhere: a new call reads first, heartbeats and data come and go, and a caller that has
      made its heartbeat sure asks for the lock. */
  lemma OutsideExactly(w: World, id: Id, name: string, e: Option<nat>, c: nat)
    ensures Step(w, BeatPut(id)) == World(w.log + [Put(Beat(id), One)], w.callers)
    ensures Step(w, DataPut(name, e)) == World(w.log + [Put(Data(name), Payload(e))], w.callers)
    ensures var w' := Step(w, BeatRemove(id)); w'.callers == w.callers && w.log <= w'.log && Missing(w'.log, Beat(id))
    ensures var w' := Step(w, DataRemove(name));
            w'.callers == w.callers && w.log <= w'.log && Missing(w'.log, Data(name))
    ensures c !in w.callers ==>
              Step(w, Call(c, name)) == World(w.log, w.callers[c := Caller(name, 0, FastGet, |w.log|, {}, 0, 0)])
    ensures c in w.callers && w.callers[c].pc.KeepAlive? ==>
              Step(w, GotId(c, id)) == World(w.log, w.callers[c := w.callers[c].(pc := Acquire, id := id)])
  {
    PresentMeans(Step(w, BeatRemove(id)).log, Beat(id));
    PresentMeans(Step(w, DataRemove(name)).log, Data(name));
  }

  // ---------------------------------------------------------------- a pass

  /** The end of a wait that has found id to hold the lock since revision rev: a steal, or a watch. */
  ghost predicate Checked(p: Pass, n: nat, id: Id, rev: nat)
    requires |p.turns| == 4 && n <= 4 && p.c in Run(p.start).callers
  {
    if p.Arrives(2) && Missing(p.Met(2), Beat(id)) then
      && p.Ends(n, if p.turns[3].net.Dropped? then p.Me().RetryUncertified() else p.Me().Retry(rev))
      && (!p.turns[3].net.Dropped? ==> !Live(Run(p.Sent(n)).log, p.Me().name, rev))
    else if !p.Arrives(3) then p.Ends(n, p.Me().At(LoadUnlocked))
    else exists cursor: nat :: cursor <= |p.Met(3)| && p.Ends(n, p.Me().At(Watching(id, rev, cursor)))
  }

  /** The wait of a caller whose Create failed, up to the watch. Either it is answered with what its first read
      met; or it retries, because the lock was gone, or because the holder had no heartbeat, and then the
      tenure of that holder is over unless the purge was dropped; or it fails because a request it needs was
      lost; or it watches the lock of a holder that it has not seen dead. */
  lemma WaitGoes(p: Pass, log1: seq<Op>, id: Id, rev: nat) returns (n: nat)
    requires p.Valid() && |p.turns| == 4 && p.Me().pc.WaitData? && log1 == p.Met(1)
    requires Missing(log1, Lock(p.Me().name)) || PutAt(log1, Lock(p.Me().name), rev, Holder(id))
    ensures n <= 4
    ensures forall e :: p.Arrives(0) && HeldAt(p.Met(0), p.Me().name, |p.Met(0)|, e) ==>
              n == 1 && p.Ends(n, p.Me().At(Served(e)))
    ensures var me := p.Me();
            (forall e :: !(p.Arrives(0) && HeldAt(p.Met(0), me.name, |p.Met(0)|, e))) ==>
              if !p.Arrives(1) then p.Ends(n, me.At(LoadUnlocked))
              else if Missing(log1, Lock(me.name)) then p.Ends(n, me.Retry(me.pc.blk))
              else Checked(p, n, id, rev)
  {
    var me := p.Me();
    NextRequest(p, 0, me);
    ReadServes(p.Met(0), me, p.turns[0].net);
    n := 1;
    if e :| p.Arrives(0) && HeldAt(p.Met(0), me.name, |p.Met(0)|, e) {
      return;
    }
    n := WaitLooksUp(p, id, rev);
  }

  lemma WaitLooksUp(p: Pass, id: Id, rev: nat) returns (n: nat)
    requires p.Valid() && |p.turns| == 4 && p.Me().pc.WaitData? && p.Ends(1, p.Me().At(WaitLookup(p.Me().pc.blk)))
    requires Missing(p.Met(1), Lock(p.Me().name)) || PutAt(p.Met(1), Lock(p.Me().name), rev, Holder(id))
    ensures n <= 4
    ensures var me := p.Me();
            if !p.Arrives(1) then p.Ends(n, me.At(LoadUnlocked))
            else if Missing(p.Met(1), Lock(me.name)) then p.Ends(n, me.Retry(me.pc.blk))
            else Checked(p, n, id, rev)
  {
    var at := p.Me().At(WaitLookup(p.Me().pc.blk));
    NextRequest(p, 1, at);
    LookupExactly(p.Met(1), at, p.turns[1].net);
    n := 2;
    if p.Arrives(1) && !Missing(p.Met(1), Lock(p.Me().name)) {
      WaitProbes(p, id, rev);
      n := 4;
    }
  }

  lemma WaitProbes(p: Pass, id: Id, rev: nat)
    requires p.Valid() && |p.turns| == 4 && p.Ends(2, p.Me().At(CheckBeat(id, rev)))
    ensures Checked(p, 4, id, rev)
  {
    var at := p.Me().At(CheckBeat(id, rev));
    NextRequest(p, 2, at);
    ProbeExactly(p.Met(2), at, p.turns[2].net);
    if p.Arrives(2) && Missing(p.Met(2), Beat(id)) {
      WaitSteals(p, id, rev, |p.Met(2)|);
    } else {
      at := p.Me().At(WatchStart(id, rev));
      NextRequest(p, 3, at);
      WatchExactly(p.Met(3), at, p.turns[3].net);
    }
  }

  lemma WaitSteals(p: Pass, id: Id, rev: nat, seenAt: nat)
    requires p.Valid() && |p.turns| == 4 && p.Ends(3, p.Me().At(Steal(id, rev, seenAt)))
    ensures p.Ends(4, if p.turns[3].net.Dropped? then p.Me().RetryUncertified() else p.Me().Retry(rev))
    ensures !p.turns[3].net.Dropped? ==> !Live(Run(p.Sent(4)).log, p.Me().name, rev)
  {
    NextRequest(p, 3, p.Me().At(Steal(id, rev, seenAt)));
    if !p.turns[3].net.Dropped? {
      StealEnds(p, rev);
    }
  }

  lemma StealEnds(p: Pass, rev: nat)
    requires p.Valid() && |p.turns| == 4 && !p.turns[3].net.Dropped? && p.c in Run(p.Sent(3)).callers
    requires var at := Run(p.Sent(3)).callers[p.c]; at.pc.Steal? && at.pc.rev == rev && at.name == p.Me().name
    ensures !Live(Run(p.Sent(4)).log, p.Me().name, rev)
  {
    OthersMove(p.Sent(3), p.turns[3].moves, p.c);
    Fenced(p.Sent(3) + p.turns[3].moves, p.c, p.turns[3].net, p.Me().name, rev);
  }
}
