/** Tenures of the natscache lock whose holder is gone: how they come about, what keeps them in force,
    and what ends them.
 */
module NatsTenure {
  import opened JetStream
  import opened NatsLock
  import opened Options

  predicate Holds(w: World, c: nat, rev: nat) {
    c in w.callers && w.callers[c].pc == Holding(rev)
  }

  /** Nobody holds the tenure with revision rev, so nobody will release it. */
  ghost predicate Ownerless(w: World, rev: nat) {
    forall c :: c in w.callers ==> !Holds(w, c, rev)
  }

  predicate AboutToSteal(me: Caller, rev: nat) {
    me.pc.Steal? && me.pc.rev == rev
  }

  ghost predicate Unthreatened(w: World, rev: nat) {
    Ownerless(w, rev) && forall c :: c in w.callers ==> !AboutToSteal(w.callers[c], rev)
  }

  lemma LiveBefore(log: seq<Op>, op: Op, name: string, rev: nat)
    requires Live(log + [op], name, rev) && rev < |log|
    ensures Live(log, name, rev) && op.key != Lock(name)
  {
    LastAppend(log, op, Lock(name));
  }

  // ---------------------------------------------------------------- when a tenure has no holder

  /** Action k is the Create of caller c that made the tenure. */
  ghost predicate CreatedBy(acts: seq<Action>, name: string, rev: nat, k: nat, c: nat) {
    && k < |acts| && acts[k].Request? && acts[k].c == c && !acts[k].net.Dropped?
    && var w := Run(acts[..k]);
       c in w.callers && w.callers[c].pc.Acquire? && w.callers[c].name == name && |w.log| == rev
  }

  /** Its reply was lost, or its caller's release was dropped. */
  ghost predicate LostTrack(acts: seq<Action>, k: nat, c: nat)
    requires k < |acts| && acts[k].Request?
  {
    acts[k].net.ReplyLost? || exists j :: k < j < |acts| && acts[j] == Request(c, Dropped)
  }

  /** What is appended in a step, and by whom. */
  lemma StepAppends(w: World, a: Action, name: string, rev: nat)
    requires Inv(w) && Live(Step(w, a).log, name, rev)
    ensures rev < |w.log| ==> Live(w.log, name, rev)
    ensures rev >= |w.log| ==>
              && rev == |w.log| && a.Request? && a.c in w.callers && !a.net.Dropped?
              && w.callers[a.c].pc.Acquire? && w.callers[a.c].name == name
  {
    if a.Request? && a.c in w.callers {
      var me := w.callers[a.c];
      SendAppends(w.log, me, a.net);
      var op := Appended(w.log, me, a.net);
      if op.Some? && rev < |w.log| {
        LiveBefore(w.log, op.value, name, rev);
      }
    } else if Step(w, a).log != w.log && rev < |w.log| {
      LiveBefore(w.log, Step(w, a).log[|w.log|], name, rev);
    }
  }

  /** Only a request of the holder itself ends its hold of a tenure, and if the tenure stays live that
      request was dropped. */
  lemma HoldKept(w: World, a: Action, name: string, rev: nat, c: nat)
    requires Inv(w) && Holds(w, c, rev) && Live(Step(w, a).log, name, rev)
    ensures Holds(Step(w, a), c, rev) <==> a != Request(c, Dropped)
  {
    var me := w.callers[c];
    assert CallerInv(w.log, me);
    StepAppends(w, a, name, rev);
    if a.Request? && a.c == c && !a.net.Dropped? {
      LastAppend(w.log, Remove(me.Key(), rev, Released), Lock(name));
      assert false;
    }
  }

  lemma OneHolder(w: World, c: nat, rev: nat)
    requires Inv(w) && (Holds(w, c, rev) || rev >= |w.log|)
    ensures forall d :: d in w.callers && d != c ==> !Holds(w, d, rev)
  {
    forall d | d in w.callers && d != c
      ensures !Holds(w, d, rev)
    {
      assert CallerInv(w.log, w.callers[d]);
      assert c in w.callers ==> DistinctTenures(w.callers[c], w.callers[d]);
    }
  }

  /** A caller comes to hold a tenure by the Create that makes it. */
  lemma NewHold(w: World, a: Action, d: nat, rev: nat)
    requires Holds(Step(w, a), d, rev) && !Holds(w, d, rev)
    ensures rev == |w.log| && a == Request(d, Delivered)
  {
  }

  lemma StaysOwnerless(w: World, a: Action, rev: nat)
    requires Ownerless(w, rev) && rev < |w.log|
    ensures Ownerless(Step(w, a), rev)
  {
    forall d | d in Step(w, a).callers
      ensures !Holds(Step(w, a), d, rev)
    {
      assert d in w.callers ==> !Holds(w, d, rev);
      if Holds(Step(w, a), d, rev) { NewHold(w, a, d, rev); }
    }
  }

  /** After a step that made the tenure, or that its holder c may have made, nobody else holds it. */
  lemma NobodyElse(w: World, a: Action, rev: nat, c: nat)
    requires Inv(w) && (Holds(w, c, rev) || (rev >= |w.log| && a.Request? && a.c == c))
    requires rev < |w.log| || rev == |w.log|
    ensures Ownerless(Step(w, a), rev) <==> !Holds(Step(w, a), c, rev)
  {
    var w' := Step(w, a);
    OneHolder(w, c, rev);
    assert Holds(w, c, rev) ==> CallerInv(w.log, w.callers[c]);
    forall d | d in w'.callers && d != c
      ensures !Holds(w', d, rev)
    {
      if Holds(w', d, rev) { NewHold(w, a, d, rev); }
    }
  }

  /** How that goes on: the action that makes the tenure, and one that comes later. */
  lemma JustCreated(front: seq<Action>, a: Action, name: string, rev: nat)
    requires Live(Run(front + [a]).log, name, rev) && rev >= |Run(front).log|
    ensures a.Request? && CreatedBy(front + [a], name, rev, |front|, a.c)
    ensures Ownerless(Run(front + [a]), rev) <==> LostTrack(front + [a], |front|, a.c)
    ensures !Ownerless(Run(front + [a]), rev) ==> Holds(Run(front + [a]), a.c, rev)
  {
    RunAppend(front, a);
    RunKeepsInv(front);
    StepAppends(Run(front), a, name, rev);
    assert (front + [a])[..|front|] == front;
    NobodyElse(Run(front), a, rev, a.c);
    CreateHolds(Run(front), a.c, a.net);
  }

  lemma CreateHolds(w: World, c: nat, net: Net)
    requires c in w.callers && w.callers[c].pc.Acquire? && !net.Dropped?
    ensures |Step(w, Request(c, net)).log| > |w.log| ==>
              (Holds(Step(w, Request(c, net)), c, |w.log|) <==> net.Delivered?)
  {
  }

  lemma CreatedLongAgo(front: seq<Action>, a: Action, name: string, rev: nat, k: nat, c: nat)
    requires Live(Run(front + [a]).log, name, rev) && rev < |Run(front).log|
    requires CreatedBy(front, name, rev, k, c) && (Ownerless(Run(front), rev) <==> LostTrack(front, k, c))
    requires !Ownerless(Run(front), rev) ==> Holds(Run(front), c, rev)
    ensures CreatedBy(front + [a], name, rev, k, c)
    ensures Ownerless(Run(front + [a]), rev) <==> LostTrack(front + [a], k, c)
    ensures !Ownerless(Run(front + [a]), rev) ==> Holds(Run(front + [a]), c, rev)
  {
    var w := Run(front);
    RunAppend(front, a);
    RunKeepsInv(front);
    assert (front + [a])[..k] == front[..k];
    LostTrackGrows(front, a, k, c);
    if Ownerless(w, rev) {
      StaysOwnerless(w, a, rev);
    } else {
      HoldKept(w, a, name, rev, c);
      NobodyElse(w, a, rev, c);
    }
  }

  /** In every run, a live tenure has one Create behind it, and it has no holder exactly if the reply
      to that Create was lost or the release of the caller that sent it was dropped. */
  lemma {:induction false} OwnerlessExactly(acts: seq<Action>, name: string, rev: nat) returns (k: nat, c: nat)
    requires Live(Run(acts).log, name, rev)
    ensures CreatedBy(acts, name, rev, k, c)
    ensures Ownerless(Run(acts), rev) <==> LostTrack(acts, k, c)
    ensures !Ownerless(Run(acts), rev) ==> Holds(Run(acts), c, rev)
  {
    var front, a := acts[..|acts| - 1], acts[|acts| - 1];
    assert acts == front + [a];
    if rev >= |Run(front).log| {
      k, c := |front|, a.c;
      JustCreated(front, a, name, rev);
    } else {
      RunKeepsInv(front);
      StepAppends(Run(front), a, name, rev);
      k, c := OwnerlessExactly(front, name, rev);
      CreatedLongAgo(front, a, name, rev, k, c);
    }
  }

  lemma LostTrackGrows(front: seq<Action>, a: Action, k: nat, c: nat)
    requires k < |front| && front[k].Request?
    ensures LostTrack(front + [a], k, c) <==> LostTrack(front, k, c) || a == Request(c, Dropped)
  {
    var acts := front + [a];
    assert acts[|front|] == a && forall j :: 0 <= j < |front| ==> acts[j] == front[j];
  }

  // ---------------------------------------------------------------- what keeps it in force

  /** The tenure is the one in force, of client id, and nobody will release it or is about to steal it. */
  ghost predicate Stuck(w: World, name: string, rev: nat, id: Id) {
    Live(w.log, name, rev) && w.log[rev].val == Holder(id) && Unthreatened(w, rev)
  }

  /** One step, while the heartbeat of that client is there. */
  lemma StuckStep(w: World, a: Action, name: string, rev: nat, id: Id)
    requires Inv(w) && Stuck(w, name, rev, id) && Present(w.log, Beat(id))
    ensures Stuck(Step(w, a), name, rev, id)
  {
    var w' := Step(w, a);
    StepKeepsInv(w, a);
    StaysOwnerless(w, a, rev);
    forall c | c in w'.callers
      ensures !AboutToSteal(w'.callers[c], rev)
    {
      if c in w.callers { NoNewThief(w, a, c, rev); }
    }
    StillLive(w, a, name, rev);
  }

  lemma NoNewThief(w: World, a: Action, c: nat, rev: nat)
    requires Inv(w) && c in w.callers && !AboutToSteal(w.callers[c], rev)
    requires rev < |w.log| && w.log[rev].Put? && w.log[rev].val.Holder?
    requires Present(w.log, Beat(w.log[rev].val.holder))
    ensures !AboutToSteal(Step(w, a).callers[c], rev)
  {
    assert CallerInv(w.log, w.callers[c]);
  }

  lemma StillLive(w: World, a: Action, name: string, rev: nat)
    requires Inv(w) && Live(w.log, name, rev) && Unthreatened(w, rev)
    ensures Live(Step(w, a).log, name, rev)
  {
    if a.Request? && a.c in w.callers {
      var me := w.callers[a.c];
      SendAppends(w.log, me, a.net);
      assert !Holds(w, a.c, rev) && !AboutToSteal(me, rev);
      var op := Appended(w.log, me, a.net);
      if op.Some? {
        LastAppend(w.log, op.value, Lock(name));
      }
    } else if Step(w, a).log != w.log {
      LastAppend(w.log, Step(w, a).log[|w.log|], Lock(name));
    }
  }

  /** The heartbeat is there before move k. */
  ghost predicate BeatAt(acts: seq<Action>, moves: seq<Action>, k: nat, id: Id)
    requires k <= |moves|
  {
    Present(Run(acts + moves[..k]).log, Beat(id))
  }

  ghost predicate BeatsOn(acts: seq<Action>, moves: seq<Action>, id: Id) {
    forall k :: 0 <= k < |moves| ==> BeatAt(acts, moves, k, id)
  }

  lemma BeatsBefore(acts: seq<Action>, moves: seq<Action>, n: nat, id: Id)
    requires n <= |moves| && BeatsOn(acts, moves, id)
    ensures BeatsOn(acts, moves[..n], id)
  {
    forall k | 0 <= k < n
      ensures BeatAt(acts, moves[..n], k, id)
    {
      assert BeatAt(acts, moves, k, id) && moves[..n][..k] == moves[..k];
    }
  }

  lemma NextStuck(acts: seq<Action>, a: Action, name: string, rev: nat, id: Id)
    requires Stuck(Run(acts), name, rev, id) && Present(Run(acts).log, Beat(id))
    ensures Stuck(Run(acts + [a]), name, rev, id)
  {
    RunAppend(acts, a);
    RunKeepsInv(acts);
    StuckStep(Run(acts), a, name, rev, id);
  }

  /** A live tenure that nobody holds or is about to steal stays in force, whatever anybody does, as
      long as the heartbeat of its client is there. */
  lemma {:induction false} OwnerlessLasts(acts: seq<Action>, moves: seq<Action>, name: string, rev: nat, id: Id)
    requires Stuck(Run(acts), name, rev, id) && BeatsOn(acts, moves, id)
    ensures Stuck(Run(acts + moves), name, rev, id)
    decreases |moves|
  {
    if moves == [] {
      assert acts + moves == acts;
    } else {
      var n := |moves| - 1;
      BeatsBefore(acts, moves, n, id);
      OwnerlessLasts(acts, moves[..n], name, rev, id);
      assert BeatAt(acts, moves, n, id);
      NextStuck(acts + moves[..n], moves[n], name, rev, id);
      assert acts + moves == (acts + moves[..n]) + [moves[n]];
    }
  }

  /** And meanwhile nobody's wait for it comes to an end with a removal, or with a certified retry. */
  lemma LiveIsAwaited(acts: seq<Action>, name: string, rev: nat, c: nat)
    requires Live(Run(acts).log, name, rev) && c in Run(acts).callers && Run(acts).callers[c].name == name
    ensures var me := Run(acts).callers[c]; me.pc != AfterRemoval(rev) && rev !in me.blocks
  {
    RunKeepsInv(acts);
    assert CallerInv(Run(acts).log, Run(acts).callers[c]);
  }

  // ---------------------------------------------------------------- what ends it

  ghost predicate NotBeating(moves: seq<Action>, id: Id) {
    forall k :: 0 <= k < |moves| ==> moves[k] != BeatPut(id)
  }

  lemma {:induction false} BeatStaysGone(acts: seq<Action>, moves: seq<Action>, id: Id)
    requires !Present(Run(acts).log, Beat(id)) && NotBeating(moves, id)
    ensures !Present(Run(acts + moves).log, Beat(id))
    decreases |moves|
  {
    if moves == [] {
      assert acts + moves == acts;
    } else {
      var front, a := moves[..|moves| - 1], moves[|moves| - 1];
      BeatStaysGone(acts, front, id);
      assert acts + moves == (acts + front) + [a];
      RunAppend(acts + front, a);
      RunKeepsInv(acts + front);
      NoBeatAppended(Run(acts + front), a, id);
    }
  }

  lemma NoBeatAppended(w: World, a: Action, id: Id)
    requires Inv(w) && a != BeatPut(id) && !Present(w.log, Beat(id))
    ensures !Present(Step(w, a).log, Beat(id))
  {
    var log' := Step(w, a).log;
    if a.Request? && a.c in w.callers {
      SendAppends(w.log, w.callers[a.c], a.net);
    }
    if log' != w.log {
      var op := log'[|w.log|];
      assert log' == w.log + [op];
      LastAppend(w.log, op, Beat(id));
    }
  }

  lemma ProbeMisses(w: World, c: nat)
    requires c in w.callers && (w.callers[c].pc.CheckBeat? || w.callers[c].pc.Watching?)
    requires !Present(w.log, Beat(w.callers[c].pc.holder))
    ensures var me, w' := w.callers[c], Step(w, Request(c, Delivered));
            c in w'.callers && w'.callers[c] == me.At(Steal(me.pc.holder, me.pc.rev, |w.log|))
  {
  }

  lemma StealRetries(w: World, c: nat, net: Net)
    requires c in w.callers && w.callers[c].pc.Steal? && !net.Dropped?
    ensures var me, w' := w.callers[c], Step(w, Request(c, net));
            c in w'.callers && w'.callers[c] == me.Retry(me.pc.rev)
  {
  }

  /** A client whose heartbeat is gone and not put again loses its tenure to any waiter whose probe and
      purge get through, whatever everybody else does before and between; the waiter then retries. */
  lemma DeadHolderIsReplaced(acts: seq<Action>, c: nat, before: seq<Action>, between: seq<Action>, net: Net)
    requires var w := Run(acts);
             && c in w.callers && (w.callers[c].pc.CheckBeat? || w.callers[c].pc.Watching?)
             && !Present(w.log, Beat(w.callers[c].pc.holder)) && NotBeating(before, w.callers[c].pc.holder)
    requires AllNotMine(before, c) && AllNotMine(between, c) && !net.Dropped?
    ensures var me := Run(acts).callers[c];
            var w' := Run(acts + before + [Request(c, Delivered)] + between + [Request(c, net)]);
            !Live(w'.log, me.name, me.pc.rev) && c in w'.callers && w'.callers[c] == me.Retry(me.pc.rev)
  {
    var probe := acts + before + [Request(c, Delivered)];
    Probed(acts, c, before);
    OthersMove(probe, between, c);
    var purge := probe + between;
    Fenced(purge, c, net, Run(purge).callers[c].name, Run(purge).callers[c].pc.rev);
    RunAppend(purge, Request(c, net));
    StealRetries(Run(purge), c, net);
  }

  lemma Probed(acts: seq<Action>, c: nat, before: seq<Action>)
    requires var w := Run(acts);
             && c in w.callers && (w.callers[c].pc.CheckBeat? || w.callers[c].pc.Watching?)
             && !Present(w.log, Beat(w.callers[c].pc.holder)) && NotBeating(before, w.callers[c].pc.holder)
    requires AllNotMine(before, c)
    ensures var me, w' := Run(acts).callers[c], Run(acts + before + [Request(c, Delivered)]);
            && c in w'.callers
            && w'.callers[c] == me.At(Steal(me.pc.holder, me.pc.rev, |Run(acts + before).log|))
  {
    OthersMove(acts, before, c);
    BeatStaysGone(acts, before, Run(acts).callers[c].pc.holder);
    RunAppend(acts + before, Request(c, Delivered));
    ProbeMisses(Run(acts + before), c);
  }

  // ---------------------------------------------------------------- a concrete run

  const BEATING := [Put(Beat(7), One)]
  const CREATED := BEATING + [Put(Lock("k"), Holder(7))]

  lemma AboutToCreate() returns (acts: seq<Action>)
    ensures Run(acts) == World(BEATING, map[0 := Caller("k", 7, Acquire, 0, {}, 0, 0)])
  {
    acts := [];
    var a := Call(0, "k");
    RunAppend(acts, a);
    acts := acts + [a];
    assert Run(acts) == World([], map[0 := Caller("k", 0, FastGet, 0, {}, 0, 0)]);
    a := Request(0, Delivered);
    RunAppend(acts, a);
    acts := acts + [a];
    assert Run(acts) == World([], map[0 := Caller("k", 0, KeepAlive, 0, {}, 0, 0)]);
    a := BeatPut(7);
    RunAppend(acts, a);
    acts := acts + [a];
    a := GotId(0, 7);
    RunAppend(acts, a);
    acts := acts + [a];
  }

  lemma Created(net: Net) returns (acts: seq<Action>)
    requires !net.Dropped?
    ensures var me := Caller("k", 7, if net.Delivered? then Holding(1) else LoadUnlocked, 0, {}, 0, 0);
            Run(acts) == World(CREATED, map[0 := me])
  {
    var front := AboutToCreate();
    acts := front + [Request(0, net)];
    RunAppend(front, Request(0, net));
  }

  /** A call wins the lock, and either the reply to its Create is lost or its release is dropped. The
      lock is in force, its client beats, and nobody will release it. */
  lemma Orphan(replyLost: bool) returns (acts: seq<Action>)
    ensures var w := Run(acts);
            && Stuck(w, "k", 1, 7) && Present(w.log, Beat(7))
            && w.callers.Keys == {0} && w.callers[0].pc == if replyLost then LoadUnlocked else Done
  {
    if replyLost {
      acts := Created(ReplyLost);
    } else {
      var front := Created(Delivered);
      acts := front + [Request(0, Dropped)];
      RunAppend(front, Request(0, Dropped));
    }
    assert Run(acts).log == CREATED;
    LastAppend(BEATING, CREATED[1], Lock("k"));
    LastAppend(BEATING, CREATED[1], Beat(7));
    LastAppend([], BEATING[0], Beat(7));
    assert BEATING == [] + [BEATING[0]];
  }
}
