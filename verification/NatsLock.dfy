/** The stampede lock of natscache under every interleaving of any number of callers.

    A caller is one call of the driver's lock loop: LockOrWait, then wait or release, then back
    to LockOrWait on ErrRetryLocker. Each server request of a caller is one step. A request can
    be delivered, dropped before it reaches the server, or applied with its reply lost. A caller
    that crashes is a caller that is never scheduled again, and heartbeat keys may appear and
    vanish at any moment, which covers refresh, Close, expiry and crashes of whole processes.
 */
module NatsLock {
  import opened JetStream
  import opened Options

  datatype Net = Delivered | Dropped | ReplyLost

  /** blk is the revision of the tenure that made the caller's Create fail. */
  datatype Pc =
    | FastGet
    | KeepAlive
    | Acquire
    | Holding(rev: nat)
    | WaitData(blk: nat)
    | WaitLookup(blk: nat)
    | CheckBeat(holder: Id, rev: nat)
    | Steal(holder: Id, rev: nat, seenAt: nat)
    | WatchStart(holder: Id, rev: nat)
    | Watching(holder: Id, rev: nat, cursor: nat)
    | AfterRemoval(rev: nat)
    | Served(entry: nat)
    | LoadUnlocked
    | Done

  /** start, blocks, retries and uncertified are history: the stream length when the call began,
      the tenures behind its certified retries, the number of ErrRetryLocker results, and the
      number of those that came from a closed watcher or a purge request that was dropped. */
  datatype Caller = Caller(name: string, id: Id, pc: Pc,
                           start: nat, blocks: set<nat>, retries: nat, uncertified: nat)
  {
    function Key(): Key { Lock(name) }
    function At(pc: Pc): Caller { this.(pc := pc) }

    /** ErrRetryLocker after the tenure with revision blk is known to be over. */
    function Retry(blk: nat): Caller {
      this.(pc := FastGet, blocks := blocks + {blk}, retries := retries + 1)
    }

    function RetryUncertified(): Caller {
      this.(pc := FastGet, retries := retries + 1, uncertified := uncertified + 1)
    }
  }

  datatype World = World(log: seq<Op>, callers: map<nat, Caller>)

  datatype Action =
    | Call(c: nat, name: string)
    | GotId(c: nat, id: Id)
    | Request(c: nat, net: Net)
    | Deliver(c: nat)
    | WatcherClosed(c: nat)
    | Cancel(c: nat)
    | BeatPut(id: Id)
    | BeatRemove(id: Id)
    | DataPut(name: string, entry: Option<nat>)
    | DataRemove(name: string)

  /** The request that the caller's program counter stands at. */
  function Send(log: seq<Op>, me: Caller, net: Net): (seq<Op>, Caller) {
    match me.pc
    case FastGet =>
      var e := ReadData(log, me.name);
      (log, if net.Delivered? && e.Some? then me.At(Served(e.value)) else me.At(KeepAlive))
    case Acquire =>
      if net.Dropped? then (log, me.At(LoadUnlocked))
      else if Present(log, me.Key()) then
        (log, if net.Delivered? then me.At(WaitData(Last(log, me.Key()))) else me.At(LoadUnlocked))
      else
        (log + [Put(me.Key(), Holder(me.id))],
         if net.Delivered? then me.At(Holding(|log|)) else me.At(LoadUnlocked))
    case Holding(rev) =>
      (if net.Dropped? then log else PurgeIf(log, me.Key(), rev, Released), me.At(Done))
    case WaitData(blk) =>
      var e := ReadData(log, me.name);
      (log, if net.Delivered? && e.Some? then me.At(Served(e.value)) else me.At(WaitLookup(blk)))
    case WaitLookup(blk) =>
      if !net.Delivered? then (log, me.At(LoadUnlocked))
      else if !Present(log, me.Key()) then (log, me.Retry(blk))
      else
        var rev := Last(log, me.Key());
        (log, if log[rev].val.Holder? then me.At(CheckBeat(log[rev].val.holder, rev)) else me)
    case CheckBeat(holder, rev) =>
      (log, if net.Delivered? && !Present(log, Beat(holder))
            then me.At(Steal(holder, rev, |log|)) else me.At(WatchStart(holder, rev)))
    case Steal(holder, rev, seenAt) =>
      if net.Dropped? then (log, me.RetryUncertified())
      else (PurgeIf(log, me.Key(), rev, Stolen(seenAt)), me.Retry(rev))
    case WatchStart(holder, rev) =>
      var cursor := if Last(log, me.Key()) < 0 then |log| else Last(log, me.Key());
      (log, if net.Delivered? then me.At(Watching(holder, rev, cursor)) else me.At(LoadUnlocked))
    case Watching(holder, rev, cursor) =>
      (log, if net.Delivered? && !Present(log, Beat(holder))
            then me.At(Steal(holder, rev, |log|)) else me)
    case AfterRemoval(rev) =>
      var e := ReadData(log, me.name);
      (log, if net.Delivered? && e.Some? then me.At(Served(e.value)) else me.Retry(rev))
    case _ => (log, me)
  }

  /** The watcher hands over its next message for the lock key, if there is one. */
  function Receive(log: seq<Op>, me: Caller): Caller
    requires me.pc.Watching?
  {
    var cursor := me.pc.cursor;
    var i := if cursor <= |log| then NextOp(log, me.Key(), cursor) else |log|;
    if i == |log| then me
    else if log[i].Remove? then me.At(AfterRemoval(me.pc.rev))
    else me.At(me.pc.(cursor := i + 1))
  }

  /** Nobody calls the driver twice under one caller name; a disabled action changes nothing. */
  function Step(w: World, a: Action): World {
    match a
    case Call(c, name) =>
      if c in w.callers then w
      else w.(callers := w.callers[c := Caller(name, 0, FastGet, |w.log|, {}, 0, 0)])
    case BeatPut(id) => w.(log := w.log + [Put(Beat(id), One)])
    case BeatRemove(id) => w.(log := w.log + [Remove(Beat(id), Last(w.log, Beat(id)), Other)])
    case DataPut(name, entry) => w.(log := w.log + [Put(Data(name), Payload(entry))])
    case DataRemove(name) => w.(log := w.log + [Remove(Data(name), Last(w.log, Data(name)), Other)])
    case _ =>
      if a.c !in w.callers then w
      else
        var me := w.callers[a.c];
        match a
        case Request(_, net) =>
          var (log, me') := Send(w.log, me, net);
          World(log, w.callers[a.c := me'])
        case _ => w.(callers := w.callers[a.c := Local(w.log, me, a)])
  }

  /** The steps of a caller that touch no server state. */
  function Local(log: seq<Op>, me: Caller, a: Action): Caller {
    match a
    case GotId(_, id) => if me.pc.KeepAlive? then me.(pc := Acquire, id := id) else me
    case Deliver(_) => if me.pc.Watching? then Receive(log, me) else me
    case WatcherClosed(_) => if me.pc.Watching? then me.RetryUncertified() else me
    case Cancel(_) => if me.pc.Watching? then me.At(LoadUnlocked) else me
    case _ => me
  }

  function Run(acts: seq<Action>): World {
    if acts == [] then World([], map[])
    else Step(Run(acts[..|acts| - 1]), acts[|acts| - 1])
  }

  // ---------------------------------------------------------------- the invariant

  /** The tenure with revision rev was removed by the message at i, lawfully: by its holder's
      release, or by a waiter that had seen the holder's heartbeat missing during the tenure. */
  ghost predicate LawfulRemoval(log: seq<Op>, i: nat)
    requires i < |log| && log[i].Remove? && log[i].key.Lock?
  {
    var rev := log[i].fence;
    && 0 <= rev < i
    && rev == LastBefore(log, i, log[i].key)
    && log[rev].Put? && log[rev].val.Holder?
    && (log[i].cause.Stolen? ==>
          rev < log[i].cause.seenAt <= i && !PresentAt(log, log[i].cause.seenAt, Beat(log[rev].val.holder)))
    && !log[i].cause.Other?
  }

  /** The message at i keeps the rules of lock keys: created only when absent, removed lawfully. */
  ghost predicate Sound(log: seq<Op>, i: nat)
    requires i < |log|
  {
    log[i].key.Lock? ==>
      if log[i].Put? then log[i].val.Holder? && !PresentAt(log, i, log[i].key)
      else LawfulRemoval(log, i)
  }

  ghost predicate LogInv(log: seq<Op>) {
    forall i {:trigger Sound(log, i)} :: 0 <= i < |log| ==> Sound(log, i)
  }

  /** The message at rev created the lock key of name for holder. */
  ghost predicate Tenure(log: seq<Op>, name: string, rev: nat) {
    rev < |log| && log[rev].Put? && log[rev].key == Lock(name) && log[rev].val.Holder?
  }

  /** The tenure with revision rev has been removed. */
  ghost predicate Over(log: seq<Op>, name: string, rev: nat) {
    Tenure(log, name, rev) && exists i :: rev < i < |log| && log[i].key == Lock(name) && log[i].Remove?
  }

  ghost predicate KnowsHolder(log: seq<Op>, name: string, holder: Id, rev: nat) {
    Tenure(log, name, rev) && log[rev].val.holder == holder
  }

  /** rev is a tenure of name that is newer than every tenure behind an earlier retry and was
      live at some moment of a call that began when the stream had start messages. */
  ghost predicate Blocks(log: seq<Op>, me: Caller, rev: nat) {
    && Tenure(log, me.name, rev)
    && (forall b :: b in me.blocks ==> b < rev)
    && LiveSince(log, me.name, me.start, rev)
  }

  ghost predicate LiveSince(log: seq<Op>, name: string, start: nat, rev: nat) {
    start <= |log| && (rev >= start || LastBefore(log, start, Lock(name)) == rev)
  }

  /** At some moment since the stream had from messages, e is what the data key of name held. */
  ghost predicate HeldSince(log: seq<Op>, name: string, from: nat, e: nat) {
    exists t :: from <= t <= |log| && HeldAt(log, name, t, e)
  }

  ghost predicate HeldAt(log: seq<Op>, name: string, t: nat, e: nat)
    requires t <= |log|
  {
    var r := LastBefore(log, t, Data(name));
    r >= 0 && log[r] == Put(Data(name), Payload(Some(e)))
  }

  ghost predicate CallerInv(log: seq<Op>, me: Caller) {
    && me.start <= |log|
    && me.retries == |me.blocks| + me.uncertified
    && (forall b :: b in me.blocks ==> Over(log, me.name, b) && LiveSince(log, me.name, me.start, b))
    && match me.pc
       case Holding(rev) =>
         && KnowsHolder(log, me.name, me.id, rev)
         && (forall i :: rev < i < |log| && log[i].key == me.Key() && log[i].Remove? && log[i].fence == rev
               ==> !log[i].cause.Released?)
       case WaitData(blk) => Blocks(log, me, blk)
       case WaitLookup(blk) => Blocks(log, me, blk)
       case CheckBeat(holder, rev) => Blocks(log, me, rev) && KnowsHolder(log, me.name, holder, rev)
       case WatchStart(holder, rev) => Blocks(log, me, rev) && KnowsHolder(log, me.name, holder, rev)
       case Steal(holder, rev, seenAt) =>
         && Blocks(log, me, rev) && KnowsHolder(log, me.name, holder, rev)
         && rev < seenAt <= |log| && !PresentAt(log, seenAt, Beat(holder))
       case Watching(holder, rev, cursor) =>
         && Blocks(log, me, rev) && KnowsHolder(log, me.name, holder, rev)
         && rev <= cursor <= |log|
         && (Last(log, me.Key()) < cursor ==> log[Last(log, me.Key())].Put?)
       case AfterRemoval(rev) => Blocks(log, me, rev) && Over(log, me.name, rev)
       case Served(e) => HeldSince(log, me.name, me.start, e)
       case _ => true
  }

  ghost predicate DistinctTenures(a: Caller, b: Caller) {
    a.pc.Holding? && b.pc.Holding? ==> a.pc.rev != b.pc.rev
  }

  ghost predicate Inv(w: World) {
    && LogInv(w.log)
    && (forall c :: c in w.callers ==> CallerInv(w.log, w.callers[c]))
    && (forall c, d :: c in w.callers && d in w.callers && c != d ==> DistinctTenures(w.callers[c], w.callers[d]))
  }

  /** A message that may be appended without breaking the rules. */
  ghost predicate Lawful(log: seq<Op>, op: Op) {
    Sound(log + [op], |log|)
  }

  lemma AppendKeepsLogInv(log: seq<Op>, op: Op)
    requires LogInv(log) && Lawful(log, op)
    ensures LogInv(log + [op])
  {
    var log' := log + [op];
    forall i: nat | i < |log'|
      ensures Sound(log', i)
    {
      if i < |log| {
        assert Sound(log, i);
        PrefixStable(log, log', i, log[i].key);
        if log[i].key.Lock? && log[i].Remove? && log[i].cause.Stolen? {
          PrefixStable(log, log', log[i].cause.seenAt, Beat(log[log[i].fence].val.holder));
        }
      }
    }
  }

  lemma AppendKeepsOver(log: seq<Op>, op: Op, name: string, rev: nat)
    requires Over(log, name, rev)
    ensures Over(log + [op], name, rev)
  {
    var i :| rev < i < |log| && log[i].key == Lock(name) && log[i].Remove?;
    assert (log + [op])[i] == log[i];
  }

  /** A caller that takes no part in an append keeps its invariant, unless the message releases
      the tenure that this caller holds. */
  lemma AppendKeepsCallerInv(log: seq<Op>, op: Op, me: Caller)
    requires CallerInv(log, me)
    requires me.pc.Holding? && op.Remove? && op.key == me.Key() && op.fence == me.pc.rev ==> !op.cause.Released?
    ensures CallerInv(log + [op], me)
  {
    var log' := log + [op];
    PrefixStable(log, log', me.start, me.Key());
    LastAppend(log, op, me.Key());
    forall b | b in me.blocks
      ensures Over(log', me.name, b) && LiveSince(log', me.name, me.start, b)
    {
      AppendKeepsOver(log, op, me.name, b);
    }
    if me.pc.Steal? {
      PrefixStable(log, log', me.pc.seenAt, Beat(me.pc.holder));
    }
    if me.pc.AfterRemoval? {
      AppendKeepsOver(log, op, me.name, me.pc.rev);
    }
    if me.pc.Served? {
      AppendKeepsHeld(log, op, me.name, me.start, me.pc.entry);
    }
  }

  lemma AppendKeepsHeld(log: seq<Op>, op: Op, name: string, from: nat, e: nat)
    requires HeldSince(log, name, from, e)
    ensures HeldSince(log + [op], name, from, e)
  {
    var t :| from <= t <= |log| && HeldAt(log, name, t, e);
    PrefixStable(log, log + [op], t, Data(name));
    assert HeldAt(log + [op], name, t, e);
  }

  /** A tenure that is not the latest message of its key is over, and so is the latest one when
      the key is absent. */
  lemma NotLatestIsOver(log: seq<Op>, name: string, rev: nat)
    requires LogInv(log) && Tenure(log, name, rev)
    requires Last(log, Lock(name)) != rev
    ensures Over(log, name, rev)
  {
    var i := NextOp(log, Lock(name), rev + 1);
    assert i < |log|;
    assert Sound(log, i);
    assert LastBefore(log, i, Lock(name)) == rev;
  }

  /** A caller found the lock key present: its tenure is newer than those of earlier retries. */
  lemma LatestBlocks(log: seq<Op>, me: Caller)
    requires LogInv(log) && CallerInv(log, me) && Present(log, me.Key())
    ensures Blocks(log, me, Last(log, me.Key()))
  {
    var rev := Last(log, me.Key());
    assert Sound(log, rev);
    forall b | b in me.blocks
      ensures b < rev
    {
      assert Over(log, me.name, b);
      var i :| b < i < |log| && log[i].key == me.Key() && log[i].Remove?;
    }
    if rev < me.start {
      assert LastBefore(log, me.start, me.Key()) == rev;
    }
  }

  /** ErrRetryLocker is certified: the tenure that blocked the caller is over. */
  lemma RetryKeepsInv(log: seq<Op>, me: Caller, rev: nat)
    requires CallerInv(log, me) && Blocks(log, me, rev) && Over(log, me.name, rev)
    ensures CallerInv(log, me.Retry(rev))
  {
    assert rev !in me.blocks;
  }

  /** What a request appends, if it appends anything, and the requests that only read. */
  function Appended(log: seq<Op>, me: Caller, net: Net): Option<Op> {
    match me.pc
    case Acquire =>
      if net.Dropped? || Present(log, me.Key()) then None else Some(Put(me.Key(), Holder(me.id)))
    case Holding(rev) =>
      if net.Dropped? || Last(log, me.Key()) != rev then None else Some(Remove(me.Key(), rev, Released))
    case Steal(_, rev, seenAt) =>
      if net.Dropped? || Last(log, me.Key()) != rev then None
      else Some(Remove(me.Key(), rev, Stolen(seenAt)))
    case _ => None
  }

  lemma SendAppends(log: seq<Op>, me: Caller, net: Net)
    requires CallerInv(log, me)
    ensures var op := Appended(log, me, net);
            && Send(log, me, net).0 == (if op.Some? then log + [op.value] else log)
            && (op.Some? ==> Lawful(log, op.value))
            && (op.Some? && op.value.Remove? && op.value.cause.Released? ==> me.pc == Holding(op.value.fence))
  {
    var op := Appended(log, me, net);
    if op.Some? {
      var log' := log + [op.value];
      PrefixStable(log, log', |log|, me.Key());
      if me.pc.Steal? {
        PrefixStable(log, log', me.pc.seenAt, Beat(me.pc.holder));
      }
    }
  }

  lemma AcquireKeepsCallerInv(log: seq<Op>, me: Caller, net: Net)
    requires LogInv(log) && CallerInv(log, me) && me.pc.Acquire?
    ensures CallerInv(Send(log, me, net).0, Send(log, me, net).1)
  {
    if Present(log, me.Key()) {
      LatestBlocks(log, me);
    } else if !net.Dropped? {
      AppendKeepsCallerInv(log, Put(me.Key(), Holder(me.id)), me);
    }
  }

  lemma ReleaseKeepsCallerInv(log: seq<Op>, me: Caller, net: Net)
    requires CallerInv(log, me) && me.pc.Holding?
    ensures CallerInv(Send(log, me, net).0, Send(log, me, net).1)
  {
    var op := Remove(me.Key(), me.pc.rev, Released);
    if Send(log, me, net).0 != log {
      AppendKeepsCallerInv(log, op, me.At(Done));
    }
  }

  lemma LookupKeepsCallerInv(log: seq<Op>, me: Caller, net: Net)
    requires LogInv(log) && CallerInv(log, me) && me.pc.WaitLookup?
    ensures CallerInv(Send(log, me, net).0, Send(log, me, net).1)
  {
    if Present(log, me.Key()) {
      LatestBlocks(log, me);
    } else {
      NotLatestIsOver(log, me.name, me.pc.blk);
      RetryKeepsInv(log, me, me.pc.blk);
    }
  }

  lemma StealKeepsCallerInv(log: seq<Op>, me: Caller, net: Net)
    requires LogInv(log) && CallerInv(log, me) && me.pc.Steal?
    ensures CallerInv(Send(log, me, net).0, Send(log, me, net).1)
  {
    var rev := me.pc.rev;
    var op := Remove(me.Key(), rev, Stolen(me.pc.seenAt));
    if net.Dropped? {
    } else if Last(log, me.Key()) == rev {
      AppendKeepsCallerInv(log, op, me);
      assert (log + [op])[|log|] == op;
      RetryKeepsInv(log + [op], me, rev);
    } else {
      NotLatestIsOver(log, me.name, rev);
      RetryKeepsInv(log, me, rev);
    }
  }

  lemma WatchKeepsCallerInv(log: seq<Op>, me: Caller, net: Net)
    requires CallerInv(log, me) && (me.pc.CheckBeat? || me.pc.WatchStart? || me.pc.Watching?)
    ensures CallerInv(Send(log, me, net).0, Send(log, me, net).1)
  {
  }

  /** The requests that read the data key. */
  predicate ReadsData(pc: Pc) {
    pc.FastGet? || pc.WaitData? || pc.AfterRemoval?
  }

  /** A read of the data key that is delivered is answered with what the key holds, if that decodes,
      and the caller goes on otherwise. */
  lemma ReadServes(log: seq<Op>, me: Caller, net: Net)
    requires ReadsData(me.pc)
    ensures var me' := Send(log, me, net).1;
            && (forall e :: me' == me.At(Served(e)) <==> net.Delivered? && HeldAt(log, me.name, |log|, e))
            && (me'.pc.Served? ==> me' == me.At(me'.pc))
  {
  }

  lemma ReadKeepsCallerInv(log: seq<Op>, me: Caller, net: Net)
    requires CallerInv(log, me) && ReadsData(me.pc)
    ensures CallerInv(Send(log, me, net).0, Send(log, me, net).1)
  {
    ReadServes(log, me, net);
    var me' := Send(log, me, net).1;
    if me'.pc.Served? {
      assert HeldAt(log, me.name, |log|, me'.pc.entry);
    } else if me.pc.AfterRemoval? {
      RetryKeepsInv(log, me, me.pc.rev);
    }
  }

  lemma SendKeepsCallerInv(log: seq<Op>, me: Caller, net: Net)
    requires LogInv(log) && CallerInv(log, me)
    ensures CallerInv(Send(log, me, net).0, Send(log, me, net).1)
  {
    match me.pc
    case Acquire => AcquireKeepsCallerInv(log, me, net);
    case Holding(_) => ReleaseKeepsCallerInv(log, me, net);
    case WaitLookup(_) => LookupKeepsCallerInv(log, me, net);
    case Steal(_, _, _) => StealKeepsCallerInv(log, me, net);
    case FastGet => ReadKeepsCallerInv(log, me, net);
    case WaitData(_) => ReadKeepsCallerInv(log, me, net);
    case AfterRemoval(_) => ReadKeepsCallerInv(log, me, net);
    case CheckBeat(_, _) => WatchKeepsCallerInv(log, me, net);
    case WatchStart(_, _) => WatchKeepsCallerInv(log, me, net);
    case Watching(_, _, _) => WatchKeepsCallerInv(log, me, net);
    case _ =>
  }

  lemma ReceiveKeepsCallerInv(log: seq<Op>, me: Caller)
    requires CallerInv(log, me) && me.pc.Watching?
    ensures CallerInv(log, Receive(log, me))
  {
    var i := NextOp(log, me.Key(), me.pc.cursor);
    if i < |log| && log[i].Remove? {
      assert i != me.pc.rev;
    }
  }

  lemma LocalKeepsCallerInv(log: seq<Op>, me: Caller, a: Action)
    requires CallerInv(log, me)
    ensures CallerInv(log, Local(log, me, a))
    ensures Local(log, me, a).pc.Holding? ==> Local(log, me, a).pc == me.pc
  {
    if a.Deliver? && me.pc.Watching? {
      ReceiveKeepsCallerInv(log, me);
    }
  }

  lemma StepKeepsInv(w: World, a: Action)
    requires Inv(w)
    ensures Inv(Step(w, a))
    ensures w.log <= Step(w, a).log
  {
    match a
    case Call(c, name) => CallKeepsInv(w, c, name);
    case BeatPut(id) => EnvironmentKeepsInv(w, Put(Beat(id), One));
    case BeatRemove(id) => EnvironmentKeepsInv(w, Remove(Beat(id), Last(w.log, Beat(id)), Other));
    case DataPut(name, e) => EnvironmentKeepsInv(w, Put(Data(name), Payload(e)));
    case DataRemove(name) => EnvironmentKeepsInv(w, Remove(Data(name), Last(w.log, Data(name)), Other));
    case Request(c, net) => if c in w.callers { RequestKeepsInv(w, c, net); }
    case _ => if a.c in w.callers { LocalKeepsInv(w, a); }
  }

  lemma CallKeepsInv(w: World, c: nat, name: string)
    requires Inv(w)
    ensures Inv(Step(w, Call(c, name)))
  {
  }

  lemma LocalKeepsInv(w: World, a: Action)
    requires Inv(w) && (a.GotId? || a.Deliver? || a.WatcherClosed? || a.Cancel?) && a.c in w.callers
    ensures Inv(w.(callers := w.callers[a.c := Local(w.log, w.callers[a.c], a)]))
  {
    LocalKeepsCallerInv(w.log, w.callers[a.c], a);
  }

  lemma EnvironmentKeepsInv(w: World, op: Op)
    requires Inv(w) && !op.key.Lock?
    ensures Inv(w.(log := w.log + [op]))
  {
    AppendKeepsLogInv(w.log, op);
    forall c | c in w.callers
      ensures CallerInv(w.log + [op], w.callers[c])
    {
      AppendKeepsCallerInv(w.log, op, w.callers[c]);
    }
  }

  /** A request of one caller leaves every other caller's invariant alone: a release names the
      tenure of its own caller, and a fresh tenure has a fresh revision. */
  lemma RequestKeepsOther(log: seq<Op>, me: Caller, net: Net, other: Caller)
    requires LogInv(log) && CallerInv(log, me) && CallerInv(log, other)
    requires DistinctTenures(me, other)
    ensures CallerInv(Send(log, me, net).0, other)
    ensures DistinctTenures(Send(log, me, net).1, other)
  {
    var op := Appended(log, me, net);
    SendAppends(log, me, net);
    if op.Some? {
      AppendKeepsCallerInv(log, op.value, other);
    }
    assert Send(log, me, net).1.pc.Holding? ==> Send(log, me, net).1.pc.rev == |log|;
  }

  lemma RequestKeepsInv(w: World, c: nat, net: Net)
    requires Inv(w) && c in w.callers
    ensures Inv(Step(w, Request(c, net)))
    ensures w.log <= Step(w, Request(c, net)).log
  {
    var me := w.callers[c];
    var w' := Step(w, Request(c, net));
    SendKeepsLogInv(w.log, me, net);
    SendKeepsCallerInv(w.log, me, net);
    forall d | d in w.callers && d != c
      ensures CallerInv(w'.log, w'.callers[d])
      ensures DistinctTenures(w'.callers[c], w'.callers[d]) && DistinctTenures(w'.callers[d], w'.callers[c])
    {
      RequestKeepsOther(w.log, me, net, w.callers[d]);
    }
  }

  lemma SendKeepsLogInv(log: seq<Op>, me: Caller, net: Net)
    requires LogInv(log) && CallerInv(log, me)
    ensures LogInv(Send(log, me, net).0) && log <= Send(log, me, net).0
  {
    SendAppends(log, me, net);
    if Appended(log, me, net).Some? {
      AppendKeepsLogInv(log, Appended(log, me, net).value);
    }
  }

  lemma {:induction false} RunKeepsInv(acts: seq<Action>)
    ensures Inv(Run(acts))
  {
    if acts != [] {
      RunKeepsInv(acts[..|acts| - 1]);
      StepKeepsInv(Run(acts[..|acts| - 1]), acts[|acts| - 1]);
    }
  }

  // ---------------------------------------------------------------- the promises

  /** A tenure that was over before a later one began ended in the release of its holder, or the
      holder's heartbeat was missing at some moment during it. */
  lemma EndOfTenure(log: seq<Op>, name: string, rev: nat, later: nat)
    requires LogInv(log) && Tenure(log, name, rev) && Tenure(log, name, later) && rev < later
    ensures exists i :: rev < i < later && log[i].key == Lock(name) && log[i].Remove? && log[i].fence == rev
                        && (log[i].cause.Released?
                            || (log[i].cause.Stolen? && rev < log[i].cause.seenAt <= i
                                && !PresentAt(log, log[i].cause.seenAt, Beat(log[rev].val.holder))))
  {
    var i := NextOp(log, Lock(name), rev + 1);
    assert Sound(log, i);
    assert LastBefore(log, i, Lock(name)) == rev;
    assert i < later by {
      assert Sound(log, later);
    }
  }

  /** In every run, when two callers hold the lock of one key un-released, the heartbeat of the
      earlier holder was missing at some moment between the two acquisitions. */
  lemma MutualExclusion(acts: seq<Action>, early: nat, late: nat)
    requires var w := Run(acts);
             && early in w.callers && late in w.callers && early != late
             && w.callers[early].name == w.callers[late].name
             && w.callers[early].pc.Holding? && w.callers[late].pc.Holding?
             && w.callers[early].pc.rev <= w.callers[late].pc.rev
    ensures var w := Run(acts);
            exists t :: w.callers[early].pc.rev < t <= w.callers[late].pc.rev <= |w.log|
                        && !PresentAt(w.log, t, Beat(w.callers[early].id))
  {
    var w := Run(acts);
    RunKeepsInv(acts);
    var me, other := w.callers[early], w.callers[late];
    assert DistinctTenures(me, other);
    assert CallerInv(w.log, me) && CallerInv(w.log, other);
    HeldTwice(w.log, me, other);
  }

  lemma HeldTwice(log: seq<Op>, me: Caller, other: Caller)
    requires LogInv(log) && CallerInv(log, me) && CallerInv(log, other)
    requires me.name == other.name && me.pc.Holding? && other.pc.Holding? && me.pc.rev < other.pc.rev
    ensures exists t :: me.pc.rev < t <= other.pc.rev <= |log| && !PresentAt(log, t, Beat(me.id))
  {
    EndOfTenure(log, me.name, me.pc.rev, other.pc.rev);
    var i :| me.pc.rev < i < other.pc.rev && log[i].key == me.Key() && log[i].Remove? && log[i].fence == me.pc.rev
             && (log[i].cause.Released?
                 || (log[i].cause.Stolen? && me.pc.rev < log[i].cause.seenAt <= i
                     && !PresentAt(log, log[i].cause.seenAt, Beat(log[me.pc.rev].val.holder))));
  }

  /** A removal message for the watched lock that the watcher has not handed over yet. */
  ghost predicate RemovalQueued(log: seq<Op>, me: Caller)
    requires me.pc.Watching?
  {
    exists i :: me.pc.cursor <= i < |log| && log[i].key == me.Key() && log[i].Remove?
  }

  /** No lost wake-up: whoever waits in the watch loop waits for a lock that is present, or a
      removal message is still to come. */
  lemma NoLostWakeUp(acts: seq<Action>, c: nat)
    requires c in Run(acts).callers && Run(acts).callers[c].pc.Watching?
    ensures var w := Run(acts);
            Present(w.log, w.callers[c].Key()) || RemovalQueued(w.log, w.callers[c])
  {
    var w := Run(acts);
    RunKeepsInv(acts);
    var me := w.callers[c];
    assert CallerInv(w.log, me);
    assert w.log[Last(w.log, me.Key())].key == me.Key();
  }

  /** An action of anybody but caller c. */
  predicate NotMine(a: Action, c: nat) {
    a.BeatPut? || a.BeatRemove? || a.DataPut? || a.DataRemove? || a.c != c
  }

  ghost predicate AllNotMine(moves: seq<Action>, c: nat) {
    forall k :: 0 <= k < |moves| ==> NotMine(moves[k], c)
  }

  lemma RunAppend(acts: seq<Action>, a: Action)
    ensures Run(acts + [a]) == Step(Run(acts), a)
  {
    assert (acts + [a])[..|acts|] == acts;
  }

  lemma OtherMoves(w: World, a: Action, c: nat)
    requires Inv(w) && NotMine(a, c) && c in w.callers
    ensures var w' := Step(w, a); c in w'.callers && w'.callers[c] == w.callers[c] && w.log <= w'.log
  {
    StepKeepsInv(w, a);
  }

  lemma {:induction false} OthersMove(acts: seq<Action>, moves: seq<Action>, c: nat)
    requires AllNotMine(moves, c) && c in Run(acts).callers
    ensures var w, w' := Run(acts), Run(acts + moves);
            c in w'.callers && w'.callers[c] == w.callers[c] && w.log <= w'.log
    decreases |moves|
  {
    if moves == [] {
      assert acts + moves == acts;
    } else {
      var front, a := moves[..|moves| - 1], moves[|moves| - 1];
      OthersMove(acts, front, c);
      assert acts + moves == (acts + front) + [a];
      RunAppend(acts + front, a);
      RunKeepsInv(acts + front);
      OtherMoves(Run(acts + front), a, c);
    }
  }

  /** The first n deliveries to caller c, with turns of everybody else before each. */
  function Delivering(acts: seq<Action>, turns: seq<seq<Action>>, c: nat, n: nat): seq<Action>
    requires n <= |turns|
  {
    if n == 0 then acts else Delivering(acts, turns, c, n - 1) + turns[n - 1] + [Deliver(c)]
  }

  lemma {:induction false} FirstTurn(acts: seq<Action>, turns: seq<seq<Action>>, c: nat, n: nat)
    requires 0 < n <= |turns|
    ensures Delivering(acts, turns, c, n) == Delivering(acts + turns[0] + [Deliver(c)], turns[1..], c, n - 1)
  {
    if n > 1 {
      FirstTurn(acts, turns, c, n - 1);
    }
  }

  /** Caller c is in the watch loop, and a removal of its lock at i is fewer than n messages away. */
  ghost predicate Queued(w: World, c: nat, i: nat, n: nat) {
    c in w.callers &&
    var me := w.callers[c];
    && me.pc.Watching? && me.pc.cursor <= i < |w.log| && i - me.pc.cursor < n
    && w.log[i].key == me.Key() && w.log[i].Remove?
  }

  ghost predicate Woken(w: World, c: nat) {
    c in w.callers && w.callers[c].pc.AfterRemoval?
  }

  /** A delivery hands over that removal, or a message before it. */
  lemma NextDelivery(acts: seq<Action>, moves: seq<Action>, c: nat, i: nat, n: nat)
    requires AllNotMine(moves, c) && n > 0 && Queued(Run(acts), c, i, n)
    ensures var w' := Run(acts + moves + [Deliver(c)]); Woken(w', c) || Queued(w', c, i, n - 1)
  {
    OthersMove(acts, moves, c);
    RunAppend(acts + moves, Deliver(c));
    var w, w1 := Run(acts), Run(acts + moves);
    var me := w.callers[c];
    var j := NextOp(w1.log, me.Key(), me.pc.cursor);
    assert w1.log[i] == w.log[i];
  }

  /** A queued removal is handed over whatever everybody else does before each delivery, and the wait
      loop leaves: the deliveries are no more than the messages that were queued. */
  lemma WakesUp(acts: seq<Action>, c: nat, turns: seq<seq<Action>>) returns (n: nat)
    requires c in Run(acts).callers && Run(acts).callers[c].pc.Watching?
    requires RemovalQueued(Run(acts).log, Run(acts).callers[c])
    requires |turns| == |Run(acts).log| - Run(acts).callers[c].pc.cursor
    requires forall k :: 0 <= k < |turns| ==> AllNotMine(turns[k], c)
    ensures n <= |turns| && Woken(Run(Delivering(acts, turns, c, n)), c)
  {
    var w := Run(acts);
    var i :| w.callers[c].pc.cursor <= i < |w.log| && w.log[i].key == w.callers[c].Key() && w.log[i].Remove?;
    n := WakesUpBy(acts, c, turns, i);
  }

  lemma {:induction false} WakesUpBy(acts: seq<Action>, c: nat, turns: seq<seq<Action>>, i: nat) returns (n: nat)
    requires Queued(Run(acts), c, i, |turns|) && forall k :: 0 <= k < |turns| ==> AllNotMine(turns[k], c)
    ensures n <= |turns| && Woken(Run(Delivering(acts, turns, c, n)), c)
    decreases |turns|
  {
    var acts' := acts + turns[0] + [Deliver(c)];
    NextDelivery(acts, turns[0], c, i, |turns|);
    n := 0;
    if !Woken(Run(acts'), c) {
      n := WakesUpBy(acts', c, turns[1..], i);
    }
    n := n + 1;
    FirstTurn(acts, turns, c, n);
  }

  /** In every run, a caller that was answered was answered with an entry that its data key held at some
      moment of the call. */
  lemma ServedWasHeld(acts: seq<Action>, c: nat)
    requires c in Run(acts).callers && Run(acts).callers[c].pc.Served?
    ensures var w, me := Run(acts), Run(acts).callers[c]; HeldSince(w.log, me.name, me.start, me.pc.entry)
  {
    RunKeepsInv(acts);
    assert CallerInv(Run(acts).log, Run(acts).callers[c]);
  }

  /** The tenure with revision rev is the one in force. */
  ghost predicate Live(log: seq<Op>, name: string, rev: nat) {
    Tenure(log, name, rev) && Last(log, Lock(name)) == rev
  }

  /** Releases and steals are fenced: however late a release or a steal reaches the server, it
      ends the tenure it names, and it leaves every other tenure, of this key or another, live. */
  lemma Fenced(acts: seq<Action>, c: nat, net: Net, name: string, rev: nat)
    requires c in Run(acts).callers && (Run(acts).callers[c].pc.Holding? || Run(acts).callers[c].pc.Steal?)
    ensures var w, w' := Run(acts), Run(acts + [Request(c, net)]);
            var me := w.callers[c];
            if name == me.name && rev == me.pc.rev
            then !net.Dropped? ==> !Live(w'.log, name, rev)
            else Live(w.log, name, rev) ==> Live(w'.log, name, rev)
  {
    var w := Run(acts);
    var me := w.callers[c];
    RunKeepsInv(acts);
    assert CallerInv(w.log, me);
    RunAppend(acts, Request(c, net));
    SendAppends(w.log, me, net);
    var op := Appended(w.log, me, net);
    if op.Some? {
      LastAppend(w.log, op.value, Lock(name));
    }
  }

  /** The tenures of name that were in force at some moment since the stream had start messages. */
  ghost function TenuresSince(log: seq<Op>, name: string, start: nat): set<nat>
    requires start <= |log|
  {
    set rev: nat | rev < |log| && Tenure(log, name, rev) && LiveSince(log, name, start, rev)
  }

  lemma {:induction false} SubsetSize(a: set<nat>, b: set<nat>)
    requires a <= b
    ensures |a| <= |b|
  {
    if a != {} {
      var x :| x in a;
      SubsetSize(a - {x}, b - {x});
    }
  }

  /** The lock loop of the driver: apart from retries after a closed watcher or a dropped purge,
      a call retries at most once for each tenure of its key that was in force during the call. */
  lemma RetryBound(acts: seq<Action>, c: nat)
    requires c in Run(acts).callers
    ensures var w := Run(acts);
            var me := w.callers[c];
            me.start <= |w.log| && me.retries - me.uncertified <= |TenuresSince(w.log, me.name, me.start)|
  {
    var w := Run(acts);
    var me := w.callers[c];
    RunKeepsInv(acts);
    assert CallerInv(w.log, me);
    forall b | b in me.blocks
      ensures b in TenuresSince(w.log, me.name, me.start)
    {
      assert Over(w.log, me.name, b);
    }
    SubsetSize(me.blocks, TenuresSince(w.log, me.name, me.start));
  }
}
