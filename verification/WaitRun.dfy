/** Every interleaving of callers on one in-process cache: they win or wait, add, wake, release, read
    and give up, while entries expire and are lost. The LRU stores and wakes in two critical
    sections, the context cache in one.
 */
module WaitRun {
  import opened LocalCache
  import opened Options
  import opened Waits

  datatype Kind = LruKind | ContextKind

  datatype Peeked = Absent | Expired | Live(e: nat)

  // ---------------------------------------------------------------- the store and its history

  /** Entries are numbered from 1 in the order of the Adds. newest is the last one added under a
      key, gone the newest there was when the key last had no entry. */
  datatype Cells = Cells(kind: Kind, store: Store, count: nat, newest: map<string, nat>, gone: map<string, nat>) {
    function Newest(key: string): nat { if key in newest then newest[key] else 0 }
    function Gone(key: string): nat { if key in gone then gone[key] else 0 }

    /** The store becomes m, which differs at key. */
    function Become(key: string, m: Store): Cells {
      if key in m then this.(store := m) else this.(store := m, gone := gone[key := Newest(key)])
    }

    /** The LRU ignores the empty key. */
    predicate Ignores(key: string) { kind.LruKind? && key == "" }

    function Added(key: string, ttl: int, now: int): Cells {
      var e := count + 1;
      if Ignores(key) then this
      else
        this.(count := e, newest := newest[key := e])
        .Become(key, if kind.LruKind? then LruAdd(store, key, e, ttl, now) else CtxAdd(store, key, e, ttl, now))
    }

    /** What the first critical section of a Get sees. */
    function Peek(key: string, now: int): Peeked {
      if Ignores(key) || key !in store then Absent
      else if store[key].Expired(now) then Expired
      else Live(store[key].entry)
    }

    function Removed(key: string): Cells {
      Become(key, store - {key})
    }

    /** The newest entry of a key is there unless it is gone. */
    ghost predicate Sane() {
      && (forall k :: k in store ==> store[k].entry == Newest(k))
      && (forall k :: Gone(k) <= Newest(k) <= count)
      && (forall k :: k !in store ==> Gone(k) == Newest(k))
      && (kind.LruKind? ==> "" !in store)
    }

    ghost predicate LeadsTo(x: Cells) {
      && (forall k :: Newest(k) <= x.Newest(k))
      && (forall k :: Gone(k) <= x.Gone(k))
    }
  }

  lemma BecomeSane(x: Cells, key: string, m: Store)
    requires x.Sane() && m - {key} == x.store - {key}
    requires key in m ==> m[key].entry == x.Newest(key) && !x.Ignores(key)
    ensures x.Become(key, m).Sane() && x.LeadsTo(x.Become(key, m))
  {
    forall k | k != key
      ensures k in m <==> k in x.store
      ensures k in m ==> m[k] == x.store[k]
    {
      assert k in m - {key} <==> k in x.store - {key};
    }
  }

  lemma AddedAt(x: Cells, key: string, ttl: int, now: int, k: string)
    requires x.Sane() && !x.Ignores(key)
    ensures var x' := x.Added(key, ttl, now);
            if k == key
            then && x'.Newest(k) == x.count + 1 && (k in x'.store ==> x'.store[k].entry == x.count + 1)
                 && x'.Gone(k) == (if k in x'.store then x.Gone(k) else x.count + 1)
                 && (k in x'.store <==> x.kind.LruKind? || ttl >= 0)
                 && (k in x'.store ==> x'.store[k].expiry == if ttl == 0 then None else Some(now + ttl))
            else && x'.Newest(k) == x.Newest(k) && x'.Gone(k) == x.Gone(k)
                 && (k in x'.store <==> k in x.store) && (k in x.store ==> x'.store[k] == x.store[k])
  {
  }

  lemma AddedSane(x: Cells, key: string, ttl: int, now: int)
    requires x.Sane()
    ensures x.Added(key, ttl, now).Sane() && x.LeadsTo(x.Added(key, ttl, now))
    ensures !(x.kind.LruKind? && key == "") ==>
              var x' := x.Added(key, ttl, now);
              && x'.Newest(key) == x.count + 1
              && (key in x'.store <==> x.kind.LruKind? || ttl >= 0)
              && (key in x'.store ==> x'.store[key] == Timed(x.count + 1, if ttl == 0 then None else Some(now + ttl)))
  {
    if !x.Ignores(key) {
      var x' := x.Added(key, ttl, now);
      forall k
        ensures x.Newest(k) <= x'.Newest(k) && x.Gone(k) <= x'.Gone(k) <= x'.Newest(k) <= x'.count
        ensures if k in x'.store then x'.store[k].entry == x'.Newest(k) else x'.Gone(k) == x'.Newest(k)
      {
        assert x.Gone(k) <= x.Newest(k) <= x.count;
        AddedAt(x, key, ttl, now, k);
      }
      AddedAt(x, key, ttl, now, key);
      AddedAt(x, key, ttl, now, "");
    }
  }

  /** Only a time strictly after its expiry finds an entry expired. */
  predicate Unexpired(x: Timed, now: int) {
    x.expiry.Some? ==> now <= x.expiry.value
  }

  /** A Get that finds an unexpired entry finds the newest; one that finds none, or removes an expired
      one, leaves nothing that was ever added under the key. */
  lemma GotSane(x: Cells, key: string, now: int)
    requires x.Sane()
    ensures x.Removed(key).Sane() && x.LeadsTo(x.Removed(key)) && x.Removed(key).Gone(key) == x.Newest(key)
    ensures match x.Peek(key, now)
            case Live(e) => e == x.Newest(key) && key in x.store && Unexpired(x.store[key], now)
            case Absent => x.Gone(key) == x.Newest(key) && key !in x.store
            case Expired => key in x.store && !Unexpired(x.store[key], now)
  {
    BecomeSane(x, key, x.store - {key});
  }

  // ---------------------------------------------------------------- the steps

  datatype Pc =
    | Loading
    | Holding(ch: nat)
    | Waiting(ch: nat)
    | Removing(ch: nat)
    | Answered(ch: nat, r: Option<nat>)
    | Cancelled

  /** put is the entry of the caller's latest Add, 0 if it has made none; waking says that this Add
      still has to wake the waiters. */
  datatype Caller = Caller(key: string, pc: Pc, put: nat, waking: bool)

  /** owners and closers are history: the winner of each channel, and what the caller that closed a
      channel had put by then. */
  datatype World = World(now: int, cells: Cells, table: Table, callers: map<nat, Caller>,
                         owners: seq<nat>, closers: map<nat, nat>)

  /** The Get of a woken waiter is a Read, and a Remove if the entry has expired: two critical sections.
      A Get of anybody else changes nothing but by such a removal, which is a Lose like a deletion or
      an eviction. */
  datatype Action =
    | Tick(d: nat)
    | Enter(c: nat, key: string)
    | Join(c: nat, key: string)
    | Put(c: nat, ttl: int)
    | FinishAdd(c: nat)
    | CallRelease(c: nat)
    | Read(c: nat)
    | Remove(c: nat)
    | Cancel(c: nat)
    | Lose(key: string)

  predicate CanPut(w: World, c: nat) {
    c in w.callers && !w.callers[c].pc.Waiting? && !w.callers[c].pc.Removing? && !w.callers[c].waking
  }

  predicate CanRelease(w: World, c: nat) {
    c in w.callers && w.callers[c].pc.Holding? && !w.callers[c].waking
  }

  /** A waiter wakes when its channel is closed, and not before. */
  predicate CanRead(w: World, c: nat) {
    c in w.callers && w.callers[c].pc.Waiting? && w.table.closed[w.callers[c].pc.ch] > 0
  }

  /** One LockOrWait. */
  function Arrive(w: World, c: nat, key: string): World {
    var (t, ch) := LockOf(w.table, key);
    if key in w.table.slots then w.(callers := w.callers[c := Caller(key, Waiting(ch), 0, false)])
    else w.(table := t, owners := w.owners + [c], callers := w.callers[c := Caller(key, Holding(ch), 0, false)])
  }

  /** c replaces the table by t; if the channel of its key closes, c has closed it. */
  function Closing(w: World, c: nat, t: Table): World
    requires c in w.callers
  {
    var me := w.callers[c];
    var closers := if me.key in w.table.slots && me.key !in t.slots
                   then w.closers[w.table.slots[me.key] := me.put] else w.closers;
    w.(table := t, closers := closers, callers := w.callers[c := me.(waking := false)])
  }

  /** The store half of Add. */
  function Adding(w: World, c: nat, ttl: int): World
    requires c in w.callers
  {
    var me := w.callers[c];
    if w.cells.Ignores(me.key) then w
    else
      w.(cells := w.cells.Added(me.key, ttl, w.now),
         callers := w.callers[c := me.(put := w.cells.count + 1, waking := true)])
  }

  function Reading(w: World, c: nat): World
    requires c in w.callers && w.callers[c].pc.Waiting?
  {
    var me := w.callers[c];
    var pc := match w.cells.Peek(me.key, w.now)
              case Absent => Answered(me.pc.ch, None)
              case Expired => Removing(me.pc.ch)
              case Live(e) => Answered(me.pc.ch, Some(e));
    w.(callers := w.callers[c := me.(pc := pc)])
  }

  function Remover(w: World, c: nat): World
    requires c in w.callers && w.callers[c].pc.Removing?
  {
    var me := w.callers[c];
    w.(cells := w.cells.Removed(me.key), callers := w.callers[c := me.(pc := Answered(me.pc.ch, None))])
  }

  /** A step that cannot be taken now changes nothing. */
  function Step(w: World, a: Action): World {
    match a
    case Tick(d) => w.(now := w.now + d)
    case Enter(c, key) => if c in w.callers then w else Arrive(w, c, key)
    case Join(c, key) =>
      if c in w.callers then w else w.(callers := w.callers[c := Caller(key, Loading, 0, false)])
    case Put(c, ttl) =>
      if !CanPut(w, c) then w
      else if w.cells.kind.LruKind? then Adding(w, c, ttl)
      else Closing(Adding(w, c, ttl), c, WakeOf(w.table, w.callers[c].key))
    case FinishAdd(c) =>
      if c in w.callers && w.callers[c].waking then Closing(w, c, WakeOf(w.table, w.callers[c].key)) else w
    case CallRelease(c) =>
      if CanRelease(w, c) then Closing(w, c, ReleaseOf(w.table, w.callers[c].key, w.callers[c].pc.ch)) else w
    case Read(c) => if CanRead(w, c) then Reading(w, c) else w
    case Cancel(c) =>
      if c in w.callers && w.callers[c].pc.Waiting?
      then w.(callers := w.callers[c := w.callers[c].(pc := Cancelled)]) else w
    case Remove(c) => if c in w.callers && w.callers[c].pc.Removing? then Remover(w, c) else w
    case Lose(key) => w.(cells := w.cells.Removed(key))
  }

  function Start(kind: Kind, now: int): World {
    World(now, Cells(kind, map[], 0, map[], map[]), EMPTY, map[], [], map[])
  }

  ghost predicate Run(ws: seq<World>, acts: seq<Action>) {
    && |ws| == |acts| + 1 && ws[0] == Start(ws[0].cells.kind, ws[0].now)
    && forall k :: 0 <= k < |acts| ==> ws[k + 1] == Step(ws[k], acts[k])
  }

  // ---------------------------------------------------------------- the invariant

  ghost predicate ChanInv(w: World, ch: nat)
    requires ch < |w.table.keys| == |w.owners|
  {
    var key := w.table.keys[ch];
    && w.owners[ch] in w.callers && w.callers[w.owners[ch]].pc == Holding(ch) && w.callers[w.owners[ch]].key == key
    && (!Listed(w.table, ch) ==> ch in w.closers && w.closers[ch] <= w.cells.Newest(key))
  }

  ghost predicate CallerInv(w: World, c: nat)
    requires c in w.callers && |w.table.keys| == |w.owners|
  {
    var me := w.callers[c];
    && me.put <= w.cells.Newest(me.key)
    && match me.pc
       case Holding(ch) => ch < |w.owners| && w.owners[ch] == c
       case Waiting(ch) => ch < |w.table.keys| && w.table.keys[ch] == me.key
       case Removing(ch) =>
         ch < |w.table.keys| && w.table.keys[ch] == me.key && !Listed(w.table, ch) && ch in w.closers
       case Answered(ch, r) =>
         && ch < |w.table.keys| && w.table.keys[ch] == me.key && !Listed(w.table, ch) && ch in w.closers
         && w.closers[ch] <= (if r.Some? then r.value else w.cells.Gone(me.key))
       case _ => true
  }

  ghost predicate Inv(w: World) {
    && w.cells.Sane() && Sound(w.table) && |w.owners| == |w.table.keys|
    && (forall ch :: 0 <= ch < |w.owners| ==> ChanInv(w, ch))
    && (forall c :: c in w.callers ==> CallerInv(w, c))
  }

  /** A step away from the table keeps the invariant if it loses no history, leaves the winners
      alone, and gets the callers right that it changes. */
  lemma Frame(w: World, w': World)
    requires Inv(w) && w'.cells.Sane() && w.cells.LeadsTo(w'.cells)
    requires w'.table == w.table && w'.owners == w.owners && w'.closers == w.closers
    requires forall c :: c in w.callers && w.callers[c].pc.Holding? ==>
               c in w'.callers && w'.callers[c].pc == w.callers[c].pc && w'.callers[c].key == w.callers[c].key
    requires forall c :: c in w'.callers ==> (c in w.callers && w'.callers[c] == w.callers[c]) || CallerInv(w', c)
    ensures Inv(w')
  {
    forall ch | 0 <= ch < |w'.owners|
      ensures ChanInv(w', ch)
    {
      assert ChanInv(w, ch);
    }
    forall c | c in w'.callers
      ensures CallerInv(w', c)
    {
      if c in w.callers { assert CallerInv(w, c); }
    }
  }

  lemma ArriveInv(w: World, c: nat, key: string)
    requires Inv(w) && c !in w.callers
    ensures Inv(Arrive(w, c, key))
  {
    if key in w.table.slots {
      Frame(w, Arrive(w, c, key));
    } else {
      WinInv(w, c, key);
    }
  }

  lemma WinInv(w: World, c: nat, key: string)
    requires Inv(w) && c !in w.callers && key !in w.table.slots
    ensures Inv(Arrive(w, c, key))
  {
    LockStaysSound(w.table, key);
    var w' := Arrive(w, c, key);
    forall ch | 0 <= ch < |w'.owners|
      ensures ChanInv(w', ch)
    {
      if ch < |w.owners| { assert ChanInv(w, ch); }
    }
    forall d | d in w'.callers
      ensures CallerInv(w', d)
    {
      if d != c { assert CallerInv(w, d); }
    }
  }

  lemma ClosingInv(w: World, c: nat, t: Table)
    requires Inv(w) && c in w.callers && (t == w.table || t == WakeOf(w.table, w.callers[c].key))
    ensures Inv(Closing(w, c, t))
  {
    var key := w.callers[c].key;
    WakeStaysSound(w.table, key);
    var w' := Closing(w, c, t);
    assert CallerInv(w, c);
    forall ch | 0 <= ch < |w'.owners|
      ensures ChanInv(w', ch)
    {
      assert ChanInv(w, ch);
    }
    forall d | d in w'.callers
      ensures CallerInv(w', d)
    {
      assert CallerInv(w, d);
    }
  }

  lemma AddingInv(w: World, c: nat, ttl: int)
    requires Inv(w) && c in w.callers && !w.callers[c].pc.Waiting?
    ensures Inv(Adding(w, c, ttl))
  {
    AddedSane(w.cells, w.callers[c].key, ttl, w.now);
    assert CallerInv(w, c);
    if !w.cells.Ignores(w.callers[c].key) {
      Frame(w, Adding(w, c, ttl));
    }
  }

  lemma ReadingInv(w: World, c: nat)
    requires Inv(w) && CanRead(w, c)
    ensures Inv(Reading(w, c))
  {
    var me := w.callers[c];
    GotSane(w.cells, me.key, w.now);
    assert CallerInv(w, c) && ChanInv(w, me.pc.ch);
    Frame(w, Reading(w, c));
  }

  lemma RemoverInv(w: World, c: nat)
    requires Inv(w) && c in w.callers && w.callers[c].pc.Removing?
    ensures Inv(Remover(w, c))
  {
    var me := w.callers[c];
    GotSane(w.cells, me.key, w.now);
    assert CallerInv(w, c) && ChanInv(w, me.pc.ch);
    Frame(w, Remover(w, c));
  }

  lemma StoreStepInv(w: World, a: Action)
    requires Inv(w) && (a.Tick? || a.Lose?)
    ensures Inv(Step(w, a))
  {
    if a.Lose? {
      GotSane(w.cells, a.key, w.now);
    }
    Frame(w, Step(w, a));
  }

  lemma CallerStepInv(w: World, a: Action)
    requires Inv(w) && (a.Join? || a.Cancel?)
    ensures Inv(Step(w, a))
  {
    if a.Join? {
      Frame(w, Step(w, a));
    } else if a.c in w.callers {
      assert CallerInv(w, a.c);
      Frame(w, Step(w, a));
    }
  }

  lemma StepKeepsInv(w: World, a: Action)
    requires Inv(w)
    ensures Inv(Step(w, a))
  {
    match a
    case Enter(c, key) => if c !in w.callers { ArriveInv(w, c, key); }
    case Put(c, ttl) =>
      if CanPut(w, c) {
        AddingInv(w, c, ttl);
        ClosingInv(Adding(w, c, ttl), c, WakeOf(w.table, w.callers[c].key));
      }
    case FinishAdd(c) => if c in w.callers { ClosingInv(w, c, WakeOf(w.table, w.callers[c].key)); }
    case CallRelease(c) =>
      if CanRelease(w, c) { ClosingInv(w, c, ReleaseOf(w.table, w.callers[c].key, w.callers[c].pc.ch)); }
    case Read(c) => if CanRead(w, c) { ReadingInv(w, c); }
    case Remove(c) => if c in w.callers && w.callers[c].pc.Removing? { RemoverInv(w, c); }
    case Join(_, _) => CallerStepInv(w, a);
    case Cancel(_) => CallerStepInv(w, a);
    case _ => StoreStepInv(w, a);
  }

  lemma {:induction false} RunKeepsInv(ws: seq<World>, acts: seq<Action>, k: nat)
    requires Run(ws, acts) && k <= |acts|
    ensures Inv(ws[k])
  {
    if k > 0 {
      RunKeepsInv(ws, acts, k - 1);
      StepKeepsInv(ws[k - 1], acts[k - 1]);
    }
  }

  // ---------------------------------------------------------------- the promises

  /** In every run each channel is closed at most once, is in the table exactly while it is open,
      and then under its own key; and whoever made it is its one winner. */
  lemma ChannelsSound(ws: seq<World>, acts: seq<Action>, k: nat, ch: nat)
    requires Run(ws, acts) && k <= |acts|
    ensures var w := ws[k];
            && w.table.closed[ch] <= 1
            && (ch < |w.table.keys| ==> (w.table.closed[ch] == 0 <==> Listed(w.table, ch)))
            && (ch < |w.table.keys| ==> exists c :: c in w.callers && w.callers[c].pc == Holding(ch) &&
                                          forall d :: d in w.callers && w.callers[d].pc == Holding(ch) ==> d == c)
  {
    RunKeepsInv(ws, acts, k);
    var w := ws[k];
    if ch < |w.table.keys| {
      assert ChanInv(w, ch);
      forall d | d in w.callers && w.callers[d].pc == Holding(ch)
        ensures d == w.owners[ch]
      {
        assert CallerInv(w, d);
      }
    }
  }

  /** No two callers hold open channels for the same key. */
  lemma OneWinner(ws: seq<World>, acts: seq<Action>, k: nat, c: nat, d: nat)
    requires Run(ws, acts) && k <= |acts| && c in ws[k].callers && d in ws[k].callers
    requires var (x, y) := (ws[k].callers[c], ws[k].callers[d]);
             && x.pc.Holding? && y.pc.Holding? && x.key == y.key
             && ws[k].table.closed[x.pc.ch] == 0 && ws[k].table.closed[y.pc.ch] == 0
    ensures c == d
  {
    RunKeepsInv(ws, acts, k);
    var w := ws[k];
    assert CallerInv(w, c) && CallerInv(w, d);
    assert ChanInv(w, w.callers[c].pc.ch) && ChanInv(w, w.callers[d].pc.ch);
    assert Listed(w.table, w.callers[c].pc.ch) && Listed(w.table, w.callers[d].pc.ch);
  }

  /** No waiter is stranded: the wake-up of any Add under its key lets it read, and so does the
      release of the winner of its channel. */
  lemma NotStranded(ws: seq<World>, acts: seq<Action>, k: nat, c: nat, d: nat, ttl: int)
    requires Run(ws, acts) && k <= |acts| && c in ws[k].callers && ws[k].callers[c].pc.Waiting?
    requires d in ws[k].callers && d != c
    ensures var (w, me, other) := (ws[k], ws[k].callers[c], ws[k].callers[d]);
            && (other.key == me.key && other.waking ==> CanRead(Step(w, FinishAdd(d)), c))
            && ((other.key == me.key && w.cells.kind.ContextKind?
                 && !other.pc.Waiting? && !other.pc.Removing? && !other.waking) ==> CanRead(Step(w, Put(d, ttl)), c))
            && ((other.key == me.key != "" && w.cells.kind.LruKind?
                 && !other.pc.Waiting? && !other.pc.Removing? && !other.waking) ==>
                  CanRead(Step(Step(w, Put(d, ttl)), FinishAdd(d)), c))
            && (other.pc == Holding(me.pc.ch) && !other.waking ==> CanRead(Step(w, CallRelease(d)), c))
  {
    RunKeepsInv(ws, acts, k);
    var w := ws[k];
    assert CallerInv(w, c) && CallerInv(w, d);
    assert ChanInv(w, w.callers[c].pc.ch);
    assert CanRead(w, c) || Listed(w.table, w.callers[c].pc.ch);
    var key := w.callers[d].key;
    assert w.cells.kind.LruKind? && CanPut(w, d) && key != "" ==>
        Step(w, Put(d, ttl)).table == w.table && Step(w, Put(d, ttl)).callers[d].waking;
  }

  /** A release of a channel that has left the table touches no later one: it is fenced. */
  lemma LateReleaseIsFenced(ws: seq<World>, acts: seq<Action>, k: nat, c: nat)
    requires Run(ws, acts) && k < |acts| && acts[k] == CallRelease(c) && CanRelease(ws[k], c)
    ensures ws[k + 1].table ==
              if ws[k].table.closed[ws[k].callers[c].pc.ch] > 0 then ws[k].table
              else WakeOf(ws[k].table, ws[k].callers[c].key)
  {
    RunKeepsInv(ws, acts, k);
    var w := ws[k];
    assert CallerInv(w, c);
    assert ChanInv(w, w.callers[c].pc.ch);
  }

  /** The entry that the caller moved by the action has put by the end of it. */
  function PutBy(w: World, a: Action): nat {
    match a
    case Put(c, _) => if c in w.callers && !w.cells.Ignores(w.callers[c].key) then w.cells.count + 1 else 0
    case FinishAdd(c) => if c in w.callers then w.callers[c].put else 0
    case CallRelease(c) => if c in w.callers then w.callers[c].put else 0
    case _ => 0
  }

  ghost predicate ClosedAt(ws: seq<World>, j: nat, ch: nat)
    requires j + 1 < |ws|
  {
    ws[j].table.closed[ch] == 0 && ws[j + 1].table.closed[ch] > 0
  }

  lemma CloserRecorded(w: World, a: Action, ch: nat)
    requires Inv(w) && w.table.closed[ch] == 0 && Step(w, a).table.closed[ch] > 0
    ensures ch in Step(w, a).closers && Step(w, a).closers[ch] == PutBy(w, a)
  {
  }

  lemma CloserStays(w: World, a: Action, ch: nat)
    requires Inv(w) && w.table.closed[ch] > 0 && ch in w.closers
    ensures var w' := Step(w, a); w'.table.closed[ch] > 0 && ch in w'.closers && w'.closers[ch] == w.closers[ch]
  {
  }

  lemma {:induction false} CloserKept(ws: seq<World>, acts: seq<Action>, j: nat, k: nat, ch: nat)
    requires Run(ws, acts) && j < k <= |acts| && ClosedAt(ws, j, ch)
    ensures ws[k].table.closed[ch] > 0 && ch in ws[k].closers && ws[k].closers[ch] == PutBy(ws[j], acts[j])
  {
    RunKeepsInv(ws, acts, k - 1);
    if j + 1 == k {
      CloserRecorded(ws[j], acts[j], ch);
    } else {
      CloserKept(ws, acts, j, k - 1, ch);
      CloserStays(ws[k - 1], acts[k - 1], ch);
    }
  }

  /** Whoever comes to a key with an open channel waits for that channel; otherwise it wins, and owns a new one. */
  lemma EnterExactly(w: World, c: nat, key: string)
    requires Inv(w) && c !in w.callers
    ensures var w' := Step(w, Enter(c, key));
            && c in w'.callers && w'.cells == w.cells
            && (forall ch: nat :: ch < |w.table.keys| && w.table.keys[ch] == key && w.table.closed[ch] == 0 ==>
                  w'.callers[c] == Caller(key, Waiting(ch), 0, false) && w'.table == w.table)
            && ((forall ch: nat :: ch < |w.table.keys| && w.table.keys[ch] == key ==> w.table.closed[ch] > 0) ==>
                  && w'.callers[c] == Caller(key, Holding(|w.table.keys|), 0, false)
                  && w'.table.keys == w.table.keys + [key] && w'.table.closed == w.table.closed)
  {
  }

  /** Callers that do not load under the lock, waits that end with their context, losses, and time. */
  lemma OutsideExactly(w: World, c: nat, key: string, d: nat)
    requires Inv(w)
    ensures c !in w.callers ==> Step(w, Join(c, key)).callers == w.callers[c := Caller(key, Loading, 0, false)]
    ensures c in w.callers && w.callers[c].pc.Waiting? ==>
              Step(w, Cancel(c)).callers == w.callers[c := w.callers[c].(pc := Cancelled)]
    ensures Step(w, Lose(key)).cells.store == w.cells.store - {key}
    ensures Step(w, Tick(d)) == w.(now := w.now + d)
  {
  }

  // ---------------------------------------------------------------- what a woken waiter is answered

  /** The Get of a waiter whose channel is closed: an unexpired entry is the answer, an expired one is to be
      removed, and without an entry there is none. */
  lemma ReadSees(w: World, c: nat)
    requires Inv(w) && c in w.callers && w.callers[c].pc.Waiting? && w.table.closed[w.callers[c].pc.ch] > 0
    ensures var me, w' := w.callers[c], Step(w, Read(c));
            && w'.cells == w.cells && c in w'.callers
            && w'.callers[c] == me.(pc := if me.key !in w.cells.store then Answered(me.pc.ch, None)
                                          else if Unexpired(w.cells.store[me.key], w.now)
                                          then Answered(me.pc.ch, Some(w.cells.store[me.key].entry))
                                          else Removing(me.pc.ch))
  {
  }

  /** At step j caller c read, and its key had an entry. */
  ghost predicate ReadAt(ws: seq<World>, acts: seq<Action>, j: nat, c: nat, key: string)
    requires j < |acts| && j < |ws|
  {
    && acts[j] == Read(c) && c in ws[j].callers && ws[j].callers[c].key == key && CanRead(ws[j], c)
    && key in ws[j].cells.store
  }

  /** Where the answer of caller c comes from, before state k. */
  ghost predicate ReadLive(ws: seq<World>, acts: seq<Action>, k: nat, c: nat, key: string, e: nat)
    requires k <= |acts| < |ws|
  {
    exists j :: 0 <= j < k && ReadAt(ws, acts, j, c, key)
                && ws[j].cells.store[key].entry == e && Unexpired(ws[j].cells.store[key], ws[j].now)
  }

  ghost predicate ReadExpired(ws: seq<World>, acts: seq<Action>, k: nat, c: nat, key: string)
    requires k <= |acts| < |ws|
  {
    exists j :: 0 <= j < k && ReadAt(ws, acts, j, c, key) && !Unexpired(ws[j].cells.store[key], ws[j].now)
  }

  lemma MovesOn(w: World, a: Action, c: nat)
    requires c in w.callers
    ensures var w' := Step(w, a);
            && c in w'.callers && w'.callers[c].key == w.callers[c].key
            && (w.callers[c].pc.Answered? ==> w'.callers[c].pc == w.callers[c].pc)
            && (w'.callers[c].pc.Removing? && a != Read(c) ==> w'.callers[c].pc == w.callers[c].pc)
            && (w'.callers[c].pc.Answered? && w'.callers[c].pc.r.Some? && a != Read(c) ==>
                  w'.callers[c].pc == w.callers[c].pc)
            && (a == Read(c) && !CanRead(w, c) ==> w' == w)
  {
  }

  lemma Newcomer(w: World, a: Action, c: nat)
    requires c !in w.callers && c in Step(w, a).callers
    ensures !Step(w, a).callers[c].pc.Answered? && !Step(w, a).callers[c].pc.Removing?
  {
  }

  /** In every run, whoever is answered with an entry has read it unexpired, and whoever is about to remove
      one has read an expired one. */
  lemma {:induction false} AnswerWasLive(ws: seq<World>, acts: seq<Action>, k: nat, c: nat)
    requires Run(ws, acts) && k <= |acts| && c in ws[k].callers
    ensures var me := ws[k].callers[c];
            && (me.pc.Answered? && me.pc.r.Some? ==> ReadLive(ws, acts, k, c, me.key, me.pc.r.value))
            && (me.pc.Removing? ==> ReadExpired(ws, acts, k, c, me.key))
  {
    if k > 0 {
      RunKeepsInv(ws, acts, k - 1);
      var w, a := ws[k - 1], acts[k - 1];
      if c in w.callers {
        AnswerWasLive(ws, acts, k - 1, c);
        MovesOn(w, a, c);
        if a == Read(c) && CanRead(w, c) {
          ReadSees(w, c);
          assert w.callers[c].key in w.cells.store ==> ReadAt(ws, acts, k - 1, c, w.callers[c].key);
        }
      } else {
        Newcomer(w, a, c);
      }
    }
  }

  /** And whoever reads an unexpired entry is answered with it for good. */
  lemma {:induction false} LiveIsAnswered(ws: seq<World>, acts: seq<Action>, j: nat, k: nat, c: nat)
    requires Run(ws, acts) && j < k <= |acts| && acts[j] == Read(c) && c in ws[j].callers
    requires var me := ws[j].callers[c];
             && me.pc.Waiting? && ws[j].table.closed[me.pc.ch] > 0
             && me.key in ws[j].cells.store && Unexpired(ws[j].cells.store[me.key], ws[j].now)
    ensures c in ws[k].callers
    ensures var me := ws[j].callers[c];
            ws[k].callers[c].pc == Answered(me.pc.ch, Some(ws[j].cells.store[me.key].entry))
  {
    if j + 1 == k {
      RunKeepsInv(ws, acts, j);
      ReadSees(ws[j], c);
    } else {
      LiveIsAnswered(ws, acts, j, k - 1, c);
      MovesOn(ws[k - 1], acts[k - 1], c);
    }
  }

  // ---------------------------------------------------------------- what a woken waiter may miss

  /** Step i leaves the key without an entry: it is lost, a context cache is given a negative ttl for it, or a
      Get removes it that had read an expired entry. */
  ghost predicate Loses(ws: seq<World>, acts: seq<Action>, i: nat, key: string)
    requires i < |acts| < |ws|
  {
    && key !in ws[i + 1].cells.store
    && match acts[i]
       case Lose(k) => k == key
       case Put(c, ttl) => c in ws[i].callers && ws[i].callers[c].key == key && ttl < 0 && ws[i].cells.kind.ContextKind?
       case Remove(c) => c in ws[i].callers && ws[i].callers[c].key == key && ReadExpired(ws, acts, i, c, key)
       case _ => false
  }

  /** That happened before state k, to the entry e or a later one. */
  ghost predicate LostBy(ws: seq<World>, acts: seq<Action>, k: nat, key: string, e: nat)
    requires k <= |acts| < |ws|
  {
    exists i :: 0 <= i < k && Loses(ws, acts, i, key) && e <= ws[i + 1].cells.Newest(key)
  }

  lemma GoneStep(w: World, a: Action, key: string)
    requires Inv(w) && Step(w, a).cells.Gone(key) != w.cells.Gone(key)
    ensures var w' := Step(w, a);
            && key !in w'.cells.store && w'.cells.Gone(key) == w'.cells.Newest(key)
            && match a
               case Lose(k) => k == key
               case Put(c, ttl) => c in w.callers && w.callers[c].key == key && ttl < 0 && w.cells.kind.ContextKind?
               case Remove(c) => c in w.callers && w.callers[c].key == key && w.callers[c].pc.Removing?
               case _ => false
  {
  }

  lemma {:induction false} GoneMeansLost(ws: seq<World>, acts: seq<Action>, k: nat, key: string, e: nat)
    requires Run(ws, acts) && k <= |acts| && 0 < e <= ws[k].cells.Gone(key)
    ensures LostBy(ws, acts, k, key, e)
  {
    if k > 0 {
      RunKeepsInv(ws, acts, k - 1);
      if e <= ws[k - 1].cells.Gone(key) {
        GoneMeansLost(ws, acts, k - 1, key, e);
      } else {
        GoneStep(ws[k - 1], acts[k - 1], key);
        if acts[k - 1].Remove? {
          AnswerWasLive(ws, acts, k - 1, acts[k - 1].c);
        }
        assert Loses(ws, acts, k - 1, key);
      }
    }
  }

  /** A waiter reads what its waker stored. Step j closed the channel on which c waited, and in state k
      c has its answer. If the caller that closed it had added an entry, that is the answer, or a newer
      one, unless that entry or a newer one was lost since in one of the three ways. */
  lemma WokenReadsTheStore(ws: seq<World>, acts: seq<Action>, j: nat, k: nat, c: nat)
    requires Run(ws, acts) && j < k <= |acts| && c in ws[k].callers && ws[k].callers[c].pc.Answered?
    requires ClosedAt(ws, j, ws[k].callers[c].pc.ch)
    ensures var me := ws[k].callers[c];
            var put := PutBy(ws[j], acts[j]);
            if me.pc.r.Some? then put <= me.pc.r.value else put > 0 ==> LostBy(ws, acts, k, me.key, put)
  {
    var me := ws[k].callers[c];
    CloserKept(ws, acts, j, k, me.pc.ch);
    RunKeepsInv(ws, acts, k);
    assert CallerInv(ws[k], c);
    if me.pc.r.None? && PutBy(ws[j], acts[j]) > 0 {
      GoneMeansLost(ws, acts, k, me.key, PutBy(ws[j], acts[j]));
    }
  }

  // ---------------------------------------------------------------- a Get removes a live entry

  lemma Extend(ws: seq<World>, acts: seq<Action>, a: Action) returns (ws': seq<World>, acts': seq<Action>)
    requires Run(ws, acts)
    ensures acts' == acts + [a] && ws' == ws + [Step(ws[|acts|], a)] && Run(ws', acts')
  {
    ws', acts' := ws + [Step(ws[|acts|], a)], acts + [a];
  }

  /** A state of the run below, in which callers 1 and 2 came to the key "k" and caller 1 won. */
  ghost predicate Looks(w: World, kind: Kind, now: int, store: Store, put: nat, waking: bool, pc: Pc) {
    && w.now == now && w.cells.kind == kind && w.cells.store == store && w.cells.count == put
    && w.callers == map[1 := Caller("k", Holding(0), put, waking), 2 := Caller("k", pc, 0, false)]
  }

  lemma WaiterComes(kind: Kind) returns (ws: seq<World>, acts: seq<Action>)
    ensures Run(ws, acts) && Looks(ws[|acts|], kind, 0, map[], 0, false, Waiting(0))
    ensures ws[|acts|].table == Table(map["k" := 0], ["k"], multiset{})
  {
    ws, acts := [Start(kind, 0)], [];
    ws, acts := Extend(ws, acts, Enter(1, "k"));
    ws, acts := Extend(ws, acts, Enter(2, "k"));
  }

  /** Caller 1 adds with a ttl of 1, and the waiter reads at time 2. */
  lemma WaiterReadsExpired(kind: Kind) returns (ws: seq<World>, acts: seq<Action>)
    ensures Run(ws, acts) && Looks(ws[|acts|], kind, 2, map["k" := Timed(1, Some(1))], 1, false, Removing(0))
  {
    ws, acts := WinnerAdds(kind);
    ws, acts := Extend(ws, acts, Tick(2));
    ws, acts := Extend(ws, acts, Read(2));
  }

  lemma WinnerAdds(kind: Kind) returns (ws: seq<World>, acts: seq<Action>)
    ensures Run(ws, acts) && Looks(ws[|acts|], kind, 0, map["k" := Timed(1, Some(1))], 1, false, Waiting(0))
    ensures ws[|acts|].table == Table(map[], ["k"], multiset{0})
  {
    ws, acts := WaiterComes(kind);
    ws, acts := Extend(ws, acts, Put(1, 1));
    assert Looks(ws[|acts|], kind, 0, map["k" := Timed(1, Some(1))], 1, kind.LruKind?, Waiting(0));
    ws, acts := Extend(ws, acts, FinishAdd(1));
  }

  /** In either cache a Get that has found an expired entry removes whatever entry there is by then: here one
      that never expires, which was added in between. */
  lemma RemovesLiveEntry(kind: Kind) returns (ws: seq<World>, acts: seq<Action>, k: nat)
    ensures Run(ws, acts) && k + 1 == |acts| && acts[k] == Remove(2)
    ensures Looks(ws[k], kind, 2, map["k" := Timed(2, None)], 2, false, Removing(0))
    ensures Looks(ws[k + 1], kind, 2, map[], 2, false, Answered(0, None))
  {
    ws, acts := FreshEntryComes(kind);
    k := |acts|;
    ws, acts := Extend(ws, acts, Remove(2));
  }

  lemma FreshEntryComes(kind: Kind) returns (ws: seq<World>, acts: seq<Action>)
    ensures Run(ws, acts) && Looks(ws[|acts|], kind, 2, map["k" := Timed(2, None)], 2, false, Removing(0))
  {
    ws, acts := WaiterReadsExpired(kind);
    ws, acts := Extend(ws, acts, Put(1, 0));
    assert Looks(ws[|acts|], kind, 2, map["k" := Timed(2, None)], 2, kind.LruKind?, Removing(0));
    ws, acts := Extend(ws, acts, FinishAdd(1));
  }
}
