/** The two in-process caches, lrucache and contextcache: expiring stores beside a table of wait
    channels, as one caller at a time uses them. WaitRun interleaves them. Keys are the printed keys;
    entries are numbers.
 */
module LocalCache {
  import opened Options
  import opened Waits

  datatype Timed = Timed(entry: nat, expiry: Option<int>) {
    predicate Expired(now: int) { expiry.Some? && expiry.value < now }
  }

  type Store = map<string, Timed>

  // ---------------------------------------------------------------- what the stores do

  function LruAdd(m: Store, key: string, e: nat, ttl: int, now: int): Store {
    if key == "" then m else m[key := Timed(e, if ttl != 0 then Some(now + ttl) else None)]
  }

  function LruGet(m: Store, key: string, now: int): (Store, Option<nat>) {
    if key == "" || key !in m then (m, None)
    else if m[key].Expired(now) then (m - {key}, None)
    else (m, Some(m[key].entry))
  }

  function LruDel(m: Store, key: string): Store {
    if key == "" then m else m - {key}
  }

  function CtxAdd(m: Store, key: string, e: nat, ttl: int, now: int): Store {
    if ttl < 0 then m - {key}
    else if ttl > 0 then m[key := Timed(e, Some(now + ttl))]
    else m[key := Timed(e, None)]
  }

  function CtxGet(m: Store, key: string, now: int): (Store, Option<nat>) {
    if key !in m then (m, None)
    else if m[key].Expired(now) then (m - {key}, None)
    else (m, Some(m[key].entry))
  }

  // ---------------------------------------------------------------- the caches

  /** lrucache. The library under it may evict other keys when one is added. */
  class Lru {
    var cache: Store
    const table: WaitTable

    constructor ()
      ensures cache == map[] && table.Valid() && fresh(table) && table.table == EMPTY
    {
      cache := map[];
      table := new WaitTable();
    }

    /** The first half of Add; the second, table.Wake, is a critical section of its own. Only entries
        with ttl 0 never expire. */
    method AddStore(key: string, e: nat, ttl: int, now: int, evicted: set<string>)
      requires key !in evicted
      modifies `cache
      ensures key == "" ==> cache == old(cache)
      ensures key != "" ==> key in cache && cache[key].entry == e
      ensures key != "" ==> forall t :: cache[key].Expired(t) <==> ttl != 0 && now + ttl < t
      ensures key != "" ==> cache - {key} == old(cache) - {key} - evicted
    {
      if key == "" {
        return;
      }
      var expiry := None;
      if ttl != 0 {
        expiry := Some(now + ttl);
      }
      cache := cache[key := Timed(e, expiry)] - evicted;
    }

    /** An entry is found exactly if it is there and has not expired, and it stays. */
    method Get(key: string, now: int) returns (r: Option<nat>)
      modifies `cache
      ensures r.Some? <==> key != "" && Live(old(cache), key, now)
      ensures r.Some? ==> key in cache && cache[key] == old(cache)[key] && r.value == cache[key].entry
      ensures r.None? && key != "" ==> key !in cache
      ensures key == "" ==> cache == old(cache)
      ensures cache - {key} == old(cache) - {key}
    {
      if key == "" || key !in cache {
        return None;
      }
      if cache[key].expiry.Some? && now > cache[key].expiry.value {
        cache := cache - {key};
        return None;
      }
      r := Some(cache[key].entry);
    }

    method Del(key: string)
      modifies `cache
      ensures key == "" ==> cache == old(cache)
      ensures key != "" ==> key !in cache
      ensures cache - {key} == old(cache) - {key}
    {
      if key != "" {
        cache := cache - {key};
      }
    }
  }

  /** contextcache. Add stores and wakes in one critical section. */
  class ContextCache {
    var items: Store
    const table: WaitTable

    constructor ()
      ensures items == map[] && table.Valid() && fresh(table) && table.table == EMPTY
    {
      items := map[];
      table := new WaitTable();
    }

    method Add(key: string, e: nat, ttl: int, now: int)
      requires table.Valid()
      modifies `items, table, table.made
      ensures table.Valid() && table.made == old(table.made) && table.table == WakeOf(old(table.table), key)
      ensures key in items <==> ttl >= 0
      ensures key in items ==> items[key].entry == e && forall t :: items[key].Expired(t) <==> ttl > 0 && now + ttl < t
      ensures items - {key} == old(items) - {key}
    {
      if ttl < 0 {
        items := items - {key};
      } else if ttl > 0 {
        items := items[key := Timed(e, Some(now + ttl))];
      } else {
        items := items[key := Timed(e, None)];
      }
      table.Wake(key);
    }

    /** An entry is found exactly if it is there and has not expired, and it stays. */
    method Get(key: string, now: int) returns (r: Option<nat>)
      modifies `items
      ensures r.Some? <==> Live(old(items), key, now)
      ensures r.Some? ==> key in items && items[key] == old(items)[key] && r.value == items[key].entry
      ensures r.None? ==> key !in items
      ensures items - {key} == old(items) - {key}
    {
      if key !in items {
        return None;
      }
      if items[key].expiry.Some? && now > items[key].expiry.value {
        items := items - {key};
        return None;
      }
      r := Some(items[key].entry);
    }

    method Del(key: string)
      modifies `items
      ensures key !in items
      ensures items - {key} == old(items) - {key}
    {
      items := items - {key};
    }
  }

  predicate Live(m: Store, key: string, now: int) {
    key in m && !m[key].Expired(now)
  }

  // ---------------------------------------------------------------- the two stores agree

  datatype Call = Add(key: string, e: nat, ttl: int) | Get(key: string) | Del(key: string)

  /** The answers of the Get calls of a trace; later says how much time passes before each call. */
  function LruAnswers(m: Store, calls: seq<(nat, Call)>, now: int): seq<Option<nat>>
    decreases |calls|
  {
    if calls == [] then []
    else
      var t := now + calls[0].0;
      match calls[0].1
      case Add(key, e, ttl) => LruAnswers(LruAdd(m, key, e, ttl, t), calls[1..], t)
      case Del(key) => LruAnswers(LruDel(m, key), calls[1..], t)
      case Get(key) => var (m', r) := LruGet(m, key, t); [r] + LruAnswers(m', calls[1..], t)
  }

  function CtxAnswers(m: Store, calls: seq<(nat, Call)>, now: int): seq<Option<nat>>
    decreases |calls|
  {
    if calls == [] then []
    else
      var t := now + calls[0].0;
      match calls[0].1
      case Add(key, e, ttl) => CtxAnswers(CtxAdd(m, key, e, ttl, t), calls[1..], t)
      case Del(key) => CtxAnswers(m - {key}, calls[1..], t)
      case Get(key) => var (m', r) := CtxGet(m, key, t); [r] + CtxAnswers(m', calls[1..], t)
  }

  /** What an Add leaves under the empty key of a context cache that had held there. */
  function AddHolds(held: Option<Timed>, key: string, e: nat, ttl: int, now: int): Option<Timed> {
    if key != "" then held
    else if ttl < 0 then None
    else Some(Timed(e, if ttl == 0 then None else Some(now + ttl)))
  }

  /** Some Get of the empty key comes while the latest Add or Del under that key left an entry that has
      not expired. held is what the calls before left under it. */
  predicate FindsUnderEmptyKey(held: Option<Timed>, calls: seq<(nat, Call)>, now: int)
    decreases |calls|
  {
    calls != [] &&
    var t := now + calls[0].0;
    match calls[0].1
    case Add(key, e, ttl) => FindsUnderEmptyKey(AddHolds(held, key, e, ttl, t), calls[1..], t)
    case Del(key) => FindsUnderEmptyKey(if key == "" then None else held, calls[1..], t)
    case Get(key) =>
      (key == "" && held.Some? && !held.value.Expired(t)) || FindsUnderEmptyKey(held, calls[1..], t)
  }

  /** The context cache drops at once what the LRU keeps with an expiry in the past. Only the context
      cache stores under the empty key; there it has what is held, unless that has expired. */
  ghost predicate Agree(l: Store, c: Store, held: Option<Timed>, now: int) {
    && "" !in l
    && (forall k :: k in c && k != "" ==> k in l && l[k] == c[k])
    && (forall k :: k in l && k !in c ==> l[k].expiry.Some? && l[k].expiry.value < now)
    && ("" in c ==> held == Some(c[""]))
    && (held.Some? && "" !in c ==> held.value.Expired(now))
  }

  lemma AddKeepsAgreement(l: Store, c: Store, held: Option<Timed>, key: string, e: nat, ttl: int, t: int)
    requires Agree(l, c, held, t)
    ensures Agree(LruAdd(l, key, e, ttl, t), CtxAdd(c, key, e, ttl, t), AddHolds(held, key, e, ttl, t), t)
  {
  }

  lemma GetKeepsAgreement(l: Store, c: Store, held: Option<Timed>, key: string, t: int)
    requires Agree(l, c, held, t)
    ensures var ((l', x), (c', y)) := (LruGet(l, key, t), CtxGet(c, key, t));
            Agree(l', c', held, t) && (x == y <==> !(key == "" && held.Some? && !held.value.Expired(t)))
  {
  }

  lemma {:induction false} AgreementLasts(l: Store, c: Store, held: Option<Timed>, calls: seq<(nat, Call)>, now: int)
    requires Agree(l, c, held, now)
    ensures LruAnswers(l, calls, now) == CtxAnswers(c, calls, now) <==> !FindsUnderEmptyKey(held, calls, now)
    decreases |calls|
  {
    if calls != [] {
      var t, rest := now + calls[0].0, calls[1..];
      assert Agree(l, c, held, t);
      match calls[0].1
      case Add(key, e, ttl) =>
        AddKeepsAgreement(l, c, held, key, e, ttl, t);
        AgreementLasts(LruAdd(l, key, e, ttl, t), CtxAdd(c, key, e, ttl, t), AddHolds(held, key, e, ttl, t), rest, t);
      case Del(key) => AgreementLasts(LruDel(l, key), c - {key}, if key == "" then None else held, rest, t);
      case Get(key) =>
        var ((l', x), (c', y)) := (LruGet(l, key, t), CtxGet(c, key, t));
        GetKeepsAgreement(l, c, held, key, t);
        AgreementLasts(l', c', held, rest, t);
        SameHeadAndTail(x, LruAnswers(l', rest, t), y, CtxAnswers(c', rest, t));
    }
  }

  lemma SameHeadAndTail<T>(x: T, xs: seq<T>, y: T, ys: seq<T>)
    ensures [x] + xs == [y] + ys <==> x == y && xs == ys
  {
    assert ([x] + xs)[0] == x && ([x] + xs)[1..] == xs && ([y] + ys)[0] == y && ([y] + ys)[1..] == ys;
  }

  /** Any trace, with any keys and ttl, under a clock that does not run back, gets the same answers from
      the context cache and from an LRU that never evicts for capacity, unless, and only unless, some
      Get finds an entry under the empty key. */
  lemma SameAnswersExactly(calls: seq<(nat, Call)>, now: int)
    ensures LruAnswers(map[], calls, now) == CtxAnswers(map[], calls, now) <==>
            !FindsUnderEmptyKey(None, calls, now)
  {
    AgreementLasts(map[], map[], None, calls, now);
  }

  lemma {:induction false} NothingUnderEmptyKey(calls: seq<(nat, Call)>, now: int)
    requires forall i :: 0 <= i < |calls| ==> calls[i].1.Add? ==> calls[i].1.key != "" || calls[i].1.ttl < 0
    ensures !FindsUnderEmptyKey(None, calls, now)
    decreases |calls|
  {
    if calls != [] {
      NothingUnderEmptyKey(calls[1..], now + calls[0].0);
    }
  }

  /** In particular if nothing is added under it. */
  lemma SameAnswers(calls: seq<(nat, Call)>, now: int)
    requires forall i :: 0 <= i < |calls| ==> calls[i].1.Add? ==> calls[i].1.key != "" || calls[i].1.ttl < 0
    ensures LruAnswers(map[], calls, now) == CtxAnswers(map[], calls, now)
  {
    SameAnswersExactly(calls, now);
    NothingUnderEmptyKey(calls, now);
  }

  /** With the empty key they differ: the LRU ignores it, the context cache stores under it. */
  lemma EmptyKeyDiffers()
    ensures var calls := [(0, Add("", 7, 0)), (0, Get(""))];
            LruAnswers(map[], calls, 0) == [None] && CtxAnswers(map[], calls, 0) == [Some(7)]
  {
    var get: (nat, Call) := (0, Get(""));
    var calls := [(0, Add("", 7, 0)), get];
    assert calls[1..] == [get] && |[get][1..]| == 0;
    assert LruAnswers(map[], [get], 0) == [None] + LruAnswers(map[], [get][1..], 0);
    var m: Store := map["" := Timed(7, None)];
    assert CtxAnswers(m, [get], 0) == [Some(7)] + CtxAnswers(m, [get][1..], 0);
  }

  /** An entry is settled by its number and by when it has expired. */
  lemma SameEntry(x: Timed, y: Timed)
    requires x.entry == y.entry && forall t :: x.Expired(t) <==> y.Expired(t)
    ensures x == y
  {
    if x.expiry.Some? {
      assert x.Expired(x.expiry.value + 1) && !x.Expired(x.expiry.value);
    }
    if y.expiry.Some? {
      assert y.Expired(y.expiry.value + 1) && !y.Expired(y.expiry.value);
    }
  }

  lemma SameStore(a: Store, b: Store, key: string)
    requires a - {key} == b - {key} && (key in a <==> key in b)
    requires key in a ==> a[key].entry == b[key].entry && forall t :: a[key].Expired(t) <==> b[key].Expired(t)
    ensures a == b
  {
    if key in a {
      SameEntry(a[key], b[key]);
    }
    forall k
      ensures k in a <==> k in b
      ensures k in a ==> a[k] == b[k]
    {
      assert k in a - {key} <==> k in b - {key};
    }
  }

  /** The LRU itself, run on a trace. */
  method LruTrace(calls: seq<(nat, Call)>, now: int) returns (answers: seq<Option<nat>>)
    ensures answers == LruAnswers(map[], calls, now)
  {
    var lru := new Lru();
    var t := now;
    answers := [];
    for i := 0 to |calls|
      invariant answers + LruAnswers(lru.cache, calls[i..], t) == LruAnswers(map[], calls, now)
    {
      ghost var before, rest := lru.cache, calls[i..];
      assert rest[0] == calls[i] && rest[1..] == calls[i + 1..];
      t := t + calls[i].0;
      match calls[i].1 {
        case Add(key, e, ttl) =>
          lru.AddStore(key, e, ttl, t, {});
          SameStore(lru.cache, LruAdd(before, key, e, ttl, t), key);
        case Get(key) =>
          var r := lru.Get(key, t);
          SameStore(lru.cache, LruGet(before, key, t).0, key);
          answers := answers + [r];
        case Del(key) =>
          lru.Del(key);
          SameStore(lru.cache, LruDel(before, key), key);
      }
    }
    assert calls[|calls|..] == [];
  }

  /** The context cache itself, run on a trace. */
  method CtxTrace(calls: seq<(nat, Call)>, now: int) returns (answers: seq<Option<nat>>)
    ensures answers == CtxAnswers(map[], calls, now)
  {
    var ctx := new ContextCache();
    var t := now;
    answers := [];
    for i := 0 to |calls|
      invariant ctx.table.Valid() && fresh(ctx) && fresh(ctx.table) && ctx.table.made == []
      invariant answers + CtxAnswers(ctx.items, calls[i..], t) == CtxAnswers(map[], calls, now)
    {
      ghost var before, rest := ctx.items, calls[i..];
      assert rest[0] == calls[i] && rest[1..] == calls[i + 1..];
      t := t + calls[i].0;
      match calls[i].1 {
        case Add(key, e, ttl) =>
          ctx.Add(key, e, ttl, t);
          SameStore(ctx.items, CtxAdd(before, key, e, ttl, t), key);
        case Get(key) =>
          var r := ctx.Get(key, t);
          SameStore(ctx.items, CtxGet(before, key, t).0, key);
          answers := answers + [r];
        case Del(key) =>
          ctx.Del(key);
          SameStore(ctx.items, before - {key}, key);
      }
    }
    assert calls[|calls|..] == [];
  }
}
