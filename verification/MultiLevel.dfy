/** The multi-level cache: Add and Del go down the levels and stop at the first error, Get stops at
    the first level that has the entry or fails. A level may lose entries at any time.
 */
module MultiLevel {
  import opened Options

  type Store = map<string, nat>

  datatype Outcome = Found(e: nat) | NotFound | Failed

  function Written(m: Store, key: string, v: Option<nat>): Store {
    if v.Some? then m[key := v.value] else m - {key}
  }

  /** The levels that a write gets to, when those in fails return an error. */
  function Reached(n: nat, fails: set<nat>, from: nat): (r: nat)
    requires from <= n
    ensures from <= r <= n && (r < n ==> r in fails) && forall i :: from <= i < r ==> i !in fails
    decreases n - from
  {
    if from == n || from in fails then from else Reached(n, fails, from + 1)
  }

  function Write(stores: seq<Store>, key: string, v: Option<nat>, reached: nat): seq<Store> {
    seq(|stores|, i requires 0 <= i < |stores| => if i < reached then Written(stores[i], key, v) else stores[i])
  }

  function Lookup(stores: seq<Store>, key: string, fails: set<nat>, from: nat): Outcome
    requires from <= |stores|
    decreases |stores| - from
  {
    if from == |stores| then NotFound
    else if from in fails then Failed
    else if key in stores[from] then Found(stores[from][key])
    else Lookup(stores, key, fails, from + 1)
  }

  // ---------------------------------------------------------------- the cache

  /** A level, a cache of its own. fails says whether the call returns an error. */
  class Level {
    var items: Store

    constructor ()
      ensures items == map[]
    {
      items := map[];
    }

    method Add(key: string, e: nat, fails: bool) returns (ok: bool)
      modifies this
      ensures ok == !fails && items == if ok then old(items)[key := e] else old(items)
    {
      if !fails { items := items[key := e]; }
      ok := !fails;
    }

    method Del(key: string, fails: bool) returns (ok: bool)
      modifies this
      ensures ok == !fails && items == if ok then old(items) - {key} else old(items)
    {
      if !fails { items := items - {key}; }
      ok := !fails;
    }

    method Get(key: string, fails: bool) returns (r: Outcome)
      ensures r == if fails then Failed else if key in items then Found(items[key]) else NotFound
    {
      r := if fails then Failed else if key in items then Found(items[key]) else NotFound;
    }
  }

  class MultiLevel {
    const levels: seq<Level>

    ghost predicate Valid() {
      forall i, j :: 0 <= i < j < |levels| ==> levels[i] != levels[j]
    }

    ghost function Contents(): (s: seq<Store>)
      reads levels
      ensures |s| == |levels|
    {
      seq(|levels|, i requires 0 <= i < |levels| reads levels => levels[i].items)
    }

    constructor (levels: seq<Level>)
      ensures this.levels == levels
    {
      this.levels := levels;
    }

    method Add(key: string, e: nat, fails: set<nat>) returns (ok: bool)
      requires Valid()
      modifies levels
      ensures var reached := Reached(|levels|, fails, 0);
              && ok == (reached == |levels|)
              && Contents() == Write(old(Contents()), key, Some(e), reached)
    {
      for i := 0 to |levels|
        invariant Reached(|levels|, fails, 0) == Reached(|levels|, fails, i)
        invariant forall j :: 0 <= j < |levels| ==>
                    levels[j].items ==
                    if j < i then Written(old(levels[j].items), key, Some(e)) else old(levels[j].items)
      {
        ok := levels[i].Add(key, e, i in fails);
        if !ok {
          assert Contents() == Write(old(Contents()), key, Some(e), i);
          return;
        }
      }
      ok := true;
      assert Contents() == Write(old(Contents()), key, Some(e), |levels|);
    }

    method Del(key: string, fails: set<nat>) returns (ok: bool)
      requires Valid()
      modifies levels
      ensures var reached := Reached(|levels|, fails, 0);
              && ok == (reached == |levels|)
              && Contents() == Write(old(Contents()), key, None, reached)
    {
      for i := 0 to |levels|
        invariant Reached(|levels|, fails, 0) == Reached(|levels|, fails, i)
        invariant forall j :: 0 <= j < |levels| ==>
                    levels[j].items == if j < i then Written(old(levels[j].items), key, None) else old(levels[j].items)
      {
        ok := levels[i].Del(key, i in fails);
        if !ok {
          assert Contents() == Write(old(Contents()), key, None, i);
          return;
        }
      }
      ok := true;
      assert Contents() == Write(old(Contents()), key, None, |levels|);
    }

    method Get(key: string, fails: set<nat>) returns (r: Outcome)
      ensures r == Lookup(Contents(), key, fails, 0)
    {
      for i := 0 to |levels|
        invariant Lookup(Contents(), key, fails, 0) == Lookup(Contents(), key, fails, i)
      {
        r := levels[i].Get(key, i in fails);
        if !r.NotFound? {
          return;
        }
      }
      r := NotFound;
    }
  }

  // ---------------------------------------------------------------- runs against one map

  datatype Op =
    | Add(key: string, e: nat, fails: set<nat>)
    | Del(key: string, fails: set<nat>)
    | Lose(level: nat, keys: set<string>)

  function Step(stores: seq<Store>, op: Op): (s: seq<Store>)
    ensures |s| == |stores|
  {
    match op
    case Add(key, e, fails) => Write(stores, key, Some(e), Reached(|stores|, fails, 0))
    case Del(key, fails) => Write(stores, key, None, Reached(|stores|, fails, 0))
    case Lose(i, keys) => if i < |stores| then stores[i := stores[i] - keys] else stores
  }

  function After(n: nat, ops: seq<Op>): (s: seq<Store>)
    ensures |s| == n
  {
    if ops == [] then seq(n, _ => map[]) else Step(After(n, ops[..|ops| - 1]), ops[|ops| - 1])
  }

  predicate Writes(op: Op, key: string) {
    !op.Lose? && op.key == key
  }

  predicate Succeeds(op: Op, n: nat) {
    !op.Lose? && Reached(n, op.fails, 0) == n
  }

  /** The one map that the levels stand for: what the last write under the key left there. */
  function Model(ops: seq<Op>, key: string): Option<nat> {
    if ops == [] then None
    else
      var op := ops[|ops| - 1];
      if !Writes(op, key) then Model(ops[..|ops| - 1], key) else if op.Add? then Some(op.e) else None
  }

  /** Whether the last write under the key, if there is one, returned no error. */
  predicate Settled(n: nat, ops: seq<Op>, key: string) {
    ops == [] ||
    var op := ops[|ops| - 1];
    if !Writes(op, key) then Settled(n, ops[..|ops| - 1], key) else Succeeds(op, n)
  }

  lemma {:induction false} LevelsAgree(n: nat, ops: seq<Op>, key: string, i: nat)
    requires Settled(n, ops, key) && i < n && key in After(n, ops)[i]
    ensures Model(ops, key) == Some(After(n, ops)[i][key])
  {
    if ops != [] {
      if !Writes(ops[|ops| - 1], key) {
        LevelsAgree(n, ops[..|ops| - 1], key, i);
      }
    }
  }

  lemma {:induction false} LookupFinds(stores: seq<Store>, key: string, fails: set<nat>, from: nat)
    requires from <= |stores|
    ensures match Lookup(stores, key, fails, from)
            case Found(e) =>
              exists i :: from <= i < |stores| && key in stores[i] && stores[i][key] == e &&
                forall j :: from <= j < i ==> key !in stores[j] && j !in fails
            case NotFound => forall i :: from <= i < |stores| ==> key !in stores[i] && i !in fails
            case Failed =>
              exists i :: from <= i < |stores| && i in fails && forall j :: from <= j < i ==> key !in stores[j]
    decreases |stores| - from
  {
    if from < |stores| {
      LookupFinds(stores, key, fails, from + 1);
    }
  }

  /** In every run in which the last write under the key returned no error, whatever else failed or
      was lost, a Get finds exactly what that write left, or fails, or finds nothing; and it finds
      nothing only if every level has lost the entry. */
  lemma RefinesOneMap(n: nat, ops: seq<Op>, key: string, fails: set<nat>)
    requires Settled(n, ops, key)
    ensures match Lookup(After(n, ops), key, fails, 0)
            case Found(e) => Model(ops, key) == Some(e)
            case NotFound => forall i :: 0 <= i < n ==> key !in After(n, ops)[i]
            case Failed => fails != {}
  {
    LookupFinds(After(n, ops), key, fails, 0);
    var r := Lookup(After(n, ops), key, fails, 0);
    if r.Found? {
      var i :| 0 <= i < n && key in After(n, ops)[i] && After(n, ops)[i][key] == r.e;
      LevelsAgree(n, ops, key, i);
    }
  }

  // ---------------------------------------------------------------- after an error

  /** Some losses let a later Get find x. */
  ghost predicate MayFind(stores: seq<Store>, key: string, x: nat) {
    exists lossy: seq<Store> :: Lossy(stores, lossy) && Lookup(lossy, key, {}, 0) == Found(x)
  }

  ghost predicate Lossy(stores: seq<Store>, lossy: seq<Store>) {
    |lossy| == |stores| && forall i :: 0 <= i < |stores| ==>
      lossy[i].Keys <= stores[i].Keys && forall k :: k in lossy[i] ==> lossy[i][k] == stores[i][k]
  }

  /** What a Get may find after a write that stopped at some level: what it wrote, if it wrote to
      any level, and whatever the levels it did not reach still hold. */
  lemma MayFindAfter(stores: seq<Store>, key: string, v: Option<nat>, fails: set<nat>, x: nat)
    ensures var reached := Reached(|stores|, fails, 0);
            MayFind(Write(stores, key, v, reached), key, x) <==>
              || (v == Some(x) && reached > 0)
              || exists i :: reached <= i < |stores| && key in stores[i] && stores[i][key] == x
  {
    var reached := Reached(|stores|, fails, 0);
    var after := Write(stores, key, v, reached);
    MayFindIff(after, key, x);
    if v == Some(x) && reached > 0 {
      assert key in after[0] && after[0][key] == x;
    }
    forall i | reached <= i < |stores|
      ensures after[i] == stores[i]
    {
    }
  }

  lemma MayFindIff(stores: seq<Store>, key: string, x: nat)
    ensures MayFind(stores, key, x) <==> exists i :: 0 <= i < |stores| && key in stores[i] && stores[i][key] == x
  {
    if MayFind(stores, key, x) {
      var lossy :| Lossy(stores, lossy) && Lookup(lossy, key, {}, 0) == Found(x);
      LookupFinds(lossy, key, {}, 0);
    }
    if i :| 0 <= i < |stores| && key in stores[i] && stores[i][key] == x {
      var lossy := seq(|stores|, j requires 0 <= j < |stores| => if j == i then stores[j] else stores[j] - {key});
      assert Lossy(stores, lossy);
      LookupFinds(lossy, key, {}, 0);
      assert Lookup(lossy, key, {}, 0) == Found(x) by {
        assert key in lossy[i];
        assert forall j :: 0 <= j < |lossy| && key in lossy[j] ==> j == i;
      }
    }
  }

  // ---------------------------------------------------------------- calls that overlap

  /** What a call does at one level, as calls of several goroutines interleave level by level. */
  datatype Touch = Touch(level: nat, key: string, v: Option<nat>) | LoseAt(level: nat, keys: set<string>)

  function Apply(stores: seq<Store>, t: Touch): (s: seq<Store>)
    ensures |s| == |stores|
  {
    if t.level >= |stores| then stores
    else if t.LoseAt? then stores[t.level := stores[t.level] - t.keys]
    else stores[t.level := Written(stores[t.level], t.key, t.v)]
  }

  function AfterTouches(n: nat, ts: seq<Touch>): (s: seq<Store>)
    ensures |s| == n
  {
    if ts == [] then seq(n, _ => map[]) else Apply(AfterTouches(n, ts[..|ts| - 1]), ts[|ts| - 1])
  }

  predicate Touches(t: Touch, i: nat, key: string) {
    t.Touch? && t.level == i && t.key == key
  }

  /** What was written last under the key at level i; a Del and no write at all leave nothing. */
  function LastAt(ts: seq<Touch>, i: nat, key: string): Option<nat> {
    if ts == [] then None
    else if Touches(ts[|ts| - 1], i, key) then ts[|ts| - 1].v
    else LastAt(ts[..|ts| - 1], i, key)
  }

  ghost predicate Lossless(ts: seq<Touch>) {
    forall k :: 0 <= k < |ts| ==> ts[k].Touch?
  }

  lemma {:induction false} LevelHoldsLast(n: nat, ts: seq<Touch>, i: nat, key: string)
    requires i < n
    ensures var m := AfterTouches(n, ts)[i];
            && (key in m ==> LastAt(ts, i, key) == Some(m[key]))
            && (Lossless(ts) && LastAt(ts, i, key).Some? ==> key in m)
  {
    if ts != [] {
      LevelHoldsLast(n, ts[..|ts| - 1], i, key);
    }
  }

  /** When the levels agree although calls overlap: after any interleaving a Get can find nothing but
      what the write of v left, whatever is lost, if at every level it was v that was written last, or
      nothing; without losses, exactly then. */
  lemma OverlapAgrees(n: nat, ts: seq<Touch>, key: string, v: Option<nat>)
    ensures (forall i: nat :: i < n ==> LastAt(ts, i, key) in {v, None}) ==>
              forall x: nat :: MayFind(AfterTouches(n, ts), key, x) ==> v == Some(x)
    ensures Lossless(ts) && (forall x: nat :: MayFind(AfterTouches(n, ts), key, x) ==> v == Some(x)) ==>
              forall i: nat :: i < n ==> LastAt(ts, i, key) in {v, None}
  {
    var stores := AfterTouches(n, ts);
    forall i: nat | i < n
      ensures key in stores[i] ==> LastAt(ts, i, key) == Some(stores[i][key])
      ensures key in stores[i] ==> MayFind(stores, key, stores[i][key])
      ensures Lossless(ts) && LastAt(ts, i, key).Some? ==> key in stores[i]
    {
      LevelHoldsLast(n, ts, i, key);
      if key in stores[i] { MayFindIff(stores, key, stores[i][key]); }
    }
    forall x | MayFind(stores, key, x)
      ensures exists i :: 0 <= i < n && key in stores[i] && stores[i][key] == x
    {
      MayFindIff(stores, key, x);
    }
  }

  /** So it is when the last call begins after the others have ended. */
  lemma {:induction false} LastCallDecides(before: seq<Touch>, call: seq<Touch>, i: nat, key: string, v: Option<nat>)
    requires exists k :: 0 <= k < |call| && Touches(call[k], i, key)
    requires forall k :: 0 <= k < |call| && Touches(call[k], i, key) ==> call[k].v == v
    ensures LastAt(before + call, i, key) == v
  {
    var ts := before + call;
    var front := call[..|call| - 1];
    assert ts[|ts| - 1] == call[|call| - 1];
    if !Touches(call[|call| - 1], i, key) {
      assert ts[..|ts| - 1] == before + front;
      assert forall k :: 0 <= k < |front| ==> front[k] == call[k];
      LastCallDecides(before, front, i, key, v);
    }
  }

  /** But two Adds that overlap can leave each level with another entry, and no error anywhere. */
  lemma OverlapDisagrees()
    ensures var ts := [Touch(0, "k", Some(1)), Touch(0, "k", Some(2)), Touch(1, "k", Some(2)), Touch(1, "k", Some(1))];
            LastAt(ts, 0, "k") == Some(2) && LastAt(ts, 1, "k") == Some(1)
            && MayFind(AfterTouches(2, ts), "k", 1) && MayFind(AfterTouches(2, ts), "k", 2)
  {
    var a, b := Touch(0, "k", Some(1)), Touch(0, "k", Some(2));
    var c, d := Touch(1, "k", Some(2)), Touch(1, "k", Some(1));
    var ts := [a, b, c, d];
    assert ts[..3] == [a, b, c] && [a, b, c][..2] == [a, b];
    LevelHoldsLast(2, ts, 0, "k");
    LevelHoldsLast(2, ts, 1, "k");
    assert Lossless(ts);
    MayFindIff(AfterTouches(2, ts), "k", 1);
    MayFindIff(AfterTouches(2, ts), "k", 2);
  }

  /** An old entry comes back: the second Add fails below the first level, which then loses it. */
  lemma FailedAddRevivesOld()
    ensures var ops := [Add("k", 1, {}), Add("k", 2, {1}), Lose(0, {"k"})];
            Lookup(After(2, ops), "k", {}, 0) == Found(1)
  {
    var a, b, c := Add("k", 1, {}), Add("k", 2, {1}), Lose(0, {"k"});
    assert [a, b, c][..2] == [a, b] && [a, b][..1] == [a] && [a][..0] == [];
    assert Reached(2, {1}, 0) == 1 by { assert Reached(2, {1}, 1) == 1; }
    assert After(2, [a]) == [map["k" := 1], map["k" := 1]];
    var first := After(2, [a]);
    assert Write(first, "k", Some(2), 1) == [first[0]["k" := 2], first[1]];
    assert After(2, [a, b]) == Step(After(2, [a]), b) by { assert [a, b][..1] == [a]; }
    assert first[0]["k" := 2] == map["k" := 2];
    assert After(2, [a, b]) == [map["k" := 2], map["k" := 1]];
    assert After(2, [a, b, c]) == [map[], map["k" := 1]];
  }
}
