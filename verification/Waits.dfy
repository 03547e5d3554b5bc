/** The table of wait channels that lrucache and contextcache keep under their mutex: one open
    channel for each key that somebody is loading. Each method is one critical section.
 */
module Waits {
  /** slots says which channel a key waits on. keys lists the key of every channel ever made, and
      closed counts the closes of each: closing a Go channel twice panics. */
  datatype Table = Table(slots: map<string, nat>, keys: seq<string>, closed: multiset<nat>)

  const EMPTY := Table(map[], [], multiset{})

  predicate Listed(t: Table, ch: nat) {
    ch < |t.keys| && t.keys[ch] in t.slots && t.slots[t.keys[ch]] == ch
  }

  /** A channel is listed, under its own key only, exactly until its first and only close. */
  ghost predicate Sound(t: Table) {
    && (forall k :: k in t.slots ==> t.slots[k] < |t.keys| && t.keys[t.slots[k]] == k)
    && (forall ch: nat {:trigger t.closed[ch]} :: t.closed[ch] == if ch < |t.keys| && !Listed(t, ch) then 1 else 0)
  }

  function LockOf(t: Table, key: string): (Table, nat) {
    if key in t.slots then (t, t.slots[key])
    else (Table(t.slots[key := |t.keys|], t.keys + [key], t.closed), |t.keys|)
  }

  function WakeOf(t: Table, key: string): Table {
    if key in t.slots then Table(t.slots - {key}, t.keys, t.closed + multiset{t.slots[key]}) else t
  }

  function ReleaseOf(t: Table, key: string, ch: nat): Table {
    if key in t.slots && t.slots[key] == ch then WakeOf(t, key) else t
  }

  lemma LockStaysSound(t: Table, key: string)
    requires Sound(t)
    ensures var (t', ch) := LockOf(t, key);
            && Sound(t') && Listed(t', ch) && t'.keys[ch] == key
            && forall c: nat :: Listed(t', c) <==> Listed(t, c) || c == ch
  {
    var (t', ch) := LockOf(t, key);
    assert forall c: nat :: Listed(t', c) <==> Listed(t, c) || c == ch;
  }

  lemma WakeStaysSound(t: Table, key: string)
    requires Sound(t)
    ensures Sound(WakeOf(t, key)) && key !in WakeOf(t, key).slots
    ensures forall c: nat :: Listed(WakeOf(t, key), c) <==> Listed(t, c) && !(key in t.slots && c == t.slots[key])
  {
    var t' := WakeOf(t, key);
    forall c: nat
      ensures t'.closed[c] == if c < |t'.keys| && !Listed(t', c) then 1 else 0
    {
      assert t.closed[c] == if c < |t.keys| && !Listed(t, c) then 1 else 0;
    }
  }

  class Chan {
    var closed: bool

    constructor ()
      ensures !closed
    {
      closed := false;
    }

    method Close()
      requires !closed
      modifies this
      ensures closed
    {
      closed := true;
    }
  }

  class WaitTable {
    var waits: map<string, Chan>
    ghost var made: seq<Chan>
    ghost var table: Table

    ghost predicate Valid()
      reads this, made
    {
      && Sound(table) && |made| == |table.keys|
      && waits.Keys == table.slots.Keys
      && (forall k :: k in waits ==> waits[k] == made[table.slots[k]])
      && (forall i, j :: 0 <= i < j < |made| ==> made[i] != made[j])
      && (forall i :: 0 <= i < |made| ==> (made[i].closed <==> !Listed(table, i)))
    }

    constructor ()
      ensures Valid() && table == EMPTY
    {
      waits, made, table := map[], [], EMPTY;
    }

    /** Whoever finds no channel under its key wins and owns a new one; the others wait on it. */
    method LockOrWait(key: string) returns (won: bool, ch: Chan, ghost n: nat)
      requires Valid()
      modifies this
      ensures Valid() && (table, n) == LockOf(old(table), key) && (won <==> key !in old(table).slots)
      ensures n < |made| && ch == made[n] && !ch.closed
      ensures if won then fresh(ch) && made == old(made) + [ch] else made == old(made)
    {
      n := LockOf(table, key).1;
      LockStaysSound(table, key);
      if key in waits {
        return false, waits[key], n;
      }
      ch := new Chan();
      waits := waits[key := ch];
      made := made + [ch];
      table := LockOf(table, key).0;
      won := true;
    }

    /** The wake-up of Add closes whatever channel is under the key, the adder's own or not. */
    method Wake(key: string)
      requires Valid()
      modifies this, made
      ensures Valid() && made == old(made) && table == WakeOf(old(table), key)
    {
      if key in waits {
        CloseAndDrop(key);
      }
    }

    /** The release of a winner closes its channel unless that has left the table. */
    method Release(key: string, ch: Chan, ghost n: nat)
      requires Valid() && n < |made| && made[n] == ch
      modifies this, made
      ensures Valid() && made == old(made) && table == ReleaseOf(old(table), key, n)
    {
      if key in waits && waits[key] == ch {
        CloseAndDrop(key);
      }
    }

    method CloseAndDrop(key: string)
      requires Valid() && key in waits
      modifies this, made
      ensures Valid() && made == old(made) && table == WakeOf(old(table), key)
    {
      WakeStaysSound(table, key);
      var ch := waits[key];
      assert ch == made[table.slots[key]];
      ch.Close();
      waits := waits - {key};
      table := WakeOf(table, key);
    }
  }
}
