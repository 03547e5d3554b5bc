/** The JetStream key-value bucket behind natscache, as the append-only stream it is built on.

    A write of any kind appends one message; the revision of a message is its position in the
    stream (counted from 0 here). A key is present when its latest message is a Put. Lock keys,
    heartbeat keys and data keys are different constructors, so they never collide.
 */
module JetStream {
  import opened Options

  type Id = nat

  datatype Key = Data(name: string) | Lock(name: string) | Beat(id: Id)

  /** What a value holds: a data entry that may fail to decode, the id of a lock holder, or the
      heartbeat marker "1". */
  datatype Val = Payload(entry: Option<nat>) | Holder(holder: Id) | One

  /** Why a removal was sent. This is history for the proofs; the server does not store it.
      Stolen(seenAt) was sent after a read of the holder's heartbeat found nothing when the
      stream had seenAt messages. */
  datatype Cause = Released | Stolen(seenAt: nat) | Other

  /** fence is the revision the removal was conditional on, or the revision it removed. */
  datatype Op = Put(key: Key, val: Val) | Remove(key: Key, fence: int, cause: Cause)

  /** The revision of the latest message for key among the first t messages, or -1. */
  function LastBefore(log: seq<Op>, t: nat, key: Key): (r: int)
    requires t <= |log|
    ensures -1 <= r < t
    ensures r >= 0 ==> log[r].key == key
    ensures forall j :: r < j < t ==> log[j].key != key
    decreases t
  {
    if t == 0 then -1
    else if log[t - 1].key == key then t - 1
    else LastBefore(log, t - 1, key)
  }

  function Last(log: seq<Op>, key: Key): (r: int)
    ensures -1 <= r < |log|
    ensures r >= 0 ==> log[r].key == key
    ensures forall j :: r < j < |log| ==> log[j].key != key
  {
    LastBefore(log, |log|, key)
  }

  predicate PresentAt(log: seq<Op>, t: nat, key: Key)
    requires t <= |log|
  {
    var r := LastBefore(log, t, key);
    r >= 0 && log[r].Put?
  }

  predicate Present(log: seq<Op>, key: Key) {
    PresentAt(log, |log|, key)
  }

  /** A conditional purge: it applies when the latest message of key is the expected one. */
  function PurgeIf(log: seq<Op>, key: Key, fence: int, cause: Cause): seq<Op> {
    if fence >= 0 && Last(log, key) == fence then log + [Remove(key, fence, cause)] else log
  }

  /** A read of a data key: the entry, when the key is present and its bytes decode. */
  function ReadData(log: seq<Op>, name: string): Option<nat> {
    if Present(log, Data(name)) then
      var val := log[Last(log, Data(name))].val;
      if val.Payload? then val.entry else None
    else None
  }

  /** The first message for key at or after position from, or |log|. */
  function NextOp(log: seq<Op>, key: Key, from: nat): (i: nat)
    requires from <= |log|
    ensures from <= i <= |log|
    ensures i < |log| ==> log[i].key == key
    ensures forall j :: from <= j < i ==> log[j].key != key
    decreases |log| - from
  {
    if from == |log| then from
    else if log[from].key == key then from
    else NextOp(log, key, from + 1)
  }

  /** What was true of the first t messages stays true when the stream grows. */
  lemma PrefixStable(log: seq<Op>, log': seq<Op>, t: nat, key: Key)
    requires t <= |log| && log <= log'
    ensures LastBefore(log', t, key) == LastBefore(log, t, key)
    ensures PresentAt(log', t, key) == PresentAt(log, t, key)
  {
    var r, r' := LastBefore(log, t, key), LastBefore(log', t, key);
    assert forall j :: 0 <= j < |log| ==> log'[j] == log[j];
  }

  lemma LastAppend(log: seq<Op>, op: Op, key: Key)
    ensures Last(log + [op], key) == if op.key == key then |log| else Last(log, key)
  {
    PrefixStable(log, log + [op], |log|, key);
  }
}
