/** The joins of eager loading as functions on keys: which of the returned neighbours each node gets. */
module Join {
  import opened Options

  datatype Row = Row(id: int, parentFk: Option<int>, ownerFk: Option<int>)

  /** The position of the last of the first k ids that is the key. */
  function LastWithKey(ids: seq<int>, k: nat, key: Option<int>): (at: Option<nat>)
    requires k <= |ids|
    ensures at.Some? ==> at.value < k
  {
    if k == 0 then None
    else if key == Some(ids[k - 1]) then Some(k - 1) else LastWithKey(ids, k - 1, key)
  }

  /** The positions of those of the first k foreign keys that are id. */
  function ChildrenAt(fks: seq<Option<int>>, k: nat, id: int): (at: seq<nat>)
    requires k <= |fks|
  {
    if k == 0 then []
    else ChildrenAt(fks, k - 1, id) + if fks[k - 1] == Some(id) then [k - 1] else []
  }

  /** What the join gives node i: of nodes with one id, only the last gets the neighbours. */
  function Share(ids: seq<int>, i: nat, fks: seq<Option<int>>, k: nat): (at: seq<nat>)
    requires i < |ids| && k <= |fks|
  {
    if LastWithKey(ids, |ids|, Some(ids[i])) == Some(i) then ChildrenAt(fks, k, ids[i]) else []
  }

  /** A foreign key that is the id of a node. */
  predicate Belongs(ids: seq<int>, fk: Option<int>) {
    LastWithKey(ids, |ids|, fk).Some?
  }

  /** The positions of the neighbours with the id as their foreign key, each once and in order. */
  lemma {:induction false} ChildrenMean(fks: seq<Option<int>>, k: nat, id: int)
    requires k <= |fks|
    ensures var at := ChildrenAt(fks, k, id);
            && (forall m :: 0 <= m < |at| ==> at[m] < k)
            && (forall m, n :: 0 <= m < n < |at| ==> at[m] < at[n])
            && forall j: nat :: j in at <==> j < k && fks[j] == Some(id)
  {
    if k > 0 {
      ChildrenMean(fks, k - 1, id);
    }
  }

  /** The last position with the key, and none exactly when there is none. */
  lemma {:induction false} KeyMeans(ids: seq<int>, k: nat, key: Option<int>)
    requires k <= |ids|
    ensures var at := LastWithKey(ids, k, key);
            && (at.Some? ==> Some(ids[at.value]) == key && forall j :: at.value < j < k ==> Some(ids[j]) != key)
            && (at.None? <==> forall j :: 0 <= j < k ==> Some(ids[j]) != key)
  {
    if k > 0 {
      KeyMeans(ids, k - 1, key);
    }
  }

  /** Among distinct ids it is the only one. */
  lemma KeyIsUnique(ids: seq<int>, j: nat)
    requires (forall i, j :: 0 <= i < j < |ids| ==> ids[i] != ids[j]) && j < |ids|
    ensures LastWithKey(ids, |ids|, Some(ids[j])) == Some(j)
  {
    KeyMeans(ids, |ids|, Some(ids[j]));
  }

  /** The next neighbour goes to the node of its foreign key and to no other. */
  lemma NextShare(ids: seq<int>, i: nat, fks: seq<Option<int>>, k: nat, at: nat)
    requires i < |ids| && k < |fks| && LastWithKey(ids, |ids|, fks[k]) == Some(at)
    ensures Share(ids, i, fks, k + 1) == Share(ids, i, fks, k) + if i == at then [k] else []
  {
    KeyMeans(ids, |ids|, fks[k]);
  }

  /** How many of the first m nodes get the neighbour at position j. */
  function Holders(ids: seq<int>, m: nat, fks: seq<Option<int>>, j: nat): nat
    requires m <= |ids|
  {
    if m == 0 then 0
    else Holders(ids, m - 1, fks, j) + if j in Share(ids, m - 1, fks, |fks|) then 1 else 0
  }

  lemma {:induction false} HolderIs(ids: seq<int>, m: nat, fks: seq<Option<int>>, j: nat, at: nat)
    requires m <= |ids| && j < |fks| && LastWithKey(ids, |ids|, fks[j]) == Some(at)
    ensures Holders(ids, m, fks, j) == if at < m then 1 else 0
  {
    if m > 0 {
      HolderIs(ids, m - 1, fks, j, at);
      KeyMeans(ids, |ids|, fks[j]);
      ChildrenMean(fks, |fks|, ids[m - 1]);
    }
  }

  /** Every neighbour whose foreign key is a node's id is attached exactly once, to one node. With
      distinct ids every node has all its neighbours. */
  lemma AttachedOnce(ids: seq<int>, fks: seq<Option<int>>, j: nat)
    requires j < |fks| && Belongs(ids, fks[j])
    ensures Holders(ids, |ids|, fks, j) == 1
    ensures (forall i, j :: 0 <= i < j < |ids| ==> ids[i] != ids[j]) ==>
              forall i :: 0 <= i < |ids| ==> (j in Share(ids, i, fks, |fks|) <==> fks[j] == Some(ids[i]))
  {
    HolderIs(ids, |ids|, fks, j, LastWithKey(ids, |ids|, fks[j]).value);
    if forall i, j :: 0 <= i < j < |ids| ==> ids[i] != ids[j] {
      forall i | 0 <= i < |ids|
        ensures j in Share(ids, i, fks, |fks|) <==> fks[j] == Some(ids[i])
      {
        KeyIsUnique(ids, i);
        ChildrenMean(fks, |fks|, ids[i]);
      }
    }
  }
}
