/** Eager loading in the todo example: TodoQuery.sqlAll scans the nodes and joins them in memory with
    the neighbours that up to three further queries return.
 */
module EagerLoad {
  import opened Join
  import opened Options

  datatype Fetched<T> = Rows(rows: seq<T>) | Failed

  class User {
    const id: int

    constructor (id: int)
      ensures this.id == id
    {
      this.id := id;
    }
  }

  class Todo {
    const row: Row
    var children: seq<Todo>
    var parent: Todo?
    var owner: User?

    /** Foreign keys are scanned only on demand. */
    constructor (row: Row, withFks: bool)
      ensures this.row == (if withFks then row else Row(row.id, None, None))
      ensures children == [] && parent == null && owner == null
    {
      this.row := if withFks then row else Row(row.id, None, None);
      children, parent, owner := [], null, null;
    }
  }

  function IdsOf(nodes: seq<Todo>): seq<int> {
    seq(|nodes|, i requires 0 <= i < |nodes| => nodes[i].row.id)
  }

  function ParentFks(nodes: seq<Todo>): seq<Option<int>> {
    seq(|nodes|, i requires 0 <= i < |nodes| => nodes[i].row.parentFk)
  }

  function OwnerFks(nodes: seq<Todo>): seq<Option<int>> {
    seq(|nodes|, i requires 0 <= i < |nodes| => nodes[i].row.ownerFk)
  }

  function UserIds(users: seq<User>): seq<int> {
    seq(|users|, i requires 0 <= i < |users| => users[i].id)
  }

  ghost predicate Distinct(nodes: seq<Todo>) {
    forall i, j :: 0 <= i < j < |nodes| ==> nodes[i] != nodes[j]
  }

  ghost function Repr(nodes: seq<Todo>): (s: set<Todo>)
    ensures forall i :: 0 <= i < |nodes| ==> nodes[i] in s
  {
    if nodes == [] then {} else Repr(nodes[..|nodes| - 1]) + {nodes[|nodes| - 1]}
  }

  // ---------------------------------------------------------------- children

  /** xs holds what is at those positions. */
  ghost predicate Picks(xs: seq<Todo>, neighbors: seq<Todo>, at: seq<nat>) {
    |xs| == |at| && forall m :: 0 <= m < |xs| ==> at[m] < |neighbors| && xs[m] == neighbors[at[m]]
  }

  lemma PicksMore(xs: seq<Todo>, neighbors: seq<Todo>, at: seq<nat>, k: nat)
    requires Picks(xs, neighbors, at) && k < |neighbors|
    ensures Picks(xs + [neighbors[k]], neighbors, at + [k])
  {
  }

  ghost predicate Shared(nodes: seq<Todo>, ids: seq<int>, neighbors: seq<Todo>, fks: seq<Option<int>>, k: nat)
    requires |nodes| == |ids| && k <= |fks|
    reads Repr(nodes)`children
  {
    forall i :: 0 <= i < |nodes| ==> Picks(nodes[i].children, neighbors, Share(ids, i, fks, k))
  }

  ghost predicate Indexed(ids: seq<int>, k: nat, nodeids: map<int, nat>, id: int)
    requires k <= |ids|
  {
    LastWithKey(ids, k, Some(id)) == if id in nodeids then Some(nodeids[id]) else None
  }

  method IndexById(nodes: seq<Todo>, ids: seq<int>) returns (nodeids: map<int, nat>)
    requires Distinct(nodes) && |nodes| == |ids|
    modifies Repr(nodes)`children
    ensures forall id {:trigger Indexed(ids, |ids|, nodeids, id)} :: Indexed(ids, |ids|, nodeids, id)
    ensures forall j :: 0 <= j < |nodes| ==> nodes[j].children == []
  {
    nodeids := map[];
    for i := 0 to |nodes|
      invariant forall id {:trigger Indexed(ids, i, nodeids, id)} :: Indexed(ids, i, nodeids, id)
      invariant forall j :: 0 <= j < i ==> nodes[j].children == []
    {
      ghost var before := nodeids;
      nodeids := nodeids[ids[i] := i];
      nodes[i].children := [];
      assert forall id {:trigger Indexed(ids, i + 1, nodeids, id)} ::
          Indexed(ids, i, before, id) ==> Indexed(ids, i + 1, nodeids, id);
    }
  }

  method Attach(nodes: seq<Todo>, ghost ids: seq<int>, at: nat, neighbors: seq<Todo>,
                ghost fks: seq<Option<int>>, k: nat)
    requires Distinct(nodes) && |nodes| == |ids| && |neighbors| == |fks|
    requires k < |fks| && Shared(nodes, ids, neighbors, fks, k)
    requires LastWithKey(ids, |ids|, fks[k]) == Some(at)
    modifies Repr(nodes)`children
    ensures Shared(nodes, ids, neighbors, fks, k + 1)
  {
    nodes[at].children := nodes[at].children + [neighbors[k]];
    forall i | 0 <= i < |nodes|
      ensures Picks(nodes[i].children, neighbors, Share(ids, i, fks, k + 1))
    {
      NextShare(ids, i, fks, k, at);
      PicksMore(old(nodes[i].children), neighbors, Share(ids, i, fks, k), k);
      assert i != at ==> nodes[i].children == old(nodes[i].children);
    }
  }

  /** It fails exactly when some neighbour's foreign key is nil or not the id of a node. */
  method JoinChildren(nodes: seq<Todo>, ids: seq<int>, neighbors: seq<Todo>, fks: seq<Option<int>>) returns (ok: bool)
    requires Distinct(nodes) && |nodes| == |ids| && |neighbors| == |fks|
    modifies Repr(nodes)`children
    ensures ok <==> forall k :: 0 <= k < |fks| ==> Belongs(ids, fks[k])
    ensures ok ==> Shared(nodes, ids, neighbors, fks, |fks|)
  {
    var nodeids := IndexById(nodes, ids);
    for k := 0 to |neighbors|
      invariant forall j :: 0 <= j < k ==> Belongs(ids, fks[j])
      invariant Shared(nodes, ids, neighbors, fks, k)
    {
      if fks[k].None? {
        KeyMeans(ids, |ids|, None);
        return false;
      }
      assert Indexed(ids, |ids|, nodeids, fks[k].value);
      if fks[k].value !in nodeids {
        return false;
      }
      Attach(nodes, ids, nodeids[fks[k].value], neighbors, fks, k);
    }
    ok := true;
  }

  /** Each neighbour has the id of some node for its parent's key. */
  ghost predicate ChildrenFit(nodes: seq<Todo>, neighbors: seq<Todo>) {
    forall k :: 0 <= k < |neighbors| ==> HasNode(nodes, neighbors[k].row.parentFk)
  }

  ghost predicate HasNode(nodes: seq<Todo>, fk: Option<int>) {
    exists i :: 0 <= i < |nodes| && fk == Some(nodes[i].row.id)
  }

  /** Of the nodes with one id, i is the last. */
  ghost predicate LastOfId(nodes: seq<Todo>, i: nat)
    requires i < |nodes|
  {
    forall k :: i < k < |nodes| ==> nodes[k].row.id != nodes[i].row.id
  }

  /** at lists the neighbours that node i should get: those with its id for their parent's key, in their order;
      of nodes with one id it is the last that gets them. */
  ghost predicate ListsChildren(nodes: seq<Todo>, i: nat, neighbors: seq<Todo>, at: seq<nat>)
    requires i < |nodes|
  {
    && (forall m, n :: 0 <= m < n < |at| ==> at[m] < at[n])
    && (forall j: nat :: j in at <==>
          j < |neighbors| && neighbors[j].row.parentFk == Some(nodes[i].row.id) && LastOfId(nodes, i))
  }

  ghost predicate HasChildren(children: seq<Todo>, nodes: seq<Todo>, i: nat, neighbors: seq<Todo>)
    requires i < |nodes|
  {
    exists at :: ListsChildren(nodes, i, neighbors, at) && Picks(children, neighbors, at)
  }

  ghost predicate ChildrenLoaded(nodes: seq<Todo>, neighbors: seq<Todo>)
    reads Repr(nodes)`children
  {
    forall i :: 0 <= i < |nodes| ==> HasChildren(nodes[i].children, nodes, i, neighbors)
  }

  lemma ShareLists(nodes: seq<Todo>, neighbors: seq<Todo>, i: nat)
    requires i < |nodes|
    ensures ListsChildren(nodes, i, neighbors, Share(IdsOf(nodes), i, ParentFks(neighbors), |neighbors|))
  {
    var ids, fks := IdsOf(nodes), ParentFks(neighbors);
    KeyMeans(ids, |ids|, Some(ids[i]));
    ChildrenMean(fks, |fks|, ids[i]);
    assert forall k :: 0 <= k < |nodes| ==> ids[k] == nodes[k].row.id;
    assert LastOfId(nodes, i) <==> LastWithKey(ids, |ids|, Some(ids[i])) == Some(i);
  }

  lemma SharedMeans(nodes: seq<Todo>, neighbors: seq<Todo>)
    requires Shared(nodes, IdsOf(nodes), neighbors, ParentFks(neighbors), |neighbors|)
    ensures ChildrenLoaded(nodes, neighbors)
  {
    forall i | 0 <= i < |nodes|
      ensures HasChildren(nodes[i].children, nodes, i, neighbors)
    {
      ShareLists(nodes, neighbors, i);
    }
  }

  lemma AllBelong(nodes: seq<Todo>, neighbors: seq<Todo>)
    ensures ChildrenFit(nodes, neighbors) <==>
            forall k :: 0 <= k < |neighbors| ==> Belongs(IdsOf(nodes), ParentFks(neighbors)[k])
  {
    forall k | 0 <= k < |neighbors|
      ensures ParentFks(neighbors)[k] == neighbors[k].row.parentFk
      ensures Belongs(IdsOf(nodes), neighbors[k].row.parentFk) <==> HasNode(nodes, neighbors[k].row.parentFk)
    {
      NodeWithKey(nodes, neighbors[k].row.parentFk);
    }
  }

  lemma NodeWithKey(nodes: seq<Todo>, fk: Option<int>)
    ensures Belongs(IdsOf(nodes), fk) <==> HasNode(nodes, fk)
  {
    var ids := IdsOf(nodes);
    KeyMeans(ids, |ids|, fk);
    assert forall i :: 0 <= i < |nodes| ==> ids[i] == nodes[i].row.id;
  }

  /** asked is what the query for the neighbours asks for. It fails exactly when the query returns something
      else. */
  method LoadChildren(nodes: seq<Todo>, neighbors: seq<Todo>) returns (ok: bool, asked: seq<int>)
    requires Distinct(nodes)
    modifies Repr(nodes)`children
    ensures |asked| == |nodes| && forall i :: 0 <= i < |nodes| ==> asked[i] == nodes[i].row.id
    ensures ok <==> ChildrenFit(nodes, neighbors)
    ensures ok ==> ChildrenLoaded(nodes, neighbors)
  {
    asked := IdsOf(nodes);
    AllBelong(nodes, neighbors);
    ok := JoinChildren(nodes, asked, neighbors, ParentFks(neighbors));
    if ok {
      SharedMeans(nodes, neighbors);
    }
  }

  // ---------------------------------------------------------------- parent and owner

  ghost predicate AllAsked(fks: seq<Option<int>>, ids: seq<int>) {
    forall k :: 0 <= k < |ids| ==> Some(ids[k]) in fks
  }

  /** The group lists exactly those that have the foreign key. */
  ghost predicate HaveFk(fks: seq<Option<int>>, group: seq<nat>, id: int) {
    forall i: nat :: i in group <==> i < |fks| && fks[i] == Some(id)
  }

  /** The distinct foreign keys, in the order they come up, and who has each. */
  method GroupByFk(fks: seq<Option<int>>) returns (ids: seq<int>, groups: map<int, seq<nat>>)
    ensures forall id :: id in ids <==> id in groups
    ensures forall id :: id in groups <==> Some(id) in fks
    ensures forall id :: id in groups ==> HaveFk(fks, groups[id], id)
    ensures forall i, j :: 0 <= i < j < |ids| ==> ids[i] != ids[j]
  {
    ids, groups := [], map[];
    for i := 0 to |fks|
      invariant forall id :: id in ids <==> id in groups
      invariant forall id :: id in groups <==> Some(id) in fks[..i]
      invariant forall id :: id in groups ==> HaveFk(fks[..i], groups[id], id)
      invariant forall i, j :: 0 <= i < j < |ids| ==> ids[i] != ids[j]
    {
      assert fks[..i + 1] == fks[..i] + [fks[i]];
      if fks[i].Some? {
        var fk := fks[i].value;
        if fk !in groups {
          ids := ids + [fk];
          groups := groups[fk := [i]];
        } else {
          groups := groups[fk := groups[fk] + [i]];
        }
      }
    }
    assert fks[..|fks|] == fks;
  }

  ghost predicate Parented(nodes: seq<Todo>, fks: seq<Option<int>>, neighbors: seq<Todo>, ids: seq<int>, k: nat)
    requires |nodes| == |fks| && |neighbors| == |ids| && k <= |ids|
    reads Repr(nodes)`parent
  {
    forall i :: 0 <= i < |nodes| ==>
      var at := LastWithKey(ids, k, fks[i]); nodes[i].parent == if at.Some? then neighbors[at.value] else null
  }

  method JoinParent(nodes: seq<Todo>, ghost fks: seq<Option<int>>, group: seq<nat>, neighbors: seq<Todo>,
                    ghost ids: seq<int>, k: nat)
    requires Distinct(nodes) && |nodes| == |fks| && |neighbors| == |ids| && k < |ids|
    requires Parented(nodes, fks, neighbors, ids, k) && HaveFk(fks, group, ids[k])
    modifies Repr(nodes)`parent
    ensures Parented(nodes, fks, neighbors, ids, k + 1)
  {
    for q := 0 to |group|
      invariant forall i :: 0 <= i < |nodes| ==>
                  nodes[i].parent == if i in group[..q] then neighbors[k] else old(nodes[i].parent)
    {
      assert group[q] in group;
      nodes[group[q]].parent := neighbors[k];
      assert group[..q + 1] == group[..q] + [group[q]];
    }
    assert group[..|group|] == group;
  }

  method JoinParents(nodes: seq<Todo>, fks: seq<Option<int>>, neighbors: seq<Todo>, ids: seq<int>)
    returns (ok: bool, asked: seq<int>)
    requires Distinct(nodes) && |nodes| == |fks| && |neighbors| == |ids|
    requires forall i :: 0 <= i < |nodes| ==> nodes[i].parent == null
    modifies Repr(nodes)`parent
    ensures forall id :: id in asked <==> Some(id) in fks
    ensures forall i, j :: 0 <= i < j < |asked| ==> asked[i] != asked[j]
    ensures ok <==> AllAsked(fks, ids)
    ensures ok ==> Parented(nodes, fks, neighbors, ids, |ids|)
  {
    var groups;
    asked, groups := GroupByFk(fks);
    for k := 0 to |neighbors|
      invariant forall j :: 0 <= j < k ==> ids[j] in asked
      invariant Parented(nodes, fks, neighbors, ids, k)
    {
      if ids[k] !in groups {
        return false, asked;
      }
      JoinParent(nodes, fks, groups[ids[k]], neighbors, ids, k);
    }
    ok := true;
  }

  ghost predicate ParentAsked(nodes: seq<Todo>, id: int) {
    exists i :: 0 <= i < |nodes| && nodes[i].row.parentFk == Some(id)
  }

  ghost predicate ParentsFit(nodes: seq<Todo>, neighbors: seq<Todo>) {
    forall k :: 0 <= k < |neighbors| ==> ParentAsked(nodes, neighbors[k].row.id)
  }

  /** The parent is the neighbour that the foreign key names, the last one if there are several, and nil if
      there is none. */
  ghost predicate ParentIs(parent: Todo?, fk: Option<int>, neighbors: seq<Todo>) {
    if parent == null then forall k :: 0 <= k < |neighbors| ==> Some(neighbors[k].row.id) != fk
    else exists k :: 0 <= k < |neighbors| && parent == neighbors[k] && Some(neighbors[k].row.id) == fk &&
           forall j :: k < j < |neighbors| ==> Some(neighbors[j].row.id) != fk
  }

  ghost predicate ParentLoaded(nodes: seq<Todo>, neighbors: seq<Todo>)
    reads Repr(nodes)`parent
  {
    forall i :: 0 <= i < |nodes| ==> ParentIs(nodes[i].parent, nodes[i].row.parentFk, neighbors)
  }

  lemma ParentedMeans(nodes: seq<Todo>, neighbors: seq<Todo>)
    requires Parented(nodes, ParentFks(nodes), neighbors, IdsOf(neighbors), |neighbors|)
    ensures ParentLoaded(nodes, neighbors)
  {
    var ids := IdsOf(neighbors);
    forall i | 0 <= i < |nodes|
      ensures ParentIs(nodes[i].parent, nodes[i].row.parentFk, neighbors)
    {
      KeyMeans(ids, |ids|, ParentFks(nodes)[i]);
      assert forall k :: 0 <= k < |neighbors| ==> ids[k] == neighbors[k].row.id;
    }
  }

  lemma ParentsAsked(nodes: seq<Todo>, neighbors: seq<Todo>)
    ensures forall id :: Some(id) in ParentFks(nodes) <==> ParentAsked(nodes, id)
    ensures ParentsFit(nodes, neighbors) <==> AllAsked(ParentFks(nodes), IdsOf(neighbors))
  {
    forall id
      ensures Some(id) in ParentFks(nodes) <==> ParentAsked(nodes, id)
    {
      assert forall i :: 0 <= i < |nodes| ==> ParentFks(nodes)[i] == nodes[i].row.parentFk;
    }
    assert forall k :: 0 <= k < |neighbors| ==> IdsOf(neighbors)[k] == neighbors[k].row.id;
  }

  /** asked is what the query for the neighbours asks for. It fails exactly when the query returns
      something else. */
  method LoadParent(nodes: seq<Todo>, neighbors: seq<Todo>) returns (ok: bool, asked: seq<int>)
    requires Distinct(nodes) && forall i :: 0 <= i < |nodes| ==> nodes[i].parent == null
    modifies Repr(nodes)`parent
    ensures forall id :: id in asked <==> ParentAsked(nodes, id)
    ensures forall i, j :: 0 <= i < j < |asked| ==> asked[i] != asked[j]
    ensures ok <==> ParentsFit(nodes, neighbors)
    ensures ok ==> ParentLoaded(nodes, neighbors)
  {
    ParentsAsked(nodes, neighbors);
    ok, asked := JoinParents(nodes, ParentFks(nodes), neighbors, IdsOf(neighbors));
    if ok {
      ParentedMeans(nodes, neighbors);
    }
  }

  ghost predicate Owned(nodes: seq<Todo>, fks: seq<Option<int>>, neighbors: seq<User>, ids: seq<int>, k: nat)
    requires |nodes| == |fks| && |neighbors| == |ids| && k <= |ids|
    reads Repr(nodes)`owner
  {
    forall i :: 0 <= i < |nodes| ==>
      var at := LastWithKey(ids, k, fks[i]); nodes[i].owner == if at.Some? then neighbors[at.value] else null
  }

  method JoinOwner(nodes: seq<Todo>, ghost fks: seq<Option<int>>, group: seq<nat>, neighbors: seq<User>,
                   ghost ids: seq<int>, k: nat)
    requires Distinct(nodes) && |nodes| == |fks| && |neighbors| == |ids| && k < |ids|
    requires Owned(nodes, fks, neighbors, ids, k) && HaveFk(fks, group, ids[k])
    modifies Repr(nodes)`owner
    ensures Owned(nodes, fks, neighbors, ids, k + 1)
  {
    for q := 0 to |group|
      invariant forall i :: 0 <= i < |nodes| ==>
                  nodes[i].owner == if i in group[..q] then neighbors[k] else old(nodes[i].owner)
    {
      assert group[q] in group;
      nodes[group[q]].owner := neighbors[k];
      assert group[..q + 1] == group[..q] + [group[q]];
    }
    assert group[..|group|] == group;
  }

  method JoinOwners(nodes: seq<Todo>, fks: seq<Option<int>>, neighbors: seq<User>, ids: seq<int>)
    returns (ok: bool, asked: seq<int>)
    requires Distinct(nodes) && |nodes| == |fks| && |neighbors| == |ids|
    requires forall i :: 0 <= i < |nodes| ==> nodes[i].owner == null
    modifies Repr(nodes)`owner
    ensures forall id :: id in asked <==> Some(id) in fks
    ensures forall i, j :: 0 <= i < j < |asked| ==> asked[i] != asked[j]
    ensures ok <==> AllAsked(fks, ids)
    ensures ok ==> Owned(nodes, fks, neighbors, ids, |ids|)
  {
    var groups;
    asked, groups := GroupByFk(fks);
    for k := 0 to |neighbors|
      invariant forall j :: 0 <= j < k ==> ids[j] in asked
      invariant Owned(nodes, fks, neighbors, ids, k)
    {
      if ids[k] !in groups {
        return false, asked;
      }
      JoinOwner(nodes, fks, groups[ids[k]], neighbors, ids, k);
    }
    ok := true;
  }

  ghost predicate OwnerAsked(nodes: seq<Todo>, id: int) {
    exists i :: 0 <= i < |nodes| && nodes[i].row.ownerFk == Some(id)
  }

  ghost predicate OwnersFit(nodes: seq<Todo>, neighbors: seq<User>) {
    forall k :: 0 <= k < |neighbors| ==> OwnerAsked(nodes, neighbors[k].id)
  }

  ghost predicate OwnerIs(owner: User?, fk: Option<int>, neighbors: seq<User>) {
    if owner == null then forall k :: 0 <= k < |neighbors| ==> Some(neighbors[k].id) != fk
    else exists k :: 0 <= k < |neighbors| && owner == neighbors[k] && Some(neighbors[k].id) == fk &&
           forall j :: k < j < |neighbors| ==> Some(neighbors[j].id) != fk
  }

  ghost predicate OwnerLoaded(nodes: seq<Todo>, neighbors: seq<User>)
    reads Repr(nodes)`owner
  {
    forall i :: 0 <= i < |nodes| ==> OwnerIs(nodes[i].owner, nodes[i].row.ownerFk, neighbors)
  }

  lemma OwnedMeans(nodes: seq<Todo>, neighbors: seq<User>)
    requires Owned(nodes, OwnerFks(nodes), neighbors, UserIds(neighbors), |neighbors|)
    ensures OwnerLoaded(nodes, neighbors)
  {
    var ids := UserIds(neighbors);
    forall i | 0 <= i < |nodes|
      ensures OwnerIs(nodes[i].owner, nodes[i].row.ownerFk, neighbors)
    {
      KeyMeans(ids, |ids|, OwnerFks(nodes)[i]);
      assert forall k :: 0 <= k < |neighbors| ==> ids[k] == neighbors[k].id;
    }
  }

  lemma OwnersAsked(nodes: seq<Todo>, neighbors: seq<User>)
    ensures forall id :: Some(id) in OwnerFks(nodes) <==> OwnerAsked(nodes, id)
    ensures OwnersFit(nodes, neighbors) <==> AllAsked(OwnerFks(nodes), UserIds(neighbors))
  {
    forall id
      ensures Some(id) in OwnerFks(nodes) <==> OwnerAsked(nodes, id)
    {
      assert forall i :: 0 <= i < |nodes| ==> OwnerFks(nodes)[i] == nodes[i].row.ownerFk;
    }
    assert forall k :: 0 <= k < |neighbors| ==> UserIds(neighbors)[k] == neighbors[k].id;
  }

  method LoadOwner(nodes: seq<Todo>, neighbors: seq<User>) returns (ok: bool, asked: seq<int>)
    requires Distinct(nodes) && forall i :: 0 <= i < |nodes| ==> nodes[i].owner == null
    modifies Repr(nodes)`owner
    ensures forall id :: id in asked <==> OwnerAsked(nodes, id)
    ensures forall i, j :: 0 <= i < j < |asked| ==> asked[i] != asked[j]
    ensures ok <==> OwnersFit(nodes, neighbors)
    ensures ok ==> OwnerLoaded(nodes, neighbors)
  {
    OwnersAsked(nodes, neighbors);
    ok, asked := JoinOwners(nodes, OwnerFks(nodes), neighbors, UserIds(neighbors));
    if ok {
      OwnedMeans(nodes, neighbors);
    }
  }

  // ---------------------------------------------------------------- the whole query

  /** The foreign keys that the nodes hold: none unless they are scanned. */
  function Scanned(row: Row, withFks: bool): Row {
    if withFks then row else Row(row.id, None, None)
  }

  method Scan(rows: seq<Row>, withFks: bool) returns (nodes: seq<Todo>)
    ensures |nodes| == |rows| && Distinct(nodes) && fresh(Repr(nodes))
    ensures forall i :: 0 <= i < |rows| ==>
              nodes[i].row == Scanned(rows[i], withFks) && Bare(nodes[i])
  {
    nodes := [];
    for k := 0 to |rows|
      invariant |nodes| == k && Distinct(nodes) && fresh(Repr(nodes))
      invariant forall i :: 0 <= i < k ==>
                  nodes[i].row == Scanned(rows[i], withFks) && Bare(nodes[i])
    {
      var node := new Todo(rows[k], withFks);
      assert (nodes + [node])[..k] == nodes;
      nodes := nodes + [node];
    }
  }

  /** Every further query that is made returns, and returns only what it was asked for. */
  ghost predicate Fits(nodes: seq<Todo>, children: Option<Fetched<Todo>>, parent: Option<Fetched<Todo>>,
                       owner: Option<Fetched<User>>) {
    && (children.Some? ==> children.value.Rows? && ChildrenFit(nodes, children.value.rows))
    && (parent.Some? ==> parent.value.Rows? && ParentsFit(nodes, parent.value.rows))
    && (owner.Some? ==> owner.value.Rows? && OwnersFit(nodes, owner.value.rows))
  }

  ghost predicate Bare(node: Todo)
    reads node
  {
    node.children == [] && node.parent == null && node.owner == null
  }

  method LoadEdges(nodes: seq<Todo>, children: Option<Fetched<Todo>>, parent: Option<Fetched<Todo>>,
                   owner: Option<Fetched<User>>)
    returns (ok: bool)
    requires Distinct(nodes) && forall i :: 0 <= i < |nodes| ==> Bare(nodes[i])
    modifies Repr(nodes)
    ensures ok <==> Fits(nodes, children, parent, owner)
    ensures ok && children.Some? ==> ChildrenLoaded(nodes, children.value.rows)
    ensures ok && parent.Some? ==> ParentLoaded(nodes, parent.value.rows)
    ensures ok && owner.Some? ==> OwnerLoaded(nodes, owner.value.rows)
    ensures children.None? ==> forall i :: 0 <= i < |nodes| ==> nodes[i].children == []
    ensures parent.None? ==> forall i :: 0 <= i < |nodes| ==> nodes[i].parent == null
    ensures owner.None? ==> forall i :: 0 <= i < |nodes| ==> nodes[i].owner == null
  {
    if children.Some? {
      if children.value.Failed? {
        return false;
      }
      var asked;
      ok, asked := LoadChildren(nodes, children.value.rows);
      if !ok {
        return;
      }
    }
    if parent.Some? {
      if parent.value.Failed? {
        return false;
      }
      var asked;
      ok, asked := LoadParent(nodes, parent.value.rows);
      if !ok {
        return;
      }
    }
    if owner.Some? {
      if owner.value.Failed? {
        return false;
      }
      var asked;
      ok, asked := LoadOwner(nodes, owner.value.rows);
      if !ok {
        return;
      }
    }
    ok := true;
  }

  /** children, parent and owner are None unless that edge is to be loaded, and otherwise what its
      query returns. Without nodes no further query is made. */
  method SqlAll(rows: Fetched<Row>, withFks: bool, children: Option<Fetched<Todo>>, parent: Option<Fetched<Todo>>,
                owner: Option<Fetched<User>>)
    returns (ok: bool, nodes: seq<Todo>, ghost scanned: seq<Todo>)
    ensures fresh(Repr(scanned)) && Distinct(scanned)
    ensures nodes == if ok then scanned else []
    ensures rows.Rows? ==> |scanned| == |rows.rows| && forall i :: 0 <= i < |scanned| ==>
              scanned[i].row == if withFks || parent.Some? || owner.Some? then rows.rows[i]
                                else Row(rows.rows[i].id, None, None)
    ensures ok <==> rows.Rows? && (scanned == [] || Fits(scanned, children, parent, owner))
    ensures nodes != [] && children.Some? ==> ChildrenLoaded(nodes, children.value.rows)
    ensures nodes != [] && parent.Some? ==> ParentLoaded(nodes, parent.value.rows)
    ensures nodes != [] && owner.Some? ==> OwnerLoaded(nodes, owner.value.rows)
    ensures children.None? ==> forall i :: 0 <= i < |nodes| ==> nodes[i].children == []
    ensures parent.None? ==> forall i :: 0 <= i < |nodes| ==> nodes[i].parent == null
    ensures owner.None? ==> forall i :: 0 <= i < |nodes| ==> nodes[i].owner == null
  {
    scanned := [];
    if rows.Failed? {
      return false, [], scanned;
    }
    nodes := Scan(rows.rows, withFks || parent.Some? || owner.Some?);
    scanned := nodes;
    if nodes == [] {
      return true, nodes, scanned;
    }
    ok := LoadEdges(nodes, children, parent, owner);
    if !ok {
      nodes := [];
    }
  }
}
