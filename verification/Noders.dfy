/** Batched node lookup in the todo example: Client.Noders groups the ids by table, fetches each table
    once, and puts every node back at the positions of its id.
 */
module Noders {
  import opened Options

  datatype Error =
    | Failure(n: int, notFound: bool)
    | BadTable(table: string)
    | NodeNotFound(id: int)
    | Appended(e: Error, id: int)

  datatype Result<T> = Ok(value: T) | Err(e: Error)

  datatype Node = Node(table: string, id: int)

  /** The table of an id. */
  type Resolver = int -> Result<string>

  /** The query of a table for a list of ids. */
  type Fetch = (string, seq<int>) -> Result<seq<Node>>

  const TODO_TABLE := "todos"
  const USER_TABLE := "users"

  predicate IsNotFound(e: Error) {
    e.BadTable? || (e.Failure? && e.notFound)
  }

  // ---------------------------------------------------------------- what each position should get

  /** Those of the first k ids that the resolver puts in the table, repeats included. */
  function Asked(ids: seq<int>, resolve: Resolver, table: string, k: nat): seq<int>
    requires k <= |ids|
  {
    if k == 0 then []
    else Asked(ids, resolve, table, k - 1) + if resolve(ids[k - 1]) == Ok(table) then [ids[k - 1]] else []
  }

  /** The last of the first k rows that has the id. */
  function NodeWith(rows: seq<Node>, k: nat, id: int): Option<Node>
    requires k <= |rows|
  {
    if k == 0 then None else if rows[k - 1].id == id then Some(rows[k - 1]) else NodeWith(rows, k - 1, id)
  }

  /** The rows that a table's query returns for all the ids that it is asked for. */
  function TableRows(table: string, asked: seq<int>, fetch: Fetch): Result<seq<Node>> {
    if table == TODO_TABLE || table == USER_TABLE then fetch(table, asked) else Err(BadTable(table))
  }

  /** What the lookup of one id finds. It depends on the position only through the id. */
  function Lookup(ids: seq<int>, resolve: Resolver, fetch: Fetch, id: int)
    : Result<Option<Node>>
  {
    match resolve(id)
    case Err(e) => Err(e)
    case Ok(table) =>
      match TableRows(table, Asked(ids, resolve, table, |ids|), fetch)
      case Err(e) => Err(e)
      case Ok(rows) => Ok(NodeWith(rows, |rows|, id))
  }

  function NodeOf(r: Result<Option<Node>>): Option<Node> {
    if r.Ok? then r.value else None
  }

  function ErrorOf(r: Result<Option<Node>>): Option<Error> {
    if r.Err? then Some(r.e) else None
  }

  /** The error recorded for an id, if any. */
  function Report(id: int, r: Result<Option<Node>>): Option<Error> {
    match r
    case Ok(node) => if node.Some? then None else Some(NodeNotFound(id))
    case Err(e) => Some(if IsNotFound(e) then Appended(e, id) else e)
  }

  // ---------------------------------------------------------------- the lookup

  method Place<T>(a: array<T>, positions: seq<nat>, v: T)
    requires forall j :: j in positions ==> j < a.Length
    modifies a
    ensures forall j :: 0 <= j < a.Length ==> a[j] == if j in positions then v else old(a[j])
  {
    for q := 0 to |positions|
      invariant forall j :: 0 <= j < a.Length ==> a[j] == if j in positions[..q] then v else old(a[j])
    {
      assert positions[q] in positions;
      a[positions[q]] := v;
      assert positions[..q + 1] == positions[..q] + [positions[q]];
    }
    assert positions[..|positions|] == positions;
  }

  /** The positions among the first k of the id. */
  ghost predicate Positions(positions: seq<nat>, ids: seq<int>, k: nat, id: int)
    requires k <= |ids|
  {
    forall j: nat :: j in positions <==> j < k && ids[j] == id
  }

  /** index gives the positions of each id that has any. */
  ghost predicate Indexes(index: map<int, seq<nat>>, ids: seq<int>, k: nat)
    requires k <= |ids|
  {
    && (forall id :: id in index ==> Positions(index[id], ids, k, id))
    && (forall j :: 0 <= j < k ==> ids[j] in index)
  }

  /** noders, the query of one table. Its result lines up with the ids, repeats included. */
  method TableNoders(table: string, ids: seq<int>, fetch: Fetch)
    returns (r: Result<seq<Option<Node>>>)
    ensures r.Ok? <==> TableRows(table, ids, fetch).Ok?
    ensures r.Err? ==> r.e == TableRows(table, ids, fetch).e
    ensures r.Ok? ==> |r.value| == |ids| && var rows := TableRows(table, ids, fetch).value;
                      forall i :: 0 <= i < |ids| ==> r.value[i] == NodeWith(rows, |rows|, ids[i])
  {
    var noders := new Option<Node>[|ids|](_ => None);
    var idmap: map<int, seq<nat>> := map[];
    for i := 0 to |ids|
      invariant Indexes(idmap, ids, i)
    {
      idmap := idmap[ids[i] := (if ids[i] in idmap then idmap[ids[i]] else []) + [i]];
    }
    if table != TODO_TABLE && table != USER_TABLE {
      return Err(BadTable(table));
    }
    var fetched := fetch(table, ids);
    if fetched.Err? {
      return Err(fetched.e);
    }
    var rows := fetched.value;
    for k := 0 to |rows|
      invariant forall i :: 0 <= i < |ids| ==> noders[i] == NodeWith(rows, k, ids[i])
    {
      var id := rows[k].id;
      Place(noders, if id in idmap then idmap[id] else [], Some(rows[k]));
    }
    r := Ok(noders[..]);
  }

  /** Every position of each id asked for gets the value that belongs to the id. */
  method Scatter<T>(a: array<T>, asked: seq<int>, vals: seq<T>, index: map<int, seq<nat>>, ghost ids: seq<int>,
                    ghost f: int -> T)
    requires |vals| == |asked| && |ids| == a.Length
    requires forall q :: 0 <= q < |asked| ==> vals[q] == f(asked[q]) && asked[q] in index
    requires forall id :: id in index ==> Positions(index[id], ids, |ids|, id)
    modifies a
    ensures forall j :: 0 <= j < a.Length ==> a[j] == if ids[j] in asked then f(ids[j]) else old(a[j])
  {
    for q := 0 to |asked|
      invariant forall j :: 0 <= j < a.Length ==> a[j] == if ids[j] in asked[..q] then f(ids[j]) else old(a[j])
    {
      assert Positions(index[asked[q]], ids, |ids|, asked[q]);
      Place(a, index[asked[q]], vals[q]);
      assert asked[..q + 1] == asked[..q] + [asked[q]];
    }
    assert asked[..|asked|] == asked;
  }

  ghost predicate Tabled(tables: map<string, seq<int>>, ids: seq<int>, resolve: Resolver, k: nat)
    requires k <= |ids|
  {
    && (forall t :: t in tables ==> tables[t] == Asked(ids, resolve, t, k))
    && (forall j :: 0 <= j < k && resolve(ids[j]).Ok? ==> resolve(ids[j]).value in tables)
  }

  ghost predicate IndexesResolved(index: map<int, seq<nat>>, ids: seq<int>, resolve: Resolver, k: nat)
    requires k <= |ids|
  {
    && (forall id :: id in index ==> resolve(id).Ok? && Positions(index[id], ids, k, id))
    && (forall j :: 0 <= j < k && resolve(ids[j]).Ok? ==> ids[j] in index)
  }

  lemma {:induction false} AskedMeans(ids: seq<int>, resolve: Resolver, table: string, k: nat, id: int)
    requires k <= |ids|
    ensures id in Asked(ids, resolve, table, k) <==> resolve(id) == Ok(table) && id in ids[..k]
  {
    if k > 0 {
      AskedMeans(ids, resolve, table, k - 1, id);
      assert ids[..k] == ids[..k - 1] + [ids[k - 1]];
    }
  }

  /** What the arrays hold at position j when the tables in rest are still to come. */
  ghost predicate Filled(node: Option<Node>, error: Option<Error>, rest: set<string>, found: Result<Option<Node>>,
                         table: Result<string>)
  {
    if table.Ok? && table.value in rest then node == None && error == None
    else node == NodeOf(found) && error == ErrorOf(found)
  }

  /** What is known of the first k ids. */
  ghost predicate Grouped(tables: map<string, seq<int>>, index: map<int, seq<nat>>, ids: seq<int>,
                          resolve: Resolver, k: nat)
    requires k <= |ids|
  {
    Tabled(tables, ids, resolve, k) && IndexesResolved(index, ids, resolve, k)
  }

  method Group(ids: seq<int>, resolve: Resolver, errors: array<Option<Error>>)
    returns (tables: map<string, seq<int>>, index: map<int, seq<nat>>)
    requires errors.Length == |ids| && forall j :: 0 <= j < |ids| ==> errors[j] == None
    modifies errors
    ensures Grouped(tables, index, ids, resolve, |ids|)
    ensures forall j :: 0 <= j < |ids| ==> errors[j] == if resolve(ids[j]).Err? then Some(resolve(ids[j]).e) else None
  {
    tables, index := map[], map[];
    for i := 0 to |ids|
      invariant Grouped(tables, index, ids, resolve, i)
      invariant forall j :: 0 <= j < |ids| ==>
                  errors[j] == if j < i && resolve(ids[j]).Err? then Some(resolve(ids[j]).e) else None
    {
      var table := resolve(ids[i]);
      if table.Err? {
        errors[i] := Some(table.e);
        UngroupedStep(tables, index, ids, resolve, i);
      } else {
        tables, index := AddToGroup(tables, index, ids, resolve, i, table.value);
      }
    }
  }

  lemma UngroupedStep(tables: map<string, seq<int>>, index: map<int, seq<nat>>, ids: seq<int>,
                      resolve: Resolver, k: nat)
    requires k < |ids| && Grouped(tables, index, ids, resolve, k) && resolve(ids[k]).Err?
    ensures Grouped(tables, index, ids, resolve, k + 1)
  {
    forall t | t in tables
      ensures tables[t] == Asked(ids, resolve, t, k + 1)
    {
      assert Asked(ids, resolve, t, k) + [] == Asked(ids, resolve, t, k);
    }
    forall id | id in index
      ensures Positions(index[id], ids, k + 1, id)
    {
      assert id != ids[k] && Positions(index[id], ids, k, id);
    }
  }

  method AddToGroup(tables: map<string, seq<int>>, index: map<int, seq<nat>>, ids: seq<int>,
                    ghost resolve: Resolver, k: nat, t: string)
    returns (tables': map<string, seq<int>>, index': map<int, seq<nat>>)
    requires k < |ids| && Grouped(tables, index, ids, resolve, k) && resolve(ids[k]) == Ok(t)
    ensures Grouped(tables', index', ids, resolve, k + 1)
  {
    var id := ids[k];
    TabledStep(tables, ids, resolve, k, t);
    tables' := tables[t := (if t in tables then tables[t] else []) + [id]];
    IndexStep(index, ids, resolve, k);
    index' := index[id := (if id in index then index[id] else []) + [k]];
  }

  lemma IndexStep(index: map<int, seq<nat>>, ids: seq<int>, resolve: Resolver, k: nat)
    requires k < |ids| && IndexesResolved(index, ids, resolve, k) && resolve(ids[k]).Ok?
    ensures var id := ids[k];
            IndexesResolved(index[id := (if id in index then index[id] else []) + [k]], ids, resolve, k + 1)
  {
    var id := ids[k];
    var index' := index[id := (if id in index then index[id] else []) + [k]];
    forall x | x in index'
      ensures Positions(index'[x], ids, k + 1, x)
    {
      assert x in index ==> Positions(index[x], ids, k, x);
    }
  }

  lemma TabledStep(tables: map<string, seq<int>>, ids: seq<int>, resolve: Resolver, k: nat, t: string)
    requires k < |ids| && Tabled(tables, ids, resolve, k) && resolve(ids[k]) == Ok(t)
    ensures Tabled(tables[t := (if t in tables then tables[t] else []) + [ids[k]]], ids, resolve, k + 1)
  {
    if t !in tables && Asked(ids, resolve, t, k) != [] {
      var id := Asked(ids, resolve, t, k)[0];
      AskedMeans(ids, resolve, t, k, id);
    }
  }

  /** One round over the tables: the nodes or the error go to every position of every id asked for. */
  method OneTable(ids: seq<int>, resolve: Resolver, fetch: Fetch,
                  t: string, asked: seq<int>, index: map<int, seq<nat>>, noders: array<Option<Node>>,
                  errors: array<Option<Error>>, ghost rest: set<string>)
    requires noders.Length == errors.Length == |ids| && t in rest
    requires asked == Asked(ids, resolve, t, |ids|) && IndexesResolved(index, ids, resolve, |ids|)
    requires forall j :: 0 <= j < |ids| ==>
               Filled(noders[j], errors[j], rest, Lookup(ids, resolve, fetch, ids[j]), resolve(ids[j]))
    modifies noders, errors
    ensures forall j :: 0 <= j < |ids| ==>
              Filled(noders[j], errors[j], rest - {t}, Lookup(ids, resolve, fetch, ids[j]), resolve(ids[j]))
  {
    forall id
      ensures id in asked <==> resolve(id) == Ok(t) && id in ids
    {
      AskedMeans(ids, resolve, t, |ids|, id);
      assert ids[..|ids|] == ids;
    }
    forall q | 0 <= q < |asked|
      ensures asked[q] in index
    {
      assert asked[q] in asked;
    }
    var nodes := TableNoders(t, asked, fetch);
    if nodes.Err? {
      Scatter(errors, asked, seq(|asked|, _ => Some(nodes.e)), index, ids, _ => Some(nodes.e));
    } else {
      ghost var rows := TableRows(t, asked, fetch).value;
      Scatter(noders, asked, nodes.value, index, ids, id => NodeWith(rows, |rows|, id));
    }
  }

  datatype Outcome = Nodes(noders: seq<Option<Node>>, reports: seq<(nat, Error)>) | Failed(e: Error)

  /** A single id goes through Noder, which fails as a whole. one is its query for one row. */
  function Noder(id: int, resolve: Resolver, one: (string, int) -> Result<Node>): Result<Node> {
    var r := match resolve(id)
             case Err(e) => Err(e)
             case Ok(table) =>
               if table == TODO_TABLE || table == USER_TABLE then one(table, id) else Err(BadTable(table));
    if r.Err? && IsNotFound(r.e) then Err(Appended(r.e, id)) else r
  }

  method Record(ids: seq<int>, ghost resolve: Resolver, ghost fetch: Fetch,
                noders: array<Option<Node>>, errors: array<Option<Error>>)
    returns (reports: seq<(nat, Error)>)
    requires noders.Length == errors.Length == |ids|
    requires forall j :: 0 <= j < |ids| ==> noders[j] == NodeOf(Lookup(ids, resolve, fetch, ids[j]))
    requires forall j :: 0 <= j < |ids| ==> errors[j] == ErrorOf(Lookup(ids, resolve, fetch, ids[j]))
    modifies errors
    ensures reports == Reports(ids, resolve, fetch, |ids|)
  {
    reports := [];
    for i := 0 to |ids|
      invariant reports == Reports(ids, resolve, fetch, i)
      invariant forall j :: i <= j < |ids| ==> errors[j] == ErrorOf(Lookup(ids, resolve, fetch, ids[j]))
    {
      if errors[i] == None {
        if noders[i] != None {
          continue;
        }
        errors[i] := Some(NodeNotFound(ids[i]));
      } else if IsNotFound(errors[i].value) {
        errors[i] := Some(Appended(errors[i].value, ids[i]));
      }
      reports := reports + [(i, errors[i].value)];
    }
  }

  /** The tables come up in any order, and the outcome does not depend on it. */
  method Noders(ids: seq<int>, resolve: Resolver, fetch: Fetch,
                one: (string, int) -> Result<Node>)
    returns (r: Outcome)
    ensures |ids| == 0 ==> r == Nodes([], [])
    ensures |ids| == 1 ==>
              var n := Noder(ids[0], resolve, one); r == if n.Ok? then Nodes([Some(n.value)], []) else Failed(n.e)
    ensures |ids| >= 2 ==>
              && r.Nodes? && |r.noders| == |ids|
              && (forall j :: 0 <= j < |ids| ==> r.noders[j] == NodeOf(Lookup(ids, resolve, fetch, ids[j])))
              && r.reports == Reports(ids, resolve, fetch, |ids|)
  {
    if |ids| == 1 {
      var n := Noder(ids[0], resolve, one);
      return if n.Ok? then Nodes([Some(n.value)], []) else Failed(n.e);
    }
    if |ids| == 0 {
      return Nodes([], []);
    }
    var noders := new Option<Node>[|ids|](_ => None);
    var errors := new Option<Error>[|ids|](_ => None);
    var tables, index := Group(ids, resolve, errors);
    var rest := tables.Keys;
    while rest != {}
      invariant rest <= tables.Keys
      invariant forall j :: 0 <= j < |ids| ==>
                  Filled(noders[j], errors[j], rest, Lookup(ids, resolve, fetch, ids[j]), resolve(ids[j]))
    {
      var t :| t in rest;
      OneTable(ids, resolve, fetch, t, tables[t], index, noders, errors, rest);
      rest := rest - {t};
    }
    var reports := Record(ids, resolve, fetch, noders, errors);
    r := Nodes(noders[..], reports);
  }

  /** The errors recorded for the first k positions, in order. */
  function Reports(ids: seq<int>, resolve: Resolver, fetch: Fetch, k: nat)
    : seq<(nat, Error)>
    requires k <= |ids|
  {
    if k == 0 then []
    else
      var report := Report(ids[k - 1], Lookup(ids, resolve, fetch, ids[k - 1]));
      Reports(ids, resolve, fetch, k - 1) + if report.Some? then [(k - 1, report.value)] else []
  }

  // ---------------------------------------------------------------- the promise

  lemma {:induction false} NodeWithMeans(rows: seq<Node>, k: nat, id: int)
    requires k <= |rows|
    ensures var n := NodeWith(rows, k, id);
            && (n.Some? ==> n.value.id == id && n.value in rows[..k])
            && (n.None? ==> forall i :: 0 <= i < k ==> rows[i].id != id)
  {
    if k > 0 {
      NodeWithMeans(rows, k - 1, id);
    }
  }

  /** A position has at most one report, that of its lookup. */
  lemma {:induction false} ReportsMean(ids: seq<int>, resolve: Resolver,
                                       fetch: Fetch, k: nat, j: nat, e: Error)
    requires j < k <= |ids|
    ensures (j, e) in Reports(ids, resolve, fetch, k) <==>
            Report(ids[j], Lookup(ids, resolve, fetch, ids[j])) == Some(e)
  {
    var before := Reports(ids, resolve, fetch, k - 1);
    var report := Report(ids[k - 1], Lookup(ids, resolve, fetch, ids[k - 1]));
    assert (j, e) in Reports(ids, resolve, fetch, k) <==> (j, e) in before || (j == k - 1 && report == Some(e));
    if j < k - 1 {
      ReportsMean(ids, resolve, fetch, k - 1, j, e);
    } else {
      NoReportYet(ids, resolve, fetch, j);
    }
  }

  lemma {:induction false} NoReportYet(ids: seq<int>, resolve: Resolver,
                                       fetch: Fetch, k: nat)
    requires k <= |ids|
    ensures forall x :: x in Reports(ids, resolve, fetch, k) ==> x.0 < k
  {
    if k > 0 {
      NoReportYet(ids, resolve, fetch, k - 1);
    }
  }

  /** The reports come in the order of their positions. */
  lemma {:induction false} ReportsInOrder(ids: seq<int>, resolve: Resolver,
                                          fetch: Fetch, k: nat, m: nat, n: nat)
    requires k <= |ids| && m < n < |Reports(ids, resolve, fetch, k)|
    ensures Reports(ids, resolve, fetch, k)[m].0 < Reports(ids, resolve, fetch, k)[n].0
  {
    var before := Reports(ids, resolve, fetch, k - 1);
    if n < |before| {
      ReportsInOrder(ids, resolve, fetch, k - 1, m, n);
    } else {
      NoReportYet(ids, resolve, fetch, k - 1);
      assert before[m] in before;
    }
  }

  /** A query that does not fail returns exactly the rows of db in its table that have an id it is
      asked for. */
  ghost predicate Answers(fetch: Fetch, db: set<Node>) {
    forall t, asked {:trigger fetch(t, asked)} :: fetch(t, asked).Ok? ==>
      forall n :: n in fetch(t, asked).value <==> n in db && n.table == t && n.id in asked
  }

  /** An error that says not-found is wrapped with the id. */
  function WithId(e: Error, id: int): Error {
    match e
    case Failure(_, notFound) => if notFound then Appended(e, id) else e
    case BadTable(_) => Appended(e, id)
    case _ => e
  }

  /** The lookup lines up: each position has the row of its id in the table of its id. It is nil, with
      an error recorded for the position, exactly when the id does not resolve, its table is unknown,
      the query of that table fails, or there is no such row. */
  lemma LinesUp(ids: seq<int>, resolve: Resolver, fetch: Fetch,
                db: set<Node>, j: nat)
    requires j < |ids| && Answers(fetch, db)
    ensures var n := NodeOf(Lookup(ids, resolve, fetch, ids[j]));
            && (n.Some? ==> n.value in db && n.value.id == ids[j] && resolve(ids[j]) == Ok(n.value.table))
            && (n.None? <==> resolve(ids[j]).Err? || resolve(ids[j]).value !in [TODO_TABLE, USER_TABLE]
                             || fetch(resolve(ids[j]).value, Asked(ids, resolve, resolve(ids[j]).value, |ids|)).Err?
                             || Node(resolve(ids[j]).value, ids[j]) !in db)
            && (n.None? <==> exists e :: (j, e) in Reports(ids, resolve, fetch, |ids|))
  {
    var report := Report(ids[j], Lookup(ids, resolve, fetch, ids[j]));
    if report.Some? {
      ReportsMean(ids, resolve, fetch, |ids|, j, report.value);
    }
    forall e | (j, e) in Reports(ids, resolve, fetch, |ids|)
      ensures report == Some(e)
    {
      ReportsMean(ids, resolve, fetch, |ids|, j, e);
    }
    var table := resolve(ids[j]);
    if table.Ok? && table.value in [TODO_TABLE, USER_TABLE] {
      var asked := Asked(ids, resolve, table.value, |ids|);
      AskedMeans(ids, resolve, table.value, |ids|, ids[j]);
      assert ids[..|ids|] == ids;
      if fetch(table.value, asked).Ok? {
        var rows := fetch(table.value, asked).value;
        NodeWithMeans(rows, |rows|, ids[j]);
        assert rows[..|rows|] == rows;
      }
    }
  }

  /** And the error that is recorded says which of the four it was. */
  lemma ErrorsSayWhy(ids: seq<int>, resolve: Resolver, fetch: Fetch, db: set<Node>, j: nat, e: Error)
    requires j < |ids| && Answers(fetch, db)
    requires (j, e) in Reports(ids, resolve, fetch, |ids|)
    ensures var table := resolve(ids[j]);
            e == if table.Err? then WithId(table.e, ids[j])
                 else if table.value !in [TODO_TABLE, USER_TABLE] then Appended(BadTable(table.value), ids[j])
                 else var rows := fetch(table.value, Asked(ids, resolve, table.value, |ids|));
                      if rows.Err? then WithId(rows.e, ids[j]) else NodeNotFound(ids[j])
  {
    ReportsMean(ids, resolve, fetch, |ids|, j, e);
  }

  /** The query for one row returns the row of db in that table with that id, or fails. */
  ghost predicate AnswersOne(one: (string, int) -> Result<Node>, db: set<Node>) {
    forall t, id {:trigger one(t, id)} :: one(t, id).Ok? ==> one(t, id).value == Node(t, id) && Node(t, id) in db
  }

  /** A single id: its row in the table of the id, or the error, wrapped if it says not-found. */
  lemma NoderFinds(id: int, resolve: Resolver, one: (string, int) -> Result<Node>, db: set<Node>)
    requires AnswersOne(one, db)
    ensures var r, table := Noder(id, resolve, one), resolve(id);
            && (r.Ok? <==> table.Ok? && table.value in [TODO_TABLE, USER_TABLE] && one(table.value, id).Ok?)
            && (r.Ok? ==> r.value == Node(table.value, id) && r.value in db)
            && (r.Err? ==>
                  r.e == if table.Err? then WithId(table.e, id)
                         else if table.value !in [TODO_TABLE, USER_TABLE] then Appended(BadTable(table.value), id)
                         else WithId(one(table.value, id).e, id))
  {
  }
}
