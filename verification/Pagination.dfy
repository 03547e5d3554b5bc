/** Relay pagination of Todo rows: cursors, ordering and pages. A column holds the rank of its value
    in the database's order, so comparisons of columns are comparisons of integers. The database
    compares composite keys lexicographically.
 */
module Pagination {
  import opened Options

  datatype Direction = Asc | Desc {
    function Reverse(): Direction { if Desc? then Asc else Desc }
  }

  datatype Field = ById | ByText | ByCreatedAt | ByStatus | ByPriority

  datatype Todo = Todo(id: int, text: int, createdAt: int, status: int, priority: int) {
    function Column(f: Field): int {
      match f
      case ById => id
      case ByText => text
      case ByCreatedAt => createdAt
      case ByStatus => status
      case ByPriority => priority
    }
  }

  datatype Order = Order(direction: Direction, field: Field)

  const DEFAULT_ORDER := Order(Asc, ById)

  datatype Cursor = Cursor(id: int, value: Option<int>)

  function ToCursor(t: Todo, f: Field): Cursor {
    Cursor(t.id, if f.ById? then None else Some(t.Column(f)))
  }

  // ---------------------------------------------------------------- the database

  datatype Cmp = GT | LT

  /** Composite compares (column, id) with (value, id); Single compares the id alone. */
  datatype Predicate = Composite(cmp: Cmp, field: Field, value: int, id: int) | Single(cmp: Cmp, id: int) {
    predicate Holds(t: Todo) {
      match this
      case Composite(GT, f, v, i) => v < t.Column(f) || (v == t.Column(f) && i < t.id)
      case Composite(LT, f, v, i) => t.Column(f) < v || (t.Column(f) == v && t.id < i)
      case Single(GT, i) => i < t.id
      case Single(LT, i) => t.id < i
    }
  }

  predicate AllHold(ps: seq<Predicate>, t: Todo) {
    forall p :: p in ps ==> p.Holds(t)
  }

  /** ORDER BY: the first term that tells the rows apart decides. */
  predicate LessBy(terms: seq<(Direction, Field)>, a: Todo, b: Todo) {
    if terms == [] then false
    else
      var (d, f) := terms[0];
      var x, y := if d.Asc? then a.Column(f) else b.Column(f), if d.Asc? then b.Column(f) else a.Column(f);
      x < y || (x == y && LessBy(terms[1..], a, b))
  }

  function Where(rows: seq<Todo>, ps: seq<Predicate>): seq<Todo> {
    if rows == [] then []
    else if AllHold(ps, rows[0]) then [rows[0]] + Where(rows[1..], ps)
    else Where(rows[1..], ps)
  }

  function Insert(t: Todo, sorted: seq<Todo>, terms: seq<(Direction, Field)>): seq<Todo> {
    if sorted == [] then [t]
    else if LessBy(terms, sorted[0], t) then [sorted[0]] + Insert(t, sorted[1..], terms)
    else [t] + sorted
  }

  function Sort(rows: seq<Todo>, terms: seq<(Direction, Field)>): seq<Todo> {
    if rows == [] then [] else Insert(rows[0], Sort(rows[1..], terms), terms)
  }

  function Limit(rows: seq<Todo>, limit: nat): seq<Todo> {
    if 0 < limit < |rows| then rows[..limit] else rows
  }

  // ---------------------------------------------------------------- the pager

  function CursorsToPredicates(d: Direction, after: Option<Cursor>, before: Option<Cursor>, f: Field): seq<Predicate> {
    (if after.None? then []
     else if after.value.value.Some? then
       [Composite(if d.Asc? then GT else LT, f, after.value.value.value, after.value.id)]
     else [Single(if d.Asc? then GT else LT, after.value.id)])
    +
    (if before.None? then []
     else if before.value.value.Some? then
       [Composite(if d.Asc? then LT else GT, f, before.value.value.value, before.value.id)]
     else [Single(if d.Asc? then LT else GT, before.value.id)])
  }

  function ApplyOrder(o: Order, reverse: bool): seq<(Direction, Field)> {
    var d := if reverse then o.direction.Reverse() else o.direction;
    [(d, o.field)] + (if o.field.ById? then [] else [(d, ById)])
  }

  datatype Edge = Edge(node: Todo, cursor: Cursor)

  datatype PageInfo = PageInfo(hasNext: bool, hasPrevious: bool, start: Option<Cursor>, end: Option<Cursor>)

  datatype Connection = Connection(edges: seq<Edge>, info: PageInfo, total: nat)

  datatype Error = BothGiven | NegativeFirst | NegativeLast

  datatype Result = Ok(conn: Connection) | Err(error: Error)

  /** The fields of the connection that the GraphQL query selects; all of them outside GraphQL. */
  datatype Selected = Selected(edges: bool, pageInfo: bool, totalCount: bool)

  function ValidateFirstLast(first: Option<int>, last: Option<int>): Option<Error> {
    if first.Some? && last.Some? then Some(BothGiven)
    else if first.Some? && first.value < 0 then Some(NegativeFirst)
    else if last.Some? && last.value < 0 then Some(NegativeLast)
    else None
  }

  // ---------------------------------------------------------------- what a page is

  /** a comes strictly before b in the requested order; ids break ties. */
  predicate Before(o: Order, a: Todo, b: Todo) {
    var x, y := if o.direction.Asc? then a else b, if o.direction.Asc? then b else a;
    x.Column(o.field) < y.Column(o.field) || (x.Column(o.field) == y.Column(o.field) && x.id < y.id)
  }

  ghost predicate Ordered(o: Order, s: seq<Todo>) {
    forall i, j :: 0 <= i < j < |s| ==> Before(o, s[i], s[j])
  }

  ghost predicate UniqueIds(rows: seq<Todo>) {
    forall i, j :: 0 <= i < j < |rows| ==> rows[i].id != rows[j].id
  }

  ghost predicate SameRows(a: seq<Todo>, b: seq<Todo>) {
    forall t :: t in a <==> t in b
  }

  /** list is the whole list that is being paged through: the rows in the requested order. */
  ghost predicate IsList(o: Order, list: seq<Todo>, rows: seq<Todo>) {
    Ordered(o, list) && SameRows(list, rows)
  }

  /** t lies strictly beyond the cursor in the direction of the order. A cursor without a value
      compares by id alone, whatever the field. */
  predicate Beyond(o: Order, c: Cursor, t: Todo) {
    var x := if c.value.Some? then c.value.value else c.id;
    var y := if c.value.Some? then t.Column(o.field) else t.id;
    if o.direction.Asc? then x < y || (x == y && c.id < t.id) else y < x || (x == y && t.id < c.id)
  }

  predicate ShortOf(o: Order, c: Cursor, t: Todo) {
    Beyond(Order(o.direction.Reverse(), o.field), c, t)
  }

  predicate InWindow(o: Order, after: Option<Cursor>, before: Option<Cursor>, t: Todo) {
    (after.Some? ==> Beyond(o, after.value, t)) && (before.Some? ==> ShortOf(o, before.value, t))
  }

  /** The rows of the list strictly between the cursors, in order. */
  function Window(o: Order, list: seq<Todo>, after: Option<Cursor>, before: Option<Cursor>): (w: seq<Todo>) {
    if list == [] then []
    else (if InWindow(o, after, before, list[0]) then [list[0]] else []) + Window(o, list[1..], after, before)
  }

  function Page(w: seq<Todo>, first: Option<int>, last: Option<int>): seq<Todo>
    requires first.Some? ==> 0 < first.value
    requires last.Some? ==> 0 < last.value
  {
    if first.Some? && first.value < |w| then w[..first.value]
    else if first.None? && last.Some? && last.value < |w| then w[|w| - last.value..]
    else w
  }

  ghost predicate EdgesShow(edges: seq<Edge>, nodes: seq<Todo>, f: Field) {
    |edges| == |nodes| && forall i :: 0 <= i < |nodes| ==> edges[i] == Edge(nodes[i], ToCursor(nodes[i], f))
  }

  /** What the orders of the schema mean, column by column, and what the cursors hold. */
  lemma OrdersMean(a: Todo, b: Todo)
    ensures Before(Order(Asc, ById), a, b) <==> a.id < b.id
    ensures Before(Order(Asc, ByText), a, b) <==> a.text < b.text || (a.text == b.text && a.id < b.id)
    ensures Before(Order(Asc, ByCreatedAt), a, b) <==>
            a.createdAt < b.createdAt || (a.createdAt == b.createdAt && a.id < b.id)
    ensures Before(Order(Asc, ByStatus), a, b) <==> a.status < b.status || (a.status == b.status && a.id < b.id)
    ensures Before(Order(Asc, ByPriority), a, b) <==>
            a.priority < b.priority || (a.priority == b.priority && a.id < b.id)
    ensures forall f :: Before(Order(Desc, f), a, b) <==> Before(Order(Asc, f), b, a)
    ensures ToCursor(a, ById) == Cursor(a.id, None) && ToCursor(a, ByText) == Cursor(a.id, Some(a.text))
    ensures ToCursor(a, ByCreatedAt) == Cursor(a.id, Some(a.createdAt))
    ensures ToCursor(a, ByStatus) == Cursor(a.id, Some(a.status))
    ensures ToCursor(a, ByPriority) == Cursor(a.id, Some(a.priority))
  {
  }

  // ---------------------------------------------------------------- sorting and filtering

  ghost predicate Sorts(terms: seq<(Direction, Field)>, o: Order) {
    forall a, b :: LessBy(terms, a, b) <==> Before(o, a, b)
  }

  function Reversed(o: Order): Order { Order(o.direction.Reverse(), o.field) }

  lemma ApplyOrderSorts(o: Order, reverse: bool)
    ensures Sorts(ApplyOrder(o, reverse), if reverse then Reversed(o) else o)
  {
    var terms := ApplyOrder(o, reverse);
    forall a, b
      ensures LessBy(terms, a, b) <==> Before(if reverse then Reversed(o) else o, a, b)
    {
      assert LessBy(terms[1..], a, b) <==>
             |terms| > 1 && if terms[1].0.Asc? then a.id < b.id else b.id < a.id by {
        if |terms| > 1 {
          assert terms[1..] == [terms[1]];
          assert terms[1..][1..] == [];
        }
      }
    }
  }

  lemma {:induction false} InsertKeepsOrder(o: Order, terms: seq<(Direction, Field)>, t: Todo, s: seq<Todo>)
    requires Sorts(terms, o) && Ordered(o, s) && forall x :: x in s ==> x.id != t.id
    ensures Ordered(o, Insert(t, s, terms)) && SameRows(Insert(t, s, terms), [t] + s)
  {
    if s != [] {
      assert LessBy(terms, s[0], t) <==> Before(o, s[0], t);
      InsertKeepsOrder(o, terms, t, s[1..]);
      var r := Insert(t, s[1..], terms);
      if Before(o, s[0], t) {
        forall x | x in r
          ensures Before(o, s[0], x)
        {
          assert x in [t] + s[1..];
        }
        assert s == [s[0]] + s[1..];
      } else {
        assert Before(o, t, s[0]);
      }
    }
  }

  lemma {:induction false} SortOrders(o: Order, terms: seq<(Direction, Field)>, rows: seq<Todo>)
    requires Sorts(terms, o) && UniqueIds(rows)
    ensures IsList(o, Sort(rows, terms), rows)
  {
    if rows != [] {
      SortOrders(o, terms, rows[1..]);
      var s := Sort(rows[1..], terms);
      forall x | x in s
        ensures x.id != rows[0].id
      {
        assert x in rows[1..];
      }
      InsertKeepsOrder(o, terms, rows[0], s);
      assert rows == [rows[0]] + rows[1..];
    }
  }

  /** There is only one list. */
  lemma {:induction false} ListIsUnique(o: Order, a: seq<Todo>, b: seq<Todo>)
    requires Ordered(o, a) && Ordered(o, b) && SameRows(a, b)
    ensures a == b
  {
    assert b != [] ==> b[0] in b;
    if a != [] {
      assert a[0] in b && b[0] in a;
      assert a[0] == b[0];
      forall t
        ensures t in a[1..] <==> t in b[1..]
      {
        assert t in a <==> t == a[0] || t in a[1..];
        assert t in b <==> t == b[0] || t in b[1..];
      }
      ListIsUnique(o, a[1..], b[1..]);
    }
  }

  function List(o: Order, rows: seq<Todo>): seq<Todo> {
    Sort(rows, ApplyOrder(o, false))
  }

  /** The list of pages is the filtered rows, each exactly once, in the requested order; and any
      list that is so is this one. */
  lemma ListIsList(o: Order, rows: seq<Todo>, list: seq<Todo>)
    requires UniqueIds(rows)
    ensures IsList(o, list, rows) <==> list == List(o, rows)
  {
    ApplyOrderSorts(o, false);
    SortOrders(o, ApplyOrder(o, false), rows);
    if IsList(o, list, rows) {
      ListIsUnique(o, list, List(o, rows));
    }
  }

  lemma {:induction false} WhereKeeps(rows: seq<Todo>, ps: seq<Predicate>)
    requires UniqueIds(rows)
    ensures UniqueIds(Where(rows, ps))
    ensures forall t :: t in Where(rows, ps) <==> t in rows && AllHold(ps, t)
  {
    if rows != [] {
      WhereKeeps(rows[1..], ps);
      assert rows == [rows[0]] + rows[1..];
      forall x | x in Where(rows[1..], ps)
        ensures x.id != rows[0].id
      {
        assert x in rows[1..];
      }
    }
  }

  lemma {:induction false} WindowKeeps(o: Order, list: seq<Todo>, after: Option<Cursor>, before: Option<Cursor>)
    requires Ordered(o, list)
    ensures var w := Window(o, list, after, before);
            Ordered(o, w) && forall t :: t in w <==> t in list && InWindow(o, after, before, t)
  {
    if list != [] {
      WindowKeeps(o, list[1..], after, before);
      assert list == [list[0]] + list[1..];
      forall x | x in Window(o, list[1..], after, before)
        ensures Before(o, list[0], x)
      {
        assert x in list[1..];
      }
    }
  }

  lemma CursorsSelectWindow(o: Order, after: Option<Cursor>, before: Option<Cursor>, t: Todo)
    ensures AllHold(CursorsToPredicates(o.direction, after, before, o.field), t) <==> InWindow(o, after, before, t)
  {
    var ps := CursorsToPredicates(o.direction, after, before, o.field);
    if after.Some? { assert ps[0] in ps; }
    if before.Some? { assert ps[|ps| - 1] in ps; }
  }

  function Mirror(s: seq<Todo>): (r: seq<Todo>)
    ensures |r| == |s| && forall i :: 0 <= i < |s| ==> r[i] == s[|s| - 1 - i]
  {
    seq(|s|, i requires 0 <= i < |s| => s[|s| - 1 - i])
  }

  lemma MirrorKeeps(o: Order, s: seq<Todo>)
    requires Ordered(o, s)
    ensures Ordered(Reversed(o), Mirror(s)) && SameRows(s, Mirror(s))
  {
    forall t | t in s
      ensures t in Mirror(s)
    {
      var i :| 0 <= i < |s| && s[i] == t;
      assert Mirror(s)[|s| - 1 - i] == t;
    }
  }

  lemma QueryFindsWindow(o: Order, rows: seq<Todo>, after: Option<Cursor>, before: Option<Cursor>, found: seq<Todo>)
    requires UniqueIds(rows)
    requires SameRows(found, Where(rows, CursorsToPredicates(o.direction, after, before, o.field)))
    ensures SameRows(found, Window(o, List(o, rows), after, before))
    ensures Ordered(o, Window(o, List(o, rows), after, before))
  {
    WhereKeeps(rows, CursorsToPredicates(o.direction, after, before, o.field));
    ListIsList(o, rows, List(o, rows));
    WindowKeeps(o, List(o, rows), after, before);
    forall t
      ensures t in found <==> t in Window(o, List(o, rows), after, before)
    {
      CursorsSelectWindow(o, after, before, t);
    }
  }

  /** What the query of Paginate returns before its limit: the window, mirrored for last. */
  lemma QueryReturnsWindow(o: Order, rows: seq<Todo>, after: Option<Cursor>, before: Option<Cursor>, reverse: bool)
    requires UniqueIds(rows)
    ensures var ps := CursorsToPredicates(o.direction, after, before, o.field);
            var w := Window(o, List(o, rows), after, before);
            Sort(Where(rows, ps), ApplyOrder(o, reverse)) == if reverse then Mirror(w) else w
  {
    var ps := CursorsToPredicates(o.direction, after, before, o.field);
    var w := Window(o, List(o, rows), after, before);
    var found := Sort(Where(rows, ps), ApplyOrder(o, reverse));
    var o' := if reverse then Reversed(o) else o;
    WhereKeeps(rows, ps);
    ApplyOrderSorts(o, reverse);
    SortOrders(o', ApplyOrder(o, reverse), Where(rows, ps));
    QueryFindsWindow(o, rows, after, before, found);
    MirrorKeeps(o, w);
    ListIsUnique(o', found, if reverse then Mirror(w) else w);
  }

  // ---------------------------------------------------------------- Paginate

  /** The edges and the page info of the page that first or last asks for out of window w. */
  ghost predicate Shows(edges: seq<Edge>, info: PageInfo, w: seq<Todo>, first: Option<int>, last: Option<int>, f: Field)
    requires (first.Some? ==> 0 < first.value) && (last.Some? ==> 0 < last.value)
  {
    && EdgesShow(edges, Page(w, first, last), f)
    && (info.hasNext <==> first.Some? && first.value < |w|)
    && (info.hasPrevious <==> last.Some? && last.value < |w|)
    && info.start == (if edges == [] then None else Some(edges[0].cursor))
    && info.end == (if edges == [] then None else Some(edges[|edges| - 1].cursor))
  }

  /** One page. The order defaults to ascending ids; ask says what the query selects. */
  method Paginate(rows: seq<Todo>, after: Option<Cursor>, first: Option<int>, before: Option<Cursor>,
                  last: Option<int>, order: Option<Order>, ask: Selected) returns (r: Result)
    requires UniqueIds(rows)
    ensures r.Ok? <==>
            (first.None? || last.None?) && (first.Some? ==> 0 <= first.value) && (last.Some? ==> 0 <= last.value)
    ensures r == Err(BothGiven) <==> first.Some? && last.Some?
    ensures r == Err(NegativeFirst) <==> last.None? && first.Some? && first.value < 0
    ensures r == Err(NegativeLast) <==> first.None? && last.Some? && last.value < 0
    ensures r.Ok? && ask.totalCount ==> r.conn.total == |rows|
    ensures r.Ok? && !ask.totalCount ==>
              r.conn.total == if ask.edges && first != Some(0) && last != Some(0) then |r.conn.edges|
                              else if ask.pageInfo then |rows| else 0
    ensures r.Ok? && (!ask.edges || first == Some(0) || last == Some(0)) ==>
              && r.conn.edges == [] && r.conn.info.start.None? && r.conn.info.end.None?
              && r.conn.info.hasNext == ((ask.totalCount || ask.pageInfo) && first.Some? && rows != [])
              && r.conn.info.hasPrevious == ((ask.totalCount || ask.pageInfo) && last.Some? && rows != [])
    ensures r.Ok? && ask.edges && first != Some(0) && last != Some(0) ==>
              var o := if order.Some? then order.value else Order(Asc, ById);
              Shows(r.conn.edges, r.conn.info, Window(o, List(o, rows), after, before), first, last, o.field)
  {
    var invalid := ValidateFirstLast(first, last);
    if invalid.Some? {
      return Err(invalid.value);
    }
    var o := if order.Some? then order.value else DEFAULT_ORDER;
    var conn := Connection([], PageInfo(false, false, None, None), 0);
    if !ask.edges || first == Some(0) || last == Some(0) {
      if ask.totalCount || ask.pageInfo {
        var count := |rows|;
        conn := conn.(total := count,
                      info := PageInfo(first.Some? && count > 0, last.Some? && count > 0, None, None));
      }
      return Ok(conn);
    }
    if (after.Some? || first.Some? || before.Some? || last.Some?) && ask.totalCount {
      conn := conn.(total := |rows|);
    }
    var edges, info := FetchPage(rows, after, first, before, last, o);
    if after.None? && before.None? { WholeWindow(o, rows); }
    conn := conn.(edges := edges, info := info);
    if edges != [] && conn.total == 0 {
      conn := conn.(total := |edges|);
    }
    r := Ok(conn);
  }

  /** The part of Paginate that queries rows and fills in edges and page info. */
  method FetchPage(rows: seq<Todo>, after: Option<Cursor>, first: Option<int>, before: Option<Cursor>,
                   last: Option<int>, o: Order)
    returns (edges: seq<Edge>, info: PageInfo)
    requires UniqueIds(rows) && (first.None? || last.None?)
    requires (first.Some? ==> 0 < first.value) && (last.Some? ==> 0 < last.value)
    ensures Shows(edges, info, Window(o, List(o, rows), after, before), first, last, o.field)
  {
    var limit := if first.Some? then first.value + 1 else if last.Some? then last.value + 1 else 0;
    var found := Sort(Where(rows, CursorsToPredicates(o.direction, after, before, o.field)), ApplyOrder(o, last.Some?));
    var nodes := Limit(found, limit);
    QueryReturnsWindow(o, rows, after, before, last.Some?);
    TrimmedIsPage(Window(o, List(o, rows), after, before), first, last);
    info := PageInfo(false, false, None, None);
    if |nodes| == 0 {
      return [], info;
    }
    if |nodes| == limit {
      info := info.(hasNext := first.Some?, hasPrevious := last.Some?);
      nodes := nodes[..|nodes| - 1];
    }
    edges := ToEdges(nodes, last.Some?, o.field);
    info := info.(start := Some(edges[0].cursor), end := Some(edges[|edges| - 1].cursor));
  }

  method ToEdges(nodes: seq<Todo>, backward: bool, f: Field) returns (edges: seq<Edge>)
    ensures EdgesShow(edges, if backward then Mirror(nodes) else nodes, f)
  {
    edges := [];
    var n := |nodes| - 1;
    ghost var shown := if backward then Mirror(nodes) else nodes;
    assert |shown| == |nodes|;
    for i := 0 to |nodes|
      invariant EdgesShow(edges, shown[..i], f)
    {
      var node := if backward then nodes[n - i] else nodes[i];
      assert node == shown[i];
      edges := edges + [Edge(node, ToCursor(node, f))];
    }
  }

  /** Fetching one row more than the page, and dropping it, leaves the page. */
  lemma TrimmedIsPage(w: seq<Todo>, first: Option<int>, last: Option<int>)
    requires first.None? || last.None?
    requires (first.Some? ==> 0 < first.value) && (last.Some? ==> 0 < last.value)
    ensures var limit := if first.Some? then first.value + 1 else if last.Some? then last.value + 1 else 0;
            var nodes := Limit(if last.Some? then Mirror(w) else w, limit);
            var shown := if nodes != [] && |nodes| == limit then nodes[..|nodes| - 1] else nodes;
            && (if last.Some? then Mirror(shown) else shown) == Page(w, first, last)
            && (|nodes| == limit && nodes != [] <==> (first.Some? || last.Some?) && limit <= |w|)
  {
    if last.Some? {
      if last.value < |w| {
        assert Limit(Mirror(w), last.value + 1)[..last.value] == Mirror(w)[..last.value];
        MirrorOfFront(w, last.value);
      } else {
        MirrorOfFront(w, |w|);
        assert Mirror(w)[..|w|] == Mirror(w);
      }
    } else if first.Some? && first.value < |w| {
      assert Limit(w, first.value + 1)[..first.value] == w[..first.value];
    }
  }

  lemma MirrorOfFront(w: seq<Todo>, m: nat)
    requires m <= |w|
    ensures Mirror(Mirror(w)[..m]) == w[|w| - m..]
  {
    var front := Mirror(w)[..m];
    var a, b := Mirror(front), w[|w| - m..];
    assert forall k :: 0 <= k < m ==> a[k] == front[m - 1 - k] == b[k];
  }

  /** Without cursors the window is the whole list, which has as many rows as there are. */
  lemma {:induction false} WholeWindow(o: Order, rows: seq<Todo>)
    ensures Window(o, List(o, rows), None, None) == List(o, rows)
    ensures |List(o, rows)| == |rows|
  {
    WholeIsWindow(o, List(o, rows));
    SortKeepsLength(rows, ApplyOrder(o, false));
  }

  lemma {:induction false} WholeIsWindow(o: Order, list: seq<Todo>)
    ensures Window(o, list, None, None) == list
  {
    if list != [] {
      WholeIsWindow(o, list[1..]);
    }
  }

  lemma {:induction false} SortKeepsLength(rows: seq<Todo>, terms: seq<(Direction, Field)>)
    ensures |Sort(rows, terms)| == |rows|
  {
    if rows != [] {
      SortKeepsLength(rows[1..], terms);
      InsertKeepsLength(rows[0], Sort(rows[1..], terms), terms);
    }
  }

  lemma {:induction false} InsertKeepsLength(t: Todo, s: seq<Todo>, terms: seq<(Direction, Field)>)
    ensures |Insert(t, s, terms)| == |s| + 1
  {
    if s != [] {
      InsertKeepsLength(t, s[1..], terms);
    }
  }

  // ---------------------------------------------------------------- pages tile the list

  /** Rows of one list compare to a cursor taken from it as they compare to its row. */
  lemma CursorOfRow(o: Order, c: Todo, t: Todo)
    ensures Beyond(o, ToCursor(c, o.field), t) <==> Before(o, c, t)
    ensures ShortOf(o, ToCursor(c, o.field), t) <==> Before(o, t, c)
  {
  }

  /** The window after the cursor of row i is what follows row i, and likewise before. */
  lemma WindowAtRow(o: Order, list: seq<Todo>, i: nat)
    requires Ordered(o, list) && i < |list|
    ensures Window(o, list, Some(ToCursor(list[i], o.field)), None) == list[i + 1..]
    ensures Window(o, list, None, Some(ToCursor(list[i], o.field))) == list[..i]
  {
    var c := ToCursor(list[i], o.field);
    WindowKeeps(o, list, Some(c), None);
    WindowKeeps(o, list, None, Some(c));
    forall t
      ensures t in Window(o, list, Some(c), None) <==> t in list[i + 1..]
      ensures t in Window(o, list, None, Some(c)) <==> t in list[..i]
    {
      CursorOfRow(o, list[i], t);
      RowSides(o, list, i, t);
    }
    ListIsUnique(o, Window(o, list, Some(c), None), list[i + 1..]);
    ListIsUnique(o, Window(o, list, None, Some(c)), list[..i]);
  }

  lemma RowSides(o: Order, list: seq<Todo>, i: nat, t: Todo)
    requires Ordered(o, list) && i < |list|
    ensures t in list[i + 1..] <==> t in list && Before(o, list[i], t)
    ensures t in list[..i] <==> t in list && Before(o, t, list[i])
  {
    if t in list {
      var k :| 0 <= k < |list| && list[k] == t;
      if k < i {
        assert t == list[..i][k];
      } else if i < k {
        assert t == list[i + 1..][k - i - 1];
      }
    }
  }

  /** The answer of Paginate for first = n after the given cursor, without before. */
  ghost predicate ForwardPage(o: Order, list: seq<Todo>, after: Option<Cursor>, n: nat, conn: Connection)
    requires n > 0
  {
    Shows(conn.edges, conn.info, Window(o, list, after, None), Some(n), None, o.field)
  }

  ghost predicate BackwardPage(o: Order, list: seq<Todo>, before: Option<Cursor>, n: nat, conn: Connection)
    requires n > 0
  {
    Shows(conn.edges, conn.info, Window(o, list, None, before), None, Some(n), o.field)
  }

  /** The cursor that page k of a walk is asked for: the end, or start, of the page before. */
  function EndBefore(pages: seq<Connection>, k: nat): Option<Cursor>
    requires k <= |pages|
  {
    if k == 0 then None else pages[k - 1].info.end
  }

  function StartBefore(pages: seq<Connection>, k: nat): Option<Cursor>
    requires k <= |pages|
  {
    if k == 0 then None else pages[k - 1].info.start
  }

  /** pages is a walk: page after page, each from the end cursor of the one before, until there is
      no next page. */
  ghost predicate ForwardWalk(o: Order, list: seq<Todo>, n: nat, pages: seq<Connection>)
    requires n > 0
  {
    && pages != []
    && (forall k {:trigger EndBefore(pages, k)} :: 0 <= k < |pages| ==>
          ForwardPage(o, list, EndBefore(pages, k), n, pages[k]))
    && (forall k :: 0 <= k < |pages| ==> (pages[k].info.hasNext <==> k + 1 < |pages|))
  }

  ghost predicate BackwardWalk(o: Order, list: seq<Todo>, n: nat, pages: seq<Connection>)
    requires n > 0
  {
    && pages != []
    && (forall k {:trigger StartBefore(pages, k)} :: 0 <= k < |pages| ==>
          BackwardPage(o, list, StartBefore(pages, k), n, pages[k]))
    && (forall k :: 0 <= k < |pages| ==> (pages[k].info.hasPrevious <==> k + 1 < |pages|))
  }

  function Nodes(edges: seq<Edge>): (r: seq<Todo>)
    ensures |r| == |edges| && forall i :: 0 <= i < |edges| ==> r[i] == edges[i].node
  {
    seq(|edges|, i requires 0 <= i < |edges| => edges[i].node)
  }

  /** The rows of the pages from page k on, forwards and backwards. */
  function ForwardsFrom(pages: seq<Connection>, k: nat): seq<Todo>
    requires k <= |pages|
    decreases |pages| - k
  {
    if k == |pages| then [] else Nodes(pages[k].edges) + ForwardsFrom(pages, k + 1)
  }

  function BackwardsFrom(pages: seq<Connection>, k: nat): seq<Todo>
    requires k <= |pages|
    decreases |pages| - k
  {
    if k == |pages| then [] else BackwardsFrom(pages, k + 1) + Nodes(pages[k].edges)
  }

  function Forwards(pages: seq<Connection>): seq<Todo> {
    ForwardsFrom(pages, 0)
  }

  function Backwards(pages: seq<Connection>): seq<Todo> {
    BackwardsFrom(pages, 0)
  }

  /** The windows behind cursors of rows of the list; ahead those before them. */
  ghost predicate Behind(list: seq<Todo>, f: Field, win: Option<Cursor> -> seq<Todo>, i: nat)
    requires i < |list|
  {
    win(Some(ToCursor(list[i], f))) == list[i + 1..]
  }

  ghost predicate Ahead(list: seq<Todo>, f: Field, win: Option<Cursor> -> seq<Todo>, i: nat)
    requires i < |list|
  {
    win(Some(ToCursor(list[i], f))) == list[..i]
  }

  lemma PageOfWindow(conn: Connection, w: seq<Todo>, n: nat, f: Field)
    requires n > 0
    ensures Shows(conn.edges, conn.info, w, Some(n), None, f) ==>
              && Nodes(conn.edges) == (if n < |w| then w[..n] else w)
              && (conn.info.hasNext <==> n < |w|)
              && (n < |w| ==> conn.info.end == Some(ToCursor(w[n - 1], f)))
    ensures Shows(conn.edges, conn.info, w, None, Some(n), f) ==>
              && Nodes(conn.edges) == (if n < |w| then w[|w| - n..] else w)
              && (conn.info.hasPrevious <==> n < |w|)
              && (n < |w| ==> conn.info.start == Some(ToCursor(w[|w| - n], f)))
  {
    if Shows(conn.edges, conn.info, w, Some(n), None, f) {
      assert Nodes(conn.edges) == Page(w, Some(n), None);
    }
    if Shows(conn.edges, conn.info, w, None, Some(n), f) {
      assert Nodes(conn.edges) == Page(w, None, Some(n));
    }
  }

  lemma ForwardStep(list: seq<Todo>, f: Field, win: Option<Cursor> -> seq<Todo>, i: nat, n: nat, page: Connection)
    requires forall j {:trigger Behind(list, f, win, j)} :: 0 <= j < |list| ==> Behind(list, f, win, j)
    requires n > 0 && i <= |list| && Shows(page.edges, page.info, list[i..], Some(n), None, f)
    ensures page.info.hasNext <==> i + n < |list|
    ensures Nodes(page.edges) == if i + n < |list| then list[i..i + n] else list[i..]
    ensures i + n < |list| ==> win(page.info.end) == list[i + n..]
  {
    var w := list[i..];
    PageOfWindow(page, w, n, f);
    if i + n < |list| {
      assert Behind(list, f, win, i + n - 1);
      assert w[n - 1] == list[i + n - 1];
      assert w[..n] == list[i..i + n];
    }
  }

  lemma BackwardStep(list: seq<Todo>, f: Field, win: Option<Cursor> -> seq<Todo>, i: nat, n: nat, page: Connection)
    requires forall j {:trigger Ahead(list, f, win, j)} :: 0 <= j < |list| ==> Ahead(list, f, win, j)
    requires n > 0 && i <= |list| && Shows(page.edges, page.info, list[..i], None, Some(n), f)
    ensures page.info.hasPrevious <==> n < i
    ensures Nodes(page.edges) == if n < i then list[i - n..i] else list[..i]
    ensures n < i ==> win(page.info.start) == list[..i - n]
  {
    var w := list[..i];
    PageOfWindow(page, w, n, f);
    if n < i {
      assert Ahead(list, f, win, i - n);
      assert w[i - n] == list[i - n];
      assert w[i - n..] == list[i - n..i];
    }
  }

  /** The pages from page k on show slice after slice of n rows from position i on. */
  ghost predicate ForwardSlices(list: seq<Todo>, i: nat, n: nat, pages: seq<Connection>, k: nat)
    requires n > 0 && i <= |list|
    decreases |pages| - k
  {
    && k < |pages|
    && Nodes(pages[k].edges) == (if i + n < |list| then list[i..i + n] else list[i..])
    && if i + n < |list| then ForwardSlices(list, i + n, n, pages, k + 1) else k + 1 == |pages|
  }

  ghost predicate BackwardSlices(list: seq<Todo>, i: nat, n: nat, pages: seq<Connection>, k: nat)
    requires n > 0 && i <= |list|
    decreases |pages| - k
  {
    && k < |pages|
    && Nodes(pages[k].edges) == (if n < i then list[i - n..i] else list[..i])
    && if n < i then BackwardSlices(list, i - n, n, pages, k + 1) else k + 1 == |pages|
  }

  /** Page j of a walk answers the end cursor of the page before. */
  ghost predicate Follows(win: Option<Cursor> -> seq<Todo>, n: nat, f: Field, pages: seq<Connection>, j: nat)
    requires n > 0 && j < |pages|
  {
    Shows(pages[j].edges, pages[j].info, win(EndBefore(pages, j)), Some(n), None, f)
  }

  ghost predicate Precedes(win: Option<Cursor> -> seq<Todo>, n: nat, f: Field, pages: seq<Connection>, j: nat)
    requires n > 0 && j < |pages|
  {
    Shows(pages[j].edges, pages[j].info, win(StartBefore(pages, j)), None, Some(n), f)
  }

  lemma FollowStep(list: seq<Todo>, f: Field, win: Option<Cursor> -> seq<Todo>, i: nat, n: nat,
                   pages: seq<Connection>, k: nat)
    requires forall j {:trigger Behind(list, f, win, j)} :: 0 <= j < |list| ==> Behind(list, f, win, j)
    requires n > 0 && i <= |list| && k < |pages|
    requires win(EndBefore(pages, k)) == list[i..] && Follows(win, n, f, pages, k)
    ensures pages[k].info.hasNext <==> i + n < |list|
    ensures Nodes(pages[k].edges) == if i + n < |list| then list[i..i + n] else list[i..]
    ensures i + n < |list| ==> win(EndBefore(pages, k + 1)) == list[i + n..]
  {
    ForwardStep(list, f, win, i, n, pages[k]);
  }

  lemma PrecedeStep(list: seq<Todo>, f: Field, win: Option<Cursor> -> seq<Todo>, i: nat, n: nat,
                    pages: seq<Connection>, k: nat)
    requires forall j {:trigger Ahead(list, f, win, j)} :: 0 <= j < |list| ==> Ahead(list, f, win, j)
    requires n > 0 && i <= |list| && k < |pages|
    requires win(StartBefore(pages, k)) == list[..i] && Precedes(win, n, f, pages, k)
    ensures pages[k].info.hasPrevious <==> n < i
    ensures Nodes(pages[k].edges) == if n < i then list[i - n..i] else list[..i]
    ensures n < i ==> win(StartBefore(pages, k + 1)) == list[..i - n]
  {
    BackwardStep(list, f, win, i, n, pages[k]);
  }

  lemma {:induction false} ForwardWalkSlices(list: seq<Todo>, f: Field, win: Option<Cursor> -> seq<Todo>,
                                             i: nat, n: nat, pages: seq<Connection>, k: nat)
    requires forall j {:trigger Behind(list, f, win, j)} :: 0 <= j < |list| ==> Behind(list, f, win, j)
    requires n > 0 && i <= |list| && k < |pages| && win(EndBefore(pages, k)) == list[i..]
    requires forall j {:trigger Follows(win, n, f, pages, j)} :: 0 <= j < |pages| ==> Follows(win, n, f, pages, j)
    requires forall j :: 0 <= j < |pages| ==> (pages[j].info.hasNext <==> j + 1 < |pages|)
    ensures ForwardSlices(list, i, n, pages, k)
    decreases |pages| - k
  {
    FollowStep(list, f, win, i, n, pages, k);
    if i + n < |list| {
      ForwardWalkSlices(list, f, win, i + n, n, pages, k + 1);
    }
  }

  lemma {:induction false} BackwardWalkSlices(list: seq<Todo>, f: Field, win: Option<Cursor> -> seq<Todo>,
                                              i: nat, n: nat, pages: seq<Connection>, k: nat)
    requires forall j {:trigger Ahead(list, f, win, j)} :: 0 <= j < |list| ==> Ahead(list, f, win, j)
    requires n > 0 && i <= |list| && k < |pages| && win(StartBefore(pages, k)) == list[..i]
    requires forall j {:trigger Precedes(win, n, f, pages, j)} :: 0 <= j < |pages| ==> Precedes(win, n, f, pages, j)
    requires forall j :: 0 <= j < |pages| ==> (pages[j].info.hasPrevious <==> j + 1 < |pages|)
    ensures BackwardSlices(list, i, n, pages, k)
    decreases |pages| - k
  {
    PrecedeStep(list, f, win, i, n, pages, k);
    if n < i {
      BackwardWalkSlices(list, f, win, i - n, n, pages, k + 1);
    }
  }

  lemma {:induction false} ForwardSlicesJoin(list: seq<Todo>, i: nat, n: nat, pages: seq<Connection>, k: nat)
    requires n > 0 && i <= |list| && ForwardSlices(list, i, n, pages, k)
    ensures ForwardsFrom(pages, k) == list[i..]
    decreases |pages| - k
  {
    if i + n < |list| {
      ForwardSlicesJoin(list, i + n, n, pages, k + 1);
      Cut(list, i, i + n);
    }
  }

  lemma {:induction false} BackwardSlicesJoin(list: seq<Todo>, i: nat, n: nat, pages: seq<Connection>, k: nat)
    requires n > 0 && i <= |list| && BackwardSlices(list, i, n, pages, k)
    ensures BackwardsFrom(pages, k) == list[..i]
    decreases |pages| - k
  {
    if n < i {
      BackwardSlicesJoin(list, i - n, n, pages, k + 1);
      Cut(list, i - n, i);
    }
  }

  lemma Cut(list: seq<Todo>, i: nat, j: nat)
    requires i <= j <= |list|
    ensures list[i..] == list[i..j] + list[j..]
    ensures list[..j] == list[..i] + list[i..j]
  {
  }

  /** Walking forward with first = n, or backward with last = n, shows every filtered row exactly
      once, in the requested order. */
  lemma PagesTile(o: Order, rows: seq<Todo>, n: nat, pages: seq<Connection>)
    requires UniqueIds(rows) && n > 0
    ensures ForwardWalk(o, List(o, rows), n, pages) ==> IsList(o, Forwards(pages), rows)
    ensures BackwardWalk(o, List(o, rows), n, pages) ==> IsList(o, Backwards(pages), rows)
  {
    ListIsList(o, rows, List(o, rows));
    WholeWindow(o, rows);
    if ForwardWalk(o, List(o, rows), n, pages) {
      ForwardTiles(o, List(o, rows), n, pages);
    }
    if BackwardWalk(o, List(o, rows), n, pages) {
      BackwardTiles(o, List(o, rows), n, pages);
    }
  }

  lemma ForwardTiles(o: Order, list: seq<Todo>, n: nat, pages: seq<Connection>)
    requires Ordered(o, list) && Window(o, list, None, None) == list && n > 0 && ForwardWalk(o, list, n, pages)
    ensures Forwards(pages) == list
  {
    var win := c => Window(o, list, c, None);
    forall j: nat | j < |list|
      ensures Behind(list, o.field, win, j)
    {
      WindowAtRow(o, list, j);
    }
    forall k: nat | k < |pages|
      ensures Follows(win, n, o.field, pages, k)
    {
      assert ForwardPage(o, list, EndBefore(pages, k), n, pages[k]);
    }
    assert list[0..] == list;
    ForwardWalkSlices(list, o.field, win, 0, n, pages, 0);
    ForwardSlicesJoin(list, 0, n, pages, 0);
  }

  lemma BackwardTiles(o: Order, list: seq<Todo>, n: nat, pages: seq<Connection>)
    requires Ordered(o, list) && Window(o, list, None, None) == list && n > 0 && BackwardWalk(o, list, n, pages)
    ensures Backwards(pages) == list
  {
    var win := c => Window(o, list, None, c);
    forall j: nat | j < |list|
      ensures Ahead(list, o.field, win, j)
    {
      WindowAtRow(o, list, j);
    }
    forall k: nat | k < |pages|
      ensures Precedes(win, n, o.field, pages, k)
    {
      assert BackwardPage(o, list, StartBefore(pages, k), n, pages[k]);
    }
    assert list[..|list|] == list;
    BackwardWalkSlices(list, o.field, win, |list|, n, pages, 0);
    BackwardSlicesJoin(list, |list|, n, pages, 0);
  }

  /** A walk exists in either direction, and it is short: it has at most one page more than there are
      rows. */
  lemma WalkEnds(o: Order, rows: seq<Todo>, n: nat) returns (forwards: seq<Connection>, backwards: seq<Connection>)
    requires UniqueIds(rows) && n > 0
    ensures ForwardWalk(o, List(o, rows), n, forwards) && |forwards| <= |rows| + 1
    ensures BackwardWalk(o, List(o, rows), n, backwards) && |backwards| <= |rows| + 1
  {
    forwards := ForwardWalkEnds(o, rows, n);
    backwards := BackwardWalkEnds(o, rows, n);
  }

  lemma ForwardWalkEnds(o: Order, rows: seq<Todo>, n: nat) returns (pages: seq<Connection>)
    requires UniqueIds(rows) && n > 0
    ensures ForwardWalk(o, List(o, rows), n, pages) && |pages| <= |rows| + 1
  {
    var list := List(o, rows);
    ListIsList(o, rows, list);
    WholeWindow(o, rows);
    var win := c => Window(o, list, c, None);
    forall j: nat | j < |list|
      ensures Behind(list, o.field, win, j)
    {
      WindowAtRow(o, list, j);
    }
    pages := BuildWalk(list, o.field, win, n);
    forall k: nat | k < |pages|
      ensures ForwardPage(o, list, EndBefore(pages, k), n, pages[k])
    {
      assert Follows(win, n, o.field, pages, k);
    }
  }

  lemma BuildWalk(list: seq<Todo>, f: Field, win: Option<Cursor> -> seq<Todo>, n: nat) returns (pages: seq<Connection>)
    requires forall j {:trigger Behind(list, f, win, j)} :: 0 <= j < |list| ==> Behind(list, f, win, j)
    requires n > 0 && win(None) == list
    ensures 0 < |pages| <= |list| + 1 && Linked(win, n, f, pages)
    ensures forall j :: 0 <= j < |pages| ==> (pages[j].info.hasNext <==> j + 1 < |pages|)
  {
    var page := AnswerFor(list, n, f);
    assert list[0..] == list;
    assert Follows(win, n, f, [page], 0);
    pages := ContinueWalk(list, f, win, n, 0, [page]);
  }

  /** The pages so far make a walk up to the one that answers for the list from position i on. */
  lemma {:induction false} ContinueWalk(list: seq<Todo>, f: Field, win: Option<Cursor> -> seq<Todo>, n: nat, i: nat,
                                        before: seq<Connection>)
    returns (pages: seq<Connection>)
    requires forall j {:trigger Behind(list, f, win, j)} :: 0 <= j < |list| ==> Behind(list, f, win, j)
    requires n > 0 && i <= |list| && 0 < |before| <= i + 1 && Linked(win, n, f, before)
    requires win(EndBefore(before, |before| - 1)) == list[i..]
    requires forall j :: 0 <= j < |before| - 1 ==> before[j].info.hasNext
    ensures 0 < |pages| <= |list| + 1 && Linked(win, n, f, pages)
    ensures forall j :: 0 <= j < |pages| ==> (pages[j].info.hasNext <==> j + 1 < |pages|)
    decreases |list| - i
  {
    assert Follows(win, n, f, before, |before| - 1);
    FollowStep(list, f, win, i, n, before, |before| - 1);
    if i + n < |list| {
      var page := NextPage(win, n, f, before);
      pages := ContinueWalk(list, f, win, n, i + n, before + [page]);
    } else {
      pages := before;
    }
  }

  /** Each page answers the end cursor of the page before. */
  ghost predicate Linked(win: Option<Cursor> -> seq<Todo>, n: nat, f: Field, pages: seq<Connection>)
    requires n > 0
  {
    forall j {:trigger Follows(win, n, f, pages, j)} :: 0 <= j < |pages| ==> Follows(win, n, f, pages, j)
  }

  lemma NextPage(win: Option<Cursor> -> seq<Todo>, n: nat, f: Field, pages: seq<Connection>) returns (page: Connection)
    requires n > 0 && pages != [] && Linked(win, n, f, pages)
    ensures Linked(win, n, f, pages + [page])
  {
    page := AnswerFor(win(EndBefore(pages, |pages|)), n, f);
    var pages' := pages + [page];
    forall j: nat | j < |pages'|
      ensures Follows(win, n, f, pages', j)
    {
      assert j < |pages| ==> Follows(win, n, f, pages, j);
      assert EndBefore(pages', j) == EndBefore(pages, j);
    }
  }

  lemma BackwardWalkEnds(o: Order, rows: seq<Todo>, n: nat) returns (pages: seq<Connection>)
    requires UniqueIds(rows) && n > 0
    ensures BackwardWalk(o, List(o, rows), n, pages) && |pages| <= |rows| + 1
  {
    var list := List(o, rows);
    ListIsList(o, rows, list);
    WholeWindow(o, rows);
    var win := c => Window(o, list, None, c);
    forall j: nat | j < |list|
      ensures Ahead(list, o.field, win, j)
    {
      WindowAtRow(o, list, j);
    }
    pages := BuildBackwardWalk(list, o.field, win, n);
    forall k: nat | k < |pages|
      ensures BackwardPage(o, list, StartBefore(pages, k), n, pages[k])
    {
      assert Precedes(win, n, o.field, pages, k);
    }
  }

  lemma BuildBackwardWalk(list: seq<Todo>, f: Field, win: Option<Cursor> -> seq<Todo>, n: nat)
    returns (pages: seq<Connection>)
    requires forall j {:trigger Ahead(list, f, win, j)} :: 0 <= j < |list| ==> Ahead(list, f, win, j)
    requires n > 0 && win(None) == list
    ensures 0 < |pages| <= |list| + 1 && BackLinked(win, n, f, pages)
    ensures forall j :: 0 <= j < |pages| ==> (pages[j].info.hasPrevious <==> j + 1 < |pages|)
  {
    var page := BackwardAnswerFor(list, n, f);
    assert list[..|list|] == list;
    assert Precedes(win, n, f, [page], 0);
    pages := ContinueBackwardWalk(list, f, win, n, |list|, [page]);
  }

  /** The pages so far make a walk up to the one that answers for the first i rows of the list. */
  lemma {:induction false} ContinueBackwardWalk(list: seq<Todo>, f: Field, win: Option<Cursor> -> seq<Todo>, n: nat,
                                                i: nat, before: seq<Connection>)
    returns (pages: seq<Connection>)
    requires forall j {:trigger Ahead(list, f, win, j)} :: 0 <= j < |list| ==> Ahead(list, f, win, j)
    requires n > 0 && i <= |list| && 0 < |before| <= |list| - i + 1 && BackLinked(win, n, f, before)
    requires win(StartBefore(before, |before| - 1)) == list[..i]
    requires forall j :: 0 <= j < |before| - 1 ==> before[j].info.hasPrevious
    ensures 0 < |pages| <= |list| + 1 && BackLinked(win, n, f, pages)
    ensures forall j :: 0 <= j < |pages| ==> (pages[j].info.hasPrevious <==> j + 1 < |pages|)
    decreases i
  {
    assert Precedes(win, n, f, before, |before| - 1);
    PrecedeStep(list, f, win, i, n, before, |before| - 1);
    if n < i {
      var page := PreviousPage(win, n, f, before);
      pages := ContinueBackwardWalk(list, f, win, n, i - n, before + [page]);
    } else {
      pages := before;
    }
  }

  /** Each page answers the start cursor of the page before. */
  ghost predicate BackLinked(win: Option<Cursor> -> seq<Todo>, n: nat, f: Field, pages: seq<Connection>)
    requires n > 0
  {
    forall j {:trigger Precedes(win, n, f, pages, j)} :: 0 <= j < |pages| ==> Precedes(win, n, f, pages, j)
  }

  lemma PreviousPage(win: Option<Cursor> -> seq<Todo>, n: nat, f: Field, pages: seq<Connection>)
    returns (page: Connection)
    requires n > 0 && pages != [] && BackLinked(win, n, f, pages)
    ensures BackLinked(win, n, f, pages + [page])
  {
    page := BackwardAnswerFor(win(StartBefore(pages, |pages|)), n, f);
    var pages' := pages + [page];
    forall j: nat | j < |pages'|
      ensures Precedes(win, n, f, pages', j)
    {
      assert j < |pages| ==> Precedes(win, n, f, pages, j);
      assert StartBefore(pages', j) == StartBefore(pages, j);
    }
  }

  lemma BackwardAnswerFor(w: seq<Todo>, n: nat, f: Field) returns (conn: Connection)
    requires n > 0
    ensures Shows(conn.edges, conn.info, w, None, Some(n), f)
  {
    var nodes := Page(w, None, Some(n));
    var edges := seq(|nodes|, k requires 0 <= k < |nodes| => Edge(nodes[k], ToCursor(nodes[k], f)));
    conn := Connection(edges, PageInfo(false, n < |w|, if edges == [] then None else Some(edges[0].cursor),
                                       if edges == [] then None else Some(edges[|edges| - 1].cursor)), 0);
  }

  /** Paginate has an answer for any window. */
  lemma AnswerFor(w: seq<Todo>, n: nat, f: Field) returns (conn: Connection)
    requires n > 0
    ensures Shows(conn.edges, conn.info, w, Some(n), None, f)
  {
    var nodes := Page(w, Some(n), None);
    var edges := seq(|nodes|, k requires 0 <= k < |nodes| => Edge(nodes[k], ToCursor(nodes[k], f)));
    conn := Connection(edges, PageInfo(n < |w|, false, if edges == [] then None else Some(edges[0].cursor),
                                       if edges == [] then None else Some(edges[|edges| - 1].cursor)), 0);
  }

  // ---------------------------------------------------------------- the flags without edges

  /** The flag of a page of n rows, has-next for first and has-previous for last, when the query
      selects the page info: without edges, or for n = 0, no row is fetched. */
  predicate FlagShown(edges: bool, n: nat, rows: seq<Todo>, w: seq<Todo>) {
    if edges && n > 0 then n < |w| else rows != []
  }

  /** What Paginate answers. Under the guard the flag tells whether the window holds more than n rows;
      otherwise it tells whether there are rows at all, which without cursors is the same thing exactly
      if there are no rows or more than n. */
  method AskFlag(rows: seq<Todo>, after: Option<Cursor>, before: Option<Cursor>, n: nat, backward: bool,
                 order: Option<Order>, ask: Selected)
    returns (r: Result, flag: bool)
    requires UniqueIds(rows) && ask.pageInfo
    ensures r.Ok? && flag == if backward then r.conn.info.hasPrevious else r.conn.info.hasNext
    ensures var o := if order.Some? then order.value else Order(Asc, ById);
            var w := Window(o, List(o, rows), after, before);
            && flag == FlagShown(ask.edges, n, rows, w)
            && (ask.edges && n > 0 ==> (flag <==> n < |w|))
            && (!(ask.edges && n > 0) && after.None? && before.None? ==>
                  ((flag <==> n < |w|) <==> rows == [] || n < |rows|))
  {
    var first, last := if backward then None else Some(n), if backward then Some(n) else None;
    r := Paginate(rows, after, first, before, last, order, ask);
    flag := if backward then r.conn.info.hasPrevious else r.conn.info.hasNext;
    ghost var o := if order.Some? then order.value else Order(Asc, ById);
    if ask.edges && n > 0 {
      assert Shows(r.conn.edges, r.conn.info, Window(o, List(o, rows), after, before), first, last, o.field);
    } else {
      assert flag == (rows != []);
      if after.None? && before.None? {
        WholeWindow(o, rows);
      }
    }
  }

  /** The flag is right for all rows, orders and cursors. */
  ghost predicate FlagRight(edges: bool, n: nat) {
    forall rows, o: Order, after, before {:trigger Window(o, List(o, rows), after, before)} :: UniqueIds(rows) ==>
      var w := Window(o, List(o, rows), after, before); FlagShown(edges, n, rows, w) <==> n < |w|
  }

  /** A caller can trust the flag if and only if it selects the edges and asks for at least one row. */
  lemma FlagWithoutEdges(edges: bool, n: nat)
    ensures FlagRight(edges, n) <==> edges && n > 0
  {
    var row := Todo(1, 0, 0, 0, 0);
    var o, c := DEFAULT_ORDER, ToCursor(row, ById);
    ListIsList(o, [row], [row]);
    WindowAtRow(o, [row], 0);
    WholeWindow(o, [row]);
    assert [row][1..] == [] && UniqueIds([row]);
    var after := if n == 0 then Some(c) else None;
    assert |Window(o, List(o, [row]), after, None)| == if n == 0 then 0 else 1;
  }

  /** One row, asked for its first five without edges: the flag promises a next page. */
  method FlagMisleads() returns (r: Result)
    ensures r.Ok? && r.conn.info.hasNext
    ensures var row := Todo(1, 0, 0, 0, 0);
            |Window(DEFAULT_ORDER, List(DEFAULT_ORDER, [row]), None, None)| == 1
  {
    WholeWindow(DEFAULT_ORDER, [Todo(1, 0, 0, 0, 0)]);
    r := Paginate([Todo(1, 0, 0, 0, 0)], None, Some(5), None, None, None, Selected(false, true, false));
  }
}
