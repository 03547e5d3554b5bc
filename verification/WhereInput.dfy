/** The filter compiler of the todo example: TodoWhereInput.P and UserWhereInput.P turn a tree of
    optional conditions into a predicate. The two kinds of input refer to each other through the
    owner and todos edges.
 */
module WhereInput {
  import opened Options

  datatype Result<T> = Ok(value: T) | Empty {
    predicate IsFailure() { Empty? }
    function PropagateFailure<U>(): Result<U> requires Empty? { Empty }
    function Extract(): T requires Ok? { value }
  }

  datatype Value = Int(n: int) | Text(s: string) | Time(t: int)

  /** A scalar condition of an input: a pointer, set or nil, or a list, which counts as set unless
      it is empty. */
  datatype Scalar =
    | One(field: string, op: string, arg: Option<Value>)
    | Many(field: string, op: string, args: seq<Value>)
  {
    predicate Set() { if One? then arg.Some? else args != [] }
    function Test(): Pred { Field(field, op, if Many? then args else if arg.Some? then [arg.value] else []) }
  }

  datatype TodoWhereInput = TodoWhereInput(
    not: Option<TodoWhereInput>, or: seq<TodoWhereInput>, and: seq<TodoWhereInput>, scalars: seq<Scalar>,
    hasChildren: Option<bool>, hasChildrenWith: seq<TodoWhereInput>,
    hasParent: Option<bool>, hasParentWith: seq<TodoWhereInput>,
    hasOwner: Option<bool>, hasOwnerWith: seq<UserWhereInput>)

  datatype UserWhereInput = UserWhereInput(
    not: Option<UserWhereInput>, or: seq<UserWhereInput>, and: seq<UserWhereInput>, scalars: seq<Scalar>,
    hasTodos: Option<bool>, hasTodosWith: seq<TodoWhereInput>)

  datatype Edge = Children | Parent | Owner | Todos

  /** Compiled predicates, on todos and on users alike. */
  datatype Pred =
    | Field(field: string, op: string, args: seq<Value>)
    | Not(p: Pred)
    | And(ps: seq<Pred>)
    | Or(ps: seq<Pred>)
    | Has(edge: Edge)
    | HasWith(edge: Edge, ps: seq<Pred>)

  datatype Row = Todo(id: int) | User(id: int)

  /** edges holds the neighbours of each row, facts the field tests that are true of it: any tests,
      so what follows holds for every meaning of the operators on fields. */
  datatype Db = Db(ghost edges: iset<(Edge, Row, Row)>, ghost facts: iset<(Row, Pred)>)

  // ---------------------------------------------------------------- what predicates mean

  ghost predicate Eval(db: Db, p: Pred, r: Row)
    decreases p
  {
    match p
    case Field(_, _, _) => (r, p) in db.facts
    case Not(q) => !Eval(db, q, r)
    case And(ps) => forall k :: 0 <= k < |ps| ==> Eval(db, ps[k], r)
    case Or(ps) => exists k :: 0 <= k < |ps| && Eval(db, ps[k], r)
    case Has(edge) => exists s :: (edge, r, s) in db.edges
    case HasWith(edge, ps) => exists s :: (edge, r, s) in db.edges && forall k :: 0 <= k < |ps| ==> Eval(db, ps[k], s)
  }

  ghost predicate AllOf(db: Db, ps: seq<Pred>, r: Row) {
    forall k :: 0 <= k < |ps| ==> Eval(db, ps[k], r)
  }

  // ---------------------------------------------------------------- what inputs mean

  /** A pointer that is not nil asks for the field test with its operand, a list that is not empty for
      the one with all its operands. */
  ghost predicate Asks(db: Db, x: Scalar, r: Row) {
    match x
    case One(field, op, arg) => arg.Some? ==> (r, Field(field, op, [arg.value])) in db.facts
    case Many(field, op, args) => args != [] ==> (r, Field(field, op, args)) in db.facts
  }

  ghost predicate ScalarsHold(db: Db, scalars: seq<Scalar>, r: Row) {
    forall k :: 0 <= k < |scalars| ==> Asks(db, scalars[k], r)
  }

  ghost predicate EdgeIs(db: Db, edge: Edge, has: Option<bool>, r: Row) {
    has.Some? ==> (has.value <==> exists s :: (edge, r, s) in db.edges)
  }

  /** A row satisfies an input if it satisfies every condition that is set. */
  ghost predicate TodoMeans(db: Db, i: TodoWhereInput, r: Row)
    decreases i
  {
    && (i.not.Some? ==> !TodoMeans(db, i.not.value, r))
    && (i.or == [] || exists k :: 0 <= k < |i.or| && TodoMeans(db, i.or[k], r))
    && (forall k :: 0 <= k < |i.and| ==> TodoMeans(db, i.and[k], r))
    && ScalarsHold(db, i.scalars, r)
    && EdgeIs(db, Children, i.hasChildren, r)
    && (i.hasChildrenWith == [] ||
        (exists s ::
           && (Children, r, s) in db.edges
           && forall k :: 0 <= k < |i.hasChildrenWith| ==> TodoMeans(db, i.hasChildrenWith[k], s)))
    && EdgeIs(db, Parent, i.hasParent, r)
    && (i.hasParentWith == [] ||
        (exists s ::
           && (Parent, r, s) in db.edges
           && forall k :: 0 <= k < |i.hasParentWith| ==> TodoMeans(db, i.hasParentWith[k], s)))
    && EdgeIs(db, Owner, i.hasOwner, r)
    && (i.hasOwnerWith == [] ||
        (exists s ::
           && (Owner, r, s) in db.edges
           && forall k :: 0 <= k < |i.hasOwnerWith| ==> UserMeans(db, i.hasOwnerWith[k], s)))
  }

  ghost predicate UserMeans(db: Db, i: UserWhereInput, r: Row)
    decreases i
  {
    && (i.not.Some? ==> !UserMeans(db, i.not.value, r))
    && (i.or == [] || exists k :: 0 <= k < |i.or| && UserMeans(db, i.or[k], r))
    && (forall k :: 0 <= k < |i.and| ==> UserMeans(db, i.and[k], r))
    && ScalarsHold(db, i.scalars, r)
    && EdgeIs(db, Todos, i.hasTodos, r)
    && (i.hasTodosWith == [] ||
        (exists s ::
           && (Todos, r, s) in db.edges
           && forall k :: 0 <= k < |i.hasTodosWith| ==> TodoMeans(db, i.hasTodosWith[k], s)))
  }

  predicate AsksNothing(x: Scalar) {
    match x
    case One(_, _, arg) => arg == None
    case Many(_, _, args) => args == []
  }

  predicate AnySet(scalars: seq<Scalar>) {
    exists k :: 0 <= k < |scalars| && !AsksNothing(scalars[k])
  }

  /** Every input in the tree carries some condition. */
  predicate TodoFilled(i: TodoWhereInput)
    decreases i
  {
    && (|| i.not.Some? || i.or != [] || i.and != [] || AnySet(i.scalars)
        || i.hasChildren.Some? || i.hasChildrenWith != [] || i.hasParent.Some? || i.hasParentWith != []
        || i.hasOwner.Some? || i.hasOwnerWith != [])
    && (i.not.Some? ==> TodoFilled(i.not.value))
    && (forall k :: 0 <= k < |i.or| ==> TodoFilled(i.or[k]))
    && (forall k :: 0 <= k < |i.and| ==> TodoFilled(i.and[k]))
    && (forall k :: 0 <= k < |i.hasChildrenWith| ==> TodoFilled(i.hasChildrenWith[k]))
    && (forall k :: 0 <= k < |i.hasParentWith| ==> TodoFilled(i.hasParentWith[k]))
    && (forall k :: 0 <= k < |i.hasOwnerWith| ==> UserFilled(i.hasOwnerWith[k]))
  }

  predicate UserFilled(i: UserWhereInput)
    decreases i
  {
    && (|| i.not.Some? || i.or != [] || i.and != [] || AnySet(i.scalars) || i.hasTodos.Some? || i.hasTodosWith != [])
    && (i.not.Some? ==> UserFilled(i.not.value))
    && (forall k :: 0 <= k < |i.or| ==> UserFilled(i.or[k]))
    && (forall k :: 0 <= k < |i.and| ==> UserFilled(i.and[k]))
    && (forall k :: 0 <= k < |i.hasTodosWith| ==> TodoFilled(i.hasTodosWith[k]))
  }

  ghost predicate TodoSame(p: Pred, i: TodoWhereInput) {
    forall db, r {:trigger Eval(db, p, r)} {:trigger TodoMeans(db, i, r)} :: Eval(db, p, r) <==> TodoMeans(db, i, r)
  }

  ghost predicate UserSame(p: Pred, i: UserWhereInput) {
    forall db, r {:trigger Eval(db, p, r)} {:trigger UserMeans(db, i, r)} :: Eval(db, p, r) <==> UserMeans(db, i, r)
  }

  // ---------------------------------------------------------------- the pieces of P

  /** None, the one, or the Or of many. */
  function AnyOf(ps: seq<Pred>): seq<Pred> {
    if |ps| == 0 then [] else if |ps| == 1 then [ps[0]] else [Or(ps)]
  }

  function AndOf(ps: seq<Pred>): seq<Pred> {
    if |ps| == 0 then [] else if |ps| == 1 then [ps[0]] else [And(ps)]
  }

  function EdgePred(edge: Edge, has: Option<bool>): seq<Pred> {
    if has.None? then [] else if has.value then [Has(edge)] else [Not(Has(edge))]
  }

  function EdgeWith(edge: Edge, ps: seq<Pred>): seq<Pred> {
    if ps == [] then [] else [HasWith(edge, ps)]
  }

  lemma Pieces(db: Db, ps: seq<Pred>, r: Row)
    ensures AllOf(db, AnyOf(ps), r) <==> ps == [] || exists k :: 0 <= k < |ps| && Eval(db, ps[k], r)
    ensures AllOf(db, AndOf(ps), r) <==> AllOf(db, ps, r)
  {
    assert |ps| == 1 ==> AnyOf(ps)[0] == ps[0];
    assert |ps| > 1 ==> AnyOf(ps)[0] == Or(ps) && AndOf(ps)[0] == And(ps);
  }

  lemma EdgePieces(db: Db, edge: Edge, has: Option<bool>, ps: seq<Pred>, r: Row)
    ensures AllOf(db, EdgePred(edge, has), r) <==> EdgeIs(db, edge, has, r)
    ensures AllOf(db, EdgeWith(edge, ps), r) <==> ps == [] || exists s :: (edge, r, s) in db.edges && AllOf(db, ps, s)
  {
    assert has.Some? ==> EdgePred(edge, has)[0] == if has.value then Has(edge) else Not(Has(edge));
    assert Eval(db, Not(Has(edge)), r) <==> !Eval(db, Has(edge), r);
    assert ps != [] ==> EdgeWith(edge, ps)[0] == HasWith(edge, ps);
    assert Eval(db, HasWith(edge, ps), r) <==> exists s :: (edge, r, s) in db.edges && AllOf(db, ps, s);
  }

  lemma AllOfBoth(db: Db, ps: seq<Pred>, qs: seq<Pred>, r: Row)
    ensures AllOf(db, ps + qs, r) <==> AllOf(db, ps, r) && AllOf(db, qs, r)
  {
    var both := ps + qs;
    assert forall k :: 0 <= k < |ps| ==> both[k] == ps[k];
    assert forall k :: 0 <= k < |qs| ==> both[|ps| + k] == qs[k];
  }

  method Scalars(scalars: seq<Scalar>) returns (ps: seq<Pred>)
    ensures ps == [] <==> !AnySet(scalars)
    ensures forall db, r :: AllOf(db, ps, r) <==> ScalarsHold(db, scalars, r)
  {
    ps := [];
    for k := 0 to |scalars|
      invariant ps == [] <==> !AnySet(scalars[..k])
      invariant forall db, r :: AllOf(db, ps, r) <==> ScalarsHold(db, scalars[..k], r)
    {
      ghost var before, done := ps, scalars[..k];
      assert scalars[..k + 1] == done + [scalars[k]];
      if scalars[k].Set() {
        ps := ps + [scalars[k].Test()];
        assert !AsksNothing((done + [scalars[k]])[k]);
      }
      forall db, r
        ensures AllOf(db, ps, r) <==> ScalarsHold(db, scalars[..k + 1], r)
      {
        assert AllOf(db, before, r) <==> ScalarsHold(db, done, r);
        OneMoreScalar(db, done, scalars[k], r);
        AllOfBoth(db, before, [scalars[k].Test()], r);
        assert [scalars[k].Test()][0] == scalars[k].Test();
      }
    }
    assert scalars[..|scalars|] == scalars;
  }

  lemma OneMoreScalar(db: Db, done: seq<Scalar>, x: Scalar, r: Row)
    ensures ScalarsHold(db, done + [x], r) <==> ScalarsHold(db, done, r) && Asks(db, x, r)
    ensures Asks(db, x, r) <==> (x.Set() ==> (r, x.Test()) in db.facts)
    ensures AnySet(done + [x]) <==> AnySet(done) || x.Set()
  {
    var more := done + [x];
    assert forall k :: 0 <= k < |done| ==> more[k] == done[k];
    assert more[|done|] == x;
  }

  // ---------------------------------------------------------------- P

  ghost predicate TodosSame(ps: seq<Pred>, inputs: seq<TodoWhereInput>) {
    |ps| == |inputs| && forall k :: 0 <= k < |ps| ==> TodoSame(ps[k], inputs[k])
  }

  ghost predicate UsersSame(ps: seq<Pred>, inputs: seq<UserWhereInput>) {
    |ps| == |inputs| && forall k :: 0 <= k < |ps| ==> UserSame(ps[k], inputs[k])
  }

  method TodoList(inputs: seq<TodoWhereInput>) returns (r: Result<seq<Pred>>)
    ensures r.Ok? <==> forall k :: 0 <= k < |inputs| ==> TodoFilled(inputs[k])
    ensures r.Ok? ==> TodosSame(r.value, inputs)
    decreases inputs, 1
  {
    var ps := [];
    for k := 0 to |inputs|
      invariant |ps| == k
      invariant forall j :: 0 <= j < k ==> TodoFilled(inputs[j]) && TodoSame(ps[j], inputs[j])
    {
      var p :- TodoP(inputs[k]);
      ps := ps + [p];
    }
    r := Ok(ps);
  }

  method UserList(inputs: seq<UserWhereInput>) returns (r: Result<seq<Pred>>)
    ensures r.Ok? <==> forall k :: 0 <= k < |inputs| ==> UserFilled(inputs[k])
    ensures r.Ok? ==> UsersSame(r.value, inputs)
    decreases inputs, 1
  {
    var ps := [];
    for k := 0 to |inputs|
      invariant |ps| == k
      invariant forall j :: 0 <= j < k ==> UserFilled(inputs[j]) && UserSame(ps[j], inputs[j])
    {
      var p :- UserP(inputs[k]);
      ps := ps + [p];
    }
    r := Ok(ps);
  }

  lemma TodosMean(db: Db, ps: seq<Pred>, inputs: seq<TodoWhereInput>, r: Row)
    requires TodosSame(ps, inputs)
    ensures AllOf(db, ps, r) <==> forall k :: 0 <= k < |inputs| ==> TodoMeans(db, inputs[k], r)
    ensures (exists k :: 0 <= k < |ps| && Eval(db, ps[k], r)) <==>
            exists k :: 0 <= k < |inputs| && TodoMeans(db, inputs[k], r)
  {
    forall k | 0 <= k < |ps|
      ensures Eval(db, ps[k], r) <==> TodoMeans(db, inputs[k], r)
    {
      assert TodoSame(ps[k], inputs[k]);
    }
  }

  lemma UsersMean(db: Db, ps: seq<Pred>, inputs: seq<UserWhereInput>, r: Row)
    requires UsersSame(ps, inputs)
    ensures AllOf(db, ps, r) <==> forall k :: 0 <= k < |inputs| ==> UserMeans(db, inputs[k], r)
    ensures (exists k :: 0 <= k < |ps| && Eval(db, ps[k], r)) <==>
            exists k :: 0 <= k < |inputs| && UserMeans(db, inputs[k], r)
  {
    forall k | 0 <= k < |ps|
      ensures Eval(db, ps[k], r) <==> UserMeans(db, inputs[k], r)
    {
      assert UserSame(ps[k], inputs[k]);
    }
  }

  lemma NotPiece(db: Db, p: Pred, r: Row)
    ensures AllOf(db, [Not(p)], r) <==> !Eval(db, p, r)
  {
    assert [Not(p)][0] == Not(p);
  }

  lemma TodosWith(db: Db, edge: Edge, has: Option<bool>, ps: seq<Pred>, inputs: seq<TodoWhereInput>, r: Row)
    requires TodosSame(ps, inputs)
    ensures AllOf(db, EdgePred(edge, has) + EdgeWith(edge, ps), r) <==>
            && EdgeIs(db, edge, has, r)
            && (inputs == [] ||
                exists s :: (edge, r, s) in db.edges && forall k :: 0 <= k < |inputs| ==> TodoMeans(db, inputs[k], s))
  {
    AllOfBoth(db, EdgePred(edge, has), EdgeWith(edge, ps), r);
    EdgePieces(db, edge, has, ps, r);
    forall s
      ensures AllOf(db, ps, s) <==> forall k :: 0 <= k < |inputs| ==> TodoMeans(db, inputs[k], s)
    {
      TodosMean(db, ps, inputs, s);
    }
  }

  lemma UsersWith(db: Db, edge: Edge, has: Option<bool>, ps: seq<Pred>, inputs: seq<UserWhereInput>, r: Row)
    requires UsersSame(ps, inputs)
    ensures AllOf(db, EdgePred(edge, has) + EdgeWith(edge, ps), r) <==>
            && EdgeIs(db, edge, has, r)
            && (inputs == [] ||
                exists s :: (edge, r, s) in db.edges && forall k :: 0 <= k < |inputs| ==> UserMeans(db, inputs[k], s))
  {
    AllOfBoth(db, EdgePred(edge, has), EdgeWith(edge, ps), r);
    EdgePieces(db, edge, has, ps, r);
    forall s
      ensures AllOf(db, ps, s) <==> forall k :: 0 <= k < |inputs| ==> UserMeans(db, inputs[k], s)
    {
      UsersMean(db, ps, inputs, s);
    }
  }

  /** The last switch of P. */
  function Joined(ps: seq<Pred>): Result<Pred> {
    if |ps| == 0 then Empty else if |ps| == 1 then Ok(ps[0]) else Ok(And(ps))
  }

  lemma JoinedMeans(db: Db, ps: seq<Pred>, r: Row)
    requires ps != []
    ensures Eval(db, Joined(ps).value, r) <==> AllOf(db, ps, r)
  {
  }

  /** The conditions of an input that do not go along an edge. */
  ghost predicate TodoOwnHold(db: Db, i: TodoWhereInput, r: Row) {
    && (i.not.Some? ==> !TodoMeans(db, i.not.value, r))
    && (i.or == [] || exists k :: 0 <= k < |i.or| && TodoMeans(db, i.or[k], r))
    && (forall k :: 0 <= k < |i.and| ==> TodoMeans(db, i.and[k], r))
    && ScalarsHold(db, i.scalars, r)
  }

  lemma TodoOwn(db: Db, i: TodoWhereInput, no: seq<Pred>, or: seq<Pred>, and: seq<Pred>, scalars: seq<Pred>, r: Row)
    requires if i.not.Some? then |no| == 1 && no[0].Not? && TodoSame(no[0].p, i.not.value) else no == []
    requires TodosSame(or, i.or) && TodosSame(and, i.and)
    requires AllOf(db, scalars, r) <==> ScalarsHold(db, i.scalars, r)
    ensures AllOf(db, no + AnyOf(or) + AndOf(and) + scalars, r) <==> TodoOwnHold(db, i, r)
  {
    if i.not.Some? {
      assert no == [Not(no[0].p)];
      NotPiece(db, no[0].p, r);
    }
    AllOfBoth(db, no, AnyOf(or), r);
    AllOfBoth(db, no + AnyOf(or), AndOf(and), r);
    AllOfBoth(db, no + AnyOf(or) + AndOf(and), scalars, r);
    Pieces(db, or, r);
    Pieces(db, and, r);
    TodosMean(db, or, i.or, r);
    TodosMean(db, and, i.and, r);
  }

  ghost predicate UserOwnHold(db: Db, i: UserWhereInput, r: Row) {
    && (i.not.Some? ==> !UserMeans(db, i.not.value, r))
    && (i.or == [] || exists k :: 0 <= k < |i.or| && UserMeans(db, i.or[k], r))
    && (forall k :: 0 <= k < |i.and| ==> UserMeans(db, i.and[k], r))
    && ScalarsHold(db, i.scalars, r)
  }

  lemma UserOwn(db: Db, i: UserWhereInput, no: seq<Pred>, or: seq<Pred>, and: seq<Pred>, scalars: seq<Pred>, r: Row)
    requires if i.not.Some? then |no| == 1 && no[0].Not? && UserSame(no[0].p, i.not.value) else no == []
    requires UsersSame(or, i.or) && UsersSame(and, i.and)
    requires AllOf(db, scalars, r) <==> ScalarsHold(db, i.scalars, r)
    ensures AllOf(db, no + AnyOf(or) + AndOf(and) + scalars, r) <==> UserOwnHold(db, i, r)
  {
    if i.not.Some? {
      assert no == [Not(no[0].p)];
      NotPiece(db, no[0].p, r);
    }
    AllOfBoth(db, no, AnyOf(or), r);
    AllOfBoth(db, no + AnyOf(or), AndOf(and), r);
    AllOfBoth(db, no + AnyOf(or) + AndOf(and), scalars, r);
    Pieces(db, or, r);
    Pieces(db, and, r);
    UsersMean(db, or, i.or, r);
    UsersMean(db, and, i.and, r);
  }

  lemma TodoConditions(db: Db, i: TodoWhereInput, own: seq<Pred>, children: seq<Pred>, parent: seq<Pred>,
                       owner: seq<Pred>, r: Row)
    requires AllOf(db, own, r) <==> TodoOwnHold(db, i, r)
    requires TodosSame(children, i.hasChildrenWith) && TodosSame(parent, i.hasParentWith)
    requires UsersSame(owner, i.hasOwnerWith)
    ensures var ps := own + (EdgePred(Children, i.hasChildren) + EdgeWith(Children, children))
                      + (EdgePred(Parent, i.hasParent) + EdgeWith(Parent, parent))
                      + (EdgePred(Owner, i.hasOwner) + EdgeWith(Owner, owner));
            AllOf(db, ps, r) <==> TodoMeans(db, i, r)
  {
    var first := own + (EdgePred(Children, i.hasChildren) + EdgeWith(Children, children));
    var second := first + (EdgePred(Parent, i.hasParent) + EdgeWith(Parent, parent));
    AllOfBoth(db, own, EdgePred(Children, i.hasChildren) + EdgeWith(Children, children), r);
    AllOfBoth(db, first, EdgePred(Parent, i.hasParent) + EdgeWith(Parent, parent), r);
    AllOfBoth(db, second, EdgePred(Owner, i.hasOwner) + EdgeWith(Owner, owner), r);
    TodosWith(db, Children, i.hasChildren, children, i.hasChildrenWith, r);
    TodosWith(db, Parent, i.hasParent, parent, i.hasParentWith, r);
    UsersWith(db, Owner, i.hasOwner, owner, i.hasOwnerWith, r);
  }

  lemma UserConditions(db: Db, i: UserWhereInput, own: seq<Pred>, todos: seq<Pred>, r: Row)
    requires AllOf(db, own, r) <==> UserOwnHold(db, i, r)
    requires TodosSame(todos, i.hasTodosWith)
    ensures AllOf(db, own + (EdgePred(Todos, i.hasTodos) + EdgeWith(Todos, todos)), r) <==> UserMeans(db, i, r)
  {
    AllOfBoth(db, own, EdgePred(Todos, i.hasTodos) + EdgeWith(Todos, todos), r);
    TodosWith(db, Todos, i.hasTodos, todos, i.hasTodosWith, r);
  }

  /** It succeeds exactly when every input in the tree carries a condition, and the predicate then
      holds of a row exactly when the row satisfies every condition that is set. */
  method TodoP(i: TodoWhereInput) returns (r: Result<Pred>)
    ensures r.Ok? <==> TodoFilled(i)
    ensures r.Ok? ==> TodoSame(r.value, i)
    decreases i, 0
  {
    var ps := [];
    if i.not.Some? {
      var p :- TodoP(i.not.value);
      ps := ps + [Not(p)];
      assert TodoSame(p, i.not.value);
    }
    ghost var no := ps;
    var or :- TodoList(i.or);
    ps := ps + AnyOf(or);
    var and :- TodoList(i.and);
    ps := ps + AndOf(and);
    var scalars := Scalars(i.scalars);
    ps := ps + scalars;
    ghost var own := ps;
    var children :- TodoList(i.hasChildrenWith);
    ps := ps + (EdgePred(Children, i.hasChildren) + EdgeWith(Children, children));
    var parent :- TodoList(i.hasParentWith);
    ps := ps + (EdgePred(Parent, i.hasParent) + EdgeWith(Parent, parent));
    var owner :- UserList(i.hasOwnerWith);
    ps := ps + (EdgePred(Owner, i.hasOwner) + EdgeWith(Owner, owner));
    r := Joined(ps);
    if r.Ok? {
      forall db, row
        ensures Eval(db, r.value, row) <==> TodoMeans(db, i, row)
      {
        TodoOwn(db, i, no, or, and, scalars, row);
        TodoConditions(db, i, own, children, parent, owner, row);
        JoinedMeans(db, ps, row);
      }
    }
  }

  method UserP(i: UserWhereInput) returns (r: Result<Pred>)
    ensures r.Ok? <==> UserFilled(i)
    ensures r.Ok? ==> UserSame(r.value, i)
    decreases i, 0
  {
    var ps := [];
    if i.not.Some? {
      var p :- UserP(i.not.value);
      ps := ps + [Not(p)];
      assert UserSame(p, i.not.value);
    }
    ghost var no := ps;
    var or :- UserList(i.or);
    ps := ps + AnyOf(or);
    var and :- UserList(i.and);
    ps := ps + AndOf(and);
    var scalars := Scalars(i.scalars);
    ps := ps + scalars;
    ghost var own := ps;
    var todos :- TodoList(i.hasTodosWith);
    ps := ps + (EdgePred(Todos, i.hasTodos) + EdgeWith(Todos, todos));
    r := Joined(ps);
    if r.Ok? {
      forall db, row
        ensures Eval(db, r.value, row) <==> UserMeans(db, i, row)
      {
        UserOwn(db, i, no, or, and, scalars, row);
        UserConditions(db, i, own, todos, row);
        JoinedMeans(db, ps, row);
      }
    }
  }
}
