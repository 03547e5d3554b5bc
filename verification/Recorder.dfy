/** Taping database rows into a cache entry and replaying them. The point is aliasing: a byte slice
    that the database driver hands out lives in a buffer that the next row overwrites, and a stored
    entry is shared by every reader of the cache. Byte slices are therefore heap arrays here.
 */
module Recorder {
  import opened Options

  datatype Value = Scalar(n: int) | Bytes(b: array<int>)

  /** What a value shows: the thing itself, without its place in memory. */
  datatype Content = Number(n: int) | Text(bytes: seq<int>)

  /** v lies in the memory mem and shows c. */
  ghost predicate Shows(v: Value, c: Content, mem: set<array<int>>)
    reads mem
  {
    match v
    case Scalar(n) => c == Number(n)
    case Bytes(b) => b in mem && c == Text(b[..])
  }

  ghost predicate ShowsRow(row: seq<Value>, contents: seq<Content>, mem: set<array<int>>)
    reads mem
  {
    |row| == |contents| && forall i :: 0 <= i < |row| ==> Shows(row[i], contents[i], mem)
  }

  ghost predicate ShowsRows(rows: seq<seq<Value>>, contents: seq<seq<Content>>, mem: set<array<int>>)
    reads mem
  {
    |rows| == |contents| && forall i :: 0 <= i < |rows| ==> ShowsRow(rows[i], contents[i], mem)
  }

  method Look(v: Value) returns (c: Content)
    ensures c == match v case Scalar(n) => Number(n) case Bytes(b) => Text(b[..])
  {
    c := match v case Scalar(n) => Number(n) case Bytes(b) => Text(b[..]);
  }

  method CopyOf(bytes: seq<int>) returns (b: array<int>)
    ensures fresh(b) && b[..] == bytes
  {
    b := new int[|bytes|];
    for i := 0 to |bytes|
      invariant b[..i] == bytes[..i]
    {
      b[i] := bytes[i];
    }
  }

  /** The rows of the database driver. Next overwrites the buffers behind the row before. */
  class Rows {
    const names: seq<string>
    const table: seq<seq<Content>>
    const broken: bool
    const closeFails: bool
    var pos: nat
    var ended: bool
    var cells: seq<Value>
    ghost var buffers: set<array<int>>

    ghost predicate Valid()
      reads this, buffers
    {
      && pos <= |table| && (ended ==> pos == |table|)
      && (pos > 0 && !ended ==> ShowsRow(cells, table[pos - 1], buffers))
      && forall v :: v in cells && v.Bytes? ==> v.b in buffers
    }

    constructor (names: seq<string>, table: seq<seq<Content>>, broken: bool, closeFails: bool)
      ensures Valid() && pos == 0 && !ended && buffers == {}
      ensures this.names == names && this.table == table && this.broken == broken && this.closeFails == closeFails
    {
      this.names, this.table, this.broken, this.closeFails := names, table, broken, closeFails;
      this.pos, this.ended, this.cells, this.buffers := 0, false, [], {};
    }

    /** Whether the stream ended in an error. */
    function Err(): bool
      reads this
    {
      ended && broken
    }

    method Next() returns (more: bool)
      requires Valid()
      modifies this, buffers
      ensures Valid() && fresh(buffers - old(buffers))
      ensures more <==> old(pos) < |table| && !old(ended)
      ensures if more then pos == old(pos) + 1 && !ended else pos == old(pos) && ended
    {
      Scribble();
      if ended {
        return false;
      }
      if pos == |table| {
        ended := true;
        return false;
      }
      Fill(table[pos]);
      pos := pos + 1;
      more := true;
    }

    /** The buffers of the current row are reused for something else. */
    method Scribble()
      requires forall v :: v in cells && v.Bytes? ==> v.b in buffers
      modifies this, buffers
      ensures cells == [] && buffers == old(buffers) && pos == old(pos) && ended == old(ended)
    {
      for i := 0 to |cells|
        invariant cells == old(cells) && buffers == old(buffers) && pos == old(pos) && ended == old(ended)
      {
        if cells[i].Bytes? {
          var b := cells[i].b;
          for j := 0 to b.Length
            invariant cells == old(cells) && buffers == old(buffers) && pos == old(pos) && ended == old(ended)
          {
            b[j] := 0;
          }
        }
      }
      cells := [];
    }

    method Fill(contents: seq<Content>)
      modifies `cells, `buffers
      ensures ShowsRow(cells, contents, buffers) && fresh(buffers - old(buffers))
    {
      cells := [];
      for i := 0 to |contents|
        invariant ShowsRow(cells, contents[..i], buffers) && fresh(buffers - old(buffers))
      {
        match contents[i]
        case Number(n) => cells := cells + [Scalar(n)];
        case Text(bytes) =>
          var b := CopyOf(bytes);
          buffers := buffers + {b};
          cells := cells + [Bytes(b)];
      }
    }
  }

  /** The scan destination of the recorder: it fills one slot after the other, and copies bytes. */
  class RawCopy {
    const values: array<Value>
    var at: nat

    constructor (values: array<Value>)
      ensures this.values == values && at == 0
    {
      this.values, this.at := values, 0;
    }

    method Scan(src: Value, ghost c: Content, ghost mem: set<array<int>>) returns (ghost copied: set<array<int>>)
      requires at < values.Length && Shows(src, c, mem)
      modifies this, values
      ensures at == old(at) + 1
      ensures forall i :: 0 <= i < values.Length && i != old(at) ==> values[i] == old(values[i])
      ensures fresh(copied) && Shows(values[old(at)], c, copied)
    {
      var copy := src;
      copied := {};
      if src.Bytes? {
        var b := CopyOf(src.b[..]);
        copy := Bytes(b);
        copied := {b};
      }
      values[at] := copy;
      at := at + 1;
    }
  }

  /** One shared destination, scanned into once per column. */
  method CopyCells(cells: seq<Value>, ghost contents: seq<Content>, ghost mem: set<array<int>>)
    returns (row: seq<Value>, ghost copied: set<array<int>>)
    requires ShowsRow(cells, contents, mem)
    ensures fresh(copied) && ShowsRow(row, contents, copied)
  {
    var values := new Value[|cells|](i => Scalar(0));
    var c := new RawCopy(values);
    copied := {};
    for i := 0 to |cells|
      invariant c.at == i && fresh(c) && fresh(values) && fresh(copied)
      invariant forall k :: 0 <= k < i ==> Shows(values[k], contents[k], copied)
    {
      ghost var more := c.Scan(cells[i], contents[i], mem);
      copied := copied + more;
    }
    row := values[..];
  }

  /** Hands a row to the consumer's destinations, column by column, up to one that does not take it. */
  method Assign(row: seq<Value>, unassignable: Option<nat>, ghost contents: seq<Content>, ghost mem: set<array<int>>)
    returns (ok: bool, dest: seq<Content>)
    requires ShowsRow(row, contents, mem)
    ensures ok <==> !(unassignable.Some? && unassignable.value < |row|)
    ensures ok ==> dest == contents
  {
    dest := [];
    for i := 0 to |row|
      invariant dest == contents[..i]
      invariant unassignable.Some? ==> i <= unassignable.value
    {
      if unassignable == Some(i) {
        return false, dest;
      }
      assert Shows(row[i], contents[i], mem);
      var c := Look(row[i]);
      dest := dest + [c];
    }
    ok := true;
  }

  /** A stored entry; every reader of the cache gets this same object. shown is what its rows show,
      in the memory mem. */
  class Entry {
    var columns: seq<string>
    var values: seq<seq<Value>>
    ghost var shown: seq<seq<Content>>
    ghost var mem: set<array<int>>

    ghost predicate Valid()
      reads this, mem
    {
      ShowsRows(values, shown, mem)
    }

    constructor (columns: seq<string>, values: seq<seq<Value>>, ghost shown: seq<seq<Content>>,
                 ghost mem: set<array<int>>)
      requires ShowsRows(values, shown, mem)
      ensures Valid() && this.columns == columns && this.values == values && this.shown == shown && this.mem == mem
    {
      this.columns, this.values, this.shown, this.mem := columns, values, shown, mem;
    }
  }

  /** What a query did to the cache and to the lock, in order. */
  datatype Event = Stored(entry: Entry) | Released

  class Journal {
    var events: seq<Event>

    constructor ()
      ensures events == []
    {
      events := [];
    }
  }

  class Recorder {
    const scanner: Rows
    const journal: Journal
    const skipNotFound: bool
    var values: seq<seq<Value>>
    var columns: seq<string>
    var done: bool
    var held: bool

    /** What the taped rows show, and the memory they lie in. */
    ghost var tape: seq<seq<Content>>
    ghost var kept: set<array<int>>

    /** No taped byte slice lies in a buffer of the driver. */
    ghost predicate Valid()
      reads this, scanner, scanner.buffers, kept
    {
      scanner.Valid() && ShowsRows(values, tape, kept) && kept !! scanner.buffers
    }

    constructor (scanner: Rows, journal: Journal, skipNotFound: bool, held: bool)
      requires scanner.Valid()
      ensures Valid() && tape == [] && kept == {} && columns == [] && !done && this.held == held
      ensures this.scanner == scanner && this.journal == journal && this.skipNotFound == skipNotFound
    {
      this.scanner, this.journal, this.skipNotFound := scanner, journal, skipNotFound;
      this.values, this.columns, this.done, this.held := [], [], false, held;
      this.tape, this.kept := [], {};
    }

    method Next() returns (more: bool)
      requires Valid()
      modifies this`done, scanner, scanner.buffers
      ensures Valid() && done == !more && fresh(scanner.buffers - old(scanner.buffers))
      ensures more <==> old(scanner.pos) < |scanner.table| && !old(scanner.ended)
      ensures if more then scanner.pos == old(scanner.pos) + 1 && !scanner.ended
              else scanner.pos == old(scanner.pos) && scanner.ended
    {
      more := scanner.Next();
      done := !more;
    }

    /** The names of the columns are recorded only when the consumer asks for them. */
    method Columns(fails: bool) returns (ok: bool, names: seq<string>)
      requires Valid()
      modifies `columns
      ensures Valid() && ok == !fails && names == (if ok then scanner.names else [])
      ensures columns == if ok then scanner.names else old(columns)
    {
      if fails {
        return false, [];
      }
      columns := scanner.names;
      return true, columns;
    }

    /** unassignable is the column whose value the consumer's destination does not take, if any. */
    method Scan(scanFails: bool, unassignable: Option<nat>) returns (ok: bool, dest: seq<Content>)
      requires Valid() && scanner.pos > 0 && !scanner.ended
      modifies this`values, this`tape, this`kept
      ensures Valid() && fresh(kept - old(kept))
      ensures ok <==> !scanFails && !(unassignable.Some? && unassignable.value < |scanner.cells|)
      ensures !ok ==> values == old(values) && tape == old(tape)
      ensures ok ==> dest == scanner.table[scanner.pos - 1] && tape == old(tape) + [scanner.table[scanner.pos - 1]]
    {
      if scanFails {
        return false, [];
      }
      ghost var contents := scanner.table[scanner.pos - 1];
      var row, copied := CopyCells(scanner.cells, contents, scanner.buffers);
      ok, dest := Assign(row, unassignable, contents, copied);
      if ok {
        values := values + [row];
        tape, kept := tape + [contents], kept + copied;
      }
    }

    /** The release comes last, and at most once. */
    method Close() returns (ok: bool, stored: Option<Entry>)
      requires Valid()
      modifies this`held, journal
      ensures Valid() && !held && ok == !scanner.closeFails
      ensures stored.Some? <==> !scanner.closeFails && (!scanner.Err() || done) && !(skipNotFound && |tape| == 0)
      ensures stored.Some? <==> Stores()
      ensures stored.Some? ==> fresh(stored.value) && stored.value.Valid() && stored.value.columns == columns
                               && stored.value.shown == tape && stored.value.mem == kept
      ensures journal.events == old(journal.events)
                                + (if stored.Some? then [Stored(stored.value)] else [])
                                + (if old(held) then [Released] else [])
    {
      var release := held;
      held := false;
      stored := None;
      ok := !scanner.closeFails;
      if ok && (!scanner.Err() || done) && !(skipNotFound && |values| == 0) {
        var e := new Entry(columns, values, tape, kept);
        journal.events := journal.events + [Stored(e)];
        stored := Some(e);
      }
      if release {
        journal.events := journal.events + [Released];
      }
    }

    /** When Close stores: the rows closed well, there was no error or the stream was drained, and
        there is something to store or empty results are stored too. */
    ghost predicate Stores()
      reads this, scanner
    {
      !scanner.closeFails && (!scanner.Err() || done) && !(skipNotFound && values == [])
    }
  }

  class Repeater {
    var columns: seq<string>
    var values: seq<seq<Value>>

    constructor (e: Entry)
      ensures values == e.values && columns == e.columns
    {
      columns, values := e.columns, e.values;
    }

    predicate Next()
      reads this
    {
      |values| > 0
    }

    method Scan(unassignable: Option<nat>, ghost shown: seq<seq<Content>>, ghost mem: set<array<int>>)
      returns (ok: bool, dest: seq<Content>)
      requires ShowsRows(values, shown, mem)
      modifies this`values
      ensures ok <==> old(Next()) && !(unassignable.Some? && unassignable.value < |old(values)[0]|)
      ensures ok ==> dest == shown[0] && values == old(values)[1..]
      ensures !ok ==> values == old(values)
    {
      if !Next() {
        return false, [];
      }
      ok, dest := Assign(values[0], unassignable, shown[0], mem);
      if ok {
        values := values[1..];
      }
    }
  }

  // ---------------------------------------------------------------- the round trip

  /** What becomes of a consumer's Scan: it takes the row, the driver's scan fails, or the value of a
      column does not fit its destination. */
  datatype Try = Takes | DbFails | Unfit(column: nat)

  predicate Succeeds(t: Try, row: seq<Content>) {
    t.Takes? || (t.Unfit? && t.column >= |row|)
  }

  /** Those of the first n rows whose Scan succeeds, and their positions. */
  function Taken(table: seq<seq<Content>>, plan: seq<Try>, n: nat): seq<seq<Content>>
    requires n <= |table| && n <= |plan|
  {
    if n == 0 then []
    else Taken(table, plan, n - 1) + if Succeeds(plan[n - 1], table[n - 1]) then [table[n - 1]] else []
  }

  function Positions(table: seq<seq<Content>>, plan: seq<Try>, n: nat): seq<nat>
    requires n <= |table| && n <= |plan|
  {
    if n == 0 then []
    else Positions(table, plan, n - 1) + if Succeeds(plan[n - 1], table[n - 1]) then [n - 1] else []
  }

  /** No failed Scan comes before one that succeeds. */
  ghost predicate NoHole(table: seq<seq<Content>>, plan: seq<Try>, n: nat)
    requires n <= |table| && n <= |plan|
  {
    forall i, j :: 0 <= i < j < n && Succeeds(plan[j], table[j]) ==> Succeeds(plan[i], table[i])
  }

  lemma {:induction false} PositionsMean(table: seq<seq<Content>>, plan: seq<Try>, n: nat)
    requires n <= |table| && n <= |plan|
    ensures var at := Positions(table, plan, n);
            && (forall m :: 0 <= m < |at| ==> at[m] < n)
            && (forall l, m :: 0 <= l < m < |at| ==> at[l] < at[m])
            && (forall j: nat :: j in at <==> j < n && Succeeds(plan[j], table[j]))
  {
    if n > 0 {
      PositionsMean(table, plan, n - 1);
    }
  }

  ghost predicate Picks(tape: seq<seq<Content>>, table: seq<seq<Content>>, at: seq<nat>) {
    |tape| == |at| && forall m :: 0 <= m < |at| ==> at[m] < |table| && tape[m] == table[at[m]]
  }

  /** What is taped is a subsequence of the rows: those whose Scan succeeded, each once, in order. */
  lemma {:induction false} TakenIsSubsequence(table: seq<seq<Content>>, plan: seq<Try>, n: nat)
    requires n <= |table| && n <= |plan|
    ensures Picks(Taken(table, plan, n), table, Positions(table, plan, n))
  {
    if n > 0 {
      TakenIsSubsequence(table, plan, n - 1);
      PicksMore(Taken(table, plan, n - 1), table, Positions(table, plan, n - 1), n - 1);
    }
  }

  lemma PicksMore(tape: seq<seq<Content>>, table: seq<seq<Content>>, at: seq<nat>, k: nat)
    requires Picks(tape, table, at) && k < |table|
    ensures Picks(tape + [table[k]], table, at + [k])
  {
  }

  ghost predicate AllSucceed(table: seq<seq<Content>>, plan: seq<Try>, n: nat)
    requires n <= |table| && n <= |plan|
  {
    forall j :: 0 <= j < n ==> Succeeds(plan[j], table[j])
  }

  lemma HoleStep(table: seq<seq<Content>>, plan: seq<Try>, n: nat)
    requires 0 < n <= |table| && n <= |plan|
    ensures NoHole(table, plan, n) <==>
            if Succeeds(plan[n - 1], table[n - 1]) then AllSucceed(table, plan, n - 1) else NoHole(table, plan, n - 1)
  {
  }

  /** The positions are the first ones. */
  ghost predicate Front(at: seq<nat>) {
    forall m :: 0 <= m < |at| ==> at[m] == m
  }

  lemma FrontStep(at: seq<nat>, k: nat)
    ensures Front(at + [k]) <==> Front(at) && |at| == k
  {
    var more := at + [k];
    assert more[|at|] == k;
    assert forall m :: 0 <= m < |at| ==> more[m] == at[m];
  }

  lemma {:induction false} FrontIffNoHole(table: seq<seq<Content>>, plan: seq<Try>, n: nat)
    requires n <= |table| && n <= |plan|
    ensures |Positions(table, plan, n)| <= n
    ensures |Positions(table, plan, n)| == n <==> AllSucceed(table, plan, n)
    ensures NoHole(table, plan, n) <==> Front(Positions(table, plan, n))
  {
    if n > 0 {
      FrontIffNoHole(table, plan, n - 1);
      HoleStep(table, plan, n);
      assert AllSucceed(table, plan, n - 1) ==> NoHole(table, plan, n - 1);
      var at := Positions(table, plan, n - 1);
      FrontStep(at, n - 1);
      assert at + [] == at;
    }
  }

  /** The taped rows are a prefix of the database rows if no failed Scan comes before one that
      succeeds, and only then if the rows differ from each other. */
  lemma PrefixIffNoHole(table: seq<seq<Content>>, plan: seq<Try>, n: nat)
    requires n <= |table| && n <= |plan|
    ensures var tape := Taken(table, plan, n);
            && |tape| <= n
            && (NoHole(table, plan, n) ==> tape == table[..|tape|])
            && ((forall i, j :: 0 <= i < j < |table| ==> table[i] != table[j]) && tape == table[..|tape|] ==>
                  NoHole(table, plan, n))
            && (|tape| == |table| <==> n == |table| && AllSucceed(table, plan, n))
  {
    TakenIsSubsequence(table, plan, n);
    PositionsMean(table, plan, n);
    FrontIffNoHole(table, plan, n);
  }

  /** A consumer with any outcome for each of its Scans: it asks for the columns at first, or does not,
      scans once after each true Next, goes on after a failed Scan or stops wherever its plan ends, and
      closes. A store holds exactly the rows whose Scan succeeded, in memory of its own, under the names of
      the columns if they were asked for, and under none otherwise. It happens unless the rows close badly
      or there is nothing in it and empty results are skipped: a row stream that ends in an error is stored
      too. */
  method Consume(rec: Recorder, asks: bool, plan: seq<Try>) returns (stored: Option<Entry>)
    requires rec.Valid() && rec.tape == [] && rec.columns == [] && !rec.done
    requires rec.scanner.pos == 0 && !rec.scanner.ended
    modifies rec, rec.scanner, rec.scanner.buffers, rec.journal
    ensures rec.Valid()
    ensures var tape := Taken(rec.scanner.table, plan, Seen(rec.scanner.table, plan));
            && (stored.Some? <==> !rec.scanner.closeFails && !(rec.skipNotFound && tape == []))
            && (stored.Some? ==>
                  && stored.value.Valid() && stored.value.shown == tape && stored.value.mem !! rec.scanner.buffers
                  && stored.value.columns == if asks then rec.scanner.names else [])
  {
    if asks {
      var _, _ := rec.Columns(false);
    }
    ReadRows(rec, plan);
    var _, entry := rec.Close();
    stored := entry;
  }

  /** The number of rows that the consumer gets to. */
  function Seen(table: seq<seq<Content>>, plan: seq<Try>): nat {
    if |plan| < |table| then |plan| else |table|
  }

  method ReadRows(rec: Recorder, plan: seq<Try>)
    requires rec.Valid() && rec.tape == [] && rec.scanner.pos == 0 && !rec.scanner.ended && !rec.done
    modifies rec`done, rec`values, rec`tape, rec`kept, rec.scanner, rec.scanner.buffers
    ensures rec.Valid() && fresh(rec.scanner.buffers - old(rec.scanner.buffers))
    ensures rec.tape == Taken(rec.scanner.table, plan, Seen(rec.scanner.table, plan))
    ensures rec.done == rec.scanner.ended == (|plan| > |rec.scanner.table|)
  {
    for k := 0 to |plan|
      invariant rec.Valid() && fresh(rec.scanner.buffers - old(rec.scanner.buffers))
      invariant rec.scanner.pos == k <= |rec.scanner.table| && !rec.scanner.ended && !rec.done
      invariant rec.tape == Taken(rec.scanner.table, plan, k)
    {
      var more := rec.Next();
      if !more {
        return;
      }
      var ok, dest := rec.Scan(plan[k].DbFails?, if plan[k].Unfit? then Some(plan[k].column) else None);
    }
  }

  /** A hole: the first of two rows does not fit, the consumer goes on, and the entry shows the second
      row alone. */
  method StoresAHole() returns (stored: Option<Entry>)
    ensures stored.Some? && stored.value.shown == [[Number(2)]]
  {
    var rows := new Rows(["n"], [[Number(1)], [Number(2)]], false, false);
    var journal := new Journal();
    var rec := new Recorder(rows, journal, false, false);
    stored := Consume(rec, true, [Unfit(0), Takes, Takes]);
    assert Taken(rows.table, [Unfit(0), Takes, Takes], 1) == [];
  }

  /** Reads an entry back to its end. Nothing but the repeater changes, so the shared entry stays. */
  method Replay(e: Entry) returns (names: seq<string>, rows: seq<seq<Content>>)
    requires e.Valid()
    ensures names == e.columns && rows == e.shown
  {
    var r := new Repeater(e);
    names, rows := r.columns, [];
    while r.Next()
      invariant fresh(r) && |rows| <= |e.values| && r.values == e.values[|rows|..] && rows == e.shown[..|rows|]
      decreases |r.values|
    {
      var ok, dest := r.Scan(None, e.shown[|rows|..], e.mem);
      rows := rows + [dest];
    }
  }
}
