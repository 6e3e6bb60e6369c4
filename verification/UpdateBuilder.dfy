/** The builder of UPDATE statements from a map of extra columns: a map is
    traversed in no fixed order, yet the numbered placeholders always meet their
    arguments and the statement always means the same row update. */
module UpdateBuilder {
  import opened Status

  /** Columns of the orders table; the others are told apart by position. */
  datatype Column = STATUS | UPDATED_AT | KEY | Other(position: nat)

  /** Column values are only stored and compared. */
  datatype Value = Null | NonNull(v: int)

  type Record = map<Column, Value>

  /** `col = $k` or `col = now()`. */
  datatype SetPart = Param(col: Column, k: nat) | Now(col: Column)

  /** UPDATE orders SET sets WHERE third_order_no = $id [AND status = $guard]. */
  datatype Update = Update(sets: seq<SetPart>, id: nat, guard: Option<nat>)

  datatype Effect = SqlError | Updated(table: seq<Record>)

  // ---------------------------------------------------------------- what a statement means

  predicate Bound(k: nat, args: seq<Value>) {
    1 <= k <= |args|
  }

  predicate PartBound(p: SetPart, args: seq<Value>) {
    p.Param? ==> Bound(p.k, args)
  }

  predicate AllBound(sets: seq<SetPart>, args: seq<Value>) {
    forall i :: 0 <= i < |sets| ==> PartBound(sets[i], args)
  }

  /** SQL refuses unbound placeholders and a column assigned twice. */
  predicate WellFormed(u: Update, args: seq<Value>) {
    && Bound(u.id, args) && (u.guard.Some? ==> Bound(u.guard.value, args))
    && AllBound(u.sets, args)
    && (forall i, j :: 0 <= i < j < |u.sets| ==> u.sets[i].col != u.sets[j].col)
  }

  function Assign(r: Record, sets: seq<SetPart>, args: seq<Value>, now: Value): Record
    requires AllBound(sets, args)
  {
    if sets == [] then r else
    var last := sets[|sets| - 1];
    assert PartBound(last, args);
    Assign(r, sets[..|sets| - 1], args, now)[last.col := ValueOf(last, args, now)]
  }

  function ValueOf(p: SetPart, args: seq<Value>, now: Value): Value
    requires PartBound(p, args)
  {
    if p.Param? then args[p.k - 1] else now
  }

  predicate Selected(r: Record, id: Value, guard: Option<Value>) {
    KEY in r && r[KEY] == id && (guard.Some? ==> STATUS in r && r[STATUS] == guard.value)
  }

  function Interpret(u: Update, args: seq<Value>, table: seq<Record>, now: Value): Effect {
    if !WellFormed(u, args) then SqlError else
    var guard := if u.guard.Some? then Some(args[u.guard.value - 1]) else None;
    Updated(seq(|table|, i requires 0 <= i < |table| =>
      if Selected(table[i], args[u.id - 1], guard) then Assign(table[i], u.sets, args, now) else table[i]))
  }

  /** The row a caller asks for. */
  function Wanted(r: Record, fields: Record, status: Value, now: Value): Record {
    r + fields + map[STATUS := status, UPDATED_AT := now]
  }

  /** The update of a table a caller asks for. */
  function Direct(table: seq<Record>, id: Value, guard: Option<Value>, status: Value, fields: Record, now: Value): seq<Record> {
    seq(|table|, i requires 0 <= i < |table| =>
      if Selected(table[i], id, guard) then Wanted(table[i], fields, status, now) else table[i])
  }

  // ---------------------------------------------------------------- the builder

  /** One traversal of a map: every key once, in any order. */
  ghost predicate Traverses(order: seq<Column>, fields: Record) {
    && (forall c :: c in order <==> c in fields) && |order| == |fields|
    && (forall i, j :: 0 <= i < j < |order| ==> order[i] != order[j])
  }

  /** The parts for the first columns of a traversal. */
  ghost predicate PartsFor(sets: seq<SetPart>, args: seq<Value>, order: seq<Column>, fields: Record, status: Value, n: nat)
    requires n <= |order| && forall c :: c in order ==> c in fields
  {
    && |sets| == n + 2 && |args| == n + 1
    && sets[0] == Param(STATUS, 1) && sets[1] == Now(UPDATED_AT) && args[0] == status
    && forall j :: 0 <= j < n ==> sets[j + 2] == Param(order[j], j + 2) && args[j + 1] == fields[order[j]]
  }

  method SetParts(status: Value, fields: Record, order: seq<Column>) returns (sets: seq<SetPart>, args: seq<Value>, i: nat)
    requires Traverses(order, fields)
    ensures PartsFor(sets, args, order, fields, status, |order|) && i == |args| + 1
  {
    sets, args, i := [Param(STATUS, 1), Now(UPDATED_AT)], [status], 2;
    for n := 0 to |order|
      invariant PartsFor(sets, args, order, fields, status, n) && i == n + 2
    {
      sets := sets + [Param(order[n], i)];
      args := args + [fields[order[n]]];
      i := i + 1;
    }
  }

  /** Whether no caller column collides with the two the builder sets itself. */
  predicate NoCollision(fields: Record) {
    STATUS !in fields && UPDATED_AT !in fields
  }

  function Meaning(table: seq<Record>, id: Value, guard: Option<Value>, status: Value, fields: Record, now: Value): Effect {
    if NoCollision(fields) then Updated(Direct(table, id, guard, status, fields, now)) else SqlError
  }

  /** For every field map and every traversal of it, the statement means the
      direct update of the row, on every table; it is refused exactly when a
      caller column collides. The empty map takes the simple statement. */
  method UpdateStatusAndFields(id: Value, status: Value, fields: Record, order: seq<Column>) returns (u: Update, args: seq<Value>)
    requires Traverses(order, fields)
    ensures forall table, now :: Interpret(u, args, table, now) == Meaning(table, id, None, status, fields, now)
    ensures |args| == |order| + 2 && Binds(u, args, status, fields) && args[u.id - 1] == id
  {
    if |fields| == 0 {
      u, args := Update([Param(STATUS, 1), Now(UPDATED_AT)], 2, None), [status, id];
      assert PartsFor(u.sets, args[..1], order, fields, status, 0);
    } else {
      var sets, i;
      sets, args, i := SetParts(status, fields, order);
      args := args + [id];
      u := Update(sets, i, None);
    }
    BuiltMeans(u, args, status, fields, order);
    forall table, now ensures Interpret(u, args, table, now) == Meaning(table, id, None, status, fields, now) {
      BuiltInterprets(u, args, status, fields, order, table, now);
    }
  }

  /** The same for the conditional statement. */
  method UpdateStatusGuardedAndFields(id: Value, expected: Value, status: Value, fields: Record, order: seq<Column>)
      returns (u: Update, args: seq<Value>)
    requires Traverses(order, fields)
    ensures forall table, now :: Interpret(u, args, table, now) == Meaning(table, id, Some(expected), status, fields, now)
    ensures |args| == |order| + 3 && Binds(u, args, status, fields) && args[u.id - 1] == id
    ensures u.guard.Some? && Bound(u.guard.value, args) && args[u.guard.value - 1] == expected
  {
    if |fields| == 0 {
      u, args := Update([Param(STATUS, 1), Now(UPDATED_AT)], 2, Some(3)), [status, id, expected];
      assert PartsFor(u.sets, args[..1], order, fields, status, 0);
    } else {
      var sets, i;
      sets, args, i := SetParts(status, fields, order);
      args := args + [id, expected];
      u := Update(sets, i, Some(i + 1));
    }
    BuiltMeans(u, args, status, fields, order);
    forall table, now ensures Interpret(u, args, table, now) == Meaning(table, id, Some(expected), status, fields, now) {
      BuiltInterprets(u, args, status, fields, order, table, now);
    }
  }

  /** Each placeholder of a column meets that column's value. */
  predicate Binds(u: Update, args: seq<Value>, status: Value, fields: Record) {
    && Bound(u.id, args)
    && forall j :: 0 <= j < |u.sets| && u.sets[j].Param? ==>
         Bound(u.sets[j].k, args) &&
         (if j == 0 then u.sets[j].col == STATUS && args[u.sets[j].k - 1] == status
          else u.sets[j].col in fields && args[u.sets[j].k - 1] == fields[u.sets[j].col])
  }

  // ---------------------------------------------------------------- why

  ghost predicate Built(u: Update, args: seq<Value>, status: Value, fields: Record, order: seq<Column>) {
    && Traverses(order, fields) && |args| > |order|
    && PartsFor(u.sets, args[..|order| + 1], order, fields, status, |order|)
    && Bound(u.id, args) && (u.guard.Some? ==> Bound(u.guard.value, args))
  }

  lemma BuiltMeans(u: Update, args: seq<Value>, status: Value, fields: Record, order: seq<Column>)
    requires Built(u, args, status, fields, order)
    ensures Binds(u, args, status, fields)
    ensures WellFormed(u, args) <==> NoCollision(fields)
  {
    var n := |order|;
    assert forall j :: 0 <= j < n ==> u.sets[j + 2] == Param(order[j], j + 2) && args[j + 1] == args[..n + 1][j + 1];
    forall j | 2 <= j < |u.sets| ensures u.sets[j] == Param(order[j - 2], j) && args[j - 1] == fields[order[j - 2]] {
      assert u.sets[(j - 2) + 2] == Param(order[j - 2], j - 2 + 2);
    }
    if !NoCollision(fields) {
      var c := if STATUS in fields then STATUS else UPDATED_AT;
      assert c in order;
      var j :| 0 <= j < n && order[j] == c;
      assert u.sets[if c == STATUS then 0 else 1].col == u.sets[j + 2].col;
    }
  }

  predicate Distinct(sets: seq<SetPart>) {
    forall i, j :: 0 <= i < j < |sets| ==> sets[i].col != sets[j].col
  }

  /** Without a repeated column every part decides its own column. */
  lemma {:induction false} AssignedColumn(r: Record, sets: seq<SetPart>, args: seq<Value>, now: Value, i: nat)
    requires AllBound(sets, args) && Distinct(sets) && i < |sets|
    ensures var r' := Assign(r, sets, args, now);
      sets[i].col in r' && r'[sets[i].col] == ValueOf(sets[i], args, now)
    decreases |sets|
  {
    var n := |sets| - 1;
    if i < n { AssignedColumn(r, sets[..n], args, now, i); }
  }

  /** And every other column keeps its value. */
  lemma {:induction false} KeptColumn(r: Record, sets: seq<SetPart>, args: seq<Value>, now: Value, c: Column)
    requires AllBound(sets, args) && forall i :: 0 <= i < |sets| ==> sets[i].col != c
    ensures var r' := Assign(r, sets, args, now);
      (c in r' <==> c in r) && (c in r ==> r'[c] == r[c])
    decreases |sets|
  {
    if sets != [] { KeptColumn(r, sets[..|sets| - 1], args, now, c); }
  }

  /** How a column fares: assigned by the builder, by the caller, or not at all. */
  function WantedAt(r: Record, fields: Record, status: Value, now: Value, c: Column): Option<Value> {
    if c == STATUS then Some(status)
    else if c == UPDATED_AT then Some(now)
    else if c in fields then Some(fields[c])
    else if c in r then Some(r[c]) else None
  }

  function At(r: Record, c: Column): Option<Value> {
    if c in r then Some(r[c]) else None
  }

  lemma WantedPointwise(r: Record, fields: Record, status: Value, now: Value, c: Column)
    ensures At(Wanted(r, fields, status, now), c) == WantedAt(r, fields, status, now, c)
  {
  }

  lemma PartAt(u: Update, args: seq<Value>, status: Value, fields: Record, order: seq<Column>, j: nat)
    requires Built(u, args, status, fields, order) && j < |order|
    ensures order[j] in fields && |u.sets| == |order| + 2
    ensures u.sets[j + 2] == Param(order[j], j + 2) && args[j + 1] == fields[order[j]]
  {
    assert order[j] in order;
    assert args[j + 1] == args[..|order| + 1][j + 1];
  }

  lemma NoPartFor(u: Update, args: seq<Value>, status: Value, fields: Record, order: seq<Column>, c: Column)
    requires Built(u, args, status, fields, order) && c != STATUS && c != UPDATED_AT && c !in fields
    ensures forall i :: 0 <= i < |u.sets| ==> u.sets[i].col != c
  {
    forall i | 0 <= i < |u.sets| ensures u.sets[i].col != c {
      if i >= 2 { PartAt(u, args, status, fields, order, i - 2); }
    }
  }

  lemma AssignColumn(r: Record, u: Update, args: seq<Value>, status: Value, fields: Record, order: seq<Column>, now: Value, c: Column)
    requires Built(u, args, status, fields, order) && WellFormed(u, args) && NoCollision(fields)
    ensures At(Assign(r, u.sets, args, now), c) == WantedAt(r, fields, status, now, c)
  {
    assert Distinct(u.sets);
    assert args[0] == args[..|order| + 1][0] == status;
    if c == STATUS {
      AssignedColumn(r, u.sets, args, now, 0);
    } else if c == UPDATED_AT {
      AssignedColumn(r, u.sets, args, now, 1);
    } else if c in fields {
      var j :| 0 <= j < |order| && order[j] == c;
      PartAt(u, args, status, fields, order, j);
      AssignedColumn(r, u.sets, args, now, j + 2);
    } else {
      NoPartFor(u, args, status, fields, order, c);
      KeptColumn(r, u.sets, args, now, c);
    }
  }

  lemma SameRecord(a: Record, b: Record)
    requires forall c :: At(a, c) == At(b, c)
    ensures a == b
  {
    forall c ensures c in a <==> c in b { assert At(a, c) == At(b, c); }
    forall c | c in a ensures a[c] == b[c] { assert At(a, c) == At(b, c); }
  }

  lemma AssignAll(r: Record, u: Update, args: seq<Value>, status: Value, fields: Record, order: seq<Column>, now: Value)
    requires Built(u, args, status, fields, order) && WellFormed(u, args) && NoCollision(fields)
    ensures Assign(r, u.sets, args, now) == Wanted(r, fields, status, now)
  {
    forall c ensures At(Assign(r, u.sets, args, now), c) == At(Wanted(r, fields, status, now), c) {
      AssignColumn(r, u, args, status, fields, order, now, c);
      WantedPointwise(r, fields, status, now, c);
    }
    SameRecord(Assign(r, u.sets, args, now), Wanted(r, fields, status, now));
  }

  lemma RowwiseMeans(u: Update, args: seq<Value>, status: Value, fields: Record, table: seq<Record>, now: Value)
    requires WellFormed(u, args) && NoCollision(fields)
    requires forall r :: Assign(r, u.sets, args, now) == Wanted(r, fields, status, now)
    ensures Interpret(u, args, table, now) ==
            Meaning(table, args[u.id - 1], if u.guard.Some? then Some(args[u.guard.value - 1]) else None, status, fields, now)
  {
    var id, guard := args[u.id - 1], if u.guard.Some? then Some(args[u.guard.value - 1]) else None;
    var got, asked := Interpret(u, args, table, now).table, Direct(table, id, guard, status, fields, now);
    assert forall i :: 0 <= i < |table| ==> got[i] == asked[i];
    assert got == asked;
  }

  lemma BuiltInterprets(u: Update, args: seq<Value>, status: Value, fields: Record, order: seq<Column>, table: seq<Record>, now: Value)
    requires Built(u, args, status, fields, order)
    ensures Interpret(u, args, table, now) ==
            Meaning(table, args[u.id - 1], if u.guard.Some? then Some(args[u.guard.value - 1]) else None, status, fields, now)
  {
    BuiltMeans(u, args, status, fields, order);
    if NoCollision(fields) {
      forall r ensures Assign(r, u.sets, args, now) == Wanted(r, fields, status, now) {
        AssignAll(r, u, args, status, fields, order, now);
      }
      RowwiseMeans(u, args, status, fields, table, now);
    }
  }
}
