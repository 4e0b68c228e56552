/**
 * The model-bound batch update (`bulkUpdateCompoundWhere` registered on
 * every model): the table is the model's name, a `where` property may be a
 * compound-unique wrapper object whose own properties are the physical key
 * columns, and an explicit `null` in `data` is written as the keyword NULL.
 */
module ModelBulkUpdate {
  import opened Wrappers
  import opened JsObjects
  import opened ColumnSet
  import opened Sql

  /** A `where` property: a plain key value, or a wrapper object such as `orgId_email: {orgId, email}`. */
  datatype KeyValue = Scalar(value: Value) | Nested(fields: Obj)

  type Where = seq<(string, KeyValue)>

  /** One request of the batch: which row, and the columns to give it. */
  datatype UpdateRow = UpdateRow(where: Where, data: Obj)

  /** `where[k]`; a missing property reads as the scalar `undefined`. */
  function WhereGet(w: Where, k: string): KeyValue
  {
    if |w| == 0 then Scalar(Undefined)
    else if w[0].0 == k then w[0].1
    else WhereGet(w[1..], k)
  }

  /** The key columns every row is compared on: the first row's `where` keys. */
  function KeyNames(rows: seq<UpdateRow>): seq<string>
  {
    if |rows| == 0 then [] else Keys(rows[0].where)
  }

  /** The `data` objects of the batch, in order. */
  function Datas(rows: seq<UpdateRow>): (ds: seq<Obj>)
    ensures |ds| == |rows|
    ensures forall j :: 0 <= j < |rows| ==> ds[j] == rows[j].data
  {
    seq(|rows|, j requires 0 <= j < |rows| => rows[j].data)
  }

  /**
   * Some row's value for one of the key columns is `null`. The source tests
   * `typeof value === "object"`, which is true of `null`, and then calls
   * `Object.entries`/`Object.keys` on it, which throws; this happens only
   * once there is something to SET.
   */
  predicate ReachesNullKey(rows: seq<UpdateRow>)
  {
    |rows| > 0 && DataColumns(Datas(rows)) != [] &&
    exists j, i :: 0 <= j < |rows| && 0 <= i < |KeyNames(rows)| &&
      WhereGet(rows[j].where, KeyNames(rows)[i]) == Scalar(Null)
  }

  // -----------------------------------------------------------------------
  // The compiler

  /** The comparisons one key column contributes to a WHEN: one per inner property of a wrapper. */
  function KeyGroup(k: string, v: KeyValue): seq<Eq>
  {
    match v
    case Nested(fields) => seq(|fields|, j requires 0 <= j < |fields| => Eq(fields[j].0, ToText(fields[j].1)))
    case Scalar(x) => [Eq(k, ToText(x))]
  }

  /** A row's WHEN condition, over the key columns in the first row's order. */
  function Condition(keys: seq<string>, w: Where): seq<seq<Eq>>
  {
    seq(|keys|, i requires 0 <= i < |keys| => KeyGroup(keys[i], WhereGet(w, keys[i])))
  }

  /** The THEN branch: an explicit `null` is the keyword NULL, anything else is quoted. */
  function ThenLit(v: Value): (l: Lit)
    ensures l == NullLit <==> v == Null
  {
    if v == Null then NullLit else TextLit(ToText(v))
  }

  /** The WHEN one row contributes to column `c`: none when its `data[c]` is `undefined`. */
  function RowWhens(keys: seq<string>, row: UpdateRow, c: string): seq<When>
  {
    var v := Get(row.data, c);
    if v != Undefined then [When(Condition(keys, row.where), ThenLit(v))] else []
  }

  /** The WHEN clauses for one column: one per row that gives the column a value that is not `undefined`. */
  function Whens(keys: seq<string>, rows: seq<UpdateRow>, c: string): seq<When>
  {
    if |rows| == 0 then [] else RowWhens(keys, rows[0], c) + Whens(keys, rows[1..], c)
  }

  function Assignments(keys: seq<string>, rows: seq<UpdateRow>, cols: seq<string>): seq<Assignment>
  {
    seq(|cols|, i requires 0 <= i < |cols| => Assignment(cols[i], Whens(keys, rows, cols[i])))
  }

  /** The IN column list, from the first row only: a wrapper is replaced by its inner keys. */
  function KeyColumnGroups(keys: seq<string>, first: Where): seq<seq<string>>
  {
    seq(|keys|, i requires 0 <= i < |keys| =>
      match WhereGet(first, keys[i])
      case Nested(fields) => Keys(fields)
      case Scalar(_) => [keys[i]])
  }

  /** One row's IN tuple: a wrapper is replaced by its inner values. */
  function TupleGroups(keys: seq<string>, w: Where): seq<seq<string>>
  {
    seq(|keys|, i requires 0 <= i < |keys| =>
      match WhereGet(w, keys[i])
      case Nested(fields) => seq(|fields|, j requires 0 <= j < |fields| => ToText(fields[j].1))
      case Scalar(x) => [ToText(x)])
  }

  function Tuples(keys: seq<string>, rows: seq<UpdateRow>): seq<seq<seq<string>>>
  {
    seq(|rows|, j requires 0 <= j < |rows| => TupleGroups(keys, rows[j].where))
  }

  /**
   * The statement compiled for `rows` against the model `model`, or None
   * when the source returns before executing anything.
   */
  function Plan(model: string, rows: seq<UpdateRow>): (p: Option<Update>)
    requires !ReachesNullKey(rows)
    ensures p.None? <==> |rows| == 0 || forall j :: 0 <= j < |rows| ==> |rows[j].data| == 0
    ensures p.Some? ==>
      var cols := DataColumns(Datas(rows));
      p.value.table == model &&
      |p.value.sets| == |cols| &&
      (forall i :: 0 <= i < |cols| ==> p.value.sets[i].column == cols[i]) &&
      |p.value.tuples| == |rows|
  {
    if |rows| == 0 then None
    else
      var cols := DataColumns(Datas(rows));
      DataColumnsEmpty(Datas(rows));
      if |cols| == 0 then None
      else
        var keys := KeyNames(rows);
        Some(Update(model, Assignments(keys, rows, cols), KeyColumnGroups(keys, rows[0].where), Tuples(keys, rows)))
  }

  /** The text handed to `$executeRawUnsafe`, or None when nothing is sent. */
  function Compile(model: string, rows: seq<UpdateRow>): Option<string>
    requires !ReachesNullKey(rows)
  {
    match Plan(model, rows)
    case None => None
    case Some(u) => Some(Render(u))
  }

  /** The extension method: collect the data columns with the loop, then build the text. */
  method BulkUpdateCompoundWhere(model: string, rows: seq<UpdateRow>) returns (sql: Option<string>)
    requires !ReachesNullKey(rows)
    ensures sql == Compile(model, rows)
    ensures sql.None? <==> |rows| == 0 || forall j :: 0 <= j < |rows| ==> |rows[j].data| == 0
  {
    if |rows| == 0 {
      return None;
    }
    var cols := CollectDataColumns(Datas(rows));
    if |cols| == 0 {
      return None;
    }
    var keys := Keys(rows[0].where);
    var u := Update(model, Assignments(keys, rows, cols), KeyColumnGroups(keys, rows[0].where), Tuples(keys, rows));
    sql := Some(Render(u));
  }

  // -----------------------------------------------------------------------
  // The structure of the statement

  /**
   * The WHEN clauses of a column follow the batch: those of a batch split
   * in two are those of the first part followed by those of the second.
   */
  lemma {:induction false} WhensConcat(keys: seq<string>, rows1: seq<UpdateRow>, rows2: seq<UpdateRow>, c: string)
    ensures Whens(keys, rows1 + rows2, c) == Whens(keys, rows1, c) + Whens(keys, rows2, c)
  {
    if |rows1| == 0 {
      assert rows1 + rows2 == rows2;
    } else {
      assert (rows1 + rows2)[0] == rows1[0];
      assert (rows1 + rows2)[1..] == rows1[1..] + rows2;
      WhensConcat(keys, rows1[1..], rows2, c);
    }
  }

  /** A single row contributes one WHEN to a column exactly when its value for it is not `undefined`. */
  lemma WhensOfOneRow(keys: seq<string>, row: UpdateRow, c: string)
    ensures |Whens(keys, [row], c)| == (if Get(row.data, c) != Undefined then 1 else 0)
    ensures Get(row.data, c) != Undefined ==>
      Whens(keys, [row], c)[0] == When(Condition(keys, row.where), ThenLit(Get(row.data, c)))
  {
    assert [row][1..] == [];
  }

  /**
   * The IN column list is the list of columns the first row's WHEN
   * condition compares, and every row's IN tuple is the list of literals its
   * own WHEN condition compares them with.
   */
  lemma InListMirrorsCondition(keys: seq<string>, w: Where)
    ensures KeyColumnGroups(keys, w) == ColumnsOf(Condition(keys, w))
    ensures TupleGroups(keys, w) == LiteralsOf(Condition(keys, w))
  {
    var cond := Condition(keys, w);
    forall i | 0 <= i < |keys|
      ensures KeyColumnGroups(keys, w)[i] == ColumnsOf(cond)[i]
      ensures TupleGroups(keys, w)[i] == LiteralsOf(cond)[i]
    {
      match WhereGet(w, keys[i])
      case Nested(fields) =>
      case Scalar(x) =>
    }
  }

  /** The number of IN columns is the number of physical key columns the first row flattens to. */
  lemma InColumnCount(keys: seq<string>, w: Where)
    ensures |Flatten(KeyColumnGroups(keys, w))| == |Flatten(Condition(keys, w))|
    ensures |Flatten(TupleGroups(keys, w))| == |Flatten(Condition(keys, w))|
  {
    InListMirrorsCondition(keys, w);
    FlattenColumns(Condition(keys, w));
    FlattenLiterals(Condition(keys, w));
  }

  // -----------------------------------------------------------------------
  // What running the statement does

  /**
   * A stored record carries the key of `w`: it equals `w`'s value on every
   * key column, and on every inner column of a wrapper.
   */
  predicate KeyMatches(keys: seq<string>, r: Record, w: Where)
  {
    forall i :: 0 <= i < |keys| ==>
      match WhereGet(w, keys[i])
      case Nested(fields) => forall j :: 0 <= j < |fields| ==> Read(r, fields[j].0) == CText(ToText(fields[j].1))
      case Scalar(x) => Read(r, keys[i]) == CText(ToText(x))
  }

  /** The cell a value is stored as: NULL for `null`, its text otherwise. */
  function StoredCell(v: Value): Cell
  {
    if v == Null then CNull else CText(ToText(v))
  }

  /**
   * The value the batch gives column `c` of record `r`: that of the first
   * row, in batch order, whose key `r` carries and whose `data[c]` is not
   * `undefined`.
   */
  function FirstSetter(keys: seq<string>, rows: seq<UpdateRow>, r: Record, c: string): (v: Option<Value>)
    ensures v.Some? ==> v.value != Undefined
    ensures v.Some? ==> exists j :: 0 <= j < |rows| && KeyMatches(keys, r, rows[j].where) && Get(rows[j].data, c) == v.value
  {
    if |rows| == 0 then None
    else if KeyMatches(keys, r, rows[0].where) && Get(rows[0].data, c) != Undefined then Some(Get(rows[0].data, c))
    else
      var v := FirstSetter(keys, rows[1..], r, c);
      assert v.Some? ==> exists j :: 1 <= j < |rows| && KeyMatches(keys, r, rows[j].where) && Get(rows[j].data, c) == v.value by {
        if v.Some? {
          var j :| 0 <= j < |rows| - 1 && KeyMatches(keys, r, rows[1..][j].where) && Get(rows[1..][j].data, c) == v.value;
          assert rows[1..][j] == rows[j + 1];
        }
      }
      v
  }

  /** Row `row` carries the key of record `r` and gives column `c` a value other than `undefined`. */
  predicate SetsFor(keys: seq<string>, r: Record, row: UpdateRow, c: string)
  {
    KeyMatches(keys, r, row.where) && Get(row.data, c) != Undefined
  }

  /** `FirstSetter` finds nothing exactly when no row both carries the record's key and sets `c`. */
  lemma {:induction false} FirstSetterNone(keys: seq<string>, rows: seq<UpdateRow>, r: Record, c: string)
    ensures FirstSetter(keys, rows, r, c) == None <==> forall j :: 0 <= j < |rows| ==> !SetsFor(keys, r, rows[j], c)
  {
    if |rows| > 0 && !SetsFor(keys, r, rows[0], c) {
      FirstSetterNone(keys, rows[1..], r, c);
      assert forall j :: 1 <= j < |rows| ==> rows[j] == rows[1..][j - 1];
    }
  }

  /** A row that does not both carry the record's key and set `c` is passed over. */
  lemma FirstSetterSkips(keys: seq<string>, rows: seq<UpdateRow>, r: Record, c: string)
    requires |rows| > 0 && !SetsFor(keys, r, rows[0], c)
    ensures FirstSetter(keys, rows, r, c) == FirstSetter(keys, rows[1..], r, c)
  {
  }

  /**
   * The first row, in batch order, that carries the record's key and sets
   * `c` decides: rows after it that also set `c` are never consulted.
   */
  lemma {:induction false} FirstSetterFirst(keys: seq<string>, rows: seq<UpdateRow>, r: Record, c: string, j: int)
    requires 0 <= j < |rows| && SetsFor(keys, r, rows[j], c)
    requires forall i :: 0 <= i < j ==> !SetsFor(keys, r, rows[i], c)
    ensures FirstSetter(keys, rows, r, c) == Some(Get(rows[j].data, c))
  {
    if j > 0 {
      var rest := rows[1..];
      assert forall i :: 0 <= i < j - 1 ==> rest[i] == rows[i + 1];
      FirstSetterFirst(keys, rest, r, c, j - 1);
      FirstSetterSkips(keys, rows, r, c);
    }
  }

  /** A row's WHEN condition holds of a record exactly when the record carries that row's key. */
  lemma ConditionIffKeyMatches(keys: seq<string>, r: Record, w: Where)
    ensures CondHolds(r, Condition(keys, w)) <==> KeyMatches(keys, r, w)
  {
    var cond := Condition(keys, w);
    if CondHolds(r, cond) {
      forall i | 0 <= i < |keys|
        ensures match WhereGet(w, keys[i])
          case Nested(fields) => forall j :: 0 <= j < |fields| ==> Read(r, fields[j].0) == CText(ToText(fields[j].1))
          case Scalar(x) => Read(r, keys[i]) == CText(ToText(x))
      {
        match WhereGet(w, keys[i])
        case Nested(fields) =>
          forall j | 0 <= j < |fields|
            ensures Read(r, fields[j].0) == CText(ToText(fields[j].1))
          {
            assert cond[i][j] in cond[i];
            assert Holds(r, cond[i][j]);
          }
        case Scalar(x) =>
          assert cond[i][0] in cond[i];
          assert Holds(r, cond[i][0]);
      }
    }
    if KeyMatches(keys, r, w) {
      forall e | e in Flatten(cond)
        ensures Holds(r, e)
      {
        var i :| 0 <= i < |cond| && e in cond[i];
        match WhereGet(w, keys[i])
        case Nested(fields) =>
          var j :| 0 <= j < |fields| && cond[i][j] == e;
        case Scalar(x) =>
      }
    }
  }

  /** A CASE over a column's WHEN clauses yields what FirstSetter says, or the old cell when it says nothing. */
  lemma {:induction false} EvalWhens(keys: seq<string>, rows: seq<UpdateRow>, r: Record, c: string)
    ensures EvalCase(r, Whens(keys, rows, c), c) ==
      match FirstSetter(keys, rows, r, c)
      case Some(v) => StoredCell(v)
      case None => Read(r, c)
  {
    if |rows| > 0 {
      var v := Get(rows[0].data, c);
      var rest := Whens(keys, rows[1..], c);
      EvalWhens(keys, rows[1..], r, c);
      if v != Undefined {
        var w := When(Condition(keys, rows[0].where), ThenLit(v));
        assert Whens(keys, rows, c) == [w] + rest;
        assert ([w] + rest)[1..] == rest;
        ConditionIffKeyMatches(keys, r, rows[0].where);
      } else {
        assert Whens(keys, rows, c) == rest;
      }
    }
  }

  /**
   * Every row flattens to the same physical key columns, in the same
   * order, as the first row (the source assumes this and does not check it).
   */
  predicate ConsistentKeyShape(rows: seq<UpdateRow>)
  {
    forall j :: 0 <= j < |rows| ==>
      KeyColumnGroups(KeyNames(rows), rows[j].where) == KeyColumnGroups(KeyNames(rows), rows[0].where)
  }

  /** With a consistent key shape, the IN filter lets exactly the records through that carry some row's key. */
  lemma SelectedIffSomeKeyMatches(model: string, rows: seq<UpdateRow>, r: Record)
    requires !ReachesNullKey(rows) && ConsistentKeyShape(rows)
    requires Plan(model, rows).Some?
    ensures Selected(Plan(model, rows).value, r) <==>
      exists j :: 0 <= j < |rows| && KeyMatches(KeyNames(rows), r, rows[j].where)
  {
    var u := Plan(model, rows).value;
    var keys := KeyNames(rows);
    var cols := Flatten(u.keyColumns);
    forall j | 0 <= j < |rows|
      ensures TupleMatches(r, cols, Flatten(u.tuples[j])) <==> KeyMatches(keys, r, rows[j].where)
    {
      InListMirrorsCondition(keys, rows[j].where);
      TupleMatchesIffCondHolds(r, Condition(keys, rows[j].where));
      ConditionIffKeyMatches(keys, r, rows[j].where);
    }
    if Selected(u, r) {
      var t :| t in u.tuples && TupleMatches(r, cols, Flatten(t));
      var j :| 0 <= j < |u.tuples| && u.tuples[j] == t;
    }
    if exists j :: 0 <= j < |rows| && KeyMatches(keys, r, rows[j].where) {
      var j :| 0 <= j < |rows| && KeyMatches(keys, r, rows[j].where);
      assert u.tuples[j] in u.tuples;
    }
  }

  /**
   * What the compiled statement does to a stored record, column by column:
   * the first row of the batch that targets it and sets the column decides
   * the new cell (an explicit `null` stores NULL); a column no such row sets
   * keeps its cell, and so does every column of a record no row targets.
   */
  lemma ExecutionEffect(model: string, rows: seq<UpdateRow>, r: Record, c: string)
    requires !ReachesNullKey(rows) && ConsistentKeyShape(rows)
    requires Plan(model, rows).Some?
    ensures Read(ExecRecord(Plan(model, rows).value, r), c) ==
      match FirstSetter(KeyNames(rows), rows, r, c)
      case Some(v) => StoredCell(v)
      case None => Read(r, c)
  {
    var u := Plan(model, rows).value;
    var keys := KeyNames(rows);
    var cols := DataColumns(Datas(rows));
    SelectedIffSomeKeyMatches(model, rows, r);
    AssignRead(r, u.sets, c);
    EvalWhens(keys, rows, r, c);
    if c !in cols {
      DataColumnsMembers(Datas(rows));
      assert FirstSetter(keys, rows, r, c).None?;
    } else {
      var i :| 0 <= i < |cols| && cols[i] == c;
      assert u.sets[i] == Assignment(c, Whens(keys, rows, c));
    }
  }

  /** A record that carries no row's key is left exactly as it was. */
  lemma UntargetedRecordUnchanged(model: string, rows: seq<UpdateRow>, r: Record)
    requires !ReachesNullKey(rows) && ConsistentKeyShape(rows)
    requires Plan(model, rows).Some?
    requires forall j :: 0 <= j < |rows| ==> !KeyMatches(KeyNames(rows), r, rows[j].where)
    ensures ExecRecord(Plan(model, rows).value, r) == r
  {
    SelectedIffSomeKeyMatches(model, rows, r);
  }

  /**
   * When no data column is also a key column, running the compiled
   * statement twice leaves the table as running it once does.
   */
  lemma CompiledIdempotent(model: string, rows: seq<UpdateRow>, table: seq<Record>)
    requires !ReachesNullKey(rows) && ConsistentKeyShape(rows)
    requires Plan(model, rows).Some?
    requires forall c :: c in DataColumns(Datas(rows)) ==> c !in Flatten(KeyColumnGroups(KeyNames(rows), rows[0].where))
    ensures Execute(Plan(model, rows).value, Execute(Plan(model, rows).value, table)) == Execute(Plan(model, rows).value, table)
  {
    var u := Plan(model, rows).value;
    var keys := KeyNames(rows);
    var kcols := Flatten(KeyColumnGroups(keys, rows[0].where));
    assert DistinctColumns(u.sets);
    forall a, w, e | a in u.sets && w in a.whens && e in Flatten(w.cond)
      ensures e.column in kcols
    {
      var i :| 0 <= i < |u.sets| && u.sets[i] == a;
      WhenConditionsUseKeyColumns(keys, rows, a.column, rows[0].where);
    }
    assert SetColumns(u) !! DecidingColumns(u);
    ExecuteIdempotent(u, table);
  }

  /** Under a consistent key shape every WHEN compares only the first row's flattened key columns. */
  lemma {:induction false} WhenConditionsUseKeyColumns(keys: seq<string>, rows: seq<UpdateRow>, c: string, first: Where)
    requires forall j :: 0 <= j < |rows| ==> KeyColumnGroups(keys, rows[j].where) == KeyColumnGroups(keys, first)
    ensures forall w, e :: w in Whens(keys, rows, c) && e in Flatten(w.cond) ==> e.column in Flatten(KeyColumnGroups(keys, first))
  {
    if |rows| > 0 {
      WhenConditionsUseKeyColumns(keys, rows[1..], c, first);
      var cond := Condition(keys, rows[0].where);
      InListMirrorsCondition(keys, rows[0].where);
      FlattenColumns(cond);
      FlattenLiterals(cond);
      forall e: Eq | e in Flatten(cond)
        ensures e.column in Flatten(KeyColumnGroups(keys, first))
      {
        var k :| 0 <= k < |Flatten(cond)| && Flatten(cond)[k] == e;
        assert Flatten(ColumnsOf(cond))[k] == e.column;
      }
    }
  }
}
