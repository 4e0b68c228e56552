/**
 * The client-level batch update (`bulkUpdateCompoundWhere(tableName, rows)`):
 * the caller names the table, every `where` property is a physical key
 * column, and every THEN value is quoted, `null` included.
 */
module ClientBulkUpdate {
  import opened Wrappers
  import opened JsObjects
  import opened ColumnSet
  import opened Sql

  /** One request of the batch: which row, and the columns to give it. */
  datatype UpdateRow = UpdateRow(where: Obj, data: Obj)

  /** The key columns every row is compared on: the first row's `where` keys. */
  function KeyNames(rows: seq<UpdateRow>): seq<string>
  {
    if |rows| == 0 then [] else Keys(rows[0].where)
  }

  /** The `data` objects of the batch, in order. */
  function Datas(rows: seq<UpdateRow>): (ds: seq<Obj>)
    ensures |ds| == |rows|
    ensures forall j :: 0 <= j < |rows| ==> ds[j] == rows[j].data
  {
    seq(|rows|, j requires 0 <= j < |rows| => rows[j].data)
  }

  // -----------------------------------------------------------------------
  // The compiler

  /** The comparisons of a row's WHEN, one per key column, joined by AND. */
  function KeyComparisons(keys: seq<string>, w: Obj): seq<Eq>
  {
    seq(|keys|, i requires 0 <= i < |keys| => Eq(keys[i], ToText(Get(w, keys[i]))))
  }

  /** The same comparisons as a condition of one-comparison groups. */
  function Condition(keys: seq<string>, w: Obj): seq<seq<Eq>>
  {
    seq(|keys|, i requires 0 <= i < |keys| => [Eq(keys[i], ToText(Get(w, keys[i])))])
  }

  /** The THEN branch: always a quoted literal, so `null` becomes the text 'null'. */
  function ThenLit(v: Value): (l: Lit)
    ensures l.TextLit?
  {
    TextLit(ToText(v))
  }

  /** The WHEN one row contributes to column `c`: none when its `data[c]` is `undefined`. */
  function RowWhens(keys: seq<string>, row: UpdateRow, c: string): seq<When>
  {
    var v := Get(row.data, c);
    if v != Undefined then [When(Condition(keys, row.where), ThenLit(v))] else []
  }

  /** The WHEN clauses for one column: one per row that gives the column a value that is not `undefined`. */
  function Whens(keys: seq<string>, rows: seq<UpdateRow>, c: string): seq<When>
  {
    if |rows| == 0 then [] else RowWhens(keys, rows[0], c) + Whens(keys, rows[1..], c)
  }

  function Assignments(keys: seq<string>, rows: seq<UpdateRow>, cols: seq<string>): seq<Assignment>
  {
    seq(|cols|, i requires 0 <= i < |cols| => Assignment(cols[i], Whens(keys, rows, cols[i])))
  }

  /** The IN column list: each key column once. */
  function KeyColumnGroups(keys: seq<string>): seq<seq<string>>
  {
    seq(|keys|, i requires 0 <= i < |keys| => [keys[i]])
  }

  /** One row's IN tuple: its value for each key column. */
  function TupleGroups(keys: seq<string>, w: Obj): seq<seq<string>>
  {
    seq(|keys|, i requires 0 <= i < |keys| => [ToText(Get(w, keys[i]))])
  }

  function Tuples(keys: seq<string>, rows: seq<UpdateRow>): seq<seq<seq<string>>>
  {
    seq(|rows|, j requires 0 <= j < |rows| => TupleGroups(keys, rows[j].where))
  }

  /**
   * The statement compiled for `rows` against `tableName`, or None when the
   * source returns before executing anything.
   */
  function Plan(tableName: string, rows: seq<UpdateRow>): (p: Option<Update>)
    ensures p.None? <==> |rows| == 0 || forall j :: 0 <= j < |rows| ==> |rows[j].data| == 0
    ensures p.Some? ==>
      var cols := DataColumns(Datas(rows));
      p.value.table == tableName &&
      |p.value.sets| == |cols| &&
      (forall i :: 0 <= i < |cols| ==> p.value.sets[i].column == cols[i]) &&
      |p.value.tuples| == |rows|
  {
    if |rows| == 0 then None
    else
      var cols := DataColumns(Datas(rows));
      DataColumnsEmpty(Datas(rows));
      if |cols| == 0 then None
      else
        var keys := KeyNames(rows);
        Some(Update(tableName, Assignments(keys, rows, cols), KeyColumnGroups(keys), Tuples(keys, rows)))
  }

  /** The text handed to `$executeRawUnsafe`, or None when nothing is sent. */
  function Compile(tableName: string, rows: seq<UpdateRow>): Option<string>
  {
    match Plan(tableName, rows)
    case None => None
    case Some(u) => Some(Render(u))
  }

  /** The client method: collect the data columns with the loop, then build the text. */
  method BulkUpdateCompoundWhere(tableName: string, rows: seq<UpdateRow>) returns (sql: Option<string>)
    ensures sql == Compile(tableName, rows)
    ensures sql.None? <==> |rows| == 0 || forall j :: 0 <= j < |rows| ==> |rows[j].data| == 0
  {
    if |rows| == 0 {
      return None;
    }
    var keys := Keys(rows[0].where);
    var cols := CollectDataColumns(Datas(rows));
    if |cols| == 0 {
      return None;
    }
    var u := Update(tableName, Assignments(keys, rows, cols), KeyColumnGroups(keys), Tuples(keys, rows));
    sql := Some(Render(u));
  }

  // -----------------------------------------------------------------------
  // The structure of the statement

  /**
   * The one-comparison groups render as the single AND-join of the
   * comparisons, the key column list as the comma-join of the quoted key
   * names, and a tuple as the comma-join of the quoted values.
   */
  lemma FlatText(keys: seq<string>, w: Obj)
    ensures RenderCond(Condition(keys, w)) ==
      Join(" AND ", seq(|keys|, i requires 0 <= i < |keys| => RenderEq(KeyComparisons(keys, w)[i])))
    ensures RenderColumns(KeyColumnGroups(keys)) ==
      Join(",", seq(|keys|, i requires 0 <= i < |keys| => QuoteIdent(keys[i])))
    ensures RenderTuple(TupleGroups(keys, w)) ==
      "(" + Join(",", seq(|keys|, i requires 0 <= i < |keys| => QuoteLiteral(ToText(Get(w, keys[i]))))) + ")"
  {
    var cond := Condition(keys, w);
    assert seq(|cond|, i requires 0 <= i < |cond| => RenderGroup(cond[i])) ==
      seq(|keys|, i requires 0 <= i < |keys| => RenderEq(KeyComparisons(keys, w)[i])) by {
      forall i | 0 <= i < |keys|
        ensures RenderGroup(cond[i]) == RenderEq(KeyComparisons(keys, w)[i])
      {
        assert seq(|cond[i]|, j requires 0 <= j < |cond[i]| => RenderEq(cond[i][j])) == [RenderEq(cond[i][0])];
      }
    }
    var groups := KeyColumnGroups(keys);
    assert seq(|groups|, i requires 0 <= i < |groups| => RenderColumnGroup(groups[i])) ==
      seq(|keys|, i requires 0 <= i < |keys| => QuoteIdent(keys[i])) by {
      forall i | 0 <= i < |keys|
        ensures RenderColumnGroup(groups[i]) == QuoteIdent(keys[i])
      {
        assert seq(|groups[i]|, j requires 0 <= j < |groups[i]| => QuoteIdent(groups[i][j])) == [QuoteIdent(keys[i])];
      }
    }
    var t := TupleGroups(keys, w);
    assert seq(|t|, i requires 0 <= i < |t| => RenderValueGroup(t[i])) ==
      seq(|keys|, i requires 0 <= i < |keys| => QuoteLiteral(ToText(Get(w, keys[i])))) by {
      forall i | 0 <= i < |keys|
        ensures RenderValueGroup(t[i]) == QuoteLiteral(ToText(Get(w, keys[i])))
      {
        assert seq(|t[i]|, j requires 0 <= j < |t[i]| => QuoteLiteral(t[i][j])) == [QuoteLiteral(t[i][0])];
      }
    }
  }

  /**
   * The WHEN clauses of a column follow the batch: those of a batch split
   * in two are those of the first part followed by those of the second.
   */
  lemma {:induction false} WhensConcat(keys: seq<string>, rows1: seq<UpdateRow>, rows2: seq<UpdateRow>, c: string)
    ensures Whens(keys, rows1 + rows2, c) == Whens(keys, rows1, c) + Whens(keys, rows2, c)
  {
    if |rows1| == 0 {
      assert rows1 + rows2 == rows2;
    } else {
      assert (rows1 + rows2)[0] == rows1[0];
      assert (rows1 + rows2)[1..] == rows1[1..] + rows2;
      WhensConcat(keys, rows1[1..], rows2, c);
    }
  }

  /** A single row contributes one WHEN to a column exactly when its value for it is not `undefined`. */
  lemma WhensOfOneRow(keys: seq<string>, row: UpdateRow, c: string)
    ensures |Whens(keys, [row], c)| == (if Get(row.data, c) != Undefined then 1 else 0)
    ensures Get(row.data, c) != Undefined ==>
      Whens(keys, [row], c)[0] == When(Condition(keys, row.where), ThenLit(Get(row.data, c)))
  {
    assert [row][1..] == [];
  }

  /**
   * The IN column list is the list of columns every row's WHEN condition
   * compares, and each row's IN tuple the list of literals it compares them with.
   */
  lemma InListMirrorsCondition(keys: seq<string>, w: Obj)
    ensures KeyColumnGroups(keys) == ColumnsOf(Condition(keys, w))
    ensures TupleGroups(keys, w) == LiteralsOf(Condition(keys, w))
  {
    var cond := Condition(keys, w);
    forall i | 0 <= i < |keys|
      ensures KeyColumnGroups(keys)[i] == ColumnsOf(cond)[i]
      ensures TupleGroups(keys, w)[i] == LiteralsOf(cond)[i]
    {
      assert |ColumnsOf(cond)[i]| == 1 && ColumnsOf(cond)[i][0] == keys[i];
      assert |LiteralsOf(cond)[i]| == 1;
    }
  }

  /** The IN list has one column per key column and one value per key column in every tuple. */
  lemma InListArity(keys: seq<string>, w: Obj)
    ensures Flatten(KeyColumnGroups(keys)) == keys
    ensures |Flatten(TupleGroups(keys, w))| == |keys|
  {
    InListMirrorsCondition(keys, w);
    FlattenColumns(Condition(keys, w));
    FlattenLiterals(Condition(keys, w));
    FlattenSingletons(keys);
  }

  lemma {:induction false} FlattenSingletons(keys: seq<string>)
    ensures Flatten(KeyColumnGroups(keys)) == keys
  {
    if |keys| > 0 {
      var gs, rest := KeyColumnGroups(keys), KeyColumnGroups(keys[1..]);
      assert gs[1..] == rest by {
        forall i | 0 <= i < |rest|
          ensures gs[1..][i] == rest[i]
        {
        }
      }
      FlattenSingletons(keys[1..]);
      calc {
        Flatten(gs);
        gs[0] + Flatten(gs[1..]);
        [keys[0]] + Flatten(rest);
        [keys[0]] + keys[1..];
        keys;
      }
    }
  }

  // -----------------------------------------------------------------------
  // What running the statement does

  /** A stored record carries the key of `w`: it equals `w`'s value on every key column. */
  predicate KeyMatches(keys: seq<string>, r: Record, w: Obj)
  {
    forall i :: 0 <= i < |keys| ==> Read(r, keys[i]) == CText(ToText(Get(w, keys[i])))
  }

  /** The cell a value is stored as: its text, so `null` is stored as the text "null", not as NULL. */
  function StoredCell(v: Value): Cell
  {
    CText(ToText(v))
  }

  /**
   * The value the batch gives column `c` of record `r`: that of the first
   * row, in batch order, whose key `r` carries and whose `data[c]` is not
   * `undefined`.
   */
  function FirstSetter(keys: seq<string>, rows: seq<UpdateRow>, r: Record, c: string): (v: Option<Value>)
    ensures v.Some? ==> v.value != Undefined
    ensures v.Some? ==> exists j :: 0 <= j < |rows| && KeyMatches(keys, r, rows[j].where) && Get(rows[j].data, c) == v.value
  {
    if |rows| == 0 then None
    else if KeyMatches(keys, r, rows[0].where) && Get(rows[0].data, c) != Undefined then Some(Get(rows[0].data, c))
    else
      var v := FirstSetter(keys, rows[1..], r, c);
      assert v.Some? ==> exists j :: 1 <= j < |rows| && KeyMatches(keys, r, rows[j].where) && Get(rows[j].data, c) == v.value by {
        if v.Some? {
          var j :| 0 <= j < |rows| - 1 && KeyMatches(keys, r, rows[1..][j].where) && Get(rows[1..][j].data, c) == v.value;
          assert rows[1..][j] == rows[j + 1];
        }
      }
      v
  }

  /** Row `row` carries the key of record `r` and gives column `c` a value other than `undefined`. */
  predicate SetsFor(keys: seq<string>, r: Record, row: UpdateRow, c: string)
  {
    KeyMatches(keys, r, row.where) && Get(row.data, c) != Undefined
  }

  /** `FirstSetter` finds nothing exactly when no row both carries the record's key and sets `c`. */
  lemma {:induction false} FirstSetterNone(keys: seq<string>, rows: seq<UpdateRow>, r: Record, c: string)
    ensures FirstSetter(keys, rows, r, c) == None <==> forall j :: 0 <= j < |rows| ==> !SetsFor(keys, r, rows[j], c)
  {
    if |rows| > 0 && !SetsFor(keys, r, rows[0], c) {
      FirstSetterNone(keys, rows[1..], r, c);
      assert forall j :: 1 <= j < |rows| ==> rows[j] == rows[1..][j - 1];
    }
  }

  /** A row that does not both carry the record's key and set `c` is passed over. */
  lemma FirstSetterSkips(keys: seq<string>, rows: seq<UpdateRow>, r: Record, c: string)
    requires |rows| > 0 && !SetsFor(keys, r, rows[0], c)
    ensures FirstSetter(keys, rows, r, c) == FirstSetter(keys, rows[1..], r, c)
  {
  }

  /**
   * The first row, in batch order, that carries the record's key and sets
   * `c` decides: rows after it that also set `c` are never consulted.
   */
  lemma {:induction false} FirstSetterFirst(keys: seq<string>, rows: seq<UpdateRow>, r: Record, c: string, j: int)
    requires 0 <= j < |rows| && SetsFor(keys, r, rows[j], c)
    requires forall i :: 0 <= i < j ==> !SetsFor(keys, r, rows[i], c)
    ensures FirstSetter(keys, rows, r, c) == Some(Get(rows[j].data, c))
  {
    if j > 0 {
      var rest := rows[1..];
      assert forall i :: 0 <= i < j - 1 ==> rest[i] == rows[i + 1];
      FirstSetterFirst(keys, rest, r, c, j - 1);
      FirstSetterSkips(keys, rows, r, c);
    }
  }

  /** A row's WHEN condition holds of a record exactly when the record carries that row's key. */
  lemma ConditionIffKeyMatches(keys: seq<string>, r: Record, w: Obj)
    ensures CondHolds(r, Condition(keys, w)) <==> KeyMatches(keys, r, w)
  {
    var cond := Condition(keys, w);
    if CondHolds(r, cond) {
      forall i | 0 <= i < |keys|
        ensures Read(r, keys[i]) == CText(ToText(Get(w, keys[i])))
      {
        assert cond[i][0] in cond[i];
        assert Holds(r, cond[i][0]);
      }
    }
    if KeyMatches(keys, r, w) {
      forall e | e in Flatten(cond)
        ensures Holds(r, e)
      {
        var i :| 0 <= i < |cond| && e in cond[i];
      }
    }
  }

  /** A CASE over a column's WHEN clauses yields what FirstSetter says, or the old cell when it says nothing. */
  lemma {:induction false} EvalWhens(keys: seq<string>, rows: seq<UpdateRow>, r: Record, c: string)
    ensures EvalCase(r, Whens(keys, rows, c), c) ==
      match FirstSetter(keys, rows, r, c)
      case Some(v) => StoredCell(v)
      case None => Read(r, c)
  {
    if |rows| > 0 {
      var v := Get(rows[0].data, c);
      var rest := Whens(keys, rows[1..], c);
      EvalWhens(keys, rows[1..], r, c);
      if v != Undefined {
        var w := When(Condition(keys, rows[0].where), ThenLit(v));
        assert Whens(keys, rows, c) == [w] + rest;
        assert ([w] + rest)[1..] == rest;
        ConditionIffKeyMatches(keys, r, rows[0].where);
      } else {
        assert Whens(keys, rows, c) == rest;
      }
    }
  }

  /**
   * The IN filter lets exactly the records through that carry some row's
   * key; with flat keys this needs no assumption about the rows' shapes.
   */
  lemma SelectedIffSomeKeyMatches(tableName: string, rows: seq<UpdateRow>, r: Record)
    requires Plan(tableName, rows).Some?
    ensures Selected(Plan(tableName, rows).value, r) <==>
      exists j :: 0 <= j < |rows| && KeyMatches(KeyNames(rows), r, rows[j].where)
  {
    var u := Plan(tableName, rows).value;
    var keys := KeyNames(rows);
    var cols := Flatten(u.keyColumns);
    forall j | 0 <= j < |rows|
      ensures TupleMatches(r, cols, Flatten(u.tuples[j])) <==> KeyMatches(keys, r, rows[j].where)
    {
      InListMirrorsCondition(keys, rows[j].where);
      TupleMatchesIffCondHolds(r, Condition(keys, rows[j].where));
      ConditionIffKeyMatches(keys, r, rows[j].where);
    }
    if Selected(u, r) {
      var t :| t in u.tuples && TupleMatches(r, cols, Flatten(t));
      var j :| 0 <= j < |u.tuples| && u.tuples[j] == t;
    }
    if exists j :: 0 <= j < |rows| && KeyMatches(keys, r, rows[j].where) {
      var j :| 0 <= j < |rows| && KeyMatches(keys, r, rows[j].where);
      assert u.tuples[j] in u.tuples;
    }
  }

  /**
   * What the compiled statement does to a stored record, column by column:
   * the first row of the batch that targets it and sets the column decides
   * the new cell (an explicit `null` stores the text "null"); a column no
   * such row sets keeps its cell, and so does every column of a record no
   * row targets.
   */
  lemma ExecutionEffect(tableName: string, rows: seq<UpdateRow>, r: Record, c: string)
    requires Plan(tableName, rows).Some?
    ensures Read(ExecRecord(Plan(tableName, rows).value, r), c) ==
      match FirstSetter(KeyNames(rows), rows, r, c)
      case Some(v) => StoredCell(v)
      case None => Read(r, c)
  {
    var u := Plan(tableName, rows).value;
    var keys := KeyNames(rows);
    var cols := DataColumns(Datas(rows));
    SelectedIffSomeKeyMatches(tableName, rows, r);
    AssignRead(r, u.sets, c);
    EvalWhens(keys, rows, r, c);
    if c !in cols {
      DataColumnsMembers(Datas(rows));
      assert FirstSetter(keys, rows, r, c).None?;
    } else {
      var i :| 0 <= i < |cols| && cols[i] == c;
      assert u.sets[i] == Assignment(c, Whens(keys, rows, c));
    }
  }

  /** A record that carries no row's key is left exactly as it was. */
  lemma UntargetedRecordUnchanged(tableName: string, rows: seq<UpdateRow>, r: Record)
    requires Plan(tableName, rows).Some?
    requires forall j :: 0 <= j < |rows| ==> !KeyMatches(KeyNames(rows), r, rows[j].where)
    ensures ExecRecord(Plan(tableName, rows).value, r) == r
  {
    SelectedIffSomeKeyMatches(tableName, rows, r);
  }

  /**
   * When no data column is also a key column, running the compiled
   * statement twice leaves the table as running it once does.
   */
  lemma CompiledIdempotent(tableName: string, rows: seq<UpdateRow>, table: seq<Record>)
    requires Plan(tableName, rows).Some?
    requires forall c :: c in DataColumns(Datas(rows)) ==> c !in KeyNames(rows)
    ensures Execute(Plan(tableName, rows).value, Execute(Plan(tableName, rows).value, table)) == Execute(Plan(tableName, rows).value, table)
  {
    var u := Plan(tableName, rows).value;
    var keys := KeyNames(rows);
    InListArity(keys, []);
    forall a, w, e | a in u.sets && w in a.whens && e in Flatten(w.cond)
      ensures e.column in keys
    {
      var i :| 0 <= i < |u.sets| && u.sets[i] == a;
      WhenConditionsUseKeyColumns(keys, rows, a.column);
    }
    assert SetColumns(u) !! DecidingColumns(u);
    ExecuteIdempotent(u, table);
  }

  /** Every WHEN compares only key columns. */
  lemma {:induction false} WhenConditionsUseKeyColumns(keys: seq<string>, rows: seq<UpdateRow>, c: string)
    ensures forall w, e :: w in Whens(keys, rows, c) && e in Flatten(w.cond) ==> e.column in keys
  {
    if |rows| > 0 {
      WhenConditionsUseKeyColumns(keys, rows[1..], c);
      var cond := Condition(keys, rows[0].where);
      forall e: Eq | e in Flatten(cond)
        ensures e.column in keys
      {
        var i :| 0 <= i < |cond| && e in cond[i];
      }
    }
  }
}
