/**
 * The compiled UPDATE statement: its structure, the text the compiler
 * emits for it, and an abstract evaluation of that structure over the
 * records of one table.
 *
 * The structure keeps, for every key column of the first row, the GROUP of
 * comparisons (or of column names, or of tuple values) that key column
 * expands to: the compiler joins inside each group and then joins the
 * groups, and the text is rendered the same way.
 */
module Sql {

  // -----------------------------------------------------------------------
  // Structure

  /** What a THEN branch assigns: the bare keyword NULL or a quoted literal. */
  datatype Lit = NullLit | TextLit(text: string)

  /** `"column" = 'literal'`. */
  datatype Eq = Eq(column: string, literal: string)

  /** `WHEN (<AND of every comparison of every group>) THEN <result>`. */
  datatype When = When(cond: seq<seq<Eq>>, result: Lit)

  /** `"column" = CASE <whens> ELSE "column" END`. */
  datatype Assignment = Assignment(column: string, whens: seq<When>)

  /** `UPDATE "table" SET <sets> WHERE (<keyColumns>) IN (<tuples>);`. */
  datatype Update = Update(
    table: string,
    sets: seq<Assignment>,
    keyColumns: seq<seq<string>>,
    tuples: seq<seq<seq<string>>>)

  // -----------------------------------------------------------------------
  // Text

  /** `Array.prototype.join`. */
  function Join(sep: string, parts: seq<string>): string
  {
    if |parts| == 0 then ""
    else if |parts| == 1 then parts[0]
    else parts[0] + sep + Join(sep, parts[1..])
  }

  function QuoteIdent(name: string): string
  {
    "\"" + name + "\""
  }

  function QuoteLiteral(text: string): string
  {
    "'" + text + "'"
  }

  function RenderEq(e: Eq): string
  {
    QuoteIdent(e.column) + " = " + QuoteLiteral(e.literal)
  }

  function RenderGroup(g: seq<Eq>): string
  {
    Join(" AND ", seq(|g|, j requires 0 <= j < |g| => RenderEq(g[j])))
  }

  function RenderCond(cond: seq<seq<Eq>>): string
  {
    Join(" AND ", seq(|cond|, i requires 0 <= i < |cond| => RenderGroup(cond[i])))
  }

  function RenderLit(l: Lit): string
  {
    match l
    case NullLit => "NULL"
    case TextLit(t) => QuoteLiteral(t)
  }

  function RenderWhen(w: When): string
  {
    "WHEN (" + RenderCond(w.cond) + ") THEN " + RenderLit(w.result)
  }

  function RenderAssignment(a: Assignment): string
  {
    var cases := Join(" ", seq(|a.whens|, i requires 0 <= i < |a.whens| => RenderWhen(a.whens[i])));
    QuoteIdent(a.column) + " = CASE " + cases + " ELSE " + QuoteIdent(a.column) + " END"
  }

  function RenderColumnGroup(g: seq<string>): string
  {
    Join(",", seq(|g|, j requires 0 <= j < |g| => QuoteIdent(g[j])))
  }

  function RenderColumns(groups: seq<seq<string>>): string
  {
    Join(",", seq(|groups|, i requires 0 <= i < |groups| => RenderColumnGroup(groups[i])))
  }

  function RenderValueGroup(g: seq<string>): string
  {
    Join(",", seq(|g|, j requires 0 <= j < |g| => QuoteLiteral(g[j])))
  }

  function RenderTuple(t: seq<seq<string>>): string
  {
    "(" + Join(",", seq(|t|, i requires 0 <= i < |t| => RenderValueGroup(t[i]))) + ")"
  }

  /** A SET clause with no WHEN renders as a CASE with nothing between CASE and ELSE. */
  lemma RenderBareCase(c: string)
    ensures RenderAssignment(Assignment(c, [])) == QuoteIdent(c) + " = CASE  ELSE " + QuoteIdent(c) + " END"
  {
    assert Join(" ", []) == "";
  }

  /**
   * Nothing in a literal is escaped, so the text does not determine the
   * structure: a literal that closes its quote and spells out a second
   * WHEN renders exactly as two WHENs do.
   */
  lemma QuoteCollision(col: string, ca: seq<seq<Eq>>, cb: seq<seq<Eq>>, x: string, y: string)
    ensures var forged := x + "'" + " " + "WHEN (" + RenderCond(cb) + ") THEN " + "'" + y;
      RenderAssignment(Assignment(col, [When(ca, TextLit(forged))])) ==
      RenderAssignment(Assignment(col, [When(ca, TextLit(x)), When(cb, TextLit(y))]))
  {
    var forged := x + "'" + " " + "WHEN (" + RenderCond(cb) + ") THEN " + "'" + y;
    var one := [When(ca, TextLit(forged))];
    var two := [When(ca, TextLit(x)), When(cb, TextLit(y))];
    var p1 := seq(|one|, i requires 0 <= i < |one| => RenderWhen(one[i]));
    var p2 := seq(|two|, i requires 0 <= i < |two| => RenderWhen(two[i]));
    assert p1 == [RenderWhen(one[0])];
    assert p2 == [RenderWhen(two[0]), RenderWhen(two[1])];
    assert p2[1..] == [RenderWhen(two[1])];
    assert Join(" ", p2) == RenderWhen(two[0]) + " " + RenderWhen(two[1]);
    var a, b := RenderCond(ca), RenderCond(cb);
    calc {
      RenderWhen(one[0]);
      "WHEN (" + a + ") THEN " + ("'" + (x + "'" + " " + "WHEN (" + b + ") THEN " + "'" + y) + "'");
      ("WHEN (" + a + ") THEN " + ("'" + x + "'")) + " " + ("WHEN (" + b + ") THEN " + ("'" + y + "'"));
      RenderWhen(two[0]) + " " + RenderWhen(two[1]);
    }
    assert Join(" ", p1) == Join(" ", p2);
    var a1, a2 := Assignment(col, one), Assignment(col, two);
    assert seq(|a1.whens|, i requires 0 <= i < |a1.whens| => RenderWhen(a1.whens[i])) == p1;
    assert seq(|a2.whens|, i requires 0 <= i < |a2.whens| => RenderWhen(a2.whens[i])) == p2;
  }

  /** On a record that carries the second key only, the two statements of `QuoteCollision` disagree. */
  lemma QuoteCollisionDisagrees(r: Record, col: string, ca: seq<seq<Eq>>, cb: seq<seq<Eq>>, x: string, y: string)
    requires !CondHolds(r, ca) && CondHolds(r, cb)
    ensures var forged := x + "'" + " " + "WHEN (" + RenderCond(cb) + ") THEN " + "'" + y;
      EvalCase(r, [When(ca, TextLit(forged))], col) == Read(r, col) &&
      EvalCase(r, [When(ca, TextLit(x)), When(cb, TextLit(y))], col) == CText(y)
  {
    var two := [When(ca, TextLit(x)), When(cb, TextLit(y))];
    assert two[1..] == [When(cb, TextLit(y))];
  }

  /** The statement text, with the line breaks and indentation of the source's template literal. */
  function Render(u: Update): string
  {
    var sets := Join(", ", seq(|u.sets|, i requires 0 <= i < |u.sets| => RenderAssignment(u.sets[i])));
    var tuples := Join(",", seq(|u.tuples|, i requires 0 <= i < |u.tuples| => RenderTuple(u.tuples[i])));
    "\n        UPDATE " + QuoteIdent(u.table) + "\n        SET " + sets
      + "\n        WHERE (" + RenderColumns(u.keyColumns) + ") IN (" + tuples + ");\n      "
  }

  // -----------------------------------------------------------------------
  // Evaluation over a table

  /** A stored cell: SQL NULL, or a value identified by its text. */
  datatype Cell = CNull | CText(text: string)

  /** One stored record, by column name. */
  type Record = map<string, Cell>

  function Read(r: Record, column: string): Cell
  {
    if column in r then r[column] else CNull
  }

  function Flatten<T(!new)>(gs: seq<seq<T>>): (f: seq<T>)
    ensures |gs| > 0 ==> f == gs[0] + Flatten(gs[1..])
    ensures forall x :: x in f <==> exists i :: 0 <= i < |gs| && x in gs[i]
  {
    if |gs| == 0 then [] else gs[0] + Flatten(gs[1..])
  }

  /** `"column" = 'literal'` is true of `r`: a NULL cell equals nothing. */
  predicate Holds(r: Record, e: Eq)
  {
    Read(r, e.column) == CText(e.literal)
  }

  predicate CondHolds(r: Record, cond: seq<seq<Eq>>)
  {
    forall e :: e in Flatten(cond) ==> Holds(r, e)
  }

  function LitCell(l: Lit): Cell
  {
    match l
    case NullLit => CNull
    case TextLit(t) => CText(t)
  }

  /** CASE: the first WHEN whose condition holds decides; with none, the column keeps its value. */
  function EvalCase(r: Record, whens: seq<When>, column: string): Cell
  {
    if |whens| == 0 then Read(r, column)
    else if CondHolds(r, whens[0].cond) then LitCell(whens[0].result)
    else EvalCase(r, whens[1..], column)
  }

  predicate TupleMatches(r: Record, columns: seq<string>, values: seq<string>)
  {
    |columns| == |values| &&
    forall i :: 0 <= i < |columns| ==> Read(r, columns[i]) == CText(values[i])
  }

  /** The WHERE (...) IN (...) filter lets `r` through. */
  predicate Selected(u: Update, r: Record)
  {
    exists t :: t in u.tuples && TupleMatches(r, Flatten(u.keyColumns), Flatten(t))
  }

  /** The SET list: each column receives its CASE evaluated on the record as it was before the update. */
  function Assign(before: Record, r: Record, sets: seq<Assignment>): Record
    decreases |sets|
  {
    if |sets| == 0 then r
    else Assign(before, r[sets[0].column := EvalCase(before, sets[0].whens, sets[0].column)], sets[1..])
  }

  function ExecRecord(u: Update, r: Record): Record
  {
    if Selected(u, r) then Assign(r, r, u.sets) else r
  }

  /** The statement run against a table: every record is updated on its own. */
  function Execute(u: Update, table: seq<Record>): seq<Record>
  {
    seq(|table|, i requires 0 <= i < |table| => ExecRecord(u, table[i]))
  }

  // -----------------------------------------------------------------------
  // Facts about evaluation

  /** The column names of a condition, group by group. */
  function ColumnsOf(cond: seq<seq<Eq>>): seq<seq<string>>
  {
    seq(|cond|, i requires 0 <= i < |cond| => seq(|cond[i]|, j requires 0 <= j < |cond[i]| => cond[i][j].column))
  }

  /** The literals of a condition, group by group. */
  function LiteralsOf(cond: seq<seq<Eq>>): seq<seq<string>>
  {
    seq(|cond|, i requires 0 <= i < |cond| => seq(|cond[i]|, j requires 0 <= j < |cond[i]| => cond[i][j].literal))
  }

  lemma {:induction false} FlattenColumns(cond: seq<seq<Eq>>)
    ensures |Flatten(ColumnsOf(cond))| == |Flatten(cond)|
    ensures forall k :: 0 <= k < |Flatten(cond)| ==> Flatten(ColumnsOf(cond))[k] == Flatten(cond)[k].column
  {
    if |cond| > 0 {
      FlattenColumns(cond[1..]);
      var cs := ColumnsOf(cond);
      assert cs[1..] == ColumnsOf(cond[1..]);
      var n := |cond[0]|;
      forall k | 0 <= k < |Flatten(cond)|
        ensures Flatten(cs)[k] == Flatten(cond)[k].column
      {
        if k < n {
          assert Flatten(cs)[k] == cs[0][k];
        } else {
          assert Flatten(cs)[k] == Flatten(cs[1..])[k - n];
          assert Flatten(cond)[k] == Flatten(cond[1..])[k - n];
        }
      }
    }
  }

  lemma {:induction false} FlattenLiterals(cond: seq<seq<Eq>>)
    ensures |Flatten(LiteralsOf(cond))| == |Flatten(cond)|
    ensures forall k :: 0 <= k < |Flatten(cond)| ==> Flatten(LiteralsOf(cond))[k] == Flatten(cond)[k].literal
  {
    if |cond| > 0 {
      FlattenLiterals(cond[1..]);
      var ls := LiteralsOf(cond);
      assert ls[1..] == LiteralsOf(cond[1..]);
      var n := |cond[0]|;
      forall k | 0 <= k < |Flatten(cond)|
        ensures Flatten(ls)[k] == Flatten(cond)[k].literal
      {
        if k < n {
          assert Flatten(ls)[k] == ls[0][k];
        } else {
          assert Flatten(ls)[k] == Flatten(ls[1..])[k - n];
          assert Flatten(cond)[k] == Flatten(cond[1..])[k - n];
        }
      }
    }
  }

  /**
   * A record matches the tuple of a condition's literals over the list of
   * its columns exactly when the condition itself holds of the record.
   */
  lemma TupleMatchesIffCondHolds(r: Record, cond: seq<seq<Eq>>)
    ensures TupleMatches(r, Flatten(ColumnsOf(cond)), Flatten(LiteralsOf(cond))) <==> CondHolds(r, cond)
  {
    FlattenColumns(cond);
    FlattenLiterals(cond);
    var f := Flatten(cond);
    if CondHolds(r, cond) {
      forall k | 0 <= k < |f|
        ensures Read(r, Flatten(ColumnsOf(cond))[k]) == CText(Flatten(LiteralsOf(cond))[k])
      {
        assert f[k] in f;
      }
    }
    if TupleMatches(r, Flatten(ColumnsOf(cond)), Flatten(LiteralsOf(cond))) {
      forall e | e in f
        ensures Holds(r, e)
      {
        var k :| 0 <= k < |f| && f[k] == e;
      }
    }
  }

  /** What the SET list writes: later assignments of one column win. */
  function Overrides(before: Record, sets: seq<Assignment>): (m: map<string, Cell>)
    ensures m.Keys == set a | a in sets :: a.column
  {
    if |sets| == 0 then map[]
    else map[sets[0].column := EvalCase(before, sets[0].whens, sets[0].column)] + Overrides(before, sets[1..])
  }

  lemma {:induction false} AssignIsOverride(before: Record, r: Record, sets: seq<Assignment>)
    ensures Assign(before, r, sets) == r + Overrides(before, sets)
    decreases |sets|
  {
    if |sets| > 0 {
      var c := sets[0].column;
      var v := EvalCase(before, sets[0].whens, c);
      AssignIsOverride(before, r[c := v], sets[1..]);
      var o := Overrides(before, sets[1..]);
      var lhs, rhs := r[c := v] + o, r + (map[c := v] + o);
      assert lhs.Keys == rhs.Keys;
      forall k | k in lhs
        ensures lhs[k] == rhs[k]
      {
        if k !in o && k != c {
          assert lhs[k] == r[k];
        }
      }
      assert lhs == rhs;
    }
  }

  predicate DistinctColumns(sets: seq<Assignment>)
  {
    forall i, j :: 0 <= i < j < |sets| ==> sets[i].column != sets[j].column
  }

  lemma {:induction false} OverridesAt(before: Record, sets: seq<Assignment>, i: nat)
    requires DistinctColumns(sets) && i < |sets|
    ensures Overrides(before, sets)[sets[i].column] == EvalCase(before, sets[i].whens, sets[i].column)
  {
    if i > 0 {
      OverridesAt(before, sets[1..], i - 1);
      assert sets[1..][i - 1] == sets[i];
    } else if |sets| > 1 {
      assert sets[0].column !in Overrides(before, sets[1..]);
    }
  }

  /**
   * After the SET list, a column assigned by the list holds its CASE
   * evaluated on the old record, and every other column is as it was.
   */
  lemma AssignRead(r: Record, sets: seq<Assignment>, c: string)
    requires DistinctColumns(sets)
    ensures forall i :: 0 <= i < |sets| && sets[i].column == c ==>
      Read(Assign(r, r, sets), c) == EvalCase(r, sets[i].whens, c)
    ensures (forall i :: 0 <= i < |sets| ==> sets[i].column != c) ==> Read(Assign(r, r, sets), c) == Read(r, c)
  {
    AssignIsOverride(r, r, sets);
    forall i | 0 <= i < |sets| && sets[i].column == c
      ensures Read(Assign(r, r, sets), c) == EvalCase(r, sets[i].whens, c)
    {
      OverridesAt(r, sets, i);
    }
  }

  lemma {:induction false} OverridesAgree(b1: Record, b2: Record, sets: seq<Assignment>)
    requires forall i :: 0 <= i < |sets| ==>
      EvalCase(b1, sets[i].whens, sets[i].column) == EvalCase(b2, sets[i].whens, sets[i].column)
    ensures Overrides(b1, sets) == Overrides(b2, sets)
  {
    if |sets| > 0 {
      OverridesAgree(b1, b2, sets[1..]);
    }
  }

  /** A CASE gives the same cell on two records that agree on what it reads. */
  lemma {:induction false} EvalCaseStable(r: Record, r2: Record, whens: seq<When>, c: string)
    requires forall w, e :: w in whens && e in Flatten(w.cond) ==> Read(r2, e.column) == Read(r, e.column)
    requires Read(r2, c) == EvalCase(r, whens, c)
    ensures EvalCase(r2, whens, c) == EvalCase(r, whens, c)
  {
    if |whens| > 0 {
      assert CondHolds(r2, whens[0].cond) == CondHolds(r, whens[0].cond) by {
        assert whens[0] in whens;
      }
      if !CondHolds(r, whens[0].cond) {
        EvalCaseStable(r, r2, whens[1..], c);
      }
    }
  }

  /** The columns a statement sets. */
  function SetColumns(u: Update): set<string>
  {
    set a | a in u.sets :: a.column
  }

  /** The columns a statement reads to decide which record gets which value. */
  function DecidingColumns(u: Update): set<string>
  {
    (set c | c in Flatten(u.keyColumns)) +
    (set a, w, e | a in u.sets && w in a.whens && e in Flatten(w.cond) :: e.column)
  }

  /** No column is set twice, and no column that is set is read by a WHEN or by the IN filter. */
  predicate SetsIndependent(u: Update)
  {
    DistinctColumns(u.sets) && SetColumns(u) !! DecidingColumns(u)
  }

  lemma SelectedStable(u: Update, r: Record, r2: Record)
    requires forall c :: c in Flatten(u.keyColumns) ==> Read(r2, c) == Read(r, c)
    ensures Selected(u, r2) <==> Selected(u, r)
  {
    var cols := Flatten(u.keyColumns);
    forall t | t in u.tuples
      ensures TupleMatches(r2, cols, Flatten(t)) <==> TupleMatches(r, cols, Flatten(t))
    {
      forall i | 0 <= i < |cols|
        ensures Read(r2, cols[i]) == Read(r, cols[i])
      {
        assert cols[i] in cols;
      }
    }
  }

  /** After one run, the CASE of every assignment evaluates as it did on the old record. */
  lemma CasesStable(u: Update, r: Record)
    requires SetsIndependent(u)
    ensures forall i :: 0 <= i < |u.sets| ==>
      EvalCase(r + Overrides(r, u.sets), u.sets[i].whens, u.sets[i].column) == EvalCase(r, u.sets[i].whens, u.sets[i].column)
  {
    var r2 := r + Overrides(r, u.sets);
    forall i | 0 <= i < |u.sets|
      ensures EvalCase(r2, u.sets[i].whens, u.sets[i].column) == EvalCase(r, u.sets[i].whens, u.sets[i].column)
    {
      var a := u.sets[i];
      forall w, e | w in a.whens && e in Flatten(w.cond)
        ensures Read(r2, e.column) == Read(r, e.column)
      {
        assert a in u.sets;
        assert e.column in DecidingColumns(u);
      }
      OverridesAt(r, u.sets, i);
      EvalCaseStable(r, r2, a.whens, a.column);
    }
  }

  /**
   * Running such a statement a second time changes nothing more: it
   * assigns absolute values, and what decides them is left untouched.
   */
  lemma ExecRecordIdempotent(u: Update, r: Record)
    requires SetsIndependent(u)
    ensures ExecRecord(u, ExecRecord(u, r)) == ExecRecord(u, r)
  {
    if Selected(u, r) {
      var o := Overrides(r, u.sets);
      AssignIsOverride(r, r, u.sets);
      var r2 := r + o;
      forall c | c in Flatten(u.keyColumns)
        ensures Read(r2, c) == Read(r, c)
      {
        assert c in DecidingColumns(u);
      }
      SelectedStable(u, r, r2);
      CasesStable(u, r);
      OverridesAgree(r2, r, u.sets);
      AssignIsOverride(r2, r2, u.sets);
      assert r2 + o == r2;
    }
  }

  lemma ExecuteIdempotent(u: Update, table: seq<Record>)
    requires SetsIndependent(u)
    ensures Execute(u, Execute(u, table)) == Execute(u, table)
  {
    forall i | 0 <= i < |table|
      ensures Execute(u, Execute(u, table))[i] == Execute(u, table)[i]
    {
      ExecRecordIdempotent(u, table[i]);
    }
  }
}
