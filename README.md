# bulkUpdateCompoundWhere, modelled in Dafny

The repository is a Prisma client extension. It offers `bulkUpdateCompoundWhere`, which turns a
batch of update requests into a single SQL `UPDATE` statement. Each request has:

- a `where`: the compound unique key of one row;
- a `data`: the columns to give that row.

Every touched column gets `"col" = CASE WHEN (<key of row 1>) THEN <value> ... ELSE "col" END`. A
`WHERE (<key columns>) IN ((...), (...))` filter limits the update to the rows of the batch.

There are two variants.

- **Model-bound** (`src/update/index.ts`). The table is the model's name. A `where` property may
  be a compound-unique wrapper such as `orgId_email: {orgId, email}`, and it is expanded into its
  inner columns. An explicit `null` in `data` is written as the bare keyword `NULL`.
- **Client** (`src/index.ts`). The caller names the table. Every `where` property is a column.
  Every THEN value is quoted, so `null` becomes the text `'null'`.

## Modules

- `wrappers.dfy` has `Wrappers`, which defines `Option`.
- `js_objects.dfy` has `JsObjects`:
  - JavaScript values (`Str | Int | Bool | Null | Undefined`);
  - plain objects, as association lists in insertion order (the order `Object.keys`, `Object.values` and `Object.entries` follow);
  - property access;
  - the text a template literal makes of a value.
- `column_set.dfy` has `ColumnSet`, the union of the `data` keys:
  - it is the `Set` that the source fills with `add` inside nested loops;
  - it is given both as a specification function (`DataColumns`) and as the loop itself (`CollectDataColumns`).
- `sql.dfy` has `Sql`, which covers four things:
  - The structure of the statement. Each key column keeps its group of comparisons, column names or tuple values, so the nested joins of the source can be reproduced.
  - `Render`, which builds the exact text of the source's template literals.
  - An abstract evaluator: which stored records the IN filter admits, and what each CASE yields.
  - Lemmas about the evaluator, including idempotence.
- `model_bulk_update.dfy` has `ModelBulkUpdate`, the compiler of `src/update/index.ts` and what its statement does.
- `client_bulk_update.dfy` has `ClientBulkUpdate`, the same for `src/index.ts`.
- `scenarios.dfy` has `Scenarios`: the batches of the repository's tests, worked through the model.

The compilers are pure apart from the loop that collects the data columns. In each variant:

- `Plan` builds the statement's structure. `None` means the source returns before executing.
- `Compile` renders it.
- The method `BulkUpdateCompoundWhere` does what the source does: it runs the collecting loop and then builds the text. Its result is proved equal to `Compile`.

What the statement does is stated against an independent reference, `FirstSetter`. For a stored
record and a column, it gives the value of the first row, in batch order, that meets both of these:

- the record carries that row's key;
- the row's `data` gives the column a value other than `undefined`.

`ExecutionEffect` proves that the compiled CASE/IN statement gives every column of every record
exactly that value. A column with no such row keeps its cell. The evaluator reads the statement's
structure, and the text stands for that structure only while no literal holds a `'` and no name a
`"` (see `Sql.QuoteCollision` and "## Left out").

## Model

| member | source | states |
|---|---|---|
| JsObjects.Get | src/update/index.ts:66 | property access yields `undefined` for a key the object does not have as its own property (`GetFirst` gives the value when it has one) |
| JsObjects.GetFirst | src/update/index.ts:66 | when the first property named `k` sits at position `i`, property access yields that property's value |
| JsObjects.Digits | src/update/index.ts:73 | a natural number's text inside a template literal is a non-empty run of decimal digits with no leading zero (`IntText` puts a `-` before a negative integer's magnitude) |
| JsObjects.DigitsRoundTrip | src/update/index.ts:73 | the decimal text of a natural number reads back as that number |
| JsObjects.IntTextRoundTrip | src/index.ts:57 | the text of an integer reads back as that integer, so two different integer keys never give the same literal |
| ColumnSet.Dedup | src/update/index.ts:48-53 | the `Set` keeps every added key exactly once: no duplicates, and the same members as the keys added |
| ColumnSet.DedupKeepsFirstAppearanceOrder | src/update/index.ts:64 | spreading the `Set` lists the columns in the order of their first appearance among the keys added |
| ColumnSet.AllKeysMembers | src/update/index.ts:49-53 | a key is visited by the filling loop exactly when some row's `data` has it |
| ColumnSet.DataColumnsMembers | src/index.ts:38-41 | a column is in the union exactly when some row's `data` has it, and a column outside the union is `undefined` in every row |
| ColumnSet.DataColumnsEmpty | src/update/index.ts:55 | the union is empty exactly when every row's `data` is empty |
| ColumnSet.AddKeys | src/update/index.ts:50-52 | the inner loop leaves the set as it would be after adding one row's keys in order |
| ColumnSet.CollectDataColumns | src/update/index.ts:48-53 | the nested loop produces exactly the insertion-ordered union `DataColumns` |
| Sql.Flatten | src/update/index.ts:78 | joining the groups keeps every element of every group and nothing else, group after group |
| Sql.FlattenColumns | src/update/index.ts:92-101 | the flattened column list of a condition lines up, position by position, with its flattened comparisons |
| Sql.FlattenLiterals | src/update/index.ts:102-117 | the flattened literal list of a condition lines up, position by position, with its flattened comparisons |
| Sql.TupleMatchesIffCondHolds | src/update/index.ts:123 | a record matches the IN tuple of a condition's literals over its columns exactly when the AND of its comparisons holds |
| Sql.QuoteCollision | src/index.ts:59-61 | a THEN literal that holds `' WHEN (<cond>) THEN '` renders exactly as two WHENs do, so the text alone does not fix the structure |
| Sql.QuoteCollisionDisagrees | src/update/index.ts:82-83 | on a record that carries only the second key, those two structures give different cells |
| Sql.RenderBareCase | src/update/index.ts:86 | a SET clause with no WHEN is written `"c" = CASE  ELSE "c" END` |
| Sql.Overrides | src/update/index.ts:122 | the SET list writes exactly the columns it names |
| Sql.AssignIsOverride | src/update/index.ts:122 | evaluating the SET list is the old record overridden by every assignment, each CASE read on the old record |
| Sql.OverridesAt | src/update/index.ts:122 | with distinct columns, each assigned column receives its own CASE's value |
| Sql.AssignRead | src/update/index.ts:86 | after the SET list, an assigned column holds its CASE on the old record and an unassigned column keeps its cell |
| Sql.OverridesAgree | src/update/index.ts:122 | two records on which every CASE agrees receive the same assignments |
| Sql.EvalCaseStable | src/update/index.ts:83 | a CASE gives the same cell on two records that agree on every column its WHENs compare, provided the second record's own cell in the CASE's column is what the CASE gives on the first (the ELSE reads each record's own cell) |
| Sql.SelectedStable | src/update/index.ts:123 | the IN filter treats alike two records that agree on the key columns |
| Sql.CasesStable | src/update/index.ts:86 | when no set column is compared anywhere, every CASE evaluates after the update as it did before |
| Sql.ExecRecordIdempotent | src/update/index.ts:120-124 | such a statement applied twice to a record gives what applying it once gives |
| Sql.ExecuteIdempotent | src/update/index.ts:120-124 | such a statement run twice over a table leaves it as running it once does |
| ModelBulkUpdate.ThenLit | src/update/index.ts:79-82 | a THEN value is the bare keyword NULL exactly when the value is `null`, and a quoted literal otherwise |
| ModelBulkUpdate.Plan | src/update/index.ts:39-124 | no statement exactly when the batch is empty or every `data` is empty; otherwise the table is the model's name, there is one SET clause per union column in union order, and one IN tuple per row |
| ModelBulkUpdate.BulkUpdateCompoundWhere | src/update/index.ts:35-125 | the method's text is the compiled statement, and it sends nothing exactly when the batch or the union is empty |
| ModelBulkUpdate.WhensConcat | src/update/index.ts:65-66 | a column's WHENs follow the batch: those of two batches in a row are those of the first followed by those of the second |
| ModelBulkUpdate.WhensOfOneRow | src/update/index.ts:65-83 | a row gives a column one WHEN exactly when its `data` value is not `undefined`; the WHEN has that row's condition and THEN value |
| ModelBulkUpdate.InListMirrorsCondition | src/update/index.ts:92-117 | the IN column groups are the columns the first row's condition compares, a wrapper giving its inner keys; each row's tuple groups are the literals of its own condition |
| ModelBulkUpdate.InColumnCount | src/update/index.ts:92-101 | the IN list has as many columns, and as many values per tuple, as the row's condition has comparisons |
| ModelBulkUpdate.FirstSetter | src/update/index.ts:64-86 | the value the batch intends for a record's column is never `undefined`, and it comes from a row whose key the record carries |
| ModelBulkUpdate.FirstSetterNone | src/update/index.ts:65-66 | `FirstSetter` gives nothing exactly when no row both carries the record's key and sets the column |
| ModelBulkUpdate.FirstSetterFirst | src/update/index.ts:65-85 | the earliest row, in batch order, that carries the record's key and sets the column decides; later rows that also set it are not consulted |
| ModelBulkUpdate.ConditionIffKeyMatches | src/update/index.ts:68-78 | a row's WHEN condition holds exactly when the record equals the row's key on every key column and on every inner column of a wrapper |
| ModelBulkUpdate.EvalWhens | src/update/index.ts:64-86 | a column's CASE yields the value of the first row that matches the record and sets the column (NULL for `null`), and the old cell when no row does |
| ModelBulkUpdate.SelectedIffSomeKeyMatches | src/update/index.ts:92-123 | when every row expands to the first row's key columns, the IN filter admits exactly the records that carry some row's key |
| ModelBulkUpdate.ExecutionEffect | src/update/index.ts:64-124 | after the statement, every column of every record holds what `FirstSetter` gives, or its old cell when that gives nothing |
| ModelBulkUpdate.UntargetedRecordUnchanged | src/update/index.ts:102-123 | a record that carries no row's key is left exactly as it was |
| ModelBulkUpdate.CompiledIdempotent | src/update/index.ts:120-124 | when no data column is a key column, running the statement twice leaves the table as running it once |
| ModelBulkUpdate.WhenConditionsUseKeyColumns | src/update/index.ts:68-78 | when every row expands to the first row's key columns, every WHEN compares only those expanded key columns |
| ClientBulkUpdate.ThenLit | src/index.ts:59-61 | every THEN value is a quoted literal, `null` included |
| ClientBulkUpdate.Plan | src/index.ts:30-85 | no statement exactly when the batch is empty or every `data` is empty; otherwise the table is the caller's name verbatim, with one SET clause per union column in union order and one IN tuple per row |
| ClientBulkUpdate.BulkUpdateCompoundWhere | src/index.ts:26-86 | the method's text is the compiled statement, and it sends nothing exactly when the batch or the union is empty |
| ClientBulkUpdate.FlatText | src/index.ts:56-58 | a WHEN condition is the AND-join of `"k" = 'v'` over the key columns, the IN column list the comma-join of the quoted keys, a tuple the comma-join of the quoted values |
| ClientBulkUpdate.WhensConcat | src/index.ts:53-54 | a column's WHENs follow the batch: those of two batches in a row are those of the first followed by those of the second |
| ClientBulkUpdate.WhensOfOneRow | src/index.ts:53-62 | a row gives a column one WHEN exactly when its `data` value is not `undefined`; the WHEN has that row's condition and THEN value |
| ClientBulkUpdate.InListMirrorsCondition | src/index.ts:70-78 | the IN column groups are the columns every row's condition compares, and each row's tuple groups are the literals of its condition |
| ClientBulkUpdate.InListArity | src/index.ts:70-78 | the IN column list is exactly the first row's keys, once each and in order, and every tuple has one value per key column |
| ClientBulkUpdate.FlattenSingletons | src/index.ts:70 | the one-column groups of the IN list join to the key list itself |
| ClientBulkUpdate.FirstSetter | src/index.ts:52-65 | the value the batch intends for a record's column is never `undefined`, and it comes from a row whose key the record carries |
| ClientBulkUpdate.FirstSetterNone | src/index.ts:53-54 | `FirstSetter` gives nothing exactly when no row both carries the record's key and sets the column |
| ClientBulkUpdate.FirstSetterFirst | src/index.ts:53-63 | the earliest row, in batch order, that carries the record's key and sets the column decides; later rows that also set it are not consulted |
| ClientBulkUpdate.ConditionIffKeyMatches | src/index.ts:56-58 | a row's WHEN condition holds exactly when the record equals the row's `where` on every key column |
| ClientBulkUpdate.EvalWhens | src/index.ts:52-64 | a column's CASE yields the text of the first row that matches the record and sets the column (the text "null" for `null`), or the old cell when no row does |
| ClientBulkUpdate.SelectedIffSomeKeyMatches | src/index.ts:70-84 | the IN filter admits exactly the records that carry some row's key |
| ClientBulkUpdate.ExecutionEffect | src/index.ts:52-85 | after the statement, every column of every record holds what `FirstSetter` gives, or its old cell when that gives nothing |
| ClientBulkUpdate.UntargetedRecordUnchanged | src/index.ts:70-84 | a record that carries no row's key is left exactly as it was |
| ClientBulkUpdate.CompiledIdempotent | src/index.ts:81-85 | when no data column is a key column, running the statement twice leaves the table as running it once |
| ClientBulkUpdate.WhenConditionsUseKeyColumns | src/index.ts:56-58 | every WHEN compares only key columns |
| Scenarios.TwoRowBatchColumns | src/update/index.test.ts:59-68 | the union of the two-row test batch is `["name", "status"]` |
| Scenarios.TwoRowBatchWhens | src/update/index.test.ts:59-68 | in that batch `name` has Alice's WHEN only; `status` has Alice's and then Bob's |
| Scenarios.TwoRowBatchTuples | src/update/index.test.ts:59-68 | the IN tuples of that batch are `('1','alice@corp.com')` and `('1','bob@corp.com')` |
| Scenarios.TwoRowBatchPlan | src/update/index.test.ts:59-68 | the whole statement compiled for that batch |
| Scenarios.AliceCarriesOnlyHerKey | src/update/index.test.ts:61-65 | Alice's stored record carries her key and not Bob's |
| Scenarios.BobCarriesOnlyHisKey | src/update/index.test.ts:61-65 | Bob's stored record carries his key and not Alice's |
| Scenarios.TwoRowBatchAlice | src/update/index.test.ts:51-79 | after the batch Alice has name "Alice Updated" and status "ACTIVE" |
| Scenarios.TwoRowBatchBob | src/update/index.test.ts:51-79 | after the batch Bob has status "INACTIVE" and keeps his name, as a row that omits a column leaves it alone |
| Scenarios.NoMatchingRowScenario | src/update/index.test.ts:87-117 | a batch whose key matches no stored record leaves both Alice's and Bob's records exactly as they were |
| Scenarios.ModelNullScenario | src/update/index.test.ts:171-191 | `name: null` stores NULL in Alice's name, and her status becomes "ACTIVE" |
| Scenarios.ClientNullScenario | src/index.ts:59-61 | with the client method the same `null` stores the text "null" |
| Scenarios.BooleanAlice | src/update/index.test.ts:192-220 | after the boolean batch, whatever the model's name, Alice's `isActive` goes from `false` to the text of `true` |
| Scenarios.BooleanBob | src/update/index.test.ts:192-220 | after the same batch Bob's `isActive` goes from `false` to the text of `true` |
| Scenarios.FirstListedWins | src/update/index.ts:65-85 | for any model name, when two rows on Alice's key disagree on `status`, her record gets the earlier row's value |
| Scenarios.ClientTwoRowAlice | src/index.test.ts:32-59 | after the client method's two-row batch, on any table name and so on `user`, Alice has name "Alice Updated" and status "ACTIVE" |
| Scenarios.ClientTwoRowBob | src/index.test.ts:32-59 | after the same batch Bob has status "INACTIVE" and keeps his name |
| Scenarios.KeyShiftNotIdempotent | src/index.ts:52-85 | when `data` sets a key column, a second run can move a record again: id 1 becomes 2, and then 3 |
| Scenarios.ReorderedKeyMissesBob | src/update/index.ts:92-123 | when Bob's wrapper lists `email` before `orgId`, the batch means to set his status, yet the IN filter pairs his values with the first row's `("orgId", "email")` and his record is left exactly as it was |
| Scenarios.UndefinedValueGivesBareCase | src/update/index.ts:64-86 | a `data` key whose value is `undefined` still gets a SET clause, but one with no WHEN |

The definitions below have no row of their own. Some carry an `ensures` that only writes out their
own body (`Keys`, both `Datas`) or serves as a helper (`ColumnSet.FirstIndex`, the position of a
first occurrence, through which `DedupKeepsFirstAppearanceOrder` is stated). What they model is
stated by the members above.

- Values and objects:
  - `JsObjects.Keys`: `Object.keys`, of a `data` or a `where` (src/update/index.ts:43,50,95 and src/index.ts:33,40);
  - `JsObjects.ToText` and `JsObjects.IntText`: what `${v}` makes of a value (src/update/index.ts:73,76,82,109,112 and src/index.ts:57,59-61,74);
  - `ModelBulkUpdate.WhereGet`: `row.where[k]` (src/update/index.ts:70,94,106).
- The union of the data columns:
  - `ColumnSet.AllKeys`: the keys in the order the loop of src/update/index.ts:49-53 and src/index.ts:39-41 visits them;
  - `ColumnSet.DataColumns`: `[...allDataColumns]` (src/update/index.ts:64, src/index.ts:52);
  - the two `Datas`: every row's `data`, in batch order (src/update/index.ts:49, src/index.ts:39).
- The compilers:
  - both `KeyNames`: `Object.keys(rows[0].where)` (src/update/index.ts:43, src/index.ts:33);
  - `Whens`, `RowWhens`, `Condition` (and the client's `KeyComparisons`), `KeyGroup`: the CASE builder of src/update/index.ts:64-86 and src/index.ts:52-65, with the nested expansion of src/update/index.ts:68-78;
  - both `Assignments`: the `setClauses` map (src/update/index.ts:64-87, src/index.ts:52-65);
  - `KeyColumnGroups`, `TupleGroups`, `Tuples`: the IN list of src/update/index.ts:92-117 and src/index.ts:70-78;
  - both `Compile`: the text handed to `$executeRawUnsafe` (src/update/index.ts:120-124, src/index.ts:81-85).
- `Sql.Render` and the `Render*` functions: the template literals of src/update/index.ts:73-124 and src/index.ts:57-85.

## Left out

- The Prisma plumbing (the client, `$extends`, and registration on every model) is not modelled. It is the setting, not the logic.
- `Prisma.getExtensionContext(this).$name`: the model's name is a plain parameter.
- `$executeRawUnsafe` and its `await` are database I/O. The model returns the text that would be sent. The database is replaced by the abstract evaluator in `Sql`.
- ModelBulkUpdate.Plan: requires `!ReachesNullKey(rows)`. Once there is something to SET, a `null` under one of the first row's `where` keys makes the source throw: `typeof null === "object"`, and then `Object.entries`/`Object.keys`/`Object.values` is called on `null`. The model has no exception path, so it excludes that input.
- ModelBulkUpdate.ExecutionEffect: assumes that every row expands to the same key columns, in the same order, as the first row (`ConsistentKeyShape`). The source builds the IN column list from the first row only. It leaves this check as a comment (src/update/index.ts:44-45). Without the assumption, a row's tuple values can be compared with another row's columns. `SelectedIffSomeKeyMatches`, `UntargetedRecordUnchanged`, `CompiledIdempotent` and `WhenConditionsUseKeyColumns` carry the same assumption. Listing a wrapper's inner properties in another order is enough to break it, and then a record the batch means to update is silently skipped: `Scenarios.ReorderedKeyMissesBob` shows it.
- ModelBulkUpdate.WhenConditionsUseKeyColumns: requires every row to expand to the first row's key columns, as the line above says. A row whose wrapper has other inner keys gives a WHEN that compares columns outside the IN list, and the source does not check for it.
- Numbers are integers only, and unbounded. JavaScript numbers are doubles, so an integer beyond 2^53 has no exact counterpart and its text in the source may differ. Fractions, `NaN`, `Infinity`, `-0` and the exponent form that JavaScript prints from 1e21 upwards are not modelled.
- `data` values that are objects (for example Prisma's `{increment: 1}`) are not modelled. In the source they would render as `[object Object]`.
- `where` values in the client variant are scalars. An object there would also render as `[object Object]`.
- Property order: objects keep insertion order. JavaScript lists integer-like keys first, in numeric order; that is not modelled.
- The evaluator is abstract in these ways:
  - A cell is compared by its text. The database's type coercion of `'1'` against an integer column is not modelled.
  - A stored column that is missing reads as NULL.
  - A CASE with no WHEN is evaluated like its ELSE. PostgreSQL's grammar asks for at least one WHEN, so the text that `UndefinedValueGivesBareCase` exhibits would be rejected by the database.
  - SQL syntax is not checked at all. For example, an empty wrapper object produces a dangling ` AND `.
- The source escapes neither quotes nor identifiers, and neither does the model. `Render` then does not determine the structure: `Sql.QuoteCollision` shows a literal that renders as two WHENs, and `Sql.QuoteCollisionDisagrees` shows the two differ on a record. The theorems below describe the structure the compiler builds; they describe the text the database receives only when no literal holds `'` and no table, column or key name holds `"`.
- ModelBulkUpdate.ExecutionEffect: holds of the text sent only when no literal holds `'`, no name holds `"`, every SET column has at least one WHEN (no bare `CASE  ELSE`) and no wrapper object is empty (no dangling ` AND `); otherwise the database receives different text or rejects it, as the escaping and SQL-syntax lines above say.
- ModelBulkUpdate.SelectedIffSomeKeyMatches: holds of the text sent only when no literal holds `'`, no name holds `"`, every SET column has at least one WHEN (no bare `CASE  ELSE`) and no wrapper object is empty (no dangling ` AND `); otherwise the database receives different text or rejects it, as the escaping and SQL-syntax lines above say.
- ModelBulkUpdate.UntargetedRecordUnchanged: holds of the text sent only when no literal holds `'`, no name holds `"`, every SET column has at least one WHEN (no bare `CASE  ELSE`) and no wrapper object is empty (no dangling ` AND `); otherwise the database receives different text or rejects it, as the escaping and SQL-syntax lines above say.
- ModelBulkUpdate.CompiledIdempotent: holds of the text sent only when no literal holds `'`, no name holds `"`, every SET column has at least one WHEN (no bare `CASE  ELSE`) and no wrapper object is empty (no dangling ` AND `); otherwise the database receives different text or rejects it, as the escaping and SQL-syntax lines above say.
- ClientBulkUpdate.ExecutionEffect: holds of the text sent only when no literal holds `'`, no name holds `"`, every SET column has at least one WHEN (no bare `CASE  ELSE`); otherwise the database receives different text or rejects it, as the escaping and SQL-syntax lines above say.
- ClientBulkUpdate.SelectedIffSomeKeyMatches: holds of the text sent only when no literal holds `'`, no name holds `"`, every SET column has at least one WHEN (no bare `CASE  ELSE`); otherwise the database receives different text or rejects it, as the escaping and SQL-syntax lines above say.
- ClientBulkUpdate.UntargetedRecordUnchanged: holds of the text sent only when no literal holds `'`, no name holds `"`, every SET column has at least one WHEN (no bare `CASE  ELSE`); otherwise the database receives different text or rejects it, as the escaping and SQL-syntax lines above say.
- ClientBulkUpdate.CompiledIdempotent: holds of the text sent only when no literal holds `'`, no name holds `"`, every SET column has at least one WHEN (no bare `CASE  ELSE`); otherwise the database receives different text or rejects it, as the escaping and SQL-syntax lines above say.
- JsObjects.Get: reads own properties only. JavaScript property access also finds names inherited from `Object.prototype` (`constructor`, `toString`, `valueOf`, `hasOwnProperty`, `__proto__` and the rest), so `row.data[col] !== undefined` and `row.where[k]` differ from the model for such names; the model holds only for column and key names that are not on `Object.prototype`.
- Repeated keys: `Obj` and `Where` are association lists and may list a key twice, which a JavaScript object cannot. `Get` and `WhereGet` read the first entry, while `Keys` lists both, so such a list has no JavaScript counterpart; the properties are meant for lists with distinct keys.
- The exact text of the whole two-row test statement is not stated as one string. The lemmas give its structure (`TwoRowBatchPlan`) and how each part renders.
- Test plumbing (Docker, database round trips, snapshots), `src/setup/index.ts` and `jest.config.js` are not part of this model.
