/**
 * The scenarios of the repository's tests, stated over the model: the
 * compiled text for one batch, and the records the statement leaves behind.
 */
module Scenarios {
  import opened Wrappers
  import opened JsObjects
  import opened ColumnSet
  import opened Sql
  import M = ModelBulkUpdate
  import C = ClientBulkUpdate

  function AliceKey(): M.Where
  {
    [("orgId_email", M.Nested([("orgId", Int(1)), ("email", Str("alice@corp.com"))]))]
  }

  function BobKey(): M.Where
  {
    [("orgId_email", M.Nested([("orgId", Int(1)), ("email", Str("bob@corp.com"))]))]
  }

  function Stored(email: string, name: string): Record
  {
    map["orgId" := CText("1"), "email" := CText(email), "name" := CText(name), "status" := CText("PENDING")]
  }

  lemma StoredName(email: string, name: string)
    ensures Read(Stored(email, name), "name") == CText(name)
  {
    assert "name" in Stored(email, name);
  }

  lemma SmallNumerals()
    ensures IntText(1) == "1" && IntText(2) == "2"
  {
    assert Digits(1) == [DigitChar(1)] && DigitChar(1) == '1';
    assert Digits(2) == [DigitChar(2)] && DigitChar(2) == '2';
  }

  lemma WrapperCondition(orgId: int, email: string)
    requires 0 <= orgId < 10
    ensures var w := [("orgId_email", M.Nested([("orgId", Int(orgId)), ("email", Str(email))]))];
      M.Condition(["orgId_email"], w) == [[Eq("orgId", [DigitChar(orgId)]), Eq("email", email)]] &&
      M.KeyColumnGroups(["orgId_email"], w) == [["orgId", "email"]] &&
      M.TupleGroups(["orgId_email"], w) == [[[DigitChar(orgId)], email]]
  {
    var w := [("orgId_email", M.Nested([("orgId", Int(orgId)), ("email", Str(email))]))];
    var f := [("orgId", Int(orgId)), ("email", Str(email))];
    assert M.WhereGet(w, "orgId_email") == M.Nested(f);
    assert IntText(orgId) == [DigitChar(orgId)];
    assert M.KeyGroup("orgId_email", M.Nested(f)) == [Eq("orgId", [DigitChar(orgId)]), Eq("email", email)];
    assert Keys(f) == ["orgId", "email"];
    assert ToText(f[0].1) == [DigitChar(orgId)] && ToText(f[1].1) == email;
    assert seq(|f|, j requires 0 <= j < |f| => ToText(f[j].1)) == [[DigitChar(orgId)], email];
  }

  /** Keys(...) and the union of a batch with two `data` objects. */
  lemma TwoDataUnion(d0: Obj, d1: Obj)
    ensures AllKeys([d0, d1]) == Keys(d0) + Keys(d1)
  {
    assert [d0, d1][..1] == [d0];
    assert [d0][..0] == [];
    assert AllKeys([d0, d1]) == AllKeys([d0]) + Keys(d1);
    assert AllKeys([d0]) == AllKeys([]) + Keys(d0);
  }

  function TwoRowBatch(): seq<M.UpdateRow>
  {
    [ M.UpdateRow(AliceKey(), [("name", Str("Alice Updated")), ("status", Str("ACTIVE"))]),
      M.UpdateRow(BobKey(), [("status", Str("INACTIVE"))]) ]
  }

  lemma DedupOfSample()
    ensures Dedup(["name", "status", "status"]) == ["name", "status"]
  {
    var s := ["name", "status", "status"];
    assert s[..2] == ["name", "status"] && s[..2][..1] == ["name"] && s[..1][..0] == [];
    assert Dedup(["name"]) == ["name"];
    assert Dedup(["name", "status"]) == ["name", "status"];
  }

  lemma SampleColumns(d0: Obj, d1: Obj)
    requires Keys(d0) == ["name", "status"] && Keys(d1) == ["status"]
    ensures DataColumns([d0, d1]) == ["name", "status"]
  {
    TwoDataUnion(d0, d1);
    assert AllKeys([d0, d1]) == ["name", "status", "status"];
    DedupOfSample();
  }

  lemma TwoRowBatchColumns()
    ensures DataColumns(M.Datas(TwoRowBatch())) == ["name", "status"]
  {
    var rows := TwoRowBatch();
    var d0, d1 := rows[0].data, rows[1].data;
    assert M.Datas(rows) == [d0, d1];
    assert Keys(d0) == ["name", "status"];
    assert Keys(d1) == ["status"];
    SampleColumns(d0, d1);
  }

  lemma TwoRowBatchShape()
    ensures M.KeyNames(TwoRowBatch()) == ["orgId_email"]
    ensures !M.ReachesNullKey(TwoRowBatch()) && M.ConsistentKeyShape(TwoRowBatch())
  {
    var rows := TwoRowBatch();
    assert rows[0].where == AliceKey() && rows[1].where == BobKey();
    assert M.KeyNames(rows) == ["orgId_email"];
    assert M.WhereGet(AliceKey(), "orgId_email").Nested?;
    assert M.WhereGet(BobKey(), "orgId_email").Nested?;
    WrapperCondition(1, "alice@corp.com");
    WrapperCondition(1, "bob@corp.com");
  }

  lemma TwoRowBatchFacts()
    ensures !M.ReachesNullKey(TwoRowBatch()) && M.ConsistentKeyShape(TwoRowBatch())
    ensures DataColumns(M.Datas(TwoRowBatch())) == ["name", "status"]
    ensures M.KeyNames(TwoRowBatch()) == ["orgId_email"]
  {
    TwoRowBatchColumns();
    TwoRowBatchShape();
  }

  function AliceCond(): seq<seq<Eq>>
  {
    [[Eq("orgId", "1"), Eq("email", "alice@corp.com")]]
  }

  function BobCond(): seq<seq<Eq>>
  {
    [[Eq("orgId", "1"), Eq("email", "bob@corp.com")]]
  }

  /** The statement the two-row batch compiles to. */
  function TwoRowUpdate(): Update
  {
    Update("User",
      [ Assignment("name", [When(AliceCond(), TextLit("Alice Updated"))]),
        Assignment("status", [When(AliceCond(), TextLit("ACTIVE")), When(BobCond(), TextLit("INACTIVE"))]) ],
      [["orgId", "email"]],
      [[["1", "alice@corp.com"]], [["1", "bob@corp.com"]]])
  }

  lemma TwoRowBatchWhens()
    ensures M.Whens(["orgId_email"], TwoRowBatch(), "name") == [When(AliceCond(), TextLit("Alice Updated"))]
    ensures M.Whens(["orgId_email"], TwoRowBatch(), "status") ==
      [When(AliceCond(), TextLit("ACTIVE")), When(BobCond(), TextLit("INACTIVE"))]
  {
    var rows := TwoRowBatch();
    var keys := ["orgId_email"];
    assert rows[1..] == [rows[1]] && rows[1..][1..] == [];
    SmallNumerals();
    WrapperCondition(1, "alice@corp.com");
    WrapperCondition(1, "bob@corp.com");
    assert M.Condition(keys, rows[0].where) == AliceCond();
    assert M.Condition(keys, rows[1].where) == BobCond();
    assert Get(rows[1].data, "name") == Undefined;
  }

  lemma TwoRowBatchTuples()
    ensures M.Tuples(["orgId_email"], TwoRowBatch()) == [[["1", "alice@corp.com"]], [["1", "bob@corp.com"]]]
  {
    SmallNumerals();
    WrapperCondition(1, "alice@corp.com");
    WrapperCondition(1, "bob@corp.com");
    assert TwoRowBatch()[0].where == AliceKey() && TwoRowBatch()[1].where == BobKey();
  }

  lemma TwoRowBatchAssignments()
    ensures M.Assignments(["orgId_email"], TwoRowBatch(), ["name", "status"]) == TwoRowUpdate().sets
  {
    TwoRowBatchWhens();
  }

  lemma TwoRowBatchPlan()
    ensures !M.ReachesNullKey(TwoRowBatch()) && M.Plan("User", TwoRowBatch()) == Some(TwoRowUpdate())
  {
    TwoRowBatchFacts();
    TwoRowBatchTuples();
    TwoRowBatchAssignments();
    SmallNumerals();
    WrapperCondition(1, "alice@corp.com");
    assert TwoRowBatch()[0].where == AliceKey();
  }

  /** A record misses a nested key as soon as one of the key's fields differs from the stored cell. */
  lemma NestedKeyMismatch(keys: seq<string>, r: Record, w: M.Where, fields: seq<(string, Value)>, j: int)
    requires |keys| > 0 && M.WhereGet(w, keys[0]) == M.Nested(fields)
    requires 0 <= j < |fields| && Read(r, fields[j].0) != CText(ToText(fields[j].1))
    ensures !M.KeyMatches(keys, r, w)
  {
  }

  lemma AliceCarriesOnlyHerKey()
    ensures M.KeyMatches(["orgId_email"], Stored("alice@corp.com", "Alice"), AliceKey())
    ensures !M.KeyMatches(["orgId_email"], Stored("alice@corp.com", "Alice"), BobKey())
  {
    SmallNumerals();
    var r := Stored("alice@corp.com", "Alice");
    assert M.WhereGet(AliceKey(), "orgId_email") == AliceKey()[0].1;
    assert M.WhereGet(BobKey(), "orgId_email") == BobKey()[0].1;
    var f := BobKey()[0].1.fields;
    assert f[1] == ("email", Str("bob@corp.com"));
    assert "alice@corp.com"[0] != "bob@corp.com"[0];
    assert Read(r, f[1].0) != CText(ToText(f[1].1));
    NestedKeyMismatch(["orgId_email"], r, BobKey(), f, 1);
  }

  lemma BobCarriesOnlyHisKey()
    ensures !M.KeyMatches(["orgId_email"], Stored("bob@corp.com", "Bob"), AliceKey())
    ensures M.KeyMatches(["orgId_email"], Stored("bob@corp.com", "Bob"), BobKey())
  {
    SmallNumerals();
    var r := Stored("bob@corp.com", "Bob");
    assert M.WhereGet(AliceKey(), "orgId_email") == AliceKey()[0].1;
    assert M.WhereGet(BobKey(), "orgId_email") == BobKey()[0].1;
    var f := AliceKey()[0].1.fields;
    assert f[1] == ("email", Str("alice@corp.com"));
    assert "alice@corp.com"[0] != "bob@corp.com"[0];
    assert Read(r, f[1].0) != CText(ToText(f[1].1));
    NestedKeyMismatch(["orgId_email"], r, AliceKey(), f, 1);
  }

  /** The cell a record ends with when some row of a batch sets that column for it. */
  lemma SetterDecides(model: string, rows: seq<M.UpdateRow>, r: Record, c: string, v: Value)
    requires !M.ReachesNullKey(rows) && M.ConsistentKeyShape(rows) && M.Plan(model, rows).Some?
    requires M.FirstSetter(M.KeyNames(rows), rows, r, c) == Some(v)
    ensures Read(ExecRecord(M.Plan(model, rows).value, r), c) == M.StoredCell(v)
  {
    M.ExecutionEffect(model, rows, r, c);
  }

  /** The cell a record keeps when no row of a batch sets that column for it. */
  lemma NoSetterKeeps(model: string, rows: seq<M.UpdateRow>, r: Record, c: string)
    requires !M.ReachesNullKey(rows) && M.ConsistentKeyShape(rows) && M.Plan(model, rows).Some?
    requires M.FirstSetter(M.KeyNames(rows), rows, r, c) == None
    ensures Read(ExecRecord(M.Plan(model, rows).value, r), c) == Read(r, c)
  {
    M.ExecutionEffect(model, rows, r, c);
  }

  lemma AliceSetters(rows: seq<M.UpdateRow>)
    requires rows == TwoRowBatch()
    ensures M.FirstSetter(["orgId_email"], rows, Stored("alice@corp.com", "Alice"), "name") == Some(Str("Alice Updated"))
    ensures M.FirstSetter(["orgId_email"], rows, Stored("alice@corp.com", "Alice"), "status") == Some(Str("ACTIVE"))
  {
    AliceCarriesOnlyHerKey();
    assert rows[0].where == AliceKey();
    assert Get(rows[0].data, "name") == Str("Alice Updated");
    assert Get(rows[0].data, "status") == Str("ACTIVE");
  }

  lemma BobSetters(rows: seq<M.UpdateRow>)
    requires rows == TwoRowBatch()
    ensures M.FirstSetter(["orgId_email"], rows, Stored("bob@corp.com", "Bob"), "name") == None
    ensures M.FirstSetter(["orgId_email"], rows, Stored("bob@corp.com", "Bob"), "status") == Some(Str("INACTIVE"))
  {
    BobCarriesOnlyHisKey();
    assert rows[0].where == AliceKey() && rows[1].where == BobKey();
    assert rows[1..] == [rows[1]] && rows[1..][1..] == [];
    assert Get(rows[1].data, "name") == Undefined;
    assert Get(rows[1].data, "status") == Str("INACTIVE");
  }

  lemma TwoRowBatchPreconditions(rows: seq<M.UpdateRow>)
    requires rows == TwoRowBatch()
    ensures !M.ReachesNullKey(rows) && M.ConsistentKeyShape(rows) && M.Plan("User", rows).Some?
    ensures M.KeyNames(rows) == ["orgId_email"]
  {
    TwoRowBatchFacts();
    assert |rows[0].data| > 0;
  }

  /** After the two-row batch Alice has both new values. */
  lemma TwoRowBatchAlice(rows: seq<M.UpdateRow>)
    requires rows == TwoRowBatch()
    ensures !M.ReachesNullKey(rows) && M.Plan("User", rows).Some?
    ensures var alice := ExecRecord(M.Plan("User", rows).value, Stored("alice@corp.com", "Alice"));
      Read(alice, "name") == CText("Alice Updated") && Read(alice, "status") == CText("ACTIVE")
  {
    TwoRowBatchPreconditions(rows);
    AliceSetters(rows);
    SetterDecides("User", rows, Stored("alice@corp.com", "Alice"), "name", Str("Alice Updated"));
    SetterDecides("User", rows, Stored("alice@corp.com", "Alice"), "status", Str("ACTIVE"));
  }

  /** After the two-row batch Bob has the new status and keeps his name. */
  lemma TwoRowBatchBob(rows: seq<M.UpdateRow>)
    requires rows == TwoRowBatch()
    ensures !M.ReachesNullKey(rows) && M.Plan("User", rows).Some?
    ensures var bob := ExecRecord(M.Plan("User", rows).value, Stored("bob@corp.com", "Bob"));
      Read(bob, "name") == CText("Bob") && Read(bob, "status") == CText("INACTIVE")
  {
    TwoRowBatchPreconditions(rows);
    BobSetters(rows);
    NoSetterKeeps("User", rows, Stored("bob@corp.com", "Bob"), "name");
    StoredName("bob@corp.com", "Bob");
    SetterDecides("User", rows, Stored("bob@corp.com", "Bob"), "status", Str("INACTIVE"));
  }

  function CharlieRow(): M.UpdateRow
  {
    M.UpdateRow(
      [("orgId_email", M.Nested([("orgId", Int(2)), ("email", Str("charlie@corp.com"))]))],
      [("name", Str("Charlie")), ("status", Str("ACTIVE"))])
  }

  lemma CharlieBatchFacts(rows: seq<M.UpdateRow>)
    requires rows == [CharlieRow()]
    ensures !M.ReachesNullKey(rows) && M.Plan("User", rows).Some?
    ensures M.KeyNames(rows) == ["orgId_email"]
    ensures M.WhereGet(rows[0].where, "orgId_email") == M.Nested([("orgId", Int(2)), ("email", Str("charlie@corp.com"))])
  {
    assert M.KeyNames(rows) == ["orgId_email"];
    assert M.WhereGet(rows[0].where, "orgId_email").Nested?;
    assert |rows[0].data| > 0;
  }

  /** A record of organisation 1 does not carry Charlie's key, whose `orgId` is 2. */
  lemma CharlieKeyMisses(rows: seq<M.UpdateRow>, email: string, name: string)
    requires rows == [CharlieRow()]
    ensures forall j :: 0 <= j < |rows| ==> !M.KeyMatches(M.KeyNames(rows), Stored(email, name), rows[j].where)
  {
    CharlieBatchFacts(rows);
    var f := [("orgId", Int(2)), ("email", Str("charlie@corp.com"))];
    SmallNumerals();
    assert Read(Stored(email, name), f[0].0) != CText(ToText(f[0].1));
    NestedKeyMismatch(["orgId_email"], Stored(email, name), rows[0].where, f, 0);
  }

  /** A batch whose only key matches no stored record leaves both stored records exactly as they were. */
  lemma NoMatchingRowScenario(rows: seq<M.UpdateRow>)
    requires rows == [CharlieRow()]
    ensures !M.ReachesNullKey(rows) && M.Plan("User", rows).Some?
    ensures ExecRecord(M.Plan("User", rows).value, Stored("alice@corp.com", "Alice")) == Stored("alice@corp.com", "Alice")
    ensures ExecRecord(M.Plan("User", rows).value, Stored("bob@corp.com", "Bob")) == Stored("bob@corp.com", "Bob")
  {
    CharlieBatchFacts(rows);
    CharlieKeyMisses(rows, "alice@corp.com", "Alice");
    CharlieKeyMisses(rows, "bob@corp.com", "Bob");
    M.UntargetedRecordUnchanged("User", rows, Stored("alice@corp.com", "Alice"));
    M.UntargetedRecordUnchanged("User", rows, Stored("bob@corp.com", "Bob"));
  }

  function NullNameRow(): M.UpdateRow
  {
    M.UpdateRow(AliceKey(), [("name", Null), ("status", Str("ACTIVE"))])
  }

  lemma NullNameBatchFacts(rows: seq<M.UpdateRow>)
    requires rows == [NullNameRow()]
    ensures !M.ReachesNullKey(rows) && M.ConsistentKeyShape(rows) && M.Plan("User", rows).Some?
    ensures M.KeyNames(rows) == ["orgId_email"]
  {
    assert M.KeyNames(rows) == ["orgId_email"];
    assert rows[0].where == AliceKey();
    assert M.WhereGet(rows[0].where, "orgId_email").Nested?;
    assert |rows[0].data| > 0;
  }

  lemma NullNameSetters(rows: seq<M.UpdateRow>)
    requires rows == [NullNameRow()]
    ensures M.FirstSetter(["orgId_email"], rows, Stored("alice@corp.com", "Alice"), "name") == Some(Null)
    ensures M.FirstSetter(["orgId_email"], rows, Stored("alice@corp.com", "Alice"), "status") == Some(Str("ACTIVE"))
  {
    AliceCarriesOnlyHerKey();
    assert rows[0].where == AliceKey();
  }

  /** An explicit `null` stores NULL with the model-bound method. */
  lemma ModelNullScenario(rows: seq<M.UpdateRow>)
    requires rows == [NullNameRow()]
    ensures !M.ReachesNullKey(rows) && M.Plan("User", rows).Some?
    ensures var alice := ExecRecord(M.Plan("User", rows).value, Stored("alice@corp.com", "Alice"));
      Read(alice, "name") == CNull && Read(alice, "status") == CText("ACTIVE")
  {
    NullNameBatchFacts(rows);
    NullNameSetters(rows);
    SetterDecides("User", rows, Stored("alice@corp.com", "Alice"), "name", Null);
    SetterDecides("User", rows, Stored("alice@corp.com", "Alice"), "status", Str("ACTIVE"));
  }

  /** The same `null` stores the text "null" with the client method. */
  lemma ClientNullScenario(rows: seq<C.UpdateRow>)
    requires rows == [C.UpdateRow([("orgId", Int(1)), ("email", Str("alice@corp.com"))], [("name", Null)])]
    ensures C.Plan("User", rows).Some?
    ensures Read(ExecRecord(C.Plan("User", rows).value, Stored("alice@corp.com", "Alice")), "name") == CText("null")
  {
    var a := Stored("alice@corp.com", "Alice");
    SmallNumerals();
    assert C.KeyNames(rows) == ["orgId", "email"];
    assert |rows[0].data| > 0;
    assert Read(a, "orgId") == CText(ToText(Int(1)));
    assert Read(a, "email") == CText(ToText(Str("alice@corp.com")));
    assert C.KeyMatches(["orgId", "email"], a, rows[0].where);
    assert C.FirstSetter(["orgId", "email"], rows, a, "name") == Some(Null);
    C.ExecutionEffect("User", rows, a, "name");
  }

  lemma OneDataUnion(d: Obj)
    requires Keys(d) == ["name"]
    ensures DataColumns([d]) == ["name"]
  {
    assert [d][..0] == [];
    assert AllKeys([d]) == ["name"];
    assert Dedup(["name"]) == ["name"];
  }

  lemma UndefinedNameFacts(rows: seq<M.UpdateRow>)
    requires rows == [M.UpdateRow(AliceKey(), [("name", Undefined)])]
    ensures !M.ReachesNullKey(rows) && M.Plan("User", rows).Some?
    ensures M.KeyNames(rows) == ["orgId_email"] && DataColumns(M.Datas(rows)) == ["name"]
    ensures M.Whens(["orgId_email"], rows, "name") == []
  {
    assert M.Datas(rows) == [rows[0].data];
    OneDataUnion(rows[0].data);
    assert M.KeyNames(rows) == ["orgId_email"];
    assert M.WhereGet(rows[0].where, "orgId_email").Nested?;
    assert |rows[0].data| > 0;
    assert rows[1..] == [];
  }

  /**
   * A `data` key whose value is `undefined` is still a column of the union
   * (`Object.keys` lists it) but no row gives it a WHEN: its clause is a
   * CASE with no WHEN at all.
   */
  lemma UndefinedValueGivesBareCase(rows: seq<M.UpdateRow>)
    requires rows == [M.UpdateRow(AliceKey(), [("name", Undefined)])]
    ensures !M.ReachesNullKey(rows) && M.Plan("User", rows).Some?
    ensures M.Plan("User", rows).value.sets == [Assignment("name", [])]
  {
    UndefinedNameFacts(rows);
    var sets := M.Plan("User", rows).value.sets;
    assert |sets| == 1 && sets[0].column == "name";
    assert sets[0] == Assignment("name", M.Whens(["orgId_email"], rows, "name"));
  }

  // -----------------------------------------------------------------------
  // Two rows for one record: the first listed wins

  /** Two rows on Alice's key that disagree on `status`. */
  function ConflictingBatch(): seq<M.UpdateRow>
  {
    [ M.UpdateRow(AliceKey(), [("status", Str("ACTIVE"))]),
      M.UpdateRow(AliceKey(), [("status", Str("INACTIVE"))]) ]
  }

  /** Every row of the batch is keyed by Alice's or Bob's wrapper key. */
  lemma WrapperBatchShape(rows: seq<M.UpdateRow>)
    requires |rows| > 0 && rows[0].where == AliceKey()
    requires forall j :: 0 <= j < |rows| ==> rows[j].where == AliceKey() || rows[j].where == BobKey()
    ensures M.KeyNames(rows) == ["orgId_email"]
    ensures !M.ReachesNullKey(rows) && M.ConsistentKeyShape(rows)
  {
    assert M.KeyNames(rows) == ["orgId_email"];
    WrapperCondition(1, "alice@corp.com");
    WrapperCondition(1, "bob@corp.com");
    forall j | 0 <= j < |rows|
      ensures M.WhereGet(rows[j].where, "orgId_email").Nested?
      ensures M.KeyColumnGroups(["orgId_email"], rows[j].where) == [["orgId", "email"]]
    {
      assert M.WhereGet(AliceKey(), "orgId_email").Nested?;
      assert M.WhereGet(BobKey(), "orgId_email").Nested?;
    }
  }

  /** A batch whose first row has something to set compiles to a statement, whatever the model's name. */
  lemma PlanOfNonEmpty(model: string, rows: seq<M.UpdateRow>)
    requires !M.ReachesNullKey(rows) && |rows| > 0 && |rows[0].data| > 0
    ensures M.Plan(model, rows).Some?
  {
  }

  lemma ConflictingBatchFacts(model: string, rows: seq<M.UpdateRow>)
    requires rows == ConflictingBatch()
    ensures !M.ReachesNullKey(rows) && M.ConsistentKeyShape(rows) && M.Plan(model, rows).Some?
    ensures M.KeyNames(rows) == ["orgId_email"]
  {
    assert rows[0].where == AliceKey() && rows[1].where == AliceKey();
    WrapperBatchShape(rows);
    PlanOfNonEmpty(model, rows);
  }

  /** The earlier of Alice's two rows is the one `FirstSetter` picks. */
  lemma ConflictingSetters(rows: seq<M.UpdateRow>)
    requires rows == ConflictingBatch()
    ensures M.FirstSetter(["orgId_email"], rows, Stored("alice@corp.com", "Alice"), "status") == Some(Str("ACTIVE"))
  {
    AliceCarriesOnlyHerKey();
    assert rows[0].where == AliceKey() && Get(rows[0].data, "status") == Str("ACTIVE");
    M.FirstSetterFirst(["orgId_email"], rows, Stored("alice@corp.com", "Alice"), "status", 0);
  }

  /**
   * Alice's record ends with the status of the earlier row, as the earlier
   * WHEN of the CASE decides (for any model name, "User" included).
   */
  lemma FirstListedWins(model: string, rows: seq<M.UpdateRow>)
    requires rows == ConflictingBatch()
    ensures !M.ReachesNullKey(rows) && M.Plan(model, rows).Some?
    ensures Read(ExecRecord(M.Plan(model, rows).value, Stored("alice@corp.com", "Alice")), "status") == CText("ACTIVE")
  {
    ConflictingBatchFacts(model, rows);
    ConflictingSetters(rows);
    SetterDecides(model, rows, Stored("alice@corp.com", "Alice"), "status", Str("ACTIVE"));
  }

  // -----------------------------------------------------------------------
  // A wrapper key written in another order

  /** Bob's wrapper key with its two inner properties in the other order. */
  function BobKeyReordered(): M.Where
  {
    [("orgId_email", M.Nested([("email", Str("bob@corp.com")), ("orgId", Int(1))]))]
  }

  /** Alice's row with her key as usual, then Bob's with the reordered key; each sets `status`. */
  function ReorderedBatch(): seq<M.UpdateRow>
  {
    [ M.UpdateRow(AliceKey(), [("status", Str("ACTIVE"))]),
      M.UpdateRow(BobKeyReordered(), [("status", Str("INACTIVE"))]) ]
  }

  lemma ReorderedKeyGroups()
    ensures M.KeyColumnGroups(["orgId_email"], BobKeyReordered()) == [["email", "orgId"]]
    ensures M.TupleGroups(["orgId_email"], BobKeyReordered()) == [["bob@corp.com", "1"]]
  {
    var f := [("email", Str("bob@corp.com")), ("orgId", Int(1))];
    assert M.WhereGet(BobKeyReordered(), "orgId_email") == M.Nested(f);
    assert Keys(f) == ["email", "orgId"];
    SmallNumerals();
    assert ToText(f[0].1) == "bob@corp.com" && ToText(f[1].1) == "1";
    assert seq(|f|, j requires 0 <= j < |f| => ToText(f[j].1)) == ["bob@corp.com", "1"];
  }

  lemma ReorderedBatchShape(rows: seq<M.UpdateRow>)
    requires rows == ReorderedBatch()
    ensures M.KeyNames(rows) == ["orgId_email"]
    ensures !M.ReachesNullKey(rows) && !M.ConsistentKeyShape(rows)
  {
    var keys := ["orgId_email"];
    assert rows[0].where == AliceKey() && rows[1].where == BobKeyReordered();
    assert M.KeyNames(rows) == keys;
    WrapperCondition(1, "alice@corp.com");
    ReorderedKeyGroups();
    assert M.WhereGet(rows[0].where, "orgId_email").Nested?;
    assert M.WhereGet(rows[1].where, "orgId_email").Nested?;
    assert M.KeyColumnGroups(keys, rows[1].where)[0][0] == "email";
  }

  /** The IN list of a compiled statement: the first row's key columns and every row's tuple. */
  lemma PlanInList(model: string, rows: seq<M.UpdateRow>)
    requires !M.ReachesNullKey(rows) && M.Plan(model, rows).Some?
    ensures M.Plan(model, rows).value.keyColumns == M.KeyColumnGroups(M.KeyNames(rows), rows[0].where)
    ensures M.Plan(model, rows).value.tuples == M.Tuples(M.KeyNames(rows), rows)
  {
  }

  lemma ReorderedInList(rows: seq<M.UpdateRow>)
    requires rows == ReorderedBatch()
    ensures M.KeyColumnGroups(["orgId_email"], rows[0].where) == [["orgId", "email"]]
    ensures M.Tuples(["orgId_email"], rows) == [[["1", "alice@corp.com"]], [["bob@corp.com", "1"]]]
  {
    assert rows[0].where == AliceKey() && rows[1].where == BobKeyReordered();
    WrapperCondition(1, "alice@corp.com");
    SmallNumerals();
    ReorderedKeyGroups();
  }

  lemma ReorderedBatchFacts(model: string, rows: seq<M.UpdateRow>)
    requires rows == ReorderedBatch()
    ensures M.KeyNames(rows) == ["orgId_email"]
    ensures !M.ReachesNullKey(rows) && !M.ConsistentKeyShape(rows) && M.Plan(model, rows).Some?
    ensures M.Plan(model, rows).value.keyColumns == [["orgId", "email"]]
    ensures M.Plan(model, rows).value.tuples == [[["1", "alice@corp.com"]], [["bob@corp.com", "1"]]]
  {
    ReorderedBatchShape(rows);
    PlanOfNonEmpty(model, rows);
    PlanInList(model, rows);
    ReorderedInList(rows);
  }

  /** Bob's record matches neither tuple when both are read against `("orgId", "email")`. */
  lemma ReorderedBobOutsideTuples(u: Update, r: Record)
    requires r == Stored("bob@corp.com", "Bob")
    requires u.keyColumns == [["orgId", "email"]]
    requires u.tuples == [[["1", "alice@corp.com"]], [["bob@corp.com", "1"]]]
    ensures !Selected(u, r)
  {
    var cols := Flatten(u.keyColumns);
    assert cols == ["orgId", "email"];
    assert Flatten(u.tuples[0]) == ["1", "alice@corp.com"];
    assert Flatten(u.tuples[1]) == ["bob@corp.com", "1"];
    assert "alice@corp.com"[0] != "bob@corp.com"[0];
    assert !TupleMatches(r, cols, Flatten(u.tuples[0])) by {
      assert Read(r, cols[1]) == CText("bob@corp.com");
    }
    assert !TupleMatches(r, cols, Flatten(u.tuples[1])) by {
      assert Read(r, cols[0]) == CText("1");
      assert "1" != "bob@corp.com";
    }
  }

  /** Bob's record carries his reordered key, so the batch means to give him "INACTIVE". */
  lemma ReorderedBobSetter(rows: seq<M.UpdateRow>)
    requires rows == ReorderedBatch()
    ensures M.FirstSetter(["orgId_email"], rows, Stored("bob@corp.com", "Bob"), "status") == Some(Str("INACTIVE"))
  {
    var r := Stored("bob@corp.com", "Bob");
    BobCarriesOnlyHisKey();
    SmallNumerals();
    assert rows[0].where == AliceKey() && rows[1].where == BobKeyReordered();
    var f := BobKeyReordered()[0].1.fields;
    assert M.WhereGet(BobKeyReordered(), "orgId_email") == M.Nested(f);
    assert Read(r, f[0].0) == CText(ToText(f[0].1)) && Read(r, f[1].0) == CText(ToText(f[1].1));
    assert M.KeyMatches(["orgId_email"], r, rows[1].where);
    assert Get(rows[1].data, "status") == Str("INACTIVE");
    M.FirstSetterFirst(["orgId_email"], rows, r, "status", 1);
  }

  /**
   * The IN filter pairs Bob's values, listed email first, with the first
   * row's columns `("orgId", "email")`, so it lets Bob's record through with
   * neither tuple and the statement leaves him as he was, although the
   * batch meant to set his status.
   */
  lemma ReorderedKeyMissesBob(model: string, rows: seq<M.UpdateRow>)
    requires rows == ReorderedBatch()
    ensures !M.ReachesNullKey(rows) && !M.ConsistentKeyShape(rows) && M.Plan(model, rows).Some?
    ensures M.FirstSetter(M.KeyNames(rows), rows, Stored("bob@corp.com", "Bob"), "status") == Some(Str("INACTIVE"))
    ensures ExecRecord(M.Plan(model, rows).value, Stored("bob@corp.com", "Bob")) == Stored("bob@corp.com", "Bob")
  {
    ReorderedBatchFacts(model, rows);
    ReorderedBobSetter(rows);
    ReorderedBobOutsideTuples(M.Plan(model, rows).value, Stored("bob@corp.com", "Bob"));
  }

  // -----------------------------------------------------------------------
  // Boolean values

  /** A stored user of organisation 1 with an `isActive` flag. */
  function StoredFlag(email: string, name: string, active: bool): Record
  {
    map["orgId" := CText("1"), "email" := CText(email), "name" := CText(name),
      "isActive" := CText(if active then "true" else "false")]
  }

  /** A record of organisation 1 carries the wrapper key of its own email and of no other. */
  lemma FlagRecordKeys(email: string, other: string, name: string)
    requires |email| > 0 && |other| > 0 && email[0] != other[0]
    ensures M.KeyMatches(["orgId_email"], StoredFlag(email, name, false),
      [("orgId_email", M.Nested([("orgId", Int(1)), ("email", Str(email))]))])
    ensures !M.KeyMatches(["orgId_email"], StoredFlag(email, name, false),
      [("orgId_email", M.Nested([("orgId", Int(1)), ("email", Str(other))]))])
  {
    SmallNumerals();
    var r := StoredFlag(email, name, false);
    var f := [("orgId", Int(1)), ("email", Str(other))];
    var w := [("orgId_email", M.Nested(f))];
    assert M.WhereGet([("orgId_email", M.Nested([("orgId", Int(1)), ("email", Str(email))]))], "orgId_email").Nested?;
    assert M.WhereGet(w, "orgId_email") == M.Nested(f);
    assert Read(r, "email") == CText(email);
    assert email != other;
    NestedKeyMismatch(["orgId_email"], r, w, f, 1);
  }

  /** The boolean test: both users get `isActive: true`. */
  function BooleanBatch(): seq<M.UpdateRow>
  {
    [ M.UpdateRow(AliceKey(), [("isActive", Bool(true))]),
      M.UpdateRow(BobKey(), [("isActive", Bool(true))]) ]
  }

  lemma BooleanBatchFacts(model: string, rows: seq<M.UpdateRow>)
    requires rows == BooleanBatch()
    ensures !M.ReachesNullKey(rows) && M.ConsistentKeyShape(rows) && M.Plan(model, rows).Some?
    ensures M.KeyNames(rows) == ["orgId_email"]
  {
    assert rows[0].where == AliceKey() && rows[1].where == BobKey();
    WrapperBatchShape(rows);
    PlanOfNonEmpty(model, rows);
  }

  lemma BooleanSetters(rows: seq<M.UpdateRow>, email: string, name: string)
    requires rows == BooleanBatch()
    requires email == "alice@corp.com" || email == "bob@corp.com"
    ensures M.FirstSetter(["orgId_email"], rows, StoredFlag(email, name, false), "isActive") == Some(Bool(true))
  {
    assert rows[0].where == AliceKey() && rows[1].where == BobKey();
    assert "alice@corp.com"[0] != "bob@corp.com"[0];
    if email == "alice@corp.com" {
      FlagRecordKeys(email, "bob@corp.com", name);
    } else {
      FlagRecordKeys(email, "alice@corp.com", name);
      assert rows[1..] == [rows[1]];
    }
  }

  /** The cell a `true` is stored as. */
  lemma TrueCell()
    ensures M.StoredCell(Bool(true)) == CText("true")
  {
  }

  /** After the boolean batch Alice is active, stored as the text of `true`. */
  lemma BooleanAlice(model: string, rows: seq<M.UpdateRow>)
    requires rows == BooleanBatch()
    ensures !M.ReachesNullKey(rows) && M.Plan(model, rows).Some?
    ensures Read(ExecRecord(M.Plan(model, rows).value, StoredFlag("alice@corp.com", "Alice", false)), "isActive") == CText("true")
  {
    BooleanBatchFacts(model, rows);
    BooleanSetters(rows, "alice@corp.com", "Alice");
    SetterDecides(model, rows, StoredFlag("alice@corp.com", "Alice", false), "isActive", Bool(true));
    TrueCell();
  }

  /** After the boolean batch Bob is active too. */
  lemma BooleanBob(model: string, rows: seq<M.UpdateRow>)
    requires rows == BooleanBatch()
    ensures !M.ReachesNullKey(rows) && M.Plan(model, rows).Some?
    ensures Read(ExecRecord(M.Plan(model, rows).value, StoredFlag("bob@corp.com", "Bob", false)), "isActive") == CText("true")
  {
    BooleanBatchFacts(model, rows);
    BooleanSetters(rows, "bob@corp.com", "Bob");
    SetterDecides(model, rows, StoredFlag("bob@corp.com", "Bob", false), "isActive", Bool(true));
    TrueCell();
  }

  // -----------------------------------------------------------------------
  // The client method's test batch

  function ClientKey(email: string): Obj
  {
    [("orgId", Int(1)), ("email", Str(email))]
  }

  /** The two-row batch of the client test, with the key columns given directly. */
  function ClientTwoRowBatch(): seq<C.UpdateRow>
  {
    [ C.UpdateRow(ClientKey("alice@corp.com"), [("name", Str("Alice Updated")), ("status", Str("ACTIVE"))]),
      C.UpdateRow(ClientKey("bob@corp.com"), [("status", Str("INACTIVE"))]) ]
  }

  /** A batch whose first row has something to set compiles to a statement, whatever the table's name. */
  lemma ClientPlanOfNonEmpty(table: string, rows: seq<C.UpdateRow>)
    requires |rows| > 0 && |rows[0].data| > 0
    ensures C.Plan(table, rows).Some?
  {
  }

  lemma ClientBatchFacts(table: string, rows: seq<C.UpdateRow>)
    requires rows == ClientTwoRowBatch()
    ensures C.Plan(table, rows).Some? && C.KeyNames(rows) == ["orgId", "email"]
  {
    assert rows[0].where == ClientKey("alice@corp.com");
    assert C.KeyNames(rows) == Keys(ClientKey("alice@corp.com"));
    ClientPlanOfNonEmpty(table, rows);
  }

  /** A record of organisation 1 carries the client key of its own email and of no other. */
  lemma ClientRecordKeys(email: string, other: string, name: string)
    requires |email| > 0 && |other| > 0 && email[0] != other[0]
    ensures C.KeyMatches(["orgId", "email"], Stored(email, name), ClientKey(email))
    ensures !C.KeyMatches(["orgId", "email"], Stored(email, name), ClientKey(other))
  {
    SmallNumerals();
    var r := Stored(email, name);
    assert Read(r, "orgId") == CText(ToText(Get(ClientKey(email), "orgId")));
    assert Read(r, "email") == CText(ToText(Get(ClientKey(email), "email")));
    assert Get(ClientKey(other), "email") == Str(other);
    assert email != other;
    assert Read(r, ["orgId", "email"][1]) != CText(ToText(Get(ClientKey(other), ["orgId", "email"][1])));
  }

  /** The cell a record ends with under the client method, decided by `FirstSetter`. */
  lemma ClientSetterDecides(table: string, rows: seq<C.UpdateRow>, r: Record, c: string, v: Option<Value>)
    requires C.Plan(table, rows).Some?
    requires C.FirstSetter(C.KeyNames(rows), rows, r, c) == v
    ensures Read(ExecRecord(C.Plan(table, rows).value, r), c) == if v.Some? then C.StoredCell(v.value) else Read(r, c)
  {
    C.ExecutionEffect(table, rows, r, c);
  }

  lemma ClientAliceSetters(rows: seq<C.UpdateRow>)
    requires rows == ClientTwoRowBatch()
    ensures C.FirstSetter(["orgId", "email"], rows, Stored("alice@corp.com", "Alice"), "name") == Some(Str("Alice Updated"))
    ensures C.FirstSetter(["orgId", "email"], rows, Stored("alice@corp.com", "Alice"), "status") == Some(Str("ACTIVE"))
  {
    assert "alice@corp.com"[0] != "bob@corp.com"[0];
    ClientRecordKeys("alice@corp.com", "bob@corp.com", "Alice");
    assert rows[0].where == ClientKey("alice@corp.com");
  }

  lemma ClientBobSetters(rows: seq<C.UpdateRow>)
    requires rows == ClientTwoRowBatch()
    ensures C.FirstSetter(["orgId", "email"], rows, Stored("bob@corp.com", "Bob"), "name") == None
    ensures C.FirstSetter(["orgId", "email"], rows, Stored("bob@corp.com", "Bob"), "status") == Some(Str("INACTIVE"))
  {
    assert "alice@corp.com"[0] != "bob@corp.com"[0];
    ClientRecordKeys("bob@corp.com", "alice@corp.com", "Bob");
    assert rows[0].where == ClientKey("alice@corp.com") && rows[1].where == ClientKey("bob@corp.com");
    assert rows[1..] == [rows[1]] && rows[1..][1..] == [];
    assert Get(rows[1].data, "name") == Undefined;
  }

  /** After the client batch Alice has both new values (for any table name, "user" included). */
  lemma ClientTwoRowAlice(table: string, rows: seq<C.UpdateRow>)
    requires rows == ClientTwoRowBatch()
    ensures C.Plan(table, rows).Some?
    ensures var alice := ExecRecord(C.Plan(table, rows).value, Stored("alice@corp.com", "Alice"));
      Read(alice, "name") == CText("Alice Updated") && Read(alice, "status") == CText("ACTIVE")
  {
    ClientBatchFacts(table, rows);
    ClientAliceSetters(rows);
    ClientSetterDecides(table, rows, Stored("alice@corp.com", "Alice"), "name", Some(Str("Alice Updated")));
    ClientSetterDecides(table, rows, Stored("alice@corp.com", "Alice"), "status", Some(Str("ACTIVE")));
  }

  /** After the client batch Bob has the new status and keeps his name. */
  lemma ClientTwoRowBob(table: string, rows: seq<C.UpdateRow>)
    requires rows == ClientTwoRowBatch()
    ensures C.Plan(table, rows).Some?
    ensures var bob := ExecRecord(C.Plan(table, rows).value, Stored("bob@corp.com", "Bob"));
      Read(bob, "name") == CText("Bob") && Read(bob, "status") == CText("INACTIVE")
  {
    ClientBatchFacts(table, rows);
    ClientBobSetters(rows);
    ClientSetterDecides(table, rows, Stored("bob@corp.com", "Bob"), "name", None);
    StoredName("bob@corp.com", "Bob");
    ClientSetterDecides(table, rows, Stored("bob@corp.com", "Bob"), "status", Some(Str("INACTIVE")));
  }

  // -----------------------------------------------------------------------
  // Why idempotence asks that no key column be set

  /** Row 1 moves record 1 to id 2; row 2 moves id 2 to id 3. */
  function KeyShiftBatch(): seq<C.UpdateRow>
  {
    [ C.UpdateRow([("id", Int(1))], [("id", Int(2))]),
      C.UpdateRow([("id", Int(2))], [("id", Int(3))]) ]
  }

  lemma SmallNumeralThree()
    ensures IntText(3) == "3"
  {
    assert Digits(3) == [DigitChar(3)] && DigitChar(3) == '3';
  }

  /** Which row sets `id` depends only on the record's `id`. */
  lemma KeyShiftSetters(rows: seq<C.UpdateRow>, r: Record)
    requires rows == KeyShiftBatch()
    requires Read(r, "id") == CText("1") || Read(r, "id") == CText("2")
    ensures C.Plan("t", rows).Some? && C.KeyNames(rows) == ["id"]
    ensures C.FirstSetter(["id"], rows, r, "id") == if Read(r, "id") == CText("1") then Some(Int(2)) else Some(Int(3))
  {
    SmallNumerals();
    assert C.KeyNames(rows) == ["id"];
    assert |rows[0].data| > 0;
    assert Get(rows[0].where, "id") == Int(1) && Get(rows[1].where, "id") == Int(2);
    assert Get(rows[0].data, "id") == Int(2) && Get(rows[1].data, "id") == Int(3);
    if Read(r, "id") == CText("1") {
      assert C.KeyMatches(["id"], r, rows[0].where);
    } else {
      assert Read(r, ["id"][0]) != CText(ToText(Get(rows[0].where, ["id"][0])));
      assert C.KeyMatches(["id"], r, rows[1].where);
      assert rows[1..] == [rows[1]];
    }
  }

  /**
   * A batch whose `data` sets a key column is not idempotent: one run moves
   * record 1 to id 2, and a second run then finds it under the next row's key.
   */
  lemma KeyShiftNotIdempotent(rows: seq<C.UpdateRow>)
    requires rows == KeyShiftBatch()
    ensures C.Plan("t", rows).Some?
    ensures var once := ExecRecord(C.Plan("t", rows).value, map["id" := CText("1")]);
      Read(once, "id") == CText("2") && Read(ExecRecord(C.Plan("t", rows).value, once), "id") == CText("3")
  {
    var r := map["id" := CText("1")];
    assert Read(r, "id") == CText("1");
    KeyShiftSetters(rows, r);
    SmallNumerals();
    SmallNumeralThree();
    var once := ExecRecord(C.Plan("t", rows).value, r);
    C.ExecutionEffect("t", rows, r, "id");
    KeyShiftSetters(rows, once);
    C.ExecutionEffect("t", rows, once, "id");
  }
}
