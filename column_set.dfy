/**
 * The union of the data columns of a batch: a JavaScript `Set` filled by
 * `add` for every key of every row's `data`, then spread into an array,
 * which keeps each key once, in the order it was first added.
 */
module ColumnSet {
  import opened JsObjects

  /** The keys of every object, one object after another: the order the filling loop visits them in. */
  function AllKeys(datas: seq<Obj>): seq<string>
  {
    if |datas| == 0 then [] else AllKeys(datas[..|datas| - 1]) + Keys(datas[|datas| - 1])
  }

  predicate Distinct(s: seq<string>)
  {
    forall i, j :: 0 <= i < j < |s| ==> s[i] != s[j]
  }

  /** What a `Set` keeps after `add`ing the elements of `s` in order. */
  function Dedup(s: seq<string>): (d: seq<string>)
    ensures Distinct(d)
    ensures forall x :: x in d <==> x in s
  {
    if |s| == 0 then []
    else
      var d := Dedup(s[..|s| - 1]);
      assert forall x :: x in s <==> x in s[..|s| - 1] || x == s[|s| - 1];
      if s[|s| - 1] in d then d else d + [s[|s| - 1]]
  }

  /** `[...allDataColumns]` once the loop over the batch has finished. */
  function DataColumns(datas: seq<Obj>): seq<string>
  {
    Dedup(AllKeys(datas))
  }

  /** Position of the first occurrence of `x` in `s`. */
  function FirstIndex(s: seq<string>, x: string): (k: nat)
    requires x in s
    ensures k < |s| && s[k] == x
    ensures forall j :: 0 <= j < k ==> s[j] != x
  {
    if s[0] == x then 0 else 1 + FirstIndex(s[1..], x)
  }

  lemma FirstIndexOfPrefix(s: seq<string>, t: seq<string>, x: string)
    requires x in s
    ensures x in s + t && FirstIndex(s + t, x) == FirstIndex(s, x)
  {
    var k := FirstIndex(s, x);
    var k' := FirstIndex(s + t, x);
    assert (s + t)[k] == x;
  }

  /** The union lists its columns in the order of their first appearance among all the keys. */
  lemma {:induction false} DedupKeepsFirstAppearanceOrder(s: seq<string>)
    ensures forall i, j :: 0 <= i < j < |Dedup(s)| ==>
      FirstIndex(s, Dedup(s)[i]) < FirstIndex(s, Dedup(s)[j])
  {
    if |s| > 0 {
      var p := s[..|s| - 1];
      var x := s[|s| - 1];
      assert s == p + [x];
      var d := Dedup(p);
      DedupKeepsFirstAppearanceOrder(p);
      forall y | y in d
        ensures FirstIndex(s, y) == FirstIndex(p, y)
      {
        FirstIndexOfPrefix(p, [x], y);
      }
      if x !in d {
        assert x !in p;
        assert FirstIndex(s, x) == |p| by {
          assert s[|p|] == x;
        }
        forall i, j | 0 <= i < j < |Dedup(s)|
          ensures FirstIndex(s, Dedup(s)[i]) < FirstIndex(s, Dedup(s)[j])
        {
          assert Dedup(s) == d + [x];
          assert Dedup(s)[i] == d[i];
          if j < |d| {
            assert Dedup(s)[j] == d[j];
          } else {
            assert FirstIndex(p, d[i]) < |p|;
          }
        }
      }
    }
  }

  lemma {:induction false} AllKeysMembers(datas: seq<Obj>)
    ensures forall x :: x in AllKeys(datas) <==> exists i :: 0 <= i < |datas| && x in Keys(datas[i])
  {
    if |datas| > 0 {
      var p := datas[..|datas| - 1];
      AllKeysMembers(p);
      forall x | x in AllKeys(datas)
        ensures exists i :: 0 <= i < |datas| && x in Keys(datas[i])
      {
        if x in AllKeys(p) {
          var i :| 0 <= i < |p| && x in Keys(p[i]);
          assert datas[i] == p[i];
        } else {
          assert x in Keys(datas[|datas| - 1]);
        }
      }
      forall x, i | 0 <= i < |datas| && x in Keys(datas[i])
        ensures x in AllKeys(datas)
      {
        if i < |p| {
          assert p[i] == datas[i];
        }
      }
    }
  }

  /**
   * A column is in the union exactly when some row's `data` has it as a
   * key; a column outside the union is `undefined` in every row's `data`.
   */
  lemma DataColumnsMembers(datas: seq<Obj>)
    ensures forall c :: c in DataColumns(datas) <==> exists i :: 0 <= i < |datas| && c in Keys(datas[i])
    ensures forall c, i :: 0 <= i < |datas| && c !in DataColumns(datas) ==> Get(datas[i], c) == Undefined
  {
    AllKeysMembers(datas);
  }

  /** The union is empty exactly when every row's `data` has no key at all. */
  lemma DataColumnsEmpty(datas: seq<Obj>)
    ensures DataColumns(datas) == [] <==> forall i :: 0 <= i < |datas| ==> |datas[i]| == 0
  {
    DataColumnsMembers(datas);
    forall i | 0 <= i < |datas| && |datas[i]| > 0
      ensures DataColumns(datas) != []
    {
      var c := Keys(datas[i])[0];
      assert c in Keys(datas[i]);
      assert c in DataColumns(datas);
    }
    if DataColumns(datas) != [] {
      assert DataColumns(datas)[0] in DataColumns(datas);
    }
  }

  /** Adding one element to a `Set`: it grows by that element exactly when the element is new. */
  lemma DedupAdd(s: seq<string>, x: string)
    ensures Dedup(s + [x]) == if x in Dedup(s) then Dedup(s) else Dedup(s) + [x]
  {
    assert (s + [x])[..|s|] == s;
  }

  lemma AllKeysStep(datas: seq<Obj>, i: nat)
    requires i < |datas|
    ensures AllKeys(datas[..i + 1]) == AllKeys(datas[..i]) + Keys(datas[i])
  {
    assert datas[..i + 1][..i] == datas[..i];
  }

  /** One step of the inner loop: `add` of the next key of a row. */
  lemma DedupStep(before: seq<string>, keys: seq<string>, j: nat)
    requires j < |keys|
    ensures var d := Dedup(before + keys[..j]);
      Dedup(before + keys[..j + 1]) == if keys[j] in d then d else d + [keys[j]]
  {
    assert before + keys[..j + 1] == (before + keys[..j]) + [keys[j]];
    DedupAdd(before + keys[..j], keys[j]);
  }

  /** The inner loop of the source: every key of one row's `data` is added to the set. */
  method AddKeys(columns: seq<string>, ghost before: seq<string>, keys: seq<string>) returns (grown: seq<string>)
    requires columns == Dedup(before)
    ensures grown == Dedup(before + keys)
  {
    grown := columns;
    var j := 0;
    assert before + keys[..0] == before;
    while j < |keys|
      invariant 0 <= j <= |keys|
      invariant grown == Dedup(before + keys[..j])
    {
      DedupStep(before, keys, j);
      if keys[j] !in grown {
        grown := grown + [keys[j]];
      }
      j := j + 1;
    }
    assert keys[..j] == keys;
  }

  /**
   * The loop of the source: for every row, every key of its `data` is
   * added to the set (a key already there is not added again).
   */
  method CollectDataColumns(datas: seq<Obj>) returns (columns: seq<string>)
    ensures columns == DataColumns(datas)
  {
    columns := [];
    var i := 0;
    while i < |datas|
      invariant 0 <= i <= |datas|
      invariant columns == Dedup(AllKeys(datas[..i]))
    {
      columns := AddKeys(columns, AllKeys(datas[..i]), Keys(datas[i]));
      AllKeysStep(datas, i);
      i := i + 1;
    }
    assert datas[..i] == datas;
  }
}
