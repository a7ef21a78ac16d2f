/**
 * The jobly partial-update helper `sqlForPartialUpdate`: from a payload of
 * field/value pairs and a field-to-column table it builds the text of an SQL
 * `SET` clause with `$n` placeholders and the list of values bound to them.
 */
module SqlHelpers {
  import opened Wrappers
  import opened Text

  /** A value bound to a placeholder; the SQL text never contains one. */
  datatype Value = Null | Num(n: int) | Str(s: string) | Bool(b: bool)

  /** The jobly `BadRequestError`, with its message. */
  datatype Error = BadRequest(message: string)

  /** A JavaScript object literal: its key/value pairs in key order. */
  type Payload = seq<(string, Value)>

  /** The object `{ setCols, values }` that `sqlForPartialUpdate` returns. */
  datatype SetClause = SetClause(setCols: string, values: seq<Value>)

  /** `Object.keys(data)`. */
  function Keys(data: Payload): (keys: seq<string>)
    ensures |keys| == |data|
    ensures forall i :: 0 <= i < |data| ==> keys[i] == data[i].0
  {
    seq(|data|, i requires 0 <= i < |data| => data[i].0)
  }

  /** `Object.values(data)`. */
  function Values(data: Payload): (values: seq<Value>)
    ensures |values| == |data|
    ensures forall i :: 0 <= i < |data| ==> values[i] == data[i].1
  {
    seq(|data|, i requires 0 <= i < |data| => data[i].1)
  }

  /**
   * `jsToSql[key] || key`: the mapped name when there is a non-empty one,
   * otherwise the key itself. The table is consulted once, never twice.
   */
  function Column(jsToSql: map<string, string>, key: string): (col: string)
    ensures col == key || (key in jsToSql && col == jsToSql[key])
    ensures key in jsToSql && jsToSql[key] != "" ==> col == jsToSql[key]
    ensures col == "" ==> key == ""
  {
    if key in jsToSql && jsToSql[key] != "" then jsToSql[key] else key
  }

  /** The placeholder `$n`. */
  function Placeholder(n: nat): (p: string)
    ensures |p| > 1 && p[0] == '$' && AllDigits(p[1..])
  {
    "$" + NatToString(n)
  }

  /** The placeholder number a piece of SQL text ends with: the digits after a final `$`. */
  function PlaceholderNumber(text: string): (r: Option<nat>)
  {
    var d := DigitSuffixLength(text);
    if 0 < d < |text| && text[|text| - d - 1] == '$' then Some(ParseNat(text[|text| - d..])) else None
  }

  /** Whatever precedes it, text ending in `$n` is read back as ending in placeholder `n`. */
  lemma PlaceholderRoundTrip(prefix: string, n: nat)
    ensures PlaceholderNumber(prefix + Placeholder(n)) == Some(n)
  {
    var text := prefix + Placeholder(n);
    assert text == prefix + ['$'] + NatToString(n);
    DigitSuffixOf(prefix, '$', NatToString(n));
    assert text[|text| - |NatToString(n)|..] == NatToString(n);
    ParseNatToString(n);
  }

  /** `"col"=$n`: the quoted column, then an equals sign, then placeholder `n`. */
  function Assignment(col: string, n: nat): (frag: string)
    ensures |frag| > |col| + 3 && frag[..|col| + 3] == "\"" + col + "\"="
    ensures PlaceholderNumber(frag) == Some(n)
  {
    PlaceholderRoundTrip("\"" + col + "\"=", n);
    "\"" + col + "\"=" + Placeholder(n)
  }

  /** `keys.map((colName, idx) => ...)`: one assignment per key, numbered from 1 in key order. */
  function Assignments(keys: seq<string>, jsToSql: map<string, string>): (frags: seq<string>)
    ensures |frags| == |keys|
    ensures forall i :: 0 <= i < |keys| ==> PlaceholderNumber(frags[i]) == Some(i + 1)
  {
    seq(|keys|, i requires 0 <= i < |keys| => Assignment(Column(jsToSql, keys[i]), i + 1))
  }

  /**
   * `sqlForPartialUpdate(dataToUpdate, jsToSql)`: an empty payload is refused with
   * "No data"; otherwise the assignments joined with ", " and the values in key order.
   */
  function SqlForPartialUpdate(data: Payload, jsToSql: map<string, string>): (r: Result<SetClause, Error>)
    ensures r.Failure? <==> data == []
    ensures r.Failure? ==> r.error == BadRequest("No data")
    ensures r.Success? ==> |r.value.values| == |data|
    ensures r.Success? ==> forall i :: 0 <= i < |data| ==> r.value.values[i] == data[i].1
  {
    var keys := Keys(data);
    if |keys| == 0 then Failure(BadRequest("No data"))
    else Success(SetClause(Join(Assignments(keys, jsToSql), ", "), Values(data)))
  }

  /**
   * The assignment for the key at position `i` names that key's column and
   * ends in placeholder `i + 1`, which is bound to that key's value: the
   * placeholders are 1..n, one per value, in order.
   */
  lemma AssignmentsNumbered(data: Payload, jsToSql: map<string, string>, i: nat)
    requires i < |data|
    ensures Assignments(Keys(data), jsToSql)[i] == "\"" + Column(jsToSql, data[i].0) + "\"=" + Placeholder(i + 1)
    ensures PlaceholderNumber(Assignments(Keys(data), jsToSql)[i]) == Some(i + 1)
    ensures SqlForPartialUpdate(data, jsToSql).value.values[i] == data[i].1
  {
    PlaceholderRoundTrip("\"" + Column(jsToSql, data[i].0) + "\"=", i + 1);
  }

  /** Two assignments at different positions carry different placeholder numbers. */
  lemma PlaceholdersDistinct(data: Payload, jsToSql: map<string, string>, i: nat, j: nat)
    requires i < |data| && j < |data| && i != j
    ensures PlaceholderNumber(Assignments(Keys(data), jsToSql)[i])
         != PlaceholderNumber(Assignments(Keys(data), jsToSql)[j])
  {
    AssignmentsNumbered(data, jsToSql, i);
    AssignmentsNumbered(data, jsToSql, j);
  }

  /** The SET text depends on the keys only: values are never written into it. */
  lemma SetColsIgnoresValues(d1: Payload, d2: Payload, jsToSql: map<string, string>)
    requires Keys(d1) == Keys(d2) && d1 != []
    ensures SqlForPartialUpdate(d1, jsToSql).value.setCols == SqlForPartialUpdate(d2, jsToSql).value.setCols
  {
  }

  /** A single key gives its one assignment, with no separator. */
  lemma SingleKey(key: string, v: Value, jsToSql: map<string, string>)
    ensures SqlForPartialUpdate([(key, v)], jsToSql)
         == Success(SetClause("\"" + Column(jsToSql, key) + "\"=$1", [v]))
  {
    assert NatToString(1) == "1";
    assert Assignment(Column(jsToSql, key), 1) == "\"" + Column(jsToSql, key) + "\"=$1";
    assert Assignments(Keys([(key, v)]), jsToSql) == [Assignment(Column(jsToSql, key), 1)];
    assert Values([(key, v)]) == [v];
  }

  /** The lookup goes one level deep: `{key: "key1", key1: "key2"}` sends `key` to `key1`. */
  lemma OneLevelLookup()
    ensures SqlForPartialUpdate([("key", Str("val"))], map["key" := "key1", "key1" := "key2"])
         == Success(SetClause("\"key1\"=$1", [Str("val")]))
  {
    var jsToSql := map["key" := "key1", "key1" := "key2"];
    assert Column(jsToSql, "key") == "key1";
    SingleKey("key", Str("val"), jsToSql);
    assert "\"" + "key1" + "\"=$1" == "\"key1\"=$1";
  }

  /** Later keys append `, "col"=$n` behind the earlier ones. */
  lemma {:induction false} SetColsExtend(data: Payload, key: string, v: Value, jsToSql: map<string, string>)
    requires data != []
    ensures SqlForPartialUpdate(data + [(key, v)], jsToSql).value.setCols
         == SqlForPartialUpdate(data, jsToSql).value.setCols + ", " + Assignment(Column(jsToSql, key), |data| + 1)
  {
    var all := Assignments(Keys(data + [(key, v)]), jsToSql);
    assert all == Assignments(Keys(data), jsToSql) + [Assignment(Column(jsToSql, key), |data| + 1)];
    JoinSnoc(Assignments(Keys(data), jsToSql), Assignment(Column(jsToSql, key), |data| + 1), ", ");
  }
}
