/**
  The HTTP client the rqlite adapter builds for itself: it turns a statement
  into the JSON text of a request body, posts it to the engine's query or
  execute endpoint, and shapes `results[0]` of the decoded answer into one
  row mapping or a list of row mappings.

  The transport (issuing the POST and decoding the JSON answer) and
  `json_encode` are passed to the client as functions.
 */
module RqliteClient {
  import opened OrderedMap
  import opened PhpValues

  /** Host used when the options carry no `url`. */
  const DefaultHost: string := "http://localhost:4001"

  /** Diagnostic flags appended to every request. */
  const QueryFlags: string := "pretty&timings"

  /** What PHP 8 reports where shaping a result fails. */
  const CombineSizeMessage: string := "array_combine(): Argument #1 ($keys) and argument #2 ($values) must have the same number of elements"
  const CombineKeysMessage: string := "array_combine(): Argument #1 ($keys) must be of type array"
  const CombineValuesMessage: string := "array_combine(): Argument #2 ($values) must be of type array"
  const CountMessage: string := "count(): Argument #1 ($value) must be of type Countable|array"
  const FormatMessage: string := "format(): Argument #1 ($result) must be of type array"

  // ---------------------------------------------------------------------
  // Request body

  /** `array_shift` twice: the first and the second element of an array,
      null where there is none. */
  function FirstValue(es: seq<(Key, Value)>): Value {
    if |es| > 0 then es[0].1 else Null
  }

  function SecondValue(es: seq<(Key, Value)>): Value {
    if |es| > 1 then es[1].1 else Null
  }

  /** `toString($sql)`: a string becomes `["sql"]`, an array `[sql, params]`
      becomes `[["sql", <json of params>]]`, anything else is passed on as it
      is. The statement text is put in as it is, without JSON escaping. */
  function RequestBody(sql: Value, json: Value -> string): (body: Value)
    ensures sql.Str? ==> body == Str("[\"" + sql.s + "\"]")
    ensures sql.Arr? ==> body == Str("[[\"" + ToPhpString(FirstValue(sql.entries)) + "\", "
                                     + json(SecondValue(sql.entries)) + "]]")
    ensures !sql.Str? && !sql.Arr? ==> body == sql
  {
    match sql
    case Str(s) => Str("[\"" + s + "\"]")
    case Arr(es) =>
      Str("[[\"" + ToPhpString(FirstValue(es)) + "\", " + json(SecondValue(es)) + "]]")
    case _ => sql
  }

  /** The statement text inside a single-statement body `["..."]`. */
  function BodyStatement(body: string): Option<string> {
    if |body| >= 4 && body[..2] == "[\"" && body[|body| - 2..] == "\"]"
    then Some(body[2..|body| - 2])
    else None
  }

  /** The statement is sent verbatim: stripping the fixed delimiters gives it
      back exactly, whatever quotes or backslashes it holds. */
  lemma StatementSentVerbatim(sql: string, json: Value -> string)
    ensures RequestBody(Str(sql), json).Str?
    ensures BodyStatement(RequestBody(Str(sql), json).s) == Some(sql)
  {
    var b := "[\"" + sql + "\"]";
    assert b[..2] == "[\"" && b[|b| - 2..] == "\"]";
    assert b[2..|b| - 2] == sql;
  }

  /** An array statement puts its parameters after the text, encoded by
      `json_encode`, as for a statement with one bound parameter,
      `["SELECT ... ?", [1]]`. */
  lemma ParameterisedBody(sql: string, params: Value, json: Value -> string)
    ensures RequestBody(List([Str(sql), params]), json)
         == Str("[[\"" + sql + "\", " + json(params) + "]]")
  {
  }

  // ---------------------------------------------------------------------
  // Request URI

  /** `sprintf("%s/db/<endpoint>?%s", host, "pretty&timings")`. */
  function EndpointUri(host: Value, endpoint: string): (uri: string)
    ensures uri == ToPhpString(host) + "/db/" + endpoint + "?" + QueryFlags
  {
    ToPhpString(host) + "/db/" + endpoint + "?" + QueryFlags
  }

  /** The configured host: `$options["url"] ?? "http://localhost:4001"`
      (`??` also falls back when the value is null). */
  function HostOf(options: seq<(Key, Value)>): (host: Value)
    ensures host == Str(DefaultHost) || Get(options, StrKey("url")) == Some(host)
    ensures Get(options, StrKey("url")).Some? && !Get(options, StrKey("url")).value.Null?
      ==> host == Get(options, StrKey("url")).value
    ensures host == Str(DefaultHost) <== Get(options, StrKey("url")) in {None, Some(Null)}
  {
    match Get(options, StrKey("url"))
    case Some(v) => if v.Null? then Str(DefaultHost) else v
    case None => Str(DefaultHost)
  }

  // ---------------------------------------------------------------------
  // Result shaping

  /** `count($v, COUNT_RECURSIVE)` of an array value, 0 for a scalar. */
  function CountValue(v: Value): nat
    decreases v
  {
    if v.Arr? then CountEntries(v.entries) else 0
  }

  /** Every element, plus the recursive count of each element that is an array. */
  function CountEntries(es: seq<(Key, Value)>): nat
    decreases es
  {
    if es == [] then 0
    else
      var last := es[|es| - 1];
      assert last in es;
      assert last.1 < last;
      1 + CountValue(last.1) + CountEntries(es[..|es| - 1])
  }

  /** `count($values) == count($values, COUNT_RECURSIVE)`. */
  predicate IsFlat(es: seq<(Key, Value)>) {
    CountEntries(es) == |es|
  }

  /** An element that is an array with at least one element. */
  predicate IsNonEmptyArray(v: Value) {
    v.Arr? && v.entries != []
  }

  lemma {:induction false} CountAtLeastLength(es: seq<(Key, Value)>)
    ensures CountEntries(es) >= |es|
    ensures CountEntries(es) == 0 <==> es == []
  {
    if es != [] {
      CountAtLeastLength(es[..|es| - 1]);
    }
  }

  /** The count test holds exactly when no element is a non-empty array:
      an empty array element counts once in both counts. */
  lemma {:induction false} FlatIffNoNestedRows(es: seq<(Key, Value)>)
    ensures IsFlat(es) <==> forall i :: 0 <= i < |es| ==> !IsNonEmptyArray(es[i].1)
  {
    if es != [] {
      var init, last := es[..|es| - 1], es[|es| - 1];
      FlatIffNoNestedRows(init);
      CountAtLeastLength(init);
      if last.1.Arr? {
        CountAtLeastLength(last.1.entries);
      }
      assert CountValue(last.1) == 0 <==> !IsNonEmptyArray(last.1);
      assert IsFlat(es) <==> CountValue(last.1) == 0 && IsFlat(init);
      assert forall i :: 0 <= i < |init| ==> init[i] == es[i];
      if IsFlat(es) {
        forall i | 0 <= i < |es| ensures !IsNonEmptyArray(es[i].1) {
          if i < |init| {
            assert es[i] == init[i];
          }
        }
      } else if CountValue(last.1) != 0 {
        assert IsNonEmptyArray(es[|es| - 1].1);
      } else {
        var j :| 0 <= j < |init| && IsNonEmptyArray(init[j].1);
        assert IsNonEmptyArray(es[j].1);
      }
    }
  }

  /** The key `array_combine` makes of a column name: integers stay,
      anything else goes through its string form. */
  function CombineKey(v: Value): Key {
    if v.Int? then IntKey(v.n) else SymKey(ToPhpString(v))
  }

  function CombineKeys(vs: seq<Value>): (ks: seq<Key>)
    ensures |ks| == |vs| && forall i :: 0 <= i < |vs| ==> ks[i] == CombineKey(vs[i])
  {
    seq(|vs|, i requires 0 <= i < |vs| => CombineKey(vs[i]))
  }

  function Zip(ks: seq<Key>, vs: seq<Value>): (ps: seq<(Key, Value)>)
    requires |ks| == |vs|
    ensures Keys(ps) == ks && Values(ps) == vs
  {
    seq(|ks|, i requires 0 <= i < |ks| => (ks[i], vs[i]))
  }

  /** `array_combine($keys, $values)`: both must be arrays of the same size;
      the i-th key is written with the i-th value, so a repeated key keeps
      its first position and its last value. */
  function Combine(keys: Value, vals: Value): (r: Result<Value>)
    ensures r.Ok? <==> keys.Arr? && vals.Arr? && |keys.entries| == |vals.entries|
    ensures r.Ok? ==> r.value.Arr?
  {
    if !keys.Arr? then Err(TypeError(CombineKeysMessage))
    else if !vals.Arr? then Err(TypeError(CombineValuesMessage))
    else if |keys.entries| != |vals.entries| then
      Err(ValueError(CombineSizeMessage))
    else Ok(Arr(CombineEntries(keys.entries, vals.entries)))
  }

  /** The entries `array_combine` builds from two arrays of the same size,
      writing the i-th value under the i-th key. */
  function CombineEntries(keys: seq<(Key, Value)>, vals: seq<(Key, Value)>): seq<(Key, Value)>
    requires |keys| == |vals|
  {
    if keys == [] then []
    else Put(CombineEntries(keys[..|keys| - 1], vals[..|vals| - 1]),
             CombineKey(keys[|keys| - 1].1), vals[|vals| - 1].1)
  }

  /** `array_combine` is the series of writes of the zipped pairs. */
  lemma {:induction false} CombineEntriesWrites(keys: seq<(Key, Value)>, vals: seq<(Key, Value)>)
    requires |keys| == |vals|
    ensures CombineEntries(keys, vals) == PutAll([], Zip(CombineKeys(Values(keys)), Values(vals)))
  {
    if keys != [] {
      var n := |keys|;
      CombineEntriesWrites(keys[..n - 1], vals[..n - 1]);
      var ps := Zip(CombineKeys(Values(keys)), Values(vals));
      assert ps[..n - 1] == Zip(CombineKeys(Values(keys[..n - 1])), Values(vals[..n - 1]));
    }
  }

  /** With distinct column names and a row of the same width, the row mapping
      has the columns as keys, in column order, and the row's values. */
  lemma CombineRow(columns: seq<(Key, Value)>, row: seq<(Key, Value)>)
    requires |columns| == |row|
    requires Distinct(CombineKeys(Values(columns)))
    ensures Combine(Arr(columns), Arr(row)).Ok?
    ensures var m := Combine(Arr(columns), Arr(row)).value.entries;
      Keys(m) == CombineKeys(Values(columns)) && Values(m) == Values(row)
  {
    var ps := Zip(CombineKeys(Values(columns)), Values(row));
    CombineEntriesWrites(columns, row);
    assert [] + ps == ps;
    PutAllDistinct([], ps);
  }

  /** Shapes every row of a nested result, failing at the first row that
      `array_combine` rejects. */
  function CombineAll(keys: Value, rows: seq<Value>): Result<seq<Value>> {
    Traverse(row => Combine(keys, row), rows)
  }

  /** `format()` once `columns` and `values` are read. */
  function ShapeRows(keys: Value, values: Value): Result<Value> {
    if !values.Arr? then Err(TypeError(CountMessage))
    else if IsFlat(values.entries) then
      var row0 :- ReadOffset(values, IntKey(0));
      Combine(keys, row0)
    else
      var rows :- CombineAll(keys, Values(values.entries));
      Ok(List(rows))
  }

  /** `$result["results"][0]["columns"]` and `["values"]` of a decoded
      answer (a missing key reads as null). */
  function ResultColumns(response: Value): Result<(Value, Value)> {
    if !response.Arr? then Err(TypeError(FormatMessage))
    else
      var results :- ReadNamed(response, "results");
      var first :- ReadOffset(results, IntKey(0));
      var keys :- ReadNamed(first, "columns");
      var values :- ReadNamed(first, "values");
      Ok((keys, values))
  }

  /** `format($result)`. */
  function Shape(response: Value): Result<Value> {
    var kv :- ResultColumns(response);
    ShapeRows(kv.0, kv.1)
  }

  /** Nested branch: one mapping per element of `values`, in order, each
      keyed by the columns in column order and holding that row's values;
      this needs every row to be as wide as the columns. */
  lemma ShapeNestedRows(columns: seq<(Key, Value)>, values: seq<(Key, Value)>)
    requires !IsFlat(values)
    requires Distinct(CombineKeys(Values(columns)))
    requires forall i :: 0 <= i < |values| ==> values[i].1.Arr? && |values[i].1.entries| == |columns|
    ensures ShapeRows(Arr(columns), Arr(values)).Ok?
    ensures var out := ShapeRows(Arr(columns), Arr(values)).value;
      && out.Arr? && |out.entries| == |values|
      && forall i :: 0 <= i < |values| ==>
           && out.entries[i].0 == IntKey(i)
           && out.entries[i].1.Arr?
           && Keys(out.entries[i].1.entries) == CombineKeys(Values(columns))
           && Values(out.entries[i].1.entries) == Values(values[i].1.entries)
  {
    var rows := Values(values);
    forall i | 0 <= i < |rows| ensures Combine(Arr(columns), rows[i]).Ok? {
      CombineRow(columns, rows[i].entries);
    }
    TraverseAll(row => Combine(Arr(columns), row), rows);
    var shaped := CombineAll(Arr(columns), rows).value;
    forall i | 0 <= i < |values|
      ensures && shaped[i].Arr?
              && Keys(shaped[i].entries) == CombineKeys(Values(columns))
              && Values(shaped[i].entries) == Values(values[i].1.entries)
    {
      CombineRow(columns, rows[i].entries);
    }
  }

  /** A row whose width differs from the column count makes the nested
      branch fail (array_combine's ValueError). */
  lemma ShapeNestedWidthMismatch(keys: seq<(Key, Value)>, values: seq<(Key, Value)>, j: int)
    requires !IsFlat(values)
    requires 0 <= j < |values| && values[j].1.Arr? && |values[j].1.entries| != |keys|
    ensures ShapeRows(Arr(keys), Arr(values)).Err?
  {
    TraverseAll(row => Combine(Arr(keys), row), Values(values));
  }

  /** Flat branch: `array_combine($keys, $values[0])` needs `$values[0]` to
      be an array, and in flat values that can only be an empty array, so the
      flat branch succeeds only for no columns and then gives an empty row. */
  lemma ShapeFlatRows(keys: Value, values: seq<(Key, Value)>)
    requires IsFlat(values)
    ensures ShapeRows(keys, Arr(values)).Ok? <==>
      keys.Arr? && keys.entries == [] && Get(values, IntKey(0)) == Some(Arr([]))
    ensures ShapeRows(keys, Arr(values)).Ok? ==> ShapeRows(keys, Arr(values)).value == Arr([])
  {
    FlatIffNoNestedRows(values);
    match Get(values, IntKey(0))
    case Some(v) =>
      var i :| 0 <= i < |values| && values[i] == (IntKey(0), v);
      assert !IsNonEmptyArray(values[i].1);
    case None =>
  }

  /** A decoded answer with one result holding `columns` and `values`. */
  function SingleResult(columns: Value, values: Value): Value {
    Arr([(StrKey("results"), List([Arr([(StrKey("columns"), columns), (StrKey("values"), values)])]))])
  }

  /** `format()` reads the columns and values of the first result. */
  lemma SingleResultColumns(columns: Value, values: Value)
    ensures ResultColumns(SingleResult(columns, values)) == Ok((columns, values))
  {
    WordKey("results");
    WordKey("columns");
    WordKey("values");
    var es := [(StrKey("columns"), columns), (StrKey("values"), values)];
    var first := Arr(es);
    var top := [(StrKey("results"), List([first]))];
    assert IndexOf(top, StrKey("results")) == 0;
    assert ListEntries([first]) == [(IntKey(0), first)];
    assert IndexOf([(IntKey(0), first)], IntKey(0)) == 0;
    assert IndexOf(es, StrKey("columns")) == 0;
    assert IndexOf(es[1..], StrKey("values")) == 0;
    assert IndexOf(es, StrKey("values")) == 1;
  }

  /** The two-column row `{"values": ["1", "alice"]}` hits the flat branch and
      `array_combine` then receives the string "1": a TypeError, not the
      mapping `{"id": "1", "name": "alice"}`. */
  lemma FlatSingleRowRejected()
    ensures Shape(SingleResult(List([Str("id"), Str("name")]), List([Str("1"), Str("alice")]))).Err?
  {
    var values := ListEntries([Str("1"), Str("alice")]);
    SingleResultColumns(List([Str("id"), Str("name")]), Arr(values));
    assert CountEntries(values) == 2 by {
      assert values[..1][..0] == [];
    }
    ShapeFlatRows(List([Str("id"), Str("name")]), values);
  }

  /** The same row nested as rqlite sends it, `[["1", "alice"]]`, gives a
      list with the one mapping `{"id": "1", "name": "alice"}`. */
  lemma NestedSingleRowShaped()
    ensures var out := ShapeRows(List([Str("id"), Str("name")]), List([List([Str("1"), Str("alice")])]));
      && out.Ok? && out.value.Arr? && |out.value.entries| == 1
      && out.value.entries[0].1.Arr?
      && Keys(out.value.entries[0].1.entries) == [StrKey("id"), StrKey("name")]
      && Values(out.value.entries[0].1.entries) == [Str("1"), Str("alice")]
  {
    var columns := ListEntries([Str("id"), Str("name")]);
    var row := ListEntries([Str("1"), Str("alice")]);
    var values := ListEntries([Arr(row)]);
    assert CountEntries(values) == 3 by {
      assert values[..0] == [];
      assert CountEntries(row) == 2 by {
        assert row[..1][..0] == [];
      }
    }
    assert CombineKeys(Values(columns)) == [StrKey("id"), StrKey("name")] by {
      assert SymKey("id") == StrKey("id");
      assert SymKey("name") == StrKey("name");
    }
    ShapeNestedRows(columns, values);
    assert Values(row) == [Str("1"), Str("alice")];
  }

  /** `format()` as the source runs it. */
  method Format(response: Value) returns (r: Result<Value>)
    ensures r == Shape(response)
  {
    var kv := ResultColumns(response);
    if kv.Err? {
      return Err(kv.error);
    }
    r := FormatRows(kv.value.0, kv.value.1);
  }

  /** The branch on the count test, after `columns` and `values` are read. */
  method FormatRows(keys: Value, values: Value) returns (r: Result<Value>)
    ensures r == ShapeRows(keys, values)
  {
    if !values.Arr? {
      return Err(TypeError(CountMessage));
    }
    if IsFlat(values.entries) {
      var row0 := ReadOffset(values, IntKey(0));
      if row0.Err? {
        return Err(row0.error);
      }
      return Combine(keys, row0.value);
    }
    var rows := CombineEach(keys, Values(values.entries));
    if rows.Err? {
      return Err(rows.error);
    }
    r := Ok(List(rows.value));
  }

  /** The `foreach` that combines the columns with every row in turn. */
  method CombineEach(keys: Value, all: seq<Value>) returns (r: Result<seq<Value>>)
    ensures r == CombineAll(keys, all)
  {
    var rows: seq<Value> := [];
    var i := 0;
    while i < |all|
      invariant 0 <= i <= |all|
      invariant CombineAll(keys, all[..i]) == Ok(rows)
    {
      assert all[..i + 1][..i] == all[..i];
      var row := Combine(keys, all[i]);
      if row.Err? {
        TraverseFirstError(row => Combine(keys, row), all, i + 1);
        return Err(row.error);
      }
      rows := rows + [row.value];
      i := i + 1;
    }
    assert all[..i] == all;
    r := Ok(rows);
  }

  // ---------------------------------------------------------------------
  // The client object

  /** The anonymous client class: the host taken from the options at
      connection time, the fixed query flags, the transport, and the request
      body and answer of the last request. */
  class HttpClient {
    const host: Value
    /** Posts a JSON body to a URI (HTTP/1.1) and decodes the JSON answer. */
    const send: (string, Value) -> Value
    const json: Value -> string
    /** The `data` request option; null until the first request. */
    var data: Value
    /** The decoded answer to the last request. */
    var response: Value

    constructor(host: Value, send: (string, Value) -> Value, json: Value -> string)
      ensures this.host == host && this.send == send && this.json == json
      ensures data == Null && response == Null
    {
      this.host := host;
      this.send := send;
      this.json := json;
      data := Null;
      response := Null;
    }

    /** What the engine answers, shaped, when `sql` goes to `endpoint`. */
    function Answer(endpoint: string, sql: Value): Result<Value> {
      Shape(send(EndpointUri(host, endpoint), RequestBody(sql, json)))
    }

    /** `query($sql)`: POST to `/db/query`. */
    method Query(sql: Value) returns (r: Result<Value>)
      modifies this
      ensures data == RequestBody(sql, json)
      ensures response == send(EndpointUri(host, "query"), data)
      ensures r == Answer("query", sql)
    {
      data := RequestBody(sql, json);
      response := send(EndpointUri(host, "query"), data);
      r := Format(response);
    }

    /** `execute($sql)`: POST to `/db/execute`. */
    method Execute(sql: Value) returns (r: Result<Value>)
      modifies this
      ensures data == RequestBody(sql, json)
      ensures response == send(EndpointUri(host, "execute"), data)
      ensures r == Answer("execute", sql)
    {
      data := RequestBody(sql, json);
      response := send(EndpointUri(host, "execute"), data);
      r := Format(response);
    }
  }
}
