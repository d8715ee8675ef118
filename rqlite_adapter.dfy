/**
  The rqlite database adapter: connection options, the transaction flag, a
  prepared statement whose bound values are substituted into its text by
  string replacement, and the last shaped result, from which rows are
  fetched.
 */
module RqliteAdapter {
  import opened OrderedMap
  import opened PhpValues
  import opened Strings
  import opened RqliteClient

  // ---------------------------------------------------------------------
  // Options

  /** `isset($options['url'])`: present and not null. */
  predicate HasUrl(options: seq<(Key, Value)>) {
    match Get(options, StrKey("url"))
    case Some(v) => !v.Null?
    case None => false
  }

  /** The options `setOptions` stores: the given ones, with the default
      `url` written when none is set. */
  function WithDefaultUrl(options: seq<(Key, Value)>): (r: seq<(Key, Value)>)
    ensures HasUrl(r)
    ensures forall k :: k != StrKey("url") ==> Get(r, k) == Get(options, k)
    ensures HasUrl(options) ==> r == options
    ensures !HasUrl(options) ==> Get(r, StrKey("url")) == Some(Str(DefaultHost))
  {
    if HasUrl(options) then options else Put(options, StrKey("url"), Str(DefaultHost))
  }

  /** Setting the same options twice stores the same options. */
  lemma WithDefaultUrlIdempotent(options: seq<(Key, Value)>)
    ensures WithDefaultUrl(WithDefaultUrl(options)) == WithDefaultUrl(options)
  {
  }

  /** The client built after `setOptions` talks to the configured url, or to
      the default host when none was set. */
  lemma ConnectedHost(options: seq<(Key, Value)>)
    ensures HasUrl(options) ==> Some(HostOf(WithDefaultUrl(options))) == Get(options, StrKey("url"))
    ensures !HasUrl(options) ==> HostOf(WithDefaultUrl(options)) == Str(DefaultHost)
  {
  }

  // ---------------------------------------------------------------------
  // Escaping and substitution

  /** `escape(?string $value = null)`: the value between single quotes; an
      embedded quote is not doubled. */
  function Escape(value: Option<string> := None): (r: string)
    ensures |r| >= 2 && r[0] == '\'' && r[|r| - 1] == '\''
    ensures r[1..|r| - 1] == match value case Some(s) => s case None => ""
  {
    "'" + (match value case Some(s) => s case None => "") + "'"
  }

  /** The text of a SQL string literal's body, where a quote is written
      twice; None when a lone quote ends the literal early. */
  function LiteralBody(t: string): (r: Option<string>)
    ensures r.Some? ==> |r.value| <= |t|
    decreases |t|
  {
    if t == [] then Some([])
    else if t[0] != '\'' then
      match LiteralBody(t[1..])
      case Some(u) => Some([t[0]] + u)
      case None => None
    else if |t| >= 2 && t[1] == '\'' then
      match LiteralBody(t[2..])
      case Some(u) => Some(['\''] + u)
      case None => None
    else None
  }

  /** The string a SQL engine reads from `s` when `s` is one string literal. */
  function ParseSqlLiteral(s: string): Option<string> {
    if |s| >= 2 && s[0] == '\'' && s[|s| - 1] == '\'' then LiteralBody(s[1..|s| - 1]) else None
  }

  lemma {:induction false} LiteralBodyPlain(t: string)
    requires forall i :: 0 <= i < |t| ==> t[i] != '\''
    ensures LiteralBody(t) == Some(t)
    decreases |t|
  {
    if t != [] {
      LiteralBodyPlain(t[1..]);
      assert t == [t[0]] + t[1..];
    }
  }

  lemma {:induction false} LiteralBodyQuoted(t: string, i: int)
    requires 0 <= i < |t| && t[i] == '\''
    ensures LiteralBody(t) != Some(t)
    decreases |t|
  {
    if t[0] != '\'' {
      match LiteralBody(t[1..])
      case Some(u) =>
        LiteralBodyQuoted(t[1..], i - 1);
        assert u != t[1..];
        assert ([t[0]] + u)[1..] == u;
        assert t[1..] != u;
      case None =>
    }
  }

  /** A value without quotes is read back exactly; so is the escaped null. */
  lemma EscapeRoundTrip(value: Option<string>)
    requires value.Some? ==> forall i :: 0 <= i < |value.value| ==> value.value[i] != '\''
    ensures ParseSqlLiteral(Escape(value)) == Some(match value case Some(s) => s case None => "")
  {
    var r := Escape(value);
    LiteralBodyPlain(r[1..|r| - 1]);
  }

  /** A value with a quote in it is not read back: the quote ends the
      literal, since `escape` does not double it. */
  lemma EscapeEmbeddedQuote(s: string, i: int)
    requires 0 <= i < |s| && s[i] == '\''
    ensures ParseSqlLiteral(Escape(Some(s))) != Some(s)
  {
    var r := Escape(Some(s));
    assert r[1..|r| - 1] == s;
    LiteralBodyQuoted(s, i);
  }

  /** The classic case: `O'Brien` escapes to a literal that ends after `O`. */
  lemma EscapeOBrien()
    ensures Escape(Some("O'Brien")) == "'O'Brien'"
    ensures ParseSqlLiteral(Escape(Some("O'Brien"))) == None
  {
    var t := "O'Brien";
    assert t[1..][0] == '\'' && t[1..][1] == 'B';
    assert LiteralBody(t[1..]) == None;
  }

  const EscapeArrayMessage: string :=
    "Pop\\Db\\Adapter\\Rqlite::escape(): Argument #1 ($value) must be of type ?string, array given"

  /** `$this->escape($value)` with a bound value: scalars are converted to
      their string form, null stays null, an array is rejected. */
  function EscapeBound(value: Value): (r: Result<string>)
    ensures r.Err? <==> value.Arr?
    ensures r.Ok? ==> r.value == Escape(if value.Null? then None else Some(ToPhpString(value)))
  {
    match value
    case Arr(_) => Err(TypeError(EscapeArrayMessage))
    case Null => Ok(Escape())
    case _ => Ok(Escape(Some(ToPhpString(value))))
  }

  /** `str_replace($search, $replace, $subject)` with scalar search and
      replacement: an array subject is replaced element by element (nested
      arrays are kept, keys are kept), any other subject as its string form. */
  function StrReplace(search: string, replace: string, subject: Value): (r: Value)
    ensures subject.Arr? ==> r.Arr? && Keys(r.entries) == Keys(subject.entries)
    ensures subject.Arr? ==> forall i :: 0 <= i < |subject.entries| ==>
      r.entries[i].1 == (if subject.entries[i].1.Arr? then subject.entries[i].1
                         else Str(ReplaceAll(ToPhpString(subject.entries[i].1), search, replace)))
    ensures !subject.Arr? ==> r == Str(ReplaceAll(ToPhpString(subject), search, replace))
  {
    match subject
    case Arr(es) =>
      Arr(seq(|es|, i requires 0 <= i < |es| =>
        (es[i].0, if es[i].1.Arr? then es[i].1 else Str(ReplaceAll(ToPhpString(es[i].1), search, replace)))))
    case _ => Str(ReplaceAll(ToPhpString(subject), search, replace))
  }

  /** One step of `execute()`: every occurrence of the bound value in the
      statement is replaced by its escaped form. */
  function Substitute(sql: Value, value: Value): Value
    requires !value.Arr?
  {
    StrReplace(ToPhpString(value), EscapeBound(value).value, sql)
  }

  /** The steps for the first `n` values, in order, each applied to the
      output of the one before. */
  function SubstituteAll(sql: Value, values: seq<Value>, n: nat): Value
    requires n <= |values| && forall i :: 0 <= i < n ==> !values[i].Arr?
  {
    if n == 0 then sql
    else Substitute(SubstituteAll(sql, values, n - 1), values[n - 1])
  }

  lemma SubstituteAllStep(sql: Value, values: seq<Value>, n: nat, before: Value, after: Value)
    requires n < |values| && forall i :: 0 <= i <= n ==> !values[i].Arr?
    requires before == SubstituteAll(sql, values, n) && after == Substitute(before, values[n])
    ensures after == SubstituteAll(sql, values, n + 1)
  {
  }

  /** Where `execute()` stops: the first bound value that is an array, or
      the number of bound values. */
  function FirstArrayIndex(values: seq<Value>): (k: int)
    ensures 0 <= k <= |values|
    ensures forall i :: 0 <= i < k ==> !values[i].Arr?
    ensures k < |values| ==> values[k].Arr?
  {
    if values == [] then 0
    else if values[0].Arr? then 0
    else 1 + FirstArrayIndex(values[1..])
  }

  /** A value that does not occur in the statement leaves it unchanged. */
  lemma SubstituteAbsent(sql: string, value: Value)
    requires !value.Arr? && !Contains(sql, ToPhpString(value))
    ensures Substitute(Str(sql), value) == Str(sql)
  {
    ReplaceAbsent(sql, ToPhpString(value), EscapeBound(value).value);
  }

  /** Each replacement adds the two quotes around the value. */
  lemma SubstituteLength(sql: string, value: Value)
    requires !value.Arr?
    ensures Substitute(Str(sql), value).Str?
    ensures |Substitute(Str(sql), value).s| == |sql| + 2 * Occurrences(sql, ToPhpString(value))
  {
    var n := ToPhpString(value);
    var e := EscapeBound(value).value;
    assert |e| == |n| + 2;
    ReplaceLength(sql, n, e);
  }

  /** After a substitution that replaced something, the escaped value is in
      the statement. */
  lemma SubstitutePresent(sql: string, value: Value, i: int)
    requires !value.Arr? && ToPhpString(value) != [] && OccursAt(sql, ToPhpString(value), i)
    ensures Contains(Substitute(Str(sql), value).s, Escape(Some(ToPhpString(value))))
  {
    ContainsReplaced(sql, ToPhpString(value), i);
    ReplacementPresent(sql, ToPhpString(value), EscapeBound(value).value);
  }

  lemma QuoteOnce()
    ensures ReplaceAll("id = 42", "42", "'42'") == "id = '42'"
  {
    NotContainsPair("id = ", "42");
    NotContainsPair("", "42");
    NoStraddlePair("id = ", "42", "42");
    ReplaceOnce("id = ", "42", "", "'42'");
    assert "id = " + ("42" + "") == "id = 42";
    assert "id = " + ("'42'" + "") == "id = '42'";
  }

  lemma QuoteAgain()
    ensures ReplaceAll("id = '42'", "42", "'42'") == "id = ''42''"
  {
    NotContainsPair("id = '", "42");
    NotContainsPair("'", "42");
    NoStraddlePair("id = '", "42'", "42");
    ReplaceOnce("id = '", "42", "'", "'42'");
    assert "id = '" + ("42" + "'") == "id = '42'";
    assert "id = '" + ("'42'" + "'") == "id = ''42''";
  }

  /** A second `execute()` quotes the already quoted value again. */
  lemma SubstituteTwice()
    ensures Substitute(Str("id = 42"), Str("42")) == Str("id = '42'")
    ensures Substitute(Substitute(Str("id = 42"), Str("42")), Str("42")) == Str("id = ''42''")
  {
    assert EscapeBound(Str("42")).value == "'42'";
    QuoteOnce();
    QuoteAgain();
  }

  // ---------------------------------------------------------------------
  // Tables

  const TablesQuery: string :=
    "SELECT name FROM sqlite_master WHERE type IN ('table', 'view') AND name NOT LIKE 'sqlite_%' "
    + "UNION ALL SELECT name FROM sqlite_temp_master WHERE type IN ('table', 'view') ORDER BY 1"

  /** `$row["name"]` for every row of a result, in order; a result that is
      not an array gives no rows (foreach warns and skips). */
  function TableNames(result: Value): Result<seq<Value>> {
    if result.Arr? then Traverse(row => ReadNamed(row, "name"), Values(result.entries)) else Ok([])
  }

  /** Rows that are mappings give their `name` entries, in row order. */
  lemma TableNamesOfRows(rows: seq<(Key, Value)>)
    requires forall i :: 0 <= i < |rows| ==> rows[i].1.Arr?
    ensures TableNames(Arr(rows)).Ok?
    ensures |TableNames(Arr(rows)).value| == |rows|
    ensures forall i :: 0 <= i < |rows| ==>
      TableNames(Arr(rows)).value[i] == match Get(rows[i].1.entries, SymKey("name")) case Some(v) => v case None => Null
  {
    TraverseAll(row => ReadNamed(row, "name"), Values(rows));
  }

  /** The `foreach` of `getTables()` that collects the `name` of every row. */
  method CollectTableNames(result: Value) returns (r: Result<seq<Value>>)
    ensures r == TableNames(result)
  {
    if !result.Arr? {
      return Ok([]);
    }
    var rows := Values(result.entries);
    var tables: seq<Value> := [];
    var i := 0;
    while i < |rows|
      invariant 0 <= i <= |rows|
      invariant Traverse(row => ReadNamed(row, "name"), rows[..i]) == Ok(tables)
    {
      assert rows[..i + 1][..i] == rows[..i];
      var name := ReadNamed(rows[i], "name");
      if name.Err? {
        TraverseFirstError(row => ReadNamed(row, "name"), rows, i + 1);
        return Err(name.error);
      }
      tables := tables + [name.value];
      i := i + 1;
    }
    assert rows[..i] == rows;
    r := Ok(tables);
  }

  const ResultNotSetMessage: string := "Error: The database result resource is not currently set."
  const PopMessage: string := "array_pop(): Argument #1 ($array) must be of type array"
  const FetchAllMessage: string := "Pop\\Db\\Adapter\\Rqlite::fetchAll(): Return value must be of type array"

  /** SQLITE3_BLOB, the default of the ignored type argument. */
  const Sqlite3Blob: int := 4

  // ---------------------------------------------------------------------
  // The adapter object

  class Rqlite {
    var options: seq<(Key, Value)>
    var connection: HttpClient?
    var result: Value
    var useTrx: bool
    /** The prepared statement: a string, or an array `[sql, params]`. */
    var sql: Value
    /** The bound parameters, in binding order. */
    var params: seq<(Key, Value)>
    /** The transport and `json_encode` that the clients this adapter
        creates use. */
    const send: (string, Value) -> Value
    const json: Value -> string

    /** `new Rqlite($options)`: connects right away when options are given. */
    constructor(opts: seq<(Key, Value)>, send: (string, Value) -> Value, json: Value -> string)
      ensures this.send == send && this.json == json
      ensures opts == [] ==> options == [] && connection == null
      ensures opts != [] ==> options == WithDefaultUrl(opts) && connection != null && fresh(connection)
      ensures opts != [] ==> connection.host == HostOf(options) && connection.send == send && connection.json == json
      ensures result == Null && !useTrx && sql == Arr([]) && params == []
    {
      this.send := send;
      this.json := json;
      options := [];
      connection := null;
      result := Null;
      useTrx := false;
      sql := Arr([]);
      params := [];
      new;
      if opts != [] {
        Connect(opts);
      }
    }

    /** `connect($options)`: stores non-empty options and builds a client
        for the configured host. */
    method Connect(opts: seq<(Key, Value)>)
      modifies this
      ensures options == if opts != [] then WithDefaultUrl(opts) else old(options)
      ensures connection != null && fresh(connection)
      ensures connection.host == HostOf(options) && connection.send == send && connection.json == json
      ensures connection.data == Null && connection.response == Null
      ensures result == old(result) && useTrx == old(useTrx) && sql == old(sql) && params == old(params)
    {
      if opts != [] {
        SetOptions(opts);
      }
      connection := new HttpClient(HostOf(options), send, json);
    }

    /** `setOptions($options)`: replaces the options, defaulting the url. */
    method SetOptions(opts: seq<(Key, Value)>)
      modifies this`options
      ensures options == WithDefaultUrl(opts)
    {
      options := opts;
      var isSet := HasOptions();
      if !isSet {
        options := Put(options, StrKey("url"), Str(DefaultHost));
      }
    }

    /** `hasOptions()`. */
    method HasOptions() returns (r: bool)
      ensures r <==> HasUrl(options)
    {
      r := match Get(options, StrKey("url")) case Some(v) => !v.Null? case None => false;
    }

    method BeginTransaction()
      modifies this`useTrx
      ensures useTrx
    {
      useTrx := true;
    }

    method Commit()
      modifies this`useTrx
      ensures !useTrx
    {
      useTrx := false;
    }

    method Rollback()
      modifies this`useTrx
      ensures !useTrx
    {
      useTrx := false;
    }

    /** `query($sql)`: sends the statement to the query endpoint and keeps the
        shaped answer; a failure leaves the last result in place. */
    method Query(s: Value) returns (r: Outcome)
      modifies this, connection
      ensures connection == old(connection)
      ensures options == old(options) && useTrx == old(useTrx) && sql == old(sql) && params == old(params)
      ensures connection == null ==> r == Fail(CallOnNull("query")) && result == old(result)
      ensures connection != null ==>
        var a := connection.Answer("query", s);
        && (a.Ok? ==> r == Done && result == a.value)
        && (a.Err? ==> r == Fail(a.error) && result == old(result))
    {
      if connection == null {
        return Fail(CallOnNull("query"));
      }
      var a := connection.Query(s);
      if a.Err? {
        return Fail(a.error);
      }
      result := a.value;
      r := Done;
    }

    /** `prepare($sql)`. */
    method Prepare(s: Value)
      modifies this`sql
      ensures sql == s
    {
      sql := s;
    }

    /** `bindParams($params)`: writes every pair into the bound parameters. */
    method BindParams(ps: seq<(Key, Value)>)
      modifies this`params
      ensures params == PutAll(old(params), ps)
    {
      var i := 0;
      while i < |ps|
        invariant 0 <= i <= |ps|
        invariant params == PutAll(old(params), ps[..i])
      {
        PutAllPrefixStep(old(params), ps, i);
        params := Put(params, ps[i].0, ps[i].1);
        i := i + 1;
      }
      assert ps[..i] == ps;
    }

    /** `bindParam($param, $value, $type)`: the type is ignored. */
    method BindParam(param: Value, value: Value, kind: int := Sqlite3Blob) returns (r: Outcome)
      modifies this`params
      ensures r.Fail? <==> param.Arr?
      ensures r.Done? ==> params == Put(old(params), OffsetKey(param).value, value)
      ensures r.Fail? ==> params == old(params)
    {
      var k := OffsetKey(param);
      if k.Err? {
        return Fail(k.error);
      }
      params := Put(params, k.value, value);
      r := Done;
    }

    /** `bindValue($param, $value, $type)`: the same write as `bindParam`. */
    method BindValue(param: Value, value: Value, kind: int := Sqlite3Blob) returns (r: Outcome)
      modifies this`params
      ensures r.Fail? <==> param.Arr?
      ensures r.Done? ==> params == Put(old(params), OffsetKey(param).value, value)
      ensures r.Fail? ==> params == old(params)
    {
      var k := OffsetKey(param);
      if k.Err? {
        return Fail(k.error);
      }
      params := Put(params, k.value, value);
      r := Done;
    }

    /** `execute()`: substitutes the bound values into the prepared
        statement, in binding order, writing each step back to `sql`, then
        sends it to the query endpoint. The bound parameters stay. An array
        value stops the loop with the steps before it already written. */
    method Execute() returns (r: Outcome)
      modifies this, connection
      ensures params == old(params) && options == old(options) && useTrx == old(useTrx)
      ensures connection == old(connection)
      ensures var vs := Values(params); var k := FirstArrayIndex(vs);
        sql == SubstituteAll(old(sql), vs, k)
      ensures FirstArrayIndex(Values(params)) < |params| ==>
        r == Fail(TypeError(EscapeArrayMessage)) && result == old(result)
      ensures FirstArrayIndex(Values(params)) == |params| && connection == null ==>
        r == Fail(CallOnNull("query")) && result == old(result)
      ensures FirstArrayIndex(Values(params)) == |params| && connection != null ==>
        var a := connection.Answer("query", sql);
        && (a.Ok? ==> r == Done && result == a.value)
        && (a.Err? ==> r == Fail(a.error) && result == old(result))
    {
      var complete := SubstituteParams();
      if !complete {
        return Fail(TypeError(EscapeArrayMessage));
      }
      r := Query(sql);
    }

    /** The loop of `execute()`: writes each substitution step back to `sql`
        and reports whether every bound value could be escaped. */
    method SubstituteParams() returns (complete: bool)
      modifies this`sql
      ensures var vs := Values(params); var k := FirstArrayIndex(vs);
        && sql == SubstituteAll(old(sql), vs, k)
        && (complete <==> k == |vs|)
    {
      var vs := Values(params);
      var i := 0;
      while i < |vs|
        invariant 0 <= i <= |vs|
        invariant forall j :: 0 <= j < i ==> !vs[j].Arr?
        invariant sql == SubstituteAll(old(sql), vs, i)
      {
        if vs[i].Arr? {
          assert FirstArrayIndex(vs) == i;
          return false;
        }
        ghost var before := sql;
        sql := Substitute(sql, vs[i]);
        SubstituteAllStep(old(sql), vs, i, before, sql);
        i := i + 1;
      }
      assert FirstArrayIndex(vs) == |vs|;
      complete := true;
    }

    /** `fetch()`: removes and returns the last row of the result. */
    method Fetch() returns (r: Result<Value>)
      modifies this`result
      ensures old(result).Null? ==> r == Err(DbException(ResultNotSetMessage)) && result == old(result)
      ensures !old(result).Null? && !old(result).Arr? ==> r == Err(TypeError(PopMessage)) && result == old(result)
      ensures old(result) == Arr([]) ==> r == Ok(Null) && result == old(result)
      ensures old(result).Arr? && old(result).entries != [] ==>
        var es := old(result).entries;
        r == Ok(es[|es| - 1].1) && result == Arr(es[..|es| - 1])
    {
      if result.Null? {
        return Err(DbException(ResultNotSetMessage));
      }
      if !result.Arr? {
        return Err(TypeError(PopMessage));
      }
      var es := result.entries;
      if es == [] {
        return Ok(Null);
      }
      r := Ok(es[|es| - 1].1);
      result := Arr(es[..|es| - 1]);
    }

    /** `fetchAll()`: the whole result, which must be an array. */
    method FetchAll() returns (r: Result<seq<(Key, Value)>>)
      ensures r.Ok? <==> result.Arr?
      ensures r.Ok? ==> r.value == result.entries
      ensures r.Err? ==> r.error == TypeError(FetchAllMessage)
    {
      if !result.Arr? {
        return Err(TypeError(FetchAllMessage));
      }
      r := Ok(result.entries);
    }

    /** `getTables()`: queries the schema tables and lists their names. */
    method GetTables() returns (r: Result<seq<Value>>)
      modifies this, connection
      ensures connection == old(connection)
      ensures options == old(options) && useTrx == old(useTrx) && sql == old(sql) && params == old(params)
      ensures connection == null ==> r == Err(CallOnNull("query")) && result == old(result)
      ensures connection != null ==>
        var a := connection.Answer("query", Str(TablesQuery));
        && (a.Ok? ==> result == a.value && r == TableNames(result))
        && (a.Err? ==> r == Err(a.error) && result == old(result))
    {
      var q := Query(Str(TablesQuery));
      if q.Fail? {
        return Err(q.error);
      }
      r := CollectTableNames(result);
    }

    /** `getNumberOfRows()`: always 0, whatever the last result holds. */
    method GetNumberOfRows() returns (r: int)
      ensures r == 0
    {
      r := 0;
    }
  }
}
