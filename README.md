# rqlite adapter, record collection and `<=` predicate, modelled in Dafny

This project models three parts of the Pop PHP database component.

- **The rqlite adapter** (`src/Adapter/Rqlite.php`). rqlite is a SQLite-compatible engine reached over HTTP with JSON bodies.
  - The adapter's anonymous HTTP client turns a statement, or a `[sql, params]` pair, into the JSON text of a request body.
  - The client posts that body to `{host}/db/query` or `{host}/db/execute` with the query string `pretty&timings`.
  - It then shapes `results[0].columns` and `results[0].values` of the answer into rows.
  - The adapter object holds the connection options, a transaction flag, a prepared statement, the bound parameters and the last result.
  - `execute()` substitutes every bound value into the statement text by string replacement, each value wrapped in single quotes. The quotes inside a value are not doubled.
- **`Collection::toArray`** (`src/Record/Collection.php`). It converts the records of a collection to arrays and adds their relationships. It can then project one column, or re-key the rows by a column: unique re-keying keeps the last row per key, grouped re-keying keeps every row per key in order.
- **The `<=` predicate** (`src/Sql/Predicate/LessThanOrEqualTo.php`). It renders `(<column> <= <value>)` from the template `%1 <= %2`.

Modules:

- `OrderedMap` (`ordered_map.dfy`): PHP arrays as ordered key/value sequences. Writing to an existing key replaces its value in place; writing to a new key appends it at the end.
- `PhpValues` (`php_values.dfy`): PHP values and keys, string conversion, `empty()`, offset reads, and the errors PHP 8 throws. It also defines `Traverse`, a loop that stops at the first error.
- `Strings` (`strings.dfy`): `str_replace` with one search string, and its laws.
- `LessThanOrEqualToPredicate` (`lte_predicate.dfy`).
- `RqliteClient` (`rqlite_client.dfy`): the request body, the URIs, `format`, and the client class.
- `RqliteAdapter` (`rqlite_adapter.dfy`): escaping, substitution, and the `Rqlite` adapter class.
- `RecordCollection` (`collection.dfy`): record conversion, re-keying, and the `Collection` class.

The HTTP transport and `json_encode` are parameters of the client: `send(uri, body)` returns the decoded JSON answer, and `json(value)` returns the encoded text. The SQL quoting functions of the predicate (`quoteId`, `quote`) are parameters of `Render`.

The code behaves as follows in places where one might expect otherwise:

- **The flat branch of `format` (Rqlite.php:187-188) cannot produce a row.**
  - It calls `array_combine($keys, $values[0])`. When `values` holds no non-empty array, `$values[0]` is a scalar, an empty array or missing.
  - So the branch succeeds only with no columns and `values[0] == []`, and the row it gives is empty (`ShapeFlatRows`).
  - An answer with flat values such as `{"columns":["id","name"],"values":["1","alice"]}` is a `TypeError` in `format` (Rqlite.php:188, `FlatSingleRowRejected`). The same row nested as rqlite sends it, `[["1","alice"]]`, gives a one-element list of mappings (`NestedSingleRowShaped`).
  - For the same reason, a one-column, one-row answer `[["v"]]` gives a one-element list, not a single mapping.
  - A single-column answer with many rows is not mis-shaped as one row: rqlite's rows are nested arrays, so rows with at least one value always take the nested branch. Rows with no values, such as `values: [[]]`, take the flat branch (`ShapeFlatRows`).
- **The adapter's `execute()` uses the query endpoint.** It sends the statement through `connection->query` (Rqlite.php:361), not through the client's `execute`.
- **The code requires PHP 8.** It declares `mixed` properties, parameters and return types (Rqlite.php:55, 67, 134, 152, 164, 287, 300, 329, 344, 371), a type that exists only from PHP 8.0 on, and the union type `array|bool|null` (Collection.php:47), which PHP 7 rejects. So the model follows PHP 8 throughout.
  - Where PHP 7 would only warn and go on, PHP 8 throws a `TypeError` or `ValueError`, and the model fails there: `count()` of a non-array; `array_combine` of non-arrays or of arrays of different sizes; `array_pop` of a non-array.
  - Two failures come from the code's own type declarations: returning a non-array from `fetchAll(): array` (Rqlite.php:387) and calling `escape(?string)` with an array (Rqlite.php:408). Both are `TypeError`s in every PHP version that runs the code.

`escape()` does not double embedded quotes, so a bound value holding `'` ends the SQL literal early. `EscapeEmbeddedQuote` proves this for every such value, and `EscapeOBrien` shows it for `O'Brien`. The model keeps this behaviour, because `execute()` is modelled as written.

## Model

| member | source | states |
|---|---|---|
| OrderedMap.Put | src/Adapter/Rqlite.php:331 | `$a[$k] = $v` makes `k` hold `v` and leaves every other key's value alone. An existing key keeps its place; a new key is appended at the end. Keys stay unique. |
| OrderedMap.PutAllLaws | src/Adapter/Rqlite.php:315-316 | After a series of writes, each key holds the last value written to it (or its old value if it was not written). The keys already present keep their order; the key set is the union. |
| OrderedMap.PutAllDistinct | src/Adapter/Rqlite.php:191 | Writes to keys that are all new append the pairs in order. |
| OrderedMap.Get | src/Adapter/Rqlite.php:183-184 | Reading `$a[$k]` of an array: nothing iff `k` is not a key, and otherwise the value stored with `k`. |
| OrderedMap.PutAll | src/Adapter/Rqlite.php:315-316 | A `foreach` that writes pairs in order, one write per pair; `PutAllLaws` and `PutAllDistinct` state what it produces. |
| OrderedMap.PutAtOwnKey | src/Record/Collection.php:53 | With unique keys, writing under the key of an entry replaces that entry's value in its place. |
| PhpValues.Traverse | src/Adapter/Rqlite.php:190-191 | A loop whose body may throw produces one result per element. |
| PhpValues.TraverseAll | src/Adapter/Rqlite.php:190-191 | The loop succeeds iff every step succeeds, and then collects the steps' results in order. |
| PhpValues.TraverseFirstError | src/Adapter/Rqlite.php:190-191 | Once a step has thrown, the later elements do not change the outcome. |
| PhpValues.ToPhpString | src/Adapter/Rqlite.php:359 | PHP's conversion to string, which `str_replace` applies to a bound value: null and false give the empty string, true gives `1`, an integer its decimal text, an array `Array`. |
| PhpValues.IsEmpty | src/Record/Collection.php:64-65 | `empty()`: null, false, 0, the empty string, `0` as a string and `[]` are empty, and nothing else is. |
| PhpValues.SymKey | src/Record/Collection.php:72 | A string used as an array key becomes an integer key when it is canonical decimal text within the 64-bit range, and stays a string key otherwise. `WordKey` states the second case for words. |
| PhpValues.OffsetKey | src/Record/Collection.php:72 | A value used as an array key: null becomes the empty string, a boolean 0 or 1, an integer itself, a string its `SymKey`. An array is a `TypeError`. |
| PhpValues.ReadOffset | src/Adapter/Rqlite.php:183-184 | `$c[$k]`: on an array the stored value, or null when the key is missing; on null, a boolean or an integer, null. Reading a string offset is an error. |
| Strings.ReplaceAbsent | src/Adapter/Rqlite.php:359 | `str_replace` with a search string that does not occur returns the subject unchanged. |
| Strings.ReplaceLength | src/Adapter/Rqlite.php:359 | Each replacement changes the length by the replacement's length minus the search string's length. |
| Strings.ContainsReplaced | src/Adapter/Rqlite.php:359 | The left-to-right scan makes at least one replacement whenever the search string occurs. |
| Strings.ReplacementPresent | src/Adapter/Rqlite.php:359 | When a replacement is made, the replacement text occurs in the result. |
| Strings.ReplaceOnce | src/Adapter/Rqlite.php:359 | A single occurrence between two texts free of the search string is the only replacement made. |
| Strings.ReplaceAll | src/Adapter/Rqlite.php:359 | `str_replace` with one search string: a left-to-right scan that replaces each occurrence not overlapping an earlier one and does not rescan the replacement. An empty search string leaves the subject as it is. The `Strings` lemmas in this table state its laws. |
| Strings.NotContainsPair | src/Sql/Predicate/LessThanOrEqualTo.php:62 | A two-character string that no adjacent characters spell does not occur. |
| Strings.NoStraddlePair | src/Sql/Predicate/LessThanOrEqualTo.php:62 | A two-character search string cannot straddle a seam followed by a character other than its second one. |
| Strings.ReplaceSplit | src/Sql/Predicate/LessThanOrEqualTo.php:62 | Replacing in `a + t` is replacing in `a` and in `t`, when no occurrence straddles the seam. |
| LessThanOrEqualToPredicate.LessThanOrEqualTo | src/Sql/Predicate/LessThanOrEqualTo.php:40-44 | The constructor sets the template `%1 <= %2` and keeps the values; the conjunction defaults to `AND`. |
| LessThanOrEqualToPredicate.Render | src/Sql/Predicate/LessThanOrEqualTo.php:54-63 | Rendering fails iff the values do not number exactly 2, with the builder's message. A rendered predicate starts with `(` and ends with `)`. |
| LessThanOrEqualToPredicate.FirstPlaceholderStep | src/Sql/Predicate/LessThanOrEqualTo.php:62 | The first replacement turns the template into `c <= %2`; `c` is not scanned again. |
| LessThanOrEqualToPredicate.TemplateTailStep | src/Sql/Predicate/LessThanOrEqualTo.php:62 | The template's own `%2` becomes the quoted value. |
| LessThanOrEqualToPredicate.TemplateSubstitution | src/Sql/Predicate/LessThanOrEqualTo.php:62 | The two-step substitution yields `c' <= v`, where `c'` is the quoted column with its own `%2` replaced by `v`. |
| LessThanOrEqualToPredicate.RenderedComparison | src/Sql/Predicate/LessThanOrEqualTo.php:60-62 | A constructed two-value predicate renders to `"(" + c' + " <= " + v + ")"`. |
| LessThanOrEqualToPredicate.RenderedPlainComparison | src/Sql/Predicate/LessThanOrEqualTo.php:60-62 | When the quoted column holds no `%2`, the output is `"(" + quoteId(column) + " <= " + quote(value) + ")"`. |
| LessThanOrEqualToPredicate.SecondPlaceholderFromColumnReplaced | src/Sql/Predicate/LessThanOrEqualTo.php:62 | `%1` is replaced before `%2`, so a `%2` that quoting the column produced is replaced by the value too. |
| RqliteClient.RequestBody | src/Adapter/Rqlite.php:134-150 | A string statement becomes `["sql"]`. An array becomes `[["first", json(second)]]`. Anything else is passed through. The text is not JSON-escaped. |
| RqliteClient.StatementSentVerbatim | src/Adapter/Rqlite.php:136-139 | Stripping the delimiters from a string statement's body gives back its text exactly. |
| RqliteClient.ParameterisedBody | src/Adapter/Rqlite.php:140-146 | `[sql, params]` is sent as `[["sql", json(params)]]`. |
| RqliteClient.EndpointUri | src/Adapter/Rqlite.php:156 | Requests go to `host + "/db/" + endpoint + "?pretty&timings"`. |
| RqliteClient.HostOf | src/Adapter/Rqlite.php:112-115 | The host is the `url` option whenever it is set and not null, and `http://localhost:4001` when it is missing or null. |
| RqliteClient.CountAtLeastLength | src/Adapter/Rqlite.php:187 | The recursive count is at least the plain count, and it is zero only for an empty array. |
| RqliteClient.FlatIffNoNestedRows | src/Adapter/Rqlite.php:187 | `count == count(COUNT_RECURSIVE)` holds iff no element is a non-empty array (both directions). |
| RqliteClient.CountEntries | src/Adapter/Rqlite.php:187 | `count($values, COUNT_RECURSIVE)`: every element counts once, and an array element adds its own recursive count. `CountAtLeastLength` bounds it. |
| RqliteClient.IsFlat | src/Adapter/Rqlite.php:187 | The test `count(values) == count(values, COUNT_RECURSIVE)`. `FlatIffNoNestedRows` characterises it in both directions. |
| RqliteClient.Combine | src/Adapter/Rqlite.php:188 | `array_combine` succeeds iff both arguments are arrays of the same size, and then returns an array. |
| RqliteClient.CombineKeys | src/Adapter/Rqlite.php:191 | Each column name becomes the key `array_combine` writes it as. |
| RqliteClient.Zip | src/Adapter/Rqlite.php:191 | Pairs the i-th key with the i-th value. |
| RqliteClient.CombineEntriesWrites | src/Adapter/Rqlite.php:191 | `array_combine` is the series of writes of the zipped key/value pairs. |
| RqliteClient.CombineRow | src/Adapter/Rqlite.php:191 | With distinct column names and a row of equal width, the row mapping has the columns as keys, in column order, and the row's values. |
| RqliteClient.CombineEntries | src/Adapter/Rqlite.php:188 | The array `array_combine` builds: the i-th value written under the key of the i-th column, in order, a repeated column overwriting. `CombineEntriesWrites` and `CombineRow` state its content. |
| RqliteClient.CombineAll | src/Adapter/Rqlite.php:190-191 | The columns combined with each row in order, stopping at the first error. `CombineEach` computes it with the source's loop. |
| RqliteClient.ResultColumns | src/Adapter/Rqlite.php:181-184 | The reads of `results[0].columns` and `results[0].values`. A non-array answer is a `TypeError` of the `array` parameter, and a failing read gives that read's error. `SingleResultColumns` states what is read. |
| RqliteClient.ShapeRows | src/Adapter/Rqlite.php:186-193 | The count test and the branch it selects. A non-array `values` is a `TypeError` of `count`; flat values give `array_combine` of the columns with `values[0]`; nested values give the list of combined rows. `ShapeFlatRows`, `ShapeNestedRows` and `ShapeNestedWidthMismatch` state the outcomes. |
| RqliteClient.Shape | src/Adapter/Rqlite.php:181-194 | `format` as a whole: the reads, then `ShapeRows`. `FlatSingleRowRejected` and `NestedSingleRowShaped` state two concrete answers. |
| RqliteClient.ShapeNestedRows | src/Adapter/Rqlite.php:186-193 | Nested branch: one mapping per element of `values`, in order and indexed 0.., each keyed by the columns in column order and holding that row's values. |
| RqliteClient.ShapeNestedWidthMismatch | src/Adapter/Rqlite.php:190-191 | A row whose width differs from the column count makes the nested branch fail. |
| RqliteClient.ShapeFlatRows | src/Adapter/Rqlite.php:187-188 | Flat branch: succeeds iff there are no columns and `values[0]` is `[]`, and then gives `[]`. |
| RqliteClient.FlatSingleRowRejected | src/Adapter/Rqlite.php:183-188 | The answer `{"columns":["id","name"],"values":["1","alice"]}` is rejected. |
| RqliteClient.NestedSingleRowShaped | src/Adapter/Rqlite.php:183-193 | The nested answer `[["1","alice"]]` gives one mapping `{"id":"1","name":"alice"}`. |
| RqliteClient.Format | src/Adapter/Rqlite.php:181-194 | The `foreach` in `format` computes `Shape` of the answer, including every error path. |
| RqliteClient.FormatRows | src/Adapter/Rqlite.php:186-193 | After the two reads, the count test and the branch it selects give the shaped rows or the error of `format`. |
| RqliteClient.CombineEach | src/Adapter/Rqlite.php:190-191 | The loop combines the columns with every row in order and stops at the first row `array_combine` rejects. |
| RqliteClient.SingleResultColumns | src/Adapter/Rqlite.php:183-184 | For an answer holding one result, `format` reads exactly that result's `columns` and `values`. |
| RqliteClient.HttpClient.constructor | src/Adapter/Rqlite.php:117-132 | A new client holds its host, transport and encoder; no request has been made yet. |
| RqliteClient.HttpClient.Query | src/Adapter/Rqlite.php:152-162 | Stores the request body, posts it to the query URI, keeps the answer, and returns it shaped. |
| RqliteClient.HttpClient.Execute | src/Adapter/Rqlite.php:164-174 | The same as `Query`, but through the execute URI. |
| RqliteAdapter.WithDefaultUrl | src/Adapter/Rqlite.php:204-212 | Stored options always have `url` set. They are the given options when `url` was set; otherwise only `url` is added. Other keys are unchanged. |
| RqliteAdapter.WithDefaultUrlIdempotent | src/Adapter/Rqlite.php:204-212 | Setting the stored options again changes nothing. |
| RqliteAdapter.ConnectedHost | src/Adapter/Rqlite.php:95-115 | After `setOptions`, the client's host is the configured url, or the default host when none was set. |
| RqliteAdapter.Escape | src/Adapter/Rqlite.php:408-411 | The result is the value between single quotes, or `''` for null. |
| RqliteAdapter.LiteralBody | src/Adapter/Rqlite.php:408-411 | Decoding a SQL literal body never makes it longer. |
| RqliteAdapter.EscapeRoundTrip | src/Adapter/Rqlite.php:408-411 | A value without quotes, and null, are read back exactly from their escaped form. |
| RqliteAdapter.EscapeEmbeddedQuote | src/Adapter/Rqlite.php:408-411 | A value holding a quote is not read back, because quotes are not doubled. |
| RqliteAdapter.EscapeOBrien | src/Adapter/Rqlite.php:408-411 | `O'Brien` escapes to `'O'Brien'`, which is not one SQL literal. |
| RqliteAdapter.EscapeBound | src/Adapter/Rqlite.php:359 | Escaping a bound value fails iff it is an array. Otherwise it is the escape of its string form, or of null. |
| RqliteAdapter.ParseSqlLiteral | src/Adapter/Rqlite.php:408-411 | A reference reader of one SQL string literal: a quote, a body in which a quote stands only doubled, a quote. `EscapeRoundTrip` and `EscapeEmbeddedQuote` hold `escape` against it. |
| RqliteAdapter.StrReplace | src/Adapter/Rqlite.php:359 | An array statement keeps its keys; each element that is not an array is replaced as its string form, and nested arrays are copied unchanged. Any other statement is replaced as its string form. |
| RqliteAdapter.Substitute | src/Adapter/Rqlite.php:359 | One loop step: every occurrence of the value's string form in the statement replaced by its escape. `SubstituteAbsent`, `SubstituteLength` and `SubstitutePresent` state its effect. |
| RqliteAdapter.SubstituteAll | src/Adapter/Rqlite.php:358-359 | The first n loop steps, in binding order. `SubstituteAllStep` and `Rqlite.SubstituteParams` tie it to the loop. |
| RqliteAdapter.FirstArrayIndex | src/Adapter/Rqlite.php:358-359 | The loop stops at the first array value, which no earlier value is. |
| RqliteAdapter.SubstituteAllStep | src/Adapter/Rqlite.php:358-359 | Each loop step extends the substitution by one bound value. |
| RqliteAdapter.SubstituteAbsent | src/Adapter/Rqlite.php:358-359 | A bound value absent from the statement leaves it unchanged. |
| RqliteAdapter.SubstituteLength | src/Adapter/Rqlite.php:359 | Each replacement adds the two quotes around the value. |
| RqliteAdapter.SubstitutePresent | src/Adapter/Rqlite.php:359 | After a step that replaced something, the quoted value occurs in the statement. |
| RqliteAdapter.QuoteOnce | src/Adapter/Rqlite.php:359 | `id = 42` with `42` bound becomes `id = '42'`. |
| RqliteAdapter.QuoteAgain | src/Adapter/Rqlite.php:359 | `id = '42'` becomes `id = ''42''`. |
| RqliteAdapter.SubstituteTwice | src/Adapter/Rqlite.php:356-364 | A second `execute()` wraps the already quoted value in quotes again. |
| RqliteAdapter.TableNames | src/Adapter/Rqlite.php:475-476 | `$row["name"]` of each row of the result, in order; a result that is not an array gives no names. `TableNamesOfRows` and `CollectTableNames` state its content. |
| RqliteAdapter.TableNamesOfRows | src/Adapter/Rqlite.php:475-476 | Rows that are mappings give their `name` entries, one per row, in row order. |
| RqliteAdapter.CollectTableNames | src/Adapter/Rqlite.php:475-476 | The loop over the result collects the `name` entry of every row, in order, and reads nothing for a result that is not an array. |
| RqliteAdapter.Rqlite.constructor | src/Adapter/Rqlite.php:82-87 | With options, the new adapter is connected with them; without, it has no connection. Initially: nothing bound, `sql` is `[]`, no result, no transaction. |
| RqliteAdapter.Rqlite.Connect | src/Adapter/Rqlite.php:95-103 | Non-empty options are stored, and a fresh client is built for the stored options' host. |
| RqliteAdapter.Rqlite.SetOptions | src/Adapter/Rqlite.php:204-212 | The stored options are the given ones with the default url added when none is set. |
| RqliteAdapter.Rqlite.HasOptions | src/Adapter/Rqlite.php:219-222 | True iff `url` is set and not null. |
| RqliteAdapter.Rqlite.BeginTransaction | src/Adapter/Rqlite.php:239-244 | Sets the transaction flag and nothing else. |
| RqliteAdapter.Rqlite.Commit | src/Adapter/Rqlite.php:252-257 | Clears the transaction flag and nothing else. |
| RqliteAdapter.Rqlite.Rollback | src/Adapter/Rqlite.php:264-269 | Clears the transaction flag and nothing else. |
| RqliteAdapter.Rqlite.Query | src/Adapter/Rqlite.php:287-292 | Stores the shaped answer of the query endpoint as the result. A failure leaves the result, and without a connection the call fails on null. |
| RqliteAdapter.Rqlite.Prepare | src/Adapter/Rqlite.php:300-305 | Replaces the prepared statement and nothing else. |
| RqliteAdapter.Rqlite.BindParams | src/Adapter/Rqlite.php:313-319 | The bound parameters become the old ones with every pair written in order. |
| RqliteAdapter.Rqlite.BindParam | src/Adapter/Rqlite.php:329-334 | Writes the value under the key the parameter converts to, ignoring the type. It fails only for an array parameter, and binds nothing then. |
| RqliteAdapter.Rqlite.BindValue | src/Adapter/Rqlite.php:344-349 | The same write as `BindParam`. |
| RqliteAdapter.Rqlite.SubstituteParams | src/Adapter/Rqlite.php:358-359 | The statement becomes the substitution of the bound values before the first array value. Completion is reported iff there is no array value. |
| RqliteAdapter.Rqlite.Execute | src/Adapter/Rqlite.php:356-364 | Substitutes in binding order into `sql` and then queries with the new `sql`. An array value fails with the steps before it kept. The bound parameters are never cleared. |
| RqliteAdapter.Rqlite.Fetch | src/Adapter/Rqlite.php:371-380 | Fails when there is no result, or when the result is not an array. Otherwise it removes and returns the last row; an empty result stays empty and gives null. |
| RqliteAdapter.Rqlite.FetchAll | src/Adapter/Rqlite.php:387-390 | Returns the result unchanged when it is an array, and fails otherwise. |
| RqliteAdapter.Rqlite.GetTables | src/Adapter/Rqlite.php:467-479 | Queries the schema with the fixed statement `TablesQuery` (Rqlite.php:470-471) and returns the `name` entry of each row of the new result, in order. |
| RqliteAdapter.Rqlite.GetNumberOfRows | src/Adapter/Rqlite.php:431-436 | Always 0, whatever the last result holds. |
| RecordCollection.ResolveAll | src/Record/Collection.php:56-58 | Each relationship keeps its name and becomes its `toArray()`, or itself. |
| RecordCollection.Converted | src/Record/Collection.php:51-62 | The items keep their keys and order, and each becomes its converted form. |
| RecordCollection.RecordRowEntries | src/Record/Collection.php:53-59 | A relationship overrides a field of the same name, and the last relationship of a name wins. The other fields keep their values and places. |
| RecordCollection.ConvertedPassThrough | src/Record/Collection.php:51-62 | Non-record items are kept as they are. A record without relationships becomes exactly its `toArray()`. |
| RecordCollection.RecordRow | src/Record/Collection.php:53-59 | A record's array: its `toArray()` fields and then, when it has relationships, each relationship written under its name. `RecordRowEntries` states the result. |
| RecordCollection.ColumnKey | src/Record/Collection.php:67 | The column option is rejected iff it is an array. |
| RecordCollection.ColumnOf | src/Record/Collection.php:67 | `array_column`: the value under the column of each item that is an array holding it, in item order. |
| RecordCollection.ColumnOfConcat | src/Record/Collection.php:65-67 | The projection follows item order. |
| RecordCollection.ColumnSkipsLacking | src/Record/Collection.php:67 | Items lacking the column are skipped. |
| RecordCollection.ColumnAllPresent | src/Record/Collection.php:67 | When every item holds the column, the projection has one value per item, in item order. |
| RecordCollection.KeyedPairs | src/Record/Collection.php:72 | Each item paired with the key `$item[$options['key']]` gives, in order; the first item whose key cannot be read is the error. `KeyedPairsItems` states both outcomes. |
| RecordCollection.UniqueIndex | src/Record/Collection.php:69-74 | Unique re-keying: every item written under its key, in order. `array_reduce` of no items gives null. |
| RecordCollection.GroupAppend | src/Record/Collection.php:78 | `$accumulator[$k][] = $item`: appends the item to the list under the key, or starts the list `[item]` when the key is unset. |
| RecordCollection.Group | src/Record/Collection.php:77-80 | The fold of `GroupAppend` over the keyed items. `GroupLists` and `ItemsWithKey` state the lists it builds. |
| RecordCollection.GroupIndex | src/Record/Collection.php:76-81 | Grouped re-keying, and null for no items. `GroupedInOrder` and `EmptyKeyed` state its result. |
| RecordCollection.KeyedPairsItems | src/Record/Collection.php:71-80 | Re-keying succeeds iff every item's key can be read, and pairs each item with its key, in order. |
| RecordCollection.ItemsWithKey | src/Record/Collection.php:77-80 | The items filed under a key are empty iff the key is not used. |
| RecordCollection.UniqueLastWins | src/Record/Collection.php:69-74 | Unique re-keying maps each key to the last item filed under it. |
| RecordCollection.GroupLists | src/Record/Collection.php:76-81 | Grouping maps each used key to the list of its items in original order, and no other key. |
| RecordCollection.GroupedInOrder | src/Record/Collection.php:76-81 | Grouped re-keying of the items is that grouping. |
| RecordCollection.ToArrayIsArray | src/Record/Collection.php:85-89 | A successful `toArray` always returns an array, never null. |
| RecordCollection.OptionsIgnored | src/Record/Collection.php:64 | Options that are empty or not an array leave the converted items as they are. |
| RecordCollection.ColumnWins | src/Record/Collection.php:64-68 | A non-empty `column` option wins over `key`. |
| RecordCollection.EmptyKeyed | src/Record/Collection.php:68-89 | Re-keying no items gives an empty array. |
| RecordCollection.Reshape | src/Record/Collection.php:64-83 | The options. A non-empty `column` projects that column; otherwise `key` re-keys, uniquely when `isUnique` is loosely true; options that are empty or not an array change nothing. `OptionsIgnored` and `ColumnWins` state the precedence. |
| RecordCollection.ToArraySpec | src/Record/Collection.php:47-89 | `toArray`: the conversion, then the options, then null becomes `[]`. `ToArrayIsArray` states the last step. |
| RecordCollection.Collection.GetItems | src/Record/Collection.php:36-39 | Returns the stored items unchanged. |
| RecordCollection.Collection.ConvertRecord | src/Record/Collection.php:53-59 | The relationship loop writes each relationship into the record's array. |
| RecordCollection.Collection.ToArray | src/Record/Collection.php:47-90 | On items with unique keys, the conversion loop, which writes each converted record under its own key, followed by the options computes `ToArraySpec`: conversion, then the column projection or re-keying, then null normalised to `[]`. |

## Left out

- The HTTP transport is a parameter of the client: building the `Curl` handler with its HTTP/1.1 option, the `Client` object, `send()` and `response->json()`. `json_encode` is a parameter as well.
- `getResponse()` returns the stored `Response` object, which the model does not have. The client's `response` field stands for the decoded JSON answer of the last request, what `response->json()` gives, and not for that object.
- `dbFileExists()` checks the file system.
- `isSuccess()` depends on `hasError()` of the parent adapter class, which is not part of this model.
- `disconnect()` does nothing.
- `getLastId()`, `getNumberOfAffectedRows()` and `getVersion()` are left out. Each issues a fixed statement and then returns a shaped array under an `int` or `string` return type, so each ends in a `TypeError`.
- The parent adapter class is not part of this model. It is assumed to start with options `[]`, result null and connection null, and `throwError` is assumed to throw.
- Floats and objects are not PHP values in the model. So `Collection::toArray` does not model float keys or the object-property branch of `array_column`.
- Integer keys are unbounded. Only a string's conversion to an integer key respects the 64-bit range.
- Reading an offset of a string is an error in the model; its PHP result depends on the version and on the key.
- PHP warnings and deprecation notices, and `array_pop` resetting the array's internal pointer, are not modelled.
- `src/Record/Relationships/HasOneOf.php` and `src/Sql/Schema/AbstractTable.php` are not part of this model.
- The rqlite engine is one fixed function `send` for the whole life of the client and the adapter. It answers the same request the same way whatever was executed before, so the state of the remote database is not modelled.
- The parent predicate class of `LessThanOrEqualTo`, whose constructor the source calls (LessThanOrEqualTo.php:43), is not part of this model. The model assumes that it stores the values and the conjunction unchanged and unchecked.
- The base collection class that stores the items is not part of this model. The model's `Collection` constructor takes the items as a PHP array, so its keys are unique.
- PHP strings are byte strings; the model's strings are character sequences. So `Strings.ReplaceLength` counts characters, not the bytes `strlen` counts.
