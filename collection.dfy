/**
  A collection of records. `toArray` turns every record into its array form,
  with its relationships added under their names, and can then project one
  column or re-key the rows by a column, keeping either the last row per
  key or every row per key in order.

  A record is given by what its `toArray()` returns, whether it has
  relationships, and those relationships, each either an object with a
  `toArray()` (given by what that returns) or a value kept as it is.
 */
module RecordCollection {
  import opened OrderedMap
  import opened PhpValues

  datatype Relationship = Convertible(converted: Value) | Kept(value: Value)

  datatype Record = Record(fields: seq<(Key, Value)>, hasRelationships: bool,
                           relationships: seq<(Key, Relationship)>)

  /** An element of the collection: a record or any other value. */
  datatype Item = RecordItem(record: Record) | PlainItem(value: Value)

  // ---------------------------------------------------------------------
  // Record conversion

  /** `is_object($r) && method_exists($r, 'toArray') ? $r->toArray() : $r`. */
  function Resolve(r: Relationship): Value {
    match r
    case Convertible(v) => v
    case Kept(v) => v
  }

  function ResolveAll(rels: seq<(Key, Relationship)>): (ps: seq<(Key, Value)>)
    ensures Keys(ps) == Keys(rels)
    ensures forall i :: 0 <= i < |rels| ==> ps[i].1 == Resolve(rels[i].1)
  {
    seq(|rels|, i requires 0 <= i < |rels| => (rels[i].0, Resolve(rels[i].1)))
  }

  /** The array a record becomes: its `toArray()`, then each relationship
      written under its name. */
  function RecordRow(rec: Record): seq<(Key, Value)> {
    if rec.hasRelationships then PutAll(rec.fields, ResolveAll(rec.relationships)) else rec.fields
  }

  function ConvertItem(it: Item): Value {
    match it
    case RecordItem(rec) => Arr(RecordRow(rec))
    case PlainItem(v) => v
  }

  /** The items after the conversion loop. */
  function Converted(data: seq<(Key, Item)>): (items: seq<(Key, Value)>)
    ensures Keys(items) == Keys(data)
    ensures forall i :: 0 <= i < |data| ==> items[i].1 == ConvertItem(data[i].1)
  {
    seq(|data|, i requires 0 <= i < |data| => (data[i].0, ConvertItem(data[i].1)))
  }

  /** A relationship overrides a field of the same name; the last
      relationship of a name wins; the other fields keep their values and
      their places. */
  lemma RecordRowEntries(rec: Record)
    requires rec.hasRelationships
    ensures var row := RecordRow(rec);
      && |row| >= |rec.fields| && Keys(row)[..|rec.fields|] == Keys(rec.fields)
      && (forall k :: k in Keys(rec.relationships) ==> Get(row, k) == LastGet(ResolveAll(rec.relationships), k))
      && (forall k :: k !in Keys(rec.relationships) ==> Get(row, k) == Get(rec.fields, k))
  {
    PutAllLaws(rec.fields, ResolveAll(rec.relationships));
  }

  /** Non-record items pass through; a record without relationships becomes
      exactly its `toArray()`. */
  lemma ConvertedPassThrough(data: seq<(Key, Item)>, i: int)
    requires 0 <= i < |data|
    ensures data[i].1.PlainItem? ==> Converted(data)[i] == (data[i].0, data[i].1.value)
    ensures data[i].1.RecordItem? && !data[i].1.record.hasRelationships ==>
      Converted(data)[i] == (data[i].0, Arr(data[i].1.record.fields))
  {
    assert Converted(data)[i].0 == Keys(Converted(data))[i] == data[i].0;
  }

  // ---------------------------------------------------------------------
  // Column projection

  const ColumnKeyMessage: string := "array_column(): Argument #2 ($column_key) must be of type string|int|null, array given"

  /** The `column` option as `array_column` takes it: an integer or string
      key; a bool is taken as the integer 0 or 1. */
  function ColumnKey(v: Value): (r: Result<Key>)
    ensures r.Err? <==> v.Arr?
  {
    match v
    case Arr(_) => Err(TypeError(ColumnKeyMessage))
    case _ => OffsetKey(v)
  }

  /** `array_column($items, $column)`, before re-indexing: the column's
      value from every item that is an array holding it. */
  function ColumnOf(items: seq<(Key, Value)>, col: Key): seq<Value> {
    if items == [] then []
    else
      var init, last := items[..|items| - 1], items[|items| - 1].1;
      if last.Arr? && Get(last.entries, col).Some?
      then ColumnOf(init, col) + [Get(last.entries, col).value]
      else ColumnOf(init, col)
  }

  /** The projection follows item order: projecting two runs of items gives
      the two projections one after the other. */
  lemma {:induction false} ColumnOfConcat(a: seq<(Key, Value)>, b: seq<(Key, Value)>, col: Key)
    ensures ColumnOf(a + b, col) == ColumnOf(a, col) + ColumnOf(b, col)
  {
    if b != [] {
      var init := b[..|b| - 1];
      ColumnOfConcat(a, init, col);
      assert (a + b)[..|a + b| - 1] == a + init;
    } else {
      assert a + b == a;
    }
  }

  /** An item lacking the column contributes nothing. */
  lemma ColumnSkipsLacking(items: seq<(Key, Value)>, it: (Key, Value), col: Key)
    requires !it.1.Arr? || col !in Keys(it.1.entries)
    ensures ColumnOf(items + [it], col) == ColumnOf(items, col)
  {
    assert (items + [it])[..|items|] == items;
  }

  /** When every item holds the column, the projection has one value per
      item, in item order. */
  lemma {:induction false} ColumnAllPresent(items: seq<(Key, Value)>, col: Key)
    requires forall i :: 0 <= i < |items| ==> items[i].1.Arr? && col in Keys(items[i].1.entries)
    ensures |ColumnOf(items, col)| == |items|
    ensures forall i :: 0 <= i < |items| ==> ColumnOf(items, col)[i] == Get(items[i].1.entries, col).value
  {
    if items != [] {
      ColumnAllPresent(items[..|items| - 1], col);
      ColumnPresentStep(items, col);
    }
  }

  /** One more item holding the column adds its value at the end. */
  lemma ColumnPresentStep(items: seq<(Key, Value)>, col: Key)
    requires items != []
    requires forall i :: 0 <= i < |items| ==> items[i].1.Arr? && col in Keys(items[i].1.entries)
    requires var init := items[..|items| - 1];
      && |ColumnOf(init, col)| == |init|
      && forall i :: 0 <= i < |init| ==> ColumnOf(init, col)[i] == Get(init[i].1.entries, col).value
    ensures |ColumnOf(items, col)| == |items|
    ensures forall i :: 0 <= i < |items| ==> ColumnOf(items, col)[i] == Get(items[i].1.entries, col).value
  {
    var init, last := items[..|items| - 1], items[|items| - 1];
    var prev, cur := ColumnOf(init, col), ColumnOf(items, col);
    assert cur == prev + [Get(last.1.entries, col).value];
    forall i | 0 <= i < |items| ensures cur[i] == Get(items[i].1.entries, col).value {
      if i < |init| {
        assert cur[i] == prev[i] && init[i] == items[i];
      }
    }
  }

  // ---------------------------------------------------------------------
  // Re-keying

  /** `$item[$options['key']]` made into the key it is written under. */
  function KeyOf(item: Value, keyOption: Value): Result<Key> {
    var x :- ReadValueOffset(item, keyOption);
    OffsetKey(x)
  }

  function KeyedPair(item: Value, keyOption: Value): Result<(Key, Value)> {
    var k :- KeyOf(item, keyOption);
    Ok((k, item))
  }

  /** Every item with the key it is filed under, in item order. */
  function KeyedPairs(items: seq<(Key, Value)>, keyOption: Value): Result<seq<(Key, Value)>> {
    Traverse(item => KeyedPair(item, keyOption), Values(items))
  }

  /** The pairs are the items, each with its key. */
  lemma KeyedPairsItems(items: seq<(Key, Value)>, keyOption: Value)
    ensures KeyedPairs(items, keyOption).Ok? <==>
      forall i :: 0 <= i < |items| ==> KeyOf(items[i].1, keyOption).Ok?
    ensures KeyedPairs(items, keyOption).Ok? ==>
      var ps := KeyedPairs(items, keyOption).value;
      |ps| == |items| && forall i :: 0 <= i < |items| ==> ps[i] == (KeyOf(items[i].1, keyOption).value, items[i].1)
  {
    TraverseAll(item => KeyedPair(item, keyOption), Values(items));
  }

  /** The unique re-keying: `array_reduce` with `$acc[$key] = $item`, which
      is null for no items. */
  function UniqueIndex(items: seq<(Key, Value)>, keyOption: Value): Result<Value> {
    if items == [] then Ok(Null)
    else
      var ps :- KeyedPairs(items, keyOption);
      Ok(Arr(PutAll([], ps)))
  }

  /** `$acc[$key][] = $item`: appends to the list under the key, starting a
      new list for a new key. */
  function GroupAppend(group: Option<Value>, item: Value): Value {
    match group
    case Some(Arr(es)) => Arr(es + [(IntKey(|es|), item)])
    case _ => List([item])
  }

  function Group(acc: seq<(Key, Value)>, ps: seq<(Key, Value)>): seq<(Key, Value)> {
    if ps == [] then acc
    else
      var g := Group(acc, ps[..|ps| - 1]);
      var last := ps[|ps| - 1];
      Put(g, last.0, GroupAppend(Get(g, last.0), last.1))
  }

  /** The grouped re-keying: `array_reduce` with `$acc[$key][] = $item`,
      which is null for no items. */
  function GroupIndex(items: seq<(Key, Value)>, keyOption: Value): Result<Value> {
    if items == [] then Ok(Null)
    else
      var ps :- KeyedPairs(items, keyOption);
      Ok(Arr(Group([], ps)))
  }

  /** The items filed under `k`, in order. */
  function ItemsWithKey(ps: seq<(Key, Value)>, k: Key): (r: seq<Value>)
    ensures r == [] <==> k !in Keys(ps)
  {
    if ps == [] then []
    else
      var init, last := ps[..|ps| - 1], ps[|ps| - 1];
      assert Keys(ps) == Keys(init) + [last.0];
      if last.0 == k then ItemsWithKey(init, k) + [last.1] else ItemsWithKey(init, k)
  }

  /** Unique re-keying: each key holds the last item filed under it. */
  lemma UniqueLastWins(items: seq<(Key, Value)>, keyOption: Value)
    requires items != [] && KeyedPairs(items, keyOption).Ok?
    ensures var ps := KeyedPairs(items, keyOption).value;
      && UniqueIndex(items, keyOption) == Ok(Arr(PutAll([], ps)))
      && forall k :: Get(PutAll([], ps), k) == LastGet(ps, k)
  {
    var ps := KeyedPairs(items, keyOption).value;
    PutAllLaws([], ps);
  }

  /** Grouped re-keying: each key holds the list of the items filed under
      it, in their original order. */
  lemma {:induction false} GroupLists(ps: seq<(Key, Value)>)
    ensures forall k :: Get(Group([], ps), k) == if k in Keys(ps) then Some(List(ItemsWithKey(ps, k))) else None
  {
    if ps != [] {
      GroupLists(ps[..|ps| - 1]);
      GroupListsStep(ps);
    }
  }

  /** Filing one more item appends it to the list under its key. */
  lemma GroupListsStep(ps: seq<(Key, Value)>)
    requires ps != []
    requires var init := ps[..|ps| - 1];
      forall k :: Get(Group([], init), k) == if k in Keys(init) then Some(List(ItemsWithKey(init, k))) else None
    ensures forall k :: Get(Group([], ps), k) == if k in Keys(ps) then Some(List(ItemsWithKey(ps, k))) else None
  {
    var init, last := ps[..|ps| - 1], ps[|ps| - 1];
    KeysSplitLast(ps);
    var g := Group([], init);
    forall k ensures Get(Group([], ps), k) == if k in Keys(ps) then Some(List(ItemsWithKey(ps, k))) else None {
      if k == last.0 {
        var xs := ItemsWithKey(init, k);
        ListEntriesAppend(xs, last.1);
        assert GroupAppend(Get(g, k), last.1) == List(xs + [last.1]);
      } else {
        assert Get(Group([], ps), k) == Get(g, k);
        assert ItemsWithKey(ps, k) == ItemsWithKey(init, k);
      }
    }
  }

  lemma GroupedInOrder(items: seq<(Key, Value)>, keyOption: Value)
    requires items != [] && KeyedPairs(items, keyOption).Ok?
    ensures var ps := KeyedPairs(items, keyOption).value;
      && GroupIndex(items, keyOption) == Ok(Arr(Group([], ps)))
      && forall k :: Get(Group([], ps), k) == if k in Keys(ps) then Some(List(ItemsWithKey(ps, k))) else None
  {
    GroupLists(KeyedPairs(items, keyOption).value);
  }

  // ---------------------------------------------------------------------
  // Options

  /** `array_key_exists($name, $options)`. */
  predicate HasOption(options: seq<(Key, Value)>, name: string) {
    StrKey(name) in Keys(options)
  }

  function OptionValue(options: seq<(Key, Value)>, name: string): Value {
    match Get(options, StrKey(name)) case Some(v) => v case None => Null
  }

  /** Options are applied when they are a non-empty array. */
  predicate OptionsApply(options: Value) {
    !IsEmpty(options) && options.Arr?
  }

  /** The shape the options ask for, before null becomes `[]`. */
  function Reshape(items: seq<(Key, Value)>, options: Value): Result<Value> {
    if !OptionsApply(options) then Ok(Arr(items))
    else
      var o := options.entries;
      if HasOption(o, "column") && !IsEmpty(OptionValue(o, "column")) then
        var col :- ColumnKey(OptionValue(o, "column"));
        Ok(List(ColumnOf(items, col)))
      else if HasOption(o, "key") then
        if HasOption(o, "isUnique") && IsTruthy(OptionValue(o, "isUnique"))
        then UniqueIndex(items, OptionValue(o, "key"))
        else GroupIndex(items, OptionValue(o, "key"))
      else Ok(Arr(items))
  }

  /** `toArray($options)`. */
  function ToArraySpec(data: seq<(Key, Item)>, options: Value): Result<Value> {
    var shaped :- Reshape(Converted(data), options);
    Ok(if shaped.Null? then Arr([]) else shaped)
  }

  /** The result is an array whenever there is one. */
  lemma ToArrayIsArray(data: seq<(Key, Item)>, options: Value)
    ensures ToArraySpec(data, options).Ok? ==> ToArraySpec(data, options).value.Arr?
  {
    var items := Converted(data);
    if OptionsApply(options) {
      var o := options.entries;
      if !(HasOption(o, "column") && !IsEmpty(OptionValue(o, "column"))) && HasOption(o, "key") && items != [] {
        var keyOption := OptionValue(o, "key");
        if KeyedPairs(items, keyOption).Ok? {
          UniqueLastWins(items, keyOption);
          GroupedInOrder(items, keyOption);
        }
      }
    }
  }

  /** Empty, null, false or true options leave the converted items as they are. */
  lemma OptionsIgnored(data: seq<(Key, Item)>, options: Value)
    requires !OptionsApply(options)
    ensures ToArraySpec(data, options) == Ok(Arr(Converted(data)))
  {
  }

  /** A non-empty `column` wins over `key`. */
  lemma ColumnWins(data: seq<(Key, Item)>, o: seq<(Key, Value)>)
    requires HasOption(o, "column") && !IsEmpty(OptionValue(o, "column")) && !OptionValue(o, "column").Arr?
    ensures ToArraySpec(data, Arr(o))
         == Ok(List(ColumnOf(Converted(data), OffsetKey(OptionValue(o, "column")).value)))
  {
    assert o != [];
  }

  /** Re-keying no items gives an empty array, not null. */
  lemma EmptyKeyed(o: seq<(Key, Value)>)
    requires HasOption(o, "key") && !(HasOption(o, "column") && !IsEmpty(OptionValue(o, "column")))
    ensures ToArraySpec([], Arr(o)) == Ok(Arr([]))
  {
    assert o != [];
    assert Converted([]) == [];
  }

  // ---------------------------------------------------------------------
  // The collection object

  class Collection {
    var data: seq<(Key, Item)>

    /** The items are a PHP array, so their keys are unique. */
    ghost predicate Valid()
      reads this
    {
      UniqueKeys(data)
    }

    constructor(data: seq<(Key, Item)>)
      requires UniqueKeys(data)
      ensures this.data == data && Valid()
    {
      this.data := data;
    }

    /** `getItems()`: the stored items, unconverted. */
    method GetItems() returns (r: seq<(Key, Item)>)
      ensures r == data
    {
      r := data;
    }

    /** The array one record becomes, written relationship by
        relationship. */
    static method ConvertRecord(rec: Record) returns (row: seq<(Key, Value)>)
      ensures row == RecordRow(rec)
    {
      row := rec.fields;
      if rec.hasRelationships {
        var rels := rec.relationships;
        ghost var ps := ResolveAll(rels);
        var j := 0;
        while j < |rels|
          invariant 0 <= j <= |rels|
          invariant row == PutAll(rec.fields, ps[..j])
        {
          PutAllPrefixStep(rec.fields, ps, j);
          assert ps[j] == (rels[j].0, Resolve(rels[j].1)) by {
            assert Keys(ps)[j] == Keys(rels)[j];
          }
          row := Put(row, rels[j].0, Resolve(rels[j].1));
          j := j + 1;
        }
        assert ps[..j] == ps;
      }
    }

    /** `toArray($options)`: converts the records in place in a copy of
        the items, writing each converted record under its own key, then
        applies the options. */
    method ToArray(options: Value := Null) returns (r: Result<Value>)
      requires Valid()
      requires options.Null? || options.Bool? || options.Arr?
      ensures r == ToArraySpec(data, options)
    {
      var items := data;
      var i := 0;
      while i < |items|
        invariant 0 <= i <= |items| && |items| == |data|
        invariant Keys(items) == Keys(data)
        invariant forall j :: 0 <= j < i ==> items[j] == (data[j].0, PlainItem(ConvertItem(data[j].1)))
        invariant forall j :: i <= j < |items| ==> items[j] == data[j]
      {
        if data[i].1.RecordItem? {
          var row := ConvertRecord(data[i].1.record);
          PutAtOwnKey(items, i, PlainItem(Arr(row)));
          items := Put(items, items[i].0, PlainItem(Arr(row)));
        }
        i := i + 1;
      }
      var converted := seq(|items|, j requires 0 <= j < |items| => (items[j].0, items[j].1.value));
      assert converted == Converted(data);
      var shaped := Reshape(converted, options);
      if shaped.Err? {
        return Err(shaped.error);
      }
      var out := shaped.value;
      if out.Null? {
        out := Arr([]);
      }
      r := Ok(out);
    }
  }
}
