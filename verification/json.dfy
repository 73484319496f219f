/** The structured-record parser of src/parsers/json.ts: flattening nested
    objects into dotted paths, reconciling the paths of all records into
    one header row, and building one row per record. A JavaScript object is
    an ordered list of fields in insertion order; JavaScript lists
    integer-like keys first, in ascending order, which this model does not
    do. */
module Json {
  import opened Types
  import opened Text

  // ---------------------------------------------------------------------
  // Records: insert-or-update assignment

  function Keys(rec: seq<Field>): (ks: seq<string>)
    ensures |ks| == |rec|
    ensures forall i :: 0 <= i < |rec| ==> ks[i] == rec[i].key
  {
    if rec == [] then [] else [rec[0].key] + Keys(rec[1..])
  }

  /** `rec[key]`: the value of the first field with that key. */
  function Lookup(rec: seq<Field>, key: string): Option<Value> {
    if rec == [] then None
    else if rec[0].key == key then Some(rec[0].value)
    else Lookup(rec[1..], key)
  }

  predicate Distinct(s: seq<string>) {
    forall i, j :: 0 <= i < j < |s| ==> s[i] != s[j]
  }

  /** `rec[key] = v`. */
  function Assign(rec: seq<Field>, key: string, v: Value): seq<Field> {
    if rec == [] then [Field(key, v)]
    else if rec[0].key == key then [Field(key, v)] + rec[1..]
    else [rec[0]] + Assign(rec[1..], key, v)
  }

  /** Assignment inserts or updates: an existing key keeps its position and
      takes the new value, a new key goes last in insertion order, and no
      other key changes. */
  lemma {:induction false} AssignSpec(rec: seq<Field>, key: string, v: Value)
    ensures Keys(Assign(rec, key, v)) == if key in Keys(rec) then Keys(rec) else Keys(rec) + [key]
    ensures Lookup(Assign(rec, key, v), key) == Some(v)
    ensures forall k :: k != key ==> Lookup(Assign(rec, key, v), k) == Lookup(rec, k)
  {
    if rec != [] && rec[0].key != key {
      AssignSpec(rec[1..], key, v);
      var rest := Assign(rec[1..], key, v);
      assert Keys(rec) == [rec[0].key] + Keys(rec[1..]);
      assert Keys([rec[0]] + rest) == [rec[0].key] + Keys(rest);
    }
  }

  /** `Object.assign(rec, src)`: every field of `src` assigned in order. */
  function AssignAll(rec: seq<Field>, src: seq<Field>): seq<Field>
    decreases src
  {
    if src == [] then rec else AssignAll(Assign(rec, src[0].key, src[0].value), src[1..])
  }

  // ---------------------------------------------------------------------
  // flattenObject

  /** `prefix ? prefix + "." + key : key`. */
  function FullKey(prefix: string, key: string): string {
    if prefix != "" then prefix + "." + key else key
  }

  /** The loop of `flattenObject` from `acc` over the remaining fields: a
      field holding an object is flattened under its full key and merged
      in; any other value (null, undefined, a primitive, an array, a date)
      is assigned under its full key. */
  function FlattenInto(acc: seq<Field>, fields: seq<Field>, prefix: string): seq<Field>
    decreases fields
  {
    if fields == [] then acc
    else
      var f := fields[0];
      var key := FullKey(prefix, f.key);
      var next := if f.value.Obj? then AssignAll(acc, FlattenInto([], f.value.fields, key)) else Assign(acc, key, f.value);
      FlattenInto(next, fields[1..], prefix)
  }

  function Flatten(obj: seq<Field>, prefix: string): seq<Field> {
    FlattenInto([], obj, prefix)
  }

  /** `flattenObject(obj, prefix)`. */
  method FlattenObject(obj: seq<Field>, prefix: string) returns (result: seq<Field>)
    ensures result == Flatten(obj, prefix)
    decreases obj
  {
    result := [];
    for i := 0 to |obj|
      invariant FlattenInto(result, obj[i..], prefix) == Flatten(obj, prefix)
    {
      var f := obj[i];
      var fullKey := if prefix != "" then prefix + "." + f.key else f.key;
      assert obj[i..][1..] == obj[i + 1..];
      if f.value.Obj? {
        var nested := FlattenObject(f.value.fields, fullKey);
        result := AssignAll(result, nested);
      } else {
        result := Assign(result, fullKey, f.value);
      }
    }
  }

  lemma {:induction false} AssignAllKeepsDistinct(rec: seq<Field>, src: seq<Field>)
    requires Distinct(Keys(rec))
    ensures Distinct(Keys(AssignAll(rec, src)))
    decreases src
  {
    if src != [] {
      AssignSpec(rec, src[0].key, src[0].value);
      AssignAllKeepsDistinct(Assign(rec, src[0].key, src[0].value), src[1..]);
    }
  }

  /** Each flattened path appears once. */
  lemma {:induction false} FlattenIntoDistinct(acc: seq<Field>, fields: seq<Field>, prefix: string)
    requires Distinct(Keys(acc))
    ensures Distinct(Keys(FlattenInto(acc, fields, prefix)))
    decreases fields
  {
    if fields != [] {
      var f := fields[0];
      var key := FullKey(prefix, f.key);
      if f.value.Obj? {
        AssignAllKeepsDistinct(acc, FlattenInto([], f.value.fields, key));
        FlattenIntoDistinct(AssignAll(acc, FlattenInto([], f.value.fields, key)), fields[1..], prefix);
      } else {
        AssignSpec(acc, key, f.value);
        FlattenIntoDistinct(Assign(acc, key, f.value), fields[1..], prefix);
      }
    }
  }

  predicate NoObjects(rec: seq<Field>) {
    forall i :: 0 <= i < |rec| ==> !rec[i].value.Obj?
  }

  lemma {:induction false} AssignKeepsNoObjects(rec: seq<Field>, key: string, v: Value)
    requires NoObjects(rec) && !v.Obj?
    ensures NoObjects(Assign(rec, key, v))
  {
    if rec != [] && rec[0].key != key {
      AssignKeepsNoObjects(rec[1..], key, v);
    }
  }

  lemma {:induction false} AssignAllKeepsNoObjects(rec: seq<Field>, src: seq<Field>)
    requires NoObjects(rec) && NoObjects(src)
    ensures NoObjects(AssignAll(rec, src))
    decreases src
  {
    if src != [] {
      AssignKeepsNoObjects(rec, src[0].key, src[0].value);
      AssignAllKeepsNoObjects(Assign(rec, src[0].key, src[0].value), src[1..]);
    }
  }

  /** Flattening descends into every nested object: no flattened value is
      an object. */
  lemma {:induction false} FlattenIntoLeaves(acc: seq<Field>, fields: seq<Field>, prefix: string)
    requires NoObjects(acc)
    ensures NoObjects(FlattenInto(acc, fields, prefix))
    decreases fields
  {
    if fields != [] {
      var f := fields[0];
      var key := FullKey(prefix, f.key);
      if f.value.Obj? {
        FlattenIntoLeaves([], f.value.fields, key);
        AssignAllKeepsNoObjects(acc, FlattenInto([], f.value.fields, key));
        FlattenIntoLeaves(AssignAll(acc, FlattenInto([], f.value.fields, key)), fields[1..], prefix);
      } else {
        AssignKeepsNoObjects(acc, key, f.value);
        FlattenIntoLeaves(Assign(acc, key, f.value), fields[1..], prefix);
      }
    }
  }

  /** The flattened record has distinct paths and only leaf values. */
  lemma {:induction false} FlattenShape(obj: seq<Field>, prefix: string)
    ensures Distinct(Keys(Flatten(obj, prefix)))
    ensures NoObjects(Flatten(obj, prefix))
  {
    FlattenIntoDistinct([], obj, prefix);
    FlattenIntoLeaves([], obj, prefix);
  }

  // ---------------------------------------------------------------------
  // What flattening means: the leaves of the object under their full paths

  /** The leaves of an object, depth first: a nested object contributes the
      leaves of its own fields under its full key, any other value is one
      leaf under its full key. A path can occur more than once. */
  function Leaves(obj: seq<Field>, prefix: string): (leaves: seq<Field>)
    ensures NoObjects(leaves)
    decreases obj
  {
    if obj == [] then []
    else
      var f := obj[0];
      var key := FullKey(prefix, f.key);
      var first := if f.value.Obj? then Leaves(f.value.fields, key) else [Field(key, f.value)];
      var rest := Leaves(obj[1..], prefix);
      assert forall i :: 0 <= i < |first| + |rest| ==>
        (first + rest)[i] == if i < |first| then first[i] else rest[i - |first|];
      first + rest
  }

  /** `a ?? b` on lookups: the first when present, otherwise the second. */
  function OrElse(a: Option<Value>, b: Option<Value>): Option<Value> {
    if a.Some? then a else b
  }

  /** The value of the last field with the key, if any. */
  function LastValue(fields: seq<Field>, key: string): Option<Value>
    decreases fields
  {
    if fields == [] then None
    else OrElse(LastValue(fields[1..], key), if fields[0].key == key then Some(fields[0].value) else None)
  }

  /** There is a last value exactly when some field carries the key. */
  lemma {:induction false} LastValuePresent(fields: seq<Field>, key: string)
    ensures LastValue(fields, key).Some? <==> key in Keys(fields)
    decreases fields
  {
    if fields != [] {
      assert Keys(fields) == [fields[0].key] + Keys(fields[1..]);
      LastValuePresent(fields[1..], key);
    }
  }

  /** `LastValue` is the last occurrence: the field it comes from carries
      the key, and no later field does. */
  lemma {:induction false} LastValueIsLast(fields: seq<Field>, key: string)
    requires LastValue(fields, key).Some?
    ensures exists i :: 0 <= i < |fields| && fields[i] == Field(key, LastValue(fields, key).value)
                        && forall j :: i < j < |fields| ==> fields[j].key != key
    decreases fields
  {
    var rest := LastValue(fields[1..], key);
    if rest.Some? {
      LastValueIsLast(fields[1..], key);
      var i :| 0 <= i < |fields[1..]| && fields[1..][i] == Field(key, rest.value)
               && forall j :: i < j < |fields[1..]| ==> fields[1..][j].key != key;
      assert forall j :: i + 1 < j < |fields| ==> fields[j].key == fields[1..][j - 1].key;
      assert fields[i + 1] == Field(key, LastValue(fields, key).value);
    } else {
      LastValuePresent(fields[1..], key);
      assert key !in Keys(fields[1..]);
      assert forall j :: 0 < j < |fields| ==> fields[j].key == Keys(fields[1..])[j - 1];
      assert fields[0] == Field(key, LastValue(fields, key).value);
    }
  }

  /** In a record with distinct keys the last field with a key is the
      first. */
  lemma {:induction false} LastValueOfDistinct(rec: seq<Field>, key: string)
    requires Distinct(Keys(rec))
    ensures LastValue(rec, key) == Lookup(rec, key)
    decreases rec
  {
    if rec != [] {
      assert Keys(rec) == [rec[0].key] + Keys(rec[1..]);
      assert Distinct(Keys(rec[1..]));
      if rec[0].key == key {
        assert key !in Keys(rec[1..]);
        LastValuePresent(rec[1..], key);
      } else {
        LastValueOfDistinct(rec[1..], key);
      }
    }
  }

  /** The last value in a concatenation comes from the second part when it
      has the key. */
  lemma {:induction false} LastValueAppend(a: seq<Field>, b: seq<Field>, key: string)
    ensures LastValue(a + b, key) == OrElse(LastValue(b, key), LastValue(a, key))
    decreases a
  {
    if a == [] {
      assert a + b == b;
    } else {
      var head := if a[0].key == key then Some(a[0].value) else None;
      LastValueAppend(a[1..], b, key);
      assert (a + b)[0] == a[0];
      assert (a + b)[1..] == a[1..] + b;
      calc {
        LastValue(a + b, key);
        OrElse(LastValue(a[1..] + b, key), head);
        OrElse(OrElse(LastValue(b, key), LastValue(a[1..], key)), head);
        OrElse(LastValue(b, key), OrElse(LastValue(a[1..], key), head));
        OrElse(LastValue(b, key), LastValue(a, key));
      }
    }
  }

  /** Assigning one key extends the first occurrences by that key. */
  lemma {:induction false} AssignKeysStep(rec: seq<Field>, key: string, v: Value, S: seq<string>)
    requires Keys(rec) == FirstOccurrences(S)
    ensures Keys(Assign(rec, key, v)) == FirstOccurrences(S + [key])
  {
    AssignSpec(rec, key, v);
    HeaderStep(S, key);
  }

  /** `Object.assign(rec, src)` on keys: the keys of `rec`, then the new
      keys of `src` in first-seen order. `S` is any key sequence whose first
      occurrences are the keys of `rec`. */
  lemma {:induction false} AssignAllKeys(rec: seq<Field>, src: seq<Field>, S: seq<string>)
    requires Keys(rec) == FirstOccurrences(S)
    ensures Keys(AssignAll(rec, src)) == FirstOccurrences(S + Keys(src))
    decreases src
  {
    if src == [] {
      assert S + Keys(src) == S;
    } else {
      var k := src[0].key;
      AssignKeysStep(rec, k, src[0].value, S);
      AssignAllKeys(Assign(rec, k, src[0].value), src[1..], S + [k]);
      assert [src[0]] + src[1..] == src;
      assert Keys([src[0]]) == [k];
      KeysAppendAfter(S, [src[0]], src[1..]);
    }
  }

  /** `Object.assign(rec, src)` on values: a key of `src` takes its last
      value in `src`, every other key keeps its value in `rec`. */
  lemma {:induction false} AssignAllLookup(rec: seq<Field>, src: seq<Field>, p: string)
    ensures Lookup(AssignAll(rec, src), p) == OrElse(LastValue(src, p), Lookup(rec, p))
    decreases src
  {
    if src != [] {
      AssignSpec(rec, src[0].key, src[0].value);
      AssignAllLookup(Assign(rec, src[0].key, src[0].value), src[1..], p);
    }
  }

  /** Repeating the first occurrences of a sequence instead of the
      sequence itself gives the same first occurrences. */
  lemma {:induction false} FirstOccurrencesAbsorb(x: seq<string>, y: seq<string>)
    ensures FirstOccurrences(x + FirstOccurrences(y)) == FirstOccurrences(x + y)
    decreases |y|
  {
    if y == [] {
      assert x + FirstOccurrences(y) == x + y;
    } else {
      var init, last := y[..|y| - 1], y[|y| - 1];
      assert y == init + [last];
      FirstOccurrencesAbsorb(x, init);
      FirstOccurrencesMembers(init);
      assert x + y == (x + init) + [last];
      FirstOccurrencesSnoc(x + init, last);
      if last in init {
        assert FirstOccurrences(y) == FirstOccurrences(init);
        assert last in x + init;
      } else {
        assert FirstOccurrences(y) == FirstOccurrences(init) + [last];
        assert x + FirstOccurrences(y) == (x + FirstOccurrences(init)) + [last];
        FirstOccurrencesSnoc(x + FirstOccurrences(init), last);
        assert last in x + FirstOccurrences(init) <==> last in x + init;
      }
    }
  }

  /** Merging a flattened nested object whose keys are the first
      occurrences of `ks`. */
  lemma {:induction false} MergeKeysStep(acc: seq<Field>, nested: seq<Field>, S: seq<string>, ks: seq<string>)
    requires Keys(acc) == FirstOccurrences(S)
    requires Keys(nested) == FirstOccurrences(ks)
    ensures Keys(AssignAll(acc, nested)) == FirstOccurrences(S + ks)
  {
    AssignAllKeys(acc, nested, S);
    FirstOccurrencesAbsorb(S, ks);
  }

  lemma {:induction false} KeysAppendAfter(S: seq<string>, a: seq<Field>, b: seq<Field>)
    ensures S + Keys(a) + Keys(b) == S + Keys(a + b)
  {
    KeysAppend(a, b);
  }

  /** The loop of `flattenObject` from `acc`, on keys: the keys of `acc`
      followed by the new paths of the leaves, in first-seen order. */
  lemma {:induction false} FlattenIntoKeys(acc: seq<Field>, fields: seq<Field>, prefix: string, S: seq<string>)
    requires Keys(acc) == FirstOccurrences(S)
    ensures Keys(FlattenInto(acc, fields, prefix)) == FirstOccurrences(S + Keys(Leaves(fields, prefix)))
    decreases fields
  {
    if fields == [] {
      assert S + Keys(Leaves(fields, prefix)) == S;
    } else {
      var f := fields[0];
      var key := FullKey(prefix, f.key);
      var first := if f.value.Obj? then Leaves(f.value.fields, key) else [Field(key, f.value)];
      var rest := Leaves(fields[1..], prefix);
      assert Leaves(fields, prefix) == first + rest;
      var next := if f.value.Obj? then AssignAll(acc, FlattenInto([], f.value.fields, key)) else Assign(acc, key, f.value);
      if f.value.Obj? {
        FlattenIntoKeys([], f.value.fields, key, []);
        assert [] + Keys(first) == Keys(first);
        MergeKeysStep(acc, FlattenInto([], f.value.fields, key), S, Keys(first));
      } else {
        AssignKeysStep(acc, key, f.value, S);
        assert Keys(first) == [key];
      }
      assert Keys(next) == FirstOccurrences(S + Keys(first));
      FlattenIntoKeys(next, fields[1..], prefix, S + Keys(first));
      KeysAppendAfter(S, first, rest);
    }
  }

  /** The loop of `flattenObject` from `acc`, on values: a path of the
      leaves holds the value of its last leaf, every other key of `acc`
      keeps its value. */
  lemma {:induction false} FlattenIntoLookup(acc: seq<Field>, fields: seq<Field>, prefix: string, p: string)
    ensures Lookup(FlattenInto(acc, fields, prefix), p)
         == OrElse(LastValue(Leaves(fields, prefix), p), Lookup(acc, p))
    decreases fields
  {
    if fields != [] {
      var f := fields[0];
      var key := FullKey(prefix, f.key);
      var first := if f.value.Obj? then Leaves(f.value.fields, key) else [Field(key, f.value)];
      var rest := Leaves(fields[1..], prefix);
      assert Leaves(fields, prefix) == first + rest;
      LastValueAppend(first, rest, p);
      if f.value.Obj? {
        var nested := FlattenInto([], f.value.fields, key);
        FlattenIntoLookup([], f.value.fields, key, p);
        FlattenIntoDistinct([], f.value.fields, key);
        LastValueOfDistinct(nested, p);
        AssignAllLookup(acc, nested, p);
        FlattenIntoLookup(AssignAll(acc, nested), fields[1..], prefix, p);
      } else {
        AssignSpec(acc, key, f.value);
        FlattenIntoLookup(Assign(acc, key, f.value), fields[1..], prefix, p);
      }
    }
  }

  /** What `flattenObject` computes: its keys are the paths of the leaves
      in first-seen order, and each path holds the value of its last leaf.
      A nested object therefore becomes dotted paths, and every other value
      sits under its full path. */
  lemma {:induction false} FlattenMeaning(obj: seq<Field>, prefix: string)
    ensures Keys(Flatten(obj, prefix)) == FirstOccurrences(Keys(Leaves(obj, prefix)))
    ensures forall p :: Lookup(Flatten(obj, prefix), p) == LastValue(Leaves(obj, prefix), p)
  {
    FlattenIntoKeys([], obj, prefix, []);
    assert [] + Keys(Leaves(obj, prefix)) == Keys(Leaves(obj, prefix));
    forall p
      ensures Lookup(Flatten(obj, prefix), p) == LastValue(Leaves(obj, prefix), p)
    {
      FlattenIntoLookup([], obj, prefix, p);
    }
  }

  /** An empty nested object contributes no path. */
  lemma {:induction false} EmptyObjectContributesNothing(acc: seq<Field>, key: string, rest: seq<Field>, prefix: string)
    ensures FlattenInto(acc, [Field(key, Obj([]))] + rest, prefix) == FlattenInto(acc, rest, prefix)
  {
    var fields := [Field(key, Obj([]))] + rest;
    assert fields[0] == Field(key, Obj([])) && fields[1..] == rest;
  }

  /** Nested objects become dotted paths. */
  lemma {:induction false} FlattenNestedExample()
    ensures Flatten([Field("user", Obj([Field("name", Str("Alice")), Field("address", Obj([Field("city", Str("NYC"))]))]))], "")
         == [Field("user.name", Str("Alice")), Field("user.address.city", Str("NYC"))]
  {
    var city := [Field("city", Str("NYC"))];
    var user := [Field("name", Str("Alice")), Field("address", Obj(city))];
    assert FullKey("", "user") == "user";
    assert FullKey("user", "name") == "user.name";
    assert FullKey("user", "address") == "user.address";
    assert FullKey("user.address", "city") == "user.address.city";
    var leaf := [Field("user.address.city", Str("NYC"))];
    assert FlattenInto([], city, "user.address") == leaf;
    assert user[1..] == [Field("address", Obj(city))];
    var named := [Field("user.name", Str("Alice"))];
    assert FlattenInto([], user, "user") == FlattenInto(named, user[1..], "user");
    assert AssignAll(named, leaf) == named + leaf;
    assert FlattenInto(named, user[1..], "user") == named + leaf;
  }

  // ---------------------------------------------------------------------
  // toCellValue and JSON text

  function HexDigit(d: int): char
    requires 0 <= d < 16
  {
    if d < 10 then ('0' as int + d) as char else ('a' as int + d - 10) as char
  }

  /** One character inside a JSON string literal. */
  function EscapeJsonChar(c: char): string {
    if c == '"' then "\\\""
    else if c == '\\' then "\\\\"
    else if c == '\U{8}' then "\\b"
    else if c == '\U{C}' then "\\f"
    else if c == '\n' then "\\n"
    else if c == '\r' then "\\r"
    else if c == '\t' then "\\t"
    else if (c as int) < 0x20 then "\\u00" + [HexDigit(c as int / 16), HexDigit(c as int % 16)]
    else [c]
  }

  function JsonString(s: string): string {
    "\"" + JsonChars(s) + "\""
  }

  function JsonChars(s: string): string {
    if s == [] then "" else EscapeJsonChar(s[0]) + JsonChars(s[1..])
  }

  /** `JSON.stringify(v)` for a value inside an array or an object.
      Numbers are written as their literal. */
  function JsonText(v: Value): string
    decreases v
  {
    match v
    case Undefined => "null"
    case Null => "null"
    case Bool(b) => if b then "true" else "false"
    case Num(literal) => literal
    case Str(s) => JsonString(s)
    case Date(iso) => JsonString(iso)
    case Arr(items) => "[" + JsonItems(items) + "]"
    case Obj(fields) => "{" + JsonMembers(fields, true) + "}"
  }

  /** The elements of an array, comma-separated; undefined is written as
      null. */
  function JsonItems(items: seq<Value>): string
    decreases items
  {
    if items == [] then ""
    else if |items| == 1 then JsonText(items[0])
    else JsonText(items[0]) + "," + JsonItems(items[1..])
  }

  /** The members of an object, comma-separated; undefined members are
      skipped. `first` says no member has been written yet. */
  function JsonMembers(fields: seq<Field>, first: bool): string
    decreases fields
  {
    if fields == [] then ""
    else if fields[0].value.Undefined? then JsonMembers(fields[1..], first)
    else
      (if first then "" else ",") + JsonString(fields[0].key) + ":" + JsonText(fields[0].value)
      + JsonMembers(fields[1..], false)
  }

  /** `toCellValue(value)`. */
  function ToCell(v: Value): (c: Value)
    ensures IsCell(c)
    ensures v.Null? || v.Undefined? ==> c == Null
    ensures IsCell(v) && !v.Undefined? ==> c == v
    ensures v.Arr? || v.Obj? ==> c == Str(JsonText(v))
  {
    match v
    case Undefined => Null
    case Null => Null
    case Arr(_) => Str(JsonText(v))
    case Obj(_) => Str(JsonText(v))
    case _ => v
  }

  lemma {:induction false} ArrayCellExample()
    ensures ToCell(Arr([Str("a"), Str("b")])) == Str("[\"a\",\"b\"]")
  {
    assert JsonString("a") == "\"a\"";
    assert JsonString("b") == "\"b\"";
    assert JsonItems([Str("b")]) == "\"b\"";
    assert [Str("a"), Str("b")][1..] == [Str("b")];
  }

  // ---------------------------------------------------------------------
  // Header reconciliation

  /** Every element whose first occurrence it is, in order: the element at
      index i is kept exactly when it does not occur before i. */
  function FirstOccurrences(s: seq<string>): seq<string> {
    if s == [] then []
    else
      var init := s[..|s| - 1];
      FirstOccurrences(init) + (if s[|s| - 1] in init then [] else [s[|s| - 1]])
  }

  /** The index of the first occurrence of `x` in `s`. */
  function IndexIn(s: seq<string>, x: string): (k: nat)
    requires x in s
    ensures k < |s| && s[k] == x && x !in s[..k]
  {
    if s[0] == x then 0 else 1 + IndexIn(s[1..], x)
  }

  lemma {:induction false} IndexInPrefix(p: seq<string>, y: string, x: string)
    requires y in p
    ensures IndexIn(p + [x], y) == IndexIn(p, y)
  {
    var k := IndexIn(p, y);
    var s := p + [x];
    assert s[k] == y && s[..k] == p[..k];
  }

  /** Appending an element keeps the headers so far and adds it when it
      is new. */
  lemma {:induction false} FirstOccurrencesSnoc(s: seq<string>, x: string)
    ensures FirstOccurrences(s + [x]) == FirstOccurrences(s) + (if x in s then [] else [x])
  {
    assert (s + [x])[..|s|] == s;
  }

  /** Each header once, and exactly the paths that occur. */
  lemma {:induction false} FirstOccurrencesMembers(s: seq<string>)
    ensures Distinct(FirstOccurrences(s))
    ensures forall x :: x in FirstOccurrences(s) <==> x in s
  {
    if s != [] {
      var init, x := s[..|s| - 1], s[|s| - 1];
      assert s == init + [x];
      FirstOccurrencesMembers(init);
      FirstOccurrencesSnoc(init, x);
    }
  }

  /** The headers come in the order of their first occurrence. */
  lemma {:induction false} FirstOccurrencesOrder(s: seq<string>)
    ensures forall x :: x in FirstOccurrences(s) ==> x in s
    ensures forall i, j :: 0 <= i < j < |FirstOccurrences(s)| ==>
      IndexIn(s, FirstOccurrences(s)[i]) < IndexIn(s, FirstOccurrences(s)[j])
  {
    if s != [] {
      var init, x := s[..|s| - 1], s[|s| - 1];
      assert s == init + [x];
      FirstOccurrencesOrder(init);
      FirstOccurrencesMembers(init);
      FirstOccurrencesSnoc(init, x);
      var h := FirstOccurrences(init);
      forall y | y in init
        ensures IndexIn(s, y) == IndexIn(init, y)
      {
        IndexInPrefix(init, y, x);
      }
      if x !in init {
        NewLastInOrder(init, x, h);
      }
    }
    FirstOccurrencesMembers(s);
  }

  lemma {:induction false} NewLastInOrder(init: seq<string>, x: string, h: seq<string>)
    requires x !in init
    requires forall y :: y in h ==> y in init && IndexIn(init + [x], y) == IndexIn(init, y)
    requires forall i, j :: 0 <= i < j < |h| ==> IndexIn(init, h[i]) < IndexIn(init, h[j])
    ensures forall i, j :: 0 <= i < j < |h| + 1 ==> IndexIn(init + [x], (h + [x])[i]) < IndexIn(init + [x], (h + [x])[j])
  {
    var s, h' := init + [x], h + [x];
    assert IndexIn(s, x) == |init|;
    forall i, j | 0 <= i < j < |h'|
      ensures IndexIn(s, h'[i]) < IndexIn(s, h'[j])
    {
      if j < |h| {
        assert h'[i] == h[i] && h'[j] == h[j];
      } else {
        assert h'[i] == h[i] && h'[j] == x;
      }
    }
  }

  /** The header order: each header once, exactly the paths that occur,
      in the order of their first occurrence. */
  lemma {:induction false} FirstOccurrencesSpec(s: seq<string>)
    ensures Distinct(FirstOccurrences(s))
    ensures forall x :: x in FirstOccurrences(s) <==> x in s
    ensures forall i, j :: 0 <= i < j < |FirstOccurrences(s)| ==>
      IndexIn(s, FirstOccurrences(s)[i]) < IndexIn(s, FirstOccurrences(s)[j])
  {
    FirstOccurrencesMembers(s);
    FirstOccurrencesOrder(s);
  }

  /** Every path of every record, record by record. */
  function AllKeys(recs: seq<seq<Field>>): seq<string> {
    if recs == [] then [] else AllKeys(recs[..|recs| - 1]) + Keys(recs[|recs| - 1])
  }

  // ---------------------------------------------------------------------
  // parseJSON

  /** `typeof item === 'object' && item !== null`. */
  predicate IsObjectItem(item: Value) {
    item.Obj? || item.Arr? || item.Date?
  }

  /** `Object.entries(item)`: an object's fields, an array's elements under
      their indices, and nothing for a date. */
  function Entries(item: Value): seq<Field> {
    match item
    case Obj(fields) => fields
    case Arr(items) => seq(|items|, i requires 0 <= i < |items| => Field(NatToString(i), items[i]))
    case _ => []
  }

  function HeaderRow(headers: seq<string>): (row: Row)
    ensures |row| == |headers|
    ensures forall i :: 0 <= i < |headers| ==> row[i] == Str(headers[i])
  {
    seq(|headers|, i requires 0 <= i < |headers| => Str(headers[i]))
  }

  /** `headers.map(header => toCellValue(item[header]))`. */
  function RowFor(rec: seq<Field>, headers: seq<string>): (row: Row)
    ensures |row| == |headers|
  {
    seq(|headers|, i requires 0 <= i < |headers| => ToCell(Lookup(rec, headers[i]).GetOr(Undefined)))
  }

  const NotAnArray := ParseError("JSON", "Data must be an array of objects.", None)
  const NotAnObject := ParseError("JSON", "Each item in the array must be an object.", None)

  function Flattened(items: seq<Value>): (recs: seq<seq<Field>>)
    ensures |recs| == |items|
  {
    seq(|items|, i requires 0 <= i < |items| => Flatten(Entries(items[i]), ""))
  }

  /** What `parseJSON(data, includeHeaders)` returns or throws. */
  function JsonGrid(data: Value, includeHeaders: bool): Result<Grid, Error> {
    if !data.Arr? then Err(NotAnArray)
    else if data.items == [] then Ok(if includeHeaders then [[]] else [])
    else if exists i :: 0 <= i < |data.items| && !IsObjectItem(data.items[i]) then Err(NotAnObject)
    else
      var recs := Flattened(data.items);
      var headers := FirstOccurrences(AllKeys(recs));
      Ok((if includeHeaders then [HeaderRow(headers)] else []) + DataRows(recs, headers))
  }

  /** One row per record. */
  function DataRows(recs: seq<seq<Field>>, headers: seq<string>): (rows: Grid)
    ensures |rows| == |recs|
    ensures forall i :: 0 <= i < |recs| ==> rows[i] == RowFor(recs[i], headers)
  {
    if recs == [] then [] else DataRows(recs[..|recs| - 1], headers) + [RowFor(recs[|recs| - 1], headers)]
  }

  /** The `headerSet` loops of `parseJSON`: every key of every record
      added to an insertion-ordered set. */
  method CollectHeaders(flattened: seq<seq<Field>>) returns (headers: seq<string>)
    ensures headers == FirstOccurrences(AllKeys(flattened))
  {
    headers := [];
    for i := 0 to |flattened|
      invariant headers == FirstOccurrences(AllKeys(flattened[..i]))
    {
      AllKeysSnoc(flattened, i);
      headers := AddKeys(headers, AllKeys(flattened[..i]), Keys(flattened[i]));
    }
    assert flattened[..|flattened|] == flattened;
  }

  /** The inner loop over one record's keys: `headers` are the headers of
      the keys seen so far. */
  method AddKeys(headers: seq<string>, ghost seen: seq<string>, keys: seq<string>) returns (result: seq<string>)
    requires headers == FirstOccurrences(seen)
    ensures result == FirstOccurrences(seen + keys)
  {
    result := headers;
    assert seen + keys[..0] == seen;
    for j := 0 to |keys|
      invariant result == FirstOccurrences(seen + keys[..j])
    {
      HeaderStep(seen + keys[..j], keys[j]);
      if keys[j] !in result {
        result := result + [keys[j]];
      }
      assert seen + keys[..j + 1] == (seen + keys[..j]) + [keys[j]];
    }
    assert keys[..|keys|] == keys;
  }

  /** One key of the `headerSet` loop: it is added exactly when it is not
      a header yet. */
  lemma {:induction false} HeaderStep(seen: seq<string>, x: string)
    ensures FirstOccurrences(seen + [x])
         == FirstOccurrences(seen) + (if x in FirstOccurrences(seen) then [] else [x])
  {
    FirstOccurrencesMembers(seen);
    FirstOccurrencesSnoc(seen, x);
  }

  lemma {:induction false} AllKeysSnoc(recs: seq<seq<Field>>, i: nat)
    requires i < |recs|
    ensures AllKeys(recs[..i + 1]) == AllKeys(recs[..i]) + Keys(recs[i])
  {
    assert recs[..i + 1][..i] == recs[..i];
  }

  /** The `data.map(...)` of `parseJSON`: every item checked and flattened
      in order; `ok` is false when some item is not an object. */
  method FlattenItems(items: seq<Value>) returns (flattened: seq<seq<Field>>, ok: bool)
    ensures ok <==> forall i :: 0 <= i < |items| ==> IsObjectItem(items[i])
    ensures ok ==> flattened == Flattened(items)
  {
    flattened := [];
    for i := 0 to |items|
      invariant |flattened| == i
      invariant forall j :: 0 <= j < i ==> IsObjectItem(items[j]) && flattened[j] == Flatten(Entries(items[j]), "")
    {
      var item := items[i];
      if !IsObjectItem(item) {
        return flattened, false;
      }
      var flat := FlattenObject(Entries(item), "");
      flattened := flattened + [flat];
    }
    ok := true;
  }

  /** `parseJSON(data, includeHeaders)`. */
  method ParseJson(data: Value, includeHeaders: bool) returns (r: Result<Grid, Error>)
    ensures r == JsonGrid(data, includeHeaders)
  {
    if !data.Arr? {
      return Err(NotAnArray);
    }
    var items := data.items;
    if |items| == 0 {
      return Ok(if includeHeaders then [[]] else []);
    }
    var flattened, ok := FlattenItems(items);
    if !ok {
      return Err(NotAnObject);
    }
    var headers := CollectHeaders(flattened);
    var rows := BuildRows(flattened, headers, if includeHeaders then [HeaderRow(headers)] else []);
    return Ok(rows);
  }

  /** The `for (const flat of flattened)` loop of `parseJSON`: one row per
      record appended after `first`. */
  method BuildRows(flattened: seq<seq<Field>>, headers: seq<string>, first: Grid) returns (rows: Grid)
    ensures rows == first + DataRows(flattened, headers)
  {
    rows := first;
    for i := 0 to |flattened|
      invariant rows == first + DataRows(flattened[..i], headers)
    {
      var row := seq(|headers|, k requires 0 <= k < |headers| => ToCell(Lookup(flattened[i], headers[k]).GetOr(Undefined)));
      assert row == RowFor(flattened[i], headers);
      assert flattened[..i + 1][..i] == flattened[..i];
      rows := rows + [row];
    }
    assert flattened[..|flattened|] == flattened;
  }

  /** Rows of a successful parse: with headers, the header row first and
      then one row per record; without, one row per record. Every data row
      has one cell per header, in header order: the record's value under
      that path turned into a cell, or null when the record lacks it. The
      headers are the distinct paths in first-seen order. */
  lemma {:induction false} JsonGridRows(items: seq<Value>, includeHeaders: bool)
    requires items != [] && forall i :: 0 <= i < |items| ==> IsObjectItem(items[i])
    ensures var r := JsonGrid(Arr(items), includeHeaders);
      var recs := Flattened(items);
      var headers := FirstOccurrences(AllKeys(recs));
      var off := if includeHeaders then 1 else 0;
      && r.Ok?
      && |r.value| == |items| + off
      && (includeHeaders ==> r.value[0] == HeaderRow(headers))
      && (forall i, k :: 0 <= i < |items| && 0 <= k < |headers| ==>
            |r.value[i + off]| == |headers| &&
            r.value[i + off][k] == (match Lookup(recs[i], headers[k]) case None => Null case Some(v) => ToCell(v)))
      && Distinct(headers)
      && (forall x :: x in headers <==> x in AllKeys(recs))
  {
    var recs := Flattened(items);
    FirstOccurrencesSpec(AllKeys(recs));
  }

  /** Which inputs fail: anything but an array, and a non-empty array with
      an item that is a primitive, null or undefined. The empty array gives
      one empty header row, or no rows without headers. */
  lemma {:induction false} JsonGridErrors(data: Value, includeHeaders: bool)
    ensures JsonGrid(data, includeHeaders).Err? <==>
      !data.Arr? || (data.items != [] && exists i :: 0 <= i < |data.items| && !IsObjectItem(data.items[i]))
    ensures !data.Arr? ==> JsonGrid(data, includeHeaders) == Err(NotAnArray)
    ensures data.Arr? && JsonGrid(data, includeHeaders).Err? ==> JsonGrid(data, includeHeaders) == Err(NotAnObject)
    ensures data == Arr([]) ==> JsonGrid(data, includeHeaders) == Ok(if includeHeaders then [[]] else [])
  {
  }

  /** One iteration of the flattening loop on a field that is not an
      object. */
  lemma {:induction false} FlattenLeafStep(acc: seq<Field>, fields: seq<Field>, prefix: string)
    requires fields != [] && !fields[0].value.Obj?
    ensures FlattenInto(acc, fields, prefix)
         == FlattenInto(Assign(acc, FullKey(prefix, fields[0].key), fields[0].value), fields[1..], prefix)
  {
  }

  /** With distinct keys, the first key of `fields` is not among the keys
      before it. */
  lemma {:induction false} FreshFirstKey(acc: seq<Field>, fields: seq<Field>)
    requires fields != [] && Distinct(Keys(acc + fields))
    ensures fields[0].key !in Keys(acc)
  {
    var ks := Keys(acc + fields);
    assert ks[|acc|] == fields[0].key;
    forall i | 0 <= i < |acc| ensures Keys(acc)[i] != fields[0].key {
      assert ks[i] == Keys(acc)[i];
    }
  }

  /** A flat record with distinct keys flattens to itself. */
  lemma {:induction false} FlattenFlatRecord(acc: seq<Field>, fields: seq<Field>)
    requires NoObjects(fields) && Distinct(Keys(acc + fields))
    ensures FlattenInto(acc, fields, "") == acc + fields
    decreases fields
  {
    if fields == [] {
      assert acc + [] == acc;
    } else {
      FlatFieldStep(acc, fields);
      FlattenFlatRecord(acc + [fields[0]], fields[1..]);
    }
  }

  /** The first field of a flat record with a fresh key is appended as it
      is. */
  lemma {:induction false} FlatFieldStep(acc: seq<Field>, fields: seq<Field>)
    requires fields != [] && NoObjects(fields) && Distinct(Keys(acc + fields))
    ensures FlattenInto(acc, fields, "") == FlattenInto(acc + [fields[0]], fields[1..], "")
    ensures NoObjects(fields[1..])
    ensures (acc + [fields[0]]) + fields[1..] == acc + fields
  {
    FreshFirstKey(acc, fields);
    FreshLeafStep(acc, fields);
    FlatTail(acc, fields);
  }

  lemma {:induction false} FlatTail(acc: seq<Field>, fields: seq<Field>)
    requires fields != [] && NoObjects(fields)
    ensures NoObjects(fields[1..])
    ensures (acc + [fields[0]]) + fields[1..] == acc + fields
  {
    assert forall i :: 0 <= i < |fields[1..]| ==> fields[1..][i] == fields[i + 1];
    assert fields == [fields[0]] + fields[1..];
  }

  /** A top-level leaf with a fresh key is appended as it is. */
  lemma {:induction false} FreshLeafStep(acc: seq<Field>, fields: seq<Field>)
    requires fields != [] && !fields[0].value.Obj? && fields[0].key !in Keys(acc)
    ensures FlattenInto(acc, fields, "") == FlattenInto(acc + [fields[0]], fields[1..], "")
  {
    var f := fields[0];
    assert FullKey("", f.key) == f.key;
    AssignAppends(acc, f.key, f.value);
    FlattenLeafStep(acc, fields, "");
  }

  lemma {:induction false} KeysAppend(a: seq<Field>, b: seq<Field>)
    ensures Keys(a + b) == Keys(a) + Keys(b)
  {
  }

  /** Assigning a new key appends the field. */
  lemma {:induction false} AssignAppends(rec: seq<Field>, key: string, v: Value)
    requires key !in Keys(rec)
    ensures Assign(rec, key, v) == rec + [Field(key, v)]
  {
    if rec != [] {
      assert Keys(rec)[0] == rec[0].key;
      assert key !in Keys(rec[1..]);
      AssignAppends(rec[1..], key, v);
    }
  }

  lemma {:induction false} MissingKeysRecords(r1: seq<Field>, r2: seq<Field>)
    requires r1 == [Field("a", Num("1")), Field("b", Num("2"))]
    requires r2 == [Field("a", Num("3")), Field("c", Num("4"))]
    ensures Flattened([Obj(r1), Obj(r2)]) == [r1, r2]
  {
    FlattenFlatRecord([], r1);
    FlattenFlatRecord([], r2);
    assert [] + r1 == r1 && [] + r2 == r2;
  }

  /** The paths of two records: the first record's, then the second's. */
  lemma {:induction false} AllKeysPair(r1: seq<Field>, r2: seq<Field>)
    ensures AllKeys([r1, r2]) == Keys(r1) + Keys(r2)
  {
    assert [r1, r2][..1] == [r1] && [r1][..0] == [];
    assert AllKeys([r1]) == [] + Keys(r1);
  }

  /** A path seen again is not repeated. */
  lemma {:induction false} RepeatedPathOnce(a: string, b: string, c: string)
    requires a != b && a != c && b != c
    ensures FirstOccurrences([a, b, a, c]) == [a, b, c]
  {
    FirstOccurrencesSnoc([], a);
    assert [] + [a] == [a];
    FirstOccurrencesSnoc([a], b);
    assert [a] + [b] == [a, b];
    FirstOccurrencesSnoc([a, b], a);
    assert [a, b] + [a] == [a, b, a];
    FirstOccurrencesSnoc([a, b, a], c);
    assert [a, b, a] + [c] == [a, b, a, c];
  }

  lemma {:induction false} MissingKeysHeaders(r1: seq<Field>, r2: seq<Field>)
    requires r1 == [Field("a", Num("1")), Field("b", Num("2"))]
    requires r2 == [Field("a", Num("3")), Field("c", Num("4"))]
    ensures FirstOccurrences(AllKeys([r1, r2])) == ["a", "b", "c"]
  {
    AllKeysPair(r1, r2);
    assert Keys(r1) == ["a", "b"] && Keys(r2) == ["a", "c"];
    assert ["a", "b"] + ["a", "c"] == ["a", "b", "a", "c"];
    RepeatedPathOnce("a", "b", "c");
  }

  lemma {:induction false} MissingKeysRows(r1: seq<Field>, r2: seq<Field>, headers: seq<string>)
    requires r1 == [Field("a", Num("1")), Field("b", Num("2"))]
    requires r2 == [Field("a", Num("3")), Field("c", Num("4"))]
    requires headers == ["a", "b", "c"]
    ensures [HeaderRow(headers)] + DataRows([r1, r2], headers)
         == [[Str("a"), Str("b"), Str("c")], [Num("1"), Num("2"), Null], [Num("3"), Null, Num("4")]]
  {
    assert HeaderRow(headers) == [Str("a"), Str("b"), Str("c")];
    assert "a" != "b" && "a" != "c" && "b" != "c";
    assert r1[1..] == [r1[1]] && r1[1..][1..] == [] && r2[1..] == [r2[1]] && r2[1..][1..] == [];
    assert Lookup(r1[1..][1..], "c") == None && Lookup(r2[1..][1..], "b") == None;
    assert Lookup(r1[1..], "c") == None && Lookup(r2[1..], "b") == None;
    assert Lookup(r2[1..], "c") == Some(Num("4"));
    assert Lookup(r1, "a") == Some(Num("1")) && Lookup(r1, "b") == Some(Num("2")) && Lookup(r1, "c") == None;
    assert Lookup(r2, "a") == Some(Num("3")) && Lookup(r2, "b") == None && Lookup(r2, "c") == Some(Num("4"));
    assert RowFor(r1, headers) == [Num("1"), Num("2"), Null];
    assert RowFor(r2, headers) == [Num("3"), Null, Num("4")];
    assert [r1, r2][..1] == [r1];
    assert DataRows([r1, r2], headers) == [RowFor(r1, headers), RowFor(r2, headers)];
  }

  /** Records with different keys: every header once, and null where a
      record lacks a path. */
  lemma {:induction false} MissingKeysExample()
    ensures JsonGrid(Arr([Obj([Field("a", Num("1")), Field("b", Num("2"))]),
                          Obj([Field("a", Num("3")), Field("c", Num("4"))])]), true)
         == Ok([[Str("a"), Str("b"), Str("c")],
                [Num("1"), Num("2"), Null],
                [Num("3"), Null, Num("4")]])
  {
    var r1 := [Field("a", Num("1")), Field("b", Num("2"))];
    var r2 := [Field("a", Num("3")), Field("c", Num("4"))];
    MissingKeysRecords(r1, r2);
    MissingKeysHeaders(r1, r2);
    MissingKeysRows(r1, r2, ["a", "b", "c"]);
    var data := Arr([Obj(r1), Obj(r2)]);
    assert !exists i :: 0 <= i < |data.items| && !IsObjectItem(data.items[i]);
  }

  /** A non-array input and an array of numbers are rejected. */
  lemma {:induction false} RejectionExamples()
    ensures JsonGrid(Str("not an array"), true) == Err(NotAnArray)
    ensures JsonGrid(Arr([Num("1"), Num("2"), Num("3")]), true) == Err(NotAnObject)
  {
    assert !IsObjectItem(Arr([Num("1"), Num("2"), Num("3")]).items[0]);
  }
}
