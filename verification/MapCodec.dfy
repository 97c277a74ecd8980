/** Maps in persisted state: JSON has none, so each is written as a tagged object and read back by its tag, however
deep it is nested. The replacer is asked from the root down, the reviver from the leaves up (sections 25.5.1 and
25.5.2 of ECMA-262). */
module MapCodec {
  import opened Modifications

  /** What the store keeps. A `Dict` is a map with string keys in insertion order; JSON values are those without. */
  datatype Value =
    | Null
    | Bool(b: bool)
    | Number(n: real)
    | Text(s: string)
    | List(items: seq<Value>)
    | Object(fields: seq<Field>)
    | Dict(entries: seq<Field>)

  datatype Field = Field(key: string, value: Value)

  const TYPE := "__type"
  const ENTRIES := "entries"
  const MAP := "Map"

  function Lookup(fields: seq<Field>, key: string): Option<Value> {
    if fields == [] then None else if fields[0].key == key then Some(fields[0].value) else Lookup(fields[1..], key)
  }

  // ---------------------------------------------------------------- writing

  function Pair(key: string, value: Value): Value {
    List([Text(key), value])
  }

  function Tagged(pairs: seq<Value>): Value {
    Object([Field(TYPE, Text(MAP)), Field(ENTRIES, List(pairs))])
  }

  /** Every map becomes an object with a tag and its entries as an array of pairs. */
  function Encode(v: Value): Value {
    match v
    case List(items) => List(seq(|items|, i requires 0 <= i < |items| => Encode(items[i])))
    case Object(fields) => Object(seq(|fields|, i requires 0 <= i < |fields| => Field(fields[i].key, Encode(fields[i].value))))
    case Dict(entries) => Tagged(seq(|entries|, i requires 0 <= i < |entries| => Pair(entries[i].key, Encode(entries[i].value))))
    case _ => v
  }

  predicate IsJson(v: Value) {
    match v
    case List(items) => forall i :: 0 <= i < |items| ==> IsJson(items[i])
    case Object(fields) => forall i :: 0 <= i < |fields| ==> IsJson(fields[i].value)
    case Dict(_) => false
    case _ => true
  }

  // ---------------------------------------------------------------- reading

  /** Setting a key again keeps its place. */
  function Put(entries: seq<Field>, f: Field): seq<Field> {
    if entries == [] then [f]
    else if entries[0].key == f.key then [f] + entries[1..]
    else [entries[0]] + Put(entries[1..], f)
  }

  function PutAll(entries: seq<Field>, more: seq<Field>): seq<Field>
    decreases |more|
  {
    if more == [] then entries else PutAll(Put(entries, more[0]), more[1..])
  }

  predicate IsPair(v: Value) {
    v.List? && |v.items| == 2 && v.items[0].Text?
  }

  function EntryOf(v: Value): Field
    requires IsPair(v)
  {
    Field(v.items[0].s, v.items[1])
  }

  /** A tagged object with an array of entries is read as a map. An array that does not hold pairs never comes from
      writing a map; the reader then fails or makes up entries, and here there is no value. */
  function Revive(fields: seq<Field>): Option<Value> {
    var entries := Lookup(fields, ENTRIES);
    if Lookup(fields, TYPE) != Some(Text(MAP)) || entries == None || !entries.value.List? then Some(Object(fields))
    else
      var pairs := entries.value.items;
      if forall i :: 0 <= i < |pairs| ==> IsPair(pairs[i]) then
        Some(Dict(PutAll([], seq(|pairs|, i requires 0 <= i < |pairs| => EntryOf(pairs[i])))))
      else None
  }

  function Decode(j: Value): Option<Value> {
    match j
    case List(items) =>
      if forall i :: 0 <= i < |items| ==> Decode(items[i]).Some? then
        Some(List(seq(|items|, i requires 0 <= i < |items| => Decode(items[i]).value)))
      else None
    case Object(fields) =>
      if forall i :: 0 <= i < |fields| ==> Decode(fields[i].value).Some? then
        Revive(seq(|fields|, i requires 0 <= i < |fields| => Field(fields[i].key, Decode(fields[i].value).value)))
      else None
    case _ => Some(j)
  }

  // ---------------------------------------------------------------- round trip

  predicate DistinctKeys(entries: seq<Field>) {
    forall i, j :: 0 <= i < j < |entries| ==> entries[i].key != entries[j].key
  }

  /** Every map holds each key once. */
  predicate WellFormed(v: Value) {
    match v
    case List(items) => forall i :: 0 <= i < |items| ==> WellFormed(items[i])
    case Object(fields) => forall i :: 0 <= i < |fields| ==> WellFormed(fields[i].value)
    case Dict(entries) => DistinctKeys(entries) && forall i :: 0 <= i < |entries| ==> WellFormed(entries[i].value)
    case _ => true
  }

  /** A plain object that looks like a written map. */
  predicate LooksLikeMap(fields: seq<Field>) {
    Lookup(fields, TYPE) == Some(Text(MAP)) && Lookup(fields, ENTRIES).Some? && Lookup(fields, ENTRIES).value.List?
  }

  /** No plain object anywhere looks like a written map. */
  predicate Clean(v: Value) {
    match v
    case List(items) => forall i :: 0 <= i < |items| ==> Clean(items[i])
    case Object(fields) => !LooksLikeMap(fields) && forall i :: 0 <= i < |fields| ==> Clean(fields[i].value)
    case Dict(entries) => forall i :: 0 <= i < |entries| ==> Clean(entries[i].value)
    case _ => true
  }

  lemma {:induction false} EncodeIsJson(v: Value)
    ensures IsJson(Encode(v))
  {
    match v
    case List(items) => forall i | 0 <= i < |items| ensures IsJson(Encode(items[i])) { EncodeIsJson(items[i]); }
    case Object(fields) => forall i | 0 <= i < |fields| ensures IsJson(Encode(fields[i].value)) { EncodeIsJson(fields[i].value); }
    case Dict(entries) =>
      var pairs := Pairs(entries);
      forall i | 0 <= i < |pairs| ensures IsJson(pairs[i]) {
        EncodeIsJson(entries[i].value);
        assert forall k :: 0 <= k < 2 ==> IsJson(pairs[i].items[k]);
      }
      assert IsJson(List(pairs));
    case _ =>
  }

  function Pairs(entries: seq<Field>): (r: seq<Value>)
    ensures |r| == |entries| && forall i :: 0 <= i < |r| ==> r[i] == Pair(entries[i].key, Encode(entries[i].value))
    ensures Encode(Dict(entries)) == Tagged(r)
  {
    seq(|entries|, i requires 0 <= i < |entries| => Pair(entries[i].key, Encode(entries[i].value)))
  }

  lemma {:induction false} PutNew(entries: seq<Field>, f: Field)
    requires forall i :: 0 <= i < |entries| ==> entries[i].key != f.key
    ensures Put(entries, f) == entries + [f]
  {
    if entries != [] {
      PutNew(entries[1..], f);
    }
  }

  lemma {:induction false} PutAllNew(entries: seq<Field>, more: seq<Field>)
    requires DistinctKeys(entries + more)
    ensures PutAll(entries, more) == entries + more
    decreases |more|
  {
    if more != [] {
      forall i | 0 <= i < |entries| ensures entries[i].key != more[0].key {
        assert (entries + more)[i] == entries[i] && (entries + more)[|entries|] == more[0];
      }
      PutNew(entries, more[0]);
      assert (entries + [more[0]]) + more[1..] == entries + more;
      PutAllNew(entries + [more[0]], more[1..]);
    }
  }

  lemma DecodeList(items: seq<Value>, back: seq<Value>)
    requires |back| == |items| && forall i :: 0 <= i < |items| ==> Decode(items[i]) == Some(back[i])
    ensures Decode(List(items)) == Some(List(back))
  {
    assert seq(|items|, i requires 0 <= i < |items| => Decode(items[i]).value) == back;
  }

  lemma DecodeObject(fields: seq<Field>, back: seq<Field>)
    requires |back| == |fields| && forall i :: 0 <= i < |fields| ==> back[i].key == fields[i].key && Decode(fields[i].value) == Some(back[i].value)
    ensures Decode(Object(fields)) == Revive(back)
  {
    assert seq(|fields|, i requires 0 <= i < |fields| => Field(fields[i].key, Decode(fields[i].value).value)) == back;
  }

  /** Fields that differ in their values only by what a round trip does to them. */
  function Recoded(fields: seq<Field>): (r: seq<Field>)
    ensures |r| == |fields| && forall i :: 0 <= i < |r| ==> r[i] == Field(fields[i].key, Encode(fields[i].value))
  {
    seq(|fields|, i requires 0 <= i < |fields| => Field(fields[i].key, Encode(fields[i].value)))
  }

  function Returned(fields: seq<Field>): (r: seq<Field>)
    requires forall i :: 0 <= i < |fields| ==> Decode(Encode(fields[i].value)).Some?
    ensures |r| == |fields| && forall i :: 0 <= i < |r| ==> r[i] == Field(fields[i].key, Decode(Encode(fields[i].value)).value)
  {
    seq(|fields|, i requires 0 <= i < |fields| => Field(fields[i].key, Decode(Encode(fields[i].value)).value))
  }

  lemma {:induction false} LookupReturned(fields: seq<Field>, key: string)
    requires forall i :: 0 <= i < |fields| ==> Decode(Encode(fields[i].value)).Some?
    ensures Lookup(Returned(fields), key).Some? <==> Lookup(fields, key).Some?
    ensures Lookup(fields, key).Some? ==> Decode(Encode(Lookup(fields, key).value)) == Some(Lookup(Returned(fields), key).value)
  {
    if fields != [] {
      assert Returned(fields)[1..] == Returned(fields[1..]);
      LookupReturned(fields[1..], key);
    }
  }

  /** Lists and texts come back as what they are, and nothing else comes back as one of them. */
  lemma KindKept(v: Value)
    requires Decode(Encode(v)).Some?
    ensures Decode(Encode(v)).value.List? <==> v.List?
    ensures Decode(Encode(v)).value == Text(MAP) <==> v == Text(MAP)
  {
  }

  /** An object comes back as an object exactly when it does not look like a written map. */
  lemma ObjectBack(fields: seq<Field>)
    requires forall i :: 0 <= i < |fields| ==> Decode(Encode(fields[i].value)).Some?
    ensures Decode(Encode(Object(fields))) == Revive(Returned(fields))
    ensures LooksLikeMap(Returned(fields)) <==> LooksLikeMap(fields)
  {
    assert Encode(Object(fields)) == Object(Recoded(fields));
    LookupReturned(fields, TYPE);
    LookupReturned(fields, ENTRIES);
    if Lookup(fields, TYPE).Some? {
      KindKept(Lookup(fields, TYPE).value);
    }
    if Lookup(fields, ENTRIES).Some? {
      KindKept(Lookup(fields, ENTRIES).value);
    }
    DecodeObject(Recoded(fields), Returned(fields));
  }

  /** A map comes back with its entries in order. */
  lemma DictBack(entries: seq<Field>)
    requires DistinctKeys(entries)
    requires forall i :: 0 <= i < |entries| ==> Decode(Encode(entries[i].value)).Some?
    ensures Decode(Encode(Dict(entries))) == Some(Dict(Returned(entries)))
  {
    var pairs, returned := Pairs(entries), Returned(entries);
    var back := seq(|entries|, i requires 0 <= i < |entries| => Pair(returned[i].key, returned[i].value));
    forall i | 0 <= i < |pairs| ensures Decode(pairs[i]) == Some(back[i]) {
      DecodeList(pairs[i].items, back[i].items);
    }
    DecodeList(pairs, back);
    var read := [Field(TYPE, Text(MAP)), Field(ENTRIES, List(back))];
    DecodeObject([Field(TYPE, Text(MAP)), Field(ENTRIES, List(pairs))], read);
    ReviveTagged(read, back, returned);
  }

  lemma ReviveTagged(read: seq<Field>, back: seq<Value>, entries: seq<Field>)
    requires read == [Field(TYPE, Text(MAP)), Field(ENTRIES, List(back))]
    requires |back| == |entries| && forall i :: 0 <= i < |entries| ==> back[i] == Pair(entries[i].key, entries[i].value)
    requires DistinctKeys(entries)
    ensures Revive(read) == Some(Dict(entries))
  {
    hide PutAll, DistinctKeys, IsPair, EntryOf, Lookup;
    LookupTagged(read, back);
    PairsRead(back, entries);
    assert seq(|back|, i requires 0 <= i < |back| => EntryOf(back[i])) == entries;
    assert [] + entries == entries;
    PutAllNew([], entries);
  }

  lemma LookupTagged(read: seq<Field>, back: seq<Value>)
    requires read == [Field(TYPE, Text(MAP)), Field(ENTRIES, List(back))]
    ensures Lookup(read, TYPE) == Some(Text(MAP)) && Lookup(read, ENTRIES) == Some(List(back))
  {
    assert read[1..][0] == read[1] && TYPE != ENTRIES;
    assert Lookup(read[1..], ENTRIES) == Some(List(back));
  }

  lemma PairsRead(back: seq<Value>, entries: seq<Field>)
    requires |back| == |entries| && forall i :: 0 <= i < |entries| ==> back[i] == Pair(entries[i].key, entries[i].value)
    ensures forall i :: 0 <= i < |back| ==> IsPair(back[i]) && EntryOf(back[i]) == entries[i]
  {
  }

  /** Main result: a value is read back as it was written exactly when no plain object in it, at any depth, looks
      like a written map. */
  lemma {:induction false} RoundTripExactly(v: Value)
    requires WellFormed(v)
    ensures Decode(Encode(v)) == Some(v) <==> Clean(v)
  {
    match v
    case List(items) =>
      forall i | 0 <= i < |items| ensures Decode(Encode(items[i])) == Some(items[i]) <==> Clean(items[i]) {
        RoundTripExactly(items[i]);
      }
      ListBack(items);
    case Object(fields) =>
      forall i | 0 <= i < |fields| ensures Decode(Encode(fields[i].value)) == Some(fields[i].value) <==> Clean(fields[i].value) {
        RoundTripExactly(fields[i].value);
      }
      ObjectRoundTrip(fields);
    case Dict(entries) =>
      forall i | 0 <= i < |entries| ensures Decode(Encode(entries[i].value)) == Some(entries[i].value) <==> Clean(entries[i].value) {
        RoundTripExactly(entries[i].value);
      }
      DictRoundTrip(entries);
    case _ =>
  }

  predicate ComesBack(v: Value) {
    Decode(Encode(v)) == Some(v)
  }

  lemma ListBack(items: seq<Value>)
    ensures ComesBack(List(items)) <==> forall i :: 0 <= i < |items| ==> ComesBack(items[i])
  {
    var encoded := seq(|items|, i requires 0 <= i < |items| => Encode(items[i]));
    assert Encode(List(items)) == List(encoded);
    if forall i :: 0 <= i < |items| ==> Decode(encoded[i]).Some? {
      var back := seq(|items|, i requires 0 <= i < |items| => Decode(encoded[i]).value);
      assert Decode(List(encoded)) == Some(List(back));
      if back == items {
        assert forall i :: 0 <= i < |items| ==> back[i] == items[i];
      }
    }
  }

  lemma ObjectRoundTrip(fields: seq<Field>)
    ensures ComesBack(Object(fields)) <==>
            !LooksLikeMap(fields) && forall i :: 0 <= i < |fields| ==> ComesBack(fields[i].value)
  {
    if forall i :: 0 <= i < |fields| ==> Decode(Encode(fields[i].value)).Some? {
      ObjectBack(fields);
      if Returned(fields) == fields {
        assert forall i :: 0 <= i < |fields| ==> Returned(fields)[i] == fields[i];
      }
    } else {
      var fs := Recoded(fields);
      assert Encode(Object(fields)) == Object(fs);
      var i :| 0 <= i < |fields| && Decode(Encode(fields[i].value)) == None;
      assert Decode(fs[i].value) == None;
    }
  }

  lemma DictRoundTrip(entries: seq<Field>)
    requires DistinctKeys(entries)
    ensures ComesBack(Dict(entries)) <==> forall i :: 0 <= i < |entries| ==> ComesBack(entries[i].value)
  {
    if forall i :: 0 <= i < |entries| ==> Decode(Encode(entries[i].value)).Some? {
      DictBack(entries);
      if Returned(entries) == entries {
        assert forall i :: 0 <= i < |entries| ==> Returned(entries)[i] == entries[i];
      }
    } else {
      var i :| 0 <= i < |entries| && Decode(Encode(entries[i].value)) == None;
      DictFails(entries, i);
    }
  }

  lemma DictFails(entries: seq<Field>, i: nat)
    requires i < |entries| && Decode(Encode(entries[i].value)) == None
    ensures Decode(Encode(Dict(entries))) == None
  {
    var pairs := Pairs(entries);
    assert pairs[i].items[1] == Encode(entries[i].value);
    assert Decode(pairs[i]) == None;
    assert Decode(List(pairs)) == None;
    var fields := [Field(TYPE, Text(MAP)), Field(ENTRIES, List(pairs))];
    assert Encode(Dict(entries)) == Object(fields) && Decode(fields[1].value) == None;
  }
}
