/** The part of `encoding/json` the operator relies on: records of strings described by struct
    tags, written as objects and read back into a zero value. A text and the tree it prints are
    identified; `Size` is the length in bytes of the compact text. */
module Json {
  import opened Prelude

  datatype Json = Str(text: string) | Obj(fields: seq<Field>) | Null | Other
  datatype Field = Field(key: string, value: Json)

  datatype Schema = Text(omitEmpty: bool) | Struct(tags: seq<Tag>)
  datatype Tag = Tag(key: string, schema: Schema)

  datatype Value = Leaf(text: string) | Record(parts: seq<Value>)

  /** `v` has the shape the tags describe. */
  predicate Fits(schema: Schema, v: Value)
    decreases schema, 0
  {
    match schema
    case Text(_) => v.Leaf?
    case Struct(tags) => v.Record? && FitAll(tags, v.parts)
  }

  predicate FitAll(tags: seq<Tag>, parts: seq<Value>)
    decreases tags, 1
  {
    |tags| == |parts| && forall i :: 0 <= i < |tags| ==> Fits(tags[i].schema, parts[i])
  }

  /** The value of one field. */
  function Part(tags: seq<Tag>, v: Value, i: nat): (p: Value)
    requires Fits(Struct(tags), v) && i < |tags|
    ensures Fits(tags[i].schema, p)
  {
    assert FitAll(tags, v.parts);
    v.parts[i]
  }

  function TextAt(tags: seq<Tag>, v: Value, i: nat): string
    requires Fits(Struct(tags), v) && i < |tags| && tags[i].schema.Text?
  {
    Part(tags, v, i).text
  }

  /** The value `Unmarshal` starts from. */
  function Zero(schema: Schema): (v: Value)
    ensures Fits(schema, v)
    decreases schema, 0
  {
    match schema
    case Text(_) => Leaf("")
    case Struct(tags) => Record(ZeroParts(tags))
  }

  function ZeroParts(tags: seq<Tag>): (parts: seq<Value>)
    ensures FitAll(tags, parts)
    ensures forall i :: 0 <= i < |tags| ==> parts[i] == Zero(tags[i].schema)
    decreases tags, 1
  {
    if tags == [] then [] else [Zero(tags[0].schema)] + ZeroParts(tags[1..])
  }

  // ---------------------------------------------------------------- writing

  /** `omitempty` drops an empty string. */
  predicate Omitted(schema: Schema, v: Value) {
    schema == Text(true) && v == Leaf("")
  }

  function Encode(schema: Schema, v: Value): Json
    requires Fits(schema, v)
    decreases schema, 0
  {
    match schema
    case Text(_) => Str(v.text)
    case Struct(tags) => Obj(EncodeParts(tags, v.parts))
  }

  function EncodeParts(tags: seq<Tag>, parts: seq<Value>): seq<Field>
    requires FitAll(tags, parts)
    decreases tags, 1
  {
    if tags == [] then []
    else
      (if Omitted(tags[0].schema, parts[0]) then []
       else [Field(tags[0].key, Encode(tags[0].schema, parts[0]))])
      + EncodeParts(tags[1..], parts[1..])
  }

  /** Bytes `c` takes inside a JSON string: escapes for quotes, control characters, HTML
      characters and the two line separators, otherwise its UTF-8 length. */
  function CharSize(c: char): (n: nat)
    ensures 1 <= n <= 6
  {
    if c == '"' || c == '\\' || c == '\n' || c == '\r' || c == '\t' then 2
    else if c < ' ' || c == '<' || c == '>' || c == '&' then 6
    else if c as int == 0x2028 || c as int == 0x2029 then 6
    else if c as int < 0x80 then 1
    else if c as int < 0x800 then 2
    else if c as int < 0x10000 then 3
    else 4
  }

  function TextSize(s: string): (n: nat)
    ensures n >= |s| + 2
  {
    if s == [] then 2 else CharSize(s[0]) + TextSize(s[1..])
  }

  /** Length of the text `json.Marshal` prints. */
  function Size(j: Json): (n: nat)
    ensures n >= 2
    decreases j, 0
  {
    match j
    case Str(s) => TextSize(s)
    case Obj(fields) => 2 + FieldsSize(fields) + (if fields == [] then 0 else |fields| - 1)
    case Null => 4
    case Other => 4
  }

  function FieldsSize(fields: seq<Field>): nat
    decreases fields, 1
  {
    if fields == [] then 0
    else TextSize(fields[0].key) + 1 + Size(fields[0].value) + FieldsSize(fields[1..])
  }

  // ---------------------------------------------------------------- reading

  function LowerChar(c: char): char {
    if 'A' <= c <= 'Z' then (c as int - 'A' as int + 'a' as int) as char else c
  }

  function Lower(s: string): (r: string)
    ensures |r| == |s|
    ensures forall i :: 0 <= i < |s| ==> r[i] == LowerChar(s[i])
  {
    seq(|s|, i requires 0 <= i < |s| => LowerChar(s[i]))
  }

  function FindExact(tags: seq<Tag>, key: string): (k: nat)
    ensures k <= |tags|
    ensures k < |tags| ==> tags[k].key == key
    ensures forall i :: 0 <= i < k ==> tags[i].key != key
  {
    if tags == [] || tags[0].key == key then 0 else 1 + FindExact(tags[1..], key)
  }

  function FindFolded(tags: seq<Tag>, key: string): (k: nat)
    ensures k <= |tags|
    ensures k < |tags| ==> Lower(tags[k].key) == Lower(key)
    ensures forall i :: 0 <= i < k ==> Lower(tags[i].key) != Lower(key)
  {
    if tags == [] || Lower(tags[0].key) == Lower(key) then 0 else 1 + FindFolded(tags[1..], key)
  }

  /** The field a key is read into: the one with that exact key, else one that matches without
      regard to case; `|tags|` when there is none. */
  function Find(tags: seq<Tag>, key: string): (k: nat)
    ensures k <= |tags|
  {
    var k := FindExact(tags, key);
    if k < |tags| then k else FindFolded(tags, key)
  }

  /** `Unmarshal` of `j` into `current`; `None` is a type mismatch. `null` leaves a value as it is. */
  function DecodeInto(schema: Schema, current: Value, j: Json): (r: Option<Value>)
    requires Fits(schema, current)
    ensures r.Some? ==> Fits(schema, r.value)
    decreases j, 0
  {
    match j
    case Null => Some(current)
    case Other => None
    case Str(s) => if schema.Text? then Some(Leaf(s)) else None
    case Obj(fields) =>
      if schema.Text? then None
      else
        match DecodeFields(schema.tags, current.parts, fields)
        case None => None
        case Some(parts) => Some(Record(parts))
  }

  /** Fields are read in order, unknown keys are skipped, and a repeated key is read on top. */
  function DecodeFields(tags: seq<Tag>, parts: seq<Value>, fields: seq<Field>): (r: Option<seq<Value>>)
    requires FitAll(tags, parts)
    ensures r.Some? ==> FitAll(tags, r.value)
    decreases fields, 1
  {
    if fields == [] then Some(parts)
    else
      var k := Find(tags, fields[0].key);
      if k == |tags| then DecodeFields(tags, parts, fields[1..])
      else
        match DecodeInto(tags[k].schema, parts[k], fields[0].value)
        case None => None
        case Some(v) => DecodeFields(tags, parts[k := v], fields[1..])
  }

  // ---------------------------------------------------------------- round trip

  predicate DifferentKeys(tags: seq<Tag>) {
    forall i, j :: 0 <= i < j < |tags| ==> tags[i].key != tags[j].key
  }

  /** The keys of every record are pairwise different. */
  predicate DistinctKeys(schema: Schema)
    decreases schema
  {
    schema.Struct? ==>
      && DifferentKeys(schema.tags)
      && forall i :: 0 <= i < |schema.tags| ==> DistinctKeys(schema.tags[i].schema)
  }

  /** Leaves only: distinct keys are enough. */
  lemma FlatDistinct(tags: seq<Tag>)
    requires DifferentKeys(tags)
    requires forall i :: 0 <= i < |tags| ==> tags[i].schema.Text? || DistinctKeys(tags[i].schema)
    ensures DistinctKeys(Struct(tags))
  {
  }

  /** Writing a record and reading it back gives the record, whatever `omitempty` dropped. */
  lemma {:induction false} RoundTrip(schema: Schema, v: Value)
    requires Fits(schema, v) && DistinctKeys(schema)
    ensures DecodeInto(schema, Zero(schema), Encode(schema, v)) == Some(v)
    decreases schema, 1
  {
    if schema.Struct? {
      assert v.parts[..0] + ZeroParts(schema.tags)[0..] == ZeroParts(schema.tags);
      assert schema.tags[0..] == schema.tags && v.parts[0..] == v.parts;
      PartsRoundTrip(schema, v.parts, 0);
    }
  }

  /** The first `k` fields as written, the others still at zero. */
  function PartlyRead(tags: seq<Tag>, parts: seq<Value>, k: nat): (r: seq<Value>)
    requires FitAll(tags, parts) && k <= |parts|
    ensures FitAll(tags, r)
  {
    parts[..k] + ZeroParts(tags)[k..]
  }

  /** One more field read. */
  lemma ReadField(tags: seq<Tag>, parts: seq<Value>, field: Field, k: nat, v: Value, rest: seq<Field>)
    requires FitAll(tags, parts) && k < |tags| && Find(tags, field.key) == k
    requires DecodeInto(tags[k].schema, parts[k], field.value) == Some(v)
    ensures FitAll(tags, parts[k := v])
    ensures DecodeFields(tags, parts, [field] + rest) == DecodeFields(tags, parts[k := v], rest)
  {
    var all := [field] + rest;
    assert all[0] == field && all[1..] == rest;
  }

  lemma FindOwnKey(tags: seq<Tag>, k: nat)
    requires k < |tags|
    requires DifferentKeys(tags)
    ensures Find(tags, tags[k].key) == k
  {
    var f := FindExact(tags, tags[k].key);
    assert f <= k;
  }

  lemma EncodeSuffix(tags: seq<Tag>, parts: seq<Value>, k: nat)
    requires FitAll(tags, parts) && k < |tags|
    ensures FitAll(tags[k..], parts[k..]) && FitAll(tags[k + 1..], parts[k + 1..])
    ensures EncodeParts(tags[k..], parts[k..])
         == (if Omitted(tags[k].schema, parts[k]) then []
             else [Field(tags[k].key, Encode(tags[k].schema, parts[k]))])
            + EncodeParts(tags[k + 1..], parts[k + 1..])
  {
    assert tags[k..][1..] == tags[k + 1..] && parts[k..][1..] == parts[k + 1..];
  }

  lemma NextRead(tags: seq<Tag>, parts: seq<Value>, k: nat)
    requires FitAll(tags, parts) && k < |tags|
    ensures PartlyRead(tags, parts, k)[k] == Zero(tags[k].schema)
    ensures PartlyRead(tags, parts, k)[k := parts[k]] == PartlyRead(tags, parts, k + 1)
  {
  }

  /** With the first `k` fields already read, reading the rest completes the record. */
  lemma {:induction false} PartsRoundTrip(schema: Schema, parts: seq<Value>, k: nat)
    requires schema.Struct? && FitAll(schema.tags, parts) && DistinctKeys(schema)
    requires k <= |parts|
    ensures FitAll(schema.tags[k..], parts[k..])
    ensures DecodeFields(schema.tags, PartlyRead(schema.tags, parts, k),
                         EncodeParts(schema.tags[k..], parts[k..])) == Some(parts)
    decreases schema, 0, |parts| - k
  {
    if k == |parts| {
      assert PartlyRead(schema.tags, parts, k) == parts;
    } else {
      PartsRoundTrip(schema, parts, k + 1);
      var tag := schema.tags[k];
      assert Fits(tag.schema, parts[k]);
      if !Omitted(tag.schema, parts[k]) {
        RoundTrip(tag.schema, parts[k]);
      }
      NextField(schema.tags, parts, k);
    }
  }

  /** Reading from field `k` on is reading field `k` and then from field `k + 1` on. */
  lemma NextField(tags: seq<Tag>, parts: seq<Value>, k: nat)
    requires FitAll(tags, parts) && k < |tags| && DifferentKeys(tags)
    requires !Omitted(tags[k].schema, parts[k]) ==>
               DecodeInto(tags[k].schema, Zero(tags[k].schema), Encode(tags[k].schema, parts[k])) == Some(parts[k])
    ensures FitAll(tags[k..], parts[k..]) && FitAll(tags[k + 1..], parts[k + 1..])
    ensures DecodeFields(tags, PartlyRead(tags, parts, k), EncodeParts(tags[k..], parts[k..]))
         == DecodeFields(tags, PartlyRead(tags, parts, k + 1), EncodeParts(tags[k + 1..], parts[k + 1..]))
  {
    EncodeSuffix(tags, parts, k);
    NextRead(tags, parts, k);
    var current := PartlyRead(tags, parts, k);
    var rest := EncodeParts(tags[k + 1..], parts[k + 1..]);
    if Omitted(tags[k].schema, parts[k]) {
      assert current[k := parts[k]] == current;
      assert EncodeParts(tags[k..], parts[k..]) == rest;
    } else {
      var field := Field(tags[k].key, Encode(tags[k].schema, parts[k]));
      FindOwnKey(tags, k);
      ReadField(tags, current, field, k, parts[k], rest);
    }
  }
}
