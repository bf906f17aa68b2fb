/** The tagged-value layer of the wire codec (eew.js `serialize` and
    `deserialize`): a frame is a scope byte, the message type, then one
    tagged value after another. */
module Codec {
  import opened Support
  import opened Varints

  const TagString: byte := 0
  const TagPositive: byte := 1
  const TagNegative: byte := 2
  const TagDouble: byte := 3
  const TagFalse: byte := 4
  const TagTrue: byte := 5
  const TagBytes: byte := 6
  const TagRecordStart: byte := 7
  const TagRecordEnd: byte := 8

  /** The eight little-endian bytes of an IEEE 754 double, kept opaque. */
  type Float64 = s: seq<byte> | |s| == 8 witness [0, 0, 0, 0, 0, 0, 0, 0]

  /** A JavaScript value as it travels through a frame. Strings are kept
      as their UTF-8 bytes; `Undefined` is what a record field with an
      unrecognised tag, or a read past the end of a list, yields. */
  datatype Value =
    | Str(utf8: seq<byte>)
    | Int(n: int)
    | Double(bits: Float64)
    | Bool(b: bool)
    | Bytes(data: seq<byte>)
    | Record(fields: seq<Field>)
    | Undefined
  {
    /** A value with a one-tag encoding, the only kind a record may hold. */
    predicate IsScalar()
    {
      !Record? && !Undefined?
    }
  }

  /** One own property of a record, in the object's property order. */
  datatype Field = Field(key: seq<byte>, value: Value)

  /** What `deserialize` returns: `binary[0]` (absent for an empty
      frame), the varint type, and the values in wire order. */
  datatype Frame = Frame(scope: Option<byte>, messageType: int, data: seq<Value>)

  // ---------------------------------------------------------------------
  // Records as JavaScript objects

  /** The index of the property named `key`, if the object has one. */
  function KeyIndex(fields: seq<Field>, key: seq<byte>): (r: Option<nat>)
    ensures r.Some? ==> r.value < |fields| && fields[r.value].key == key
                        && forall j :: 0 <= j < r.value ==> fields[j].key != key
    ensures r.None? ==> forall j :: 0 <= j < |fields| ==> fields[j].key != key
  {
    if |fields| == 0 then None
    else if fields[0].key == key then Some(0)
    else match KeyIndex(fields[1..], key)
      case None => None
      case Some(k) => Some(k + 1)
  }

  /** `object[key]`, absent when the object has no such property. */
  function Lookup(fields: seq<Field>, key: seq<byte>): Option<Value>
  {
    match KeyIndex(fields, key)
    case None => None
    case Some(k) => Some(fields[k].value)
  }

  /** `object[key] = value`: an existing property keeps its place and
      takes the new value, a new one is added last. */
  function Assign(fields: seq<Field>, key: seq<byte>, value: Value): (r: seq<Field>)
    ensures KeyIndex(fields, key).Some? ==> |r| == |fields|
    ensures KeyIndex(fields, key).None? ==> r == fields + [Field(key, value)]
  {
    match KeyIndex(fields, key)
    case None => fields + [Field(key, value)]
    case Some(k) => fields[k := Field(key, value)]
  }

  /** No two properties share a key. */
  ghost predicate DistinctKeys(fields: seq<Field>)
  {
    forall i, j :: 0 <= i < j < |fields| ==> KeyOf(fields, i) != KeyOf(fields, j)
  }

  function KeyOf(fields: seq<Field>, i: nat): seq<byte>
    requires i < |fields|
  {
    fields[i].key
  }

  /** After `object[key] = value` the property reads back as `value`, every
      other property is unchanged, and no key appears twice. */
  lemma AssignLookup(fields: seq<Field>, key: seq<byte>, value: Value, other: seq<byte>)
    requires DistinctKeys(fields)
    ensures Lookup(Assign(fields, key, value), key) == Some(value)
    ensures other != key ==> Lookup(Assign(fields, key, value), other) == Lookup(fields, other)
    ensures DistinctKeys(Assign(fields, key, value))
  {
    var r := Assign(fields, key, value);
    match KeyIndex(fields, key)
    case None =>
      KeyIndexAppend(fields, Field(key, value), key);
      KeyIndexAppend(fields, Field(key, value), other);
      forall i, j | 0 <= i < j < |r| ensures KeyOf(r, i) != KeyOf(r, j) {
        if j < |fields| {
          assert KeyOf(r, i) == KeyOf(fields, i) && KeyOf(r, j) == KeyOf(fields, j);
        } else {
          assert KeyOf(r, i) == fields[i].key;
        }
      }
    case Some(k) =>
      forall i, j | 0 <= i < j < |r| ensures KeyOf(r, i) != KeyOf(r, j) {
        assert KeyOf(r, i) == KeyOf(fields, i) && KeyOf(r, j) == KeyOf(fields, j);
      }
      assert KeyIndex(r, key) == Some(k) by { KeyIndexUnique(r, key, k); }
      match KeyIndex(fields, other)
      case None =>
        assert KeyIndex(r, other).None?;
      case Some(m) =>
        if other != key {
          assert m != k;
          KeyIndexUnique(r, other, m);
        }
  }

  lemma {:induction false} KeyIndexAppend(fields: seq<Field>, f: Field, key: seq<byte>)
    requires KeyIndex(fields, f.key).None?
    ensures KeyIndex(fields + [f], key) == if KeyIndex(fields, key).Some? then KeyIndex(fields, key)
                                           else if key == f.key then Some(|fields|) else None
  {
    if |fields| > 0 {
      assert (fields + [f])[1..] == fields[1..] + [f];
      if fields[0].key != key {
        KeyIndexAppend(fields[1..], f, key);
      }
    }
  }

  lemma KeyIndexUnique(fields: seq<Field>, key: seq<byte>, k: nat)
    requires k < |fields| && fields[k].key == key
    requires forall j :: 0 <= j < k ==> fields[j].key != key
    ensures KeyIndex(fields, key) == Some(k)
  {
    match KeyIndex(fields, key)
    case None =>
    case Some(m) =>
  }

  // ---------------------------------------------------------------------
  // Encoding

  /** The tag and payload `serialize` writes for a value with a one-tag
      encoding: strings and byte runs behind their varint length, integers
      split by sign into tag 1 or 2 and the varint of the magnitude, the
      double's eight bytes, and booleans as bare tags 5 and 4. */
  function EncodeScalar(v: Value): (r: seq<byte>)
    requires v.IsScalar()
    ensures |r| >= 1 && r[0] <= TagBytes
  {
    match v
    case Str(s) => [TagString] + (Varint(|s|) + s)
    case Int(n) => if n >= 0 then [TagPositive] + Varint(n) else [TagNegative] + Varint(-n)
    case Double(bits) => [TagDouble] + bits
    case Bool(b) => if b then [TagTrue] else [TagFalse]
    case Bytes(d) => [TagBytes] + (Varint(|d|) + d)
  }

  /** A record property: its value, then its key as a length-prefixed run.
      A property that is itself a record, or undefined, makes `serialize`
      throw. */
  function EncodeField(f: Field): (r: Result<seq<byte>>)
    ensures r.Err? ==> r.fault == Unserializable
  {
    if f.value.IsScalar() then Ok(EncodeScalar(f.value) + (Varint(|f.key|) + f.key))
    else Err(Unserializable)
  }

  /** `prefix` followed by the bytes of `rest`, or the fault of `rest`. */
  function Then(prefix: seq<byte>, rest: Result<seq<byte>>): Result<seq<byte>>
  {
    match rest
    case Ok(b) => Ok(prefix + b)
    case Err(e) => Err(e)
  }

  /** Two encodings one after the other; the first fault wins. */
  function Join(first: Result<seq<byte>>, rest: Result<seq<byte>>): Result<seq<byte>>
  {
    match first
    case Ok(a) => Then(a, rest)
    case Err(e) => Err(e)
  }

  function EncodeFields(fields: seq<Field>): (r: Result<seq<byte>>)
    ensures r.Err? ==> r.fault == Unserializable
  {
    if |fields| == 0 then Ok([])
    else Join(EncodeField(fields[0]), EncodeFields(fields[1..]))
  }

  /** The bytes of one element of a frame's data. Anything that is neither
      a primitive nor a byte run is written as a record between tags 7 and
      8; `undefined` has no properties, so it is an empty record. */
  function EncodeValue(v: Value): (r: Result<seq<byte>>)
    ensures r.Err? ==> r.fault == Unserializable
  {
    match v
    case Record(fields) => Then([TagRecordStart], Join(EncodeFields(fields), Ok([TagRecordEnd])))
    case Undefined => Ok([TagRecordStart, TagRecordEnd])
    case _ => Ok(EncodeScalar(v))
  }

  function EncodeValues(vs: seq<Value>): (r: Result<seq<byte>>)
    ensures r.Err? ==> r.fault == Unserializable
  {
    if |vs| == 0 then Ok([])
    else Join(EncodeValue(vs[0]), EncodeValues(vs[1..]))
  }

  /** `serialize(scope, type, data)`: the scope byte, the type stored with
      `setUint8` (so reduced modulo 256), then the values. */
  function EncodeFrame(scope: byte, messageType: int, data: seq<Value>): (r: Result<seq<byte>>)
    ensures r.Err? ==> r.fault == Unserializable
  {
    Then([scope, (messageType % 256) as byte], EncodeValues(data))
  }

  // ---------------------------------------------------------------------
  // Decoding

  /** The payload of a tag-0..6 value whose tag byte has been consumed,
      read at cursor `i`: the value and the cursor after it. Tag 2 negates
      the magnitude it reads; a double past the end of the frame makes
      `getFloat64` throw. */
  function DecodeScalar(buf: seq<byte>, tag: byte, i: nat): (r: Result<(Value, nat)>)
    requires tag <= TagBytes
    ensures r.Ok? ==> i <= r.value.1 && r.value.0.IsScalar()
  {
    if tag == TagString || tag == TagBytes then
      match ParseBytes(buf, i)
      case Ok((run, next)) => Ok((if tag == TagString then Str(run) else Bytes(run), next))
      case Err(e) => Err(e)
    else if tag == TagPositive || tag == TagNegative then
      match ParseVarint(buf, i)
      case Ok((n, next)) => Ok((Int(if tag == TagPositive then n else -n), next))
      case Err(e) => Err(e)
    else if tag == TagDouble then
      if i + 8 <= |buf| then Ok((Double(buf[i..i + 8]), i + 8)) else Err(OutOfRange)
    else Ok((Bool(tag == TagTrue), i))
  }

  /** The value of a record property with pattern byte `pattern`: tags
      0..6 as at the top level, any other pattern leaves it undefined and
      consumes nothing. */
  function FieldValue(buf: seq<byte>, pattern: byte, i: nat): (r: Result<(Value, nat)>)
    ensures r.Ok? ==> i <= r.value.1
    ensures pattern > TagBytes ==> r == Ok((Undefined, i))
  {
    if pattern <= TagBytes then DecodeScalar(buf, pattern, i) else Ok((Undefined, i))
  }

  /** One record property from its pattern byte at `i`: the value, then
      the key as a length-prefixed run. */
  function DecodeField(buf: seq<byte>, i: nat): (r: Result<(Field, nat)>)
    requires i < |buf|
    ensures r.Ok? ==> i < r.value.1
  {
    match FieldValue(buf, buf[i], i + 1)
    case Err(e) => Err(e)
    case Ok((value, j)) =>
      match ParseBytes(buf, j)
      case Err(e) => Err(e)
      case Ok((key, next)) => Ok((Field(key, value), next))
  }

  /** The rest of a record whose properties so far are `fields`, from the
      pattern byte at `i`: properties until a tag 8, each stored with
      `object[key] = value`. A frame that ends before the tag 8 is
      rejected (see Findings: the source reads on forever). */
  function DecodeRecord(buf: seq<byte>, i: nat, fields: seq<Field>): (r: Result<(Value, nat)>)
    ensures r.Ok? ==> i < r.value.1 && r.value.0.Record?
    decreases |buf| - i
  {
    if i >= |buf| then Err(UnterminatedRecord)
    else if buf[i] == TagRecordEnd then Ok((Record(fields), i + 1))
    else
      match DecodeField(buf, i)
      case Err(e) => Err(e)
      case Ok((f, next)) => DecodeRecord(buf, next, Assign(fields, f.key, f.value))
  }

  /** One step of the top-level loop at a cursor inside the frame: the
      value that the tag at `i` introduces, or nothing for a tag outside
      0..7, and the cursor after it. */
  function DecodeValue(buf: seq<byte>, i: nat): (r: Result<(Option<Value>, nat)>)
    requires i < |buf|
    ensures r.Ok? ==> i < r.value.1
  {
    var tag := buf[i];
    if tag <= TagBytes then
      match DecodeScalar(buf, tag, i + 1)
      case Ok((v, next)) => Ok((Some(v), next))
      case Err(e) => Err(e)
    else if tag == TagRecordStart then
      match DecodeRecord(buf, i + 1, [])
      case Ok((v, next)) => Ok((Some(v), next))
      case Err(e) => Err(e)
    else Ok((None, i + 1))
  }

  /** The values from cursor `i` to the end of the frame, after those
      already in `acc`. */
  function DecodeValues(buf: seq<byte>, i: nat, acc: seq<Value>): (r: Result<seq<Value>>)
    decreases |buf| - i
  {
    if i >= |buf| then Ok(acc)
    else
      match DecodeValue(buf, i)
      case Err(e) => Err(e)
      case Ok((item, next)) =>
        DecodeValues(buf, next, if item.Some? then acc + [item.value] else acc)
  }

  /** `deserialize(buffer)`: the scope is byte 0, the type a varint from
      byte 1, and the values follow it up to the end of the frame. */
  function DecodeFrame(buf: seq<byte>): (r: Result<Frame>)
  {
    match ParseVarint(buf, 1)
    case Err(e) => Err(e)
    case Ok((messageType, next)) =>
      match DecodeValues(buf, next, [])
      case Err(e) => Err(e)
      case Ok(data) => Ok(Frame(if |buf| > 0 then Some(buf[0]) else None, messageType, data))
  }

  // ---------------------------------------------------------------------
  // Properties of the decoder

  /** A tag byte above 7 at the top level is consumed and yields no value. */
  lemma UnknownTagSkipped(buf: seq<byte>, i: nat, acc: seq<Value>)
    requires i < |buf| && buf[i] > TagRecordStart
    ensures DecodeValues(buf, i, acc) == DecodeValues(buf, i + 1, acc)
  {
    assert DecodeValue(buf, i) == Ok((None, i + 1));
  }

  /** The record loop never produces two properties with the same key. */
  lemma {:induction false} DecodeRecordDistinct(buf: seq<byte>, i: nat, fields: seq<Field>)
    requires DistinctKeys(fields)
    ensures DecodeRecord(buf, i, fields).Ok? ==> DistinctKeys(DecodeRecord(buf, i, fields).value.0.fields)
    decreases |buf| - i
  {
    if i < |buf| && buf[i] != TagRecordEnd {
      match DecodeField(buf, i)
      case Err(_) =>
      case Ok((f, next)) =>
        AssignLookup(fields, f.key, f.value, f.key);
        DecodeRecordDistinct(buf, next, Assign(fields, f.key, f.value));
    }
  }

  /** The properties of a record from the pattern byte at `i` up to the
      closing tag 8, in wire order and with repeated keys kept. */
  function RecordPairs(buf: seq<byte>, i: nat): (r: Result<seq<Field>>)
    ensures r.Ok? ==> |r.value| < |buf| - i
    decreases |buf| - i
  {
    if i >= |buf| then Err(UnterminatedRecord)
    else if buf[i] == TagRecordEnd then Ok([])
    else
      match DecodeField(buf, i)
      case Err(e) => Err(e)
      case Ok((f, next)) =>
        match RecordPairs(buf, next)
        case Err(e) => Err(e)
        case Ok(rest) => Ok([f] + rest)
  }

  /** `object[key] = value` for each property in turn. */
  function AssignAll(fields: seq<Field>, pairs: seq<Field>): seq<Field>
    decreases |pairs|
  {
    if |pairs| == 0 then fields
    else AssignAll(Assign(fields, pairs[0].key, pairs[0].value), pairs[1..])
  }

  /** The position of the last property holding `key`, if one does. */
  function LastIndex(pairs: seq<Field>, key: seq<byte>): (r: Option<nat>)
    ensures r.Some? ==> r.value < |pairs| && pairs[r.value].key == key
                        && forall j :: r.value < j < |pairs| ==> pairs[j].key != key
    ensures r.None? ==> forall j :: 0 <= j < |pairs| ==> pairs[j].key != key
  {
    if |pairs| == 0 then None
    else match LastIndex(pairs[1..], key)
      case Some(k) => Some(k + 1)
      case None => if pairs[0].key == key then Some(0) else None
  }

  /** The record loop stores the properties of the wire, in order, into
      the object it started from, and fails exactly when they cannot be
      read. */
  lemma {:induction false} DecodeRecordPairs(buf: seq<byte>, i: nat, fields: seq<Field>)
    ensures DecodeRecord(buf, i, fields).Ok? <==> RecordPairs(buf, i).Ok?
    ensures DecodeRecord(buf, i, fields).Ok? ==>
              DecodeRecord(buf, i, fields).value.0 == Record(AssignAll(fields, RecordPairs(buf, i).value))
    decreases |buf| - i
  {
    if i < |buf| && buf[i] != TagRecordEnd {
      match DecodeField(buf, i)
      case Err(_) =>
      case Ok((f, next)) =>
        DecodeRecordPairs(buf, next, Assign(fields, f.key, f.value));
        if RecordPairs(buf, next).Ok? {
          var rest := RecordPairs(buf, next).value;
          assert ([f] + rest)[0] == f && ([f] + rest)[1..] == rest;
        }
    }
  }

  /** After each property is assigned in turn, a key reads back as the
      value of its last property, or as before when no property holds it,
      and no key appears twice. */
  lemma {:induction false} AssignAllLookup(fields: seq<Field>, pairs: seq<Field>, key: seq<byte>)
    requires DistinctKeys(fields)
    ensures DistinctKeys(AssignAll(fields, pairs))
    ensures Lookup(AssignAll(fields, pairs), key)
         == (match LastIndex(pairs, key) case Some(j) => Some(pairs[j].value) case None => Lookup(fields, key))
    decreases |pairs|
  {
    if |pairs| > 0 {
      var p := pairs[0];
      AssignLookup(fields, p.key, p.value, key);
      AssignAllLookup(Assign(fields, p.key, p.value), pairs[1..], key);
    }
  }

  /** Assigning a property never moves a key the object already holds. */
  lemma AssignKeepsPlace(fields: seq<Field>, k: seq<byte>, v: Value, key: seq<byte>)
    requires KeyIndex(fields, key).Some?
    ensures KeyIndex(Assign(fields, k, v), key) == KeyIndex(fields, key)
  {
    var m := KeyIndex(fields, key).value;
    var r := Assign(fields, k, v);
    match KeyIndex(fields, k)
    case None =>
      KeyIndexAppend(fields, Field(k, v), key);
    case Some(n) =>
      assert forall j :: 0 <= j < |r| ==> r[j].key == fields[j].key;
      KeyIndexUnique(r, key, m);
  }

  lemma {:induction false} AssignAllKeepsPlace(fields: seq<Field>, pairs: seq<Field>, key: seq<byte>)
    requires KeyIndex(fields, key).Some?
    ensures KeyIndex(AssignAll(fields, pairs), key) == KeyIndex(fields, key)
    decreases |pairs|
  {
    if |pairs| > 0 {
      AssignKeepsPlace(fields, pairs[0].key, pairs[0].value, key);
      AssignAllKeepsPlace(Assign(fields, pairs[0].key, pairs[0].value), pairs[1..], key);
    }
  }

  /** A key held neither by the object nor by any property stays absent. */
  lemma {:induction false} AssignAllAbsent(fields: seq<Field>, pairs: seq<Field>, key: seq<byte>)
    requires KeyIndex(fields, key).None?
    requires forall j :: 0 <= j < |pairs| ==> pairs[j].key != key
    ensures KeyIndex(AssignAll(fields, pairs), key).None?
    decreases |pairs|
  {
    if |pairs| > 0 {
      var p := pairs[0];
      var r := Assign(fields, p.key, p.value);
      if KeyIndex(fields, p.key).None? {
        KeyIndexAppend(fields, p, key);
      } else {
        assert forall j :: 0 <= j < |r| ==> r[j].key == fields[j].key;
      }
      AssignAllAbsent(r, pairs[1..], key);
    }
  }

  lemma {:induction false} AssignAllSplit(fields: seq<Field>, pairs: seq<Field>, n: nat)
    requires n <= |pairs|
    ensures AssignAll(fields, pairs) == AssignAll(AssignAll(fields, pairs[..n]), pairs[n..])
    decreases n
  {
    if n == 0 {
      assert pairs[..0] == [] && pairs[0..] == pairs;
    } else {
      assert pairs[..n][0] == pairs[0] && pairs[..n][1..] == pairs[1..][..n - 1];
      assert pairs[n..] == pairs[1..][n - 1..];
      AssignAllSplit(Assign(fields, pairs[0].key, pairs[0].value), pairs[1..], n - 1);
    }
  }

  /** A key the object did not hold is added at its first property, after
      every key set before it, and later properties never move it. */
  lemma AssignAllFirstPlace(fields: seq<Field>, pairs: seq<Field>, key: seq<byte>)
    requires KeyIndex(fields, key).None? && KeyIndex(pairs, key).Some?
    ensures KeyIndex(AssignAll(fields, pairs), key)
         == Some(|AssignAll(fields, pairs[..KeyIndex(pairs, key).value])|)
  {
    var f := KeyIndex(pairs, key).value;
    var before := AssignAll(fields, pairs[..f]);
    AssignAllSplit(fields, pairs, f);
    AssignAllAbsent(fields, pairs[..f], key);
    var rest := pairs[f..];
    var field := Field(key, rest[0].value);
    assert rest[0] == field;
    var placed := Assign(before, key, rest[0].value);
    assert placed == before + [field];
    KeyIndexAppend(before, field, key);
    AssignAllKeepsPlace(placed, rest[1..], key);
  }

  /** A key repeated in a record takes the value of its last property and
      keeps the place of its first; a key no property holds is absent. */
  lemma RepeatedKeyLastWins(buf: seq<byte>, i: nat, key: seq<byte>)
    requires DecodeRecord(buf, i, []).Ok?
    ensures RecordPairs(buf, i).Ok?
    ensures var fields := DecodeRecord(buf, i, []).value.0.fields;
            var pairs := RecordPairs(buf, i).value;
      && fields == AssignAll([], pairs)
      && Lookup(fields, key) == (match LastIndex(pairs, key) case Some(j) => Some(pairs[j].value) case None => None)
      && (KeyIndex(pairs, key).Some? ==> KeyIndex(fields, key) == Some(|AssignAll([], pairs[..KeyIndex(pairs, key).value])|))
      && (KeyIndex(pairs, key).None? ==> KeyIndex(fields, key).None?)
  {
    DecodeRecordPairs(buf, i, []);
    var pairs := RecordPairs(buf, i).value;
    AssignAllLookup([], pairs, key);
    if KeyIndex(pairs, key).Some? {
      AssignAllFirstPlace([], pairs, key);
    } else {
      AssignAllAbsent([], pairs, key);
    }
  }

  // ---------------------------------------------------------------------
  // The imperative encoder and decoder, each proved against its function

  lemma ThenThen(a: seq<byte>, b: seq<byte>, rest: Result<seq<byte>>)
    ensures Then(a, Then(b, rest)) == Then(a + b, rest)
  {
    if rest.Ok? {
      assert a + (b + rest.value) == (a + b) + rest.value;
    }
  }

  /** The tag and payload of a one-tag value, appended to `out`. */
  method WriteScalar(out: seq<byte>, v: Value) returns (written: seq<byte>)
    requires v.IsScalar()
    ensures written == out + EncodeScalar(v)
  {
    match v
    case Str(s) => written := WriteRun(out, TagString, s);
    case Int(n) => written := WriteInt(out, n);
    case Double(bits) => written := WriteDouble(out, bits);
    case Bool(b) => written := out + [if b then TagTrue else TagFalse];
    case Bytes(d) => written := WriteRun(out, TagBytes, d);
  }

  /** An integer: tag 1 and its value, or tag 2 and its magnitude. */
  method WriteInt(out: seq<byte>, n: int) returns (written: seq<byte>)
    ensures written == out + EncodeScalar(Int(n))
  {
    var magnitude: nat := if n >= 0 then n else -n;
    var tag := if n >= 0 then TagPositive else TagNegative;
    written := WriteVarint(out + [tag], magnitude);
    assert written == out + ([tag] + Varint(magnitude));
  }

  /** A double: tag 3 and its eight bytes. */
  method WriteDouble(out: seq<byte>, bits: Float64) returns (written: seq<byte>)
    ensures written == out + EncodeScalar(Double(bits))
  {
    written := WriteBytes(out + [TagDouble], bits);
    assert written == out + ([TagDouble] + bits);
  }

  /** A tag, then a length-prefixed run, appended to `out`. */
  method WriteRun(out: seq<byte>, tag: byte, run: seq<byte>) returns (written: seq<byte>)
    ensures written == out + ([tag] + (Varint(|run|) + run))
  {
    var prefixed := WriteVarint(out + [tag], |run|);
    written := WriteBytes(prefixed, run);
    assert written == ((out + [tag]) + Varint(|run|)) + run;
  }

  /** One element of `data` appended to `out`: a record is written
      property by property between tags 7 and 8. */
  method WriteValue(out: seq<byte>, v: Value) returns (r: Result<seq<byte>>)
    ensures r == Then(out, EncodeValue(v))
  {
    if v.IsScalar() {
      var written := WriteScalar(out, v);
      return Ok(written);
    }
    var fields := if v.Record? then v.fields else [];
    assert [TagRecordStart] + ([] + [TagRecordEnd]) == [TagRecordStart, TagRecordEnd];
    assert EncodeValue(v) == Then([TagRecordStart], Join(EncodeFields(fields), Ok([TagRecordEnd])));
    ThenThen(out, [TagRecordStart], Join(EncodeFields(fields), Ok([TagRecordEnd])));
    var written := out + [TagRecordStart];
    for k := 0 to |fields|
      invariant Then(out, EncodeValue(v)) == Then(written, Join(EncodeFields(fields[k..]), Ok([TagRecordEnd])))
    {
      var f := fields[k];
      assert fields[k..][1..] == fields[k + 1..];
      if !f.value.IsScalar() {
        return Err(Unserializable);
      }
      var field := WriteField(written, f);
      JoinStep(written, EncodeField(f).value, EncodeFields(fields[k + 1..]));
      written := field;
    }
    assert fields[|fields|..] == [];
    assert written + ([] + [TagRecordEnd]) == written + [TagRecordEnd];
    return Ok(written + [TagRecordEnd]);
  }

  /** A property of a record: its value, then its key as a byte run. */
  method WriteField(out: seq<byte>, f: Field) returns (written: seq<byte>)
    requires f.value.IsScalar()
    ensures EncodeField(f).Ok? && written == out + EncodeField(f).value
  {
    written := WriteScalar(out, f.value);
    written := WriteVarint(written, |f.key|);
    written := WriteBytes(written, f.key);
    assert written == out + (EncodeScalar(f.value) + (Varint(|f.key|) + f.key));
  }

  lemma JoinStep(out: seq<byte>, first: seq<byte>, rest: Result<seq<byte>>)
    ensures Then(out, Join(Join(Ok(first), rest), Ok([TagRecordEnd])))
         == Then(out + first, Join(rest, Ok([TagRecordEnd])))
  {
    if rest.Ok? {
      assert out + (first + rest.value + [TagRecordEnd]) == (out + first) + (rest.value + [TagRecordEnd]);
    }
  }

  /** `serialize(scope, type, data)`: the scope byte, the type byte, then
      each element of `data` in turn; the first element that cannot be
      written makes the whole call throw. */
  method Serialize(scope: byte, messageType: int, data: seq<Value>) returns (r: Result<seq<byte>>)
    ensures r == EncodeFrame(scope, messageType, data)
  {
    var written: seq<byte> := [scope, (messageType % 256) as byte];
    for k := 0 to |data|
      invariant EncodeFrame(scope, messageType, data) == Then(written, EncodeValues(data[k..]))
    {
      assert data[k..][1..] == data[k + 1..];
      var next := WriteValue(written, data[k]);
      if next.Err? {
        return Err(next.fault);
      }
      ThenThen(written, EncodeValue(data[k]).value, EncodeValues(data[k + 1..]));
      written := next.value;
    }
    assert data[|data|..] == [];
    assert written + [] == written;
    return Ok(written);
  }

  /** The payload of a tag-0..6 value whose tag has been consumed. */
  method ReadScalar(buf: seq<byte>, tag: byte, i: nat) returns (r: Result<(Value, nat)>)
    requires tag <= TagBytes
    ensures r == DecodeScalar(buf, tag, i)
  {
    if tag == TagString || tag == TagBytes {
      var run := GetBytes(buf, i);
      match run
      case Ok((bytes, next)) =>
        return Ok((if tag == TagString then Str(bytes) else Bytes(bytes), next));
      case Err(e) =>
        return Err(e);
    } else if tag == TagPositive || tag == TagNegative {
      var n := ReadVarint(buf, i);
      match n
      case Ok((magnitude, next)) =>
        return Ok((Int(if tag == TagPositive then magnitude else -magnitude), next));
      case Err(e) =>
        return Err(e);
    } else if tag == TagDouble {
      if i + 8 > |buf| {
        return Err(OutOfRange);
      }
      return Ok((Double(buf[i..i + 8]), i + 8));
    }
    return Ok((Bool(tag == TagTrue), i));
  }

  /** The record loop of `deserialize`, from the first pattern byte at `i`:
      each property's value, then its key, stored with `object[key] =
      value`, until a tag 8. */
  method ReadRecord(buf: seq<byte>, i: nat) returns (r: Result<(Value, nat)>)
    ensures r == DecodeRecord(buf, i, [])
  {
    var fields: seq<Field> := [];
    var cursor := i;
    while true
      invariant DecodeRecord(buf, cursor, fields) == DecodeRecord(buf, i, [])
      decreases |buf| - cursor
    {
      if cursor >= |buf| {
        return Err(UnterminatedRecord);
      }
      var pattern := buf[cursor];
      if pattern == TagRecordEnd {
        return Ok((Record(fields), cursor + 1));
      }
      var value: Value := Undefined;
      var afterValue := cursor + 1;
      if pattern <= TagBytes {
        var scalar := ReadScalar(buf, pattern, cursor + 1);
        if scalar.Err? {
          return Err(scalar.fault);
        }
        value, afterValue := scalar.value.0, scalar.value.1;
      }
      var key := GetBytes(buf, afterValue);
      if key.Err? {
        return Err(key.fault);
      }
      fields := Assign(fields, key.value.0, value);
      cursor := key.value.1;
    }
  }

  /** `deserialize(buffer)`: byte 0 is the scope, a varint from byte 1 the
      type, and tagged values are read until the cursor reaches the end of
      the frame; an unrecognised tag is skipped. */
  method Deserialize(buf: seq<byte>) returns (r: Result<Frame>)
    ensures r == DecodeFrame(buf)
  {
    var scope := if |buf| > 0 then Some(buf[0]) else None;
    var header := ReadVarint(buf, 1);
    if header.Err? {
      return Err(header.fault);
    }
    var (messageType, start) := header.value;
    var data: seq<Value> := [];
    var cursor := start;
    while cursor < |buf|
      invariant DecodeValues(buf, cursor, data) == DecodeValues(buf, start, [])
      decreases |buf| - cursor
    {
      var tag := buf[cursor];
      if tag <= TagBytes {
        var scalar := ReadScalar(buf, tag, cursor + 1);
        if scalar.Err? {
          return Err(scalar.fault);
        }
        data, cursor := data + [scalar.value.0], scalar.value.1;
      } else if tag == TagRecordStart {
        var record := ReadRecord(buf, cursor + 1);
        if record.Err? {
          return Err(record.fault);
        }
        data, cursor := data + [record.value.0], record.value.1;
      } else {
        cursor := cursor + 1;
      }
    }
    return Ok(Frame(scope, messageType, data));
  }
}
