/** What the codec promises: every encodable frame that `serialize`
    writes, `deserialize` reads back unchanged. */
module RoundTrip {
  import opened Support
  import opened Varints
  import opened Codec

  /** A scalar the 32-bit reader gets back unchanged: integers strictly
      inside the signed 32-bit range, lengths below 2^31. */
  predicate ScalarEncodable(v: Value)
  {
    match v
    case Str(s) => |s| < Two31
    case Int(n) => -(Two31 as int) < n < Two31
    case Bytes(d) => |d| < Two31
    case Double(_) => true
    case Bool(_) => true
    case _ => false
  }

  ghost predicate FieldEncodable(f: Field)
  {
    ScalarEncodable(f.value) && |f.key| < Two31
  }

  ghost predicate FieldsEncodable(fields: seq<Field>)
  {
    |fields| == 0 || (FieldEncodable(fields[0]) && FieldsEncodable(fields[1..]))
  }

  /** A value that `serialize` writes and `deserialize` reads back as
      itself: a scalar the reader gets back, or a flat record with
      distinct keys. `undefined` is written as an empty record, so it is
      not read back as itself. */
  ghost predicate Encodable(v: Value)
  {
    if v.Record? then
      DistinctKeys(v.fields) && FieldsEncodable(v.fields)
    else ScalarEncodable(v)
  }

  ghost predicate ValuesEncodable(vs: seq<Value>)
  {
    |vs| == 0 || (Encodable(vs[0]) && ValuesEncodable(vs[1..]))
  }

  /** A list whose every element is encodable is encodable as a whole. */
  lemma {:induction false} AllEncodable(vs: seq<Value>)
    requires forall k :: 0 <= k < |vs| ==> Encodable(vs[k])
    ensures ValuesEncodable(vs)
  {
    if |vs| > 0 {
      AllEncodable(vs[1..]);
    }
  }

  lemma {:induction false} EncodeFieldsOk(fields: seq<Field>)
    requires FieldsEncodable(fields)
    ensures EncodeFields(fields).Ok?
  {
    if |fields| > 0 {
      EncodeFieldsOk(fields[1..]);
    }
  }

  lemma {:induction false} EncodeValuesOk(vs: seq<Value>)
    requires ValuesEncodable(vs)
    ensures EncodeValues(vs).Ok?
  {
    if |vs| > 0 {
      if vs[0].Record? {
        EncodeFieldsOk(vs[0].fields);
      }
      EncodeValuesOk(vs[1..]);
    }
  }

  // Each lemma below that speaks of the decoder names the cursor it
  // reaches (`end`) instead of computing it, and each lemma that computes
  // a cursor speaks only of where bytes lie.

  /** A scalar written at `i` reads back, tag and payload, as itself. */
  lemma ScalarRoundTrip(buf: seq<byte>, i: nat, v: Value, end: nat)
    requires ScalarEncodable(v) && At(buf, i, EncodeScalar(v)) && end == i + |EncodeScalar(v)|
    ensures i < |buf| && buf[i] <= TagBytes
    ensures DecodeScalar(buf, buf[i], i + 1) == Ok((v, end))
  {
    match v
    case Str(s) => RunRoundTrip(buf, i, TagString, s, end);
    case Bytes(d) => RunRoundTrip(buf, i, TagBytes, d, end);
    case Int(n) => IntRoundTrip(buf, i, n, end);
    case Double(bits) => DoubleRoundTrip(buf, i, bits, end);
    case Bool(b) => assert buf[i] == EncodeScalar(v)[0];
  }

  lemma RunRoundTrip(buf: seq<byte>, i: nat, tag: byte, run: seq<byte>, end: nat)
    requires tag == TagString || tag == TagBytes
    requires |run| < Two31 && At(buf, i, [tag] + (Varint(|run|) + run))
    requires end == i + 1 + |Varint(|run|)| + |run|
    ensures i < |buf| && buf[i] == tag
    ensures DecodeScalar(buf, tag, i + 1) == Ok((if tag == TagString then Str(run) else Bytes(run), end))
  {
    AtSplit(buf, i, [tag], Varint(|run|) + run);
    BytesRoundTrip(buf, i + 1, run, end);
  }

  lemma IntRoundTrip(buf: seq<byte>, i: nat, n: int, end: nat)
    requires -(Two31 as int) < n < Two31
    requires At(buf, i, EncodeScalar(Int(n))) && end == i + |EncodeScalar(Int(n))|
    ensures i < |buf| && buf[i] == EncodeScalar(Int(n))[0]
    ensures DecodeScalar(buf, buf[i], i + 1) == Ok((Int(n), end))
  {
    var m: nat := if n >= 0 then n else -n;
    var tag := if n >= 0 then TagPositive else TagNegative;
    assert EncodeScalar(Int(n)) == [tag] + Varint(m);
    AtSplit(buf, i, [tag], Varint(m));
    VarintRoundTrip(buf, i + 1, m, end);
  }

  lemma DoubleRoundTrip(buf: seq<byte>, i: nat, bits: Float64, end: nat)
    requires At(buf, i, EncodeScalar(Double(bits))) && end == i + 9
    ensures i < |buf| && buf[i] == TagDouble
    ensures DecodeScalar(buf, TagDouble, i + 1) == Ok((Double(bits), end))
  {
    AtSplit(buf, i, [TagDouble], bits);
  }

  /** One property of a record, written at `i`, is read back by one turn
      of the record loop. */
  lemma FieldRoundTrip(buf: seq<byte>, i: nat, f: Field, end: nat)
    requires FieldEncodable(f) && At(buf, i, EncodeField(f).value)
    requires end == i + |EncodeField(f).value|
    ensures i < |buf| && buf[i] != TagRecordEnd
    ensures DecodeField(buf, i) == Ok((f, end))
  {
    var j := i + |EncodeScalar(f.value)|;
    FieldLayout(buf, i, f, j, end);
    ScalarRoundTrip(buf, i, f.value, j);
    BytesRoundTrip(buf, j, f.key, end);
    ScalarField(buf, i, f.value, j);
    FieldStep(buf, i, f.value, j, f.key, end);
  }

  /** A property's value lies at `i` and its key right after, up to `end`. */
  lemma FieldLayout(buf: seq<byte>, i: nat, f: Field, j: nat, end: nat)
    requires f.value.IsScalar() && At(buf, i, EncodeField(f).value)
    requires j == i + |EncodeScalar(f.value)| && end == i + |EncodeField(f).value|
    ensures At(buf, i, EncodeScalar(f.value)) && At(buf, j, Varint(|f.key|) + f.key)
    ensures end == j + |Varint(|f.key|)| + |f.key|
  {
    AtSplit(buf, i, EncodeScalar(f.value), Varint(|f.key|) + f.key);
  }

  /** A property is its value at `i` followed by its key. */
  lemma FieldStep(buf: seq<byte>, i: nat, v: Value, j: nat, key: seq<byte>, end: nat)
    requires i < |buf| && buf[i] <= TagBytes
    requires FieldValue(buf, buf[i], i + 1) == Ok((v, j))
    requires ParseBytes(buf, j) == Ok((key, end))
    ensures DecodeField(buf, i) == Ok((Field(key, v), end))
  {
  }

  /** Under a pattern byte of 0..6 a property's value is read as at the
      top level. */
  lemma ScalarField(buf: seq<byte>, i: nat, v: Value, next: nat)
    requires i < |buf| && buf[i] <= TagBytes
    requires DecodeScalar(buf, buf[i], i + 1) == Ok((v, next))
    ensures FieldValue(buf, buf[i], i + 1) == Ok((v, next))
  {
  }

  /** One turn of the record loop reads property `f` with a fresh key and
      goes on after it. */
  lemma RecordTurn(buf: seq<byte>, i: nat, acc: seq<Field>, f: Field, next: nat, record: Value, end: nat)
    requires i < |buf| && buf[i] != TagRecordEnd && DecodeField(buf, i) == Ok((f, next))
    requires Assign(acc, f.key, f.value) == acc + [f]
    requires DecodeRecord(buf, next, acc + [f]) == Ok((record, end))
    ensures DecodeRecord(buf, i, acc) == Ok((record, end))
  {
  }

  lemma MoveHead<T>(acc: seq<T>, s: seq<T>)
    requires |s| > 0
    ensures (acc + [s[0]]) + s[1..] == acc + s
  {
  }

  /** A key that no earlier property has is added as the last property. */
  lemma AssignFresh(acc: seq<Field>, fields: seq<Field>)
    requires |fields| > 0 && DistinctKeys(acc + fields)
    ensures Assign(acc, fields[0].key, fields[0].value) == acc + [fields[0]]
  {
    assert forall j :: 0 <= j < |acc| ==> acc[j].key != fields[0].key by {
      forall j | 0 <= j < |acc|
        ensures acc[j].key != fields[0].key
      {
        assert KeyOf(acc + fields, j) != KeyOf(acc + fields, |acc|);
      }
    }
  }

  /** The encoding of properties followed by tag 8 is the first property,
      then the encoding of the rest followed by tag 8. */
  lemma FieldsLayout(buf: seq<byte>, i: nat, fields: seq<Field>, next: nat, end: nat)
    requires |fields| > 0 && FieldsEncodable(fields)
    requires EncodeFields(fields).Ok? && At(buf, i, EncodeFields(fields).value + [TagRecordEnd])
    requires next == i + |EncodeField(fields[0]).value| && end == i + |EncodeFields(fields).value| + 1
    ensures EncodeField(fields[0]).Ok? && EncodeFields(fields[1..]).Ok?
    ensures At(buf, i, EncodeField(fields[0]).value)
    ensures At(buf, next, EncodeFields(fields[1..]).value + [TagRecordEnd])
    ensures end == next + |EncodeFields(fields[1..]).value| + 1
  {
    FieldsBytes(fields);
    AtHead(buf, i, EncodeField(fields[0]).value, EncodeFields(fields[1..]).value, [TagRecordEnd], next, end);
  }

  lemma FieldsBytes(fields: seq<Field>)
    requires |fields| > 0 && FieldsEncodable(fields)
    ensures EncodeField(fields[0]).Ok? && EncodeFields(fields[1..]).Ok?
    ensures EncodeFields(fields).value == EncodeField(fields[0]).value + EncodeFields(fields[1..]).value
  {
    EncodeFieldsOk(fields[1..]);
  }

  /** Bytes `a`, `b`, `tail` in a row: `a` lies at `i`, the rest after it. */
  lemma AtHead(buf: seq<byte>, i: nat, a: seq<byte>, b: seq<byte>, tail: seq<byte>, next: nat, end: nat)
    requires At(buf, i, (a + b) + tail)
    requires next == i + |a| && end == i + |a + b| + |tail|
    ensures At(buf, i, a) && At(buf, next, b + tail) && end == next + |b| + |tail|
  {
    assert (a + b) + tail == a + (b + tail);
    AtSplit(buf, i, a, b + tail);
  }

  /** Encoded properties followed by tag 8 read back as a record that
      holds them after the properties already read (`whole` is all of
      them), in wire order. */
  lemma {:induction false} FieldsRoundTrip(buf: seq<byte>, i: nat, acc: seq<Field>, fields: seq<Field>, whole: seq<Field>, end: nat)
    requires whole == acc + fields && DistinctKeys(whole)
    requires FieldsEncodable(fields)
    requires EncodeFields(fields).Ok? && At(buf, i, EncodeFields(fields).value + [TagRecordEnd])
    requires end == i + |EncodeFields(fields).value| + 1
    ensures DecodeRecord(buf, i, acc) == Ok((Record(whole), end))
    decreases |fields|
  {
    if |fields| == 0 {
      assert buf[i] == ([TagRecordEnd])[0];
      assert whole == acc;
    } else {
      var f := fields[0];
      var next := i + |EncodeField(f).value|;
      FieldsLayout(buf, i, fields, next, end);
      FieldRoundTrip(buf, i, f, next);
      AssignFresh(acc, fields);
      MoveHead(acc, fields);
      FieldsRoundTrip(buf, next, acc + [f], fields[1..], whole, end);
      RecordTurn(buf, i, acc, f, next, Record(whole), end);
    }
  }

  /** A value written at `i` is the next value the top-level loop reads. */
  lemma ValueRoundTrip(buf: seq<byte>, i: nat, v: Value, end: nat)
    requires Encodable(v) && EncodeValue(v).Ok? && At(buf, i, EncodeValue(v).value)
    requires end == i + |EncodeValue(v).value|
    ensures i < |buf| && DecodeValue(buf, i) == Ok((Some(v), end))
  {
    if v.Record? {
      RecordLayout(buf, i, v.fields, end);
      RecordValueStep(buf, i, v.fields, end);
    } else {
      assert EncodeValue(v).value == EncodeScalar(v);
      ScalarRoundTrip(buf, i, v, end);
      ScalarValueStep(buf, i, v, end);
    }
  }

  /** A record's bytes are tag 7, its properties and tag 8. */
  lemma RecordLayout(buf: seq<byte>, i: nat, fields: seq<Field>, end: nat)
    requires EncodeValue(Record(fields)).Ok? && At(buf, i, EncodeValue(Record(fields)).value)
    requires end == i + |EncodeValue(Record(fields)).value|
    ensures EncodeFields(fields).Ok?
    ensures i < |buf| && buf[i] == TagRecordStart
    ensures At(buf, i + 1, EncodeFields(fields).value + [TagRecordEnd])
    ensures end == i + 1 + |EncodeFields(fields).value| + 1
  {
    var enc := EncodeFields(fields).value;
    assert EncodeValue(Record(fields)).value == [TagRecordStart] + (enc + [TagRecordEnd]);
    AtSplit(buf, i, [TagRecordStart], enc + [TagRecordEnd]);
    assert buf[i] == buf[i..i + 1][0];
  }

  /** At a record-start tag followed by encoded properties and tag 8 the
      top-level loop reads the whole record. */
  lemma RecordValueStep(buf: seq<byte>, i: nat, fields: seq<Field>, end: nat)
    requires i < |buf| && buf[i] == TagRecordStart
    requires DistinctKeys(fields) && FieldsEncodable(fields) && EncodeFields(fields).Ok?
    requires At(buf, i + 1, EncodeFields(fields).value + [TagRecordEnd])
    requires end == i + 1 + |EncodeFields(fields).value| + 1
    ensures DecodeValue(buf, i) == Ok((Some(Record(fields)), end))
  {
    assert [] + fields == fields;
    FieldsRoundTrip(buf, i + 1, [], fields, fields, end);
  }

  /** A scalar tag at `i` makes the top-level loop read one scalar. */
  lemma ScalarValueStep(buf: seq<byte>, i: nat, v: Value, end: nat)
    requires i < |buf| && buf[i] <= TagBytes
    requires DecodeScalar(buf, buf[i], i + 1) == Ok((v, end))
    ensures DecodeValue(buf, i) == Ok((Some(v), end))
  {
  }

  /** Encoded values that fill the frame to its end read back, in order,
      after the values already read. */
  lemma {:induction false} ValuesRoundTrip(buf: seq<byte>, i: nat, acc: seq<Value>, vs: seq<Value>)
    requires ValuesEncodable(vs)
    requires EncodeValues(vs).Ok? && At(buf, i, EncodeValues(vs).value)
    requires i + |EncodeValues(vs).value| == |buf|
    ensures DecodeValues(buf, i, acc) == Ok(acc + vs)
    decreases |vs|
  {
    if |vs| == 0 {
      assert acc + vs == acc;
    } else {
      var next := i + |EncodeValue(vs[0]).value|;
      ValuesLayout(buf, i, vs, next);
      ValueRoundTrip(buf, i, vs[0], next);
      assert (acc + [vs[0]]) + vs[1..] == acc + vs;
      ValuesRoundTrip(buf, next, acc + [vs[0]], vs[1..]);
      ValuesStep(buf, i, acc, vs[0], next, acc + vs);
    }
  }

  /** The encoding of values is the first value, then the rest. */
  lemma ValuesLayout(buf: seq<byte>, i: nat, vs: seq<Value>, next: nat)
    requires |vs| > 0 && EncodeValues(vs).Ok? && At(buf, i, EncodeValues(vs).value)
    requires i + |EncodeValues(vs).value| == |buf|
    requires next == i + |EncodeValue(vs[0]).value|
    ensures EncodeValue(vs[0]).Ok? && EncodeValues(vs[1..]).Ok?
    ensures At(buf, i, EncodeValue(vs[0]).value) && At(buf, next, EncodeValues(vs[1..]).value)
    ensures next + |EncodeValues(vs[1..]).value| == |buf|
  {
    AtSplit(buf, i, EncodeValue(vs[0]).value, EncodeValues(vs[1..]).value);
  }

  /** One turn of the top-level loop reads a value and goes on after it. */
  lemma ValuesStep(buf: seq<byte>, i: nat, acc: seq<Value>, v: Value, next: nat, all: seq<Value>)
    requires i < |buf| && DecodeValue(buf, i) == Ok((Some(v), next))
    requires DecodeValues(buf, next, acc + [v]) == Ok(all)
    ensures DecodeValues(buf, i, acc) == Ok(all)
  {
  }

  /** `deserialize(serialize(scope, type, data))` gives back the scope,
      the type and the data, for any type below 128 (a larger type does
      not fit the single byte the encoder gives it). */
  lemma FrameRoundTrip(scope: byte, messageType: int, data: seq<Value>)
    requires 0 <= messageType < 128
    requires ValuesEncodable(data)
    ensures EncodeFrame(scope, messageType, data).Ok?
    ensures DecodeFrame(EncodeFrame(scope, messageType, data).value) == Ok(Frame(Some(scope), messageType, data))
  {
    EncodeValuesOk(data);
    var enc := EncodeValues(data).value;
    var buf := [scope, messageType as byte] + enc;
    assert EncodeFrame(scope, messageType, data).value == buf;
    assert Varint(messageType) == [messageType as byte];
    AtEnd([scope], Varint(messageType) + enc);
    AtSplit(buf, 1, Varint(messageType), enc);
    VarintRoundTrip(buf, 1, messageType, 2);
    ValuesRoundTrip(buf, 2, [], data);
    assert [] + data == data;
  }

  /** A frame type above 127 does not survive: the encoder keeps one
      byte, and the decoder reads that byte as the start of a varint
      whose next group lies past the end of the frame. */
  lemma LargeTypeMisread()
    ensures EncodeFrame(1, 200, []) == Ok([1, 200])
    ensures DecodeFrame([1, 200]) == Ok(Frame(Some(1), 72, []))
  {
    var buf: seq<byte> := [1, 200];
    assert EncodeValues([]) == Ok([]);
    assert buf + [] == buf;
    assert Groups(buf, 2, 1) == Ok((0, 3));
    assert ParseVarint(buf, 1) == Ok((72, 3));
    assert DecodeValues(buf, 3, []) == Ok([]);
  }
}
