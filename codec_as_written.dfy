/** The parts of eew.js `serialize`, `_getBytes` and the record loop of
    `deserialize` that cannot do what the wire format needs, modelled as
    they are written so that each discrepancy is shown on a concrete
    frame. The rest of the model uses the corrected definitions in
    `Codec` and `Varints`. */
module CodecAsWritten {
  import opened Support
  import opened Varints
  import opened Codec
  import opened RoundTrip

  /** `String(object)` for a plain object, as UTF-8: "[object Object]". */
  const ObjectText: seq<byte> := [91, 111, 98, 106, 101, 99, 116, 32, 79, 98, 106, 101, 99, 116, 93]

  /** The type names the record branch compares property values with. */
  const StringWord: seq<byte> := [115, 116, 114, 105, 110, 103]
  const NumberWord: seq<byte> := [110, 117, 109, 98, 101, 114]
  const BooleanWord: seq<byte> := [98, 111, 111, 108, 101, 97, 110]

  /** One element of `data` as `serialize` writes it: a double reaches an
      expression that names undeclared variables, a byte run is written
      without its length, and a record goes through the property branch
      below. */
  function EncodeValueAsWritten(v: Value): (r: Result<seq<byte>>)
  {
    match v
    case Double(_) => Err(ReferenceError)
    case Bytes(d) => Ok([TagBytes] + d)
    case Record(fields) => Then([TagRecordStart], Join(FieldsAsWritten(fields), Ok([TagRecordEnd])))
    case Undefined => Ok([TagRecordStart, TagRecordEnd])
    case _ => Ok(EncodeScalar(v))
  }

  /** The properties of a record as the property branch writes them: it
      switches on the property's value instead of its type, so only the
      three type names match a case, and each case encodes the whole
      record object rather than the property. */
  function FieldAsWritten(f: Field): (r: Result<seq<byte>>)
  {
    var key := Varint(|f.key|) + f.key;
    if f.value == Str(StringWord) then Ok([TagString] + Varint(|ObjectText|) + ObjectText + key)
    // `object % 1` is NaN, so the double branch runs after writing its tag
    else if f.value == Str(NumberWord) then Err(ReferenceError)
    // an object is truthy
    else if f.value == Str(BooleanWord) then Ok([TagTrue] + key)
    // the record itself is not a Uint8Array
    else Err(Unserializable)
  }

  function FieldsAsWritten(fields: seq<Field>): (r: Result<seq<byte>>)
  {
    if |fields| == 0 then Ok([])
    else Join(FieldAsWritten(fields[0]), FieldsAsWritten(fields[1..]))
  }

  /** A one-byte run written as `serialize` writes it reads back empty:
      its byte is taken for the length of a run that is not there. The
      corrected encoder's run reads back whole. */
  lemma BytesLoseTheirLength()
    ensures EncodeValueAsWritten(Bytes([1])) == Ok([6, 1])
    ensures DecodeFrame([0, 0, 6, 1]) == Ok(Frame(Some(0), 0, [Bytes([])]))
    ensures EncodeFrame(0, 0, [Bytes([1])]).Ok?
    ensures DecodeFrame(EncodeFrame(0, 0, [Bytes([1])]).value) == Ok(Frame(Some(0), 0, [Bytes([1])]))
  {
    var buf: seq<byte> := [0, 0, 6, 1];
    assert [TagBytes] + [1 as byte] == [6, 1];
    assert ParseVarint(buf, 1) == Ok((0, 2));
    assert ParseBytes(buf, 3) == Ok(([], 5));
    assert DecodeValue(buf, 2) == Ok((Some(Bytes([])), 5));
    var none: seq<Value> := [];
    assert none + [Bytes([])] == [Bytes([])];
    assert DecodeValues(buf, 2, none) == DecodeValues(buf, 5, [Bytes([])]);
    assert ValuesEncodable([Bytes([1])]) by {
      assert ValuesEncodable([Bytes([1])][1..]);
    }
    FrameRoundTrip(0, 0, [Bytes([1])]);
  }

  /** A record with one integer property makes `serialize` throw, where
      the corrected encoder writes it and reads it back. */
  lemma RecordPropertyRejected()
    ensures EncodeValueAsWritten(Record([Field([97], Int(1))])) == Err(Unserializable)
    ensures EncodeFrame(0, 0, [Record([Field([97], Int(1))])]).Ok?
    ensures DecodeFrame(EncodeFrame(0, 0, [Record([Field([97], Int(1))])]).value)
         == Ok(Frame(Some(0), 0, [Record([Field([97], Int(1))])]))
  {
    var record := Record([Field([97], Int(1))]);
    assert FieldsAsWritten([Field([97], Int(1))]) == Err(Unserializable);
    assert ValuesEncodable([record]) by {
      assert FieldsEncodable(record.fields) by {
        assert FieldsEncodable(record.fields[1..]);
      }
      assert ValuesEncodable([record][1..]);
    }
    FrameRoundTrip(0, 0, [record]);
  }

  /** Every double makes `serialize` throw, where the corrected encoder
      writes its eight bytes and reads them back. */
  lemma DoubleRejected(bits: Float64)
    ensures EncodeValueAsWritten(Double(bits)) == Err(ReferenceError)
    ensures EncodeFrame(0, 0, [Double(bits)]).Ok?
    ensures DecodeFrame(EncodeFrame(0, 0, [Double(bits)]).value) == Ok(Frame(Some(0), 0, [Double(bits)]))
  {
    assert ValuesEncodable([Double(bits)]) by {
      assert ValuesEncodable([Double(bits)][1..]);
    }
    FrameRoundTrip(0, 0, [Double(bits)]);
  }

  /** `_getBytes` as written: the cursor moves by the length read, which
      the 32-bit reader can return negative. */
  function ParseBytesAsWritten(buf: seq<byte>, i: nat): (r: Result<(seq<byte>, int)>)
  {
    match ParseVarint(buf, i)
    case Err(e) => Err(e)
    case Ok((len, j)) => Ok((Slice(buf, j, j + len), j + len))
  }

  /** A byte run whose five-byte length reads as -6 puts the cursor back
      on its own tag, so the `while` loop of `deserialize` reads the same
      value forever. The corrected decoder rejects the frame. */
  lemma NegativeLengthLoops()
    ensures ParseBytesAsWritten([0, 0, 6, 250, 255, 255, 255, 15], 3) == Ok(([], 2))
    ensures DecodeFrame([0, 0, 6, 250, 255, 255, 255, 15]) == Err(NegativeLength)
  {
    var buf: seq<byte> := [0, 0, 6, 250, 255, 255, 255, 15];
    assert Groups(buf, 7, 4) == Ok((15, 8));
    assert Groups(buf, 3, 0) == Ok((0xFFFF_FFFA, 8));
    assert ParseVarint(buf, 3) == Ok((-6, 8));
    assert ParseVarint(buf, 1) == Ok((0, 2));
    assert DecodeValue(buf, 2) == Err(NegativeLength);
  }

  /** The record loop of `deserialize` as written, run for at most `fuel`
      turns from the pattern byte at `i`: the cursor after the closing
      tag 8, or None while the loop is still running. Past the end of the
      frame `binary[i]` is undefined, which is not 8. Property values and
      keys are read with the decoder's readers. */
  function RecordLoopAsWritten(buf: seq<byte>, i: nat, fuel: nat): (r: Result<Option<nat>>)
    decreases fuel
  {
    if fuel == 0 then Ok(None)
    else if i < |buf| && buf[i] == TagRecordEnd then Ok(Some(i + 1))
    else
      var value := if i < |buf| then FieldValue(buf, buf[i], i + 1) else Ok((Undefined, i + 1));
      match value
      case Err(e) => Err(e)
      case Ok((_, j)) =>
        match ParseBytes(buf, j)
        case Err(e) => Err(e)
        case Ok((_, next)) => RecordLoopAsWritten(buf, next, fuel - 1)
  }

  /** A record still open at the end of the frame never closes: every
      turn past the end reads an undefined pattern and an empty key and
      moves on by two. The corrected decoder rejects it. */
  lemma {:induction false} UnterminatedRecordLoops(buf: seq<byte>, i: nat, fuel: nat)
    requires i >= |buf|
    ensures RecordLoopAsWritten(buf, i, fuel) == Ok(None)
    ensures DecodeRecord(buf, i, []) == Err(UnterminatedRecord)
    decreases fuel
  {
    if fuel > 0 {
      assert Groups(buf, i + 1, 0) == Ok((0, i + 2));
      assert ParseBytes(buf, i + 1) == Ok(([], i + 2));
      UnterminatedRecordLoops(buf, i + 2, fuel - 1);
    }
  }
}
