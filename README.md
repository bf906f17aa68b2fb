# EEW client core, modelled in Dafny

This project models the core of the Everybody Edits Universe JavaScript
client library (`eew.js`). The core has three parts.

- **The binary wire codec.** A frame is one scope byte, a message type,
  and a run of tagged values:
  - 0: string
  - 1: non-negative integer
  - 2: negative integer (the varint of its magnitude)
  - 3: double
  - 4: false
  - 5: true
  - 6: byte run
  - 7 … 8: a flat record of (value, key) properties

  Integers, lengths and the message type are base-128 varints, the same
  scheme as Protocol Buffers. Modules:
  - `Varints` (`varint.dfy`): `_writeVarint`, `_readVarint`, `_writeBytes`, `_getBytes`.
  - `Codec` (`codec.dfy`): `serialize` and `deserialize`.
  - `RoundTrip` (`roundtrip.dfy`): the proof that every encodable frame reads back unchanged.
  - `CodecAsWritten` (`codec_as_written.dfy`): the parts of the encoder and decoder that cannot work as written (see Findings).

  Each imperative routine is a Dafny `method` with its loop. It is proved
  equal to a pure specification function (`ReadVarint` = `ParseVarint`,
  `Serialize` = `EncodeFrame`, `Deserialize` = `DecodeFrame`, and so on).
  The properties are proved about those functions.
- **The positional message catalogue** (`Messages`, `messages.dfy`):
  - the place-block deserializer, which tells the extra block data apart by arity alone, and its inverse `RoomPlaceBlock.serialize` with `serializeTo`;
  - the three-at-a-time walk of `deserializeLobbyOnLoadRooms`;
  - the count-driven loop of `deserializeScopelessOnSelfInfo`;
  - the room-connect request.
- **The `Client` session** (`Session`, `session.dfy`). It is a class whose fields the methods update in place:
  - the `_onMessages` listener list;
  - the installed room;
  - the outcomes of the `connectToRoom` promises;
  - the frames sent;
  - a trace of what each incoming frame reached.

  `HandleMessage` is the socket's `onmessage`. It decodes a frame, fans it
  out over the live listener list, and routes it by scope. Its result is
  tied to the state function `Receive`. `FanOut` and `Call` model the
  `for..of` loop and the join listener that `connectToRoom` installs.

Where the code departs from what it evidently intends, the model follows
the code:
- `_readVarint` ORs its groups into a 32-bit JavaScript integer. A value is read back as a signed 32-bit number: the varint of 2^32 − 1 reads as −1 (`Varints.ReadBackIsSigned`). The round trip is therefore proved for magnitudes below 2^31.
- `serialize` writes the message type with `setUint8`, as one byte. `deserialize` reads it as a varint. A frame round-trips only for types below 128 (`RoundTrip.LargeTypeMisread`).
- `this.room` is only ever assigned. No code path clears it, so once installed it stays (`Session.RoomStaysSet`).
- Records are flat. The decoder reads only tags 0–6 inside a record. Any other pattern byte yields `undefined` and consumes nothing.
- `removeOnMessage` tests `listener`, not the index it found. A listener that is not in the list still makes it call `splice(undefined, 1)`, which removes the first entry, and it returns true. The model keeps this behaviour (`Session.RemoveAbsent`).
- `connectToRoom`'s `configure` callback is declared optional (eew.d.ts:23), but the join listener calls `configure(room)` unchecked (eew.js:863-864). Without it, the room is installed and then a TypeError is thrown. The promise stays pending, and the later listeners and the scope routing are skipped (`Session.JoinUnconfigured`, `Session.UnconfiguredJoinStops`).
- `onMessage` iterates the live array with `for..of`. When the join listener removes itself, the listener right after it misses that frame (`Session.JoinSkipsNext`).

## Model

| member | source | states |
|---|---|---|
| `Varints.Shifted` | eew.js:1155 | `value >>> 7` decreases every value above 127, and below 2^32 it is the quotient by 128 with the low seven bits as remainder |
| `Varints.Continued` | eew.js:1154 | a byte written before the last one carries the continuation bit and the value's low seven bits |
| `Varints.Groups` | eew.js:1137-1146 | a varint read with k groups already taken consumes at least one and at most 5 − k more bytes |
| `Varints.ToInt32` | eew.js:1143 | the 32-bit result is a signed 32-bit integer congruent to the pattern modulo 2^32, and equal to it below 2^31 |
| `Varints.Slice` | eew.js:1170 | `Uint8Array.slice` never returns more bytes than the buffer holds |
| `Varints.SliceEnd` | eew.js:1170 | the end bound of `slice` is clamped to the buffer and is the requested end when that lies inside it |
| `Varints.ParseBytes` | eew.js:1168-1171 | reading a length-prefixed run always moves the cursor forward |
| `Varints.VarintShape` | eew.js:1151-1159 | every varint is one to five bytes; every byte but the last has bit 0x80 set; the last is at most 127 |
| `Varints.VarintRoundTrip` | eew.js:1132-1159 | for 0 ≤ v < 2^31, reading back the varint of v gives v and consumes exactly its bytes |
| `Varints.ParseVarintBounds` | eew.js:1132-1149 | the reader consumes one to five bytes and returns a signed 32-bit integer |
| `Varints.SixthGroupRejected` | eew.js:1138-1140 | five bytes that all carry the continuation bit make the reader throw instead of reading a sixth group |
| `Varints.StopsAtTerminator` | eew.js:1146 | an accepted varint ends at a byte without the continuation bit |
| `Varints.ReadBackIsSigned` | eew.js:1143 | the five-byte varint of 2^32 − 1 reads back as −1 |
| `Varints.BytesRoundTrip` | eew.js:1161-1171 | a run written as varint(length) and its bytes reads back exactly, the cursor moving past prefix and bytes |
| `Varints.WriteVarint` | eew.js:1151-1159 | the loop appends exactly the varint of the value |
| `Varints.WriteBytes` | eew.js:1161-1166 | the loop appends the run's bytes in order and nothing else |
| `Varints.ReadVarint` | eew.js:1132-1149 | the `do … while` loop returns what `ParseVarint` specifies, including the sixth-group error |
| `Varints.GetBytes` | eew.js:1168-1171 | the reader returns what `ParseBytes` specifies |
| `Codec.KeyIndex` | eew.js:1119 | the index found holds the key and no earlier property does; no index means no property has the key |
| `Codec.Assign` | eew.js:1119 | `object[key] = value` keeps the property count for a known key and appends the property for a new one |
| `Codec.AssignLookup` | eew.js:1119 | after the assignment the key reads back as the new value, every other key is unchanged, and keys stay distinct |
| `Codec.EncodeScalar` | eew.js:927-966 | every value with a one-tag encoding starts with a tag 0..6 |
| `Codec.EncodeFrame` | eew.js:912-1034 | `serialize` fails only on a record property it cannot encode |
| `Codec.DecodeScalar` | eew.js:1046-1076 | a tag-0..6 payload is read forward from the cursor and yields a one-tag value |
| `Codec.FieldValue` | eew.js:1085-1115 | a property value is read forward; an unknown pattern leaves it undefined and consumes nothing |
| `Codec.DecodeField` | eew.js:1083-1119 | one property (value, then key) always moves the cursor forward |
| `Codec.DecodeRecord` | eew.js:1078-1125 | the record loop ends past its start and yields a record |
| `Codec.DecodeValue` | eew.js:1045-1076 | each turn of the top-level loop moves the cursor forward |
| `Codec.UnknownTagSkipped` | eew.js:1045-1046 | an unrecognised top-level tag is consumed and yields no value |
| `Codec.DecodeRecordDistinct` | eew.js:1078-1125 | a decoded record never holds two properties with the same key |
| `Codec.RecordPairs` | eew.js:1081-1122 | a record's properties, in wire order with repeats, are fewer than the bytes left in the frame |
| `Codec.LastIndex` | eew.js:1119 | the position found holds the key and no later property does; no position means no property has the key |
| `Codec.DecodeRecordPairs` | eew.js:1078-1125 | the record loop succeeds exactly when the wire properties can be read, and then yields them assigned in order into the starting object |
| `Codec.AssignAllLookup` | eew.js:1119 | after the properties are assigned in turn, each key reads back as the value of its last property, or as before when none holds it, and keys stay distinct |
| `Codec.AssignKeepsPlace` | eew.js:1119 | assigning a property never moves a key the object already holds |
| `Codec.AssignAllKeepsPlace` | eew.js:1119 | a run of assignments never moves a key the object already holds |
| `Codec.AssignAllAbsent` | eew.js:1119 | a key held neither by the object nor by any assigned property stays absent |
| `Codec.AssignAllFirstPlace` | eew.js:1119 | a new key is placed at its first property, after every key set before it, and later properties never move it |
| `Codec.RepeatedKeyLastWins` | eew.js:1078-1125 | in any decoded record a repeated key takes the value of its last property and keeps the place of its first; a key no property holds is absent |
| `Codec.WriteScalar` | eew.js:927-966 | appends the tag and payload of a one-tag value exactly as `EncodeScalar` specifies |
| `Codec.WriteInt` | eew.js:935-947 | an integer is written as tag 1 and its varint, or tag 2 and the varint of its magnitude |
| `Codec.WriteDouble` | eew.js:949-954 | a double is written as tag 3 and its eight bytes |
| `Codec.WriteRun` | eew.js:927-933 | a string is written as its tag, varint(length) and its bytes |
| `Codec.WriteField` | eew.js:967-1024 | a record property is written as its value, then its key as a length-prefixed run |
| `Codec.WriteValue` | eew.js:962-1028 | one element of `data` is written as `EncodeValue` specifies, records between tags 7 and 8, failing on a property it cannot encode |
| `Codec.Serialize` | eew.js:912-1034 | the frame written is exactly `EncodeFrame`, and the first unencodable element makes the whole call fail |
| `Codec.ReadScalar` | eew.js:1046-1076 | the payload reader returns what `DecodeScalar` specifies |
| `Codec.ReadRecord` | eew.js:1078-1125 | the record loop returns what `DecodeRecord` specifies |
| `Codec.Deserialize` | eew.js:1036-1130 | the frame reader returns what `DecodeFrame` specifies |
| `RoundTrip.EncodeValuesOk` | eew.js:924-1030 | encodable data never makes `serialize` fail |
| `RoundTrip.ScalarRoundTrip` | eew.js:1046-1076 | a one-tag value written at a cursor reads back as itself and consumes exactly its bytes |
| `RoundTrip.RunRoundTrip` | eew.js:1047-1050 | strings and byte runs read back whole, with their kind |
| `RoundTrip.IntRoundTrip` | eew.js:1052-1058 | both signs of an integer read back, tag 2 negating the magnitude |
| `RoundTrip.DoubleRoundTrip` | eew.js:1060-1063 | a double's eight bytes read back unchanged |
| `RoundTrip.FieldRoundTrip` | eew.js:1083-1119 | a written property is read back by one turn of the record loop, which does not stop there |
| `RoundTrip.FieldsRoundTrip` | eew.js:1078-1125 | properties with distinct keys, followed by tag 8, read back as the same record in wire order |
| `RoundTrip.ValueRoundTrip` | eew.js:1045-1125 | a written value is the next value the top-level loop reads |
| `RoundTrip.ValuesRoundTrip` | eew.js:1045-1127 | written values that fill the frame read back in order |
| `RoundTrip.FrameRoundTrip` | eew.js:912-1130 | `deserialize(serialize(scope, type, data))` gives back scope, type and data for types below 128 |
| `RoundTrip.LargeTypeMisread` | eew.js:921 | type 200 is written as one byte and read back as 72 |
| `CodecAsWritten.BytesLoseTheirLength` | eew.js:962-966 | a one-byte run written without its length reads back empty; the corrected encoder's reads back whole |
| `CodecAsWritten.RecordPropertyRejected` | eew.js:971-1017 | a record with an integer property makes `serialize` throw; the corrected encoder round-trips it |
| `CodecAsWritten.DoubleRejected` | eew.js:949-954 | every double makes `serialize` throw; the corrected encoder round-trips it |
| `CodecAsWritten.NegativeLengthLoops` | eew.js:1168-1171 | a length read as −6 moves the cursor back onto its own tag; the corrected decoder rejects the frame |
| `CodecAsWritten.UnterminatedRecordLoops` | eew.js:1081-1122 | a record open at the end of the frame never closes; the corrected decoder rejects it |
| `Messages.Property` | eew.js:132-137 | a property read fails exactly on `undefined`; on a record it returns the property when the record holds the key and undefined otherwise; on any other value it returns undefined |
| `Messages.PlaceBlockArity` | eew.js:269-291 | the first four values are layer, x, y and id; extra data is attached iff there are 5, 6 or 8 values, of the kind the arity names, and it serializes back to the values after the fourth |
| `Messages.PlaceBlockRoundTrip` | eew.js:457-474 | deserializing a serialized place-block message gives back its coordinates and extra data |
| `Messages.PlaceBlockFrameRoundTrip` | eew.js:466-474 | a place-block frame sent on the room scope is received with the same coordinates and extra data |
| `Messages.DeserializeLobbyOnLoadRooms` | eew.js:165-184 | the `while` loop returns what `LoadRoomsOf` specifies |
| `Messages.LoadRoomsShape` | eew.js:165-184 | a LoadRooms reply is read without throwing iff its values come in whole threes with a defined third; then room k is made of values 3k, 3k+1, 3k+2 |
| `Messages.RoomsFromShape` | eew.js:167-181 | the same, from the j-th room on |
| `Messages.DeserializeScopelessOnSelfInfo` | eew.js:128-150 | the `for` loop returns what `SelfInfoOf` specifies |
| `Messages.SelfInfoShape` | eew.js:128-150 | a SelfInfo message is read without throwing iff each counted room has a defined record; then room k comes from value k + 5 |
| `Messages.MetasFromShape` | eew.js:131-139 | the same, from the i-th room on |
| `Session.FirstIndex` | eew.js:887-893 | the `for..in` search finds the first identical entry, and none exactly when the listener is absent |
| `Session.Splice` | eew.js:896 | `splice(start, 1)` removes one element when start is inside the list and adds none |
| `Session.Removed` | eew.js:884-901 | removal never grows the list or adds a listener |
| `Session.RemoveFirst` | eew.js:884-901 | a present listener loses its first occurrence, the rest keep their order, and the multiset loses exactly that listener |
| `Session.RemoveAbsent` | eew.js:895-897 | an absent listener still removes the first entry and true is returned |
| `Session.AddThenRemove` | eew.js:880-901 | adding a new listener and removing it restores the list |
| `Session.Settle` | eew.js:711 | a pending promise takes the outcome; a settled promise and every other promise are unchanged |
| `Session.Call` | eew.js:703-867 | one listener call sends nothing, never uninstalls the room, never grows the list, and keeps the state consistent |
| `Session.FanOut` | eew.js:874-878 | the fan-out sends nothing, never uninstalls the room, and keeps the state consistent |
| `Session.Routing` | eew.js:632-642 | a room frame reaches the room only once one is installed; lobby and scopeless frames always reach their handlers; nothing else changes |
| `Session.RoomStaysSet` | eew.js:625-643 | once a room is installed, no incoming message uninstalls it |
| `Session.FanOutUsers` | eew.js:874-878 | user listeners are called in list order and each records the frame |
| `Session.FanOutQuiet` | eew.js:874-878 | a list of user listeners hears every frame in order and nothing else changes |
| `Session.ListenerThrows` | eew.js:625-643 | a user listener that throws ends the handler: the listeners before it and it hear the frame, and neither the later listeners nor the scope handlers are reached |
| `Session.JoinAnswered` | eew.js:707-864 | on the lobby's RoomConnect with data, the join listener removes itself, installs the room and resolves |
| `Session.JoinSkipsNext` | eew.js:875-876 | after the join listener removes itself, the listener right after it misses that frame and every other one hears it |
| `Session.JoinRefused` | eew.js:707-712 | on the lobby's RoomConnect without data, the join listener removes its first occurrence (the rest keep their order) and rejects; no room is installed and nothing is recorded or sent |
| `Session.JoinWaits` | eew.js:707 | on any frame but the lobby's RoomConnect, the join listener stays in the list and changes nothing |
| `Session.JoinUnconfigured` | eew.js:707-864 | without `configure`, on the lobby's RoomConnect with data the join listener removes itself, installs the room, leaves its promise pending and throws |
| `Session.UnconfiguredJoinStops` | eew.js:625-643 | such a throw ends `onmessage`: the listeners before it hear the frame, the room is installed, the promise stays pending, and neither later listeners nor the scope handlers are reached |
| `Session.RoomConnectFrame` | eew.js:198-206 | the room-connect request is received as the lobby's RoomConnect for "world" and the id |
| `Session.Client.constructor` | eew.js:614-616 | a new client has no listeners, no room and nothing sent |
| `Session.Client.AddOnMessage` | eew.js:880-882 | the listener is appended and nothing else changes |
| `Session.Client.RemoveOnMessage` | eew.js:884-901 | the list and the result are those `Removed` specifies, and nothing else changes |
| `Session.Client.Invoke` | eew.js:703-867 | calling a listener changes the client as `Call` specifies |
| `Session.Client.OnMessage` | eew.js:874-878 | the loop over the live list changes the client as `FanOut` specifies |
| `Session.Client.HandleMessage` | eew.js:625-643 | an incoming message changes the client as `Receive` specifies |
| `Session.Client.RawSend` | eew.js:907-909 | the serialized frame is appended to what was sent, and nothing is sent when `serialize` throws |
| `Session.Client.ConnectToRoom` | eew.js:698-872 | a new pending promise and its listener are added before the request is sent; a failed send rejects it |
| `Session.Client.SendPlaceBlock` | eew.js:722 | the place-block frame is sent on the room scope |

## Left out

- HTTP, the socket and promise plumbing are not modelled: `getToken`, `resolveConnection`, `resolveSelfInfo`, `disconnect` and the socket's `onerror`. A send is an append to an outbox. A promise is reduced to its outcome (`Pending`, `Joined`, `Refused`, `Failed`).
- UTF-8 conversion (`TextEncoder`/`TextDecoder`) is not modelled. Strings are kept as their UTF-8 bytes.
- Floating point is not modelled. A double is its eight little-endian bytes, kept opaque.
- Which JavaScript numbers are integers is not modelled: `Int` holds integers and `Double` the rest.
- The 4096-byte scratch buffer of `serialize` is not modelled. The frame is a growable byte sequence, so frames longer than 4096 bytes are not rejected.
- JavaScript's own ordering of integer-like property keys is not modelled. Records keep insertion order.
- `Messages.RoomCount`: the `i < roomCount` loop bound is modelled for integers, booleans and byte runs (a one-byte run counts as its byte). Strings and doubles, which JavaScript would coerce, count as zero rooms.
- User listeners are opaque identities that record what they heard and may throw. They do not call back into the client.
- `Codec.Assign`: a property named `__proto__` is stored as an ordinary property. In the source the record is a plain `{}`, so `messageObject["__proto__"] = value` sets its prototype (or does nothing) and adds no own property.
- The `console.log` calls in the join listener and in `deserializeLobbyOnLoadRooms` only print, and are not modelled.
- The remaining catalogue entries (about fifty one-line deserializers and `serialize` methods) are not modelled, nor most room sender closures. Place block and room connect stand for them.
- The `_handle` switches of the room, the lobby and the scopeless handler are not modelled. A frame routed to one of them is recorded as a delivery.
- Concurrent `connectToRoom` calls and the order in which asynchronous listeners complete are not modelled.
- `Session.Settle`: the value a promise resolves with, and the text of its rejection, are not modelled.
- `Session.Client.HandleMessage`: decodes with the corrected decoder. It rejects the frames `0 0 6 250 255 255 255 15` and `0 0 7`, on which the source's `onmessage` never returns (see Findings).
- `Session.Client.RawSend`: encodes with the corrected encoder. It sends a frame for a double, where the source's `serialize` throws, and writes a byte run with its length, where the source omits it (see Findings). `Session.Client.SendPlaceBlock` and `Session.Client.ConnectToRoom` send through it.
- `Session.Client.SendPlaceBlock`: requires an installed room. This stands for the closure existing only on the room object, which the model does not represent. The closure is spelled `snedPlaceBlock` in the source (eew.js:722) while the declaration names it `sendPlaceBlock` (eew.d.ts:107), so a caller that follows the declaration finds no such function; the model does not represent method names.

## Findings

| source | as written | input that shows it | evidently intended | confidence | as-written member | corrected member |
|---|---|---|---|---|---|---|
| eew.js:962-966 | a byte run is written as tag 6 and its bytes, with no length | `Uint8Array [1]` is written as `6 1`; reading it back takes the `1` for a length and yields an empty run | tag 6, varint(length), the bytes, as `_getBytes` expects | high, not executed | `CodecAsWritten.BytesLoseTheirLength` | `RoundTrip.ScalarRoundTrip` |
| eew.js:975-1017 | the record branch switches on the property's value instead of its type, and encodes the whole record | a record `{a: 1}` makes `serialize` throw | each property written as its tagged value, then its key, as the decoder reads it | high, not executed | `CodecAsWritten.RecordPropertyRejected` | `RoundTrip.FieldsRoundTrip` |
| eew.js:952 | the double branch evaluates `setFloat64(i,xRef.i, …)`, which names undeclared variables | any non-integer number, such as 0.5, makes `serialize` throw | tag 3 and the eight little-endian bytes, as the decoder reads them | high, not executed | `CodecAsWritten.DoubleRejected` | `RoundTrip.DoubleRoundTrip` |
| eew.js:1168-1171 | the cursor moves by the signed length read, which the 32-bit reader can return negative | frame `0 0 6 250 255 255 255 15`: the length reads as −6 and the cursor returns to the tag, so `deserialize` never ends | a negative length rejected | medium, not executed | `CodecAsWritten.NegativeLengthLoops` | `Varints.ParseBytes` |
| eew.js:1081-1122 | the record loop runs until it reads a tag 8, even past the end of the frame | frame `0 0 7`: past the end every pattern is undefined, so `deserialize` never ends | a frame that ends inside a record rejected | high, not executed | `CodecAsWritten.UnterminatedRecordLoops` | `Codec.DecodeRecord` |
