/** The positional message catalogue of eew.js (`Messages`): the
    deserializers that name the values of a received frame, and the
    `serialize` methods that list the values of an outgoing one. */
module Messages {
  import opened Support
  import opened Codec
  import opened RoundTrip

  /** Property names, as UTF-8. */
  const KeyId: seq<byte> := [105]
  const KeyName: seq<byte> := [110]
  const KeyPlays: seq<byte> := [112]
  const KeyVisibility: seq<byte> := [118]

  /** "world", the first value of a room-connect request. */
  const WorldText: seq<byte> := [119, 111, 114, 108, 100]

  /** `raw[i]`: undefined outside the list. */
  function Item(raw: seq<Value>, i: int): Value
  {
    if 0 <= i < |raw| then raw[i] else Undefined
  }

  /** `v.key` on a received value: a record's property (undefined when it
      has none), undefined on any other value, and a TypeError on
      undefined itself. */
  function Property(v: Value, key: seq<byte>): (r: Result<Value>)
    ensures r.Err? <==> v.Undefined?
    ensures v.Record? ==> r == Ok(if Lookup(v.fields, key).Some? then Lookup(v.fields, key).value else Undefined)
    ensures !v.Record? && !v.Undefined? ==> r == Ok(Undefined)
  {
    match v
    case Undefined => Err(PropertyOfUndefined)
    case Record(fields) =>
      (match Lookup(fields, key)
       case Some(x) => Ok(x)
       case None => Ok(Undefined))
    case _ => Ok(Undefined)
  }

  // ---------------------------------------------------------------------
  // Place block: the block's extra data is told apart by the arity alone

  /** `EffectData`, `SignData` and `PortalData`. */
  datatype BlockArgs =
    | EffectData(effectData: Value)
    | SignData(text: Value, rotation: Value)
    | PortalData(rotation: Value, portalId: Value, target: Value, flipped: Value)

  /** The values `args.serializeTo(result)` pushes, in field order. */
  function SerializeTo(args: BlockArgs): seq<Value>
  {
    match args
    case EffectData(e) => [e]
    case SignData(text, rotation) => [text, rotation]
    case PortalData(rotation, portalId, target, flipped) => [rotation, portalId, target, flipped]
  }

  /** What `deserializeRoomOnPlaceBlock` returns; `args` is absent when
      no extra data is attached. */
  datatype PlaceBlock = PlaceBlock(raw: seq<Value>, layer: Value, x: Value, y: Value, id: Value, args: Option<BlockArgs>)

  function DeserializeRoomOnPlaceBlock(raw: seq<Value>): PlaceBlock
  {
    var args :=
      if |raw| == 5 then Some(EffectData(raw[4]))
      else if |raw| == 6 then Some(SignData(raw[4], raw[5]))
      else if |raw| == 8 then Some(PortalData(raw[4], raw[5], raw[6], raw[7]))
      else None;
    PlaceBlock(raw, Item(raw, 0), Item(raw, 1), Item(raw, 2), Item(raw, 3), args)
  }

  /** `new RoomPlaceBlock(layer, x, y, id, args).serialize()`: the four
      coordinates, then whatever the extra data pushes. */
  function SerializeRoomPlaceBlock(layer: Value, x: Value, y: Value, id: Value, args: Option<BlockArgs>): seq<Value>
  {
    [layer, x, y, id] + (if args.Some? then SerializeTo(args.value) else [])
  }

  /** The first four values are the layer, x, y and id; extra data is
      attached exactly for 5, 6 or 8 values, of the kind the arity names,
      and it serializes back to the values after the fourth. */
  lemma PlaceBlockArity(raw: seq<Value>)
    ensures var r := DeserializeRoomOnPlaceBlock(raw);
      && r.raw == raw
      && r.layer == Item(raw, 0) && r.x == Item(raw, 1) && r.y == Item(raw, 2) && r.id == Item(raw, 3)
      && (r.args.Some? <==> |raw| == 5 || |raw| == 6 || |raw| == 8)
      && (r.args.Some? ==> SerializeTo(r.args.value) == raw[4..])
      && (r.args.Some? ==> (r.args.value.EffectData? <==> |raw| == 5))
      && (r.args.Some? ==> (r.args.value.SignData? <==> |raw| == 6))
      && (r.args.Some? ==> (r.args.value.PortalData? <==> |raw| == 8))
  {
    var r := DeserializeRoomOnPlaceBlock(raw);
    if |raw| == 5 {
      assert raw[4..] == [raw[4]];
    } else if |raw| == 6 {
      assert raw[4..] == [raw[4], raw[5]];
    } else if |raw| == 8 {
      assert raw[4..] == [raw[4], raw[5], raw[6], raw[7]];
    }
  }

  /** Serializing a place-block message and deserializing its values
      gives back the coordinates and the extra data. */
  lemma PlaceBlockRoundTrip(layer: Value, x: Value, y: Value, id: Value, args: Option<BlockArgs>)
    ensures var raw := SerializeRoomPlaceBlock(layer, x, y, id, args);
      DeserializeRoomOnPlaceBlock(raw) == PlaceBlock(raw, layer, x, y, id, args)
  {
    var raw := SerializeRoomPlaceBlock(layer, x, y, id, args);
    if args.Some? {
      assert raw[4..] == SerializeTo(args.value);
      match args.value
      case EffectData(_) =>
      case SignData(_, _) =>
      case PortalData(_, _, _, _) =>
    }
  }

  /** Every value of a place-block message can travel the wire. */
  ghost predicate PlaceBlockEncodable(layer: Value, x: Value, y: Value, id: Value, args: Option<BlockArgs>)
  {
    var raw := SerializeRoomPlaceBlock(layer, x, y, id, args);
    forall k :: 0 <= k < |raw| ==> Encodable(raw[k])
  }

  /** A place-block frame sent on the room scope is received with the
      same coordinates and extra data. */
  lemma PlaceBlockFrameRoundTrip(layer: Value, x: Value, y: Value, id: Value, args: Option<BlockArgs>)
    requires PlaceBlockEncodable(layer, x, y, id, args)
    ensures var raw := SerializeRoomPlaceBlock(layer, x, y, id, args);
      && EncodeFrame(1, 5, raw).Ok?
      && DecodeFrame(EncodeFrame(1, 5, raw).value) == Ok(Frame(Some(1), 5, raw))
      && DeserializeRoomOnPlaceBlock(raw) == PlaceBlock(raw, layer, x, y, id, args)
  {
    var raw := SerializeRoomPlaceBlock(layer, x, y, id, args);
    AllEncodable(raw);
    FrameRoundTrip(1, 5, raw);
    PlaceBlockRoundTrip(layer, x, y, id, args);
  }

  // ---------------------------------------------------------------------
  // Room connect

  /** `new LobbyRoomConnect(id).serialize()`. */
  function SerializeLobbyRoomConnect(id: Value): seq<Value>
  {
    [Str(WorldText), id]
  }

  // ---------------------------------------------------------------------
  // Load rooms: the values come in threes

  /** One room of a LoadRooms reply. */
  datatype RoomSummary = RoomSummary(id: Value, playersOnline: Value, name: Value, plays: Value)

  /** What `deserializeLobbyOnLoadRooms` returns. */
  datatype LoadRooms = LoadRooms(raw: seq<Value>, rooms: seq<RoomSummary>)

  /** The rooms listed from position `pos` on: an id, a player count and
      a metadata record each. A missing metadata record makes the
      deserializer throw on reading its name. */
  function RoomsFrom(raw: seq<Value>, pos: nat): (r: Result<seq<RoomSummary>>)
    decreases |raw| - pos
  {
    if pos >= |raw| then Ok([])
    else
      var meta := Item(raw, pos + 2);
      if meta.Undefined? then Err(PropertyOfUndefined)
      else
        var room := RoomSummary(raw[pos], Item(raw, pos + 1), Property(meta, KeyName).value, Property(meta, KeyPlays).value);
        Prepend([room], RoomsFrom(raw, pos + 3))
  }

  /** `head` before the list in `rest`, or the fault of `rest`. */
  function Prepend<T>(head: seq<T>, rest: Result<seq<T>>): Result<seq<T>>
  {
    match rest
    case Ok(tail) => Ok(head + tail)
    case Err(e) => Err(e)
  }

  function LoadRoomsOf(raw: seq<Value>): Result<LoadRooms>
  {
    match RoomsFrom(raw, 0)
    case Ok(rooms) => Ok(LoadRooms(raw, rooms))
    case Err(e) => Err(e)
  }

  lemma PrependNothing<T>(rest: Result<seq<T>>)
    ensures Prepend([], rest) == rest
  {
    if rest.Ok? {
      assert [] + rest.value == rest.value;
    }
  }

  lemma PrependPrepend<T>(a: seq<T>, b: seq<T>, rest: Result<seq<T>>)
    ensures Prepend(a, Prepend(b, rest)) == Prepend(a + b, rest)
  {
    if rest.Ok? {
      assert a + (b + rest.value) == (a + b) + rest.value;
    }
  }

  /** `deserializeLobbyOnLoadRooms`: its `while` loop walks the values
      three at a time until the position reaches their count. */
  method DeserializeLobbyOnLoadRooms(raw: seq<Value>) returns (r: Result<LoadRooms>)
    ensures r == LoadRoomsOf(raw)
  {
    var rooms: seq<RoomSummary> := [];
    var pos := 0;
    PrependNothing(RoomsFrom(raw, 0));
    while pos < |raw|
      invariant RoomsFrom(raw, 0) == Prepend(rooms, RoomsFrom(raw, pos))
      decreases |raw| - pos
    {
      var id := raw[pos];
      var playersOnline := Item(raw, pos + 1);
      var meta := Item(raw, pos + 2);
      if meta.Undefined? {
        return Err(PropertyOfUndefined);
      }
      var room := RoomSummary(id, playersOnline, Property(meta, KeyName).value, Property(meta, KeyPlays).value);
      PrependPrepend(rooms, [room], RoomsFrom(raw, pos + 3));
      rooms := rooms + [room];
      pos := pos + 3;
    }
    assert rooms + [] == rooms;
    return Ok(LoadRooms(raw, rooms));
  }

  /** The metadata record of the k-th room of a LoadRooms reply. */
  function LoadRoomsMeta(raw: seq<Value>, k: nat): Value
  {
    Item(raw, 3 * k + 2)
  }

  /** The k-th room as the reply lists it at positions 3k, 3k+1, 3k+2. */
  ghost predicate ListedAt(raw: seq<Value>, k: nat, room: RoomSummary)
  {
    room.id == Item(raw, 3 * k) && room.playersOnline == Item(raw, 3 * k + 1)
    && Property(LoadRoomsMeta(raw, k), KeyName) == Ok(room.name)
    && Property(LoadRoomsMeta(raw, k), KeyPlays) == Ok(room.plays)
  }

  /** A LoadRooms reply is read without throwing exactly when its values
      come in whole threes whose third is defined, and then the k-th room
      is made of the k-th three values. */
  lemma LoadRoomsShape(raw: seq<Value>)
    ensures LoadRoomsOf(raw).Ok? <==>
      |raw| % 3 == 0 && forall k :: 0 <= k < |raw| / 3 ==> !LoadRoomsMeta(raw, k).Undefined?
    ensures LoadRoomsOf(raw).Ok? ==>
      var rooms := LoadRoomsOf(raw).value.rooms;
      |rooms| == |raw| / 3 && forall k :: 0 <= k < |rooms| ==> ListedAt(raw, k, rooms[k])
  {
    RoomsFromShape(raw, 0);
  }

  lemma {:induction false} RoomsFromShape(raw: seq<Value>, j: nat)
    requires 3 * j <= |raw|
    ensures RoomsFrom(raw, 3 * j).Ok? <==>
      |raw| % 3 == 0 && forall k :: j <= k < |raw| / 3 ==> !LoadRoomsMeta(raw, k).Undefined?
    ensures RoomsFrom(raw, 3 * j).Ok? ==>
      var rooms := RoomsFrom(raw, 3 * j).value;
      |rooms| == |raw| / 3 - j && forall k :: 0 <= k < |rooms| ==> ListedAt(raw, j + k, rooms[k])
    decreases |raw| - 3 * j
  {
    var pos := 3 * j;
    if pos < |raw| {
      var meta := Item(raw, pos + 2);
      assert meta == LoadRoomsMeta(raw, j);
      if pos + 2 >= |raw| {
        assert meta.Undefined?;
        assert |raw| % 3 != 0;
      } else if !meta.Undefined? {
        RoomsFromShape(raw, j + 1);
        var rest := RoomsFrom(raw, pos + 3);
        if rest.Ok? {
          var rooms := RoomsFrom(raw, pos).value;
          assert rooms == [rooms[0]] + rest.value;
          forall k | 0 <= k < |rooms| ensures ListedAt(raw, j + k, rooms[k]) {
            if k > 0 {
              assert rooms[k] == rest.value[k - 1];
              assert ListedAt(raw, (j + 1) + (k - 1), rest.value[k - 1]);
            }
          }
        }
      }
    } else {
      assert |raw| == 3 * j;
    }
  }

  // ---------------------------------------------------------------------
  // Self info: a room count, then that many metadata records

  /** One room of a SelfInfo message. */
  datatype RoomMeta = RoomMeta(id: Value, name: Value, plays: Value, visibility: Value)

  /** What `deserializeScopelessOnSelfInfo` returns. */
  datatype SelfInfo = SelfInfo(raw: seq<Value>, username: Value, maxEnergy: Value, stardust: Value, jewels: Value, rooms: seq<RoomMeta>)

  /** How many times `for (let i = 0; i < roomCount; i++)` runs: a
      positive integer's value, once for `true`, a one-byte run's byte
      (which `<` reads through its text), and never for undefined, a
      record, `false`, a longer run or an integer that is not positive. */
  function RoomCount(v: Value): nat
  {
    match v
    case Int(n) => if n > 0 then n else 0
    case Bool(b) => if b then 1 else 0
    case Bytes(d) => if |d| == 1 then d[0] as nat else 0
    case _ => 0
  }

  /** The metadata record of the k-th room of a SelfInfo message. */
  function SelfInfoMeta(raw: seq<Value>, k: nat): Value
  {
    Item(raw, k + 5)
  }

  function MetaOf(meta: Value): RoomMeta
    requires !meta.Undefined?
  {
    RoomMeta(Property(meta, KeyId).value, Property(meta, KeyName).value,
             Property(meta, KeyPlays).value, Property(meta, KeyVisibility).value)
  }

  /** The rooms from the i-th to the count-th; a missing record throws. */
  function MetasFrom(raw: seq<Value>, count: nat, i: nat): (r: Result<seq<RoomMeta>>)
    decreases count - i
  {
    if i >= count then Ok([])
    else
      var meta := SelfInfoMeta(raw, i);
      if meta.Undefined? then Err(PropertyOfUndefined)
      else Prepend([MetaOf(meta)], MetasFrom(raw, count, i + 1))
  }

  function SelfInfoOf(raw: seq<Value>): Result<SelfInfo>
  {
    match MetasFrom(raw, RoomCount(Item(raw, 4)), 0)
    case Ok(rooms) => Ok(SelfInfo(raw, Item(raw, 0), Item(raw, 1), Item(raw, 2), Item(raw, 3), rooms))
    case Err(e) => Err(e)
  }

  /** `deserializeScopelessOnSelfInfo`: its `for` loop reads as many
      metadata records as the fifth value counts. */
  method DeserializeScopelessOnSelfInfo(raw: seq<Value>) returns (r: Result<SelfInfo>)
    ensures r == SelfInfoOf(raw)
  {
    var rooms: seq<RoomMeta> := [];
    var roomCount := RoomCount(Item(raw, 4));
    PrependNothing(MetasFrom(raw, roomCount, 0));
    for i := 0 to roomCount
      invariant MetasFrom(raw, roomCount, 0) == Prepend(rooms, MetasFrom(raw, roomCount, i))
    {
      var meta := Item(raw, i + 5);
      if meta.Undefined? {
        return Err(PropertyOfUndefined);
      }
      PrependPrepend(rooms, [MetaOf(meta)], MetasFrom(raw, roomCount, i + 1));
      rooms := rooms + [MetaOf(meta)];
    }
    assert rooms + [] == rooms;
    return Ok(SelfInfo(raw, Item(raw, 0), Item(raw, 1), Item(raw, 2), Item(raw, 3), rooms));
  }

  /** A SelfInfo message is read without throwing exactly when each of
      the counted rooms has a defined value after the fifth, and then the
      k-th room is read from the (k+6)-th value. */
  lemma SelfInfoShape(raw: seq<Value>)
    ensures var count := RoomCount(Item(raw, 4));
      SelfInfoOf(raw).Ok? <==> forall k :: 0 <= k < count ==> !SelfInfoMeta(raw, k).Undefined?
    ensures var count := RoomCount(Item(raw, 4));
      SelfInfoOf(raw).Ok? ==>
        var rooms := SelfInfoOf(raw).value.rooms;
        && (count > 0 ==> count + 5 <= |raw|)
        && |rooms| == count
        && forall k :: 0 <= k < count ==> !SelfInfoMeta(raw, k).Undefined? && rooms[k] == MetaOf(SelfInfoMeta(raw, k))
  {
    var count := RoomCount(Item(raw, 4));
    MetasFromShape(raw, count, 0);
    if SelfInfoOf(raw).Ok? {
      var rooms := SelfInfoOf(raw).value.rooms;
      assert rooms == MetasFrom(raw, count, 0).value;
      if count > 0 {
        assert !SelfInfoMeta(raw, count - 1).Undefined?;
        assert 0 <= count - 1 + 5 < |raw|;
      }
      forall k | 0 <= k < count ensures rooms[k] == MetaOf(SelfInfoMeta(raw, k)) {
        assert rooms[k] == MetaOf(SelfInfoMeta(raw, 0 + k));
      }
    }
  }

  lemma {:induction false} MetasFromShape(raw: seq<Value>, count: nat, i: nat)
    requires i <= count
    ensures MetasFrom(raw, count, i).Ok? <==> forall k :: i <= k < count ==> !SelfInfoMeta(raw, k).Undefined?
    ensures MetasFrom(raw, count, i).Ok? ==>
      var rooms := MetasFrom(raw, count, i).value;
      |rooms| == count - i && forall k :: 0 <= k < |rooms| ==> rooms[k] == MetaOf(SelfInfoMeta(raw, i + k))
    decreases count - i
  {
    if i < count {
      MetasFromShape(raw, count, i + 1);
      var meta := SelfInfoMeta(raw, i);
      if !meta.Undefined? && MetasFrom(raw, count, i + 1).Ok? {
        var rooms := MetasFrom(raw, count, i).value;
        var rest := MetasFrom(raw, count, i + 1).value;
        assert rooms == [MetaOf(meta)] + rest;
        forall k | 0 <= k < |rooms| ensures rooms[k] == MetaOf(SelfInfoMeta(raw, i + k)) {
          if k > 0 {
            assert rooms[k] == rest[k - 1];
            assert i + k == (i + 1) + (k - 1);
          }
        }
      }
    }
  }
}
