/** The `Client` session of eew.js: the catch-all listener list that
    every incoming frame is fanned out to, the routing of frames by
    connection scope, the one-shot listener that `connectToRoom` installs
    to wait for the lobby's answer, and the frames sent out. Listeners
    are identities: a user listener records that it heard a frame and
    then returns or throws, and a join listener stands for the closure `connectToRoom` creates. */
module Session {
  import opened Support
  import opened Codec
  import opened Messages

  /** `ConnectionScope` values. */
  const ScopeNone: byte := 0
  const ScopeRoom: byte := 1
  const ScopeLobby: byte := 2

  /** Message types used by the client itself. */
  const RoomConnectType: int := 0
  const PlaceBlockType: int := 5

  /** A listener in `_onMessages`. `User(id, throws)` is a listener added
      by the application, which throws after hearing a frame when `throws`
      holds. `Join(request, configured)` is the
      listener of the `request`-th `connectToRoom` call; `configured`
      says whether its `configure` callback returns normally (when it is
      missing or throws, the listener throws after installing the room). */
  datatype Listener = User(id: nat, throws: bool) | Join(request: nat, configured: bool)

  /** The state of the promise a `connectToRoom` call returned. */
  datatype JoinOutcome = Pending | Joined | Refused | Failed(fault: Fault)

  /** What a frame reached: a user listener, or the `_handle` of the
      room, the lobby or the scopeless handlers. */
  datatype Delivery =
    | Heard(listener: nat, frame: Frame)
    | ToRoom(frame: Frame)
    | ToLobby(frame: Frame)
    | ToScopeless(frame: Frame)

  /** Everything the client keeps. `room` is the request whose listener
      installed `this.room`. */
  datatype State = State(
    listeners: seq<Listener>,
    room: Option<nat>,
    joins: seq<JoinOutcome>,
    outbox: seq<seq<byte>>,
    trace: seq<Delivery>)

  /** Every join listener and the installed room refer to a call that
      was made. */
  predicate Consistent(s: State)
  {
    && (forall l :: l in s.listeners && l.Join? ==> l.request < |s.joins|)
    && (s.room.Some? ==> s.room.value < |s.joins|)
  }

  // ---------------------------------------------------------------------
  // The listener list

  /** The first index holding `l` (`for (const key in this._onMessages)`
      up to the first `===` match). */
  function FirstIndex(list: seq<Listener>, l: Listener): (r: Option<nat>)
    ensures r.Some? ==> r.value < |list| && list[r.value] == l
    ensures r.Some? ==> forall j :: 0 <= j < r.value ==> list[j] != l
    ensures r.None? <==> l !in list
  {
    if |list| == 0 then None
    else if list[0] == l then Some(0)
    else match FirstIndex(list[1..], l)
      case Some(k) => Some(k + 1)
      case None => None
  }

  /** `splice(start, 1)`: the element at `start` removed, nothing when
      `start` is past the end. */
  function Splice(list: seq<Listener>, start: nat): (r: seq<Listener>)
    ensures start < |list| ==> |r| == |list| - 1
    ensures start >= |list| ==> r == list
    ensures forall x :: x in r ==> x in list
  {
    if start < |list| then list[..start] + list[start + 1..] else list
  }

  /** `removeOnMessage(listener)`: the new list and the value returned.
      An undefined listener changes nothing and returns false. Any other
      listener splices at its first index, or, when it is absent, at
      `splice(undefined, 1)`, which is index 0 (see Findings). */
  function Removed(list: seq<Listener>, l: Option<Listener>): (r: (seq<Listener>, bool))
    ensures |r.0| <= |list|
    ensures forall x :: x in r.0 ==> x in list
  {
    if l.None? then (list, false)
    else
      var start := match FirstIndex(list, l.value) case Some(k) => k case None => 0;
      (Splice(list, start), true)
  }

  /** Removing a listener that is in the list takes out its first
      occurrence and nothing else, and keeps the order of the rest. */
  lemma RemoveFirst(list: seq<Listener>, l: Listener)
    requires l in list
    ensures var k := FirstIndex(list, l).value;
      && Removed(list, Some(l)) == (list[..k] + list[k + 1..], true)
      && multiset(Removed(list, Some(l)).0) + multiset{l} == multiset(list)
  {
    var k := FirstIndex(list, l).value;
    assert Removed(list, Some(l)) == (Splice(list, k), true);
    SpliceCount(list, k);
  }

  /** `splice(k, 1)` takes out exactly the element at k. */
  lemma SpliceCount(list: seq<Listener>, k: nat)
    requires k < |list|
    ensures multiset(Splice(list, k)) + multiset{list[k]} == multiset(list)
  {
    var before, after := list[..k], list[k + 1..];
    assert list == before + [list[k]] + after;
  }

  /** Removing a listener that is not in the list still splices index 0. */
  lemma RemoveAbsent(list: seq<Listener>, l: Listener)
    requires l !in list
    ensures Removed(list, Some(l)) == (if |list| == 0 then [] else list[1..], true)
  {
    if |list| > 0 {
      assert list[..0] + list[1..] == list[1..];
    }
  }

  /** Adding a new listener and removing it again restores the list. */
  lemma AddThenRemove(list: seq<Listener>, l: Listener)
    requires l !in list
    ensures Removed(list + [l], Some(l)) == (list, true)
  {
    var k := FirstIndex(list + [l], l).value;
    assert k == |list|;
    assert (list + [l])[..k] + (list + [l])[k + 1..] == list;
  }

  // ---------------------------------------------------------------------
  // Calling the listeners

  /** Settling a promise: the first outcome sticks. */
  function Settle(joins: seq<JoinOutcome>, request: nat, outcome: JoinOutcome): (r: seq<JoinOutcome>)
    ensures |r| == |joins|
    ensures forall k :: 0 <= k < |joins| && (k != request || joins[k] != Pending) ==> r[k] == joins[k]
    ensures request < |joins| && joins[request] == Pending ==> r[request] == outcome
  {
    if request < |joins| && joins[request] == Pending then joins[request := outcome] else joins
  }

  /** The lobby's answer to a room connection request. */
  predicate IsRoomConnect(frame: Frame)
  {
    frame.scope == Some(ScopeLobby) && frame.messageType == RoomConnectType
  }

  /** One listener called with `frame`: the new state and whether it
      threw. The join listener ignores every frame but the lobby's
      RoomConnect; on that frame it removes itself, then rejects when the
      frame carries no data, and otherwise installs the room, calls
      `configure` and resolves. */
  function Call(s: State, l: Listener, frame: Frame): (r: (State, bool))
    ensures |r.0.listeners| <= |s.listeners| && |r.0.joins| == |s.joins|
    ensures r.0.outbox == s.outbox
    ensures s.room.Some? ==> r.0.room.Some?
    ensures Consistent(s) && (l.Join? ==> l.request < |s.joins|) ==> Consistent(r.0)
  {
    match l
    case User(id, throws) => (s.(trace := s.trace + [Heard(id, frame)]), throws)
    case Join(request, configured) =>
      if !IsRoomConnect(frame) then (s, false)
      else
        var list := Removed(s.listeners, Some(l)).0;
        if |frame.data| == 0 then
          (s.(listeners := list, joins := Settle(s.joins, request, Refused)), false)
        else if configured then
          (s.(listeners := list, room := Some(request), joins := Settle(s.joins, request, Joined)), false)
        else
          (s.(listeners := list, room := Some(request)), true)
  }

  /** `onMessage`: `for (const listener of this._onMessages)` from the
      k-th entry on. The iterator reads the live list by index, so a
      listener that removes itself makes the loop skip the one after it;
      a listener that throws ends the loop. */
  function FanOut(s: State, frame: Frame, k: nat): (r: (State, bool))
    decreases |s.listeners| - k
    ensures |r.0.joins| == |s.joins| && r.0.outbox == s.outbox
    ensures s.room.Some? ==> r.0.room.Some?
    ensures Consistent(s) ==> Consistent(r.0)
  {
    if k >= |s.listeners| then (s, false)
    else
      var (next, threw) := Call(s, s.listeners[k], frame);
      if threw then (next, true) else FanOut(next, frame, k + 1)
  }

  /** `onmessage` after the listeners: a room frame reaches the room
      only when one is installed; lobby and scopeless frames always reach
      their handlers. */
  function Route(s: State, frame: Frame): State
  {
    var room := if s.room.Some? && frame.scope == Some(ScopeRoom) then [ToRoom(frame)] else [];
    var lobby := if frame.scope == Some(ScopeLobby) then [ToLobby(frame)] else [];
    var scopeless := if frame.scope == Some(ScopeNone) then [ToScopeless(frame)] else [];
    s.(trace := s.trace + room + lobby + scopeless)
  }

  /** One incoming binary message: decoded, fanned out to the listeners,
      then routed by scope. A frame that does not decode, or a listener
      that throws, stops the handler there. */
  function Receive(s: State, buf: seq<byte>): State
  {
    match DecodeFrame(buf)
    case Err(_) => s
    case Ok(frame) =>
      var (next, threw) := FanOut(s, frame, 0);
      if threw then next else Route(next, frame)
  }

  /** Each scope reaches exactly its own handler, the room's only once
      a room is installed, and nothing but the trace changes. */
  lemma Routing(s: State, frame: Frame)
    ensures Route(s, frame).(trace := s.trace) == s
    ensures var added := Route(s, frame).trace[|s.trace|..];
      && |added| <= 1
      && (ToRoom(frame) in added <==> s.room.Some? && frame.scope == Some(ScopeRoom))
      && (ToLobby(frame) in added <==> frame.scope == Some(ScopeLobby))
      && (ToScopeless(frame) in added <==> frame.scope == Some(ScopeNone))
  {
    var added := Route(s, frame).trace[|s.trace|..];
    if frame.scope == Some(ScopeRoom) {
      assert added == if s.room.Some? then [ToRoom(frame)] else [];
    } else if frame.scope == Some(ScopeLobby) {
      assert added == [ToLobby(frame)];
    } else if frame.scope == Some(ScopeNone) {
      assert added == [ToScopeless(frame)];
    } else {
      assert added == [];
    }
  }

  /** Once a room is installed, no incoming message uninstalls it. */
  lemma RoomStaysSet(s: State, buf: seq<byte>)
    requires s.room.Some?
    ensures Receive(s, buf).room.Some?
  {
  }

  /** Listeners that are all user listeners that return normally. */
  predicate AllUsers(list: seq<Listener>)
  {
    forall j :: 0 <= j < |list| ==> list[j].User? && !list[j].throws
  }

  /** What the user listeners in `list` record, in order. */
  function HeardAll(list: seq<Listener>, frame: Frame): (r: seq<Delivery>)
    ensures |r| <= |list|
  {
    if |list| == 0 then []
    else (if list[0].User? then [Heard(list[0].id, frame)] else []) + HeardAll(list[1..], frame)
  }

  lemma HeardStep(list: seq<Listener>, k: nat, m: nat, frame: Frame)
    requires k < m <= |list| && list[k].User?
    ensures HeardAll(list[k..m], frame) == [Heard(list[k].id, frame)] + HeardAll(list[k + 1..m], frame)
  {
    assert list[k..m][0] == list[k] && list[k..m][1..] == list[k + 1..m];
  }

  /** A listener that neither throws nor is the last one reached hands
      the frame on to the next entry. */
  lemma FanOutStep(s: State, frame: Frame, k: nat, next: State)
    requires k < |s.listeners| && Call(s, s.listeners[k], frame) == (next, false)
    ensures FanOut(s, frame, k) == FanOut(next, frame, k + 1)
  {
  }

  /** User listeners from the k-th to the m-th are called in list order,
      each records the frame, and the loop reaches the m-th entry. */
  lemma {:induction false} FanOutUsers(s: State, frame: Frame, k: nat, m: nat)
    requires k <= m <= |s.listeners| && AllUsers(s.listeners[k..m])
    ensures FanOut(s, frame, k) == FanOut(s.(trace := s.trace + HeardAll(s.listeners[k..m], frame)), frame, m)
    decreases m - k
  {
    var users := s.listeners[k..m];
    if k == m {
      assert s.trace + HeardAll(users, frame) == s.trace;
    } else {
      assert users[0] == s.listeners[k] && users[1..] == s.listeners[k + 1..m];
      var next := s.(trace := s.trace + [Heard(users[0].id, frame)]);
      FanOutStep(s, frame, k, next);
      AllUsersTail(users);
      FanOutUsers(next, frame, k + 1, m);
      HeardStep(s.listeners, k, m, frame);
      assert next.trace + HeardAll(users[1..], frame) == s.trace + HeardAll(users, frame);
    }
  }

  lemma AllUsersTail(users: seq<Listener>)
    requires |users| > 0 && AllUsers(users)
    ensures AllUsers(users[1..])
  {
    assert forall j :: 0 <= j < |users| - 1 ==> users[1..][j] == users[j + 1];
  }

  /** Where the parts of `before + [x] + after` lie, before and after
      `x` is taken out. */
  lemma Around<T>(before: seq<T>, x: T, after: seq<T>)
    requires |after| > 0
    ensures (before + [x] + after)[0..|before|] == before
    ensures (before + [x] + after)[|before|] == x
    ensures (before + after)[|before| + 1..|before + after|] == after[1..]
  {
  }

  /** A list of user listeners hears every frame, in order, and nothing
      else changes. */
  lemma FanOutQuiet(s: State, frame: Frame)
    requires AllUsers(s.listeners)
    ensures FanOut(s, frame, 0) == (s.(trace := s.trace + HeardAll(s.listeners, frame)), false)
  {
    assert s.listeners[0..|s.listeners|] == s.listeners;
    FanOutUsers(s, frame, 0, |s.listeners|);
  }

  /** A user listener that throws ends `onmessage`: the listeners before
      it hear the frame, it records the frame, and neither the listeners
      after it nor the scope handlers are reached. */
  lemma ListenerThrows(s: State, buf: seq<byte>, before: seq<Listener>, id: nat, after: seq<Listener>)
    requires s.listeners == before + [User(id, true)] + after
    requires AllUsers(before) && DecodeFrame(buf).Ok?
    ensures var frame := DecodeFrame(buf).value;
      Receive(s, buf) == s.(trace := s.trace + HeardAll(before, frame) + [Heard(id, frame)])
  {
    var frame := DecodeFrame(buf).value;
    var k := |before|;
    assert s.listeners[0..k] == before && s.listeners[k] == User(id, true);
    FanOutUsers(s, frame, 0, k);
  }

  /** The join listener answers the lobby's RoomConnect: it leaves the
      list, installs the room and resolves; the user listener right
      after it is skipped for this frame and every other one hears it. */
  lemma JoinSkipsNext(s: State, frame: Frame, before: seq<Listener>, request: nat, after: seq<Listener>)
    requires s.listeners == before + [Join(request, true)] + after
    requires AllUsers(before) && AllUsers(after) && |after| > 0
    requires IsRoomConnect(frame) && |frame.data| > 0
    ensures FanOut(s, frame, 0) == (s.(
      listeners := before + after,
      room := Some(request),
      joins := Settle(s.joins, request, Joined),
      trace := s.trace + HeardAll(before, frame) + HeardAll(after[1..], frame)), false)
  {
    var k := |before|;
    Around(before, Join(request, true), after);
    FanOutUsers(s, frame, 0, k);
    var s1 := s.(trace := s.trace + HeardAll(before, frame));
    var s2 := JoinAnswered(s1, frame, before, request, after);
    FanOutStep(s1, frame, k, s2);
    AllUsersTail(after);
    FanOutUsers(s2, frame, k + 1, |before + after|);
  }

  /** The join listener, reached at its place after `before`, removes
      itself from there, installs its room and resolves. */
  lemma JoinAnswered(s: State, frame: Frame, before: seq<Listener>, request: nat, after: seq<Listener>) returns (next: State)
    requires s.listeners == before + [Join(request, true)] + after
    requires AllUsers(before) && IsRoomConnect(frame) && |frame.data| > 0
    ensures next == s.(listeners := before + after, room := Some(request), joins := Settle(s.joins, request, Joined))
    ensures s.listeners[|before|] == Join(request, true)
    ensures Call(s, Join(request, true), frame) == (next, false)
  {
    var j := Join(request, true);
    var list := s.listeners;
    var k := |before|;
    assert list[k] == j;
    assert FirstIndex(list, j) == Some(k) by {
      assert forall i :: 0 <= i < k ==> list[i] == before[i];
    }
    assert list[..k] + list[k + 1..] == before + after;
    next := s.(listeners := before + after, room := Some(request), joins := Settle(s.joins, request, Joined));
  }

  /** The lobby refuses the connection: the join listener leaves the
      list, the promise is rejected and no room is installed. */
  lemma JoinRefused(s: State, frame: Frame, request: nat, configured: bool)
    requires Join(request, configured) in s.listeners && request < |s.joins| && s.joins[request] == Pending
    requires IsRoomConnect(frame) && |frame.data| == 0
    ensures var (next, threw) := Call(s, Join(request, configured), frame);
      && !threw && next.room == s.room && next.trace == s.trace && next.outbox == s.outbox
      && next.listeners == Removed(s.listeners, Some(Join(request, configured))).0
      && next.joins[request] == Refused
      && multiset(next.listeners) + multiset{Join(request, configured)} == multiset(s.listeners)
  {
    RemoveFirst(s.listeners, Join(request, configured));
  }

  /** Until the lobby's RoomConnect arrives, the join listener stays in
      the list and changes nothing. */
  lemma JoinWaits(s: State, frame: Frame, request: nat, configured: bool)
    requires !IsRoomConnect(frame)
    ensures Call(s, Join(request, configured), frame) == (s, false)
  {
  }

  /** Without a `configure` callback the join listener removes itself and
      installs the room, then throws calling `configure`: the promise
      stays pending and nothing is recorded. */
  lemma JoinUnconfigured(s: State, frame: Frame, request: nat)
    requires IsRoomConnect(frame) && |frame.data| > 0
    ensures Call(s, Join(request, false), frame)
         == (s.(listeners := Removed(s.listeners, Some(Join(request, false))).0, room := Some(request)), true)
  {
  }

  /** On the lobby's RoomConnect with data, a join listener without
      `configure` ends `onmessage`: the listeners before it hear the
      frame, it leaves the list and installs the room, its promise stays
      pending, and neither the listeners after it nor the scope handlers
      are reached. */
  lemma UnconfiguredJoinStops(s: State, buf: seq<byte>, before: seq<Listener>, request: nat, after: seq<Listener>)
    requires s.listeners == before + [Join(request, false)] + after
    requires AllUsers(before) && DecodeFrame(buf).Ok?
    requires IsRoomConnect(DecodeFrame(buf).value) && |DecodeFrame(buf).value.data| > 0
    ensures var frame := DecodeFrame(buf).value;
      Receive(s, buf) == s.(listeners := before + after, room := Some(request), trace := s.trace + HeardAll(before, frame))
  {
    var frame := DecodeFrame(buf).value;
    var j := Join(request, false);
    var list := s.listeners;
    var k := |before|;
    assert list[0..k] == before && list[k] == j;
    FanOutUsers(s, frame, 0, k);
    assert FirstIndex(list, j) == Some(k) by {
      assert forall i :: 0 <= i < k ==> list[i] == before[i];
    }
    assert list[..k] + list[k + 1..] == before + after;
  }

  /** The connection frame `connectToRoom` sends reads back as the
      lobby's RoomConnect request for world `id`. */
  lemma RoomConnectFrame(id: Value)
    requires RoundTrip.Encodable(id)
    ensures EncodeFrame(ScopeLobby, RoomConnectType, SerializeLobbyRoomConnect(id)).Ok?
    ensures DecodeFrame(EncodeFrame(ScopeLobby, RoomConnectType, SerializeLobbyRoomConnect(id)).value)
         == Ok(Frame(Some(ScopeLobby), RoomConnectType, [Str(WorldText), id]))
  {
    var data := SerializeLobbyRoomConnect(id);
    assert RoundTrip.Encodable(data[0]);
    RoundTrip.AllEncodable(data);
    RoundTrip.FrameRoundTrip(ScopeLobby, RoomConnectType, data);
  }

  // ---------------------------------------------------------------------
  // The client object

  class Client {
    var listeners: seq<Listener>
    var room: Option<nat>
    var joins: seq<JoinOutcome>
    var outbox: seq<seq<byte>>
    var trace: seq<Delivery>

    function Model(): State
      reads this
    {
      State(listeners, room, joins, outbox, trace)
    }

    predicate Valid()
      reads this
    {
      Consistent(Model())
    }

    /** `new Client(webSocket)`: no listeners, no room, nothing sent. */
    constructor()
      ensures Valid()
      ensures Model() == State([], None, [], [], [])
    {
      listeners := [];
      room := None;
      joins := [];
      outbox := [];
      trace := [];
    }

    /** `addOnMessage(listener)`: `push` onto the list. */
    method AddOnMessage(l: Listener)
      requires Valid() && (l.Join? ==> l.request < |joins|)
      modifies this
      ensures Valid()
      ensures Model() == old(Model()).(listeners := old(listeners) + [l])
    {
      listeners := listeners + [l];
    }

    /** `removeOnMessage(listener)`: a `for..in` search for the first
      identical entry, then `splice(listenerId, 1)` whenever the listener
      is defined. */
    method RemoveOnMessage(l: Option<Listener>) returns (removed: bool)
      requires Valid()
      modifies this
      ensures Valid()
      ensures (listeners, removed) == Removed(old(listeners), l)
      ensures Model() == old(Model()).(listeners := listeners)
    {
      var key: Option<nat> := None;
      for k := 0 to |listeners|
        invariant l.None? || forall j :: 0 <= j < k ==> listeners[j] != l.value
      {
        if l.Some? && listeners[k] == l.value {
          key := Some(k);
          break;
        }
      }
      if l.None? {
        return false;
      }
      assert key == FirstIndex(listeners, l.value) by {
        if key.None? {
          assert l.value !in listeners;
        }
      }
      var start := if key.Some? then key.value else 0;
      listeners := Splice(listeners, start);
      return true;
    }

    /** Calls one listener with `frame`. */
    method Invoke(l: Listener, frame: Frame) returns (threw: bool)
      requires Valid() && (l.Join? ==> l.request < |joins|)
      modifies this
      ensures Valid()
      ensures (Model(), threw) == Call(old(Model()), l, frame)
    {
      match l
      case User(id, throws) =>
        trace := trace + [Heard(id, frame)];
        return throws;
      case Join(request, configured) =>
        if !IsRoomConnect(frame) {
          return false;
        }
        var _ := RemoveOnMessage(Some(l));
        if |frame.data| == 0 {
          joins := Settle(joins, request, Refused);
          return false;
        }
        room := Some(request);
        if !configured {
          return true;
        }
        joins := Settle(joins, request, Joined);
        return false;
    }

    /** `onMessage(sender, message)`: each listener of the live list in
      turn. */
    method OnMessage(frame: Frame) returns (threw: bool)
      requires Valid()
      modifies this
      ensures Valid()
      ensures (Model(), threw) == FanOut(old(Model()), frame, 0)
    {
      var k := 0;
      while k < |listeners|
        invariant Valid()
        invariant FanOut(Model(), frame, k) == FanOut(old(Model()), frame, 0)
        decreases |listeners| - k
      {
        var l := listeners[k];
        assert l in listeners;
        threw := Invoke(l, frame);
        if threw {
          return;
        }
        k := k + 1;
      }
      return false;
    }

    /** `webSocket.onmessage`: decode, fan out, then route by scope. */
    method HandleMessage(buf: seq<byte>)
      requires Valid()
      modifies this
      ensures Valid()
      ensures Model() == Receive(old(Model()), buf)
    {
      var message := Deserialize(buf);
      if message.Err? {
        return;
      }
      var frame := message.value;
      var threw := OnMessage(frame);
      if threw {
        return;
      }
      if room.Some? && frame.scope == Some(ScopeRoom) {
        trace := trace + [ToRoom(frame)];
      }
      if frame.scope == Some(ScopeLobby) {
        trace := trace + [ToLobby(frame)];
      }
      if frame.scope == Some(ScopeNone) {
        trace := trace + [ToScopeless(frame)];
      }
    }

    /** `_rawSend(scope, type, data)`: the serialized frame goes out;
      when `serialize` throws, nothing is sent. */
    method RawSend(scope: byte, messageType: int, data: seq<Value>) returns (r: Result<seq<byte>>)
      modifies this
      ensures r == EncodeFrame(scope, messageType, data)
      ensures Model() == old(Model()).(outbox := old(outbox) + (if r.Ok? then [r.value] else []))
    {
      r := Serialize(scope, messageType, data);
      if r.Ok? {
        outbox := outbox + [r.value];
      }
    }

    /** `connectToRoom(id, configure)`: a fresh promise whose listener
      is added before the lobby's RoomConnect request is sent; when that
      send throws, the promise is rejected and the listener stays. */
    method ConnectToRoom(id: Value, configured: bool) returns (request: nat)
      requires Valid()
      modifies this
      ensures Valid()
      ensures request == |old(joins)|
      ensures listeners == old(listeners) + [Join(request, configured)]
      ensures var sent := EncodeFrame(ScopeLobby, RoomConnectType, SerializeLobbyRoomConnect(id));
        && outbox == old(outbox) + (if sent.Ok? then [sent.value] else [])
        && joins == old(joins) + [if sent.Ok? then Pending else Failed(sent.fault)]
      ensures room == old(room) && trace == old(trace)
    {
      request := |joins|;
      joins := joins + [Pending];
      AddOnMessage(Join(request, configured));
      var sent := RawSend(ScopeLobby, RoomConnectType, SerializeLobbyRoomConnect(id));
      if sent.Err? {
        joins := Settle(joins, request, Failed(sent.fault));
      }
    }

    /** The room's `snedPlaceBlock(layer, x, y, id, args)`, available
      once a room is installed. */
    method SendPlaceBlock(layer: Value, x: Value, y: Value, id: Value, args: Option<BlockArgs>) returns (r: Result<seq<byte>>)
      requires room.Some?
      modifies this
      ensures r == EncodeFrame(ScopeRoom, PlaceBlockType, SerializeRoomPlaceBlock(layer, x, y, id, args))
      ensures Model() == old(Model()).(outbox := old(outbox) + (if r.Ok? then [r.value] else []))
    {
      r := RawSend(ScopeRoom, PlaceBlockType, SerializeRoomPlaceBlock(layer, x, y, id, args));
    }
  }
}
