/** The browser's WebSocket client: one module-level connection, the user id it
    reconnects with, the reconnect timer, and a registry of event listeners that
    incoming `{type, payload}` frames are dispatched to. */
module SocketClient {
  import opened Wrappers
  import opened Strings
  import opened Js
  import WebSocketHandler
  import Java

  /** `WebSocket.readyState`. */
  datatype ReadyState = Connecting | Open | Closing | Closed

  /** A listener is known by its registration handle; calling it is recorded. */
  type Listener = nat

  datatype Call = Call(listener: Listener, payload: Option<Json>)

  /** The query string of the connection URL: a template literal renders a null id
      as the text "null". */
  function ConnectQuery(userId: Option<int>): (q: string)
    ensures StartsWith(q, "userId=")
  {
    "userId=" + match userId case Some(u) => IntToString(u) case None => "null"
  }

  /** The backend reads back exactly the id the client connected with. */
  lemma ConnectQueryNamesUser(sid: nat, u: int)
    requires -0x8000_0000_0000_0000 <= u <= 0x7FFF_FFFF_FFFF_FFFF
    ensures WebSocketHandler.UserIdFromSession(WebSocketHandler.Session(sid, Some(ConnectQuery(Some(u))))) == Some(u)
  {
    WebSocketHandler.UserIdRoundTrip(sid, u);
  }

  /** A connection made without a user id is one the backend cannot register. */
  lemma AnonymousConnectRejected(sid: nat)
    ensures WebSocketHandler.UserIdFromSession(WebSocketHandler.Session(sid, Some(ConnectQuery(None)))) == None
  {
    var name, value := "userId", "null";
    var q := name + "=" + value;
    assert ConnectQuery(None) == q;
    assert forall i :: 0 <= i < |name| ==> name[i] != '&' && name[i] != '=' && name[i] != '#';
    assert forall i :: 0 <= i < |value| ==> value[i] != '&' && value[i] != '#';
    assert WebSocketHandler.QueryPart(Some(q)) == q by {
      assert forall i :: 0 <= i < |q| ==> q[i] != '#';
      WebSocketHandler.NoHash(q, "");
      assert q + "" == q;
    }
    assert WebSocketHandler.QueryParams(q) == [WebSocketHandler.Param(name, Some(value))] by {
      WebSocketHandler.QueryParamsOfSingle(name, value);
    }
    assert Java.ParseLong(value) == None by {
      assert !AllDigits(value) by { assert !IsDigit(value[0]); }
    }
  }

  /** `String(key)` for the property keys a frame's `type` can give: `None` for a
      number, array or object type, which the model does not render. */
  function PropertyKey(v: Option<Json>): Option<string> {
    match v
    case None => Some("undefined")
    case Some(JStr(s)) => Some(s)
    case Some(JNull) => Some("null")
    case Some(JBool(b)) => Some(if b then "true" else "false")
    case Some(_) => None
  }

  /** Sets `obj[key] = value`: an existing key keeps its place, a new one goes last. */
  function SetField(fs: seq<Field>, key: string, value: Json): (r: seq<Field>)
    ensures Lookup(r, key) == Some(value)
    ensures Keys(r) == if HasKey(fs, key) then Keys(fs) else Keys(fs) + [key]
  {
    if fs == [] then [Field(key, value)]
    else if fs[0].key == key then
      KeysCons(Field(key, value), fs[1..]);
      KeysCons(fs[0], fs[1..]);
      assert [fs[0]] + fs[1..] == fs;
      [Field(key, value)] + fs[1..]
    else
      var tail := SetField(fs[1..], key, value);
      HasKeyCons(fs, key);
      KeysCons(fs[0], tail);
      KeysCons(fs[0], fs[1..]);
      assert [fs[0]] + fs[1..] == fs;
      assert ([fs[0]] + tail)[1..] == tail;
      [fs[0]] + tail
  }

  /** Setting one key leaves every other key's value as it was. */
  lemma {:induction false} SetFieldKeepsOthers(fs: seq<Field>, key: string, value: Json, k: string)
    requires k != key
    ensures Lookup(SetField(fs, key, value), k) == Lookup(fs, k)
  {
    if fs != [] && fs[0].key != key {
      SetFieldKeepsOthers(fs[1..], key, value, k);
    }
  }

  function IsTruthy(v: Option<Json>): bool {
    v.Some? && Truthy(v.value)
  }

  /** The payload after the client's own `id`-to-`_id` copy: a truthy object payload
      with a truthy `id` and a falsy or missing `_id` gets `_id = id`. */
  function Normalize(payload: Option<Json>): (r: Option<Json>)
    ensures payload.Some? && payload.value.JObj? && IsTruthy(Lookup(payload.value.fields, "id"))
            && !IsTruthy(Lookup(payload.value.fields, "_id"))
      ==> r.Some? && r.value.JObj? && Lookup(r.value.fields, "_id") == Lookup(payload.value.fields, "id")
          && forall k :: k != "_id" ==> Lookup(r.value.fields, k) == Lookup(payload.value.fields, k)
  {
    match payload
    case Some(JObj(fs)) =>
      var id := Lookup(fs, "id");
      if IsTruthy(id) && !IsTruthy(Lookup(fs, "_id")) then
        assert forall k :: k != "_id" ==> Lookup(SetField(fs, "_id", id.value), k) == Lookup(fs, k) by {
          forall k | k != "_id" {
            SetFieldKeepsOthers(fs, "_id", id.value, k);
          }
        }
        Some(JObj(SetField(fs, "_id", id.value)))
      else payload
    case _ => payload
  }

  /** Normalising never touches a payload that already has a truthy `_id`, and
      normalising twice is normalising once. */
  lemma NormalizeStable(payload: Option<Json>)
    ensures payload.Some? && payload.value.JObj? && IsTruthy(Lookup(payload.value.fields, "_id")) ==> Normalize(payload) == payload
    ensures Normalize(Normalize(payload)) == Normalize(payload)
  {
  }

  /** The frame's event name and payload; `None` for a frame that does not parse
      or parses to null, whose property read throws inside the handler's `try`. */
  function Decode(frame: Option<Json>): Option<(Option<string>, Option<Json>)> {
    match frame
    case None => None
    case Some(JNull) => None
    case Some(JObj(fs)) => Some((PropertyKey(Lookup(fs, "type")), Lookup(fs, "payload")))
    case Some(_) => Some((PropertyKey(None), None))
  }

  /** The calls one incoming frame makes: every listener registered for its type,
      in registration order, with the normalised payload. */
  function Dispatch(listeners: map<string, seq<Listener>>, frame: Option<Json>): (r: seq<Call>)
    ensures Decode(frame).None? ==> r == []
    ensures Decode(frame).Some? ==>
      var (name, payload) := Decode(frame).value;
      if name.Some? && name.value in listeners then
        |r| == |listeners[name.value]|
        && forall i :: 0 <= i < |r| ==> r[i] == Call(listeners[name.value][i], Normalize(payload))
      else r == []
  {
    match Decode(frame)
    case None => []
    case Some((name, payload)) =>
      if name.Some? && name.value in listeners then
        var cbs := listeners[name.value];
        seq(|cbs|, i requires 0 <= i < |cbs| => Call(cbs[i], Normalize(payload)))
      else []
  }

  /** Everything the client holds, as one value. */
  datatype ClientState = ClientState(
    socket: Option<ReadyState>, userId: Option<int>, timers: set<nat>, reconnectTimer: Option<nat>,
    nextTimer: nat, listeners: map<string, seq<Listener>>, connects: seq<string>, calls: seq<Call>)

  /** The state `initializeSocket(id)` leaves. */
  function Initialized(s: ClientState, id: Option<int>): (r: ClientState)
    ensures r.listeners == s.listeners && r.calls == s.calls
    ensures r.userId == if id.Some? && id.value != 0 then id else s.userId
    ensures |r.connects| <= |s.connects| + 1
  {
    var u := if id.Some? && id.value != 0 then id else s.userId;
    if s.socket == Some(Open) || s.socket == Some(Connecting) then s.(userId := u)
    else
      s.(userId := u, socket := Some(Connecting), reconnectTimer := None,
         timers := if s.reconnectTimer.Some? then s.timers - {s.reconnectTimer.value} else s.timers,
         connects := s.connects + [ConnectQuery(u)])
  }

  /** The state `disconnectSocket()` leaves. */
  function Disconnected(s: ClientState): (r: ClientState)
    ensures r.userId == None && r.socket == None && r.timers <= s.timers
    ensures r.listeners == s.listeners && r.connects == s.connects
  {
    s.(userId := None, socket := None,
       timers := if s.reconnectTimer.Some? then s.timers - {s.reconnectTimer.value} else s.timers)
  }

  /** The state `getSocket().on(name, cb)` leaves. */
  function Subscribed(s: ClientState, name: string, cb: Listener): (r: ClientState)
    ensures s.socket.Some? ==> name in r.listeners && |r.listeners[name]| > 0 && r.listeners[name][|r.listeners[name]| - 1] == cb
    ensures s.socket.None? ==> r == s
  {
    if s.socket.Some? then
      s.(listeners := s.listeners[name := (if name in s.listeners then s.listeners[name] else []) + [cb]])
    else s
  }

  /** The state `getSocket().off(name)` leaves. */
  function Unsubscribed(s: ClientState, name: string): (r: ClientState)
    ensures s.socket.Some? ==> name !in r.listeners
    ensures forall n :: n != name ==> (n in r.listeners <==> n in s.listeners)
  {
    if s.socket.Some? then s.(listeners := s.listeners - {name}) else s
  }

  class Client {
    /** The current connection's state; `None` when there is no socket. */
    var socket: Option<ReadyState>
    /** The id used for (re)connecting; never a falsy id. */
    var userId: Option<int>
    /** Timers that have not fired or been cleared, and the handle kept in
        `reconnectTimer`; handles are numbered from `nextTimer` on. */
    var timers: set<nat>
    var reconnectTimer: Option<nat>
    var nextTimer: nat
    var listeners: map<string, seq<Listener>>
    /** Query strings of the connections opened, oldest first. */
    var connects: seq<string>
    /** Listener calls made, oldest first. */
    var calls: seq<Call>

    function Snapshot(): ClientState
      reads this
    {
      ClientState(socket, userId, timers, reconnectTimer, nextTimer, listeners, connects, calls)
    }

    ghost predicate Valid()
      reads this
    {
      (userId.Some? ==> userId.value != 0)
      && (socket.Some? ==> |connects| > 0)
      && (forall t :: t in timers ==> t < nextTimer)
      && (reconnectTimer.Some? ==> reconnectTimer.value < nextTimer)
    }

    constructor ()
      ensures Valid()
      ensures socket == None && userId == None && timers == {} && reconnectTimer == None
      ensures listeners == map[] && connects == [] && calls == []
    {
      socket := None;
      userId := None;
      timers := {};
      reconnectTimer := None;
      nextTimer := 0;
      listeners := map[];
      connects := [];
      calls := [];
    }

    /** `initializeSocket(id)`: a truthy id replaces the stored one; an open or
        connecting socket is kept; otherwise the kept timer is cleared and a new
        connection is opened with the stored id. */
    method InitializeSocket(id: Option<int>)
      requires Valid()
      modifies this
      ensures Valid()
      ensures Snapshot() == Initialized(old(Snapshot()), id)
      ensures userId == if id.Some? && id.value != 0 then id else old(userId)
      ensures listeners == old(listeners) && calls == old(calls) && nextTimer == old(nextTimer)
      ensures old(socket) in {Some(Open), Some(Connecting)} ==>
        socket == old(socket) && timers == old(timers) && reconnectTimer == old(reconnectTimer) && connects == old(connects)
      ensures old(socket) !in {Some(Open), Some(Connecting)} ==>
        socket == Some(Connecting) && reconnectTimer == None
        && timers == (if old(reconnectTimer).Some? then old(timers) - {old(reconnectTimer).value} else old(timers))
        && connects == old(connects) + [ConnectQuery(userId)]
    {
      if id.Some? && id.value != 0 {
        userId := id;
      }
      if socket == Some(Open) || socket == Some(Connecting) {
        return;
      }
      if reconnectTimer.Some? {
        timers := timers - {reconnectTimer.value};
        reconnectTimer := None;
      }
      socket := Some(Connecting);
      connects := connects + [ConnectQuery(userId)];
    }

    /** The browser finished the handshake of the current connection. */
    method OnOpen()
      requires Valid()
      modifies this
      ensures Valid()
      ensures socket == if old(socket) == Some(Connecting) then Some(Open) else old(socket)
      ensures userId == old(userId) && timers == old(timers) && reconnectTimer == old(reconnectTimer)
      ensures nextTimer == old(nextTimer) && listeners == old(listeners)
      ensures connects == old(connects) && calls == old(calls)
    {
      if socket == Some(Connecting) {
        socket := Some(Open);
      }
    }

    /** `onclose` of connection `conn` (an index into `connects`): it closes the
        current socket only when `conn` is the connection that socket holds, as the
        handler itself never touches `socket`; a reconnect is scheduled only while a
        user id is stored; the new timer replaces the kept handle without clearing
        the one it held. */
    method OnClose(conn: nat)
      requires Valid() && conn < |connects|
      modifies this
      ensures Valid()
      ensures socket == if old(socket).Some? && conn == |connects| - 1 then Some(Closed) else old(socket)
      ensures userId == old(userId) && listeners == old(listeners) && connects == old(connects) && calls == old(calls)
      ensures old(userId).None? ==> timers == old(timers) && reconnectTimer == old(reconnectTimer) && nextTimer == old(nextTimer)
      ensures old(userId).Some? ==>
        timers == old(timers) + {old(nextTimer)} && reconnectTimer == Some(old(nextTimer)) && nextTimer == old(nextTimer) + 1
    {
      if socket.Some? && conn == |connects| - 1 {
        socket := Some(Closed);
      }
      if userId.Some? {
        timers := timers + {nextTimer};
        reconnectTimer := Some(nextTimer);
        nextTimer := nextTimer + 1;
      }
    }

    /** A pending reconnect timer fires and calls `initializeSocket()` without an id. */
    method TimerFires(t: nat)
      requires Valid() && t in timers
      modifies this
      ensures Valid()
      ensures userId == old(userId) && listeners == old(listeners) && calls == old(calls)
      ensures t !in timers
      ensures old(socket) !in {Some(Open), Some(Connecting)} ==>
        socket == Some(Connecting) && connects == old(connects) + [ConnectQuery(old(userId))]
      ensures old(socket) in {Some(Open), Some(Connecting)} ==> socket == old(socket) && connects == old(connects)
    {
      timers := timers - {t};
      InitializeSocket(None);
    }

    /** `getSocket().on(name, cb)`: with a socket, `cb` goes to the end of the list
        for `name`, created if missing; without one the inert stand-in ignores it. */
    method On(name: string, cb: Listener)
      requires Valid()
      modifies this
      ensures Valid()
      ensures Snapshot() == Subscribed(old(Snapshot()), name, cb)
      ensures old(socket).Some? ==>
        listeners == old(listeners)[name := (if name in old(listeners) then old(listeners)[name] else []) + [cb]]
      ensures old(socket).None? ==> listeners == old(listeners)
      ensures socket == old(socket) && userId == old(userId) && timers == old(timers)
      ensures reconnectTimer == old(reconnectTimer) && nextTimer == old(nextTimer)
      ensures connects == old(connects) && calls == old(calls)
    {
      if socket.Some? {
        var existing := if name in listeners then listeners[name] else [];
        listeners := listeners[name := existing + [cb]];
      }
    }

    /** `getSocket().off(name)`: every listener for `name` goes, the others stay. */
    method Off(name: string)
      requires Valid()
      modifies this
      ensures Valid()
      ensures Snapshot() == Unsubscribed(old(Snapshot()), name)
      ensures listeners == if old(socket).Some? then old(listeners) - {name} else old(listeners)
      ensures socket == old(socket) && userId == old(userId) && timers == old(timers)
      ensures reconnectTimer == old(reconnectTimer) && nextTimer == old(nextTimer)
      ensures connects == old(connects) && calls == old(calls)
    {
      if socket.Some? {
        listeners := listeners - {name};
      }
    }

    /** `onmessage`: the frame's listeners are called in order. */
    method Receive(frame: Option<Json>)
      requires Valid()
      modifies this
      ensures Valid()
      ensures calls == old(calls) + Dispatch(listeners, frame)
      ensures socket == old(socket) && userId == old(userId) && timers == old(timers)
      ensures reconnectTimer == old(reconnectTimer) && nextTimer == old(nextTimer)
      ensures listeners == old(listeners) && connects == old(connects)
    {
      var d := Decode(frame);
      if d.None? {
        return;
      }
      var (name, payload) := d.value;
      if name.None? || name.value !in listeners {
        return;
      }
      var cbs := listeners[name.value];
      assert |Dispatch(listeners, frame)| == |cbs|;
      var i := 0;
      while i < |cbs|
        invariant 0 <= i <= |cbs|
        invariant socket == old(socket) && userId == old(userId) && timers == old(timers)
        invariant reconnectTimer == old(reconnectTimer) && nextTimer == old(nextTimer)
        invariant listeners == old(listeners) && connects == old(connects)
        invariant calls == old(calls) + Dispatch(listeners, frame)[..i]
      {
        calls := calls + [Call(cbs[i], Normalize(payload))];
        i := i + 1;
      }
    }

    /** `getSocket().disconnect()`: closes and drops the socket but keeps the user
        id, so its close event schedules a reconnect. */
    method FacadeDisconnect()
      requires Valid()
      modifies this
      ensures Valid()
      ensures socket == None
      ensures userId == old(userId) && timers == old(timers) && reconnectTimer == old(reconnectTimer)
      ensures nextTimer == old(nextTimer) && listeners == old(listeners)
      ensures connects == old(connects) && calls == old(calls)
    {
      socket := None;
    }

    /** `disconnectSocket()`: forgets the user id and clears the kept timer (the
        handle itself is not reset), then drops the socket. */
    method DisconnectSocket()
      requires Valid()
      modifies this
      ensures Valid()
      ensures Snapshot() == Disconnected(old(Snapshot()))
      ensures socket == None && userId == None
      ensures timers == if old(reconnectTimer).Some? then old(timers) - {old(reconnectTimer).value} else old(timers)
      ensures reconnectTimer == old(reconnectTimer) && nextTimer == old(nextTimer)
      ensures listeners == old(listeners) && connects == old(connects) && calls == old(calls)
    {
      userId := None;
      if reconnectTimer.Some? {
        timers := timers - {reconnectTimer.value};
      }
      socket := None;
    }
  }

  /** After a logout the close event schedules no reconnect, while after the
      facade's disconnect it does. */
  method LogoutStopsReconnect(c: Client, conn: nat)
    requires c.Valid() && conn < |c.connects|
    modifies c
    ensures c.Valid()
    ensures c.timers <= old(c.timers) && c.userId == None
  {
    c.DisconnectSocket();
    c.OnClose(conn);
  }

  method DropKeepsReconnect(c: Client, conn: nat) returns (scheduled: nat)
    requires c.Valid() && c.userId.Some? && conn < |c.connects|
    modifies c
    ensures c.Valid()
    ensures scheduled in c.timers && c.userId == old(c.userId)
  {
    scheduled := c.nextTimer;
    c.FacadeDisconnect();
    c.OnClose(conn);
  }

  /** The facade's `disconnect()`, a new `initializeSocket`, then the late close
      event of the dropped connection: the new connection stays, and the reconnect
      timer that event schedules opens nothing when it fires. */
  method LateCloseOpensNothing(c: Client) returns (scheduled: nat)
    requires c.Valid() && c.userId.Some? && c.socket.Some?
    modifies c
    ensures c.Valid()
    ensures c.socket == Some(Connecting)
    ensures |c.connects| == |old(c.connects)| + 1
  {
    var dropped := |c.connects| - 1;
    c.FacadeDisconnect();
    c.InitializeSocket(None);
    scheduled := c.nextTimer;
    c.OnClose(dropped);
    c.TimerFires(scheduled);
  }
}
