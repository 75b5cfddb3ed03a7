/** The WebSocket endpoint: the handshake reads the user id from the connection's
    query string and registers the session; `typing` frames are relayed to their
    receiver; closing a connection unregisters it. */
module WebSocketHandler {
  import opened Wrappers
  import opened Strings
  import opened Entities
  import opened SocketService
  import Java

  /** A connection: its identity and the (decoded) query of its URI, `None` when the
      URI has no query. */
  datatype Session = Session(id: SessionId, query: Option<string>)

  /** One query parameter; a name without `=` has a null value, `name=` an empty one. */
  datatype Param = Param(name: string, value: Option<string>)

  /** Length of the longest prefix of `s` free of the characters `stops`. */
  function RunLength(s: string, stops: set<char>): (n: nat)
    ensures n <= |s|
    ensures forall i :: 0 <= i < n ==> s[i] !in stops
    ensures n < |s| ==> s[n] in stops
  {
    if s == [] || s[0] in stops then 0 else 1 + RunLength(s[1..], stops)
  }

  /** The query parameters as Spring's `UriComponentsBuilder` reads them: repeated
      matches of `([^&=]+)(=?)([^&]+)?`, skipping characters where no match starts. */
  function QueryParams(q: string): seq<Param>
    decreases |q|
  {
    if q == [] then []
    else if q[0] == '&' || q[0] == '=' then QueryParams(q[1..])
    else
      var n := RunLength(q, {'&', '='});
      var name := q[..n];
      if n < |q| && q[n] == '=' then
        var rest := q[n + 1..];
        var v := RunLength(rest, {'&'});
        [Param(name, Some(rest[..v]))] + QueryParams(rest[v..])
      else
        [Param(name, None)] + QueryParams(q[n..])
  }

  /** `getFirst(name)`: the value of the first parameter with that name; `None` when
      there is none. */
  function FirstValue(ps: seq<Param>, name: string): Option<Option<string>> {
    if ps == [] then None
    else if ps[0].name == name then Some(ps[0].value)
    else FirstValue(ps[1..], name)
  }

  /** `fromUriString("?" + query)` keeps the query up to the first `#` (the rest is a
      fragment); a missing query is concatenated as the text "null". */
  function QueryPart(query: Option<string>): string {
    var text := match query case Some(q) => q case None => "null";
    var hash := IndexOf(text, '#');
    if hash < 0 then text else text[..hash]
  }

  /** `getUserIdFromSession`: the first `userId` parameter read as a `Long`;
      `None` where the source catches an exception and returns null. */
  function UserIdFromSession(session: Session): (r: Option<UserId>)
    ensures r.Some? ==> Java.IsLong(r.value)
    ensures r.Some? <==> exists t :: FirstValue(QueryParams(QueryPart(session.query)), "userId") == Some(Some(t))
                                   && Java.ParseLong(t).Some?
    ensures forall t :: FirstValue(QueryParams(QueryPart(session.query)), "userId") == Some(Some(t)) ==>
      r == Java.ParseLong(t)
  {
    match FirstValue(QueryParams(QueryPart(session.query)), "userId")
    case Some(Some(text)) => Java.ParseLong(text)
    case _ => None
  }

  lemma QueryParamsOfSingle(name: string, value: string)
    requires |name| > 0
    requires forall i :: 0 <= i < |name| ==> name[i] != '&' && name[i] != '='
    requires forall i :: 0 <= i < |value| ==> value[i] != '&'
    ensures QueryParams(name + "=" + value) == [Param(name, Some(value))]
  {
    var q := name + "=" + value;
    assert q == name + ("=" + value);
    RunLengthOfPrefix(name, "=" + value, {'&', '='});
    var n := RunLength(q, {'&', '='});
    assert n == |name| && q[..n] == name && q[n] == '=';
    var rest := q[n + 1..];
    assert rest == value;
    RunLengthOfPrefix(value, [], {'&'});
    assert value + [] == value;
    var v := RunLength(rest, {'&'});
    assert v == |value| && rest[..v] == value && rest[v..] == [];
    assert QueryParams(q) == [Param(name, Some(value))] + QueryParams([]);
  }

  lemma {:induction false} RunLengthOfPrefix(a: string, b: string, stops: set<char>)
    requires forall i :: 0 <= i < |a| ==> a[i] !in stops
    requires b == [] || b[0] in stops
    ensures RunLength(a + b, stops) == |a|
  {
    if a != [] {
      assert (a + b)[1..] == a[1..] + b;
      RunLengthOfPrefix(a[1..], b, stops);
    }
  }

  /** The query the frontend opens its socket with, `userId=<id>`, reads back as that id. */
  lemma UserIdRoundTrip(sid: SessionId, id: UserId)
    requires Java.IsLong(id)
    ensures UserIdFromSession(Session(sid, Some("userId=" + IntToString(id)))) == Some(id)
  {
    var digits := IntToString(id);
    assert forall i :: 0 <= i < |digits| ==> digits[i] != '&' && digits[i] != '#' by {
      IntToStringChars(id);
    }
    var q := "userId=" + digits;
    NoHash("userId=", digits);
    assert QueryPart(Some(q)) == q;
    assert q == "userId" + "=" + digits;
    QueryParamsOfSingle("userId", digits);
    Java.ParseLongRoundTrip(id);
  }

  /** A URI without a query reads as the query text "null": one parameter named
      `null`, so there is no user id. */
  lemma UserIdOfMissingQuery(sid: SessionId)
    ensures UserIdFromSession(Session(sid, None)) == None
  {
    assert IndexOf("null", '#') < 0 by {
      assert '#' !in "null";
    }
    RunLengthOfPrefix("null", [], {'&', '='});
    assert "null" + [] == "null";
    assert QueryPart(None) == "null";
    var ps := QueryParams("null");
    assert ps == [Param("null", None)];
    assert "null" != "userId" by {
      assert "null"[0] != "userId"[0];
    }
    assert FirstValue(ps, "userId") == FirstValue(ps[1..], "userId");
  }

  lemma NoHash(a: string, b: string)
    requires '#' !in a && forall i :: 0 <= i < |b| ==> b[i] != '#'
    ensures IndexOf(a + b, '#') < 0
  {
    assert '#' !in a + b;
  }

  lemma IntToStringChars(x: int)
    ensures forall i :: 0 <= i < |IntToString(x)| ==> IntToString(x)[i] == '-' || IsDigit(IntToString(x)[i])
  {
    if x < 0 {
      NatToStringRoundTrip(-x);
    } else {
      NatToStringRoundTrip(x);
    }
  }

  /** A frame received from a client: `None` when the text is not JSON; otherwise its
      `type` as text and `payload.receiverId` as a Long (`None` when absent). */
  datatype InFrame = InFrame(frameType: string, receiverId: Option<int>)

  datatype ConnectResult = Registered(userId: UserId) | ClosedBadData

  /** `afterConnectionEstablished`. */
  method AfterConnectionEstablished(registry: SocketRegistry, session: Session, net: Network) returns (r: ConnectResult)
    modifies registry
    ensures UserIdFromSession(session).Some? ==>
      r == Registered(UserIdFromSession(session).value)
      && registry.sessions == old(registry.sessions)[r.userId := session.id]
      && registry.log == old(registry.log)
         + BroadcastDeliveries(registry.sessions, net, Frame("userOnline", UserIdPayload(r.userId)))
         + UnicastDeliveries(registry.sessions, net, r.userId,
             Frame("getOnlineUsers", OnlineUsersPayload(registry.sessions.Keys)))
    ensures UserIdFromSession(session).None? ==>
      r == ClosedBadData && registry.sessions == old(registry.sessions) && registry.log == old(registry.log)
  {
    var userId := UserIdFromSession(session);
    if userId.Some? {
      registry.AddSession(userId.value, session.id, net);
      r := Registered(userId.value);
    } else {
      r := ClosedBadData;
    }
  }

  /** `handleTextMessage`: only `typing` frames do anything. The sender is the id in the
      connection's own query, never a field of the frame; a missing receiverId reads
      as 0. */
  method HandleTextMessage(registry: SocketRegistry, session: Session, inbound: Option<InFrame>, net: Network)
    modifies registry
    ensures registry.sessions == old(registry.sessions)
    ensures
      if inbound.Some? && inbound.value.frameType == "typing" && UserIdFromSession(session).Some? then
        registry.log == old(registry.log) + UnicastDeliveries(registry.sessions, net,
          inbound.value.receiverId.GetOr(0), Frame("typing", TypingPayload(UserIdFromSession(session).value)))
      else registry.log == old(registry.log)
  {
    if inbound.Some? && inbound.value.frameType == "typing" {
      var receiverId := inbound.value.receiverId.GetOr(0);
      var senderId := UserIdFromSession(session);
      if senderId.Some? {
        registry.SendMessageToUser(receiverId, "typing", TypingPayload(senderId.value), net);
      }
    }
  }

  /** `afterConnectionClosed`: always hands the session to `removeSession`. */
  method AfterConnectionClosed(registry: SocketRegistry, session: Session, net: Network)
    modifies registry
    ensures OwnerOf(old(registry.sessions), session.id).None? ==>
      registry.sessions == old(registry.sessions) && registry.log == old(registry.log)
    ensures OwnerOf(old(registry.sessions), session.id).Some? ==>
      var u := OwnerOf(old(registry.sessions), session.id).value;
      registry.sessions == old(registry.sessions) - {u}
      && registry.log == old(registry.log) + BroadcastDeliveries(registry.sessions, net, Frame("userOffline", UserIdPayload(u)))
  {
    registry.RemoveSession(session.id, net);
  }
}
