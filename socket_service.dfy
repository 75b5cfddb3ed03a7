/** The server-side session registry: one WebSocket session per user id, with
    unicast and broadcast of `{type, payload}` frames. Frames that reach a session
    are recorded in `log`; the transport (which sessions are open, which fail with
    an I/O error when written to) is a parameter. */
module SocketService {
  import opened Wrappers
  import opened Entities
  import Collections

  /** Identity of a `WebSocketSession` object. */
  type SessionId = nat

  datatype Network = Network(open: set<SessionId>, failing: set<SessionId>) {
    /** `session.isOpen()` holds and `sendMessage` does not throw. */
    predicate Delivers(s: SessionId) {
      s in open && s !in failing
    }
  }

  /** The payloads the backend sends. */
  datatype Payload =
    | UserIdPayload(userId: UserId)
    | OnlineUsersPayload(userIds: set<UserId>)
      /** The `newMatch` card `{_id, name, image}`, which the sender hands over
          already serialised to JSON text; the fields stand for that text. */
    | MatchJsonPayload(matchId: UserId, matchName: Option<string>, matchImage: Option<string>)
    | TypingPayload(senderId: UserId)
    | MessagePayload(messageId: int, content: Option<string>, fromId: UserId, toId: UserId,
                     createdAt: int, attachments: seq<Attachment>)
    | NewUserProfilePayload(newUserId: UserId)

  /** The serialised map `{type: eventName, payload}`. */
  datatype Frame = Frame(eventType: string, payload: Payload)

  /** A frame written to the session registered for user `to`. */
  datatype Delivery = Delivery(to: UserId, session: SessionId, frame: Frame)

  /** What `sendMessageToUser(u, …)` writes: one frame, to u's session, when it is open. */
  function UnicastDeliveries(sessions: map<UserId, SessionId>, net: Network, u: UserId, frame: Frame): (r: seq<Delivery>)
    ensures |r| <= 1
    ensures r != [] <==> u in sessions && net.Delivers(sessions[u])
    ensures forall d :: d in r ==> d == Delivery(u, sessions[u], frame)
  {
    if u in sessions && net.Delivers(sessions[u]) then [Delivery(u, sessions[u], frame)] else []
  }

  /** The frames written while visiting the users `ids` in order. */
  function DeliverTo(ids: seq<UserId>, sessions: map<UserId, SessionId>, net: Network, frame: Frame): seq<Delivery> {
    if ids == [] then []
    else DeliverTo(ids[..|ids| - 1], sessions, net, frame) + UnicastDeliveries(sessions, net, ids[|ids| - 1], frame)
  }

  lemma DeliverToStep(ids: seq<UserId>, i: nat, sessions: map<UserId, SessionId>, net: Network, frame: Frame)
    requires i < |ids|
    ensures DeliverTo(ids[..i + 1], sessions, net, frame)
      == DeliverTo(ids[..i], sessions, net, frame) + UnicastDeliveries(sessions, net, ids[i], frame)
  {
    assert ids[..i + 1][..i] == ids[..i];
  }

  /** What `broadcast` writes, visiting the registered users in ascending id order. */
  function BroadcastDeliveries(sessions: map<UserId, SessionId>, net: Network, frame: Frame): seq<Delivery> {
    DeliverTo(Collections.AscendingIds(sessions.Keys), sessions, net, frame)
  }

  lemma {:induction false} DeliverToMembers(ids: seq<UserId>, sessions: map<UserId, SessionId>, net: Network, frame: Frame, d: Delivery)
    ensures d in DeliverTo(ids, sessions, net, frame) <==>
      d.to in ids && d.to in sessions && d.session == sessions[d.to] && d.frame == frame && net.Delivers(d.session)
  {
    if ids != [] {
      var init := ids[..|ids| - 1];
      DeliverToMembers(init, sessions, net, frame, d);
      assert ids == init + [ids[|ids| - 1]];
    }
  }

  lemma {:induction false} DeliverToOrdered(ids: seq<UserId>, sessions: map<UserId, SessionId>, net: Network, frame: Frame)
    requires Collections.StrictlyIncreasing(ids)
    ensures Collections.StrictlyIncreasing(Recipients(DeliverTo(ids, sessions, net, frame)))
  {
    if ids != [] {
      var init := ids[..|ids| - 1];
      DeliverToOrdered(init, sessions, net, frame);
      forall d | d in DeliverTo(init, sessions, net, frame)
        ensures d.to < ids[|ids| - 1]
      {
        DeliverToMembers(init, sessions, net, frame, d);
      }
    }
  }

  function Recipients(ds: seq<Delivery>): (r: seq<UserId>)
    ensures |r| == |ds| && forall i :: 0 <= i < |ds| ==> r[i] == ds[i].to
  {
    if ds == [] then [] else Recipients(ds[..|ds| - 1]) + [ds[|ds| - 1].to]
  }

  /** A broadcast reaches exactly the registered users whose session is open and
      writable, one frame each; a session that fails does not stop the others. */
  lemma BroadcastReachesEveryOpenSession(sessions: map<UserId, SessionId>, net: Network, frame: Frame, d: Delivery)
    ensures d in BroadcastDeliveries(sessions, net, frame) <==>
      d.to in sessions && d.session == sessions[d.to] && d.frame == frame && net.Delivers(d.session)
    ensures Collections.StrictlyIncreasing(Recipients(BroadcastDeliveries(sessions, net, frame)))
  {
    var ids := Collections.AscendingIds(sessions.Keys);
    DeliverToMembers(ids, sessions, net, frame, d);
    DeliverToOrdered(ids, sessions, net, frame);
  }

  /** The first registered user (in iteration order) whose session is `s`. */
  function OwnerOf(sessions: map<UserId, SessionId>, s: SessionId): (r: Option<UserId>)
    ensures r.None? <==> forall u :: u in sessions ==> sessions[u] != s
    ensures r.Some? ==> r.value in sessions && sessions[r.value] == s
  {
    var owners := set u | u in sessions.Keys && sessions[u] == s;
    assert forall u :: u in sessions && sessions[u] == s ==> u in owners;
    if owners == {} then None else Some(Collections.Min(owners))
  }

  /** The loop of `broadcast`: visit the registered users `ids` in turn and write
      the frame to each session that is open; an I/O error on one session is
      caught and the visit goes on. */
  method CollectBroadcast(ids: seq<UserId>, registered: map<UserId, SessionId>, net: Network, frame: Frame)
    returns (sent: seq<Delivery>)
    requires forall k :: 0 <= k < |ids| ==> ids[k] in registered
    ensures sent == DeliverTo(ids, registered, net, frame)
  {
    sent := [];
    var i := 0;
    while i < |ids|
      invariant 0 <= i <= |ids|
      invariant sent == DeliverTo(ids[..i], registered, net, frame)
    {
      var u := ids[i];
      var s := registered[u];
      if net.Delivers(s) {
        sent := sent + [Delivery(u, s, frame)];
      }
      DeliverToStep(ids, i, registered, net, frame);
      i := i + 1;
    }
    assert ids[..|ids|] == ids;
  }

  class SocketRegistry {
    var sessions: map<UserId, SessionId>
    var log: seq<Delivery>

    constructor ()
      ensures sessions == map[] && log == []
    {
      sessions := map[];
      log := [];
    }

    /** `sendMessageToUser`: a silent no-op unless the user has an open session. */
    method SendMessageToUser(u: UserId, eventName: string, payload: Payload, net: Network)
      modifies this
      ensures sessions == old(sessions)
      ensures log == old(log) + UnicastDeliveries(sessions, net, u, Frame(eventName, payload))
    {
      var s := if u in sessions then Some(sessions[u]) else None;
      if s.Some? && net.Delivers(s.value) {
        log := log + [Delivery(u, s.value, Frame(eventName, payload))];
      }
    }

    /** `broadcast`: every registered session is visited; a failing one is skipped. */
    method Broadcast(eventName: string, payload: Payload, net: Network)
      modifies this
      ensures sessions == old(sessions)
      ensures log == old(log) + BroadcastDeliveries(sessions, net, Frame(eventName, payload))
    {
      var ids := Collections.AscendingIds(sessions.Keys);
      var sent := CollectBroadcast(ids, sessions, net, Frame(eventName, payload));
      log := log + sent;
    }

    /** `addSession`: register (replacing an earlier session of the same user), tell
        everyone, the new session included, that the user is online, then send the
        newcomer the ids of all registered users. */
    method AddSession(u: UserId, s: SessionId, net: Network)
      modifies this
      ensures sessions == old(sessions)[u := s]
      ensures log == old(log)
        + BroadcastDeliveries(sessions, net, Frame("userOnline", UserIdPayload(u)))
        + UnicastDeliveries(sessions, net, u, Frame("getOnlineUsers", OnlineUsersPayload(sessions.Keys)))
    {
      sessions := sessions[u := s];
      Broadcast("userOnline", UserIdPayload(u), net);
      SendMessageToUser(u, "getOnlineUsers", OnlineUsersPayload(sessions.Keys), net);
    }

    /** `removeSession`: unregister the user holding exactly this session and tell the
        remaining users; a session that is not registered (e.g. one replaced by a
        newer session of the same user) changes nothing. */
    method RemoveSession(s: SessionId, net: Network)
      modifies this
      ensures OwnerOf(old(sessions), s).None? ==> sessions == old(sessions) && log == old(log)
      ensures OwnerOf(old(sessions), s).Some? ==>
        var u := OwnerOf(old(sessions), s).value;
        sessions == old(sessions) - {u}
        && log == old(log) + BroadcastDeliveries(sessions, net, Frame("userOffline", UserIdPayload(u)))
    {
      var owner := OwnerOf(sessions, s);
      if owner.Some? {
        sessions := sessions - {owner.value};
        Broadcast("userOffline", UserIdPayload(owner.value), net);
      }
    }
  }

  /** After `addSession(u, s)` with s open, s itself receives `userOnline` for u and then,
      alone, `getOnlineUsers` listing every registered id, u included. */
  lemma AddSessionAnnouncesNewcomer(before: map<UserId, SessionId>, u: UserId, s: SessionId, net: Network)
    requires net.Delivers(s)
    ensures Delivery(u, s, Frame("userOnline", UserIdPayload(u))) in BroadcastDeliveries(before[u := s], net, Frame("userOnline", UserIdPayload(u)))
    ensures UnicastDeliveries(before[u := s], net, u, Frame("getOnlineUsers", OnlineUsersPayload(before.Keys + {u})))
      == [Delivery(u, s, Frame("getOnlineUsers", OnlineUsersPayload(before.Keys + {u})))]
  {
    BroadcastReachesEveryOpenSession(before[u := s], net, Frame("userOnline", UserIdPayload(u)), Delivery(u, s, Frame("userOnline", UserIdPayload(u))));
  }

  /** A superseded session (its user has re-registered with another one) is no longer
      anyone's, so closing it neither unregisters nor announces anything. */
  lemma SupersededSessionIsInert(before: map<UserId, SessionId>, u: UserId, old_s: SessionId, new_s: SessionId)
    requires u in before && before[u] == old_s && old_s != new_s
    requires forall v :: v in before && v != u ==> before[v] != old_s
    ensures OwnerOf(before[u := new_s], old_s).None?
  {
  }

  /** A unicast never writes to a session other than the addressee's. */
  lemma UnicastOnlyTouchesAddressee(sessions: map<UserId, SessionId>, net: Network, u: UserId, frame: Frame, d: Delivery)
    requires d in UnicastDeliveries(sessions, net, u, frame)
    ensures d.to == u && d.session == sessions[u] && d.frame == frame
  {
  }
}
