/** The client-side session store: the signed-in user, whether the initial session
    check is still running, and the ids of the users currently online. */
module AuthStore {
  import opened Wrappers
  import opened Js
  import opened SocketClient

  /** The users left after `filter((id) => id !== userId)`. */
  function WithoutUser(online: seq<Json>, id: Json): (r: seq<Json>)
    ensures forall x :: x in r <==> x in online && !StrictEquals(Some(x), Some(id))
    ensures |r| <= |online|
  {
    if online == [] then []
    else
      var rest := WithoutUser(online[1..], id);
      assert forall x :: x in online <==> x == online[0] || x in online[1..] by {
        assert online == [online[0]] + online[1..];
      }
      if StrictEquals(Some(online[0]), Some(id)) then rest else [online[0]] + rest
  }

  /** The filter keeps the survivors in their order: a user who is not the one
      going offline keeps its place relative to the others. */
  lemma {:induction false} WithoutUserKeepsOthers(online: seq<Json>, id: Json)
    requires forall i :: 0 <= i < |online| ==> !StrictEquals(Some(online[i]), Some(id))
    ensures WithoutUser(online, id) == online
  {
    if online != [] {
      WithoutUserKeepsOthers(online[1..], id);
      assert online == [online[0]] + online[1..];
    }
  }

  /** The filter works element by element: filtering a concatenation filters each part. */
  lemma {:induction false} WithoutUserAppend(a: seq<Json>, b: seq<Json>, id: Json)
    ensures WithoutUser(a + b, id) == WithoutUser(a, id) + WithoutUser(b, id)
  {
    if a == [] {
      assert a + b == b;
    } else {
      assert (a + b)[0] == a[0];
      assert (a + b)[1..] == a[1..] + b;
      WithoutUserAppend(a[1..], b, id);
    }
  }

  /** A second `userOffline` for the same user changes nothing. */
  lemma WithoutUserIdempotent(online: seq<Json>, id: Json)
    ensures WithoutUser(WithoutUser(online, id), id) == WithoutUser(online, id)
  {
  }

  /** An id that came online and went offline again is gone from the list. */
  lemma OnlineThenOffline(online: seq<Json>, id: Json)
    requires !id.JArr? && !id.JObj?
    ensures id !in WithoutUser(online + [id], id)
  {
  }

  class Store {
    var authUser: Option<Json>
    var checkingAuth: bool
    var loading: bool
    var onlineUsers: seq<Json>
    const client: Client

    ghost predicate Valid()
      reads this, client
    {
      client.Valid()
    }

    constructor (client: Client)
      requires client.Valid()
      ensures Valid() && this.client == client
      ensures authUser == None && checkingAuth && !loading && onlineUsers == []
    {
      this.client := client;
      authUser := None;
      checkingAuth := true;
      loading := false;
      onlineUsers := [];
    }

    /** The shared effect of a successful signup or login: `res.data.user` becomes
        the signed-in user and the socket is started with its `_id`. A response
        without a user object fails on `user._id` after the user was stored. */
    method SignedIn(reply: Result<Json>)
      requires Valid()
      modifies this, client
      ensures Valid() && !loading
      ensures onlineUsers == old(onlineUsers) && checkingAuth == old(checkingAuth)
      ensures reply.Err? ==> authUser == old(authUser) && client.Snapshot() == old(client.Snapshot())
      ensures reply.Ok? && Member(Some(reply.value), "user").Err? ==>
        authUser == old(authUser) && client.Snapshot() == old(client.Snapshot())
      ensures reply.Ok? && Member(Some(reply.value), "user").Ok? ==>
        var user := Member(Some(reply.value), "user").value;
        authUser == user
        && client.Snapshot() == (match Member(user, "_id")
                                 case Ok(id) => Initialized(old(client.Snapshot()), IdOf(id))
                                 case Err(_) => old(client.Snapshot()))
    {
      loading := true;
      if reply.Ok? {
        var user := Member(Some(reply.value), "user");
        if user.Ok? {
          authUser := user.value;
          var id := Member(user.value, "_id");
          if id.Ok? {
            client.InitializeSocket(IdOf(id.value));
          }
        }
      }
      loading := false;
    }

    /** `signup(data)`, given the server's reply. */
    method Signup(reply: Result<Json>)
      requires Valid()
      modifies this, client
      ensures Valid() && !loading
      ensures reply.Err? ==> authUser == old(authUser) && client.Snapshot() == old(client.Snapshot())
      ensures reply.Ok? && Member(Some(reply.value), "user").Ok? ==> authUser == Member(Some(reply.value), "user").value
    {
      SignedIn(reply);
    }

    /** `login(data)`, given the server's reply. */
    method Login(reply: Result<Json>)
      requires Valid()
      modifies this, client
      ensures Valid() && !loading
      ensures reply.Err? ==> authUser == old(authUser) && client.Snapshot() == old(client.Snapshot())
      ensures reply.Ok? && Member(Some(reply.value), "user").Ok? ==> authUser == Member(Some(reply.value), "user").value
    {
      SignedIn(reply);
    }

    /** `logout()`: a completed request always disconnects the socket; the user and
        the online list are cleared only on status 200. */
    method Logout(reply: Result<int>)
      requires Valid()
      modifies this, client
      ensures Valid()
      ensures reply.Err? ==> authUser == old(authUser) && onlineUsers == old(onlineUsers) && client.Snapshot() == old(client.Snapshot())
      ensures reply.Ok? ==> client.Snapshot() == Disconnected(old(client.Snapshot()))
      ensures reply.Ok? && reply.value == 200 ==> authUser == None && onlineUsers == []
      ensures reply.Ok? && reply.value != 200 ==> authUser == old(authUser) && onlineUsers == old(onlineUsers)
      ensures loading == old(loading) && checkingAuth == old(checkingAuth)
    {
      if reply.Ok? {
        client.DisconnectSocket();
        if reply.value == 200 {
          authUser := None;
          onlineUsers := [];
        }
      }
    }

    /** The reply of `/auth/me` carries a user whose `_id` can be read. */
    static predicate SignedInBy(reply: Result<Json>) {
      reply.Ok? && Member(Some(reply.value), "user").Ok?
      && Member(Member(Some(reply.value), "user").value, "_id").Ok?
    }

    /** `checkAuth()`: the socket is started before the user is stored, so a reply
        without a user object leaves no one signed in; the check is over either way. */
    method CheckAuth(reply: Result<Json>)
      requires Valid()
      modifies this, client
      ensures Valid() && !checkingAuth
      ensures loading == old(loading) && onlineUsers == old(onlineUsers)
      ensures authUser.Some? ==>
        reply.Ok? && Member(Some(reply.value), "user") == Ok(authUser)
        && Member(authUser, "_id").Ok?
        && client.Snapshot() == Initialized(old(client.Snapshot()), IdOf(Member(authUser, "_id").value))
      ensures (reply.Err? || Member(Some(reply.value), "user").Err?) ==> authUser == None
      ensures SignedInBy(reply) ==>
        var user := Member(Some(reply.value), "user").value;
        authUser == user && client.Snapshot() == Initialized(old(client.Snapshot()), IdOf(Member(user, "_id").value))
      ensures !SignedInBy(reply) ==> authUser == None && client.Snapshot() == old(client.Snapshot())
    {
      authUser := None;
      if reply.Ok? {
        var user := Member(Some(reply.value), "user");
        if user.Ok? {
          var id := Member(user.value, "_id");
          if id.Ok? {
            client.InitializeSocket(IdOf(id.value));
            authUser := user.value;
          }
        }
      }
      checkingAuth := false;
    }

    /** `subscribeToOnlineUsers()`: three listeners, in this order. */
    method SubscribeToOnlineUsers(onGet: Listener, onOnline: Listener, onOffline: Listener)
      requires Valid()
      modifies client
      ensures Valid()
      ensures client.Snapshot() == Subscribed(Subscribed(Subscribed(old(client.Snapshot()),
        "getOnlineUsers", onGet), "userOnline", onOnline), "userOffline", onOffline)
    {
      client.On("getOnlineUsers", onGet);
      client.On("userOnline", onOnline);
      client.On("userOffline", onOffline);
    }

    method UnsubscribeFromOnlineUsers()
      requires Valid()
      modifies client
      ensures Valid()
      ensures client.Snapshot() == Unsubscribed(Unsubscribed(Unsubscribed(old(client.Snapshot()),
        "getOnlineUsers"), "userOnline"), "userOffline")
    {
      client.Off("getOnlineUsers");
      client.Off("userOnline");
      client.Off("userOffline");
    }

    /** `getOnlineUsers` replaces the list wholesale. */
    method OnGetOnlineUsers(ids: seq<Json>)
      modifies this
      ensures onlineUsers == ids
      ensures authUser == old(authUser) && loading == old(loading) && checkingAuth == old(checkingAuth)
    {
      onlineUsers := ids;
    }

    /** `userOnline` appends the id, even when it is already listed. */
    method OnUserOnline(id: Json)
      modifies this
      ensures onlineUsers == old(onlineUsers) + [id]
      ensures authUser == old(authUser) && loading == old(loading) && checkingAuth == old(checkingAuth)
    {
      onlineUsers := onlineUsers + [id];
    }

    /** `userOffline` drops every occurrence of the id. */
    method OnUserOffline(id: Json)
      modifies this
      ensures onlineUsers == WithoutUser(old(onlineUsers), id)
      ensures authUser == old(authUser) && loading == old(loading) && checkingAuth == old(checkingAuth)
    {
      onlineUsers := WithoutUser(onlineUsers, id);
    }
  }
}
