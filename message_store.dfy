/** The client-side conversation store: the messages shown, whether they are
    loading, and the partner's typing indicator with its hide timer. */
module MessageStore {
  import opened Wrappers
  import opened Js
  import opened SocketClient

  /** The message shown at once, before the server has it. */
  function Optimistic(now: int, senderId: Option<Json>, receiverId: Option<Json>, content: Option<Json>,
                      attachments: Option<Json>, previewUrls: Option<Json>, isoNow: string): (m: Json)
    ensures m.JObj? && Keys(m.fields) == ["_id", "sender", "receiver", "content", "attachments", "linkPreviews", "createdAt"]
    ensures Lookup(m.fields, "_id") == Some(JNum(now as real))
    ensures Lookup(m.fields, "linkPreviews") == Some(if previewUrls.None? then JArr([]) else previewUrls.value)
  {
    var fs := [Field("_id", JNum(now as real)), Field("sender", OrNull(senderId)), Field("receiver", OrNull(receiverId)),
               Field("content", OrNull(content)), Field("attachments", OrNull(attachments)),
               Field("linkPreviews", if previewUrls.None? then JArr([]) else previewUrls.value),
               Field("createdAt", JStr(isoNow))];
    assert Keys(fs) == ["_id", "sender", "receiver", "content", "attachments", "linkPreviews", "createdAt"] by {
      assert |Keys(fs)| == 7;
      forall i | 0 <= i < 7 ensures Keys(fs)[i] == ["_id", "sender", "receiver", "content", "attachments", "linkPreviews", "createdAt"][i] {
      }
    }
    LookupFirst(fs, 5);
    JObj(fs)
  }

  /** An `undefined` field value, which the model writes as null. */
  function OrNull(v: Option<Json>): Json {
    if v.Some? then v.value else JNull
  }

  /** The body posted to `/messages/send`. */
  datatype SendBody = SendBody(receiverId: Option<Json>, content: Option<Json>, attachments: Option<Json>, previewUrls: Json)

  class Store {
    var messages: seq<Json>
    var loading: bool
    var isTyping: bool
    /** Hide timers not yet run or cleared, and the handle kept in `typingTimeout`. */
    var typingTimers: set<nat>
    var typingTimeout: Option<nat>
    var nextTimer: nat
    /** Bodies posted, oldest first. */
    var posts: seq<SendBody>

    /** At most one hide timer is live, and it is the one kept. */
    ghost predicate Valid()
      reads this
    {
      (forall t :: t in typingTimers ==> typingTimeout == Some(t))
      && (typingTimeout.Some? ==> typingTimeout.value < nextTimer)
    }

    constructor ()
      ensures Valid()
      ensures messages == [] && loading && !isTyping && typingTimers == {} && typingTimeout == None && posts == []
    {
      messages := [];
      loading := true;
      isTyping := false;
      typingTimers := {};
      typingTimeout := None;
      nextTimer := 0;
      posts := [];
    }

    /** `sendMessage(...)`: the optimistic message goes to the end of the list, then
        the body is posted. Without a signed-in user, reading its `_id` fails and
        nothing happens. `previewUrls` defaults to an empty list. */
    method SendMessage(authUser: Option<Json>, receiverId: Option<Json>, content: Option<Json>,
                       attachments: Option<Json>, previewUrls: Option<Json>, now: int, isoNow: string)
      requires Valid()
      modifies this
      ensures Valid()
      ensures Member(authUser, "_id").Err? ==> messages == old(messages) && posts == old(posts)
      ensures Member(authUser, "_id").Ok? ==>
        var urls := if previewUrls.None? then JArr([]) else previewUrls.value;
        messages == old(messages) + [Optimistic(now, Member(authUser, "_id").value, receiverId, content, attachments, previewUrls, isoNow)]
        && posts == old(posts) + [SendBody(receiverId, content, attachments, urls)]
      ensures loading == old(loading) && isTyping == old(isTyping)
      ensures typingTimers == old(typingTimers) && typingTimeout == old(typingTimeout) && nextTimer == old(nextTimer)
    {
      var sender := Member(authUser, "_id");
      if sender.Err? {
        return;
      }
      messages := messages + [Optimistic(now, sender.value, receiverId, content, attachments, previewUrls, isoNow)];
      posts := posts + [SendBody(receiverId, content, attachments, if previewUrls.None? then JArr([]) else previewUrls.value)];
    }

    /** `getMessages(userId)`: the typing indicator goes off, the conversation is
        replaced by the fetched one (or emptied on failure), and loading ends. */
    method GetMessages(reply: Result<seq<Json>>)
      requires Valid()
      modifies this
      ensures Valid()
      ensures !isTyping && !loading
      ensures messages == if reply.Ok? then reply.value else []
      ensures typingTimers == old(typingTimers) && typingTimeout == old(typingTimeout) && posts == old(posts)
    {
      loading := true;
      isTyping := false;
      if reply.Ok? {
        messages := reply.value;
      } else {
        messages := [];
      }
      loading := false;
    }

    /** `newMessage`: appended, and the typing indicator goes off. */
    method OnNewMessage(message: Json)
      requires Valid()
      modifies this
      ensures Valid()
      ensures messages == old(messages) + [message] && !isTyping
      ensures typingTimers == old(typingTimers) && typingTimeout == old(typingTimeout)
      ensures loading == old(loading) && posts == old(posts)
    {
      messages := messages + [message];
      isTyping := false;
    }

    /** `typing`: the indicator goes on, the previous hide timer is cleared and a new
        one becomes the only live timer. */
    method OnTyping()
      requires Valid()
      modifies this
      ensures Valid()
      ensures isTyping
      ensures typingTimers == {old(nextTimer)} && typingTimeout == Some(old(nextTimer))
      ensures messages == old(messages) && loading == old(loading) && posts == old(posts)
    {
      isTyping := true;
      if typingTimeout.Some? {
        typingTimers := typingTimers - {typingTimeout.value};
      }
      var t := nextTimer;
      typingTimers := typingTimers + {t};
      nextTimer := nextTimer + 1;
      typingTimeout := Some(t);
    }

    /** A hide timer fires 3 s after its typing event; since only the latest one is
        live, the indicator goes off 3 s after the last typing event. */
    method HideTimerFires(t: nat)
      requires Valid() && t in typingTimers
      modifies this
      ensures Valid()
      ensures !isTyping && typingTimers == {} && old(typingTimeout) == Some(t)
      ensures typingTimeout == old(typingTimeout) && nextTimer == old(nextTimer)
      ensures messages == old(messages) && loading == old(loading) && posts == old(posts)
    {
      isTyping := false;
      typingTimers := typingTimers - {t};
      assert forall u :: u in old(typingTimers) ==> u == t;
    }
  }

  /** `subscribeToMessages()`: `newMessage` then `typing`. */
  method Subscribe(client: Client, onMessage: Listener, onTyping: Listener)
    requires client.Valid()
    modifies client
    ensures client.Valid()
    ensures client.Snapshot() == Subscribed(Subscribed(old(client.Snapshot()), "newMessage", onMessage), "typing", onTyping)
  {
    client.On("newMessage", onMessage);
    client.On("typing", onTyping);
  }

  /** `unsubscribeFromMessages()`: both listener lists go. */
  method Unsubscribe(client: Client)
    requires client.Valid()
    modifies client
    ensures client.Valid()
    ensures client.Snapshot() == Unsubscribed(Unsubscribed(old(client.Snapshot()), "newMessage"), "typing")
    ensures old(client.socket).Some? ==> "newMessage" !in client.listeners && "typing" !in client.listeners
  {
    client.Off("newMessage");
    client.Off("typing");
  }
}
