/** Sending a chat message: the attachments are assembled one by one (uploading inline
    `data:` payloads), the message is stored, and the receiver is told over the socket. */
module MessageService {
  import opened Wrappers
  import opened Strings
  import opened Entities
  import opened External
  import opened SocketService

  const SENDER_NOT_FOUND := "Sender not found"
  const RECEIVER_NOT_FOUND := "Receiver not found"
  const ATTACHMENT_UPLOAD_FAILED := "Failed to upload attachment"
  /** Stands for the exception a repository lookup of a null id throws. */
  const NULL_ID := "IllegalArgumentException"

  /** One attachment of the request: an already uploaded `url`, or inline `data`. */
  datatype AttachmentInput = AttachmentInput(
    url: Option<string>, data: Option<string>, key: Option<string>,
    name: Option<string>, ext: Option<string>, category: Option<Category>)

  datatype SendMessageRequest = SendMessageRequest(
    content: Option<string>, receiverId: Option<UserId>,
    attachments: Option<seq<AttachmentInput>>, previewUrls: Option<seq<string>>)

  /** The body of the attachment loop for one input; `upload` is the Cloudinary answer
      for its data. */
  function BuildAttachment(input: AttachmentInput, upload: UploadResult): (r: Result<Attachment>)
    ensures r.Ok? ==> r.value.name == input.name && r.value.ext == input.ext && r.value.category == input.category
    ensures input.url.Some? && input.url.value != [] ==>
      r == Ok(Attachment(input.url, Some(input.key.GetOr("")), input.name, input.ext, input.category))
    ensures (input.url.None? || input.url.value == []) && input.data.Some? && StartsWith(input.data.value, "data:") ==>
      (r.Err? <==> upload.UploadFailed?)
      && (r.Err? ==> r.error == ATTACHMENT_UPLOAD_FAILED)
      && (r.Ok? ==> r.value.url == upload.secureUrl && r.value.key == upload.publicId)
    ensures (input.url.None? || input.url.value == []) && !(input.data.Some? && StartsWith(input.data.value, "data:")) ==>
      r == Ok(Attachment(None, Some(input.key.GetOr("")), input.name, input.ext, input.category))
  {
    var base := Attachment(None, Some(if input.key.Some? then input.key.value else ""), input.name, input.ext, input.category);
    if input.url.Some? && input.url.value != [] then Ok(base.(url := input.url))
    else if input.data.Some? && StartsWith(input.data.value, "data:") then
      match upload
      case UploadFailed => Err(ATTACHMENT_UPLOAD_FAILED)
      case Uploaded(secureUrl, publicId) => Ok(base.(url := secureUrl, key := publicId))
    else Ok(base)
  }

  /** The attachments of the first `n` inputs, stopping at the first failed upload;
      `upload(k)` is the answer for the k-th input. */
  function BuildAttachments(inputs: seq<AttachmentInput>, upload: nat -> UploadResult, n: nat): (r: Result<seq<Attachment>>)
    requires n <= |inputs|
  {
    if n == 0 then Ok([])
    else
      var init :- BuildAttachments(inputs, upload, n - 1);
      var a :- BuildAttachment(inputs[n - 1], upload(n - 1));
      Ok(init + [a])
  }

  /** Exactly one attachment per input, in input order. */
  lemma {:induction false} BuildAttachmentsInOrder(inputs: seq<AttachmentInput>, upload: nat -> UploadResult, n: nat)
    requires n <= |inputs|
    ensures BuildAttachments(inputs, upload, n).Ok? <==> forall k :: 0 <= k < n ==> BuildAttachment(inputs[k], upload(k)).Ok?
    ensures BuildAttachments(inputs, upload, n).Ok? ==>
      var atts := BuildAttachments(inputs, upload, n).value;
      |atts| == n && forall k :: 0 <= k < n ==> atts[k] == BuildAttachment(inputs[k], upload(k)).value
    ensures BuildAttachments(inputs, upload, n).Err? ==> BuildAttachments(inputs, upload, n).error == ATTACHMENT_UPLOAD_FAILED
  {
    if n > 0 {
      BuildAttachmentsInOrder(inputs, upload, n - 1);
    }
  }

  /** The `newMessage` frame announcing a stored message. */
  function NewMessageFrame(m: Message): Frame {
    Frame("newMessage", MessagePayload(m.id, m.content, m.senderId, m.receiverId, m.createdAt, m.attachments))
  }

  /** `sendMessage`: both users must exist; the message gets the request's content,
      its link previews when given, and one attachment per input; it is stored and
      then sent to the receiver alone. An attachment with a null column (an input with
      neither a url nor a `data:` payload has no url) makes the save fail. Any failure
      stores and sends nothing. */
  method SendMessage(users: UserRepository, messages: MessageRepository, registry: SocketRegistry, net: Network,
                     senderId: UserId, request: SendMessageRequest, upload: nat -> UploadResult, now: int)
    returns (r: Result<Message>)
    requires users.Valid()
    modifies messages, registry
    ensures registry.sessions == old(registry.sessions)
    ensures senderId !in users.users ==> r == Err(SENDER_NOT_FOUND)
    ensures senderId in users.users && request.receiverId.None? ==> r == Err(NULL_ID)
    ensures senderId in users.users && request.receiverId.Some? && request.receiverId.value !in users.users ==>
      r == Err(RECEIVER_NOT_FOUND)
    ensures senderId in users.users && request.receiverId.Some? && request.receiverId.value in users.users ==>
      var built := if request.attachments.None? then Ok([])
                   else BuildAttachments(request.attachments.value, upload, |request.attachments.value|);
      (built.Err? ==> r == Err(ATTACHMENT_UPLOAD_FAILED))
      && (built.Ok? && !(forall a :: a in built.value ==> AttachmentStorable(a)) ==> r == Err(NOT_NULL_VIOLATION))
      && (built.Ok? && (forall a :: a in built.value ==> AttachmentStorable(a)) ==> r.Ok?)
    ensures r.Err? ==> messages.messages == old(messages.messages) && registry.log == old(registry.log)
    ensures r.Ok? ==>
      senderId in users.users && request.receiverId.Some? && request.receiverId.value in users.users
      && r.value.senderId == senderId && r.value.receiverId == request.receiverId.value
      && r.value.content == request.content
      && r.value.id == |old(messages.messages)| + 1 && r.value.createdAt == now
      && r.value.linkPreviews == request.previewUrls.GetOr([])
      && (forall a :: a in r.value.attachments ==> AttachmentStorable(a))
      && (request.attachments.None? ==> r.value.attachments == [])
      && (request.attachments.Some? ==>
            BuildAttachments(request.attachments.value, upload, |request.attachments.value|) == Ok(r.value.attachments))
      && messages.messages == old(messages.messages) + [r.value]
      && registry.log == old(registry.log) + UnicastDeliveries(registry.sessions, net, r.value.receiverId, NewMessageFrame(r.value))
  {
    var sender := users.FindById(senderId);
    if sender.None? {
      return Err(SENDER_NOT_FOUND);
    }
    if request.receiverId.None? {
      return Err(NULL_ID);
    }
    var receiver := users.FindById(request.receiverId.value);
    if receiver.None? {
      return Err(RECEIVER_NOT_FOUND);
    }
    var message := Message(0, sender.value.id, receiver.value.id, request.content, [], [], 0);
    if request.previewUrls.Some? {
      message := message.(linkPreviews := request.previewUrls.value);
    }
    if request.attachments.Some? {
      var inputs := request.attachments.value;
      var i := 0;
      while i < |inputs|
        invariant 0 <= i <= |inputs|
        invariant BuildAttachments(inputs, upload, i) == Ok(message.attachments)
        invariant message.senderId == senderId && message.receiverId == request.receiverId.value
        invariant message.content == request.content && message.linkPreviews == request.previewUrls.GetOr([])
      {
        var attachment := BuildAttachment(inputs[i], upload(i));
        if attachment.Err? {
          BuildAttachmentsInOrder(inputs, upload, |inputs|);
          return Err(attachment.error);
        }
        message := message.(attachments := message.attachments + [attachment.value]);
        i := i + 1;
      }
    }
    if exists a :: a in message.attachments && !AttachmentStorable(a) {
      return Err(NOT_NULL_VIOLATION);
    }
    var saved := messages.Insert(message, now);
    registry.SendMessageToUser(saved.receiverId, "newMessage",
      MessagePayload(saved.id, saved.content, saved.senderId, saved.receiverId, saved.createdAt, saved.attachments), net);
    r := Ok(saved);
  }

  /** Inputs that all carry a non-empty url need no upload, so building their
      attachments cannot fail and keeps one attachment per input, in order. */
  lemma {:induction false} UrlAttachmentsNeverFail(inputs: seq<AttachmentInput>, upload: nat -> UploadResult, n: nat)
    requires n <= |inputs|
    requires forall k :: 0 <= k < |inputs| ==> inputs[k].url.Some? && inputs[k].url.value != []
    ensures BuildAttachments(inputs, upload, n).Ok? && |BuildAttachments(inputs, upload, n).value| == n
    ensures forall k :: 0 <= k < n ==> BuildAttachments(inputs, upload, n).value[k].url == inputs[k].url
  {
    BuildAttachmentsInOrder(inputs, upload, n);
  }
}
