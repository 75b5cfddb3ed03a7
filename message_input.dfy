/** The chat composer: the text being typed, the link previews found in it, the
    files attached (at most ten are taken in), sending, and the throttled typing
    notice. */
module MessageInput {
  import opened Wrappers
  import opened Strings
  import opened Js
  import opened SocketClient

  const MAX_ATTACHMENTS := 10

  // ---------------------------------------------------------------------------
  // Links in the text: every match of /(https?:\/\/[^\s]+)/gi, left to right.

  /** The end of `http://` or `https://` (letters in either case) at `p`. */
  function SchemeEnd(t: string, p: nat): (r: Option<nat>)
    ensures r.Some? ==> p + 7 <= r.value <= |t| && r.value <= p + 8
  {
    if p + 4 <= |t| && LowerChar(t[p]) == 'h' && LowerChar(t[p + 1]) == 't'
       && LowerChar(t[p + 2]) == 't' && LowerChar(t[p + 3]) == 'p' then
      if p + 8 <= |t| && LowerChar(t[p + 4]) == 's' && t[p + 5] == ':' && t[p + 6] == '/' && t[p + 7] == '/' then Some(p + 8)
      else if p + 7 <= |t| && t[p + 4] == ':' && t[p + 5] == '/' && t[p + 6] == '/' then Some(p + 7)
      else None
    else None
  }

  /** The number of non-whitespace characters from `q` on. */
  function NonSpaceRun(t: string, q: nat): (n: nat)
    requires q <= |t|
    ensures q + n <= |t|
    ensures forall i :: q <= i < q + n ==> !IsJsSpace(t[i])
    ensures q + n < |t| ==> IsJsSpace(t[q + n])
    decreases |t| - q
  {
    if q == |t| || IsJsSpace(t[q]) then 0 else 1 + NonSpaceRun(t, q + 1)
  }

  /** Where a match starting at `p` ends: the scheme followed by at least one
      non-whitespace character, taken greedily. */
  function MatchEnd(t: string, p: nat): (r: Option<nat>)
    ensures r.Some? ==> p < r.value <= |t|
  {
    match SchemeEnd(t, p)
    case None => None
    case Some(q) => var n := NonSpaceRun(t, q); if n > 0 then Some(q + n) else None
  }

  function Scan(t: string, p: nat): seq<string>
    requires p <= |t|
    decreases |t| - p
  {
    if p == |t| then []
    else match MatchEnd(t, p)
      case Some(e) => [t[p..e]] + Scan(t, e)
      case None => Scan(t, p + 1)
  }

  /** `extractUrls(text)`. */
  function ExtractUrls(text: string): seq<string> {
    Scan(text, 0)
  }

  /** A link as the pattern reads it: scheme, then non-whitespace to the end. */
  predicate IsUrl(u: string) {
    SchemeEnd(u, 0).Some? && SchemeEnd(u, 0).value < |u| && forall i :: 0 <= i < |u| ==> !IsJsSpace(u[i])
  }

  lemma SchemeEndShift(t: string, p: nat, e: nat)
    requires p < e <= |t| && MatchEnd(t, p) == Some(e)
    ensures SchemeEnd(t[p..e], 0) == Some(SchemeEnd(t, p).value - p)
  {
    var u := t[p..e];
    var q := SchemeEnd(t, p).value;
    assert forall i :: 0 <= i < e - p ==> u[i] == t[p + i];
    if q == p + 8 {
      assert t[p + 4] == 's' || t[p + 4] == 'S' || LowerChar(t[p + 4]) == 's';
    }
  }

  /** Every link found is a well-formed link that occurs in the text. */
  lemma {:induction false} ScanFindsUrls(t: string, p: nat)
    requires p <= |t|
    ensures forall u :: u in Scan(t, p) ==> IsUrl(u) && Contains(t, u)
    decreases |t| - p
  {
    if p < |t| {
      match MatchEnd(t, p)
      case Some(e) =>
        ScanFindsUrls(t, e);
        MatchIsUrl(t, p, e);
        assert Scan(t, p) == [t[p..e]] + Scan(t, e);
      case None =>
        ScanFindsUrls(t, p + 1);
    }
  }

  lemma ExtractedAreUrls(text: string)
    ensures forall u :: u in ExtractUrls(text) ==> IsUrl(u) && Contains(text, u)
  {
    ScanFindsUrls(text, 0);
  }

  lemma {:induction false} NonSpaceRunToEnd(t: string, q: nat)
    requires q <= |t| && forall i :: q <= i < |t| ==> !IsJsSpace(t[i])
    ensures NonSpaceRun(t, q) == |t| - q
    decreases |t| - q
  {
    if q < |t| {
      NonSpaceRunToEnd(t, q + 1);
    }
  }

  lemma LetterNotSpace(c: char, l: char)
    requires ('a' <= l <= 'z' && LowerChar(c) == l) || c == ':' || c == '/'
    ensures !IsJsSpace(c)
  {
  }

  lemma SchemeNoSpace(t: string, p: nat)
    requires SchemeEnd(t, p).Some?
    ensures forall i :: p <= i < SchemeEnd(t, p).value ==> !IsJsSpace(t[i])
  {
    LetterNotSpace(t[p], 'h');
    LetterNotSpace(t[p + 1], 't');
    LetterNotSpace(t[p + 2], 't');
    LetterNotSpace(t[p + 3], 'p');
    if SchemeEnd(t, p).value == p + 8 {
      LetterNotSpace(t[p + 4], 's');
    } else {
      LetterNotSpace(t[p + 4], 'a');
    }
    LetterNotSpace(t[p + 5], 'a');
    LetterNotSpace(t[p + 6], 'a');
    if SchemeEnd(t, p).value == p + 8 {
      LetterNotSpace(t[p + 7], 'a');
    }
  }

  /** A single match is a well-formed link occurring in the text. */
  lemma MatchIsUrl(t: string, p: nat, e: nat)
    requires p < e <= |t| && MatchEnd(t, p) == Some(e)
    ensures IsUrl(t[p..e]) && Contains(t, t[p..e])
  {
    var u := t[p..e];
    SchemeEndShift(t, p, e);
    SchemeNoSpace(t, p);
    assert forall i :: 0 <= i < |u| ==> u[i] == t[p + i];
    ContainsMiddle(t[..p], u, t[e..]);
    assert t[..p] + u + t[e..] == t;
  }

  /** A text that is one link yields exactly that link. */
  lemma SingleUrl(u: string)
    requires IsUrl(u)
    ensures ExtractUrls(u) == [u]
  {
    var q := SchemeEnd(u, 0).value;
    NonSpaceRunToEnd(u, q);
    assert MatchEnd(u, 0) == Some(|u|);
    assert Scan(u, 0) == [u[0..|u|]] + Scan(u, |u|);
    assert u[0..|u|] == u;
  }

  // ---------------------------------------------------------------------------
  // File classification.

  /** `name.split(".").pop().toLowerCase()` when the name has a dot, else "". */
  function Ext(name: string): (e: string)
    ensures '.' !in e
    ensures '.' !in name ==> e == ""
  {
    if '.' in name then
      var parts := Split(name, '.');
      SplitPiecesHaveNoSeparator(name, '.');
      assert parts[|parts| - 1] in parts;
      LowerKeepsDot(parts[|parts| - 1]);
      Lower(parts[|parts| - 1])
    else ""
  }

  lemma LowerKeepsDot(s: string)
    requires '.' !in s
    ensures '.' !in Lower(s)
  {
    assert forall i :: 0 <= i < |s| ==> Lower(s)[i] != '.';
  }

  /** The extension is what follows the last dot, lower-cased. */
  lemma ExtAfterLastDot(base: string, e: string)
    requires '.' !in e
    ensures Ext(base + "." + e) == Lower(e)
  {
    var name := base + "." + e;
    assert name[|base|] == '.';
    SplitLast(base, e, '.');
    assert base + ['.'] + e == name;
  }

  const MEDIA := ["image", "video", "audio"]

  /** The category: the MIME prefix for media, else by extension. */
  function Category(mime: string, ext: string): (c: string)
    ensures c in ["image", "video", "audio", "pdf", "spreadsheet", "presentation", "word", "archive", "other"]
    ensures c in MEDIA <==> StartsWith(mime, "image/") || StartsWith(mime, "video/") || StartsWith(mime, "audio/")
  {
    if StartsWith(mime, "image/") then "image"
    else if StartsWith(mime, "video/") then "video"
    else if StartsWith(mime, "audio/") then "audio"
    else if ext == "pdf" then "pdf"
    else if ext in ["xls", "xlsx", "csv"] then "spreadsheet"
    else if ext in ["ppt", "pptx"] then "presentation"
    else if ext in ["doc", "docx"] then "word"
    else if ext in ["zip", "rar", "7z", "tar", "gz"] then "archive"
    else "other"
  }

  /** A document type is known by its extension alone, whatever its case in the
      file name, unless the MIME type says media. */
  lemma CategoryByExtension(mime: string, base: string, e: string)
    requires '.' !in e && !StartsWith(mime, "image/") && !StartsWith(mime, "video/") && !StartsWith(mime, "audio/")
    ensures Lower(e) == "pdf" ==> Category(mime, Ext(base + "." + e)) == "pdf"
    ensures Lower(e) in ["doc", "docx"] ==> Category(mime, Ext(base + "." + e)) == "word"
    ensures Lower(e) !in ["pdf", "xls", "xlsx", "csv", "ppt", "pptx", "doc", "docx", "zip", "rar", "7z", "tar", "gz"]
      ==> Category(mime, Ext(base + "." + e)) == "other"
  {
    ExtAfterLastDot(base, e);
  }

  // ---------------------------------------------------------------------------
  // Attachments.

  datatype FileInfo = FileInfo(name: string, mime: string)

  datatype Attachment = Attachment(
    url: Option<string>, key: Option<string>, data: Option<string>, name: string, ext: string, category: string)

  /** The answer to the S3 `PUT`: `fetch` rejects only on a network error, and
      resolves with any HTTP status. */
  datatype PutResult = NetworkError | Status(code: int)

  /** What the browser and the backend answer for one picked file: the data URL
      read from it, the presign reply (`url`, `key`), and the `PUT` result. */
  datatype Transfer = Transfer(dataUrl: string, presign: Result<(string, string)>, put: PutResult)

  /** The public URL of an uploaded object. */
  function PublicUrl(bucket: string, region: string, key: string): string {
    "https://" + bucket + ".s3." + region + ".amazonaws.com/" + key
  }

  /** The upload counts as done as the component decides it: any `fetch` that
      resolves, whatever its status. */
  predicate StoredAsWritten(put: PutResult) {
    !put.NetworkError?
  }

  /** The upload counts as done only when S3 answers with a 2xx status. */
  predicate Stored(put: PutResult) {
    put.Status? && 200 <= put.code < 300
  }

  /** The attachment one picked file adds, under a given reading of the `PUT`. */
  function AttachmentUnder(f: FileInfo, tr: Transfer, bucket: string, region: string, stored: PutResult -> bool): (r: seq<Attachment>)
    ensures |r| <= 1
    ensures Category(f.mime, Ext(f.name)) in MEDIA ==> r == [Attachment(None, None, Some(tr.dataUrl), f.name, Ext(f.name), Category(f.mime, Ext(f.name)))]
  {
    var ext := Ext(f.name);
    var category := Category(f.mime, ext);
    if category in MEDIA then [Attachment(None, None, Some(tr.dataUrl), f.name, ext, category)]
    else if tr.presign.Ok? && stored(tr.put) then
      var (_, key) := tr.presign.value;
      [Attachment(Some(PublicUrl(bucket, region, key)), Some(key), None, f.name, ext, category)]
    else []
  }

  /** The attachment as the component adds it. */
  function AttachmentAsWritten(f: FileInfo, tr: Transfer, bucket: string, region: string): (r: seq<Attachment>)
    ensures |r| <= 1
  {
    AttachmentUnder(f, tr, bucket, region, StoredAsWritten)
  }

  /** The attachment with a rejected `PUT` counted as a failed upload. */
  function AttachmentFor(f: FileInfo, tr: Transfer, bucket: string, region: string): (r: seq<Attachment>)
    ensures |r| <= 1
    ensures r != [] && r[0].url.Some? ==> tr.put.Status? && 200 <= tr.put.code < 300
  {
    AttachmentUnder(f, tr, bucket, region, Stored)
  }

  /** A document whose `PUT` S3 refuses (403, say) is still attached as written,
      pointing at an object that was never stored; the corrected rule drops it. */
  lemma RejectedPutStillAttached(f: FileInfo, tr: Transfer, bucket: string, region: string)
    requires Category(f.mime, Ext(f.name)) !in MEDIA && tr.presign.Ok? && tr.put == Status(403)
    ensures |AttachmentAsWritten(f, tr, bucket, region)| == 1
    ensures AttachmentAsWritten(f, tr, bucket, region)[0].url == Some(PublicUrl(bucket, region, tr.presign.value.1))
    ensures AttachmentFor(f, tr, bucket, region) == []
  {
    assert StoredAsWritten(tr.put) && !Stored(tr.put);
  }

  /** The attachments the first `n` picked files add, in order. */
  lemma AddedStep(files: seq<FileInfo>, transfer: nat -> Transfer, bucket: string, region: string, i: nat)
    requires i < |files|
    ensures Added(files, transfer, bucket, region, i + 1)
      == Added(files, transfer, bucket, region, i) + AttachmentFor(files[i], transfer(i), bucket, region)
  {
  }

  /** How many of `count` picked files fit beside `current` attachments. */
  function Room(current: nat, count: nat): (r: nat)
    requires current < MAX_ATTACHMENTS
    ensures r <= count && current + r <= MAX_ATTACHMENTS
    ensures r == count || current + r == MAX_ATTACHMENTS
  {
    if count < MAX_ATTACHMENTS - current then count else MAX_ATTACHMENTS - current
  }

  function Added(files: seq<FileInfo>, transfer: nat -> Transfer, bucket: string, region: string, n: nat): (r: seq<Attachment>)
    requires n <= |files|
    ensures |r| <= n
  {
    if n == 0 then []
    else Added(files, transfer, bucket, region, n - 1) + AttachmentFor(files[n - 1], transfer(n - 1), bucket, region)
  }

  /** Media files are never lost: with only media picked, each adds one. */
  lemma {:induction false} MediaAllAdded(files: seq<FileInfo>, transfer: nat -> Transfer, bucket: string, region: string, n: nat)
    requires n <= |files|
    requires forall i :: 0 <= i < n ==> Category(files[i].mime, Ext(files[i].name)) in MEDIA
    ensures |Added(files, transfer, bucket, region, n)| == n
  {
    if n > 0 {
      MediaAllAdded(files, transfer, bucket, region, n - 1);
    }
  }

  lemma ConcatAssoc<T>(a: seq<T>, b: seq<T>, c: seq<T>)
    ensures (a + b) + c == a + (b + c)
  {
  }

  /** `prev.filter((_, i) => i !== idx)`. */
  function RemoveAt<T>(s: seq<T>, idx: int): (r: seq<T>)
    ensures 0 <= idx < |s| ==> (|r| == |s| - 1
      && (forall j :: 0 <= j < idx ==> r[j] == s[j])
      && (forall j :: idx <= j < |r| ==> r[j] == s[j + 1]))
    ensures !(0 <= idx < |s|) ==> r == s
  {
    if 0 <= idx < |s| then s[..idx] + s[idx + 1..] else s
  }

  /** A link preview: the url, the fetched preview, and whether it is sent. */
  datatype Preview = Preview(url: string, preview: Json, included: bool)

  /** `linkPreviews.filter((p) => p.included).map((p) => p.url)`. */
  function IncludedUrls(previews: seq<Preview>): (r: seq<string>)
    ensures |r| <= |previews|
    ensures forall u :: u in r <==> exists p :: p in previews && p.included && p.url == u
  {
    if previews == [] then []
    else
      var rest := IncludedUrls(previews[1..]);
      assert forall p :: p in previews <==> p == previews[0] || p in previews[1..] by {
        assert previews == [previews[0]] + previews[1..];
      }
      if previews[0].included then [previews[0].url] + rest else rest
  }

  /** With every preview included, the urls are sent in preview order. */
  lemma {:induction false} AllIncludedUrls(previews: seq<Preview>)
    requires forall i :: 0 <= i < |previews| ==> previews[i].included
    ensures IncludedUrls(previews) == seq(|previews|, i requires 0 <= i < |previews| => previews[i].url)
  {
    if previews != [] {
      AllIncludedUrls(previews[1..]);
    }
  }

  /** The previews kept after every link was fetched: those whose fetch succeeded
      with a truthy preview, in link order, all included. */
  function FetchedPreviews(urls: seq<string>, fetch: string -> Option<Json>): (r: seq<Preview>)
    ensures |r| <= |urls|
    ensures forall i :: 0 <= i < |r| ==> r[i].included && r[i].url in urls && fetch(r[i].url) == Some(r[i].preview) && Truthy(r[i].preview)
  {
    if urls == [] then []
    else
      var rest := FetchedPreviews(urls[1..], fetch);
      var f := fetch(urls[0]);
      if f.Some? && Truthy(f.value) then [Preview(urls[0], f.value, true)] + rest else rest
  }

  /** What a send hands to the message store. */
  datatype Outgoing = Outgoing(receiverId: Option<Json>, text: string, attachments: seq<Attachment>, previewUrls: seq<string>)

  datatype SendOutcome = Ignored | TooManyAttachments | Sent

  class Composer {
    var message: string
    var linkPreviews: seq<Preview>
    var showAllPreviews: bool
    var attachments: seq<Attachment>
    /** Whether a typing notice went out less than two seconds ago. */
    var typingThrottled: bool
    /** Messages handed to the store, and typing notices sent, oldest first. */
    var outbox: seq<Outgoing>
    var typingSent: seq<Option<Json>>

    constructor ()
      ensures message == "" && linkPreviews == [] && !showAllPreviews && attachments == []
      ensures !typingThrottled && outbox == [] && typingSent == []
    {
      message := "";
      linkPreviews := [];
      showAllPreviews := false;
      attachments := [];
      typingThrottled := false;
      outbox := [];
      typingSent := [];
    }

    /** The text changes; the previews become those of its links. */
    method OnMessageChanged(text: string, fetch: string -> Option<Json>)
      modifies this
      ensures message == text && !showAllPreviews
      ensures linkPreviews == FetchedPreviews(ExtractUrls(text), fetch)
      ensures ExtractUrls(text) == [] ==> linkPreviews == []
      ensures attachments == old(attachments) && typingThrottled == old(typingThrottled)
      ensures outbox == old(outbox) && typingSent == old(typingSent)
    {
      message := text;
      var urls := ExtractUrls(text);
      if |urls| == 0 {
        linkPreviews := [];
        showAllPreviews := false;
        return;
      }
      linkPreviews := FetchedPreviews(urls, fetch);
      showAllPreviews := false;
    }

    /** `handleSendMessage`: nothing for blank text without files, a refusal for
        more than ten files; otherwise the message goes out and the composer clears. */
    method HandleSendMessage(receiverId: Option<Json>) returns (r: SendOutcome)
      modifies this
      ensures r == Ignored <==> IsBlank(old(message)) && old(attachments) == []
      ensures r == TooManyAttachments <==> !(IsBlank(old(message)) && old(attachments) == []) && |old(attachments)| > MAX_ATTACHMENTS
      ensures r != Sent ==> (message == old(message) && attachments == old(attachments)
        && linkPreviews == old(linkPreviews) && showAllPreviews == old(showAllPreviews) && outbox == old(outbox))
      ensures r == Sent ==>
        (outbox == old(outbox) + [Outgoing(receiverId, old(message), old(attachments), IncludedUrls(old(linkPreviews)))]
        && message == "" && attachments == [] && linkPreviews == [] && !showAllPreviews
        && |old(attachments)| <= MAX_ATTACHMENTS)
      ensures typingThrottled == old(typingThrottled) && typingSent == old(typingSent)
    {
      if IsBlank(message) && |attachments| == 0 {
        return Ignored;
      }
      if |attachments| > MAX_ATTACHMENTS {
        return TooManyAttachments;
      }
      var previewUrls := IncludedUrls(linkPreviews);
      outbox := outbox + [Outgoing(receiverId, message, attachments, previewUrls)];
      message := "";
      attachments := [];
      linkPreviews := [];
      showAllPreviews := false;
      return Sent;
    }

    /** `handleFileChange`: with no free slot nothing is taken; otherwise the first
        `10 - current` files are processed in order. */
    method HandleFileChange(files: seq<FileInfo>, transfer: nat -> Transfer, bucket: string, region: string)
      modifies this
      ensures |old(attachments)| >= MAX_ATTACHMENTS ==> attachments == old(attachments)
      ensures |old(attachments)| < MAX_ATTACHMENTS ==>
        attachments == old(attachments) + Added(files, transfer, bucket, region, Room(|old(attachments)|, |files|))
      ensures |old(attachments)| <= MAX_ATTACHMENTS ==> |attachments| <= MAX_ATTACHMENTS
      ensures message == old(message) && linkPreviews == old(linkPreviews) && showAllPreviews == old(showAllPreviews)
      ensures typingThrottled == old(typingThrottled) && outbox == old(outbox) && typingSent == old(typingSent)
    {
      var slots := MAX_ATTACHMENTS - |attachments|;
      if slots <= 0 {
        return;
      }
      var take := if |files| < slots then |files| else slots;
      assert take == Room(|attachments|, |files|);
      AttachFirst(files, transfer, bucket, region, take);
    }

    /** The loop of `handleFileChange` over the first `take` files. */
    method AttachFirst(files: seq<FileInfo>, transfer: nat -> Transfer, bucket: string, region: string, take: nat)
      requires take <= |files|
      modifies this
      ensures attachments == old(attachments) + Added(files, transfer, bucket, region, take)
      ensures Others() == old(Others())
    {
      ghost var a0 := attachments;
      ghost var added: seq<Attachment> := [];
      var i := 0;
      while i < take
        invariant 0 <= i <= take
        invariant added == Added(files, transfer, bucket, region, i)
        invariant attachments == a0 + added
        invariant Others() == old(Others())
      {
        var tr := transfer(i);
        AddedStep(files, transfer, bucket, region, i);
        ConcatAssoc(a0, added, AttachmentFor(files[i], tr, bucket, region));
        added := added + AttachmentFor(files[i], tr, bucket, region);
        AttachFile(files[i], tr, bucket, region);
        i := i + 1;
      }
    }

    /** Every field but the attachments. */
    function Others(): (string, seq<Preview>, bool, bool, seq<Outgoing>, seq<Option<Json>>)
      reads this
    {
      (message, linkPreviews, showAllPreviews, typingThrottled, outbox, typingSent)
    }

    /** The body of the loop in `handleFileChange` for one file: media are kept inline,
        other files only when the upload went through. */
    method AttachFile(f: FileInfo, tr: Transfer, bucket: string, region: string)
      modifies this
      ensures attachments == old(attachments) + AttachmentFor(f, tr, bucket, region)
      ensures Others() == old(Others())
    {
      var ext := Ext(f.name);
      var category := Category(f.mime, ext);
      if category in MEDIA {
        attachments := attachments + [Attachment(None, None, Some(tr.dataUrl), f.name, ext, category)];
      } else if tr.presign.Ok? && Stored(tr.put) {
        var (_, key) := tr.presign.value;
        attachments := attachments + [Attachment(Some(PublicUrl(bucket, region, key)), Some(key), None, f.name, ext, category)];
      }
    }

    /** A finished voice recording is attached without the slot check. */
    method AddVoiceNote(dataUrl: string, millis: nat)
      modifies this
      ensures attachments == old(attachments) + [Attachment(None, None, Some(dataUrl), "voice-" + NatToString(millis) + ".webm", "webm", "audio")]
      ensures message == old(message) && linkPreviews == old(linkPreviews) && showAllPreviews == old(showAllPreviews)
      ensures typingThrottled == old(typingThrottled) && outbox == old(outbox) && typingSent == old(typingSent)
    {
      attachments := attachments + [Attachment(None, None, Some(dataUrl), "voice-" + NatToString(millis) + ".webm", "webm", "audio")];
    }

    /** `removeAttachment(idx)`. */
    method RemoveAttachment(idx: int)
      modifies this
      ensures attachments == RemoveAt(old(attachments), idx)
      ensures message == old(message) && linkPreviews == old(linkPreviews) && showAllPreviews == old(showAllPreviews)
      ensures typingThrottled == old(typingThrottled) && outbox == old(outbox) && typingSent == old(typingSent)
    {
      attachments := RemoveAt(attachments, idx);
    }

    /** Closing the `i`-th link preview. */
    method ClosePreview(i: int)
      modifies this
      ensures linkPreviews == RemoveAt(old(linkPreviews), i)
      ensures message == old(message) && attachments == old(attachments) && showAllPreviews == old(showAllPreviews)
      ensures typingThrottled == old(typingThrottled) && outbox == old(outbox) && typingSent == old(typingSent)
    {
      linkPreviews := RemoveAt(linkPreviews, i);
    }

    /** `handleTyping`: outside a throttle window a notice is sent if the socket
        is open, and a two-second window starts either way. */
    method HandleTyping(client: Client, receiverId: Option<Json>)
      modifies this
      ensures typingThrottled
      ensures typingSent == if !old(typingThrottled) && client.socket == Some(Open) then old(typingSent) + [receiverId] else old(typingSent)
      ensures message == old(message) && attachments == old(attachments) && linkPreviews == old(linkPreviews)
      ensures showAllPreviews == old(showAllPreviews) && outbox == old(outbox)
    {
      if !typingThrottled {
        if client.socket == Some(Open) {
          typingSent := typingSent + [receiverId];
        }
        typingThrottled := true;
      }
    }

    /** The two-second window ends. */
    method ThrottleEnds()
      modifies this
      ensures !typingThrottled
      ensures message == old(message) && attachments == old(attachments) && linkPreviews == old(linkPreviews)
      ensures showAllPreviews == old(showAllPreviews) && outbox == old(outbox) && typingSent == old(typingSent)
    {
      typingThrottled := false;
    }
  }

  /** Keystrokes inside one window send at most one notice. */
  method TypingBurst(c: Composer, client: Client, receiverId: Option<Json>, keystrokes: nat)
    modifies c
    ensures |c.typingSent| <= |old(c.typingSent)| + 1
    ensures old(c.typingThrottled) ==> c.typingSent == old(c.typingSent)
  {
    var k := 0;
    while k < keystrokes
      invariant 0 <= k <= keystrokes
      invariant k == 0 ==> c.typingSent == old(c.typingSent) && c.typingThrottled == old(c.typingThrottled)
      invariant k > 0 ==> c.typingThrottled && |c.typingSent| <= |old(c.typingSent)| + 1
      invariant old(c.typingThrottled) ==> c.typingSent == old(c.typingSent) && c.typingThrottled
    {
      c.HandleTyping(client, receiverId);
      k := k + 1;
    }
  }
}
