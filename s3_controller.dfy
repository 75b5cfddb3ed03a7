/** Presigned S3 URLs for chat attachments: the upload key names its owner, and
    download links live at most fifteen minutes. */
module S3Controller {
  import opened Wrappers
  import opened Strings
  import opened Java
  import opened Entities

  const UPLOAD_LIFETIME_SECONDS: int := 120
  const DEFAULT_DOWNLOAD_SECONDS: int := 60
  const MAX_DOWNLOAD_SECONDS: int := 900
  const NAME_AND_TYPE_REQUIRED := "name and type required"
  const KEY_REQUIRED := "key required"
  const PRESIGN_FAILED := "Could not generate presigned URL"

  /** A response: 200 with its fields, or 400/500 with an `error` field. */
  datatype Reply = Success(fields: map<string, string>) | BadRequest(error: string) | ServerError(error: string)

  /** The object key of an upload: the user's folder, then the upload time and the
      file name; a missing user id renders as "null". */
  function ObjectKey(userId: Option<UserId>, millis: int, name: string): string {
    OrNullText(if userId.Some? then Some(IntToString(userId.value)) else None)
      + "/chat_attachments/" + (IntToString(millis) + "_" + name)
  }

  /** The key splits back into the owner's id, the fixed folder and the stamped file
      name, so the owner of an object can be read off its key. */
  lemma ObjectKeyNamesOwner(userId: UserId, millis: nat, name: string)
    requires userId >= 0 && '/' !in name
    ensures Split(ObjectKey(Some(userId), millis, name), '/')
      == [IntToString(userId), "chat_attachments", IntToString(millis) + "_" + name]
  {
    var owner := IntToString(userId);
    var stamped := IntToString(millis) + "_" + name;
    NoSlashInNumber(userId);
    NoSlashInNumber(millis);
    assert '/' !in "_";
    assert '/' !in stamped;
    KeyAsJoin(owner, stamped);
    assert '/' !in "chat_attachments";
    var parts := [owner, "chat_attachments", stamped];
    assert forall k :: 0 <= k < |parts| ==> '/' !in parts[k];
    SplitJoin(parts, '/');
    assert ObjectKey(Some(userId), millis, name) == owner + "/chat_attachments/" + stamped;
  }

  lemma NoSlashInNumber(n: nat)
    ensures '/' !in IntToString(n)
  {
    NatToStringRoundTrip(n);
    var s := IntToString(n);
    forall i | 0 <= i < |s| ensures s[i] != '/' {
      assert IsDigit(s[i]);
    }
  }

  lemma Join3(a: string, b: string, c: string, sep: char)
    ensures Join([a, b, c], sep) == a + [sep] + b + [sep] + c
  {
    var parts := [a, b, c];
    assert parts[1..] == [b, c];
    assert [b, c][1..] == [c];
    assert Join([c], sep) == c;
    assert Join([b, c], sep) == b + [sep] + c;
    assert Join(parts, sep) == a + [sep] + (b + [sep] + c);
  }

  lemma KeyAsJoin(owner: string, stamped: string)
    ensures Join([owner, "chat_attachments", stamped], '/') == owner + "/chat_attachments/" + stamped
  {
    Join3(owner, "chat_attachments", stamped, '/');
    assert "/chat_attachments/" == ['/'] + "chat_attachments" + ['/'];
  }

  /** `generatePresignedUrl`: name and type are required; the key is signed for a
      PUT of that content type for two minutes. `presign(key, type, seconds)` stands
      for the presigner and gives `None` where it throws. */
  function PresignUpload(body: map<string, string>, userId: Option<UserId>, millis: int,
                         presign: (string, string, int) -> Option<string>): (r: Reply)
    ensures "name" !in body || "type" !in body <==> r == BadRequest(NAME_AND_TYPE_REQUIRED)
    ensures r.Success? ==> (r.fields.Keys == {"url", "key"}
                            && r.fields["key"] == ObjectKey(userId, millis, body["name"])
                            && presign(r.fields["key"], body["type"], UPLOAD_LIFETIME_SECONDS) == Some(r.fields["url"]))
    ensures r.ServerError? ==> r.error == PRESIGN_FAILED
  {
    if "name" !in body || "type" !in body then BadRequest(NAME_AND_TYPE_REQUIRED)
    else
      var key := ObjectKey(userId, millis, body["name"]);
      match presign(key, body["type"], UPLOAD_LIFETIME_SECONDS)
      case None => ServerError(PRESIGN_FAILED)
      case Some(url) => Success(map["url" := url, "key" := key])
  }

  /** The lifetime of a download link: the requested seconds (60 when the key is
      absent), capped at 900. The cast and the unboxing happen before the key check,
      so a null or non-Integer value fails first. */
  function DownloadSeconds(body: map<string, JavaValue>): (r: Result<int>)
    ensures "expiresIn" !in body ==> r == Ok(DEFAULT_DOWNLOAD_SECONDS)
    ensures "expiresIn" in body && body["expiresIn"].JInteger? ==>
      r == Ok(if body["expiresIn"].i <= MAX_DOWNLOAD_SECONDS then body["expiresIn"].i else MAX_DOWNLOAD_SECONDS)
    ensures r.Ok? ==> r.value <= MAX_DOWNLOAD_SECONDS
    ensures "expiresIn" in body && !body["expiresIn"].JInteger? ==> r.Err?
  {
    if "expiresIn" !in body then Ok(DEFAULT_DOWNLOAD_SECONDS)
    else
      match body["expiresIn"]
      case JInteger(n) => Ok(if n < MAX_DOWNLOAD_SECONDS then n else MAX_DOWNLOAD_SECONDS)
      case JNull => Err(NULL_POINTER)
      case _ => Err(CLASS_CAST)
  }

  /** `generatePresignedDownloadUrl`: an exception while reading the body escapes;
      otherwise a missing key is a 400 and a presigner failure a 500. */
  function PresignDownload(body: map<string, JavaValue>, presign: (string, int) -> Option<string>): (r: Result<Reply>)
    ensures DownloadSeconds(body).Err? || AsString(Get(body, "key")).Err? <==> r.Err?
    ensures var k := AsString(Get(body, "key"));
      k.Ok? && k.value.Some? && DownloadSeconds(body).Ok? ==>
        r == Ok(match presign(k.value.value, DownloadSeconds(body).value)
                case None => ServerError(PRESIGN_FAILED)
                case Some(u) => Success(map["url" := u]))
    ensures r.Ok? && r.value.Success? ==>
      var key := AsString(Get(body, "key")).value;
      key.Some? && r.value.fields.Keys == {"url"}
      && presign(key.value, DownloadSeconds(body).value) == Some(r.value.fields["url"])
    ensures r.Ok? && Get(body, "key").JNull? ==> r.value == BadRequest(KEY_REQUIRED)
  {
    var key :- AsString(Get(body, "key"));
    var seconds :- DownloadSeconds(body);
    if key.None? then Ok(BadRequest(KEY_REQUIRED))
    else
      match presign(key.value, seconds)
      case None => Ok(ServerError(PRESIGN_FAILED))
      case Some(url) => Ok(Success(map["url" := url]))
  }

  /** No download link is ever signed for more than fifteen minutes. */
  lemma DownloadLinksAreShortLived(body: map<string, JavaValue>, presign: (string, int) -> Option<string>)
    requires PresignDownload(body, presign).Ok? && PresignDownload(body, presign).value.Success?
    ensures DownloadSeconds(body).Ok? && DownloadSeconds(body).value <= MAX_DOWNLOAD_SECONDS
  {
  }
}
