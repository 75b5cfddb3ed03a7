/** Link previews: the Open Graph title, description and image of a page, with the
    plain HTML title and description as fallbacks. */
module LinkPreviewController {
  import opened Wrappers

  const PREVIEW_FAILED := "Could not fetch preview"

  /** A `<meta>` element: its `property`, `name` and `content` attributes. */
  datatype Meta = Meta(property: Option<string>, name: Option<string>, content: Option<string>)

  /** A fetched page: its `<title>` text and its meta elements in document order. */
  datatype Document = Document(title: string, metas: seq<Meta>)

  datatype Reply = Preview(fields: map<string, string>) | BadRequest | ServerError(error: string)

  predicate Matches(m: Meta, attr: string) {
    m.property == Some(attr) || m.name == Some(attr)
  }

  /** An absent attribute reads as "". */
  function ContentOf(m: Meta): string {
    if m.content.Some? then m.content.value else ""
  }

  /** `getMetaTag`: the content of the first meta whose property or name is `attr`,
      else "". */
  function GetMetaTag(metas: seq<Meta>, attr: string): (r: string)
    ensures (forall i :: 0 <= i < |metas| ==> !Matches(metas[i], attr)) ==> r == ""
    ensures forall i :: (0 <= i < |metas| && Matches(metas[i], attr)
                         && (forall j :: 0 <= j < i ==> !Matches(metas[j], attr))) ==> r == ContentOf(metas[i])
  {
    if metas == [] then ""
    else if Matches(metas[0], attr) then ContentOf(metas[0])
    else
      var rest := metas[1..];
      var r := GetMetaTag(rest, attr);
      assert forall i :: (0 <= i < |metas| && Matches(metas[i], attr)
                          && (forall j :: 0 <= j < i ==> !Matches(metas[j], attr))) ==> r == ContentOf(metas[i]) by {
        forall i | 0 <= i < |metas| && Matches(metas[i], attr) && (forall j :: 0 <= j < i ==> !Matches(metas[j], attr))
          ensures r == ContentOf(metas[i])
        {
          assert i >= 1 && metas[i] == rest[i - 1];
          forall j | 0 <= j < i - 1 ensures !Matches(rest[j], attr) {
            assert rest[j] == metas[j + 1];
          }
        }
      }
      assert (forall i :: 0 <= i < |metas| ==> !Matches(metas[i], attr)) ==> r == "" by {
        if forall i :: 0 <= i < |metas| ==> !Matches(metas[i], attr) {
          forall k | 0 <= k < |rest| ensures !Matches(rest[k], attr) {
            assert rest[k] == metas[k + 1];
          }
        }
      }
      r
  }

  /** `getLinkPreview`: a missing url is a 400 without any fetch; `fetch` stands for
      Jsoup (`None` where it throws), which turns into a 500. */
  function GetLinkPreview(body: map<string, string>, fetch: string -> Option<Document>): (r: Reply)
    ensures "url" !in body <==> r == BadRequest
    ensures "url" in body && fetch(body["url"]).None? ==> r == ServerError(PREVIEW_FAILED)
    ensures r.Preview? <==> "url" in body && fetch(body["url"]).Some?
    ensures r.Preview? ==>
      var doc := fetch(body["url"]).value;
      var ogTitle := GetMetaTag(doc.metas, "og:title");
      var ogDescription := GetMetaTag(doc.metas, "og:description");
      r.fields.Keys == {"title", "description", "image", "url"}
      && r.fields["title"] == (if ogTitle != "" then ogTitle else doc.title)
      && r.fields["description"] == (if ogDescription != "" then ogDescription else GetMetaTag(doc.metas, "description"))
      && r.fields["image"] == GetMetaTag(doc.metas, "og:image")
      && r.fields["url"] == body["url"]
  {
    if "url" !in body then BadRequest
    else
      var url := body["url"];
      match fetch(url)
      case None => ServerError(PREVIEW_FAILED)
      case Some(doc) =>
        var data := map["title" := GetMetaTag(doc.metas, "og:title"),
                         "description" := GetMetaTag(doc.metas, "og:description"),
                         "image" := GetMetaTag(doc.metas, "og:image"),
                         "url" := url];
        var data := if data["title"] == [] then data["title" := doc.title] else data;
        var data := if data["description"] == [] then data["description" := GetMetaTag(doc.metas, "description")] else data;
        Preview(data)
  }

  /** Open Graph wins: a page with a non-empty `og:title` is previewed under that
      title whatever its `<title>` says. */
  lemma OpenGraphTitleWins(url: string, doc: Document, fetch: string -> Option<Document>, i: nat)
    requires fetch(url) == Some(doc)
    requires i < |doc.metas| && doc.metas[i] == Meta(Some("og:title"), None, Some("Song of the day"))
    requires forall j :: 0 <= j < i ==> !Matches(doc.metas[j], "og:title")
    ensures GetLinkPreview(map["url" := url], fetch) == Preview(GetLinkPreview(map["url" := url], fetch).fields)
    ensures GetLinkPreview(map["url" := url], fetch).fields["title"] == "Song of the day"
  {
    assert Matches(doc.metas[i], "og:title");
  }
}
