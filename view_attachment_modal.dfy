/** The attachment viewer: the directory tree it shows for a zip archive, the icon
    it picks for a file type, and the lifetime it asks for a download link. */
module ViewAttachmentModal {
  import opened Wrappers
  import opened Strings
  import opened Java
  import S3Controller

  // ---------------------------------------------------------------------------
  // Directory tree of a zip archive.

  /** A node of the tree: the root has no path, every other node the segments
      leading to it joined with "/". */
  datatype Dir = Dir(name: string, path: Option<string>, children: seq<Dir>)

  const ROOT := Dir("/", None, [])

  /** The non-empty pieces of a split, in order. */
  function NonEmpty(pieces: seq<string>): (r: seq<string>)
    ensures forall k :: 0 <= k < |r| ==> r[k] != ""
    ensures forall w :: w in r <==> w in pieces && w != ""
  {
    if pieces == [] then []
    else
      assert forall w :: w in pieces <==> w == pieces[0] || w in pieces[1..] by {
        assert pieces == [pieces[0]] + pieces[1..];
      }
      (if pieces[0] == "" then [] else [pieces[0]]) + NonEmpty(pieces[1..])
  }

  /** `path.split("/").filter(Boolean)`: the path's segments, none empty and none
      holding a slash. */
  function Segments(path: string): (r: seq<string>)
    ensures forall k :: 0 <= k < |r| ==> r[k] != "" && '/' !in r[k]
  {
    SplitPiecesHaveNoSeparator(path, '/');
    NonEmpty(Split(path, '/'))
  }

  lemma {:induction false} NonEmptyKeeps(pieces: seq<string>)
    requires forall k :: 0 <= k < |pieces| ==> pieces[k] != ""
    ensures NonEmpty(pieces) == pieces
  {
    if pieces != [] {
      NonEmptyKeeps(pieces[1..]);
      assert pieces == [pieces[0]] + pieces[1..];
    }
  }

  /** A path without leading, trailing or doubled slashes is its segments joined. */
  lemma CleanPathSegments(path: string)
    requires forall k :: 0 <= k < |Split(path, '/')| ==> Split(path, '/')[k] != ""
    ensures Segments(path) == Split(path, '/')
    ensures Join(Segments(path), '/') == path
  {
    NonEmptyKeeps(Split(path, '/'));
    JoinSplit(path, '/');
  }

  /** Index of the first child called `name`, or -1 (`children.find`). */
  function ChildIndex(children: seq<Dir>, name: string): (r: int)
    ensures -1 <= r < |children|
    ensures r >= 0 ==> children[r].name == name && forall j :: 0 <= j < r ==> children[j].name != name
    ensures r < 0 ==> forall j :: 0 <= j < |children| ==> children[j].name != name
  {
    if children == [] then -1
    else if children[0].name == name then 0
    else
      var r := ChildIndex(children[1..], name);
      if r < 0 then -1 else r + 1
  }

  /** One path's walk from `node`, which sits at depth `i`: for each remaining
      segment the child of that name is found, or created with the path of the
      segments so far and appended. */
  function Insert(node: Dir, parts: seq<string>, i: nat): (r: Dir)
    requires i <= |parts|
    ensures r.name == node.name && r.path == node.path
    decreases |parts| - i
  {
    if i == |parts| then node
    else
      var j := ChildIndex(node.children, parts[i]);
      if j >= 0 then
        Dir(node.name, node.path, node.children[j := Insert(node.children[j], parts, i + 1)])
      else
        var child := Dir(parts[i], Some(Join(parts[..i + 1], '/')), []);
        Dir(node.name, node.path, node.children + [Insert(child, parts, i + 1)])
  }

  /** The segments `parts[i..]` lead from `node` down to a node of the tree. */
  predicate Reaches(node: Dir, parts: seq<string>, i: nat)
    requires i <= |parts|
    decreases |parts| - i
  {
    i == |parts|
    || exists k :: 0 <= k < |node.children| && node.children[k].name == parts[i]
                   && Reaches(node.children[k], parts, i + 1)
  }

  /** No node has two children of the same name, and every node below `node` has as
      path the names leading to it from the root, `prefix` being those of `node`. */
  predicate Tidy(node: Dir, prefix: seq<string>)
    decreases node
  {
    (forall a, b :: 0 <= a < b < |node.children| ==> node.children[a].name != node.children[b].name)
    && forall k :: 0 <= k < |node.children| ==>
         node.children[k].path == Some(Join(prefix + [node.children[k].name], '/'))
         && Tidy(node.children[k], prefix + [node.children[k].name])
  }

  /** After a walk its segments lead from the node to the end. */
  lemma {:induction false} InsertReaches(node: Dir, parts: seq<string>, i: nat)
    requires i <= |parts|
    ensures Reaches(Insert(node, parts, i), parts, i)
    decreases |parts| - i
  {
    if i < |parts| {
      var r := Insert(node, parts, i);
      var j := ChildIndex(node.children, parts[i]);
      InsertReaches(if j >= 0 then node.children[j] else Dir(parts[i], Some(Join(parts[..i + 1], '/')), []), parts, i + 1);
      var k := if j >= 0 then j else |node.children|;
      assert r.children[k].name == parts[i] && Reaches(r.children[k], parts, i + 1);
    }
  }

  /** A walk keeps every chain already in the tree. */
  lemma {:induction false} InsertKeepsChains(node: Dir, parts: seq<string>, i: nat, other: seq<string>, n: nat)
    requires i <= |parts| && n <= |other| && Reaches(node, other, n)
    ensures Reaches(Insert(node, parts, i), other, n)
    decreases |other| - n
  {
    if i < |parts| && n < |other| {
      var r := Insert(node, parts, i);
      var j := ChildIndex(node.children, parts[i]);
      var k :| 0 <= k < |node.children| && node.children[k].name == other[n] && Reaches(node.children[k], other, n + 1);
      if j == k {
        InsertKeepsChains(node.children[k], parts, i + 1, other, n + 1);
      }
      assert r.children[k].name == other[n] && Reaches(r.children[k], other, n + 1);
    }
  }

  /** A walk along a chain already in a tidy tree changes nothing. */
  lemma {:induction false} InsertExisting(node: Dir, parts: seq<string>, i: nat, prefix: seq<string>)
    requires i <= |parts| && Reaches(node, parts, i) && Tidy(node, prefix)
    ensures Insert(node, parts, i) == node
    decreases |parts| - i
  {
    if i < |parts| {
      var k :| 0 <= k < |node.children| && node.children[k].name == parts[i] && Reaches(node.children[k], parts, i + 1);
      var j := ChildIndex(node.children, parts[i]);
      assert j == k;
      InsertExisting(node.children[k], parts, i + 1, prefix + [parts[i]]);
      assert node.children[k := node.children[k]] == node.children;
    }
  }

  /** A walk keeps the tree tidy when `prefix` names the segments before `i`. */
  lemma {:induction false} InsertTidy(node: Dir, parts: seq<string>, i: nat)
    requires i <= |parts| && Tidy(node, parts[..i])
    ensures Tidy(Insert(node, parts, i), parts[..i])
    decreases |parts| - i
  {
    if i < |parts| {
      assert parts[..i] + [parts[i]] == parts[..i + 1];
      var j := ChildIndex(node.children, parts[i]);
      if j >= 0 {
        InsertTidy(node.children[j], parts, i + 1);
        TidyReplace(node, parts[..i], j, Insert(node.children[j], parts, i + 1));
      } else {
        var child := Dir(parts[i], Some(Join(parts[..i + 1], '/')), []);
        assert Tidy(child, parts[..i + 1]);
        InsertTidy(child, parts, i + 1);
        TidyAppend(node, parts[..i], Insert(child, parts, i + 1));
      }
    }
  }

  /** Replacing a child by a tidy one of the same name and path keeps a node tidy. */
  lemma TidyReplace(node: Dir, prefix: seq<string>, j: nat, c: Dir)
    requires Tidy(node, prefix) && j < |node.children|
    requires c.name == node.children[j].name && c.path == node.children[j].path
    requires Tidy(c, prefix + [c.name])
    ensures Tidy(Dir(node.name, node.path, node.children[j := c]), prefix)
  {
    var cs := node.children[j := c];
    forall k | 0 <= k < |cs|
      ensures cs[k].path == Some(Join(prefix + [cs[k].name], '/')) && Tidy(cs[k], prefix + [cs[k].name])
    {
      if k != j {
        assert cs[k] == node.children[k];
      }
    }
  }

  /** Appending a tidy child under a new name, with the path of its names, keeps a
      node tidy. */
  lemma TidyAppend(node: Dir, prefix: seq<string>, c: Dir)
    requires Tidy(node, prefix)
    requires forall k :: 0 <= k < |node.children| ==> node.children[k].name != c.name
    requires c.path == Some(Join(prefix + [c.name], '/')) && Tidy(c, prefix + [c.name])
    ensures Tidy(Dir(node.name, node.path, node.children + [c]), prefix)
  {
    AppendDistinct(node.children, c);
    AppendPaths(node, prefix, c);
  }

  lemma AppendDistinct(cs: seq<Dir>, c: Dir)
    requires forall a, b :: 0 <= a < b < |cs| ==> cs[a].name != cs[b].name
    requires forall k :: 0 <= k < |cs| ==> cs[k].name != c.name
    ensures forall a, b :: 0 <= a < b < |cs + [c]| ==> (cs + [c])[a].name != (cs + [c])[b].name
  {
    forall a, b | 0 <= a < b < |cs + [c]| ensures (cs + [c])[a].name != (cs + [c])[b].name {
      assert (cs + [c])[a] == cs[a];
      if b < |cs| {
        assert (cs + [c])[b] == cs[b];
      }
    }
  }

  lemma AppendPaths(node: Dir, prefix: seq<string>, c: Dir)
    requires Tidy(node, prefix)
    requires c.path == Some(Join(prefix + [c.name], '/')) && Tidy(c, prefix + [c.name])
    ensures var cs := node.children + [c];
      forall k :: 0 <= k < |cs| ==> cs[k].path == Some(Join(prefix + [cs[k].name], '/')) && Tidy(cs[k], prefix + [cs[k].name])
  {
    var cs := node.children + [c];
    forall k | 0 <= k < |cs|
      ensures cs[k].path == Some(Join(prefix + [cs[k].name], '/')) && Tidy(cs[k], prefix + [cs[k].name])
    {
      if k < |node.children| {
        assert cs[k] == node.children[k];
      }
    }
  }

  /** A walk keeps the existing children, by name and in their order, and only ever
      appends new ones: children appear in the order they were first inserted. */
  lemma InsertKeepsOrder(node: Dir, parts: seq<string>, i: nat)
    requires i <= |parts|
    ensures |Insert(node, parts, i).children| >= |node.children|
    ensures forall k :: 0 <= k < |node.children| ==> Insert(node, parts, i).children[k].name == node.children[k].name
  {
  }

  /** The tree after walking in each of `paths`, in order. */
  function Tree(paths: seq<string>): (r: Dir)
    ensures r.name == "/" && r.path == None
  {
    if paths == [] then ROOT else Insert(Tree(paths[..|paths| - 1]), Segments(paths[|paths| - 1]), 0)
  }

  /** `buildTree(files)`: every path, in the order given, walked in from the root. */
  method BuildTree(paths: seq<string>) returns (root: Dir)
    ensures root == Tree(paths)
    ensures root.name == "/" && root.path == None
    ensures Tidy(root, [])
    ensures forall k :: 0 <= k < |paths| ==> Reaches(root, Segments(paths[k]), 0)
  {
    root := ROOT;
    var k := 0;
    while k < |paths|
      invariant 0 <= k <= |paths|
      invariant root == Tree(paths[..k])
    {
      assert paths[..k + 1][..k] == paths[..k];
      root := Insert(root, Segments(paths[k]), 0);
      k := k + 1;
    }
    assert paths[..k] == paths;
    TreeTidy(paths);
    TreeReachesAll(paths);
  }

  /** Every listed path is a chain of the tree. */
  lemma {:induction false} TreeReachesAll(paths: seq<string>)
    ensures forall k :: 0 <= k < |paths| ==> Reaches(Tree(paths), Segments(paths[k]), 0)
  {
    if paths != [] {
      var init := paths[..|paths| - 1];
      var parts := Segments(paths[|paths| - 1]);
      TreeReachesAll(init);
      InsertReaches(Tree(init), parts, 0);
      forall q | 0 <= q < |paths| ensures Reaches(Tree(paths), Segments(paths[q]), 0) {
        if q < |init| {
          assert paths[q] == init[q];
          InsertKeepsChains(Tree(init), parts, 0, Segments(paths[q]), 0);
        }
      }
    }
  }

  /** Listing the same path twice gives the same tree as listing it once. */
  lemma RepeatedPathChangesNothing(paths: seq<string>, p: string)
    ensures Tree(paths + [p, p]) == Tree(paths + [p])
  {
    var t := Tree(paths + [p]);
    assert (paths + [p])[..|paths|] == paths;
    assert t == Insert(Tree(paths), Segments(p), 0);
    assert (paths + [p, p])[..|paths| + 1] == paths + [p];
    assert Tree(paths + [p, p]) == Insert(t, Segments(p), 0);
    TreeTidy(paths + [p]);
    InsertReaches(Tree(paths), Segments(p), 0);
    InsertExisting(t, Segments(p), 0, []);
  }

  lemma {:induction false} TreeTidy(paths: seq<string>)
    ensures Tidy(Tree(paths), [])
  {
    if paths != [] {
      var parts := Segments(paths[|paths| - 1]);
      TreeTidy(paths[..|paths| - 1]);
      assert parts[..0] == [];
      InsertTidy(Tree(paths[..|paths| - 1]), parts, 0);
    }
  }

  // ---------------------------------------------------------------------------
  // File icons and download links.

  datatype Icon = ImageIcon | PdfIcon | WordIcon | ExcelIcon | PowerPointIcon | ArchiveIcon | GenericIcon

  /** An unanchored, case-insensitive test for any of `words`. */
  predicate Mentions(ext: string, words: seq<string>) {
    exists w :: w in words && Contains(Lower(ext), w)
  }

  const IMAGE_WORDS: seq<string> := ["jpg", "jpeg", "png", "gif", "bmp", "svg"]

  /** `getFileIcon(ext)`: the first family the extension mentions, in the order
      image, pdf, doc, xls, ppt, zip; the generic icon otherwise. */
  function FileIcon(ext: string): (r: Icon)
    ensures r == ImageIcon <==> Mentions(ext, IMAGE_WORDS)
    ensures r == PdfIcon <==> !Mentions(ext, IMAGE_WORDS) && Mentions(ext, ["pdf"])
    ensures r == WordIcon <==> !Mentions(ext, IMAGE_WORDS + ["pdf"]) && Mentions(ext, ["doc"])
    ensures r == ExcelIcon <==> !Mentions(ext, IMAGE_WORDS + ["pdf", "doc"]) && Mentions(ext, ["xls"])
    ensures r == PowerPointIcon <==> !Mentions(ext, IMAGE_WORDS + ["pdf", "doc", "xls"]) && Mentions(ext, ["ppt"])
    ensures r == ArchiveIcon <==> !Mentions(ext, IMAGE_WORDS + ["pdf", "doc", "xls", "ppt"]) && Mentions(ext, ["zip"])
    ensures r == GenericIcon <==> !Mentions(ext, IMAGE_WORDS + ["pdf", "doc", "xls", "ppt", "zip"])
  {
    if Mentions(ext, IMAGE_WORDS) then ImageIcon
    else if Mentions(ext, ["pdf"]) then PdfIcon
    else if Mentions(ext, ["doc"]) then WordIcon
    else if Mentions(ext, ["xls"]) then ExcelIcon
    else if Mentions(ext, ["ppt"]) then PowerPointIcon
    else if Mentions(ext, ["zip"]) then ArchiveIcon
    else GenericIcon
  }

  const OFFICE_EXTENSIONS: seq<string> := ["doc", "docx", "xls", "xlsx", "ppt", "pptx"]
  const OFFICE_SECONDS := 900
  const OTHER_SECONDS := 60

  /** The lifetime asked for: fifteen minutes for Office documents, one otherwise. */
  function ExpirySeconds(ext: string): (r: int)
    ensures r == OFFICE_SECONDS <==> Lower(ext) in OFFICE_EXTENSIONS
    ensures r == OTHER_SECONDS <==> Lower(ext) !in OFFICE_EXTENSIONS
  {
    if Lower(ext) in OFFICE_EXTENSIONS then OFFICE_SECONDS else OTHER_SECONDS
  }

  /** The presign request: only for an S3-hosted attachment with a key; `ext` is
      `attachment.ext || ""`. */
  function DownloadRequest(url: string, key: string, ext: string, bucket: string): (r: Option<(string, int)>)
    ensures r.Some? <==> Contains(url, bucket + ".s3.") && key != ""
    ensures r.Some? ==> r.value == (key, ExpirySeconds(ext))
  {
    if Contains(url, bucket + ".s3.") && key != "" then Some((key, ExpirySeconds(ext))) else None
  }

  /** The server grants exactly the lifetime the viewer asks for: neither choice is
      above its fifteen-minute cap. */
  lemma RequestedLifetimeGranted(key: string, ext: string)
    ensures S3Controller.DownloadSeconds(map["key" := JString(key), "expiresIn" := JInteger(ExpirySeconds(ext))])
            == Ok(ExpirySeconds(ext))
  {
  }

  /** An Office document always shows an Office icon. */
  lemma OfficeFilesGetOfficeIcons(ext: string)
    requires ExpirySeconds(ext) == OFFICE_SECONDS
    ensures FileIcon(ext) in {WordIcon, ExcelIcon, PowerPointIcon}
  {
    var e := Lower(ext);
    LowerIdempotent(ext);
    assert e in OFFICE_EXTENSIONS;
    assert !Mentions(ext, IMAGE_WORDS) by {
      forall w | w in IMAGE_WORDS ensures !Contains(e, w) {
        NoWordIn(e, w);
      }
    }
    assert !Mentions(ext, ["pdf"]) by {
      NoWordIn(e, "pdf");
    }
    if e in ["doc", "docx"] {
      assert OccursAt(e, "doc", 0);
      assert Contains(e, "doc");
      assert "doc" in ["doc"] && Contains(Lower(ext), "doc");
    } else if e in ["xls", "xlsx"] {
      assert OccursAt(e, "xls", 0);
      assert Contains(e, "xls");
      assert "xls" in ["xls"] && Contains(Lower(ext), "xls");
    } else {
      assert OccursAt(e, "ppt", 0);
      assert Contains(e, "ppt");
      assert "ppt" in ["ppt"] && Contains(Lower(ext), "ppt");
    }
  }

  /** The image and pdf words occur in none of the Office extensions. */
  lemma NoWordIn(e: string, w: string)
    requires e in OFFICE_EXTENSIONS && w in IMAGE_WORDS + ["pdf"]
    ensures !Contains(e, w)
  {
    forall i: nat | i <= |e| ensures !OccursAt(e, w, i) {
      if i + |w| <= |e| {
        assert e[i] != w[0] || e[i + 1] != w[1] || e[i + 2] != w[2];
      }
    }
  }
}
