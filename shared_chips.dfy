/** The chips listing what two users share: the first few named items inline, a
    "+N more" button opening the full list, and an embedded Spotify player for the
    item picked. */
module SharedChips {
  import opened Wrappers
  import opened Js
  import opened NamedItems

  const DEFAULT_LIMIT := 2

  /** `filtered.slice(0, limit)`'s end: a negative limit counts back from the end. */
  function SliceEnd(len: nat, limit: int): (r: nat)
    ensures r <= len
    ensures limit >= 0 ==> r == if limit < len then limit else len
    ensures limit < 0 ==> r == if len + limit > 0 then len + limit else 0
  {
    if limit < 0 then (if len + limit > 0 then len + limit else 0)
    else if limit < len then limit else len
  }

  /** The `limit` prop, 2 when it is not given. */
  function LimitOf(limit: Option<int>): int {
    if limit.Some? then limit.value else DEFAULT_LIMIT
  }

  /** `visible`: the leading items of the filtered list. */
  function Visible(filtered: seq<Json>, limit: Option<int>): (r: seq<Json>)
    ensures r <= filtered
    ensures |r| == SliceEnd(|filtered|, LimitOf(limit))
  {
    filtered[..SliceEnd(|filtered|, LimitOf(limit))]
  }

  /** `moreCount`: the filtered items not shown inline. */
  function MoreCount(filtered: seq<Json>, limit: Option<int>): (r: nat)
    ensures r == |filtered| - |Visible(filtered, limit)|
    ensures Visible(filtered, limit) + filtered[|filtered| - r..] == filtered
  {
    |filtered| - |Visible(filtered, limit)|
  }

  /** For a non-negative limit the button counts the items beyond it, and is shown
      exactly when there are more items than the limit. */
  lemma MoreCountBeyondLimit(filtered: seq<Json>, limit: Option<int>)
    requires LimitOf(limit) >= 0
    ensures MoreCount(filtered, limit) == if |filtered| > LimitOf(limit) then |filtered| - LimitOf(limit) else 0
    ensures MoreCount(filtered, limit) > 0 <==> |filtered| > LimitOf(limit)
  {
  }

  /** With no limit given, at most two chips are inline. */
  lemma DefaultShowsTwo(filtered: seq<Json>)
    ensures |Visible(filtered, None)| == if |filtered| < 2 then |filtered| else 2
  {
  }

  /** Every chip shown inline is an item of the list with a non-empty name, and the
      "+N more" count is the number of such items left out. The chips filter the
      `items` prop exactly as `NamedItems.FilterBad` does: missing means empty. */
  lemma VisibleItemsAreNamed(items: Option<Json>, limit: Option<int>)
    requires FilterBad(items).Ok?
    ensures forall x :: x in Visible(FilterBad(items).value, limit) ==>
      items.Some? && x in items.value.items && Named(x)
    ensures |Visible(FilterBad(items).value, limit)| + MoreCount(FilterBad(items).value, limit)
      == |FilterBad(items).value|
  {
    var f := FilterBad(items).value;
    forall x | x in Visible(f, limit)
      ensures items.Some? && x in items.value.items && Named(x)
    {
      assert x in f;
    }
  }

  /** The classes of one colour variant. */
  datatype Variant = Variant(bg: string, text: string, hoverBg: string)

  const GRAY := Variant("bg-[#1a1a1a] border border-[#2a2a2a]", "text-gray-200", "hover:bg-[#242424]")

  const COLOR_VARIANTS: map<string, Variant> := map[
    "pink" := Variant("bg-[#241018] border border-[#ff5f9e]/40", "text-[#ff8fc1]", "hover:bg-[#2f1420]"),
    "blue" := Variant("bg-[#0f1b2a] border border-[#4da3ff]/40", "text-[#7cc4ff]", "hover:bg-[#142236]"),
    "green" := Variant("bg-[#10241a] border border-[#38d97a]/45", "text-[#6df2a8]", "hover:bg-[#153023]"),
    "purple" := Variant("bg-[#1a1430] border border-[#9a7bff]/40", "text-[#c1a7ff]", "hover:bg-[#231c3b]"),
    "gray" := GRAY
  ]

  /** `COLOR_VARIANTS[bg] || COLOR_VARIANTS.gray`, with `bg` "gray" when not given. */
  function VariantFor(bg: Option<string>): (r: Variant)
    ensures r in COLOR_VARIANTS.Values
    ensures bg.Some? && bg.value in COLOR_VARIANTS ==> r == COLOR_VARIANTS[bg.value]
    ensures (bg.Some? && bg.value !in COLOR_VARIANTS) || bg.None? ==> r == GRAY
  {
    var key := if bg.Some? then bg.value else "gray";
    assert COLOR_VARIANTS["gray"] == GRAY;
    if key in COLOR_VARIANTS then COLOR_VARIANTS[key] else GRAY
  }

  class Chips {
    var openList: bool
    var embedOpen: bool
    var selectedItem: Option<Json>
    var embedLoaded: bool

    /** The player is open exactly while an item is selected, and only an open player
        can have loaded. */
    ghost predicate Valid()
      reads this
    {
      (embedOpen <==> selectedItem.Some?) && (embedLoaded ==> embedOpen)
    }

    constructor ()
      ensures Valid()
      ensures !openList && !embedOpen && selectedItem == None && !embedLoaded
    {
      openList := false;
      embedOpen := false;
      selectedItem := None;
      embedLoaded := false;
    }

    /** The player shows while it is open on a truthy item. */
    predicate EmbedShown()
      reads this
    {
      embedOpen && selectedItem.Some? && Truthy(selectedItem.value)
    }

    /** `openEmbed(item)`: the player opens on the item, not yet loaded. */
    method OpenEmbed(item: Json)
      requires Valid()
      modifies this
      ensures Valid()
      ensures embedOpen && selectedItem == Some(item) && !embedLoaded
      ensures openList == old(openList)
    {
      embedLoaded := false;
      selectedItem := Some(item);
      embedOpen := true;
    }

    /** `closeEmbed()`: the player closes, unloaded and with nothing selected. */
    method CloseEmbed()
      requires Valid()
      modifies this
      ensures Valid()
      ensures !embedOpen && selectedItem == None && !embedLoaded && !EmbedShown()
      ensures openList == old(openList)
    {
      embedLoaded := false;
      embedOpen := false;
      selectedItem := None;
    }

    /** The embedded player's `onLoad`. */
    method EmbedLoaded()
      requires Valid() && EmbedShown()
      modifies this
      ensures Valid()
      ensures embedLoaded
      ensures openList == old(openList) && embedOpen == old(embedOpen) && selectedItem == old(selectedItem)
    {
      embedLoaded := true;
    }

    /** The "+N more" button. */
    method OpenList()
      requires Valid()
      modifies this
      ensures Valid()
      ensures openList
      ensures embedOpen == old(embedOpen) && selectedItem == old(selectedItem) && embedLoaded == old(embedLoaded)
    {
      openList := true;
    }

    /** The list's backdrop or close button. */
    method CloseList()
      requires Valid()
      modifies this
      ensures Valid()
      ensures !openList
      ensures embedOpen == old(embedOpen) && selectedItem == old(selectedItem) && embedLoaded == old(embedLoaded)
    {
      openList := false;
    }

    /** Picking an item in the full list closes the list and opens the player on it. */
    method PickFromList(item: Json)
      requires Valid()
      modifies this
      ensures Valid()
      ensures !openList && embedOpen && selectedItem == Some(item) && !embedLoaded
    {
      openList := false;
      OpenEmbed(item);
    }
  }

  /** Opening one item and closing the player leaves no selection behind, whatever
      was open before. */
  method OpenThenClose(c: Chips, item: Json)
    requires c.Valid()
    modifies c
    ensures c.Valid()
    ensures !c.embedOpen && c.selectedItem == None && !c.embedLoaded
    ensures c.openList == old(c.openList)
  {
    c.OpenEmbed(item);
    c.CloseEmbed();
  }
}
