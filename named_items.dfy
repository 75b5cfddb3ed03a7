/** The filter the chat page and the shared-items chips apply to the lists of
    common tracks, artists, saved items and followed users: an item is kept when its
    lower-cased name is non-empty. Reading the name of a null item, or calling
    `toLowerCase` on a name that is not a string, throws. */
module NamedItems {
  import opened Wrappers
  import opened Strings
  import opened Js

  /** `it.name.toLowerCase()`, or the TypeError it throws. */
  function LoweredName(it: Json): (r: Result<string>)
    ensures r.Ok? <==> it.JObj? && Lookup(it.fields, "name").Some? && Lookup(it.fields, "name").value.JStr?
    ensures r.Ok? ==> r.value == Lower(Lookup(it.fields, "name").value.s)
    ensures r.Ok? ==> (r.value == "" <==> Lookup(it.fields, "name").value.s == "")
  {
    match Member(Some(it), "name")
    case Err(e) => Err(e)
    case Ok(Some(JStr(n))) => Ok(Lower(n))
    case Ok(_) => Err("TypeError")
  }

  /** The item passes the filter: it has a non-empty string name. */
  predicate Named(it: Json) {
    LoweredName(it).Ok? && LoweredName(it).value != ""
  }

  /** The items the filter keeps, in their order. */
  function Survivors(items: seq<Json>): (r: seq<Json>)
    ensures forall x :: x in r <==> x in items && Named(x)
    ensures |r| <= |items|
  {
    if items == [] then []
    else
      assert forall x :: x in items <==> x == items[0] || x in items[1..] by {
        assert items == [items[0]] + items[1..];
      }
      if Named(items[0]) then [items[0]] + Survivors(items[1..]) else Survivors(items[1..])
  }

  /** `items.filter((it) => it.name.toLowerCase())`: the first item without a string
      name throws, so the filter either fails or keeps the survivors. */
  function KeepNamed(items: seq<Json>): (r: Result<seq<Json>>)
    ensures r.Ok? <==> forall i :: 0 <= i < |items| ==> LoweredName(items[i]).Ok?
    ensures r.Ok? ==> forall x :: x in r.value <==> x in items && Named(x)
    ensures r.Ok? ==> |r.value| <= |items|
  {
    if forall i :: 0 <= i < |items| ==> LoweredName(items[i]).Ok? then Ok(Survivors(items))
    else Err("TypeError")
  }

  /** The filter is applied item by item: filtering a concatenation concatenates
      the filtered parts, so the survivors keep their relative order. */
  lemma {:induction false} SurvivorsAppend(a: seq<Json>, b: seq<Json>)
    ensures Survivors(a + b) == Survivors(a) + Survivors(b)
  {
    if a == [] {
      assert a + b == b;
    } else {
      assert (a + b)[0] == a[0];
      assert (a + b)[1..] == a[1..] + b;
      SurvivorsAppend(a[1..], b);
    }
  }

  /** A list whose every item has a non-empty name passes unchanged. */
  lemma {:induction false} KeepNamedAllNamed(items: seq<Json>)
    requires forall i :: 0 <= i < |items| ==> Named(items[i])
    ensures KeepNamed(items) == Ok(items)
  {
    if items != [] {
      KeepNamedAllNamed(items[1..]);
      assert items == [items[0]] + items[1..];
    }
  }

  /** `(arr = []) => arr.filter(...)`: a missing list counts as empty; a null or
      non-array value has no `filter` and throws. */
  function FilterBad(arr: Option<Json>): (r: Result<seq<Json>>)
    ensures arr.None? ==> r == Ok([])
    ensures arr.Some? && !arr.value.JArr? ==> r.Err?
    ensures arr.Some? && arr.value.JArr? ==> r == KeepNamed(arr.value.items)
  {
    match arr
    case None => Ok([])
    case Some(JArr(items)) => KeepNamed(items)
    case Some(_) => Err("TypeError")
  }
}
