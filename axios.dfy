/** The response interceptor of the HTTP client: every object that has an `id` but
    no `_id` gets an `_id`, at every depth, so the views can use `_id` throughout. */
module Axios {
  import opened Wrappers
  import opened Js

  /** `transformData`. Parsed JSON shares no objects, so the in-place rewrite is
      modelled on values; the copied `_id` is the rewritten `id`. */
  function Transform(v: Json): (r: Json)
    decreases v, 1
  {
    if !Truthy(v) then v
    else
      match v
      case JArr(items) => JArr(seq(|items|, i requires 0 <= i < |items| => Transform(items[i])))
      case JObj(fs) =>
        var tf := TransformFields(v, fs);
        if HasKey(fs, "id") && !HasKey(fs, "_id") then JObj(tf + [Field("_id", Lookup(tf, "id").value)])
        else JObj(tf)
      case _ => v
  }

  /** Each value of an object rewritten, keys and order kept. */
  function TransformFields(parent: Json, fs: seq<Field>): (r: seq<Field>)
    requires parent == JObj(fs)
    ensures |r| == |fs| && forall i :: 0 <= i < |fs| ==> r[i].key == fs[i].key
    ensures forall k :: HasKey(r, k) <==> HasKey(fs, k)
    decreases parent, 0
  {
    var r := seq(|fs|, i requires 0 <= i < |fs| => Field(fs[i].key, Transform(fs[i].value)));
    assert forall k :: HasKey(r, k) ==> HasKey(fs, k) by {
      forall k | HasKey(r, k) ensures HasKey(fs, k) {
        var i :| 0 <= i < |r| && r[i].key == k;
        assert fs[i].key == k;
      }
    }
    assert forall k :: HasKey(fs, k) ==> HasKey(r, k) by {
      forall k | HasKey(fs, k) ensures HasKey(r, k) {
        var i :| 0 <= i < |fs| && fs[i].key == k;
        assert r[i].key == k;
      }
    }
    r
  }

  /** Falsy data comes back unchanged; an array keeps its length and is rewritten
      element by element. */
  lemma TransformShape(v: Json)
    ensures !Truthy(v) ==> Transform(v) == v
    ensures v.JArr? ==> (Transform(v).JArr? && |Transform(v).items| == |v.items|
      && forall i :: 0 <= i < |v.items| ==> Transform(v).items[i] == Transform(v.items[i]))
    ensures v.JStr? || v.JNum? || v.JBool? || v.JNull? ==> Transform(v) == v
  {
  }

  /** An object keeps its keys in order, gains `_id` at the end exactly when it had
      `id` and no `_id`, and every value is rewritten. */
  lemma TransformObject(fs: seq<Field>)
    ensures var r := Transform(JObj(fs));
      r.JObj? && Keys(r.fields) == Keys(fs) + (if HasKey(fs, "id") && !HasKey(fs, "_id") then ["_id"] else [])
      && forall i :: 0 <= i < |fs| ==> r.fields[i].value == Transform(fs[i].value)
  {
    var tf := TransformFields(JObj(fs), fs);
    if HasKey(fs, "id") && !HasKey(fs, "_id") {
      assert Keys(tf + [Field("_id", Lookup(tf, "id").value)]) == Keys(tf) + ["_id"];
    }
    assert Keys(tf) == Keys(fs);
  }

  /** A copied `_id` equals the rewritten `id`, and an existing `_id` is never
      overwritten by `id`. */
  lemma IdCopy(fs: seq<Field>)
    ensures var r := Transform(JObj(fs)).fields;
      (HasKey(fs, "id") && !HasKey(fs, "_id") ==> Lookup(r, "_id") == Lookup(r, "id") == Some(Transform(Lookup(fs, "id").value)))
      && (HasKey(fs, "_id") ==> Lookup(r, "_id") == Some(Transform(Lookup(fs, "_id").value)))
  {
    var tf := TransformFields(JObj(fs), fs);
    LookupTransformed(fs, "id");
    LookupTransformed(fs, "_id");
    if HasKey(fs, "id") && !HasKey(fs, "_id") {
      LookupAppend(tf, Field("_id", Lookup(tf, "id").value), "_id");
      LookupAppend(tf, Field("_id", Lookup(tf, "id").value), "id");
    }
  }

  /** Looking a key up in the rewritten fields finds the rewritten value. */
  lemma {:induction false} LookupTransformed(fs: seq<Field>, key: string)
    ensures HasKey(fs, key) ==> Lookup(TransformFields(JObj(fs), fs), key) == Some(Transform(Lookup(fs, key).value))
    decreases |fs|
  {
    if fs != [] && HasKey(fs, key) && fs[0].key != key {
      var tf := TransformFields(JObj(fs), fs);
      var rest := TransformFields(JObj(fs[1..]), fs[1..]);
      assert rest == tf[1..] by {
        forall i | 0 <= i < |rest| ensures rest[i] == tf[1..][i] {
          assert fs[1..][i] == fs[i + 1];
        }
      }
      assert Lookup(fs, key) == Lookup(fs[1..], key);
      assert Lookup(tf, key) == Lookup(rest, key) by {
        assert tf[0].key == fs[0].key;
      }
      LookupTransformed(fs[1..], key);
    }
  }

  lemma {:induction false} LookupAppend(fs: seq<Field>, f: Field, key: string)
    ensures Lookup(fs + [f], key) == if HasKey(fs, key) then Lookup(fs, key) else if f.key == key then Some(f.value) else None
    decreases |fs|
  {
    if fs != [] {
      assert (fs + [f])[1..] == fs[1..] + [f];
      LookupAppend(fs[1..], f, key);
    }
  }

  /** Rewriting rewritten data changes nothing. This is also why the in-place
      original may rewrite the shared `id`/`_id` value twice. */
  lemma {:induction false} TransformIdempotent(v: Json)
    ensures Transform(Transform(v)) == Transform(v)
    decreases v, 1
  {
    match v
    case JArr(items) =>
      var t := Transform(v);
      forall i | 0 <= i < |items| ensures Transform(t.items[i]) == t.items[i] {
        TransformIdempotent(items[i]);
      }
    case JObj(fs) =>
      ObjectIdempotent(fs);
    case _ =>
  }

  lemma {:induction false} ObjectIdempotent(fs: seq<Field>)
    ensures Transform(Transform(JObj(fs))) == Transform(JObj(fs))
    decreases JObj(fs), 0
  {
    var tf := TransformFields(JObj(fs), fs);
    var rf := Transform(JObj(fs)).fields;
    var rr := TransformFields(JObj(rf), rf);
    assert rf[..|fs|] == tf;
    forall i | 0 <= i < |fs| ensures rr[i] == rf[i] {
      assert rf[i] == tf[i];
      TransformIdempotent(fs[i].value);
    }
    if HasKey(fs, "id") && !HasKey(fs, "_id") {
      LookupTransformed(fs, "id");
      var j :| 0 <= j < |fs| && fs[j] == Field("id", Lookup(fs, "id").value);
      TransformIdempotent(fs[j].value);
      assert rr[|fs|] == rf[|fs|];
      assert HasKey(rf, "_id") by { assert rf[|fs|].key == "_id"; }
    }
    assert rr == rf;
  }
}
