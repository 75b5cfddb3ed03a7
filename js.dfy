/** Parsed JSON as the frontend holds it: objects keep their keys in insertion order. */
module Js {
  import opened Wrappers

  datatype Json =
    | JNull
    | JBool(b: bool)
    | JNum(n: real)
    | JStr(s: string)
    | JArr(items: seq<Json>)
    | JObj(fields: seq<Field>)

  datatype Field = Field(key: string, value: Json)

  /** JavaScript truthiness of a parsed value (JSON has no `undefined` or NaN). */
  predicate Truthy(v: Json) {
    match v
    case JNull => false
    case JBool(b) => b
    case JNum(n) => n != 0.0
    case JStr(s) => s != ""
    case JArr(_) => true
    case JObj(_) => true
  }

  function Keys(fields: seq<Field>): seq<string> {
    seq(|fields|, i requires 0 <= i < |fields| => fields[i].key)
  }

  predicate HasKey(fields: seq<Field>, key: string) {
    exists i :: 0 <= i < |fields| && fields[i].key == key
  }

  /** `obj[key]`, `None` standing for `undefined`. */
  function Lookup(fields: seq<Field>, key: string): (r: Option<Json>)
    ensures r.Some? <==> HasKey(fields, key)
    ensures r.Some? ==> exists i :: 0 <= i < |fields| && fields[i] == Field(key, r.value)
  {
    if fields == [] then None
    else if fields[0].key == key then Some(fields[0].value)
    else
      var r := Lookup(fields[1..], key);
      assert HasKey(fields, key) <==> HasKey(fields[1..], key) by {
        if HasKey(fields, key) {
          var i :| 0 <= i < |fields| && fields[i].key == key;
          assert fields[1..][i - 1].key == key;
        }
        if HasKey(fields[1..], key) {
          var i :| 0 <= i < |fields[1..]| && fields[1..][i].key == key;
          assert fields[i + 1].key == key;
        }
      }
      assert r.Some? ==> exists i :: 0 <= i < |fields| && fields[i] == Field(key, r.value) by {
        if r.Some? {
          var i :| 0 <= i < |fields[1..]| && fields[1..][i] == Field(key, r.value);
          assert fields[i + 1] == Field(key, r.value);
        }
      }
      r
  }

  lemma HasKeyCons(fs: seq<Field>, key: string)
    requires fs != []
    ensures HasKey(fs, key) <==> fs[0].key == key || HasKey(fs[1..], key)
  {
    if HasKey(fs, key) && fs[0].key != key {
      var i :| 0 <= i < |fs| && fs[i].key == key;
      assert fs[1..][i - 1].key == key;
    }
    if HasKey(fs[1..], key) {
      var i :| 0 <= i < |fs[1..]| && fs[1..][i].key == key;
      assert fs[i + 1].key == key;
    }
  }

  lemma KeysCons(f: Field, fs: seq<Field>)
    ensures Keys([f] + fs) == [f.key] + Keys(fs)
  {
  }

  /** Reading `v[key]`: a TypeError (`Err`) on null or undefined, `undefined`
      (`None`) for a key a non-object value does not have. */
  function Member(v: Option<Json>, key: string): (r: Result<Option<Json>>)
    ensures r.Err? <==> v.None? || v.value.JNull?
    ensures v.Some? && v.value.JObj? ==> r == Ok(Lookup(v.value.fields, key))
  {
    match v
    case None => Err("TypeError")
    case Some(JNull) => Err("TypeError")
    case Some(JObj(fs)) => Ok(Lookup(fs, key))
    case Some(_) => Ok(None)
  }

  /** `a === b` between parsed values: primitives by value, `undefined` equal to
      itself, arrays and objects (each parsed separately) never equal. */
  predicate StrictEquals(a: Option<Json>, b: Option<Json>) {
    match (a, b)
    case (None, None) => true
    case (Some(JNull), Some(JNull)) => true
    case (Some(JBool(x)), Some(JBool(y))) => x == y
    case (Some(JNum(x)), Some(JNum(y))) => x == y
    case (Some(JStr(x)), Some(JStr(y))) => x == y
    case _ => false
  }

  /** A numeric id as the client uses it: an integral number, else none. */
  function IdOf(v: Option<Json>): (r: Option<int>)
    ensures r.Some? ==> v == Some(JNum(r.value as real))
  {
    match v
    case Some(JNum(n)) => if n == n.Floor as real then Some(n.Floor) else None
    case _ => None
  }

  /** `a % b` on integral numbers with `b > 0`: the remainder takes the sign of the
      dividend, as JavaScript truncates the quotient toward zero. */
  function Rem(a: int, b: int): (r: int)
    requires b > 0
    ensures a >= 0 ==> 0 <= r < b
    ensures a < 0 ==> -b < r <= 0
    ensures -b < a < b ==> r == a
  {
    if a >= 0 then ModOfNat(a, b); a % b else ModOfNat(-a, b); -((-a) % b)
  }

  lemma ModOfNat(a: nat, b: int)
    requires b > 0
    ensures 0 <= a % b < b
    ensures a < b ==> a % b == a
  {
    if a < b {
      assert a / b == 0;
    }
  }

  /** The first field with a key is the one a lookup finds. */
  lemma {:induction false} LookupFirst(fs: seq<Field>, i: nat)
    requires i < |fs| && forall j :: 0 <= j < i ==> fs[j].key != fs[i].key
    ensures Lookup(fs, fs[i].key) == Some(fs[i].value)
  {
    if i > 0 {
      LookupFirst(fs[1..], i - 1);
    }
  }
}
