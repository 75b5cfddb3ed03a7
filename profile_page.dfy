/** The profile page form: fields seeded from the signed-in user, the same name
    formatter and age check as the signup form, and the update it submits. */
module ProfilePage {
  import opened Wrappers
  import opened Strings
  import opened Js
  import opened FormRules

  /** `authUser.key || fallback`: the user's field when truthy, the fallback otherwise. */
  function FieldOr(authUser: seq<Field>, key: string, fallback: Json): (r: Json)
    ensures Lookup(authUser, key).Some? && Truthy(Lookup(authUser, key).value) ==> r == Lookup(authUser, key).value
    ensures (Lookup(authUser, key).None? || !Truthy(Lookup(authUser, key).value)) ==> r == fallback
  {
    var v := Lookup(authUser, key);
    if v.Some? && Truthy(v.value) then v.value else fallback
  }

  /** The object handed to `updateProfile`: exactly these four keys, in this order. */
  function UpdatePayload(name: Json, bio: Json, age: Json, image: Json): (r: Json)
    ensures r.JObj? && Keys(r.fields) == ["name", "bio", "age", "image"]
    ensures Lookup(r.fields, "name") == Some(name) && Lookup(r.fields, "bio") == Some(bio)
    ensures Lookup(r.fields, "age") == Some(age) && Lookup(r.fields, "image") == Some(image)
  {
    var fs := [Field("name", name), Field("bio", bio), Field("age", age), Field("image", image)];
    assert Keys(fs) == ["name", "bio", "age", "image"] by {
      assert |Keys(fs)| == 4;
      forall i | 0 <= i < 4 ensures Keys(fs)[i] == ["name", "bio", "age", "image"][i] {
      }
    }
    LookupFirst(fs, 1);
    LookupFirst(fs, 2);
    LookupFirst(fs, 3);
    JObj(fs)
  }

  class Form {
    /** The fields keep whatever JSON value they were seeded with until edited. */
    var name: Json
    var bio: Json
    var age: Json
    var ageValid: bool
    var image: Json
    /** Payloads handed to `updateProfile`, oldest first. */
    var submitted: seq<Json>

    /** The page opens on the signed-in user: each field falls back to "" (the
        picture to null) when the user's value is missing or falsy. */
    constructor (authUser: seq<Field>)
      ensures name == FieldOr(authUser, "name", JStr(""))
      ensures bio == FieldOr(authUser, "bio", JStr(""))
      ensures age == FieldOr(authUser, "age", JStr(""))
      ensures image == FieldOr(authUser, "image", JNull)
      ensures ageValid && submitted == []
      ensures Lookup(authUser, "name").None? ==> name == JStr("")
      ensures Lookup(authUser, "image").None? ==> image == JNull
    {
      name := FieldOr(authUser, "name", JStr(""));
      bio := FieldOr(authUser, "bio", JStr(""));
      age := FieldOr(authUser, "age", JStr(""));
      image := FieldOr(authUser, "image", JNull);
      ageValid := true;
      submitted := [];
    }

    /** The age error shows for a truthy age the check rejected. */
    predicate ShowsAgeError()
      reads this
    {
      Truthy(age) && !ageValid
    }

    /** Name field: the formatted text replaces the name. */
    method OnNameChange(value: string)
      modifies this
      ensures name == JStr(FormatName(value))
      ensures bio == old(bio) && age == old(age) && ageValid == old(ageValid)
      ensures image == old(image) && submitted == old(submitted)
    {
      name := JStr(FormatName(value));
    }

    /** Age field: only all-digit text is taken; it is then checked against 18..120. */
    method OnAgeChange(value: string)
      modifies this
      ensures AgeInputAccepted(value) ==> age == JStr(value) && ageValid == AgeValid(value)
      ensures !AgeInputAccepted(value) ==> age == old(age) && ageValid == old(ageValid)
      ensures name == old(name) && bio == old(bio) && image == old(image) && submitted == old(submitted)
    {
      if AgeInputAccepted(value) {
        age := JStr(value);
        ageValid := AgeValid(value);
      }
    }

    /** Bio field: the text is taken as it is. */
    method OnBioChange(value: string)
      modifies this
      ensures bio == JStr(value)
      ensures name == old(name) && age == old(age) && ageValid == old(ageValid)
      ensures image == old(image) && submitted == old(submitted)
    {
      bio := JStr(value);
    }

    /** A chosen picture, read as a data URL; no file changes nothing. */
    method OnImageChange(dataUrl: Option<string>)
      modifies this
      ensures image == if dataUrl.Some? then JStr(dataUrl.value) else old(image)
      ensures name == old(name) && bio == old(bio) && age == old(age)
      ensures ageValid == old(ageValid) && submitted == old(submitted)
    {
      if dataUrl.Some? {
        image := JStr(dataUrl.value);
      }
    }

    /** Submit: the four fields go out as they are, whether or not the age is valid. */
    method Submit()
      modifies this
      ensures submitted == old(submitted) + [UpdatePayload(name, bio, age, image)]
      ensures name == old(name) && bio == old(bio) && age == old(age)
      ensures ageValid == old(ageValid) && image == old(image)
    {
      submitted := submitted + [UpdatePayload(name, bio, age, image)];
    }
  }
}
