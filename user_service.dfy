/** Partial profile update: only the keys present in the request are applied. */
module UserService {
  import opened Wrappers
  import opened Strings
  import opened Java
  import opened Entities
  import opened External

  const USER_NOT_FOUND := "User not found"
  const IMAGE_UPLOAD_FAILED := "Error uploading image to Cloudinary"

  /** `updateProfile`: a new picture is uploaded only for a `data:image` value; name,
      bio and age are overwritten exactly when their key is present; everything else
      about the user stays. `upload` is the Cloudinary answer. A failure, including
      a value of the wrong type or a null name or age (both columns are
      `nullable = false`), saves nothing. */
  method UpdateProfile(repo: UserRepository, userId: UserId, data: map<string, JavaValue>, upload: UploadResult)
    returns (r: Result<User>)
    requires repo.Valid()
    modifies repo
    ensures repo.Valid()
    ensures userId !in old(repo.users) ==> r == Err(USER_NOT_FOUND)
    ensures r.Err? ==> repo.users == old(repo.users)
    ensures r.Ok? ==> userId in old(repo.users) && repo.users == old(repo.users)[userId := r.value]
    ensures r.Ok? ==> SameAccount(r.value, old(repo.users)[userId])
    ensures r.Ok? ==> UserStorable(r.value)
    ensures userId in old(repo.users) && (("name" in data && data["name"].JNull?) || ("age" in data && data["age"].JNull?))
      ==> r.Err?
    ensures r.Ok? ==>
      var before := old(repo.users)[userId];
      (UploadWanted(data) ==> upload.Uploaded? && r.value.image == upload.secureUrl)
      && (!UploadWanted(data) ==> r.value.image == before.image)
      && ("name" in data ==> AsString(data["name"]) == Ok(r.value.name))
      && ("name" !in data ==> r.value.name == before.name)
      && ("bio" in data ==> AsString(data["bio"]) == Ok(r.value.bio))
      && ("bio" !in data ==> r.value.bio == before.bio)
      && ("age" in data ==> AsInteger(data["age"]) == Ok(r.value.age))
      && ("age" !in data ==> r.value.age == before.age)
    ensures userId in old(repo.users) && UploadWanted(data) && upload.UploadFailed? ==> r == Err(IMAGE_UPLOAD_FAILED)
    ensures "image" in data && AsString(data["image"]).Err? ==> r.Err?
  {
    var found := repo.FindById(userId);
    if found.None? {
      return Err(USER_NOT_FOUND);
    }
    var edited := ApplyEdits(found.value, data, upload);
    if edited.Err? {
      return Err(edited.error);
    }
    r := repo.TrySave(edited.value);
  }

  /** Steps 2 and 3 of `updateProfile` on the fetched user: the picture upload, then
      name, bio and age for the keys present, each cast first. */
  method ApplyEdits(before: User, data: map<string, JavaValue>, upload: UploadResult) returns (r: Result<User>)
    ensures r.Ok? ==> SameAccount(r.value, before)
    ensures r.Ok? ==>
      (UploadWanted(data) ==> upload.Uploaded? && r.value.image == upload.secureUrl)
      && (!UploadWanted(data) ==> r.value.image == before.image)
      && ("name" in data ==> AsString(data["name"]) == Ok(r.value.name))
      && ("name" !in data ==> r.value.name == before.name)
      && ("bio" in data ==> AsString(data["bio"]) == Ok(r.value.bio))
      && ("bio" !in data ==> r.value.bio == before.bio)
      && ("age" in data ==> AsInteger(data["age"]) == Ok(r.value.age))
      && ("age" !in data ==> r.value.age == before.age)
    ensures UploadWanted(data) && upload.UploadFailed? ==> r == Err(IMAGE_UPLOAD_FAILED)
    ensures "image" in data && AsString(data["image"]).Err? ==> r.Err?
  {
    var user := before;
    if "image" in data {
      var image := AsString(data["image"]);
      if image.Err? {
        return Err(image.error);
      }
      if image.value.Some? && StartsWith(image.value.value, "data:image") {
        if upload.UploadFailed? {
          return Err(IMAGE_UPLOAD_FAILED);
        }
        user := user.(image := upload.secureUrl);
      }
    }
    if "name" in data {
      var name := AsString(data["name"]);
      if name.Err? {
        return Err(name.error);
      }
      user := user.(name := name.value);
    }
    if "bio" in data {
      var bio := AsString(data["bio"]);
      if bio.Err? {
        return Err(bio.error);
      }
      user := user.(bio := bio.value);
    }
    if "age" in data {
      var age := AsInteger(data["age"]);
      if age.Err? {
        return Err(age.error);
      }
      user := user.(age := age.value);
    }
    r := Ok(user);
  }

  /** The request carries a new picture: an `image` key whose value is a string
      starting with `data:image`. */
  predicate UploadWanted(data: map<string, JavaValue>) {
    "image" in data && match AsString(data["image"]) {
      case Ok(Some(s)) => StartsWith(s, "data:image")
      case _ => false
    }
  }

  /** Two versions of a user that differ at most in name, age, bio and picture. */
  predicate SameAccount(u: User, v: User) {
    u.(name := v.name, age := v.age, bio := v.bio, image := v.image) == v
  }

  /** A profile edit leaves the social graph, and so the match invariant, as it was. */
  lemma ProfileEditKeepsGraph(users: map<UserId, User>, u: User)
    requires u.id in users && SameAccount(u, users[u.id])
    requires MatchesAreMutualLikes(users) && SocialClosed(users)
    ensures MatchesAreMutualLikes(users[u.id := u]) && SocialClosed(users[u.id := u])
  {
  }
}
