/** Account creation and login, and the demo "bot" users created for a new member
    from a random profile and a share of their music taste. */
module AuthService {
  import opened Wrappers
  import opened Strings
  import opened Java
  import opened Entities
  import opened External
  import opened SocketService
  import opened Collections
  import MatchService

  const ALL_FIELDS_REQUIRED := "All fields are required"
  const TOO_YOUNG := "You must be at least 18 years old"
  const PASSWORD_TOO_SHORT := "Password must be at least 6 characters"
  const EMAIL_EXISTS := "Email already exists"
  const PICTURE_UPLOAD_FAILED := "Failed to upload profile picture"
  const INVALID_LOGIN := "Invalid email or password"
  const BOT_PASSWORD := "bot_pass"

  /** The ten bios a bot picks from. */
  const GENERIC_BIOS: seq<string> := [
    "Music is my escape 🎧",
    "Always looking for new vibes",
    "Concert addict 🎫",
    "Bass head 🔊",
    "Here for the music",
    "Spotify wrapped was embarrassing",
    "Musician / Dreamer",
    "Vinyl collector",
    "Just listen.",
    "In search of the perfect playlist"
  ]

  // ---------------------------------------------------------------- helpers

  /** `parseIntSafely`: an Integer as is, a numeric String parsed, any other Number
      narrowed with `intValue()`, and null for everything else. */
  function ParseIntSafely(v: JavaValue): (r: Option<int>)
    ensures v.JNull? || v.JBool? || v.JMap? || v.JOther? ==> r == None
    ensures r.Some? && !v.JInteger? ==> IsInt(r.value)
  {
    match v
    case JNull => None
    case JInteger(i) => Some(i)
    case JString(s) => ParseInt(s)
    case JLong(l) => Some(Wrap32(l))
    case JBigInteger(b) => Some(Wrap32(b))
    case JDouble(d) => Some(DoubleToInt(d))
    case _ => None
  }

  /** Every numeric representation of an int, the decimal string included, reads as
      that int. */
  lemma ParseIntSafelyAgrees(x: int)
    requires IsInt(x)
    ensures ParseIntSafely(JInteger(x)) == Some(x)
    ensures ParseIntSafely(JLong(x)) == Some(x)
    ensures ParseIntSafely(JBigInteger(x)) == Some(x)
    ensures ParseIntSafely(JDouble(x as real)) == Some(x)
    ensures ParseIntSafely(JString(IntToString(x))) == Some(x)
  {
    ParseIntRoundTrip(x);
  }

  /** A string that is not a number gives null, not an exception. */
  lemma ParseIntSafelyRejectsText(s: string)
    requires |s| > 0 && !IsDigit(s[0]) && s[0] != '-' && s[0] != '+'
    ensures ParseIntSafely(JString(s)) == None
  {
  }

  /** `capitalize`: null and "" unchanged, otherwise the first character upper-cased. */
  function Capitalize(s: Option<string>): (r: Option<string>)
    ensures r.None? <==> s.None?
    ensures s.Some? ==> |r.value| == |s.value|
    ensures s.Some? && |s.value| > 0 ==> r.value[0] == UpperChar(s.value[0]) && r.value[1..] == s.value[1..]
  {
    match s
    case None => None
    case Some(t) => if t == [] then s else Some([UpperChar(t[0])] + t[1..])
  }

  lemma CapitalizeIdempotent(s: Option<string>)
    ensures Capitalize(Capitalize(s)) == Capitalize(s)
  {
    if s.Some? && |s.value| > 0 {
      var c := Capitalize(s).value;
      assert [UpperChar(c[0])] + c[1..] == c;
    }
  }

  /** `new ArrayList<>(sourceSet)`: the members in the set's (unspecified) order. */
  method ToList(s: set<Item>) returns (list: seq<Item>)
    ensures |list| == |s| && Distinct(list)
    ensures forall x :: x in list <==> x in s
  {
    list := [];
    var rest := s;
    while rest != {}
      invariant rest <= s && |list| + |rest| == |s| && Distinct(list)
      invariant forall x :: x in list <==> x in s && x !in rest
      decreases |rest|
    {
      var x :| x in rest;
      list := list + [x];
      rest := rest - {x};
    }
  }

  /** `Collections.shuffle`: from the last position down, swap with a position drawn
      below it; `rnd(i)` stands for the i-th draw of the random source. */
  method Shuffle(a: array<Item>, rnd: nat -> nat)
    modifies a
    ensures multiset(a[..]) == multiset(old(a[..]))
  {
    var i := a.Length;
    while i > 1
      invariant 0 <= i <= a.Length
      invariant multiset(a[..]) == multiset(old(a[..]))
    {
      var j := rnd(i) % i;
      a[i - 1], a[j] := a[j], a[i - 1];
      i := i - 1;
    }
  }

  /** `getRandomSubset`: a shuffled prefix of the set's members: all of them when there
      are at most ten, otherwise between ten and all of them; `sizeDraw` stands for
      the random draw of the size. */
  method GetRandomSubset(source: set<Item>, rnd: nat -> nat, sizeDraw: nat) returns (r: seq<Item>)
    ensures Distinct(r) && forall x :: x in r ==> x in source
    ensures source == {} ==> r == []
    ensures |source| <= 10 ==> |r| == |source| && forall x :: x in source ==> x in r
    ensures |source| > 10 ==> 10 <= |r| <= |source|
  {
    var list := ToList(source);
    if |list| == 0 {
      return [];
    }
    var a := new Item[|list|](i requires 0 <= i < |list| => list[i]);
    assert a[..] == list;
    Shuffle(a, rnd);
    PermutationKeepsDistinct(a[..], list);
    var max := a.Length;
    var target := if max <= 10 then max else 10 + sizeDraw % (max - 10 + 1);
    r := a[..target];
    forall x | x in r ensures x in source {
      assert x in multiset(a[..]);
    }
    forall x | x in source && max <= 10 ensures x in r {
      assert x in multiset(list);
      assert r == a[..];
    }
  }

  // ---------------------------------------------------------------- signup

  /** The request fields after the casts at the top of `signup`. */
  datatype SignupFields = SignupFields(
    name: Option<string>, email: Option<string>, password: Option<string>, age: Option<int>,
    image: Option<string>, spotify: Option<map<string, JavaValue>>)

  /** The casts, in source order; a value of the wrong type throws. */
  function ReadSignupFields(data: map<string, JavaValue>): Result<SignupFields> {
    var name :- AsString(Get(data, "name"));
    var email :- AsString(Get(data, "email"));
    var password :- AsString(Get(data, "password"));
    var age := ParseIntSafely(Get(data, "age"));
    var image :- AsString(Get(data, "image"));
    var spotify :- AsMap(Get(data, "spotify"));
    Ok(SignupFields(name, email, password, age, image, spotify))
  }

  /** The emails already registered. */
  function Emails(users: map<UserId, User>): set<string> {
    set id | id in users :: users[id].email
  }

  /** The validation of `signup`, first failing rule first. */
  function SignupError(f: SignupFields, emails: set<string>): Option<string> {
    if f.name.None? || f.email.None? || f.password.None? || f.age.None? then Some(ALL_FIELDS_REQUIRED)
    else if f.age.value < 18 then Some(TOO_YOUNG)
    else if |f.password.value| < 6 then Some(PASSWORD_TOO_SHORT)
    else if f.email.value in emails then Some(EMAIL_EXISTS)
    else None
  }

  /** Signup is accepted exactly when every field is there, the user is an adult,
      the password has six characters and the email is new. */
  lemma SignupAcceptsExactly(f: SignupFields, emails: set<string>)
    ensures SignupError(f, emails).None? <==>
      f.name.Some? && f.email.Some? && f.password.Some? && f.age.Some?
      && f.age.value >= 18 && |f.password.value| >= 6 && f.email.value !in emails
  {
  }

  /** The rules are checked in a fixed order: a missing field hides every other
      problem, an under-age user is told so before a short password, and a short
      password before a taken email. */
  lemma SignupErrorOrder(f: SignupFields, emails: set<string>)
    ensures f.name.None? || f.email.None? || f.password.None? || f.age.None? ==>
      SignupError(f, emails) == Some(ALL_FIELDS_REQUIRED)
    ensures f.name.Some? && f.email.Some? && f.password.Some? && f.age.Some? && f.age.value < 18 ==>
      SignupError(f, emails) == Some(TOO_YOUNG)
    ensures (f.name.Some? && f.email.Some? && f.password.Some? && f.age.Some? && f.age.value >= 18
             && |f.password.value| < 6) ==> SignupError(f, emails) == Some(PASSWORD_TOO_SHORT)
  {
  }

  /** The Spotify tokens stored on a new user. */
  datatype Tokens = Tokens(access: Option<string>, refresh: Option<string>, expiresAt: Option<int>)

  /** Step 4 of `signup`: taken only when the map has an `access_token` key; the expiry
      is `now + expires_in` seconds, and only when `expires_in` reads as an int. */
  function ReadTokens(spotify: Option<map<string, JavaValue>>, now: int): (r: Result<Tokens>)
    ensures spotify.None? || "access_token" !in spotify.value ==> r == Ok(Tokens(None, None, None))
    ensures spotify.Some? && "access_token" in spotify.value && r.Ok? ==>
      var expiresIn := ParseIntSafely(Get(spotify.value, "expires_in"));
      (r.value.expiresAt.Some? <==> expiresIn.Some?)
      && (expiresIn.Some? ==> r.value.expiresAt.value == now + expiresIn.value)
  {
    if spotify.None? || "access_token" !in spotify.value then Ok(Tokens(None, None, None))
    else
      var m := spotify.value;
      var access :- AsString(Get(m, "access_token"));
      var refresh :- AsString(Get(m, "refresh_token"));
      var expiresIn := ParseIntSafely(Get(m, "expires_in"));
      Ok(Tokens(access, refresh, if expiresIn.Some? then Some(now + expiresIn.value) else None))
  }

  /** The picture sent at signup is an inline image, the only kind that gets uploaded. */
  predicate IsDataImage(image: Option<string>) {
    image.Some? && StartsWith(image.value, "data:image")
  }

  /** `signup`: validate, build the user (hashed password, uploaded picture, Spotify
      tokens) and store it under a new id. `hash` stands for BCrypt, `upload` for the
      Cloudinary answer and `now` for the clock. The demo users the source creates
      after the commit are the separate operation `CreateDemoUsers`. */
  method Signup(repo: UserRepository, data: map<string, JavaValue>, hash: string -> string,
                upload: UploadResult, now: int) returns (r: Result<User>)
    requires repo.Valid()
    modifies repo
    ensures repo.Valid()
    ensures r.Err? ==> repo.users == old(repo.users)
    ensures ReadSignupFields(data).Err? ==> r == Err(ReadSignupFields(data).error)
    ensures ReadSignupFields(data).Ok? && SignupError(ReadSignupFields(data).value, Emails(old(repo.users))).Some? ==>
      r == Err(SignupError(ReadSignupFields(data).value, Emails(old(repo.users))).value)
    ensures r.Ok? ==>
      var f := ReadSignupFields(data).value;
      SignupError(f, Emails(old(repo.users))).None?
      && r.value.id == old(repo.nextId) && r.value.id !in old(repo.users)
      && repo.users == old(repo.users)[r.value.id := r.value]
      && r.value.name == f.name && r.value.email == f.email.value && r.value.age == f.age
      && r.value.password == hash(f.password.value) && !r.value.isBot
      && r.value.likes == {} && r.value.dislikes == {} && r.value.matches == {}
      && r.value.email !in Emails(old(repo.users))
    ensures r.Ok? ==> Emails(repo.users) == Emails(old(repo.users)) + {r.value.email}
    ensures ReadSignupFields(data).Ok? && SignupError(ReadSignupFields(data).value, Emails(old(repo.users))).None? ==>
      var f := ReadSignupFields(data).value;
      var tokens := ReadTokens(f.spotify, now);
      if IsDataImage(f.image) && upload.UploadFailed? then r == Err(PICTURE_UPLOAD_FAILED)
      else if tokens.Err? then r == Err(tokens.error)
      else r.Ok?
    ensures r.Ok? ==>
      var f := ReadSignupFields(data).value;
      r.value.image == (if IsDataImage(f.image) then upload.secureUrl else Some(""))
    ensures r.Ok? ==>
      var tokens := ReadTokens(ReadSignupFields(data).value.spotify, now);
      tokens.Ok? && r.value.spotifyAccessToken == tokens.value.access
      && r.value.spotifyRefreshToken == tokens.value.refresh && r.value.spotifyTokenExpiresAt == tokens.value.expiresAt
  {
    var fields := ReadSignupFields(data);
    if fields.Err? {
      return Err(fields.error);
    }
    var f := fields.value;
    if f.name.None? || f.email.None? || f.password.None? || f.age.None? {
      return Err(ALL_FIELDS_REQUIRED);
    }
    if f.age.value < 18 {
      return Err(TOO_YOUNG);
    }
    if |f.password.value| < 6 {
      return Err(PASSWORD_TOO_SHORT);
    }
    if repo.FindByEmail(f.email.value).Some? {
      return Err(EMAIL_EXISTS);
    }
    assert f.email.value !in Emails(repo.users);
    var user := BlankUser(0, f.name, f.email.value, hash(f.password.value), f.age);
    if IsDataImage(f.image) {
      match upload
      case UploadFailed =>
        return Err(PICTURE_UPLOAD_FAILED);
      case Uploaded(secureUrl, _) =>
        user := user.(image := secureUrl);
    }
    var tokens := ReadTokens(f.spotify, now);
    if tokens.Err? {
      return Err(tokens.error);
    }
    user := user.(spotifyAccessToken := tokens.value.access,
                  spotifyRefreshToken := tokens.value.refresh,
                  spotifyTokenExpiresAt := tokens.value.expiresAt);
    var id := repo.Insert(user);
    r := Ok(repo.users[id]);
    assert forall u :: u in old(repo.users) ==> repo.users[u] == old(repo.users)[u];
    assert Emails(repo.users) == Emails(old(repo.users)) + {user.email} by {
      assert repo.users.Keys == old(repo.users).Keys + {id};
    }
  }

  /** A new account has no social edges, so the match invariant and the closure of the
      graph survive its insertion. */
  lemma NewAccountKeepsGraph(users: map<UserId, User>, u: User)
    requires u.id !in users && u.likes == {} && u.dislikes == {} && u.matches == {}
    requires MatchesAreMutualLikes(users) && SocialClosed(users)
    ensures MatchesAreMutualLikes(users[u.id := u]) && SocialClosed(users[u.id := u])
  {
  }

  // ---------------------------------------------------------------- login

  /** `login`: an unknown email and a wrong password fail with the same message.
      `verify` stands for BCrypt verification. */
  function Login(repo: UserRepository, email: string, password: string, verify: (string, string) -> bool): (r: Result<User>)
    reads repo
    ensures r.Err? ==> r.error == INVALID_LOGIN
    ensures (forall id :: id in repo.users ==> repo.users[id].email != email) ==> r.Err?
    ensures r.Ok? ==> (r.value.email == email && verify(password, r.value.password)
                       && exists id :: id in repo.users && repo.users[id] == r.value)
    ensures forall id :: repo.FindByEmail(email) == Some(id) && verify(password, repo.users[id].password) ==>
      r == Ok(repo.users[id])
  {
    match repo.FindByEmail(email)
    case None => Err(INVALID_LOGIN)
    case Some(id) =>
      var user := repo.users[id];
      if !verify(password, user.password) then Err(INVALID_LOGIN) else Ok(user)
  }

  /** With the unique constraint on emails, the owner of an email logs in with any
      password that verifies against the stored hash. */
  lemma LoginOfOwner(repo: UserRepository, id: UserId, password: string, verify: (string, string) -> bool)
    requires id in repo.users && verify(password, repo.users[id].password)
    requires forall a, b :: a in repo.users && b in repo.users && repo.users[a].email == repo.users[b].email ==> a == b
    ensures Login(repo, repo.users[id].email, password, verify) == Ok(repo.users[id])
  {
  }

  // ---------------------------------------------------------------- demo users

  /** A random user profile, read from the RandomUser answer (a map). */
  datatype BotFields = BotFields(name: string, email: string, age: Option<int>, bio: string, pictureUrl: Option<string>)

  /** The RandomUser answer holds a `name` map with text `first` and `last`, a text
      `email`, a `dob` map with an Integer `age` and a `picture` map with a text
      `large` (each text or number may be null). */
  predicate ProfileReadable(profile: map<string, JavaValue>) {
    Get(profile, "name").JMap?
    && AsString(Get(Get(profile, "name").entries, "first")).Ok?
    && AsString(Get(Get(profile, "name").entries, "last")).Ok?
    && AsString(Get(profile, "email")).Ok?
    && Get(profile, "dob").JMap? && AsInteger(Get(Get(profile, "dob").entries, "age")).Ok?
    && Get(profile, "picture").JMap? && AsString(Get(Get(profile, "picture").entries, "large")).Ok?
  }

  /** The profile mapping of `createSingleBot`; a missing sub-map or a value of the
      wrong type throws, which the source turns into "no bot". */
  function ReadBotProfile(profile: map<string, JavaValue>, millis: int, bioDraw: nat): (r: Result<BotFields>)
    ensures r.Ok? <==> ProfileReadable(profile)
    ensures r.Ok? ==>
      var name := Get(profile, "name").entries;
      r.value.name == Capitalize(Some(OrNullText(AsString(Get(name, "first")).value) + " "
                                      + OrNullText(AsString(Get(name, "last")).value))).value
    ensures r.Ok? ==> r.value.email == IntToString(millis) + "_" + OrNullText(AsString(Get(profile, "email")).value)
    ensures r.Ok? ==> r.value.age == AsInteger(Get(Get(profile, "dob").entries, "age")).value
    ensures r.Ok? ==> r.value.pictureUrl == AsString(Get(Get(profile, "picture").entries, "large")).value
    ensures r.Ok? ==> r.value.bio == GENERIC_BIOS[bioDraw % 10] && r.value.bio in GENERIC_BIOS
    ensures r.Ok? ==> StartsWith(r.value.email, IntToString(millis) + "_")
  {
    var nameMap :- AsMap(Get(profile, "name"));
    if nameMap.None? then Err(NULL_POINTER)
    else
      var first :- AsString(Get(nameMap.value, "first"));
      var last :- AsString(Get(nameMap.value, "last"));
      var fullName := OrNullText(first) + " " + OrNullText(last);
      var rawEmail :- AsString(Get(profile, "email"));
      var email := IntToString(millis) + "_" + OrNullText(rawEmail);
      var dobMap :- AsMap(Get(profile, "dob"));
      if dobMap.None? then Err(NULL_POINTER)
      else
        var age :- AsInteger(Get(dobMap.value, "age"));
        var pictureMap :- AsMap(Get(profile, "picture"));
        if pictureMap.None? then Err(NULL_POINTER)
        else
          var picture :- AsString(Get(pictureMap.value, "large"));
          assert email[..|IntToString(millis) + "_"|] == IntToString(millis) + "_";
          Ok(BotFields(Capitalize(Some(fullName)).value, email, age, GENERIC_BIOS[bioDraw % 10], picture))
  }

  /** The random inputs of one bot: the RandomUser answer (`None` when the call
      failed), the clock, the bio draw, the picture upload and the draws of the four
      taste subsets (category k uses `shuffle(k, ·)` and `sizeDraw(k)`). */
  datatype BotDraws = BotDraws(
    profile: Option<map<string, JavaValue>>, millis: int, bioDraw: nat, pictureUpload: UploadResult,
    shuffle: (nat, nat) -> nat, sizeDraw: nat -> nat)

  /** The RandomUser call answered with a readable profile whose `dob.age` is null:
      the bot is built, but saving it breaks the `nullable = false` age column. */
  predicate AgeMissing(draws: BotDraws) {
    draws.profile.Some? && ProfileReadable(draws.profile.value)
    && AsInteger(Get(Get(draws.profile.value, "dob").entries, "age")).value.None?
  }

  /** The draws yield a bot: the RandomUser call answered with a readable profile
      that has an age. */
  predicate GoodDraw(draws: BotDraws) {
    draws.profile.Some? && ProfileReadable(draws.profile.value) && !AgeMissing(draws)
  }

  function SetOf(s: seq<Item>): (r: set<Item>)
    ensures forall x :: x in r <==> x in s
  {
    set x | x in s
  }

  /** `createSingleBot`: a bot with a random profile, shares of the source user's four
      taste sets, and a like for the source user; `None` when the source user is gone,
      the profile call failed or the profile could not be read. A bot without an age
      makes the save throw (`failed`), which rolls the round back. */
  method CreateSingleBot(repo: UserRepository, sourceId: UserId, draws: BotDraws, hash: string -> string)
    returns (newId: Option<UserId>, failed: bool)
    requires repo.Valid()
    modifies repo
    ensures repo.Valid()
    ensures newId.Some? <==> sourceId in old(repo.users) && GoodDraw(draws)
    ensures failed <==> sourceId in old(repo.users) && AgeMissing(draws)
    ensures newId.None? ==> repo.users == old(repo.users) && repo.nextId == old(repo.nextId)
    ensures newId.Some? ==> repo.nextId == old(repo.nextId) + 1
    ensures newId.Some? ==>
      sourceId in old(repo.users) && newId.value == old(repo.nextId) && newId.value !in old(repo.users)
      && newId.value in repo.users && repo.users == old(repo.users)[newId.value := repo.users[newId.value]]
      && BotOf(repo.users[newId.value], old(repo.users)[sourceId])
      && repo.users[newId.value].password == hash(BOT_PASSWORD)
    ensures newId.Some? ==>
      var f := ReadBotProfile(draws.profile.value, draws.millis, draws.bioDraw).value;
      var bot := repo.users[newId.value];
      bot.name == Some(f.name) && bot.email == f.email && bot.age == f.age && bot.bio == Some(f.bio)
      && bot.image == (if draws.pictureUpload.Uploaded? then draws.pictureUpload.secureUrl else f.pictureUrl)
  {
    var source := repo.FindById(sourceId);
    if source.None? || draws.profile.None? {
      return None, false;
    }
    var fields := ReadBotProfile(draws.profile.value, draws.millis, draws.bioDraw);
    if fields.Err? {
      return None, false;
    }
    var f := fields.value;
    var bot := BlankUser(0, Some(f.name), f.email, hash(BOT_PASSWORD), f.age);
    bot := bot.(bio := Some(f.bio), isBot := true);
    if draws.pictureUpload.Uploaded? {
      bot := bot.(image := draws.pictureUpload.secureUrl);
    } else {
      bot := bot.(image := f.pictureUrl);
    }
    var src := source.value;
    var artists := GetRandomSubset(src.topArtists, (i: nat) => draws.shuffle(0, i), draws.sizeDraw(0));
    var tracks := GetRandomSubset(src.topTracks, (i: nat) => draws.shuffle(1, i), draws.sizeDraw(1));
    var saved := GetRandomSubset(src.savedTracks, (i: nat) => draws.shuffle(2, i), draws.sizeDraw(2));
    var followed := GetRandomSubset(src.followedArtists, (i: nat) => draws.shuffle(3, i), draws.sizeDraw(3));
    bot := bot.(topArtists := SetOf(artists), topTracks := SetOf(tracks),
                savedTracks := SetOf(saved), followedArtists := SetOf(followed));
    newId, failed := SaveBot(repo, bot, sourceId);
  }

  /** Step 5 of `createSingleBot`: save the bot, then save it again liking the source
      user. The first save throws for a bot without a name or an age. */
  method SaveBot(repo: UserRepository, bot: User, sourceId: UserId) returns (newId: Option<UserId>, failed: bool)
    requires repo.Valid()
    modifies repo
    ensures repo.Valid()
    ensures failed <==> !UserStorable(bot)
    ensures newId.Some? <==> !failed
    ensures failed ==> repo.users == old(repo.users) && repo.nextId == old(repo.nextId)
    ensures newId.Some? ==>
      newId.value == old(repo.nextId) && newId.value !in old(repo.users) && repo.nextId == old(repo.nextId) + 1
      && repo.users == old(repo.users)[newId.value := bot.(id := newId.value, likes := bot.likes + {sourceId})]
  {
    if !UserStorable(bot) {
      return None, true;
    }
    var id := repo.Insert(bot);
    var savedBot := repo.users[id];
    repo.Save(savedBot.(likes := savedBot.likes + {sourceId}));
    newId, failed := Some(id), false;
  }

  /** What makes `bot` a demo user for `source`: flagged as a bot, its taste drawn
      from the source user's, liking the source user and nobody else, with no
      dislikes and no matches. */
  ghost predicate BotOf(bot: User, source: User) {
    bot.isBot
    && bot.topArtists <= source.topArtists && bot.topTracks <= source.topTracks
    && bot.savedTracks <= source.savedTracks && bot.followedArtists <= source.followedArtists
    && bot.likes == {source.id} && bot.dislikes == {} && bot.matches == {}
    && bot.bio.Some? && bot.bio.value in GENERIC_BIOS
  }

  /** A bot that only likes an existing user keeps matches equal to mutual likes:
      nobody can like a user that did not exist yet. */
  lemma NewBotKeepsGraph(users: map<UserId, User>, bot: User, source: User)
    requires bot.id !in users && source.id in users && users[source.id] == source && BotOf(bot, source)
    requires MatchesAreMutualLikes(users) && SocialClosed(users)
    ensures MatchesAreMutualLikes(users[bot.id := bot]) && SocialClosed(users[bot.id := bot])
  {
  }

  /** A bot already likes the user it was made for, so that user's first swipe right
      on the bot is a match for both. */
  lemma SwipeRightOnBotMatches(users: map<UserId, User>, me: UserId, botId: UserId)
    requires me in users && botId in users && me != botId && users[me].id == me
    requires BotOf(users[botId], users[me])
    ensures var after := MatchService.SwipeRightUsers(users, me, botId);
      botId in after[me].matches && me in after[botId].matches
  {
  }

  /** The eligibility check of `createDemoUsers`: the user exists and has top artists
      or top tracks. */
  predicate HasMusic(users: map<UserId, User>, id: UserId) {
    id in users && (users[id].topArtists != {} || users[id].topTracks != {})
  }

  /** The deliveries `ds` only announce new profiles, and only of users in `ids`. */
  ghost predicate OnlyAnnounces(ds: seq<Delivery>, ids: set<UserId>) {
    forall d :: d in ds ==>
      d.frame.eventType == "newUserProfile" && d.frame.payload.NewUserProfilePayload?
      && d.frame.payload.newUserId in ids
  }

  lemma AnnounceStep(ds: seq<Delivery>, ids: set<UserId>, sessions: map<UserId, SessionId>, net: Network, id: UserId)
    requires OnlyAnnounces(ds, ids)
    ensures OnlyAnnounces(ds + BroadcastDeliveries(sessions, net, Frame("newUserProfile", NewUserProfilePayload(id))), ids + {id})
  {
    var frame := Frame("newUserProfile", NewUserProfilePayload(id));
    forall d | d in BroadcastDeliveries(sessions, net, frame) ensures d.frame == frame {
      BroadcastReachesEveryOpenSession(sessions, net, frame, d);
    }
  }

  /** One round of `createDemoUsers`: create a bot and, when that worked, announce it
      to everybody; `failed` when the bot's save threw. */
  method AddBot(repo: UserRepository, registry: SocketRegistry, net: Network, sourceId: UserId,
                draws: BotDraws, hash: string -> string) returns (newId: Option<UserId>, failed: bool)
    requires repo.Valid()
    modifies repo, registry
    ensures repo.Valid() && registry.sessions == old(registry.sessions)
    ensures newId.Some? <==> sourceId in old(repo.users) && GoodDraw(draws)
    ensures failed <==> sourceId in old(repo.users) && AgeMissing(draws)
    ensures newId.None? ==> repo.users == old(repo.users) && repo.nextId == old(repo.nextId) && registry.log == old(registry.log)
    ensures newId.Some? ==>
      sourceId in old(repo.users) && newId.value == old(repo.nextId) && repo.nextId == old(repo.nextId) + 1
      && newId.value in repo.users && repo.users == old(repo.users)[newId.value := repo.users[newId.value]]
      && BotOf(repo.users[newId.value], old(repo.users)[sourceId])
      && registry.log == old(registry.log) + BroadcastDeliveries(registry.sessions, net, Frame("newUserProfile", NewUserProfilePayload(newId.value)))
  {
    newId, failed := CreateSingleBot(repo, sourceId, draws, hash);
    if newId.Some? {
      registry.Broadcast("newUserProfile", NewUserProfilePayload(newId.value), net);
    }
  }

  /** `createDemoUsers`: for an eligible user, two attempts at creating a bot, each
      successful one announced to everybody as `newUserProfile`; a bot whose save
      throws ends the attempts (the caller only logs the exception). The source runs
      it after a signup commits; here a caller runs it on its own. */
  method CreateDemoUsers(repo: UserRepository, registry: SocketRegistry, net: Network, sourceId: UserId,
                         draws: nat -> BotDraws, hash: string -> string)
    requires repo.Valid()
    modifies repo, registry
    ensures !HasMusic(old(repo.users), sourceId) ==> repo.users == old(repo.users) && registry.log == old(registry.log)
    ensures repo.Valid() && registry.sessions == old(registry.sessions)
    ensures old(repo.users).Keys <= repo.users.Keys
    ensures forall u :: u in old(repo.users) ==> repo.users[u] == old(repo.users)[u]
    ensures |repo.users.Keys - old(repo.users).Keys| <= 2
    ensures forall b :: b in repo.users && b !in old(repo.users) ==> BotOf(repo.users[b], old(repo.users)[sourceId])
    ensures |registry.log| >= |old(registry.log)| && registry.log[..|old(registry.log)|] == old(registry.log)
    ensures OnlyAnnounces(registry.log[|old(registry.log)|..], repo.users.Keys - old(repo.users).Keys)
    ensures HasMusic(old(repo.users), sourceId) ==>
      repo.users.Keys == old(repo.users).Keys + IdRange(old(repo.nextId), GoodDraws(draws, 2))
      && registry.log == old(registry.log) + Announcements(old(repo.nextId), GoodDraws(draws, 2), registry.sessions, net)
  {
    var source := repo.FindById(sourceId);
    if !(source.Some? && (source.value.topArtists != {} || source.value.topTracks != {})) {
      assert registry.log[|old(registry.log)|..] == [];
      return;
    }
    AddBots(repo, registry, net, sourceId, draws, hash);
    ProgressDone(old(repo.users), old(registry.log), old(repo.nextId), old(repo.users)[sourceId],
                 repo.users, repo.nextId, registry.log, registry.sessions, net, GoodDraws(draws, 2));
  }

  /** The users `users` are `users0` plus the bots `created`, each one a bot of `source`. */
  ghost predicate Grown(users0: map<UserId, User>, users: map<UserId, User>, created: set<UserId>, source: User) {
    created !! users0.Keys && users.Keys == users0.Keys + created
    && (forall u :: u in users0 ==> users[u] == users0[u])
    && (forall b :: b in created ==> BotOf(users[b], source))
  }

  lemma GrownStep(users0: map<UserId, User>, users: map<UserId, User>, created: set<UserId>, source: User,
                  id: UserId, bot: User)
    requires Grown(users0, users, created, source) && id !in users && BotOf(bot, source)
    ensures Grown(users0, users[id := bot], created + {id}, source)
    ensures id !in created
  {
    var users' := users[id := bot];
    forall u | u in users0 ensures users'[u] == users0[u] {
      assert u != id;
    }
    forall b | b in created + {id} ensures BotOf(users'[b], source) {
      if b != id {
        assert users'[b] == users[b];
      }
    }
  }

  /** One of the first `n` draws had no age, so its save threw and ended the loop. */
  predicate Aborted(draws: nat -> BotDraws, n: nat) {
    n > 0 && (Aborted(draws, n - 1) || AgeMissing(draws(n - 1)))
  }

  /** How many of the first `n` draws yield a bot: the good draws before the first
      one whose save throws. */
  function GoodDraws(draws: nat -> BotDraws, n: nat): (r: nat)
    ensures r <= n
  {
    if n == 0 then 0
    else GoodDraws(draws, n - 1) + (if !Aborted(draws, n - 1) && GoodDraw(draws(n - 1)) then 1 else 0)
  }

  lemma GoodDrawsStep(draws: nat -> BotDraws, n: nat)
    ensures GoodDraws(draws, n + 1) == GoodDraws(draws, n) + if !Aborted(draws, n) && GoodDraw(draws(n)) then 1 else 0
    ensures Aborted(draws, n + 1) == (Aborted(draws, n) || AgeMissing(draws(n)))
  {
  }

  /** Two good draws give two bots; a first draw without an age gives none, however
      good the second one is; a first draw that yields nothing leaves the second round. */
  lemma DemoRounds(draws: nat -> BotDraws)
    ensures GoodDraw(draws(0)) && GoodDraw(draws(1)) ==> GoodDraws(draws, 2) == 2
    ensures AgeMissing(draws(0)) ==> GoodDraws(draws, 2) == 0
    ensures !GoodDraw(draws(0)) && !AgeMissing(draws(0)) ==>
      GoodDraws(draws, 2) == if GoodDraw(draws(1)) then 1 else 0
  {
    GoodDrawsStep(draws, 0);
    GoodDrawsStep(draws, 1);
  }

  /** The ids `first`, ..., `first + count - 1`. */
  function IdRange(first: UserId, count: nat): set<UserId> {
    if count == 0 then {} else IdRange(first, count - 1) + {first + count - 1}
  }

  lemma {:induction false} IdRangeSize(first: UserId, count: nat)
    ensures |IdRange(first, count)| == count
    ensures forall k :: k in IdRange(first, count) <==> first <= k < first + count
  {
    if count > 0 {
      IdRangeSize(first, count - 1);
    }
  }

  /** The announcements of the new users `first`, ..., `first + count - 1`, in that order. */
  function Announcements(first: UserId, count: nat, sessions: map<UserId, SessionId>, net: Network): seq<Delivery> {
    if count == 0 then []
    else Announcements(first, count - 1, sessions, net)
         + BroadcastDeliveries(sessions, net, Frame("newUserProfile", NewUserProfilePayload(first + count - 1)))
  }

  lemma AnnouncementsStep(first: UserId, count: nat, sessions: map<UserId, SessionId>, net: Network)
    ensures Announcements(first, count + 1, sessions, net)
            == Announcements(first, count, sessions, net)
               + BroadcastDeliveries(sessions, net, Frame("newUserProfile", NewUserProfilePayload(first + count)))
  {
  }

  lemma {:induction false} AnnouncementsOnlyAnnounce(first: UserId, count: nat, sessions: map<UserId, SessionId>, net: Network)
    ensures OnlyAnnounces(Announcements(first, count, sessions, net), IdRange(first, count))
  {
    if count > 0 {
      var k := count - 1;
      var prev := Announcements(first, k, sessions, net);
      var sent := BroadcastDeliveries(sessions, net, Frame("newUserProfile", NewUserProfilePayload(first + k)));
      AnnouncementsOnlyAnnounce(first, k, sessions, net);
      AnnounceStep(prev, IdRange(first, k), sessions, net, first + k);
      assert Announcements(first, count, sessions, net) == prev + sent;
      assert IdRange(first, count) == IdRange(first, k) + {first + k};
    }
  }

  /** After `g` bots: the users are `users0` plus the bots `n`, ..., `n + g - 1` of
      `source`, the next id is `n + g`, and each bot was announced in turn. */
  ghost predicate Progress(users0: map<UserId, User>, log0: seq<Delivery>, n: UserId, source: User,
                           users: map<UserId, User>, nextId: UserId, log: seq<Delivery>,
                           sessions: map<UserId, SessionId>, net: Network, g: nat) {
    nextId == n + g && Grown(users0, users, IdRange(n, g), source)
    && log == log0 + Announcements(n, g, sessions, net)
  }

  /** Round `i` of `createDemoUsers`, reached only while no save has thrown: the
      progress moves from `GoodDraws(draws, i)` to `GoodDraws(draws, i + 1)`. */
  method AddRound(repo: UserRepository, registry: SocketRegistry, net: Network, sourceId: UserId,
                  draws: nat -> BotDraws, i: nat, hash: string -> string,
                  ghost users0: map<UserId, User>, ghost log0: seq<Delivery>, ghost n: UserId, ghost g: nat)
    returns (failed: bool)
    requires repo.Valid() && sourceId in users0 && g == GoodDraws(draws, i) && !Aborted(draws, i)
    requires Progress(users0, log0, n, users0[sourceId], repo.users, repo.nextId, registry.log, registry.sessions, net, g)
    modifies repo, registry
    ensures repo.Valid() && registry.sessions == old(registry.sessions)
    ensures Progress(users0, log0, n, users0[sourceId], repo.users, repo.nextId, registry.log, registry.sessions, net,
                     GoodDraws(draws, i + 1))
    ensures failed == Aborted(draws, i + 1)
  {
    ghost var g' := g + if GoodDraw(draws(i)) then 1 else 0;
    GoodDrawsStep(draws, i);
    assert g' == GoodDraws(draws, i + 1);
    failed := AddCountedBot(repo, registry, net, sourceId, draws(i), hash, users0, log0, n, g);
  }

  /** One round of `createDemoUsers`, counted: a good draw adds the next bot and its
      announcement, any other draw changes nothing. */
  method AddCountedBot(repo: UserRepository, registry: SocketRegistry, net: Network, sourceId: UserId,
                       draws: BotDraws, hash: string -> string,
                       ghost users0: map<UserId, User>, ghost log0: seq<Delivery>, ghost n: UserId, ghost g: nat)
    returns (failed: bool)
    requires repo.Valid() && sourceId in users0
    requires Progress(users0, log0, n, users0[sourceId], repo.users, repo.nextId, registry.log, registry.sessions, net, g)
    modifies repo, registry
    ensures repo.Valid() && registry.sessions == old(registry.sessions)
    ensures Progress(users0, log0, n, users0[sourceId], repo.users, repo.nextId, registry.log, registry.sessions, net,
                     g + if GoodDraw(draws) then 1 else 0)
    ensures failed <==> AgeMissing(draws)
  {
    ghost var before := repo.users;
    ghost var logBefore := registry.log;
    ghost var source := users0[sourceId];
    ghost var sessions := registry.sessions;
    assert sourceId in before;
    var newId;
    newId, failed := AddBot(repo, registry, net, sourceId, draws, hash);
    if newId.Some? {
      var id := newId.value;
      ghost var sent := BroadcastDeliveries(sessions, net, Frame("newUserProfile", NewUserProfilePayload(id)));
      assert id == n + g && GoodDraw(draws);
      GrownStep(users0, before, IdRange(n, g), source, id, repo.users[id]);
      assert repo.users == before[id := repo.users[id]];
      assert IdRange(n, g + 1) == IdRange(n, g) + {id};
      assert Grown(users0, repo.users, IdRange(n, g + 1), source);
      AnnouncementsStep(n, g, sessions, net);
      ConcatAssoc(log0, Announcements(n, g, sessions, net), sent);
      assert registry.log == logBefore + sent;
    } else {
      assert !GoodDraw(draws);
    }
  }

  /** The two rounds of `createDemoUsers` for an existing user: the good draws become
      bots with consecutive ids, each announced as soon as it is stored; a save that
      throws ends the loop. */
  method AddBots(repo: UserRepository, registry: SocketRegistry, net: Network, sourceId: UserId,
                 draws: nat -> BotDraws, hash: string -> string)
    requires repo.Valid() && sourceId in repo.users
    modifies repo, registry
    ensures repo.Valid() && registry.sessions == old(registry.sessions)
    ensures Progress(old(repo.users), old(registry.log), old(repo.nextId), old(repo.users)[sourceId],
                     repo.users, repo.nextId, registry.log, registry.sessions, net, GoodDraws(draws, 2))
  {
    ghost var users0 := repo.users;
    ghost var log0 := registry.log;
    ghost var n := repo.nextId;
    ghost var source := users0[sourceId];
    ghost var g: nat := 0;
    assert log0 + Announcements(n, 0, registry.sessions, net) == log0;
    var i := 0;
    var failed := false;
    while i < 2 && !failed
      invariant 0 <= i <= 2 && repo.Valid() && registry.sessions == old(registry.sessions)
      invariant sourceId in users0 && source == users0[sourceId] && g == GoodDraws(draws, i)
      invariant failed == Aborted(draws, i)
      invariant Progress(users0, log0, n, source, repo.users, repo.nextId, registry.log, registry.sessions, net, g)
    {
      failed := AddRound(repo, registry, net, sourceId, draws, i, hash, users0, log0, n, g);
      g := GoodDraws(draws, i + 1);
      i := i + 1;
    }
    if i < 2 {
      GoodDrawsStep(draws, i);
    }
  }

  /** What `Progress` after at most two bots says about the users and the log. */
  lemma ProgressDone(users0: map<UserId, User>, log0: seq<Delivery>, n: UserId, source: User,
                     users: map<UserId, User>, nextId: UserId, log: seq<Delivery>,
                     sessions: map<UserId, SessionId>, net: Network, g: nat)
    requires g <= 2 && Progress(users0, log0, n, source, users, nextId, log, sessions, net, g)
    ensures users0.Keys <= users.Keys && forall u :: u in users0 ==> users[u] == users0[u]
    ensures |users.Keys - users0.Keys| <= 2
    ensures forall b :: b in users && b !in users0 ==> BotOf(users[b], source)
    ensures |log| >= |log0| && log[..|log0|] == log0
    ensures OnlyAnnounces(log[|log0|..], users.Keys - users0.Keys)
  {
    AnnouncementsOnlyAnnounce(n, g, sessions, net);
    IdRangeSize(n, g);
    assert users.Keys - users0.Keys == IdRange(n, g);
    assert log[|log0|..] == Announcements(n, g, sessions, net);
  }

  lemma ConcatAssoc<T>(a: seq<T>, b: seq<T>, c: seq<T>)
    ensures (a + b) + c == a + (b + c)
  {
  }
}
