/** The persisted entities of the backend (users with their music taste and social
    graph, messages with attachments) and the repositories that store them. */
module Entities {
  import opened Wrappers
  import Collections

  /** Database ids are Java `Long`s. */
  type UserId = int

  /** An Artist or a Track: the Spotify id is the primary key. */
  datatype Item = Item(spotifyId: string, name: Option<string>, imageUrl: Option<string>)

  /** The `User` entity. Nullable columns are `Option`s; the three social sets hold the
      ids of the users they relate to (entity identity is id identity inside one
      persistence context). Times are instants on a clock passed in by callers. */
  datatype User = User(
    id: UserId,
    name: Option<string>,
    email: string,
    password: string,
    age: Option<int>,
    bio: Option<string>,
    image: Option<string>,
    isBot: bool,
    spotifyAccessToken: Option<string>,
    spotifyRefreshToken: Option<string>,
    spotifyTokenExpiresAt: Option<int>,
    topArtists: set<Item>,
    topTracks: set<Item>,
    savedTracks: set<Item>,
    followedArtists: set<Item>,
    likes: set<UserId>,
    dislikes: set<UserId>,
    matches: set<UserId>)

  /** A user as `new User()` leaves it before the setters run: bio and image default
      to "", isBot to false, every set empty. */
  function BlankUser(id: UserId, name: Option<string>, email: string, password: string, age: Option<int>): (u: User)
    ensures u.likes == {} && u.dislikes == {} && u.matches == {}
    ensures u.bio == Some("") && u.image == Some("") && !u.isBot
  {
    User(id, name, email, password, age, Some(""), Some(""), false, None, None, None,
         {}, {}, {}, {}, {}, {}, {})
  }

  /** The attachment categories; each serialises as its lower-case name. */
  datatype Category = Image | Video | Audio | Pdf | Spreadsheet | Presentation | Word | Archive | Other

  function CategoryValue(c: Category): string {
    match c
    case Image => "image"
    case Video => "video"
    case Audio => "audio"
    case Pdf => "pdf"
    case Spreadsheet => "spreadsheet"
    case Presentation => "presentation"
    case Word => "word"
    case Archive => "archive"
    case Other => "other"
  }

  datatype Attachment = Attachment(
    url: Option<string>, key: Option<string>, name: Option<string>, ext: Option<string>, category: Option<Category>)

  /** Stands for the exception `save` throws when a `nullable = false` column holds null. */
  const NOT_NULL_VIOLATION := "DataIntegrityViolationException"

  /** An attachment row the database accepts: all five of its columns are `nullable = false`. */
  predicate AttachmentStorable(a: Attachment) {
    a.url.Some? && a.key.Some? && a.name.Some? && a.ext.Some? && a.category.Some?
  }

  /** A user row the database accepts in the columns a profile edit can null: `name`
      and `age` are `nullable = false`. */
  predicate UserStorable(u: User) {
    u.name.Some? && u.age.Some?
  }

  datatype Message = Message(
    id: int, senderId: UserId, receiverId: UserId, content: Option<string>,
    attachments: seq<Attachment>, linkPreviews: seq<string>, createdAt: int)

  /** The social graph is closed: every id in a likes, dislikes or matches set is a stored user. */
  ghost predicate SocialClosed(users: map<UserId, User>) {
    forall a :: a in users ==>
      users[a].likes <= users.Keys && users[a].dislikes <= users.Keys && users[a].matches <= users.Keys
  }

  /** Matches are exactly the mutual likes. */
  ghost predicate MatchesAreMutualLikes(users: map<UserId, User>) {
    forall a, b :: a in users && b in users ==>
      (b in users[a].matches <==> b in users[a].likes && a in users[b].likes)
  }

  /** The user table. Ids are assigned from `nextId` upwards, as an identity column does,
      and every stored row has the `nullable = false` columns a null can reach. */
  class UserRepository {
    var users: map<UserId, User>
    var nextId: UserId

    ghost predicate Valid()
      reads this
    {
      0 < nextId && forall id :: id in users ==> users[id].id == id && 0 < id < nextId && UserStorable(users[id])
    }

    constructor ()
      ensures Valid() && users == map[]
    {
      users := map[];
      nextId := 1;
    }

    /** `findById`. */
    function FindById(id: UserId): (r: Option<User>)
      reads this
      ensures r.Some? <==> id in users
      ensures r.Some? ==> r.value == users[id]
    {
      if id in users then Some(users[id]) else None
    }

    /** `findByEmail`, answering with the stored user's id (the smallest one if the
        unique constraint on emails were ever broken). */
    function FindByEmail(email: string): (r: Option<UserId>)
      reads this
      ensures r.None? <==> forall id :: id in users ==> users[id].email != email
      ensures r.Some? ==> r.value in users && users[r.value].email == email
    {
      var ids := set id | id in users.Keys && users[id].email == email;
      assert forall id :: id in users && users[id].email == email ==> id in ids;
      if ids == {} then None
      else
        var id := Collections.Min(ids);
        Some(id)
    }

    /** `save` of a user that is already stored; a row with a null in a
        `nullable = false` column is refused, so callers check `UserStorable` first. */
    method Save(u: User)
      requires Valid() && u.id in users && UserStorable(u)
      modifies this
      ensures Valid()
      ensures users == old(users)[u.id := u] && nextId == old(nextId)
    {
      users := users[u.id := u];
    }

    /** `save` of an edited user whose columns may hold a null: a null in a
        `nullable = false` column makes it throw and leaves the table as it was. */
    method TrySave(u: User) returns (r: Result<User>)
      requires Valid() && u.id in users
      modifies this
      ensures Valid()
      ensures r.Ok? <==> UserStorable(u)
      ensures r.Ok? ==> r.value == u && users == old(users)[u.id := u] && nextId == old(nextId)
      ensures r.Err? ==> r.error == NOT_NULL_VIOLATION && users == old(users) && nextId == old(nextId)
    {
      if !UserStorable(u) {
        return Err(NOT_NULL_VIOLATION);
      }
      Save(u);
      r := Ok(u);
    }

    /** `save` of a new user: the identity column assigns the next id; as for `Save`,
        callers check `UserStorable` first. */
    method Insert(u: User) returns (id: UserId)
      requires Valid() && UserStorable(u)
      modifies this
      ensures Valid()
      ensures id == old(nextId) && id !in old(users)
      ensures users == old(users)[id := u.(id := id)] && nextId == old(nextId) + 1
    {
      id := nextId;
      users := users[id := u.(id := id)];
      nextId := nextId + 1;
    }
  }

  /** The message table. */
  class MessageRepository {
    var messages: seq<Message>

    constructor ()
      ensures messages == []
    {
      messages := [];
    }

    /** `save` of a new message: the identity column assigns the id and
        `@PrePersist` stamps `createdAt` with the current time. */
    method Insert(m: Message, now: int) returns (saved: Message)
      modifies this
      ensures saved == m.(id := |old(messages)| + 1, createdAt := now)
      ensures messages == old(messages) + [saved]
    {
      saved := m.(id := |messages| + 1, createdAt := now);
      messages := messages + [saved];
    }
  }
}
