/** Swiping, matching and the compatibility-scored candidate feed. */
module MatchService {
  import opened Wrappers
  import opened Entities
  import opened SocketService
  import Collections

  /** The message of the `NoSuchElementException` that `orElseThrow()` raises. */
  const NO_VALUE_PRESENT := "No value present"

  // ---------------------------------------------------------------- scoring

  function Ids(s: set<Item>): set<string> {
    set x | x in s :: x.spotifyId
  }

  /** No two items of the set share a Spotify id. */
  predicate DistinctIds(s: set<Item>) {
    forall x, y :: x in s && y in s && x.spotifyId == y.spotifyId ==> x == y
  }

  /** `findCommonItems(set1, set2)`: the items of `set2` whose Spotify id occurs in
      `set1`; a null set on either side gives nothing. */
  function FindCommonItems(set1: Option<set<Item>>, set2: Option<set<Item>>): (r: set<Item>)
    ensures set1.None? || set2.None? ==> r == {}
    ensures set1.Some? && set2.Some? ==>
      r <= set2.value && forall x :: x in set2.value ==> (x in r <==> x.spotifyId in Ids(set1.value))
  {
    if set1.None? || set2.None? then {}
    else
      var ids1 := Ids(set1.value);
      set x | x in set2.value && x.spotifyId in ids1
  }

  /** The profile card `MatchProfileDto`; the common-item lists carry no order here. */
  datatype ProfileDto = ProfileDto(
    id: UserId, name: Option<string>, image: Option<string>, age: Option<int>, bio: Option<string>,
    score: int,
    commonArtists: set<Item>, commonTracks: set<Item>, commonSaved: set<Item>, commonFollowed: set<Item>)

  /** `calculateScore(me, other)`: other's card, scored 3 per common top artist, 2 per
      common top track, 1 per common saved track and 1 per common followed artist. */
  function CalculateScore(me: User, other: User): (d: ProfileDto)
    ensures d.id == other.id && d.name == other.name && d.image == other.image
    ensures d.age == other.age && d.bio == other.bio
    ensures d.commonArtists <= other.topArtists && d.commonTracks <= other.topTracks
    ensures d.commonSaved <= other.savedTracks && d.commonFollowed <= other.followedArtists
    ensures d.score == 3 * |d.commonArtists| + 2 * |d.commonTracks| + |d.commonSaved| + |d.commonFollowed|
    ensures d.score >= 0
  {
    var ca := FindCommonItems(Some(me.topArtists), Some(other.topArtists));
    var ct := FindCommonItems(Some(me.topTracks), Some(other.topTracks));
    var cs := FindCommonItems(Some(me.savedTracks), Some(other.savedTracks));
    var cf := FindCommonItems(Some(me.followedArtists), Some(other.followedArtists));
    ProfileDto(other.id, other.name, other.image, other.age, other.bio,
               |ca| * 3 + |ct| * 2 + |cs| + |cf|, ca, ct, cs, cf)
  }

  lemma {:induction false} IdsCardinality(s: set<Item>)
    requires DistinctIds(s)
    ensures |Ids(s)| == |s|
    decreases |s|
  {
    if s != {} {
      var x :| x in s;
      var rest := s - {x};
      IdsCardinality(rest);
      assert Ids(s) == Ids(rest) + {x.spotifyId};
      assert x.spotifyId !in Ids(rest);
    }
  }

  /** With distinct ids, the number of common items is the number of shared ids. */
  lemma CommonCount(s1: set<Item>, s2: set<Item>)
    requires DistinctIds(s2)
    ensures |FindCommonItems(Some(s1), Some(s2))| == |Ids(s1) * Ids(s2)|
  {
    var r := FindCommonItems(Some(s1), Some(s2));
    assert DistinctIds(r);
    IdsCardinality(r);
    assert Ids(r) == Ids(s1) * Ids(s2) by {
      forall id | id in Ids(s1) * Ids(s2) ensures id in Ids(r) {
        var x :| x in s2 && x.spotifyId == id;
        assert x in r;
      }
    }
  }

  predicate DistinctTaste(u: User) {
    DistinctIds(u.topArtists) && DistinctIds(u.topTracks)
    && DistinctIds(u.savedTracks) && DistinctIds(u.followedArtists)
  }

  /** With distinct ids on the other side, the score counts shared Spotify ids. */
  lemma ScoreCountsSharedIds(a: User, b: User)
    requires DistinctTaste(b)
    ensures CalculateScore(a, b).score ==
      3 * |Ids(a.topArtists) * Ids(b.topArtists)| + 2 * |Ids(a.topTracks) * Ids(b.topTracks)|
      + |Ids(a.savedTracks) * Ids(b.savedTracks)| + |Ids(a.followedArtists) * Ids(b.followedArtists)|
  {
    CommonCount(a.topArtists, b.topArtists);
    CommonCount(a.topTracks, b.topTracks);
    CommonCount(a.savedTracks, b.savedTracks);
    CommonCount(a.followedArtists, b.followedArtists);
  }

  /** Within each category Spotify ids identify items, so compatibility is symmetric. */
  lemma ScoreSymmetric(a: User, b: User)
    requires DistinctTaste(a) && DistinctTaste(b)
    ensures CalculateScore(a, b).score == CalculateScore(b, a).score
  {
    ScoreCountsSharedIds(a, b);
    ScoreCountsSharedIds(b, a);
    IntersectionCommutes(Ids(a.topArtists), Ids(b.topArtists));
    IntersectionCommutes(Ids(a.topTracks), Ids(b.topTracks));
    IntersectionCommutes(Ids(a.savedTracks), Ids(b.savedTracks));
    IntersectionCommutes(Ids(a.followedArtists), Ids(b.followedArtists));
  }

  lemma IntersectionCommutes(x: set<string>, y: set<string>)
    ensures |x * y| == |y * x|
  {
    assert x * y == y * x;
  }

  // ---------------------------------------------------------------- ordering

  /** Non-increasing score, as the comparator `b.score - a.score` orders. */
  predicate SortedByScore(s: seq<ProfileDto>) {
    forall i, j :: 0 <= i < j < |s| ==> s[i].score >= s[j].score
  }

  /** Place `d` before the first card that does not score higher, so that cards with
      equal scores keep their input order. */
  function InsertByScore(d: ProfileDto, s: seq<ProfileDto>): (r: seq<ProfileDto>)
    ensures multiset(r) == multiset(s) + multiset{d}
  {
    if s == [] || s[0].score <= d.score then [d] + s
    else
      assert s == [s[0]] + s[1..];
      [s[0]] + InsertByScore(d, s[1..])
  }

  lemma {:induction false} InsertByScoreSorted(d: ProfileDto, s: seq<ProfileDto>)
    requires SortedByScore(s)
    ensures SortedByScore(InsertByScore(d, s))
  {
    if s != [] && s[0].score > d.score {
      var t := InsertByScore(d, s[1..]);
      InsertByScoreSorted(d, s[1..]);
      assert s == [s[0]] + s[1..];
      forall x | x in t ensures x.score <= s[0].score {
        assert x in multiset(t);
      }
    }
  }

  /** The stable sort of `sorted(...)`: a sorted permutation of the cards. */
  function SortByScore(s: seq<ProfileDto>): (r: seq<ProfileDto>)
    ensures multiset(r) == multiset(s) && |r| == |s|
    ensures SortedByScore(r)
  {
    if s == [] then []
    else
      assert s == [s[0]] + s[1..];
      var rest := SortByScore(s[1..]);
      InsertByScoreSorted(s[0], rest);
      InsertByScore(s[0], rest)
  }

  // ---------------------------------------------------------------- feeds

  /** The ids `getUserProfiles` leaves out: the user, and everyone they liked,
      disliked or matched. */
  function Excluded(me: User): set<UserId> {
    {me.id} + me.likes + me.dislikes + me.matches
  }

  /** One card per id, in the order of the ids, each the user scored against me. */
  function Cards(me: User, users: map<UserId, User>, ids: seq<UserId>): (r: seq<ProfileDto>)
    requires forall k :: 0 <= k < |ids| ==> ids[k] in users
    ensures |r| == |ids|
    ensures forall k :: 0 <= k < |ids| ==> r[k] == CalculateScore(me, users[ids[k]])
  {
    seq(|ids|, k requires 0 <= k < |ids| => CalculateScore(me, users[ids[k]]))
  }

  /** `getUserProfiles(me)`: every other user not excluded, scored against me, best first. */
  function GetUserProfiles(users: map<UserId, User>, me: UserId): (r: Result<seq<ProfileDto>>)
    ensures me !in users <==> r == Err(NO_VALUE_PRESENT)
    ensures r.Ok? ==> SortedByScore(r.value)
  {
    if me !in users then Err(NO_VALUE_PRESENT)
    else
      var candidates := Collections.AscendingIds(users.Keys - Excluded(users[me]));
      assert forall k :: 0 <= k < |candidates| ==> candidates[k] in candidates;
      Ok(SortByScore(Cards(users[me], users, candidates)))
  }

  /** `getMatches(me)`: my matches, scored against me, best first. */
  function GetMatches(users: map<UserId, User>, me: UserId): (r: Result<seq<ProfileDto>>)
    ensures me !in users <==> r == Err(NO_VALUE_PRESENT)
    ensures r.Ok? ==> SortedByScore(r.value)
  {
    if me !in users then Err(NO_VALUE_PRESENT)
    else
      var mine := Collections.AscendingIds(users[me].matches * users.Keys);
      assert forall k :: 0 <= k < |mine| ==> mine[k] in mine;
      Ok(SortByScore(Cards(users[me], users, mine)))
  }

  lemma CardIds(me: User, users: map<UserId, User>, ids: seq<UserId>, result: seq<ProfileDto>, id: UserId)
    requires forall k :: 0 <= k < |ids| ==> ids[k] in users
    requires forall k :: 0 <= k < |ids| ==> users[ids[k]].id == ids[k]
    requires multiset(result) == multiset(Cards(me, users, ids))
    ensures (exists d :: d in result && d.id == id) <==> id in ids
  {
    var cards := Cards(me, users, ids);
    if id in ids {
      var k :| 0 <= k < |ids| && ids[k] == id;
      assert cards[k] in multiset(result);
    }
    forall d | d in result ensures d.id in ids {
      assert d in multiset(cards);
      var k :| 0 <= k < |cards| && cards[k] == d;
    }
  }

  /** The feed holds a card for exactly the stored users outside the exclusion set:
      never me, nor anyone I liked, disliked or matched. */
  lemma FeedExcludesSwipedUsers(users: map<UserId, User>, me: UserId, id: UserId)
    requires me in users
    requires forall u :: u in users ==> users[u].id == u
    ensures GetUserProfiles(users, me).Ok?
    ensures (exists d :: d in GetUserProfiles(users, me).value && d.id == id)
      <==> id in users && id != me && id !in users[me].likes && id !in users[me].dislikes && id !in users[me].matches
  {
    FeedIds(users, me, id);
  }

  lemma FeedIds(users: map<UserId, User>, me: UserId, id: UserId)
    requires me in users
    requires forall u :: u in users ==> users[u].id == u
    ensures GetUserProfiles(users, me).Ok?
    ensures (exists d :: d in GetUserProfiles(users, me).value && d.id == id)
      <==> id in Collections.AscendingIds(users.Keys - Excluded(users[me]))
  {
    var candidates := Collections.AscendingIds(users.Keys - Excluded(users[me]));
    assert forall k :: 0 <= k < |candidates| ==> candidates[k] in candidates;
    CardIds(users[me], users, candidates, GetUserProfiles(users, me).value, id);
  }

  /** The match list holds a card for exactly the users I matched. */
  lemma MatchesListsExactlyMyMatches(users: map<UserId, User>, me: UserId, id: UserId)
    requires me in users && SocialClosed(users)
    requires forall u :: u in users ==> users[u].id == u
    ensures GetMatches(users, me).Ok?
    ensures (exists d :: d in GetMatches(users, me).value && d.id == id) <==> id in users[me].matches
  {
    var mine := Collections.AscendingIds(users[me].matches * users.Keys);
    assert forall k :: 0 <= k < |mine| ==> mine[k] in mine;
    CardIds(users[me], users, mine, GetMatches(users, me).value, id);
  }

  // ---------------------------------------------------------------- swipes

  /** Whether the like from `a` to `b` completes a match: b already likes a (a user who
      likes themself matches themself, since the check follows the insertion). */
  predicate Mutual(users: map<UserId, User>, a: UserId, b: UserId)
    requires b in users
  {
    a == b || a in users[b].likes
  }

  /** The users after `swipeRight(a, b)`. */
  function SwipeRightUsers(users: map<UserId, User>, a: UserId, b: UserId): map<UserId, User>
    requires a in users && b in users
  {
    var liked := users[a := users[a].(likes := users[a].likes + {b})];
    if a in liked[b].likes then
      var m1 := liked[a := liked[a].(matches := liked[a].matches + {b})];
      m1[b := m1[b].(matches := m1[b].matches + {a})]
    else liked
  }

  /** The card `{_id, name, image}` sent as `newMatch` about `other`. */
  function MatchFrame(other: User): Frame {
    Frame("newMatch", MatchJsonPayload(other.id, other.name, other.image))
  }

  /** `notifyMatch(a, b)`: a hears about b, then b hears about a. */
  function MatchNotifications(users: map<UserId, User>, a: UserId, b: UserId,
                              sessions: map<UserId, SessionId>, net: Network): seq<Delivery>
    requires a in users && b in users
  {
    UnicastDeliveries(sessions, net, a, MatchFrame(users[b]))
      + UnicastDeliveries(sessions, net, b, MatchFrame(users[a]))
  }

  function SwipeRightNotifications(users: map<UserId, User>, a: UserId, b: UserId,
                                   sessions: map<UserId, SessionId>, net: Network): seq<Delivery>
    requires a in users && b in users
  {
    if Mutual(users, a, b) then MatchNotifications(SwipeRightUsers(users, a, b), a, b, sessions, net) else []
  }

  /** The users after `swipeLeft(a, b)`. */
  function SwipeLeftUsers(users: map<UserId, User>, a: UserId, b: UserId): map<UserId, User>
    requires a in users
  {
    users[a := users[a].(dislikes := users[a].dislikes + {b})]
  }

  method NotifyMatch(registry: SocketRegistry, net: Network, user1: User, user2: User)
    modifies registry
    ensures registry.sessions == old(registry.sessions)
    ensures registry.log == old(registry.log)
      + UnicastDeliveries(registry.sessions, net, user1.id, MatchFrame(user2))
      + UnicastDeliveries(registry.sessions, net, user2.id, MatchFrame(user1))
  {
    registry.SendMessageToUser(user1.id, "newMatch", MatchJsonPayload(user2.id, user2.name, user2.image), net);
    registry.SendMessageToUser(user2.id, "newMatch", MatchJsonPayload(user1.id, user1.name, user1.image), net);
  }

  /** `swipeRight(current, liked)`: both users must exist; the like is recorded once,
      and when it is returned both users gain the match and both are notified. */
  method SwipeRight(repo: UserRepository, registry: SocketRegistry, net: Network, currentId: UserId, likedId: UserId)
    returns (r: Outcome)
    requires repo.Valid()
    modifies repo, registry
    ensures repo.Valid() && registry.sessions == old(registry.sessions)
    ensures currentId !in old(repo.users) || likedId !in old(repo.users) ==>
      r == Fail(NO_VALUE_PRESENT) && repo.users == old(repo.users) && registry.log == old(registry.log)
    ensures currentId in old(repo.users) && likedId in old(repo.users) ==>
      r == Pass
      && repo.users == SwipeRightUsers(old(repo.users), currentId, likedId)
      && registry.log == old(registry.log)
         + SwipeRightNotifications(old(repo.users), currentId, likedId, registry.sessions, net)
  {
    var current := repo.FindById(currentId);
    if current.None? {
      return Fail(NO_VALUE_PRESENT);
    }
    var liked := repo.FindById(likedId);
    if liked.None? {
      return Fail(NO_VALUE_PRESENT);
    }
    var cu := current.value;
    ghost var before := repo.users;
    if likedId !in cu.likes {
      repo.Save(cu.(likes := cu.likes + {likedId}));
    } else {
      assert cu.(likes := cu.likes + {likedId}) == cu;
      assert before[currentId := cu] == before;
    }
    assert repo.users == before[currentId := before[currentId].(likes := before[currentId].likes + {likedId})];
    // Inside one persistence context both ids name the same entity when they coincide,
    // so every read below goes back to the repository.
    if currentId in repo.users[likedId].likes {
      var c := repo.users[currentId];
      repo.Save(c.(matches := c.matches + {likedId}));
      var l := repo.users[likedId];
      repo.Save(l.(matches := l.matches + {currentId}));
      NotifyMatch(registry, net, repo.users[currentId], repo.users[likedId]);
    }
    r := Pass;
  }

  /** `swipeLeft(current, disliked)`: both users must exist; the dislike is recorded once. */
  method SwipeLeft(repo: UserRepository, currentId: UserId, dislikedId: UserId) returns (r: Outcome)
    requires repo.Valid()
    modifies repo
    ensures repo.Valid()
    ensures currentId !in old(repo.users) || dislikedId !in old(repo.users) ==>
      r == Fail(NO_VALUE_PRESENT) && repo.users == old(repo.users)
    ensures currentId in old(repo.users) && dislikedId in old(repo.users) ==>
      r == Pass && repo.users == SwipeLeftUsers(old(repo.users), currentId, dislikedId)
  {
    var current := repo.FindById(currentId);
    if current.None? {
      return Fail(NO_VALUE_PRESENT);
    }
    var disliked := repo.FindById(dislikedId);
    if disliked.None? {
      return Fail(NO_VALUE_PRESENT);
    }
    var cu := current.value;
    if dislikedId !in cu.dislikes {
      repo.Save(cu.(dislikes := cu.dislikes + {dislikedId}));
    } else {
      assert cu.(dislikes := cu.dislikes + {dislikedId}) == cu;
      assert repo.users[currentId := cu] == repo.users;
    }
    r := Pass;
  }

  // ---------------------------------------------------------------- swipe properties

  /** After `swipeRight(a, b)` b is in a's likes, which otherwise are unchanged, and
      nobody's dislikes change. */
  lemma SwipeRightRecordsLike(users: map<UserId, User>, a: UserId, b: UserId)
    requires a in users && b in users
    ensures var after := SwipeRightUsers(users, a, b);
      after.Keys == users.Keys
      && after[a].likes == users[a].likes + {b}
      && (forall c :: c in users && c != a ==> after[c].likes == users[c].likes)
      && (forall c :: c in users ==> after[c].dislikes == users[c].dislikes)
  {
  }

  /** A mutual like matches both users with each other; a one-sided like changes no
      match set and sends nothing. */
  lemma SwipeRightMatchesOnlyWhenMutual(users: map<UserId, User>, a: UserId, b: UserId,
                                        sessions: map<UserId, SessionId>, net: Network)
    requires a in users && b in users
    ensures var after := SwipeRightUsers(users, a, b);
      if Mutual(users, a, b) then
        b in after[a].matches && a in after[b].matches
        && (forall c :: c in users && c != a && c != b ==> after[c].matches == users[c].matches)
      else
        (forall c :: c in users ==> after[c].matches == users[c].matches)
        && SwipeRightNotifications(users, a, b, sessions, net) == []
  {
  }

  /** A mutual like sends `newMatch` to each side (whose session is open), carrying the
      other user's id, name and image. */
  lemma SwipeRightNotifiesBoth(users: map<UserId, User>, a: UserId, b: UserId,
                               sessions: map<UserId, SessionId>, net: Network)
    requires a in users && b in users && Mutual(users, a, b)
    requires a in sessions && net.Delivers(sessions[a]) && b in sessions && net.Delivers(sessions[b])
    ensures var ub := users[b]; var ua := users[a];
      SwipeRightNotifications(users, a, b, sessions, net) ==
        [Delivery(a, sessions[a], Frame("newMatch", MatchJsonPayload(b, ub.name, ub.image))),
         Delivery(b, sessions[b], Frame("newMatch", MatchJsonPayload(a, ua.name, ua.image)))]
    requires forall u :: u in users ==> users[u].id == u
  {
  }

  /** Repeating a right swipe leaves the users as they are. */
  lemma SwipeRightIdempotent(users: map<UserId, User>, a: UserId, b: UserId)
    requires a in users && b in users
    ensures SwipeRightUsers(SwipeRightUsers(users, a, b), a, b) == SwipeRightUsers(users, a, b)
  {
    var once := SwipeRightUsers(users, a, b);
    var twice := SwipeRightUsers(once, a, b);
    assert once[a].likes + {b} == once[a].likes;
    if a in once[b].likes {
      assert a == b || once[b].likes == users[b].likes;
      assert once[a].matches + {b} == once[a].matches;
      assert once[b].matches + {a} == once[b].matches;
    }
  }

  /** A right swipe keeps matches exactly the mutual likes, and keeps the graph closed. */
  lemma SwipeRightPreservesMutualMatches(users: map<UserId, User>, a: UserId, b: UserId)
    requires a in users && b in users
    requires MatchesAreMutualLikes(users) && SocialClosed(users)
    ensures MatchesAreMutualLikes(SwipeRightUsers(users, a, b)) && SocialClosed(SwipeRightUsers(users, a, b))
  {
  }

  /** A left swipe records the dislike once and touches neither likes nor matches. */
  lemma SwipeLeftOnlyDislikes(users: map<UserId, User>, a: UserId, b: UserId)
    requires a in users && b in users
    ensures var after := SwipeLeftUsers(users, a, b);
      after.Keys == users.Keys
      && after[a].dislikes == users[a].dislikes + {b}
      && (forall c :: c in users ==> after[c].likes == users[c].likes && after[c].matches == users[c].matches)
      && SwipeLeftUsers(after, a, b) == after
  {
    var after := SwipeLeftUsers(users, a, b);
    assert after[a].dislikes + {b} == after[a].dislikes;
  }

  lemma SwipeLeftPreservesMutualMatches(users: map<UserId, User>, a: UserId, b: UserId)
    requires a in users && b in users
    requires MatchesAreMutualLikes(users) && SocialClosed(users)
    ensures MatchesAreMutualLikes(SwipeLeftUsers(users, a, b)) && SocialClosed(SwipeLeftUsers(users, a, b))
  {
  }
}
