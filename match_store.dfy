/** The client-side match store: the user's matches, the profiles still to swipe on,
    the loading flags of both fetches, and the short-lived swipe feedback. */
module MatchStore {
  import opened Wrappers
  import opened Js
  import opened SocketClient

  const PASSED := "passed"
  const LIKED := "liked"

  datatype Direction = Left | Right

  /** A swipe request as sent: the direction and the swiped user's `_id`. */
  datatype SwipeRequest = SwipeRequest(direction: Direction, targetId: Option<Json>)

  /** The profiles left after `filter((p) => p._id !== user._id)`. */
  function WithoutProfile(profiles: seq<Json>, targetId: Option<Json>): (r: seq<Json>)
    requires Profiles(profiles)
    ensures forall p {:trigger p in r} :: p in r <==> p in profiles && !StrictEquals(Member(Some(p), "_id").value, targetId)
    ensures Profiles(r)
    ensures |r| <= |profiles|
  {
    if profiles == [] then []
    else
      assert Profiles(profiles[1..]) by {
        forall i | 0 <= i < |profiles| - 1 ensures Member(Some(profiles[1..][i]), "_id").Ok? {
          assert profiles[1..][i] == profiles[i + 1];
        }
      }
      var rest := WithoutProfile(profiles[1..], targetId);
      assert forall p :: p in profiles <==> p == profiles[0] || p in profiles[1..] by {
        assert profiles == [profiles[0]] + profiles[1..];
      }
      if StrictEquals(Member(Some(profiles[0]), "_id").value, targetId) then rest else [profiles[0]] + rest
  }

  /** Profiles other than the swiped one are kept in their order. */
  lemma {:induction false} WithoutProfileKeepsOrder(profiles: seq<Json>, targetId: Option<Json>)
    requires Profiles(profiles)
    requires forall i :: 0 <= i < |profiles| ==> !StrictEquals(Member(Some(profiles[i]), "_id").value, targetId)
    ensures WithoutProfile(profiles, targetId) == profiles
  {
    if profiles != [] {
      var x, tail := profiles[0], profiles[1..];
      assert profiles == [x] + tail;
      ProfilesAppend([x], tail);
      assert forall i :: 0 <= i < |tail| ==> tail[i] == profiles[i + 1];
      WithoutProfileKeepsOrder(tail, targetId);
      WithoutProfileCons(x, tail, targetId);
    }
  }

  /** A profile list holds profile objects, never null. */
  predicate Profiles(profiles: seq<Json>) {
    forall i :: 0 <= i < |profiles| ==> Member(Some(profiles[i]), "_id").Ok?
  }

  /** The filter works element by element: filtering a concatenation filters each part. */
  lemma {:induction false} WithoutProfileAppend(a: seq<Json>, b: seq<Json>, targetId: Option<Json>)
    requires Profiles(a) && Profiles(b)
    ensures Profiles(a + b)
    ensures WithoutProfile(a + b, targetId) == WithoutProfile(a, targetId) + WithoutProfile(b, targetId)
  {
    ProfilesAppend(a, b);
    if a == [] {
      assert a + b == b;
    } else {
      var x, tail := a[0], a[1..];
      assert a == [x] + tail;
      ProfilesAppend([x], tail);
      WithoutProfileAppend(tail, b, targetId);
      WithoutProfileAppendStep(x, tail, b, targetId);
      assert a + b == [x] + (tail + b);
    }
  }

  /** The step of `WithoutProfileAppend`: one more profile in front. */
  lemma WithoutProfileAppendStep(x: Json, tail: seq<Json>, b: seq<Json>, targetId: Option<Json>)
    requires Member(Some(x), "_id").Ok? && Profiles(tail) && Profiles(b) && Profiles(tail + b)
    requires WithoutProfile(tail + b, targetId) == WithoutProfile(tail, targetId) + WithoutProfile(b, targetId)
    ensures Profiles([x] + tail) && Profiles([x] + (tail + b))
    ensures WithoutProfile([x] + (tail + b), targetId) == WithoutProfile([x] + tail, targetId) + WithoutProfile(b, targetId)
  {
    var kept := if StrictEquals(Member(Some(x), "_id").value, targetId) then [] else [x];
    WithoutProfileCons(x, tail + b, targetId);
    WithoutProfileCons(x, tail, targetId);
    calc {
      WithoutProfile([x] + (tail + b), targetId);
      kept + WithoutProfile(tail + b, targetId);
      kept + (WithoutProfile(tail, targetId) + WithoutProfile(b, targetId));
      (kept + WithoutProfile(tail, targetId)) + WithoutProfile(b, targetId);
      WithoutProfile([x] + tail, targetId) + WithoutProfile(b, targetId);
    }
  }

  /** The filter on a list with one more profile in front. */
  lemma WithoutProfileCons(x: Json, rest: seq<Json>, targetId: Option<Json>)
    requires Member(Some(x), "_id").Ok? && Profiles(rest)
    ensures Profiles([x] + rest)
    ensures WithoutProfile([x] + rest, targetId)
            == (if StrictEquals(Member(Some(x), "_id").value, targetId) then [] else [x]) + WithoutProfile(rest, targetId)
  {
    assert Profiles([x]);
    ProfilesAppend([x], rest);
    assert ([x] + rest)[0] == x && ([x] + rest)[1..] == rest;
  }

  lemma ProfilesAppend(a: seq<Json>, b: seq<Json>)
    ensures Profiles(a + b) <==> Profiles(a) && Profiles(b)
  {
    if Profiles(a) && Profiles(b) {
      forall i | 0 <= i < |a + b| ensures Member(Some((a + b)[i]), "_id").Ok? {
        if i < |a| { assert (a + b)[i] == a[i]; } else { assert (a + b)[i] == b[i - |a|]; }
      }
    }
    if Profiles(a + b) {
      forall i | 0 <= i < |a| ensures Member(Some(a[i]), "_id").Ok? {
        assert (a + b)[i] == a[i];
      }
      forall i | 0 <= i < |b| ensures Member(Some(b[i]), "_id").Ok? {
        assert (a + b)[|a| + i] == b[i];
      }
    }
  }

  class Store {
    var matches: seq<Json>
    var isLoadingMyMatches: bool
    var isLoadingUserProfiles: bool
    var userProfiles: seq<Json>
    var swipeFeedback: Option<string>
    /** Feedback resets scheduled and not yet run. */
    var pendingResets: nat
    /** Swipe requests sent, oldest first. */
    var requests: seq<SwipeRequest>

    ghost predicate Valid()
      reads this
    {
      Profiles(userProfiles)
    }

    constructor ()
      ensures Valid()
      ensures matches == [] && userProfiles == [] && swipeFeedback == None
      ensures !isLoadingMyMatches && !isLoadingUserProfiles && pendingResets == 0 && requests == []
    {
      matches := [];
      isLoadingMyMatches := false;
      isLoadingUserProfiles := false;
      userProfiles := [];
      swipeFeedback := None;
      pendingResets := 0;
      requests := [];
    }

    /** `getMyMatches()`: the fetched list, or `[]` on failure; not loading after. */
    method GetMyMatches(reply: Result<seq<Json>>)
      modifies this
      ensures matches == if reply.Ok? then reply.value else []
      ensures !isLoadingMyMatches
      ensures userProfiles == old(userProfiles) && isLoadingUserProfiles == old(isLoadingUserProfiles)
      ensures swipeFeedback == old(swipeFeedback) && pendingResets == old(pendingResets) && requests == old(requests)
    {
      isLoadingMyMatches := true;
      if reply.Ok? {
        matches := reply.value;
      } else {
        matches := [];
      }
      isLoadingMyMatches := false;
    }

    /** `getUserProfiles()`: the fetched profiles, or `[]` on failure. */
    method GetUserProfiles(reply: Result<seq<Json>>)
      requires reply.Ok? ==> Profiles(reply.value)
      modifies this
      ensures Valid()
      ensures userProfiles == if reply.Ok? then reply.value else []
      ensures !isLoadingUserProfiles
      ensures matches == old(matches) && isLoadingMyMatches == old(isLoadingMyMatches)
      ensures swipeFeedback == old(swipeFeedback) && pendingResets == old(pendingResets) && requests == old(requests)
    {
      isLoadingUserProfiles := true;
      if reply.Ok? {
        userProfiles := reply.value;
      } else {
        userProfiles := [];
      }
      isLoadingUserProfiles := false;
    }

    /** `swipeLeft(user)` / `swipeRight(user)`: the feedback is shown at once, every
        profile with the user's `_id` leaves the list before the request goes out,
        and a reset of the feedback is scheduled whatever happens. A null user fails
        on `user._id` after the feedback was set. */
    method Swipe(direction: Direction, user: Json)
      requires Valid()
      modifies this
      ensures Valid()
      ensures swipeFeedback == Some(if direction == Left then PASSED else LIKED)
      ensures pendingResets == old(pendingResets) + 1
      ensures Member(Some(user), "_id").Err? ==> userProfiles == old(userProfiles) && requests == old(requests)
      ensures Member(Some(user), "_id").Ok? ==>
        var id := Member(Some(user), "_id").value;
        userProfiles == WithoutProfile(old(userProfiles), id)
        && requests == old(requests) + [SwipeRequest(direction, id)]
      ensures matches == old(matches)
      ensures isLoadingMyMatches == old(isLoadingMyMatches) && isLoadingUserProfiles == old(isLoadingUserProfiles)
    {
      swipeFeedback := Some(if direction == Left then PASSED else LIKED);
      var id := Member(Some(user), "_id");
      if id.Ok? {
        userProfiles := WithoutProfile(userProfiles, id.value);
        requests := requests + [SwipeRequest(direction, id.value)];
      }
      pendingResets := pendingResets + 1;
    }

    /** A feedback reset runs 1.5 s after its swipe. */
    method FeedbackResetFires()
      requires pendingResets > 0
      modifies this
      ensures swipeFeedback == None && pendingResets == old(pendingResets) - 1
      ensures matches == old(matches) && userProfiles == old(userProfiles) && requests == old(requests)
      ensures isLoadingMyMatches == old(isLoadingMyMatches) && isLoadingUserProfiles == old(isLoadingUserProfiles)
    {
      swipeFeedback := None;
      pendingResets := pendingResets - 1;
    }

    /** `newMatch` appends the payload to the matches. */
    method OnNewMatch(newMatch: Json)
      modifies this
      ensures matches == old(matches) + [newMatch]
      ensures userProfiles == old(userProfiles) && swipeFeedback == old(swipeFeedback)
      ensures pendingResets == old(pendingResets) && requests == old(requests)
      ensures isLoadingMyMatches == old(isLoadingMyMatches) && isLoadingUserProfiles == old(isLoadingUserProfiles)
    {
      matches := matches + [newMatch];
    }
  }

  /** `subscribeToNewMatches()` / `subscribeToNewUserProfiles()`. */
  method Subscribe(client: Client, event: string, cb: Listener)
    requires client.Valid() && event in {"newMatch", "newUserProfile"}
    modifies client
    ensures client.Valid()
    ensures client.Snapshot() == Subscribed(old(client.Snapshot()), event, cb)
  {
    client.On(event, cb);
  }

  /** `unsubscribeFromNewMatches()` / `unsubscribeFromNewUserProfiles()`. */
  method Unsubscribe(client: Client, event: string)
    requires client.Valid() && event in {"newMatch", "newUserProfile"}
    modifies client
    ensures client.Valid()
    ensures client.Snapshot() == Unsubscribed(old(client.Snapshot()), event)
    ensures old(client.socket).Some? ==> event !in client.listeners
  {
    client.Off(event);
  }

  /** After a swipe no listed profile carries the swiped id (for a primitive id). */
  lemma SwipedProfileGone(profiles: seq<Json>, id: Json)
    requires Profiles(profiles) && !id.JArr? && !id.JObj?
    ensures forall p :: p in WithoutProfile(profiles, Some(id)) ==> Member(Some(p), "_id").value != Some(id)
  {
  }
}
