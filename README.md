# Queue-Up, modelled in Dafny

Queue-Up is a dating app that pairs people by music taste. Its Spring backend keeps
each user's Spotify taste (top artists, top tracks, saved tracks, followed artists)
and social graph (likes, dislikes, matches). It scores candidates by the items two
users share and turns a mutual like into a match. Presence, new matches, chat
messages and typing notices are pushed over a WebSocket session registry. It signs
users up, logs them in and can create "bot" partners. It presigns S3 uploads and
downloads, fetches link previews and asks OpenAI for bot profiles and replies. The
React frontend keeps client stores for the signed-in user, matches and messages. It
also has a socket client with listeners and reconnection, an axios layer that copies
`id` to `_id`, and the forms and pages whose rules are modelled here: the signup and
profile forms, the message composer, the chat page, the attachment viewer and the
shared-item chips.

The model keeps the source's own form:
- Stateful objects are classes whose methods update fields under `modifies`:
  - the user repository and the socket session registry;
  - the OAuth state set;
  - the client stores, the socket client, the composer and the forms.
- Pure rules are functions over datatypes and JSON values, with lemmas about them.
- Loops stay loops, with invariants tying them to a reference function: scoring,
  broadcasting, candidate ranking, bot creation, attachment assembly and the zip
  tree build.
- Clocks, randomness and every outside service are parameters:
  - the clock and random choices;
  - BCrypt and JWT validation;
  - Cloudinary, S3, Spotify, OpenAI, RandomUser and Jsoup;
  - whether a socket accepts a frame.

The backend's central invariant is that matches are mutual likes and point only at
existing users (`Entities.MatchesAreMutualLikes`, `Entities.SocialClosed`).
Each write of a user has a lemma proving that it keeps the invariant:
- a new account: `AuthService.NewAccountKeepsGraph`;
- one demo bot: `AuthService.NewBotKeepsGraph`;
- a swipe: `MatchService.SwipeRightPreservesMutualMatches`, `MatchService.SwipeLeftPreservesMutualMatches`;
- a profile edit: `UserService.ProfileEditKeepsGraph`;
- a token refresh: `SpotifyClientFactory.RefreshKeepsGraph`.

## Model

| member | source | states |
|---|---|---|
| Entities.BlankUser | Backend/src/main/java/com/QueueUp/Backend/model/User.java:41-47 | a new user has empty likes, dislikes and matches, bio and image "", and is not a bot |
| Entities.UserRepository.constructor | Backend/src/main/java/com/QueueUp/Backend/repository/UserRepository.java:11 | the store starts empty |
| Entities.UserRepository.FindById | Backend/src/main/java/com/QueueUp/Backend/repository/UserRepository.java:11-12 | present exactly when the id is stored, and then that user |
| Entities.UserRepository.FindByEmail | Backend/src/main/java/com/QueueUp/Backend/repository/UserRepository.java:15 | absent exactly when no stored user has the email; otherwise a stored user with that email |
| Entities.UserRepository.Save | Backend/src/main/java/com/QueueUp/Backend/repository/UserRepository.java:11-12 | an existing user with a name and an age is replaced by the saved one and nothing else changes; every stored user keeps a name and an age |
| Entities.UserRepository.TrySave | Backend/src/main/java/com/QueueUp/Backend/model/User.java:27-37 | the save succeeds exactly when the name and the age are set, and then replaces the stored user; otherwise it fails with the NOT NULL violation and the table is unchanged |
| Entities.UserRepository.Insert | Backend/src/main/java/com/QueueUp/Backend/model/User.java:21-37 | a new user with a name and an age gets the next generated id, unused before, and is stored under it |
| Entities.MessageRepository.constructor | Backend/src/main/java/com/QueueUp/Backend/model/Message.java:17-20 | no message is stored at start |
| Entities.MessageRepository.Insert | Backend/src/main/java/com/QueueUp/Backend/model/Message.java:17-59 | the saved message gets the next generated id and the current time as `createdAt`, and is appended |
| MatchService.FindCommonItems | Backend/src/main/java/com/QueueUp/Backend/service/MatchService.java:142-148 | a null set on either side gives no common items; otherwise the result is exactly the items of the second set whose Spotify id occurs among the first set's ids |
| MatchService.CalculateScore | Backend/src/main/java/com/QueueUp/Backend/service/MatchService.java:113-138 | the card carries the other user's id, name, image, age and bio; each common list is drawn from the other's category; score = 3·artists + 2·tracks + saved + followed, never negative |
| MatchService.CommonCount | Backend/src/main/java/com/QueueUp/Backend/service/MatchService.java:142-148 | with distinct ids per set, the number of common items equals the number of shared Spotify ids |
| MatchService.ScoreCountsSharedIds | Backend/src/main/java/com/QueueUp/Backend/service/MatchService.java:113-122 | with distinct ids, the score is the weighted count of shared ids in the four categories |
| MatchService.ScoreSymmetric | Backend/src/main/java/com/QueueUp/Backend/service/MatchService.java:113-122 | with distinct ids on both sides, score(a, b) == score(b, a) |
| MatchService.InsertByScore | Backend/src/main/java/com/QueueUp/Backend/service/MatchService.java:101 | insertion adds exactly the one card to the multiset of cards |
| MatchService.InsertByScoreSorted | Backend/src/main/java/com/QueueUp/Backend/service/MatchService.java:101 | inserting into a list sorted by non-increasing score keeps it sorted |
| MatchService.SortByScore | Backend/src/main/java/com/QueueUp/Backend/service/MatchService.java:99-102 | the result is a permutation of the cards, sorted by non-increasing score |
| MatchService.Cards | Backend/src/main/java/com/QueueUp/Backend/service/MatchService.java:99-100 | one card per candidate id, in the order of the ids, each being that user scored against me |
| MatchService.GetUserProfiles | Backend/src/main/java/com/QueueUp/Backend/service/MatchService.java:88-103 | an unknown user fails with NoSuchElementException's message, and only then; the feed is sorted by non-increasing score |
| MatchService.GetMatches | Backend/src/main/java/com/QueueUp/Backend/service/MatchService.java:105-111 | an unknown user fails, and only then; the list is sorted by non-increasing score |
| MatchService.CardIds | Backend/src/main/java/com/QueueUp/Backend/service/MatchService.java:99-102 | a card for an id is in the sorted result exactly when the id was a candidate |
| MatchService.FeedExcludesSwipedUsers | Backend/src/main/java/com/QueueUp/Backend/service/MatchService.java:91-97 | a stored user has a card in the feed exactly when they are not me and not in my likes, dislikes or matches |
| MatchService.MatchesListsExactlyMyMatches | Backend/src/main/java/com/QueueUp/Backend/service/MatchService.java:105-108 | a user has a card in the match list exactly when they are in my matches |
| MatchService.NotifyMatch | Backend/src/main/java/com/QueueUp/Backend/service/MatchService.java:55-75 | the first user is sent `newMatch` carrying the second's `_id`, name and image, then the reverse; sessions are unchanged (the card's text encoding is not modelled, see Left out) |
| MatchService.SwipeRight | Backend/src/main/java/com/QueueUp/Backend/service/MatchService.java:36-53 | an unknown current or liked id fails before any set changes; otherwise the users become the right-swipe update and the log grows by exactly the match notifications |
| MatchService.SwipeLeft | Backend/src/main/java/com/QueueUp/Backend/service/MatchService.java:78-85 | an unknown id fails with nothing changed; otherwise the users become the left-swipe update |
| MatchService.SwipeRightRecordsLike | Backend/src/main/java/com/QueueUp/Backend/service/MatchService.java:40-43 | after swipeRight(a, b), b is in a's likes and a's likes are otherwise the same; other users' likes are unchanged |
| MatchService.SwipeRightMatchesOnlyWhenMutual | Backend/src/main/java/com/QueueUp/Backend/service/MatchService.java:45-50 | if b already likes a, each is added to the other's matches; otherwise no matches set changes |
| MatchService.SwipeRightNotifiesBoth | Backend/src/main/java/com/QueueUp/Backend/service/MatchService.java:45-75 | a mutual like sends `newMatch` to each side with the other's `_id`/name/image; a one-sided like sends nothing |
| MatchService.SwipeRightIdempotent | Backend/src/main/java/com/QueueUp/Backend/service/MatchService.java:40-50 | repeating a right swipe leaves the users unchanged |
| MatchService.SwipeRightPreservesMutualMatches | Backend/src/main/java/com/QueueUp/Backend/service/MatchService.java:40-50 | a right swipe keeps every match a mutual like and the social graph closed over stored ids |
| MatchService.SwipeLeftOnlyDislikes | Backend/src/main/java/com/QueueUp/Backend/service/MatchService.java:81-84 | b is added to a's dislikes; likes and matches of every user are unchanged; repeating the swipe changes nothing |
| MatchService.SwipeLeftPreservesMutualMatches | Backend/src/main/java/com/QueueUp/Backend/service/MatchService.java:78-85 | a left swipe keeps the matches-are-mutual-likes invariant and the closed graph |
| SocketService.UnicastDeliveries | Backend/src/main/java/com/QueueUp/Backend/socket/SocketService.java:53-68 | at most one frame; one is written exactly when the user has a registered session that is open and accepts the write, and it goes to that session with `{type, payload}` |
| SocketService.DeliverToMembers | Backend/src/main/java/com/QueueUp/Backend/socket/SocketService.java:78-86 | a delivery is in the visit of a list of users exactly when it is the frame for a listed user whose session is open |
| SocketService.DeliverToOrdered | Backend/src/main/java/com/QueueUp/Backend/socket/SocketService.java:78-86 | visiting users in strictly increasing order writes frames in that order |
| SocketService.BroadcastReachesEveryOpenSession | Backend/src/main/java/com/QueueUp/Backend/socket/SocketService.java:70-86 | a broadcast writes the frame to exactly the registered users whose session is open, a failing session not stopping the rest, each once |
| SocketService.OwnerOf | Backend/src/main/java/com/QueueUp/Backend/socket/SocketService.java:39-43 | None exactly when no registered user holds the session; otherwise a user whose session it is |
| SocketService.CollectBroadcast | Backend/src/main/java/com/QueueUp/Backend/socket/SocketService.java:78-86 | visiting the given registered users in turn writes exactly one frame to each whose session accepts it, in visiting order, skipping failures |
| SocketService.SocketRegistry.constructor | Backend/src/main/java/com/QueueUp/Backend/socket/SocketService.java:18 | the registry starts with no session and nothing sent |
| SocketService.SocketRegistry.SendMessageToUser | Backend/src/main/java/com/QueueUp/Backend/socket/SocketService.java:53-68 | sessions unchanged; the log grows by exactly the unicast's deliveries |
| SocketService.SocketRegistry.Broadcast | Backend/src/main/java/com/QueueUp/Backend/socket/SocketService.java:70-90 | sessions unchanged; the log grows by exactly the broadcast's deliveries |
| SocketService.SocketRegistry.AddSession | Backend/src/main/java/com/QueueUp/Backend/socket/SocketService.java:25-35 | the user now maps to the new session (replacing any earlier one); the log grows by the `userOnline` broadcast, then by `getOnlineUsers` with the full key set sent to the user alone |
| SocketService.SocketRegistry.RemoveSession | Backend/src/main/java/com/QueueUp/Backend/socket/SocketService.java:37-51 | an unregistered session changes nothing and sends nothing; a registered one removes its user and broadcasts `userOffline` with that id to the rest |
| SocketService.AddSessionAnnouncesNewcomer | Backend/src/main/java/com/QueueUp/Backend/socket/SocketService.java:25-32 | an open new session receives `userOnline` for its own user, and then alone receives the online list, which contains that user |
| SocketService.SupersededSessionIsInert | Backend/src/main/java/com/QueueUp/Backend/socket/SocketService.java:26-45 | a session replaced by a newer one of the same user belongs to nobody, so closing it changes nothing |
| SocketService.UnicastOnlyTouchesAddressee | Backend/src/main/java/com/QueueUp/Backend/socket/SocketService.java:54-63 | a unicast writes only to the addressee's session, and only the given frame |
| WebSocketHandler.UserIdFromSession | Backend/src/main/java/com/QueueUp/Backend/socket/WebSocketHandler.java:65-75 | an id is produced exactly when the first `userId` parameter has a value that parses as a Long, and it is that Long; so no parameter, a parameter without value or unparseable text give no id |
| WebSocketHandler.UserIdOfMissingQuery | Backend/src/main/java/com/QueueUp/Backend/socket/WebSocketHandler.java:65-75 | a URI without a query (read as the text "null") gives no id |
| WebSocketHandler.QueryParamsOfSingle | Backend/src/main/java/com/QueueUp/Backend/socket/WebSocketHandler.java:68-71 | a query `name=value` with no `&`, `=` or `#` in its parts reads as the one parameter name with that value |
| WebSocketHandler.UserIdRoundTrip | Backend/src/main/java/com/QueueUp/Backend/socket/WebSocketHandler.java:65-75 | a connection opened with query `userId=<id>` reads back exactly that id |
| WebSocketHandler.AfterConnectionEstablished | Backend/src/main/java/com/QueueUp/Backend/socket/WebSocketHandler.java:28-36 | a readable id registers the session under it through `addSession`, with its broadcast and online list; otherwise the session is closed with BAD_DATA and the registry is untouched |
| WebSocketHandler.HandleTextMessage | Backend/src/main/java/com/QueueUp/Backend/socket/WebSocketHandler.java:39-58 | a `typing` frame from a connection with a readable id unicasts `typing{senderId}` (the connection's own id) to `payload.receiverId`, 0 when absent; any other or malformed frame sends nothing; sessions never change |
| WebSocketHandler.AfterConnectionClosed | Backend/src/main/java/com/QueueUp/Backend/socket/WebSocketHandler.java:61-63 | closing behaves exactly as `removeSession` for that session |
| AuthService.ParseIntSafely | Backend/src/main/java/com/QueueUp/Backend/service/AuthService.java:342-364 | null, booleans, maps and other objects give null; anything but an Integer that gives a value gives one in int range |
| AuthService.ParseIntSafelyAgrees | Backend/src/main/java/com/QueueUp/Backend/service/AuthService.java:342-364 | an int given as Integer, Long, BigInteger, Double or its decimal String all read back as that int |
| AuthService.ParseIntSafelyRejectsText | Backend/src/main/java/com/QueueUp/Backend/service/AuthService.java:350-355 | a String that is not a decimal int gives null rather than an exception |
| AuthService.Capitalize | Backend/src/main/java/com/QueueUp/Backend/service/AuthService.java:337-340 | null stays null; the length is kept; a non-empty string has its first character upper-cased and the rest unchanged |
| AuthService.CapitalizeIdempotent | Backend/src/main/java/com/QueueUp/Backend/service/AuthService.java:337-340 | capitalising twice is capitalising once |
| AuthService.ToList | Backend/src/main/java/com/QueueUp/Backend/service/AuthService.java:319 | the list holds each member of the set exactly once |
| AuthService.Shuffle | Backend/src/main/java/com/QueueUp/Backend/service/AuthService.java:322 | the shuffled array is a permutation of the original |
| AuthService.GetRandomSubset | Backend/src/main/java/com/QueueUp/Backend/service/AuthService.java:318-335 | distinct members of the source; empty source gives empty; up to 10 members gives all of them; more than 10 gives between 10 and all |
| AuthService.SignupAcceptsExactly | Backend/src/main/java/com/QueueUp/Backend/service/AuthService.java:92-99 | validation passes exactly when name, email, password and age are present, age ≥ 18, the password has at least 6 characters and the email is not registered |
| AuthService.SignupErrorOrder | Backend/src/main/java/com/QueueUp/Backend/service/AuthService.java:92-99 | a missing field reports "All fields are required" before the age rule, the age rule before the password rule, the password rule before the duplicate-email rule |
| AuthService.ReadTokens | Backend/src/main/java/com/QueueUp/Backend/service/AuthService.java:119-128 | without an `access_token` key no token is stored; with one, an expiry is stored exactly when `expires_in` reads as an int, and it is now plus that many seconds |
| AuthService.Signup | Backend/src/main/java/com/QueueUp/Backend/service/AuthService.java:78-160 | a failed cast or failed rule returns that error and stores nothing; past the rules, a failed upload of a `data:image` picture is "Picture upload failed", a failed token cast is that error, and otherwise the signup succeeds; a success stores one new user under a fresh id with the given fields, the hashed password, the uploaded picture's URL (or "" when no `data:image` was sent), the Spotify tokens and expiry read from the `spotify` map, no likes, dislikes or matches, and an email not registered before |
| AuthService.NewAccountKeepsGraph | Backend/src/main/java/com/QueueUp/Backend/service/AuthService.java:101-131 | adding a user with no social edges keeps matches mutual likes and the graph closed |
| AuthService.Login | Backend/src/main/java/com/QueueUp/Backend/service/AuthService.java:162-170 | every failure is "Invalid email or password", an unknown email included; a success is a stored user with that email whose password verifies; the user found by the email logs in whenever the password verifies |
| AuthService.LoginOfOwner | Backend/src/main/java/com/QueueUp/Backend/service/AuthService.java:162-170 | with unique emails, any stored user logs in with a password that verifies against their hash |
| AuthService.ReadBotProfile | Backend/src/main/java/com/QueueUp/Backend/service/AuthService.java:221-237 | reading succeeds exactly when the answer has the `name`, `dob` and `picture` maps and every value read has the type cast to; the name is "first last" capitalised, the email the clock's milliseconds, "_" and the answer's email, the age `dob.age`, the picture `picture.large`, the bio the drawn one of the fixed list |
| AuthService.SetOf | Backend/src/main/java/com/QueueUp/Backend/service/AuthService.java:264-267 | the set holds exactly the members of the list |
| AuthService.CreateSingleBot | Backend/src/main/java/com/QueueUp/Backend/service/AuthService.java:209-276 | a bot is created exactly when the source user exists and the profile answer reads with an age; the save fails exactly when the answer reads but its `dob.age` is null; otherwise nothing changes; a bot is stored under a fresh id with the profile's name, email, age and bio, the uploaded picture's URL or else the profile's picture, flagged as a bot, taste drawn from the source user's sets, liking exactly the source user, with the bot password hashed |
| AuthService.SaveBot | Backend/src/main/java/com/QueueUp/Backend/service/AuthService.java:269-275 | a bot without a name or an age makes the first save throw and nothing is stored; otherwise it is stored under the next id, liking the source user as well |
| AuthService.NewBotKeepsGraph | Backend/src/main/java/com/QueueUp/Backend/service/AuthService.java:270-273 | adding a bot that likes only an existing user keeps matches mutual likes and the graph closed |
| AuthService.SwipeRightOnBotMatches | Backend/src/main/java/com/QueueUp/Backend/service/AuthService.java:272 | the user a bot was made for matches it on their first right swipe |
| AuthService.AnnounceStep | Backend/src/main/java/com/QueueUp/Backend/service/AuthService.java:198 | a `newUserProfile` broadcast for a new id only announces new profiles |
| AuthService.AddBot | Backend/src/main/java/com/QueueUp/Backend/service/AuthService.java:189-202 | a bot is created exactly when `createSingleBot` can make one; it is stored as above and then announced with `newUserProfile` to every open session; an attempt that makes no bot changes and sends nothing, and it reports a failed save exactly for an answer without an age |
| AuthService.CreateDemoUsers | Backend/src/main/java/com/QueueUp/Backend/service/AuthService.java:176-204 | a missing user or one with no top artists and no top tracks gets no bot and nothing is sent; otherwise one bot per good draw before the first draw whose save throws is added under consecutive fresh ids (two good draws give exactly two bots), existing users are unchanged, and the log grows by exactly one `newUserProfile` broadcast per new bot, in creation order |
| AuthService.AddBots | Backend/src/main/java/com/QueueUp/Backend/service/AuthService.java:187-203 | the loop stops after two rounds or at the first save that throws; the users are then the old ones plus one bot of the source user per good draw before that point, under consecutive ids, and the log is the old one plus their announcements in order |
| AuthService.AddCountedBot | Backend/src/main/java/com/QueueUp/Backend/service/AuthService.java:189-202 | one round adds the next bot and its announcement exactly when the draw is good, and changes nothing otherwise; it reports a failed save exactly for an answer without an age |
| AuthService.AddRound | Backend/src/main/java/com/QueueUp/Backend/service/AuthService.java:187-203 | a round reached before any save has thrown moves the count of bots to the good draws among one more round, and reports whether the loop is now ended by a failed save |
| AuthService.DemoRounds | Backend/src/main/java/com/QueueUp/Backend/service/AuthService.java:187-203 | two good draws give two bots; a first answer without an age gives none, whatever the second draw; a first draw that yields nothing and does not throw leaves the second round to decide |
| AuthService.ProgressDone | Backend/src/main/java/com/QueueUp/Backend/service/AuthService.java:187-203 | after at most two rounds: no existing user changed, at most two new users, each a bot of the source user, and the log only extended by announcements of the new bots |
| AuthService.AnnouncementsOnlyAnnounce | Backend/src/main/java/com/QueueUp/Backend/service/AuthService.java:198 | the announcements of a run of new ids announce only those ids |
| AuthService.IdRangeSize | Backend/src/main/java/com/QueueUp/Backend/service/AuthService.java:187-203 | the run of ids given to n bots holds exactly n ids, the consecutive ones from the first |
| MessageService.BuildAttachment | Backend/src/main/java/com/QueueUp/Backend/service/MessageService.java:56-83 | name, ext and category are copied; a non-empty url is used as is with the key defaulting to ""; otherwise a `data:` payload is uploaded, failing exactly when the upload fails, and url and key come from the upload; otherwise no url and the key defaults to "" |
| MessageService.BuildAttachmentsInOrder | Backend/src/main/java/com/QueueUp/Backend/service/MessageService.java:54-85 | the loop succeeds exactly when every input's attachment does; then there is exactly one attachment per input, in input order; a failure is the upload failure |
| MessageService.SendMessage | Backend/src/main/java/com/QueueUp/Backend/service/MessageService.java:37-103 | an unknown sender, a null receiver id or an unknown receiver fails with its message; any failure stores and sends nothing; a success stores one message with the request's content, previews (when given) and attachments, and sends `newMessage` to the receiver alone; past the user checks, a failed upload is "Failed to upload attachment", an attachment with a null column (no url after the loop) fails the save with nothing stored or sent, and otherwise the send succeeds; every stored attachment has all five columns |
| MessageService.UrlAttachmentsNeverFail | Backend/src/main/java/com/QueueUp/Backend/service/MessageService.java:63-65 | inputs that all carry a non-empty url never fail and keep their urls in order |
| AuthMiddleware.FirstJwt | Backend/src/main/java/com/QueueUp/Backend/middleware/AuthMiddleware.java:41-48 | no token exactly when no cookie is named `jwt`; otherwise the value of the first such cookie |
| AuthMiddleware.FilterAsWritten | Backend/src/main/java/com/QueueUp/Backend/middleware/AuthMiddleware.java:21-68 | as written: a path outside `/api` or a public route is forwarded without a check; a valid token is forwarded with the `userId` attribute, and a controller failure is then answered with 401 |
| AuthMiddleware.ControllerFailureBecomesUnauthorized | Backend/src/main/java/com/QueueUp/Backend/middleware/AuthMiddleware.java:51-66 | a request with a valid token whose controller throws is both forwarded and answered with 401, the exception swallowed |
| AuthMiddleware.Filter | Backend/src/main/java/com/QueueUp/Backend/middleware/AuthMiddleware.java:21-68 | 401 exactly for a guarded path (under `/api`, not login, signup, `/api/auth/spotify/...` or `/api/health`) with no or an invalid token; otherwise forwarded once; the `userId` attribute is set exactly on a forwarded guarded request, to the token's user; a controller failure escapes |
| AuthMiddleware.FiltersAgreeWithoutControllerFailure | Backend/src/main/java/com/QueueUp/Backend/middleware/AuthMiddleware.java:51-59 | with a controller that succeeds, the code as written and the corrected filter behave identically |
| AuthMiddleware.Exchange.constructor | Backend/src/main/java/com/QueueUp/Backend/middleware/AuthMiddleware.java:21-24 | a fresh exchange has no attribute, no forward and no response written |
| AuthMiddleware.Exchange.DoFilter | Backend/src/main/java/com/QueueUp/Backend/middleware/AuthMiddleware.java:21-68 | under the corrected rule (only a failed token check is answered with 401, see Findings): forwards once exactly when the filter forwards, sets the attribute it sets, and writes status 401 with the `"success": false` body exactly when it rejects |
| SpotifyAuthController.Callback | Backend/src/main/java/com/QueueUp/Backend/controller/SpotifyAuthController.java:38-70 | a missing or unknown state answers "Invalid or expired state" and leaves the pending set unchanged; a known state is removed first; then no code closes the window, a successful exchange posts the tokens, and a failed one answers "Auth failed: " plus the message |
| SpotifyAuthController.StateIsSingleUse | Backend/src/main/java/com/QueueUp/Backend/controller/SpotifyAuthController.java:41-44 | replaying a state after any callback with it is refused |
| SpotifyAuthController.TokensNeedPendingState | Backend/src/main/java/com/QueueUp/Backend/controller/SpotifyAuthController.java:41-44 | tokens are posted only for a pending state, and a callback never adds to the pending set |
| SpotifyAuthController.Controller.constructor | Backend/src/main/java/com/QueueUp/Backend/controller/SpotifyAuthController.java:20 | no state is pending at start |
| SpotifyAuthController.Controller.SpotifyLogin | Backend/src/main/java/com/QueueUp/Backend/controller/SpotifyAuthController.java:28-35 | the drawn state is added to the pending set and the URL is built with it |
| SpotifyAuthController.Controller.SpotifyCallback | Backend/src/main/java/com/QueueUp/Backend/controller/SpotifyAuthController.java:38-70 | the pending set and the page become exactly the callback outcome |
| SpotifyAuthController.LoginThenCallbackAccepted | Backend/src/main/java/com/QueueUp/Backend/controller/SpotifyAuthController.java:28-64 | a callback carrying the state a login just issued consumes it and, when the exchange succeeds, posts the tokens |
| S3Controller.ObjectKeyNamesOwner | Backend/src/main/java/com/QueueUp/Backend/controller/S3Controller.java:39 | the upload key splits on "/" into exactly the owner's id, `chat_attachments` and the millisecond-stamped file name (for a name without "/") |
| S3Controller.PresignUpload | Backend/src/main/java/com/QueueUp/Backend/controller/S3Controller.java:29-59 | 400 "name and type required" exactly when name or type is missing; a success returns exactly `url` and `key`, the key built from the user, the clock and the name, signed for a PUT of that type for two minutes; a presigner failure is a 500 |
| S3Controller.DownloadSeconds | Backend/src/main/java/com/QueueUp/Backend/controller/S3Controller.java:63-64 | no `expiresIn` gives 60; an Integer gives min(value, 900); a null or non-Integer value fails; a lifetime is never above 900 |
| S3Controller.PresignDownload | Backend/src/main/java/com/QueueUp/Backend/controller/S3Controller.java:62-87 | a bad `expiresIn` or non-String key escapes as an exception; a null key is a 400; the reply is an exception exactly when the key or lifetime cannot be read; with a readable key and lifetime the reply is the signed `url` alone, or a 500 when the presigner fails |
| S3Controller.DownloadLinksAreShortLived | Backend/src/main/java/com/QueueUp/Backend/controller/S3Controller.java:64-83 | every signed download link lives at most 900 seconds |
| OpenAIService.SystemPromptNamesTheBot | Backend/src/main/java/com/QueueUp/Backend/service/OpenAIService.java:44-47 | the system prompt contains the bot's name and its bio |
| OpenAIService.RoleFor | Backend/src/main/java/com/QueueUp/Backend/service/OpenAIService.java:51 | a message is the assistant's exactly when its sender's name equals the bot's name, and the user's otherwise |
| OpenAIService.ChatMessages | Backend/src/main/java/com/QueueUp/Backend/service/OpenAIService.java:39-53 | the list can be built exactly when every history message has a sender name and a text (`Map.of` and `equals` throw on null) |
| OpenAIService.ChatMessagesShape | Backend/src/main/java/com/QueueUp/Backend/service/OpenAIService.java:41-53 | one entry more than the history, opening with the system entry, then each message in order with its role and text |
| OpenAIService.BuildChatMessages | Backend/src/main/java/com/QueueUp/Backend/service/OpenAIService.java:41-53 | the loop builds exactly the specified message list |
| OpenAIService.GenerateChatReply | Backend/src/main/java/com/QueueUp/Backend/service/OpenAIService.java:39-95 | a null sender name or text throws; otherwise the model's answer, or "Haha that's cool!" when the call fails |
| OpenAIService.ProfilePromptMentionsAge | Backend/src/main/java/com/QueueUp/Backend/service/OpenAIService.java:27-33 | the profile prompt contains the age in decimal |
| OpenAIService.ProfilePromptMentionsMusic | Backend/src/main/java/com/QueueUp/Backend/service/OpenAIService.java:27-33 | the profile prompt contains the music sample joined with ", " |
| OpenAIService.GenerateBotProfile | Backend/src/main/java/com/QueueUp/Backend/service/OpenAIService.java:26-78 | the model's parsed `{name, bio}`, or "Alex Doe"/"Music lover." when the call or parse fails |
| LinkPreviewController.GetMetaTag | Backend/src/main/java/com/QueueUp/Backend/controller/LinkPreviewController.java:47-51 | "" when no meta tag has that property or name; otherwise the content of the first tag that has it |
| LinkPreviewController.GetLinkPreview | Backend/src/main/java/com/QueueUp/Backend/controller/LinkPreviewController.java:16-45 | 400 exactly when there is no url; a failed fetch is a 500 and a successful one always gives a preview; a preview has exactly title, description, image and url, the title falling back from `og:title` to the document title and the description from `og:description` to the `description` tag |
| LinkPreviewController.OpenGraphTitleWins | Backend/src/main/java/com/QueueUp/Backend/controller/LinkPreviewController.java:29-35 | a page whose first matching tag is `og:title` previews with that title, whatever its `<title>` says |
| SpotifyClientFactory.RefreshedUser | Backend/src/main/java/com/QueueUp/Backend/service/SpotifyClientFactory.java:59-74 | only the three token fields change; the access token is the new one; the refresh token is replaced only when a new one came back; a non-negative lifetime leaves the token unexpired now |
| SpotifyClientFactory.RefreshKeepsRefreshToken | Backend/src/main/java/com/QueueUp/Backend/service/SpotifyClientFactory.java:59-74 | a stored refresh token is never lost by a refresh |
| SpotifyClientFactory.GetClientForUser | Backend/src/main/java/com/QueueUp/Backend/service/SpotifyClientFactory.java:38-90 | an unknown user fails, and only then; a token with no expiry or past its expiry is refreshed and the user saved with the new tokens, and the client carries them; otherwise, or when the refresh fails, nothing is saved and the client carries the stored tokens |
| SpotifyClientFactory.RefreshKeepsGraph | Backend/src/main/java/com/QueueUp/Backend/service/SpotifyClientFactory.java:64-76 | saving a refreshed user keeps matches mutual and every like, dislike and match pointing at an existing user |
| UserService.UpdateProfile | Backend/src/main/java/com/QueueUp/Backend/service/UserService.java:24-53 | an unknown id fails with "User not found"; a `data:image` value is uploaded and its URL stored, a failed upload fails; name, bio and age change exactly when their key is present; the account, tokens and social graph stay; a null name or age fails the save (both columns are `nullable = false`); a success has a name and an age; a failure saves nothing |
| UserService.ProfileEditKeepsGraph | Backend/src/main/java/com/QueueUp/Backend/service/UserService.java:46-52 | a profile edit keeps matches mutual and every like, dislike and match pointing at an existing user |
| Axios.TransformFields | Frontend/src/lib/axios.js:24-26 | every value of an object is rewritten with its key and position kept, so the set of keys is unchanged |
| Axios.TransformShape | Frontend/src/lib/axios.js:13-17 | falsy data and every non-object, non-array value come back unchanged; an array keeps its length and is rewritten element by element |
| Axios.TransformObject | Frontend/src/lib/axios.js:18-28 | an object keeps its keys in order and gains `_id` at the end exactly when it had `id` and no `_id`; every value is rewritten |
| Axios.IdCopy | Frontend/src/lib/axios.js:20-22 | a copied `_id` equals the rewritten `id`; an existing `_id` is kept (rewritten) and never overwritten by `id` |
| Axios.LookupTransformed | Frontend/src/lib/axios.js:24-26 | looking a key up in the rewritten object gives the rewritten value |
| Axios.TransformIdempotent | Frontend/src/lib/axios.js:13-29 | rewriting already rewritten data changes nothing |
| SocketClient.ConnectQuery | Frontend/src/socket/socket.client.js:40 | the connection query always starts with `userId=` |
| SocketClient.ConnectQueryNamesUser | Frontend/src/socket/socket.client.js:40 | the backend's handshake reads back exactly the id the client connected with |
| SocketClient.AnonymousConnectRejected | Frontend/src/socket/socket.client.js:40 | a connection opened with a null id (`userId=null`) is one the backend cannot register |
| SocketClient.SetField | Frontend/src/socket/socket.client.js:70 | after `obj[key] = value` the key holds the value; an existing key keeps its place and a new key goes last |
| SocketClient.SetFieldKeepsOthers | Frontend/src/socket/socket.client.js:70 | setting one key leaves every other key's value unchanged |
| SocketClient.Normalize | Frontend/src/socket/socket.client.js:69-71 | an object payload with a truthy `id` and a falsy or missing `_id` gets `_id` equal to `id`, every other key unchanged |
| SocketClient.NormalizeStable | Frontend/src/socket/socket.client.js:69-71 | a payload with a truthy `_id` is untouched, and normalising twice is normalising once |
| SocketClient.Dispatch | Frontend/src/socket/socket.client.js:62-79 | an unparseable frame calls nothing; otherwise exactly the listeners registered for its type are called, in registration order, each with the normalised payload |
| SocketClient.Initialized | Frontend/src/socket/socket.client.js:20-40 | listeners and calls are kept; a truthy id replaces the stored id; at most one new connection is opened |
| SocketClient.Disconnected | Frontend/src/socket/socket.client.js:116-125 | the id is forgotten and the socket dropped; no timer is added; listeners and connections made are kept |
| SocketClient.Subscribed | Frontend/src/socket/socket.client.js:83-101 | with a socket, the callback is last among the listeners for its name; without one, nothing changes |
| SocketClient.Unsubscribed | Frontend/src/socket/socket.client.js:103-105 | with a socket, no listener is left for the name; other names keep their listeners |
| SocketClient.Client.constructor | Frontend/src/socket/socket.client.js:15-18 | no socket, no id, no timer, no listener, nothing sent or called |
| SocketClient.Client.InitializeSocket | Frontend/src/socket/socket.client.js:20-80 | a truthy id replaces the stored one; an open or connecting socket is kept with nothing else changed; otherwise the kept timer is cleared and a new connection is opened with the stored id |
| SocketClient.Client.OnOpen | Frontend/src/socket/socket.client.js:42-44 | a connecting socket becomes open; nothing else changes |
| SocketClient.Client.OnClose | Frontend/src/socket/socket.client.js:46-55 | the close event of the current connection closes the socket, while a late close event of a replaced connection leaves the socket as it is; a reconnect timer is scheduled exactly when a user id is stored, replacing the kept handle |
| SocketClient.Client.TimerFires | Frontend/src/socket/socket.client.js:51-53 | the timer is spent and `initializeSocket()` runs with the stored id, reconnecting when the socket is not open or connecting |
| SocketClient.Client.On | Frontend/src/socket/socket.client.js:96-101 | the state becomes the subscription's; with a socket the callback is appended to its name's list |
| SocketClient.Client.Off | Frontend/src/socket/socket.client.js:103-105 | the state becomes the unsubscription's; with a socket every listener for the name goes |
| SocketClient.Client.Receive | Frontend/src/socket/socket.client.js:62-79 | the calls made are exactly the frame's dispatch; nothing else changes |
| SocketClient.Client.FacadeDisconnect | Frontend/src/socket/socket.client.js:107-110 | the socket is dropped but the user id and timers are kept |
| SocketClient.Client.DisconnectSocket | Frontend/src/socket/socket.client.js:116-125 | the id is forgotten, the kept timer cleared and the socket dropped |
| SocketClient.LogoutStopsReconnect | Frontend/src/socket/socket.client.js:116-125 | after `disconnectSocket()` the close event schedules no reconnect |
| SocketClient.DropKeepsReconnect | Frontend/src/socket/socket.client.js:107-110 | after the facade's `disconnect()` the close event still schedules a reconnect |
| SocketClient.LateCloseOpensNothing | Frontend/src/socket/socket.client.js:20-55 | after the facade's `disconnect()` and a new `initializeSocket`, the late close event of the dropped connection leaves the new one connecting, and the reconnect it schedules opens no further connection |
| AuthStore.WithoutUser | Frontend/src/store/useAuthStore.js:83-87 | the list keeps exactly the ids not strictly equal to the one going offline |
| AuthStore.WithoutUserKeepsOthers | Frontend/src/store/useAuthStore.js:85 | a list without that id is left exactly as it was, order included |
| AuthStore.WithoutUserAppend | Frontend/src/store/useAuthStore.js:85 | filtering two lists joined is joining the two filtered lists, so the survivors keep their order |
| AuthStore.WithoutUserIdempotent | Frontend/src/store/useAuthStore.js:83-87 | a second `userOffline` for the same id changes nothing |
| AuthStore.OnlineThenOffline | Frontend/src/store/useAuthStore.js:76-87 | an id that came online and then went offline is no longer listed |
| AuthStore.Store.constructor | Frontend/src/store/useAuthStore.js:10-14 | no user, checking the session, not loading, no one online |
| AuthStore.Store.SignedIn | Frontend/src/store/useAuthStore.js:16-42 | a failed request changes neither the user nor the socket; a reply's `user` becomes the signed-in user and the socket is started with its `_id`; loading ends either way |
| AuthStore.Store.Signup | Frontend/src/store/useAuthStore.js:16-28 | a failed request keeps the user; a reply's `user` becomes the signed-in user; loading ends |
| AuthStore.Store.Login | Frontend/src/store/useAuthStore.js:30-42 | a failed request keeps the user; a reply's `user` becomes the signed-in user; loading ends |
| AuthStore.Store.Logout | Frontend/src/store/useAuthStore.js:44-52 | a failed request changes nothing; a completed one disconnects the socket, and clears the user and the online list only on status 200 |
| AuthStore.Store.CheckAuth | Frontend/src/store/useAuthStore.js:54-64 | a reply carrying a user whose `_id` can be read signs that user in, after the socket was started with its `_id`; any other reply, or a failed request, leaves no one signed in and the socket untouched; the check ends either way |
| AuthStore.Store.SubscribeToOnlineUsers | Frontend/src/store/useAuthStore.js:66-91 | registers the `getOnlineUsers`, `userOnline` and `userOffline` listeners, in that order |
| AuthStore.Store.UnsubscribeFromOnlineUsers | Frontend/src/store/useAuthStore.js:93-102 | removes every listener for the three events |
| AuthStore.Store.OnGetOnlineUsers | Frontend/src/store/useAuthStore.js:71-73 | the online list is replaced wholesale |
| AuthStore.Store.OnUserOnline | Frontend/src/store/useAuthStore.js:76-80 | the id is appended, even when already listed |
| AuthStore.Store.OnUserOffline | Frontend/src/store/useAuthStore.js:83-87 | the online list becomes the list without that id |
| MatchStore.WithoutProfile | Frontend/src/store/useMatchStore.js:43-45 | keeps exactly the profiles whose `_id` is not strictly equal to the swiped user's |
| MatchStore.WithoutProfileKeepsOrder | Frontend/src/store/useMatchStore.js:44 | a list holding no profile with that id is left exactly as it was, order included |
| MatchStore.WithoutProfileAppend | Frontend/src/store/useMatchStore.js:44 | filtering two profile lists joined is joining the two filtered lists, so the survivors keep their order |
| MatchStore.Store.constructor | Frontend/src/store/useMatchStore.js:6-11 | no matches, no profiles, no feedback, nothing loading |
| MatchStore.Store.GetMyMatches | Frontend/src/store/useMatchStore.js:13-24 | the matches become the fetched list, or [] on failure; not loading after; nothing else changes |
| MatchStore.Store.GetUserProfiles | Frontend/src/store/useMatchStore.js:26-37 | the profiles become the fetched list, or [] on failure; not loading after; nothing else changes |
| MatchStore.Store.Swipe | Frontend/src/store/useMatchStore.js:39-71 | the feedback becomes "passed" or "liked" at once and one reset is scheduled; every profile with the user's `_id` leaves the list and the swipe request is sent; a null user changes only the feedback |
| MatchStore.Store.FeedbackResetFires | Frontend/src/store/useMatchStore.js:52 | the feedback is cleared 1.5 s after a swipe; nothing else changes |
| MatchStore.Store.OnNewMatch | Frontend/src/store/useMatchStore.js:79-85 | the payload, whatever its shape, is appended to the matches; nothing else changes |
| MatchStore.Subscribe | Frontend/src/store/useMatchStore.js:74-113 | the listener for `newMatch` or `newUserProfile` is registered |
| MatchStore.Unsubscribe | Frontend/src/store/useMatchStore.js:92-123 | every listener for the event is removed |
| MatchStore.SwipedProfileGone | Frontend/src/store/useMatchStore.js:44 | after a swipe no listed profile carries the swiped (primitive) id |
| MessageStore.Optimistic | Frontend/src/store/useMessageStore.js:16-29 | the optimistic message carries exactly the seven keys in order, a `Date.now()` id, and the preview URLs (default []) |
| MessageStore.Store.constructor | Frontend/src/store/useMessageStore.js:8-11 | no messages, loading, not typing, no hide timer |
| MessageStore.Store.SendMessage | Frontend/src/store/useMessageStore.js:13-41 | with a signed-in user the optimistic message is appended and the body posted; reading `_id` of a missing user throws and nothing is added; loading, typing and timers are unchanged |
| MessageStore.Store.GetMessages | Frontend/src/store/useMessageStore.js:42-53 | typing goes off; the messages become the fetched list, or [] on failure; not loading after |
| MessageStore.Store.OnNewMessage | Frontend/src/store/useMessageStore.js:59-64 | the message is appended and the typing indicator goes off |
| MessageStore.Store.OnTyping | Frontend/src/store/useMessageStore.js:66-78 | typing goes on; the previous hide timer is cleared so exactly one new timer is live and kept |
| MessageStore.Store.HideTimerFires | Frontend/src/store/useMessageStore.js:73-75 | the only live timer is the kept one; when it fires typing goes off and no timer is left; the kept handle, the timer counter, messages, loading and posts are unchanged |
| MessageStore.Subscribe | Frontend/src/store/useMessageStore.js:56-82 | `newMessage` then `typing` listeners are registered on the socket |
| MessageStore.Unsubscribe | Frontend/src/store/useMessageStore.js:84-92 | all `newMessage` and `typing` listeners are removed |
| MessageInput.SchemeEnd | Frontend/src/components/MessageInput.jsx:14 | a match of `https?://` (either case) at a position ends 7 or 8 characters later, inside the text |
| MessageInput.NonSpaceRun | Frontend/src/components/MessageInput.jsx:14 | `[^\s]+` takes the longest run of non-whitespace: every character in it is not whitespace and the next one is |
| MessageInput.MatchEnd | Frontend/src/components/MessageInput.jsx:14 | a match starting at a position ends strictly after it and within the text |
| MessageInput.ScanFindsUrls | Frontend/src/components/MessageInput.jsx:13-14 | every link found from a position on is a well-formed link occurring in the text |
| MessageInput.ExtractedAreUrls | Frontend/src/components/MessageInput.jsx:13-14 | every string `extractUrls` returns is a link (scheme then non-whitespace) that occurs in the text |
| MessageInput.MatchIsUrl | Frontend/src/components/MessageInput.jsx:14 | the text one match covers is a link occurring in the text |
| MessageInput.SingleUrl | Frontend/src/components/MessageInput.jsx:13-14 | a text that is one link yields exactly that link |
| MessageInput.Ext | Frontend/src/components/MessageInput.jsx:97-98 | the extension holds no dot, and a name without a dot has the empty extension |
| MessageInput.ExtAfterLastDot | Frontend/src/components/MessageInput.jsx:98 | the extension of `base.e` is `e` lower-cased, whatever dots `base` holds |
| MessageInput.Category | Frontend/src/components/MessageInput.jsx:99-110 | the category is one of the nine names, and is a media category exactly when the MIME type starts with image/, video/ or audio/ |
| MessageInput.CategoryByExtension | Frontend/src/components/MessageInput.jsx:104-110 | a non-media file is classed by its extension in any case: pdf, word, other for an unknown extension |
| MessageInput.AttachmentUnder | Frontend/src/components/MessageInput.jsx:112-151 | a picked file adds at most one attachment; a media file always adds its data URL with name, extension and category |
| MessageInput.AttachmentAsWritten | Frontend/src/components/MessageInput.jsx:123-147 | the component's reading: any `PUT` answer counts as an upload |
| MessageInput.AttachmentFor | Frontend/src/components/MessageInput.jsx:123-151 | an S3 URL is attached only when the `PUT` answered with a 2xx status |
| MessageInput.RejectedPutStillAttached | Frontend/src/components/MessageInput.jsx:132-147 | a document whose `PUT` returns 403 is attached with its public URL as written, and not attached under the corrected reading |
| MessageInput.Added | Frontend/src/components/MessageInput.jsx:96-153 | under the corrected upload rule (only a 2xx answer attaches an uploaded file, see Findings): the first n picked files add at most n attachments |
| MessageInput.MediaAllAdded | Frontend/src/components/MessageInput.jsx:113-121 | with only media picked, every file adds one attachment |
| MessageInput.RemoveAt | Frontend/src/components/MessageInput.jsx:157-159 | removing a valid index drops exactly that element and keeps the others in order; any other index changes nothing |
| MessageInput.IncludedUrls | Frontend/src/components/MessageInput.jsx:72 | the urls sent are exactly those of included previews |
| MessageInput.AllIncludedUrls | Frontend/src/components/MessageInput.jsx:72 | with every preview included, their urls are sent in preview order |
| MessageInput.FetchedPreviews | Frontend/src/components/MessageInput.jsx:210-221 | only links whose preview fetch succeeded with a truthy preview are kept, each included and carrying that preview |
| MessageInput.Composer.constructor | Frontend/src/components/MessageInput.jsx:17-27 | empty text, no previews, no attachments, no throttle window |
| MessageInput.Composer.OnMessageChanged | Frontend/src/components/MessageInput.jsx:202-223 | the text is replaced and the previews become those fetched for its links, none when it has no link |
| MessageInput.Composer.HandleSendMessage | Frontend/src/components/MessageInput.jsx:57-79 | ignored exactly for blank text without files; refused exactly for more than 10 attachments otherwise; a send hands over the included preview urls and clears text, attachments and previews |
| MessageInput.Composer.HandleFileChange | Frontend/src/components/MessageInput.jsx:81-155 | under the corrected upload rule (see Findings): with no free slot nothing is added; otherwise only the first free-slot-many files are taken, so a list within the limit stays within it |
| MessageInput.Composer.AttachFirst | Frontend/src/components/MessageInput.jsx:94-153 | under the corrected upload rule (see Findings): processing the first `take` files in order appends exactly their attachments and touches no other field |
| MessageInput.Composer.AttachFile | Frontend/src/components/MessageInput.jsx:97-152 | under the corrected upload rule (see Findings): one file appends its attachment (inline data for media, the public URL and key for an upload S3 answered with a 2xx status) or nothing, and touches no other field |
| MessageInput.Composer.AddVoiceNote | Frontend/src/components/MessageInput.jsx:176-192 | a recording is appended as an audio attachment named `voice-<ms>.webm` |
| MessageInput.Composer.RemoveAttachment | Frontend/src/components/MessageInput.jsx:157-159 | the attachment at the index is removed; nothing else changes |
| MessageInput.Composer.ClosePreview | Frontend/src/components/MessageInput.jsx:300-304 | the preview at the index is removed; nothing else changes |
| MessageInput.Composer.HandleTyping | Frontend/src/components/MessageInput.jsx:31-55 | outside a throttle window one notice goes out if the socket is open, and a window starts; inside one nothing is sent |
| MessageInput.Composer.ThrottleEnds | Frontend/src/components/MessageInput.jsx:48-50 | the two-second window ends; nothing else changes |
| MessageInput.TypingBurst | Frontend/src/components/MessageInput.jsx:31-55 | any number of keystrokes inside one window send at most one typing notice, and none when a window was already running |
| FormRules.LastIndexOf | Frontend/src/components/SignUpForm.jsx:28 | the index of the last occurrence of the character, -1 when absent; no later position holds it |
| FormRules.ValidateEmailMatchesPattern | Frontend/src/components/SignUpForm.jsx:26-30 | the check accepts exactly the strings of the form local@domain.tld with the pattern's character classes and a TLD of two or more letters |
| FormRules.PasswordFeedback | Frontend/src/components/SignUpForm.jsx:32-43 | the list is empty exactly for a strong password; each message is present exactly when its rule fails, length first and special character last |
| FormRules.CapFirst | Frontend/src/components/SignUpForm.jsx:133 | capitalising a word keeps its length |
| FormRules.MapCapFirst | Frontend/src/components/SignUpForm.jsx:133 | each word is capitalised in place |
| FormRules.CapitalizeWords | Frontend/src/components/SignUpForm.jsx:130-134 | reference definition: a character is upper-cased exactly when it starts the text or follows a space; length kept |
| FormRules.CapitalizeAfterWord | Frontend/src/components/SignUpForm.jsx:130-134 | capitalising `w x` for a space-free word `w` capitalises `w` and then the rest |
| FormRules.CapitalizeJoin | Frontend/src/components/SignUpForm.jsx:132-134 | joining capitalised words is capitalising the joined words |
| FormRules.FormatNameIsCapitalizeWords | Frontend/src/components/SignUpForm.jsx:130-134 | the split/map/join formatter equals the reference: lower-case, then upper-case every word start |
| FormRules.LowerCapitalizeLower | Frontend/src/components/SignUpForm.jsx:130-131 | lower-casing undoes the capitals the formatter adds |
| FormRules.FormatNameIdempotent | Frontend/src/components/SignUpForm.jsx:129-136 | formatting an already formatted name changes nothing |
| FormRules.FormatNameKeepsSpaces | Frontend/src/components/SignUpForm.jsx:130-134 | formatting keeps the length and the positions of the spaces |
| FormRules.ValidAgeAcceptedBySignup | Frontend/src/components/SignUpForm.jsx:235-245 | an age the form shows as valid parses on the server to the same number, at least 18 |
| SignUpForm.OptionalMember | Frontend/src/components/SignUpForm.jsx:83-84 | `v?.key` is the member of an object and undefined for a missing or non-object value |
| SignUpForm.SpotifyHandOver | Frontend/src/components/SignUpForm.jsx:72-89 | tokens are handed over exactly for an allowed origin and a `spotify` message, and they are its payload |
| SignUpForm.Form.constructor | Frontend/src/components/SignUpForm.jsx:9-22 | empty fields, both checks passing, no picture, no tokens, nothing submitted |
| SignUpForm.Form.OnNameChange | Frontend/src/components/SignUpForm.jsx:129-136 | the formatted text replaces the name; nothing else changes |
| SignUpForm.Form.OnEmailChange | Frontend/src/components/SignUpForm.jsx:158-162 | the address is kept and the error shows exactly for a non-empty address the pattern rejects |
| SignUpForm.Form.OnPasswordChange | Frontend/src/components/SignUpForm.jsx:189-193 | the password is kept and the checklist is empty exactly for a strong password |
| SignUpForm.Form.OnAgeChange | Frontend/src/components/SignUpForm.jsx:235-245 | only all-digit text is taken, then checked against 18..120; other input changes nothing |
| SignUpForm.Form.OnImageChange | Frontend/src/components/SignUpForm.jsx:53-59 | a chosen picture's data URL replaces the image; no file changes nothing |
| SignUpForm.Form.OnSpotifyUrl | Frontend/src/components/SignUpForm.jsx:61-70 | the login URL becomes `res.data.url`; a failed request or unreadable reply adds the toast instead |
| SignUpForm.Form.OnWindowMessage | Frontend/src/components/SignUpForm.jsx:72-89 | tokens change only for an allowed origin and a `spotify` message; other messages change nothing |
| SignUpForm.Form.Submit | Frontend/src/components/SignUpForm.jsx:94-110 | sent exactly when the checklist is empty, with the six fields; otherwise only the toast is added; a sent non-empty password is strong |
| ProfilePage.FieldOr | Frontend/src/pages/ProfilePage.jsx:8-12 | the user's value when it is present and truthy, the fallback otherwise |
| ProfilePage.UpdatePayload | Frontend/src/pages/ProfilePage.jsx:33 | the update object holds exactly name, bio, age and image, in that order, with the given values |
| ProfilePage.Form.constructor | Frontend/src/pages/ProfilePage.jsx:7-12 | each field is the user's truthy value or "" (the picture null); the age check starts passing |
| ProfilePage.Form.OnNameChange | Frontend/src/pages/ProfilePage.jsx:68-77 | the formatted text replaces the name; nothing else changes |
| ProfilePage.Form.OnAgeChange | Frontend/src/pages/ProfilePage.jsx:102-112 | only all-digit text is taken, then checked against 18..120; other input changes nothing |
| ProfilePage.Form.OnBioChange | Frontend/src/pages/ProfilePage.jsx:137 | the text replaces the bio; nothing else changes |
| ProfilePage.Form.OnImageChange | Frontend/src/pages/ProfilePage.jsx:19-29 | a chosen picture's data URL replaces the image; no file changes nothing |
| ProfilePage.Form.Submit | Frontend/src/pages/ProfilePage.jsx:31-34 | the four fields are handed to `updateProfile` as they are, whether or not the age is valid; nothing else changes |
| NamedItems.LoweredName | Frontend/src/pages/ChatPage.jsx:36-40 | `it.name.toLowerCase()` succeeds exactly for an object with a string name, and is empty exactly when the name is |
| NamedItems.Survivors | Frontend/src/pages/ChatPage.jsx:36-40 | keeps exactly the items with a non-empty string name |
| NamedItems.KeepNamed | Frontend/src/pages/ChatPage.jsx:36-40 | the filter succeeds exactly when every item has a string name, and then keeps exactly the named items |
| NamedItems.SurvivorsAppend | Frontend/src/pages/ChatPage.jsx:36-40 | filtering a concatenation concatenates the filtered parts, so order is kept |
| NamedItems.KeepNamedAllNamed | Frontend/src/pages/ChatPage.jsx:36-40 | a list of named items passes unchanged |
| NamedItems.FilterBad | Frontend/src/components/SharedChipsWithModal.jsx:52-55 | a missing list is empty, a non-array throws, an array is filtered item by item |
| ChatPage.MatchIdText | Frontend/src/pages/ChatPage.jsx:73 | a defined id text comes from an object with an `_id` |
| ChatPage.FindMatch | Frontend/src/pages/ChatPage.jsx:73 | the found match is the first in the list whose id text is the route id; none is found exactly when no match has that id text |
| ChatPage.IsOnline | Frontend/src/pages/ChatPage.jsx:76-78 | online exactly when the match with the route id exists and its `_id` is among the online users or it is a bot |
| ChatPage.MatchComesOnline | Frontend/src/pages/ChatPage.jsx:76-78 | once the shown match's id is among the online users, the match shows online |
| ChatPage.MatchGoesOffline | Frontend/src/pages/ChatPage.jsx:76-78 | once the id leaves the online list, a match that is not a bot shows offline |
| ChatPage.LooseEqualsProperties | Frontend/src/pages/ChatPage.jsx:417-419 | `==` on id values is symmetric and holds wherever `===` does |
| ChatPage.IsMe | Frontend/src/pages/ChatPage.jsx:417-419 | with a truthy `senderId` the message is the user's exactly when that id loosely equals the user's `_id` |
| ChatPage.OwnOptimisticMessageIsMine | Frontend/src/pages/ChatPage.jsx:417-419 | the optimistic message the store adds for a send sits on the user's side |
| ChatPage.OthersMessageIsNotMine | Frontend/src/pages/ChatPage.jsx:417-419 | a message whose `senderId` is another user's number sits on the other side |
| ChatPage.LastDigitOfLastTwo | Frontend/src/pages/ChatPage.jsx:578 | the last digit of the last two digits is the last digit |
| ChatPage.OrdinalIsEnglish | Frontend/src/pages/ChatPage.jsx:576-580 | the suffix table lookup equals the English rule for every non-negative number: th for 11-13 past a hundred, else st/nd/rd/th by the last digit |
| ChatPage.DaySuffixes | Frontend/src/pages/ChatPage.jsx:576-580 | for days 1-31: st exactly on 1, 21, 31; nd on 2, 22; rd on 3, 23; th otherwise |
| ChatPage.Pad2 | Frontend/src/pages/ChatPage.jsx:545-548 | a short string is padded on the left with zeros to two characters, a longer one is kept |
| ChatPage.WithoutDashes | Frontend/src/pages/ChatPage.jsx:549-552 | the result holds no dash |
| ChatPage.WithoutDashesAppend | Frontend/src/pages/ChatPage.jsx:549-552 | removing dashes distributes over concatenation |
| ChatPage.WithoutDashesKeeps | Frontend/src/pages/ChatPage.jsx:549-552 | a string without dashes is unchanged |
| ChatPage.DateLink | Frontend/src/pages/ChatPage.jsx:541-554 | the link for a matched date shows the date as written |
| ChatPage.Pad2Value | Frontend/src/pages/ChatPage.jsx:545-548 | padding a one- or two-digit number gives two digits with the same value |
| ChatPage.WithoutDashAround | Frontend/src/pages/ChatPage.jsx:549-552 | removing the dashes of `a-b` joins the two pieces |
| ChatPage.CompactDate | Frontend/src/pages/ChatPage.jsx:541-552 | the compact start is the full year (20yy for a two-digit year), two-digit month and day of the same values, then T09:00 |
| ChatPage.CalendarRangeIsOneInstant | Frontend/src/pages/ChatPage.jsx:549-552 | the `dates` range starts and ends at the same instant |
| ChatPage.NormalizedCategory | Frontend/src/pages/ChatPage.jsx:443-444 | reading the category of null, or a non-string category, throws; otherwise the category is lower-case and never empty, "other" when missing or empty |
| ChatPage.NormalizeAttachment | Frontend/src/pages/ChatPage.jsx:440-445 | fails exactly when the category read fails; otherwise an object whose category is the normalised one |
| ChatPage.NormalizeKeepsOtherFields | Frontend/src/pages/ChatPage.jsx:440-445 | every key but `category` keeps its value |
| ChatPage.NormalizeCategoryCases | Frontend/src/pages/ChatPage.jsx:443-444 | the backend's AUDIO becomes audio and a missing category becomes other |
| ChatPage.NormalizeAll | Frontend/src/pages/ChatPage.jsx:439-446 | succeeds exactly when every attachment normalises, and then normalises each in place |
| ChatPage.Group | Frontend/src/pages/ChatPage.jsx:449-454 | each group holds exactly the attachments on its side of the audio test |
| ChatPage.GroupsPartition | Frontend/src/pages/ChatPage.jsx:449-454 | the audio players and the grid together show every attachment exactly once |
| ChatPage.GroupAppend | Frontend/src/pages/ChatPage.jsx:449-454 | grouping goes item by item, so each group keeps the attachments' order |
| ChatPage.NextIndex | Frontend/src/pages/ChatPage.jsx:221-224 | the next index wraps from the last track to the first |
| ChatPage.PrevIndex | Frontend/src/pages/ChatPage.jsx:216-219 | the previous index wraps from the first track to the last |
| ChatPage.StepsUndo | Frontend/src/pages/ChatPage.jsx:216-224 | stepping back undoes stepping forward and the other way round |
| ChatPage.View.constructor | Frontend/src/pages/ChatPage.jsx:54-57 | first track, forward direction, no attachment open |
| ChatPage.View.NextTrack | Frontend/src/pages/ChatPage.jsx:221-224 | moves to the next track (wrapping) with direction forward; the open attachment is kept |
| ChatPage.View.PrevTrack | Frontend/src/pages/ChatPage.jsx:216-219 | moves to the previous track (wrapping) with direction back; the open attachment is kept |
| ChatPage.View.ViewAttachment | Frontend/src/pages/ChatPage.jsx:81-84 | the attachment opens; the player is untouched |
| ChatPage.View.CloseModal | Frontend/src/pages/ChatPage.jsx:86-88 | the viewer closes; the player is untouched |
| ChatPage.Tracks | Frontend/src/pages/ChatPage.jsx:158 | a missing or null match gives no tracks; for a match object the tracks are its `commonTracks` filtered, each one named |
| ViewAttachmentModal.NonEmpty | Frontend/src/components/ViewAttachmentModal.jsx:98 | keeps exactly the non-empty pieces, in order |
| ViewAttachmentModal.Segments | Frontend/src/components/ViewAttachmentModal.jsx:98 | a path's segments are non-empty and slash-free |
| ViewAttachmentModal.NonEmptyKeeps | Frontend/src/components/ViewAttachmentModal.jsx:98 | pieces that are all non-empty are kept as they are |
| ViewAttachmentModal.CleanPathSegments | Frontend/src/components/ViewAttachmentModal.jsx:98 | a path without empty pieces splits into exactly its pieces, and joining them gives the path back |
| ViewAttachmentModal.ChildIndex | Frontend/src/components/ViewAttachmentModal.jsx:101 | the index of the first child with the name, -1 exactly when no child has it |
| ViewAttachmentModal.Insert | Frontend/src/components/ViewAttachmentModal.jsx:99-111 | walking a path in keeps the node's own name and path |
| ViewAttachmentModal.InsertReaches | Frontend/src/components/ViewAttachmentModal.jsx:99-111 | after a walk its segments lead from the node down through the tree |
| ViewAttachmentModal.InsertKeepsChains | Frontend/src/components/ViewAttachmentModal.jsx:99-111 | a walk keeps every chain already in the tree |
| ViewAttachmentModal.InsertExisting | Frontend/src/components/ViewAttachmentModal.jsx:101-110 | walking a chain already in a tidy tree changes nothing |
| ViewAttachmentModal.InsertTidy | Frontend/src/components/ViewAttachmentModal.jsx:101-110 | a walk keeps child names unique and each node's path the join of the segments leading to it |
| ViewAttachmentModal.InsertKeepsOrder | Frontend/src/components/ViewAttachmentModal.jsx:108 | existing children keep their names and order; new ones are only appended |
| ViewAttachmentModal.Tree | Frontend/src/components/ViewAttachmentModal.jsx:95-114 | the tree's root is "/" with no path |
| ViewAttachmentModal.BuildTree | Frontend/src/components/ViewAttachmentModal.jsx:95-114 | the loop builds the reference tree: rooted at "/", tidy, with every listed path a chain from the root |
| ViewAttachmentModal.TreeReachesAll | Frontend/src/components/ViewAttachmentModal.jsx:97-112 | every listed path is a chain of the tree |
| ViewAttachmentModal.RepeatedPathChangesNothing | Frontend/src/components/ViewAttachmentModal.jsx:97-112 | listing a path twice gives the same tree as listing it once |
| ViewAttachmentModal.TreeTidy | Frontend/src/components/ViewAttachmentModal.jsx:97-112 | the tree has unique child names and every path is the join of its segments |
| ViewAttachmentModal.FileIcon | Frontend/src/components/ViewAttachmentModal.jsx:70-80 | each icon exactly when the extension mentions its family and none of the families before it, in the order image, pdf, doc, xls, ppt, zip; the generic icon exactly when it mentions none of them |
| ViewAttachmentModal.ExpirySeconds | Frontend/src/components/ViewAttachmentModal.jsx:127-141 | 900 seconds exactly for the six Office extensions in any case, 60 otherwise |
| ViewAttachmentModal.DownloadRequest | Frontend/src/components/ViewAttachmentModal.jsx:121-143 | a download link is asked for exactly for an S3 URL with a key, with that key and the lifetime for the extension |
| ViewAttachmentModal.RequestedLifetimeGranted | Frontend/src/components/ViewAttachmentModal.jsx:137-142 | the server accepts either lifetime the viewer asks for |
| ViewAttachmentModal.OfficeFilesGetOfficeIcons | Frontend/src/components/ViewAttachmentModal.jsx:70-80 | a document given the Office lifetime always shows the Word, Excel or PowerPoint icon |
| SharedChips.SliceEnd | Frontend/src/components/SharedChipsWithModal.jsx:57 | `slice(0, limit)` ends at the limit clipped to the list, and counts back from the end for a negative limit |
| SharedChips.Visible | Frontend/src/components/SharedChipsWithModal.jsx:57 | the chips shown inline are a prefix of the filtered list of the slice's length |
| SharedChips.MoreCount | Frontend/src/components/SharedChipsWithModal.jsx:58 | the count is the number of filtered items not shown, and they are exactly the tail |
| SharedChips.MoreCountBeyondLimit | Frontend/src/components/SharedChipsWithModal.jsx:58 | for a non-negative limit the count is the items beyond it, and positive exactly when there are more items than the limit |
| SharedChips.DefaultShowsTwo | Frontend/src/components/SharedChipsWithModal.jsx:33-40 | with no limit given at most two chips are inline |
| SharedChips.VisibleItemsAreNamed | Frontend/src/components/SharedChipsWithModal.jsx:52-58 | every inline chip is an item with a non-empty name, and shown plus counted is the filtered total |
| SharedChips.VariantFor | Frontend/src/components/SharedChipsWithModal.jsx:46-50 | a known colour gives its classes, anything else the gray ones |
| SharedChips.Chips.constructor | Frontend/src/components/SharedChipsWithModal.jsx:41-44 | list closed, player closed, nothing selected |
| SharedChips.Chips.OpenEmbed | Frontend/src/components/SharedChipsWithModal.jsx:60-64 | the player opens on the item, not yet loaded; the list is untouched |
| SharedChips.Chips.CloseEmbed | Frontend/src/components/SharedChipsWithModal.jsx:66-70 | the player closes with nothing selected and nothing loaded |
| SharedChips.Chips.EmbedLoaded | Frontend/src/components/SharedChipsWithModal.jsx:167 | the shown player is marked loaded; nothing else changes |
| SharedChips.Chips.OpenList | Frontend/src/components/SharedChipsWithModal.jsx:90-95 | the full list opens; the player is untouched |
| SharedChips.Chips.CloseList | Frontend/src/components/SharedChipsWithModal.jsx:100-115 | the full list closes; the player is untouched |
| SharedChips.Chips.PickFromList | Frontend/src/components/SharedChipsWithModal.jsx:124-128 | picking closes the list and opens the player on the item |
| SharedChips.OpenThenClose | Frontend/src/components/SharedChipsWithModal.jsx:60-70 | opening an item and closing the player leaves no selection, whatever was open |

## Left out

- Concurrency: the thread safety of `ConcurrentHashMap` is not modelled. The session registry and swipes run one call at a time.
- SocketService.SocketRegistry.Broadcast: visits sessions in ascending user id. A `HashMap` iterates in an unspecified order, so the model fixes one particular order.
- Persistence: JPA repositories and transactions are a map from id to user. `findByIdNotIn` is a filter over that map.
- UserService.UpdateProfile: a failure saves nothing. The fetched entity is never saved on a failing path, so nothing persists.
- AuthService.Signup: does not trigger `CreateDemoUsers`. The source registers it in an `afterCommit` hook run through `CompletableFuture.runAsync` (AuthService.java:145-156); the model has no transactions or threads, so `AuthService.CreateDemoUsers` is a separate operation a caller runs after a successful signup, and a failure in it cannot affect the signup. The 300 ms `Thread.sleep` is not modelled.
- Clock: `LocalDateTime.now`, `System.currentTimeMillis` and JS `Date.now` are integer parameters. ISO timestamps are opaque strings.
- Randomness: `Math.random` and `Collections.shuffle` are parameters. Only the bounds the code guarantees are stated.
- External services are oracles passed in as values:
  - BCrypt hashing and JWT validation (the JWT utility class is not part of this model);
  - Cloudinary, the S3 presigner, the Spotify Web API and token exchange;
  - OpenAI, RandomUser.me and the Jsoup fetch.
- `fetchAndSaveSpotifyData` and the rest of `SpotifyService`, and the controllers that only forward to services, are not part of this model.
- LinkPreviewController.GetMetaTag: matches the attribute value exactly. Jsoup's selector ignores case and surrounding spaces.
- Swipes follow the code where the system's description differs:
  - a repeated right swipe on a user already matched sends `newMatch` again;
  - likes and dislikes are not kept disjoint.
- S3Controller: a `null` name, type or key in the request body is modelled as an absent key.
- JavaScript numbers are exact reals. Integer-like keys are not moved to the front of `Object.keys` order.
- Js.Rem: states only the bounds and sign of JavaScript's `%`, not its exact value for non-integers.
- Undefined object fields are written as `null` in built objects. `Js.IdOf` does not keep a string id.
- List replies from the server are modelled as `seq<Json>`. MatchStore.Store.GetUserProfiles: expects the reply to be a list of profile objects.
- Text case: `toLowerCase`, `toUpperCase` and the regex `/i` flag are modelled on ASCII letters only.
- Text length: a Dafny `char` is a Unicode scalar value, whereas Java's `length()` and JavaScript's `.length` count UTF-16 code units. Outside the Basic Multilingual Plane the model's length is smaller: three emoji have length 3 in the model and 6 in the source.
- AuthService.SignupAcceptsExactly: the 6-character password minimum is counted in scalar values, not UTF-16 units, so a password of three emoji is refused in the model and accepted by the source.
- FormRules.PasswordFeedback: the length requirement is counted in scalar values, not UTF-16 units, so three emoji give the length hint in the model and not in the source.
- AuthService.ParseIntSafelyRejectsText: decimal text is ASCII digits only. Java's `Integer.parseInt` also accepts other Unicode decimal digits ("٢٥" reads as 25), for which the model gives null.
- ChatPage.LooseEqualsProperties: JavaScript's `==` is modelled only in part. Null and undefined equal each other; a non-empty ASCII digit string equals the number it denotes; a boolean equals 1 or 0. Every other coercion compares unequal, although JavaScript gives true for `"-5" == -5`, `" 12" == 12`, `"" == 0`, `"1e1" == 10` and `true == "1"`. `ChatPage.IdText` is undefined for arrays and fractional numbers.
- ChatPage: only the rewrite of one matched date is modelled, not the scan of the whole message text. The e-mail, location and URL rewrites are not modelled either.
- MessageInput.ExtractedAreUrls: states that every result is a well-formed link occurring in the text. It does not state that every link in the text is found.
- Asynchronous races: the order in which concurrent requests, `FileReader` reads and timers finish is fixed to the order of the calls.
- SignUpForm.Form.Submit: submission is not blocked by an invalid e-mail or age or by an empty password, as in the code. The HTML `required`, `maxLength`, `min` and `max` attributes are browser behaviour and are not modelled.
- Rendering: JSX output, toasts, animations, iframes, `ResizeObserver` and `MediaRecorder` are not modelled.
- ViewAttachmentModal: the zip, CSV, text and font loading are not modelled; the icon and the presign request are.
- SharedChips.VariantFor: prototype keys such as `toString` are not looked up. A non-integer `limit` prop is not modelled.
- A crash while rendering a message is modelled as an `Err` result.
- ViewAttachmentModal.Insert: the descent through `node.children` is recursion on tree values. The source mutates shared nodes in place.
- AuthMiddleware.Exchange.DoFilter: follows the corrected rule, so a controller failure behind a valid token is not answered with 401 as the code does (see Findings).
- MessageInput.Added: counts attachments under the corrected upload rule; a non-2xx S3 answer attaches nothing, where the code attaches the URL (see Findings).
- MessageInput.Composer.HandleFileChange: uses the corrected upload rule, as MessageInput.Added does.
- MessageInput.Composer.AttachFirst: uses the corrected upload rule, as MessageInput.Added does.
- MessageInput.Composer.AttachFile: uses the corrected upload rule, as MessageInput.Added does.
- MatchService.NotifyMatch: the wire text of frames is not modelled. The code serialises the `newMatch` card to JSON text (MatchService.java:73) and then serialises the frame holding that text again (SocketService.java:58-62). The client therefore receives the card as a string, and `newMatch` appends that string, not a profile object, to `matches` (useMatchStore.js:79-85). SocketService.Payload.MatchJsonPayload keeps the card's fields and does not show this.
- JSON between the client and the server is not modelled as text. The profile page sends an edited age as a string (ProfilePage.jsx:33), which the server's `(Integer)` cast of `age` rejects; UserService.UpdateProfile states that rejection only for its own input map.

## Findings

| source | as written | input that shows it | evidently intended | confidence | as-written member | corrected member |
|---|---|---|---|---|---|---|
| Backend/src/main/java/com/QueueUp/Backend/middleware/AuthMiddleware.java:51-63 | the forward to the controller sits inside the `try` that guards token validation, so any exception the controller throws is answered with 401 "Not authorized" | a right swipe on an unknown user id, sent with a valid `jwt` cookie | only a failed token check gives 401; a controller failure keeps its own error | not executed | AuthMiddleware.FilterAsWritten | AuthMiddleware.Filter |
| Frontend/src/components/MessageInput.jsx:123-147 | `fetch` resolves on any HTTP status, so an S3 `PUT` that answers 403 still attaches the file's public URL | a PDF file whose presigned `PUT` returns 403 | only a 2xx answer attaches the file; any other answer is reported as a failed upload | not executed | MessageInput.AttachmentAsWritten | MessageInput.AttachmentFor |
