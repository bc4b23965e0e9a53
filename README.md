# Dating backend core in Dafny

This project models the server side of a dating application and proves properties of the model:

- the like / superlike / match state machine over the `matches` table (`likeProfile`, `superLikeProfile`, `getMatches`);
- the candidate ranking of `getPotentialMatches`: hard filters, shared-interest score, sort, limit of 20;
- reading the messages of a match and the conversation list;
- the owner-scoped reads and writes on notifications;
- create-or-update of a profile, the profile lookups, and the location precondition of the nearby search;
- the two Joi request schemas, `validateUser` and `validateProfile`.

The database tables are sequences of rows. A supabase query is a `Filter` over its rows. The final `.single()` returns data only when exactly one row matches (`Seqs.Single`). Mongoose's `findOne` is `Seqs.First`, and an `order(...)` is an insertion sort under a comparator (`Seqs.SortBy`), which is proved to give a sorted permutation.

Each handler that writes to a table is a method of a class that holds the table: `Matches.MatchTable`, `Notifications.NotificationTable` and `Profiles.ProfileTable`. Each method is tied to a function of the old table and the request (`Matches.Express`, `Notifications.MarkRead`, `Notifications.Remove`, `Profiles.Upsert`). The properties the handlers promise are proved as lemmas about those functions, and as the invariant each class keeps:

- the matches table holds at most one record per unordered pair of users;
- the profiles table holds at most one profile per user.

The read-only handlers are plain functions.

Files:

| file | contents |
|---|---|
| `wrappers.dfy` | `Option`, `Result` |
| `seqs.dfy` | query filter, `.single()`, `findOne`, ordered reads |
| `matches.dfy` | match records, the like/superlike decision, `MatchTable` |
| `ranking.dfy` | the potential-matches pipeline |
| `messages.dfy` | messages of a match, conversation list |
| `notifications.dfy` | notifications, `NotificationTable` |
| `profiles.dfy` | profiles, `ProfileTable`, the nearby-search request |
| `validation.dfy` | parsed JSON, the two Joi schemas with their first-error semantics |

Things the code does that a reader might not expect:

- **Matches.** A match record is looked up by the two `.or(...)` filters: "mentions the actor" and "mentions the target". With two distinct users this is "joins the same unordered pair".
  - The first user to express interest is `user1`, and the record is `like` or `superlike` until the other user likes back.
  - The like back promotes that same row to `match`, whatever the two strengths were.
  - A repeated like from `user1` is rejected. The message differs between the two handlers.
  - `match` is terminal.
- **Ranking.** The stored preferences default to an age range of 18 to 99 and a distance of 50 km (`models/profileModel.js:33-36`). The geo stage's cut-off is that distance times 1000, in metres.
  - A `genderPreference` of `'all'` accepts `male`, `female` and `other`. Any other value requires that exact gender.
  - An unset preference is passed as null. It therefore only accepts documents without a gender.
  - A document without an `age` never passes the age filter. `models/profileModel.js` declares neither `age` nor `gender`, so the model keeps both optional.
  - The code has no explicit "location required" check. For a seeker without a usable stored location the geo stage then fails in the database, which the model does not represent. The model's only failure is the 404 for a missing profile.
- **Messages.** Reading a match's messages checks only that the requester is one of the match's users. It does not check that the record's status is `match`.
- **Stored locations.** `createOrUpdateProfile` stores the body's `location` as sent; none of the handlers modelled here calls `validateProfile`. The nearby search reads `latitude` and `longitude` from it, so a location without those keys, such as the GeoJSON point the schema describes, passes the guard and is searched with undefined coordinates (`Profiles.NearbyKeylessLocation`).
- **Profile updates.** An update sends only the fields present in the body. Fields left out keep their stored values (`Profiles.Merge`).
- **Validation.** Joi checks the keys in schema order and refuses unknown keys after them. It stops at the first error, and `string()` refuses the empty string.
  - `ageRange.min` and `ageRange.max` are each checked on their own. Nothing requires min ≤ max (`Validation.InvertedAgeRangeAccepted`).
  - Joi's email check and ISO-date check are parameters, `isEmail` and `isIsoDate`.

## Model

| member | source | states |
|---|---|---|
| Seqs.First | src/server/controllers/matchingController.js:12 | `findOne` returns none exactly when no document matches, and otherwise a document of the collection that matches |
| Matches.LookupFinds | src/server/controllers/matchController.js:12-17 | with at most one record per pair, the lookup returns the record that joins the two users |
| Matches.LookupMisses | src/server/controllers/matchController.js:12-17 | with no record that joins the two users, the lookup returns no data |
| Matches.Express | src/server/controllers/matchController.js:11-46 | the like decision on the table: lookup of the pair's record, then reject, promote or insert; its properties are stated by `NoRecordCreates`, `MatchedRejects`, `RepeatRejects`, `ReciprocalPromotes`, `ExpressPreservesInvariant` and `MatchIsTerminal` |
| Matches.NoRecordCreates | src/server/controllers/matchController.js:37-46 | with no record for the pair, a like or superlike appends one pending record (actor as user1, target as user2, the given strength, a fresh id), changes nothing else and reports Created (201) |
| Matches.MatchedRejects | src/server/controllers/matchController.js:19-22 | when the pair's record is a match, a like or superlike in either direction fails with "Users are already matched" (400) and leaves the table unchanged |
| Matches.RepeatRejects | src/server/controllers/matchController.js:23-25 | the user1 of a pending record who likes again fails with "already liked" (or "already liked or super liked" for a superlike) and leaves the table unchanged |
| Matches.ReciprocalPromotes | src/server/controllers/matchController.js:26-35 | when the target is the user1 of the pending record, that row alone becomes `match` in place (same id and users) and the outcome is Matched |
| Matches.AppendPreservesInvariant | src/server/controllers/matchController.js:39-42 | inserting a record for a pair that has none keeps one record per pair and distinct ids |
| Matches.PromotePreservesInvariant | src/server/controllers/matchController.js:28-32 | changing a status to `match` keeps one record per pair and distinct ids |
| Matches.ExpressPreservesInvariant | src/server/controllers/matchController.js:11-46 | every like or superlike keeps at most one record per unordered pair, no self-pairs, and distinct ids below the next id |
| Matches.MatchIsTerminal | src/server/controllers/matchController.js:19-46 | no like or superlike removes or moves a record or changes its id or users; a status changes only to `match`, and a `match` record never changes |
| Matches.LikeThenLikeBack | src/server/controllers/matchController.js:7-47 | A likes B and then B likes or superlikes A: the first call appends a pending record, the second promotes that same record, and the pair ends with one record, a match |
| Matches.MatchedPairSettled | src/server/controllers/matchController.js:109-121 | once the pair's record is a match, it is the only record that joins the two; `getMatches` of either user lists it exactly once; every further like or superlike between them fails as already matched |
| Matches.RepeatedLikeIsDuplicate | src/server/controllers/matchController.js:23-25 | a second like or superlike by the same user at the same target right after the first is rejected and leaves the table as the first call left it |
| Matches.NonPremiumSuperLikeRefused | src/server/controllers/matchController.js:57-66 | a superlike by a user with no subscription row or the `free` tier fails with 403 before the matches table is read, and leaves it unchanged |
| Matches.SuperLikeStep | src/server/controllers/matchController.js:52-104 | the premium check, then the like decision with strength `superlike`; see `NonPremiumSuperLikeRefused` for the refusal and `Express`'s lemmas for the rest |
| Matches.MatchesOf | src/server/controllers/matchController.js:109-121 | `getMatches` returns exactly the records with status `match` in which the user is either party, each as often as stored |
| Matches.MatchTable.RecordInterest | src/server/controllers/matchController.js:68-103 | the lookup and its three guarded branches give the decision `Express` describes, and the table invariant holds afterwards |
| Matches.MatchTable.LikeProfile | src/server/controllers/matchController.js:7-47 | `likeProfile` replaces the table and reports the outcome as `Express` with strength `like` describes, keeping the invariant and the subscriptions |
| Matches.MatchTable.SuperLikeProfile | src/server/controllers/matchController.js:52-104 | `superLikeProfile` first refuses a non-premium actor, then decides as a like with strength `superlike`, keeping the invariant |
| Ranking.CommonInterests | src/server/controllers/matchingController.js:39-43 | the score is the number of distinct interests both profiles list, at most the size of either set |
| Ranking.CandidatesSound | src/server/controllers/matchingController.js:22-44 | every scored document comes from a document of the geo stage that passes every hard filter, with that document's shared-interest score |
| Ranking.CandidatesComplete | src/server/controllers/matchingController.js:22-44 | every document of the geo stage that passes every hard filter is scored and kept |
| Ranking.PotentialMatches | src/server/controllers/matchingController.js:11-81 | the handler fails with 404 exactly when the user has no profile, and otherwise returns the ranking for that user's profile |
| Ranking.RanksBeforeIsTotalPreorder | src/server/controllers/matchingController.js:45-50 | the sort key (shared interests descending, then distance ascending) is a total preorder |
| Ranking.Rank | src/server/controllers/matchingController.js:45-53 | the filtered, scored documents sorted and cut to 20; see `RankSorted`, `RankBounded`, `RankedAreEligible` and `LeftOutRankNoBetter` |
| Ranking.RankIsPrefixOfSorted | src/server/controllers/matchingController.js:51-53 | the limit keeps a prefix of the sorted documents |
| Ranking.RankedAreEligible | src/server/controllers/matchingController.js:22-37 | every returned document is within the preferred distance in metres, is not the seeker, has an age inside the preferred range (defaults 18 to 99), and has the gender the preference asks for (any of the three for `'all'`); its score is its shared-interest count |
| Ranking.RankSorted | src/server/controllers/matchingController.js:45-50 | the output is ordered by shared interests descending, ties by distance ascending |
| Ranking.RankBounded | src/server/controllers/matchingController.js:51-53 | at most 20 documents, each drawn from the filtered ones no more often than it occurs; all of them when at most 20 passed, exactly 20 when at least 20 passed |
| Ranking.LeftOutRankNoBetter | src/server/controllers/matchingController.js:45-53 | a filtered document cut by the limit ranks no better than any returned one |
| Ranking.NoProfileNoList | src/server/controllers/matchingController.js:12-17 | a user without a profile gets "User profile not found" with 404 |
| Ranking.WorkedExample | src/server/controllers/matchingController.js:22-53 | a concrete seeker and three documents: the one outside the age range is dropped, and the one sharing two interests comes before the nearer one sharing one |
| Messages.LookupById | src/server/controllers/messageController.js:30-34 | with distinct ids, looking a match up by id returns that match |
| Messages.MessagesForMatch | src/server/controllers/messageController.js:22-47 | `getMessagesForMatch`: lookup by id, participant check, ordered thread; see `UnknownMatchFails`, `NonParticipantRefused` and `ParticipantGetsThread` |
| Messages.UnknownMatchFails | src/server/controllers/messageController.js:30-36 | a match id no record has makes the handler fail on the lookup |
| Messages.NonParticipantRefused | src/server/controllers/messageController.js:38-41 | a requester who is neither user of the match gets "Not authorized to view these messages" with 403 |
| Messages.ParticipantGetsThread | src/server/controllers/messageController.js:43-47 | either user of the match gets exactly the messages of that match, each as often as stored, oldest first, whatever the match's status |
| Messages.FormatConversation | src/server/controllers/messageController.js:76-91 | a formatted conversation carries the match id; the other user is one of the two users and not the requester when the requester is one of two distinct users; the last message is absent exactly when there are none, and otherwise it is the content and time of the last embedded message |
| Messages.UserConversations | src/server/controllers/messageController.js:57-94 | one formatted conversation per row of the query, in the query's order |
| Messages.ConversationQueryExact | src/server/controllers/messageController.js:60-71 | the query returns exactly the requester's rows with status `match`, each as often as stored, most recently updated first |
| Messages.OtherUserIsNotRequester | src/server/controllers/messageController.js:77 | when no row names one user twice, no listed conversation's other user is the requester |
| Notifications.ForUser | src/server/controllers/notificationController.js:7-19 | `getUserNotifications`; see `ForUserExact` |
| Notifications.ForUserExact | src/server/controllers/notificationController.js:10-14 | a user's notifications are exactly their rows, each as often as stored, newest first |
| Notifications.MarkReadOnlyTargets | src/server/controllers/notificationController.js:28-32 | marking keeps every row in place and every field but `isRead`; a row is read afterwards exactly when it was read before or has the id and belongs to the requester |
| Notifications.MarkReadIdempotent | src/server/controllers/notificationController.js:28-32 | marking the same notification twice leaves the table as marking it once |
| Notifications.MarkReadNotOwnedUnchanged | src/server/controllers/notificationController.js:28-32 | marking another user's notification, or an id that does not exist, changes nothing |
| Notifications.RemoveOnlyTargets | src/server/controllers/notificationController.js:46-50 | deleting removes exactly the rows with that id owned by the requester; every other row stays as often as stored, and so does every row of another user |
| Notifications.RemoveNotOwnedUnchanged | src/server/controllers/notificationController.js:46-50 | deleting another user's notification, or an id that does not exist, leaves the table exactly as it was |
| Notifications.NotificationTable.MarkNotificationAsRead | src/server/controllers/notificationController.js:24-37 | the table after the call is the marked table, and the reply is "Notification marked as read" whether or not a row matched |
| Notifications.NotificationTable.DeleteNotification | src/server/controllers/notificationController.js:42-55 | the table after the call is the old one without the targeted rows, and the reply is "Notification deleted successfully" whether or not a row matched |
| Profiles.FindsOwnRow | src/server/controllers/profileController.js:10-14 | with one profile per user and distinct ids, looking a profile up by user or by id returns that profile |
| Profiles.UpsertUpdatesExisting | src/server/controllers/profileController.js:17-25 | with a profile for the requester, the call inserts nothing: that row takes every field the body sends and keeps the others, and every other row stays |
| Profiles.UpsertInsertsNew | src/server/controllers/profileController.js:26-34 | without a profile for the requester, the call appends one row owned by the requester that holds the body's fields |
| Profiles.UpsertPreservesInvariant | src/server/controllers/profileController.js:7-37 | create-or-update keeps at most one profile per user and distinct ids below the next id |
| Profiles.UpsertThenGet | src/server/controllers/profileController.js:7-37 | reading the profile back after create-or-update succeeds and gives the requester's row: the merged fields when it existed, exactly the body when it was new |
| Profiles.GetProfile | src/server/controllers/profileController.js:42-55 | succeeds exactly when one row has the requester's user id, and then returns a stored row of that user; otherwise fails with ProfileNotFound and 404 |
| Profiles.MissingProfileNotFound | src/server/controllers/profileController.js:49-52 | with no profile for the user, `getProfile` fails with "Profile not found" and 404 |
| Profiles.GetProfileById | src/server/controllers/profileController.js:60-73 | succeeds exactly when one row has that id, and then returns the stored row with that id; otherwise fails with ProfileNotFound and 404 |
| Profiles.MissingIdNotFound | src/server/controllers/profileController.js:67-70 | with no profile of that id, `getProfileById` fails with "Profile not found" |
| Profiles.GetNearbyProfiles | src/server/controllers/profileController.js:78-103 | the nearby search succeeds exactly when the requester has a profile with a location, fails otherwise with "User location not set" and 400, and always asks for a 50 km radius |
| Profiles.NearbyNeedsLocation | src/server/controllers/profileController.js:85-88 | a requester with no profile, or whose profile has no location, gets the 400 failure |
| Profiles.NearbyUsesStoredLocation | src/server/controllers/profileController.js:90-98 | a stored location gives a search around its `latitude` and `longitude` keys, each undefined when the location lacks it, with radius 50 km |
| Profiles.NearbyKeylessLocation | src/server/controllers/profileController.js:85-98 | a stored location without `latitude` and `longitude` keys (a GeoJSON point, say) passes the guard, and the search is sent with both coordinates undefined |
| Profiles.ProfileTable.CreateOrUpdateProfile | src/server/controllers/profileController.js:7-37 | the table after the call is the upsert of the old one; the next id advances only on an insert; the invariant holds |
| Validation.ValidateUser | src/server/utils/validation.js:3-13 | the first Joi issue of the user schema; see `ValidateUserExact`, `MissingUserFieldRejected`, `ShortPasswordIssue` and `DateOfBirthIssue` |
| Validation.ValidateUserExact | src/server/utils/validation.js:3-13 | `validateUser` accepts a value exactly when it is an object with exactly the five keys: non-empty name and gender, a non-empty email that passes the email check, a password of at least 6 characters, and a dateOfBirth that passes the ISO-date check |
| Validation.MissingUserFieldRejected | src/server/utils/validation.js:4-10 | a value missing any of name, email, password, dateOfBirth or gender is refused |
| Validation.ShortPasswordRejected | src/server/utils/validation.js:7 | a password shorter than 6 characters is refused |
| Validation.ShortPasswordIssue | src/server/utils/validation.js:7 | when name and email pass, a non-empty password shorter than 6 is reported as `string.min` at `password` |
| Validation.DateOfBirthIssue | src/server/utils/validation.js:8 | when name, email and password pass, a `dateOfBirth` the ISO check refuses is reported at `dateOfBirth`, as `date.format` when it is a string and `date.base` otherwise |
| Validation.CoordinatesExact | src/server/utils/validation.js:22 | coordinates are accepted exactly when they are an array of two numbers within the safe integer range |
| Validation.LocationExact | src/server/utils/validation.js:20-23 | a location is accepted exactly when it is an object with just `type` = 'Point' and valid coordinates |
| Validation.AgeRangeExact | src/server/utils/validation.js:25-28 | an age range is accepted exactly when it is an object with only `min` and `max`, and each one present is a number in [18, 99] |
| Validation.PreferencesExact | src/server/utils/validation.js:24-31 | preferences are accepted exactly when they are an object with only the three keys, and each one present holds a valid age range, a distance in [1, 500], or a non-empty string |
| Validation.ValidateProfile | src/server/utils/validation.js:15-35 | the first Joi issue of the profile schema; see `ValidateProfileExact` and the lemmas below it |
| Validation.ValidateProfileExact | src/server/utils/validation.js:15-35 | `validateProfile` accepts a value exactly when it is an object with no key outside the five, each optional, and each present one holds what its schema allows |
| Validation.LongBioRejected | src/server/utils/validation.js:17 | a bio longer than 500 characters is refused |
| Validation.AcceptedPhotos | src/server/utils/validation.js:18 | accepted photos, when present, are an array of one to five non-empty strings |
| Validation.AcceptedLocation | src/server/utils/validation.js:20-23 | an accepted location, when present, has type 'Point' and exactly two numeric coordinates |
| Validation.AcceptedPreferenceBounds | src/server/utils/validation.js:24-31 | accepted age bounds lie in [18, 99] and an accepted distance lies in [1, 500] |
| Validation.InvertedAgeRangeAccepted | src/server/utils/validation.js:25-28 | an age range whose minimum exceeds its maximum is accepted: only each bound is checked on its own |
| Validation.EmptyProfileAccepted | src/server/utils/validation.js:15-35 | an object with none of the optional keys is a valid profile |
| Validation.UnknownProfileKeyRejected | src/server/utils/validation.js:16-32 | a key the profile schema does not name is refused |

## Left out

- Database and network failures: a failed insert, update or query that the handlers rethrow is not modelled. The model's query results are the rows themselves.
- The response payloads of the handlers: the JSON bodies of inserts and updates, the `$project` of the ranking pipeline, and the email join of the conversation query. The model keeps the rows and the fields the logic reads.
- Ranking.PotentialMatches: the `$lookup` and `$unwind` stages after `$limit` (`src/server/controllers/matchingController.js:54-64`) are not modelled. `$unwind` drops every ranked document whose `user` has no `users` document, so the response can be shorter than the list the model returns. `Ranking.Rank`, `Ranking.RankBounded` and `Ranking.PotentialMatches` describe the list before that join: the "exactly 20" of `RankBounded` holds there, not necessarily in the response.
- Ranking.PotentialMatches: ages and age bounds are `int` (`Ranking.Profile.age`, `Ranking.Preferences`), whereas a stored `age` or `ageRange` bound is a Mongoose `Number` and may be fractional.
- Matches.SuperLikeStep: the subscription lookup (`.eq('user_id', …).single()`) is a map from user to tier. The model therefore assumes at most one subscription row per user, with a non-null tier. The source refuses a user with two rows (403), and treats a row whose tier is null as premium; neither case is represented.
- `.single()` with several rows: under the two table invariants the lookups of a like, a superlike and a profile upsert see at most one row.
- Matches.MatchTable.LikeProfile: requires `actor != target`. The handler does not check a self-like, and a self-pair would break the one-record-per-pair invariant.
- Matches.MatchTable.SuperLikeProfile: requires `actor != target`, for the same reason as a like.
- `$geoNear` itself: the distances are an input (`Ranking.Nearby`), so spherical geometry and the 2dsphere index are not modelled. A seeker without a location is not modelled either.
- The order of documents that tie on both sort keys: MongoDB leaves it unspecified. The model sorts them in a fixed but arbitrary order, and every lemma holds for any tie order.
- Ranking.PotentialMatches: the caller `me` stands for `req.user._id`, used for the seeker lookup and the `$ne` self-exclusion. The model assumes it is the `user` of the caller's profile. The `protect` middleware (`src/server/middleware/authMiddleware.js`) sets `req.user` to a row with only `id` and `email`, so as written `_id` is not set.
- `sendMessage` and the `nearby_profiles` and `send_message` database functions: they are foreign calls. The model ends the nearby search at the request it sends (`Profiles.NearbyRequest`).
- Events broadcast after a like or a match, socket handlers, routing, authentication, reports, subscriptions management and logging: they are not part of this model.
- Concurrency: two requests that race between a lookup and the following write are not modelled. Each handler runs atomically.
- Profiles.Upsert: a body field sent explicitly as `null` is treated like an absent one.
- Validation.ValidateUser: whether a string is an email address or an ISO date is a parameter. Joi's own rules for either are not modelled.
- Validation.ValidateProfile: Joi's default conversions are not modelled. These are numeric strings to numbers and JSON text to objects or arrays, so such input is refused here where Joi would convert it.
- Validation.ValidateProfile: an unknown-key issue does not name the key, because an object's keys have no order in the model.
- Validation.ValidateUser: string lengths count characters, whereas JavaScript counts UTF-16 code units, so the two differ outside the Basic Multilingual Plane.
