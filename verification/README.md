# momo backend, modelled in Dafny

momo is an anonymous Q&A board with a message-in-a-bottle exchange. It runs as a Hono
application on Cloudflare Workers, backed by a D1 (SQLite) database. This project models the
backend's core and proves properties of the model:

- the **bottle exchange** (`Bottles`). A user throws a bottle, which starts a thread in status
  `floating`. Another user picks one at random; the picker may release it, and the picker's
  first message turns it `replied`. The table invariants are checked on every handler:
  - I1: picker and picked_at are set iff the bottle is not floating;
  - I2: no one picks their own bottle;
  - I3: no user holds two picked bottles.
- the **12-hour lease sweep** of the cron job (`Scheduler`).
- how that sweep and the question listings **compare timestamps as written** (`Timestamps`, see
  Findings).
- the **input schemas** (`Validators`).
- the **question board** (`Questions`): ask, reply and view authorisation, the anonymous asker
  matched by the digest of their IP, viewer classification, and the inbox filter.
- the **user table** (`UserStore`): the partial-update builder, user creation and the random
  default avatar.
- **sign-in sync and profile update** (`Auth`), including the handle-uniqueness check.
- the **public profile and question listing** (`PublicUsers`): the privacy filter and SQLite's
  LIMIT/OFFSET paging.
- the **upload guards** (`Upload`).
- the **email queue** (`Email`): queueing, the batch of ten, sent/failed transitions and the
  subjects.

Each stateful table is a class. `Exchange`, `Board`, `UserTable` and `Outbox` hold a `map` or
`seq` field per table, and each route handler is one atomic method on that class. Pure logic
is written as functions, with lemmas about it. Foreign calls become parameters:
- the SHA-256 digest is `digest`;
- zod's URL check is `isUrl`;
- `Math.random()` is `roll`;
- the R2 store is `store`;
- mail delivery is `delivered`;
- CURRENT_TIMESTAMP and `Date.now()` are `now`.

Every handler receives the result of its user lookup. `None` stands for the "User not found"
answer, or for an unauthenticated caller where the route allows one.

Three behaviours of the code that are easy to miss, all modelled as written:
- Creating a bottle is refused while the caller holds a picked bottle
  (backend/src/routes/bottles.ts:29-38, `Bottles.Exchange.Create`).
- PUT /profile does not apply the profile schema. It checks only that a new handle is free and
  passes the raw optional fields on to `updateUser` (backend/src/routes/auth.ts:56-78,
  `Auth.Profile`).
- The sign-in callback answers with the user row as inserted. It does not reflect the avatar
  update that follows (backend/src/routes/auth.ts:23-33, `Auth.Callback`).

String lengths in the schemas are JavaScript lengths, counted in UTF-16 code units
(`Validators.Utf16Length`): a character outside the Basic Multilingual Plane, such as an emoji,
counts twice.

## Model

| member | source | states |
|---|---|---|
| Validators.ValidBottleMessage | backend/src/utils/validators.ts:15-18 | a bottle message is valid iff its content has 1 to 500 UTF-16 code units and it has at most 3 URLs, each a URL |
| Validators.ValidQuestion | backend/src/utils/validators.ts:3-8 | a question is valid iff receiverHandle has 1 to 50 UTF-16 code units, content 1 to 500, and there are at most 3 image URLs |
| Validators.ValidAnswer | backend/src/utils/validators.ts:10-13 | an answer is valid iff it has 1 to 500 UTF-16 code units and at most 3 image URLs |
| Validators.ValidQuestionReply | backend/src/routes/questions.ts:21-24 | a question reply is valid iff its content has 1 to 1000 UTF-16 code units and it has at most 3 image URLs |
| Validators.ValidProfileUpdate | backend/src/utils/validators.ts:20-25 | each present field is checked: a handle of 1 to 50 code units from `[A-Za-z0-9_-]`, a name of 1 to 50 code units, a URL, and one of the five avatar types |
| Validators.BottleMessageFitsOtherSchemas | backend/src/utils/validators.ts:10-18 | every valid bottle message is also a valid answer and a valid question reply |
| Validators.HandleLengthBoundary | backend/src/utils/validators.ts:21 | a 50-character handle is accepted and a 51-character one is refused |
| Validators.Utf16Length | backend/src/utils/validators.ts:4-5 | the JavaScript length of a string lies between its number of characters and twice that |
| Validators.BmpLength | backend/src/utils/validators.ts:4-5 | a string of Basic Multilingual Plane characters has one code unit per character |
| Validators.AstralLength | backend/src/utils/validators.ts:4-5 | a string of characters beyond the Basic Multilingual Plane has two code units per character |
| Validators.EmojiCountTwice | backend/src/utils/validators.ts:16 | 300 emoji are refused as a bottle message; 250 are accepted |
| Bottles.HttpStatus | backend/src/routes/bottles.ts:18-178 | each error answers 400 or 404; 404 is exactly "user not found", "no bottles" and "not found or denied" |
| Bottles.ImageRows | backend/src/routes/bottles.ts:57-63 | one image row per URL, in order, each tied to the message |
| Bottles.StatusPartition | backend/src/routes/bottles.ts:96-103 | the floating, picked and replied counts add up to the number of bottles |
| Bottles.PickKeepsWellFormed | backend/src/routes/bottles.ts:118-151 | picking an eligible bottle when holding none keeps I1-I3, and the picker then holds a bottle |
| Bottles.MessageKeepsWellFormed | backend/src/routes/bottles.ts:240-245 | the status change of a message (picked to replied for the picker) keeps I1-I3 |
| Bottles.MessageKeepsThreaded | backend/src/routes/bottles.ts:225-245 | appending a message, with the status change it brings, keeps one thread per bottle, each opened by the bottle's creator |
| Bottles.RecipientIsOtherParty | backend/src/routes/bottles.ts:248-250 | the notified user is the other party, never the sender; a creator writing on an unpicked bottle notifies no one |
| Bottles.Exchange.ActivePick | backend/src/routes/bottles.ts:119-123 | returns a bottle the user holds as picked, and none iff they hold none |
| Bottles.Exchange.SaveImages | backend/src/routes/bottles.ts:232-238 | the loop appends exactly the image rows of the URLs, in order |
| Bottles.Exchange.Create | backend/src/routes/bottles.ts:12-66 | invalid input gives 400, no user gives 404; refused iff the caller holds a picked bottle; otherwise one new floating bottle of the caller with no picker and a one-message thread by the creator, and nothing else changes |
| Bottles.Exchange.Pick | backend/src/routes/bottles.ts:109-157 | a caller already holding a bottle gets that bottle's id; otherwise it succeeds iff some floating bottle of another user exists, and only the chosen one becomes picked by the caller at `now`; threads are untouched |
| Bottles.Exchange.Release | backend/src/routes/bottles.ts:160-190 | succeeds iff the caller holds the bottle as picked; it then floats with picker and picked_at cleared; all else unchanged |
| Bottles.Exchange.Reply | backend/src/routes/bottles.ts:193-266 | allowed iff the caller is creator or picker; appends one message to the end of the thread and its images; the status turns replied iff it was picked and the sender is the picker; notifies the other party, never the sender |
| Bottles.Exchange.View | backend/src/routes/bottles.ts:269-293 | the thread is shown iff the caller is creator or picker |
| Bottles.Exchange.Mine | backend/src/routes/bottles.ts:69-92 | lists exactly the bottles the caller created or picked |
| Bottles.Exchange.Statistics | backend/src/routes/bottles.ts:95-106 | each count is the number of bottles with that status, and floating + picked + replied equals the total, which is the number of bottles |
| Bottles.ReleaseTwice | backend/src/routes/bottles.ts:170-187 | a release succeeds and the identical second one is refused as not found or denied |
| Bottles.ReplyThenRelease | backend/src/routes/bottles.ts:170-245 | after the picker's message the bottle is replied, keeps its picker, and can no longer be released |
| Scheduler.Sweep | backend/src/index.ts:46-58 | keeps every id and creator; changes only picked bottles with picked_at strictly before now − 12 h, and those become floating without picker or picked_at |
| Scheduler.SweepSparesUnpicked | backend/src/index.ts:54 | floating and replied bottles are left as they are |
| Scheduler.LeaseBoundary | backend/src/index.ts:47-54 | a pick exactly 12 h old stays picked; one 12 h and 1 ms old is reclaimed |
| Scheduler.SweepIdempotent | backend/src/index.ts:51-57 | sweeping twice at the same `now` equals sweeping once |
| Scheduler.SweepKeepsWellFormed | backend/src/index.ts:53-54 | the sweep keeps I1-I3 |
| Scheduler.ReleaseExpiredBottles | backend/src/index.ts:46-58 | the loop over the table leaves exactly `Sweep` of the old table, keeps the invariants, and leaves threads and images untouched |
| Timestamps.IsoOrderIsChronological | backend/src/index.ts:47-54 | with both sides in the same ISO format, the text comparison is chronological order |
| Timestamps.SameDayCountsAsExpired | backend/src/index.ts:47-54 | as written, every pick made on the cutoff's calendar day compares as expired |
| Timestamps.EarlyReclaim | backend/src/index.ts:47-54 | a pick at 11:00 counts as expired against a 01:00 cutoff on the same day, though it is after the cutoff |
| Timestamps.ReplyTextSortsBelowSameDayAsk | backend/src/routes/questions.ts:56-146 | as written, a last_reply_at set by a reply sorts below the ISO text of any question asked the same day, whatever the times |
| Timestamps.StaleQuestionListedFirst | backend/src/routes/users.ts:45 | a question asked at 09:00 with no reply is listed above one replied to at 10:00 the same day, though ISO text of the two instants orders them the other way |
| Questions.HashIp | backend/src/routes/questions.ts:12-19 | fails iff the IP or the salt is empty, otherwise digests IP followed by salt |
| Questions.ResolveRoles | backend/src/routes/questions.ts:120-133 | receiver and asker flags by user id; the anonymous-asker flag holds iff there is no user, a stored hash and an IP, and the digest matches; fails only when that digest would need an empty salt |
| Questions.Classify | backend/src/routes/questions.ts:184-186 | `receiver` iff the caller is the receiver, `asker` for the asker or a matching anonymous asker otherwise, else `visitor` |
| Questions.ReplyPermission | backend/src/routes/questions.ts:120-137 | a reply is allowed iff the caller is the receiver, the signed-in asker, or an anonymous caller whose IP digest equals the stored hash |
| Questions.ViewPermission | backend/src/routes/questions.ts:164-186 | the hash fails iff an anonymous caller with an IP meets an IP-hashed question and the salt is empty; otherwise the question is shown iff it is public or the caller is its receiver, its signed-in asker, or an anonymous caller whose IP digest matches; the permission is receiver iff the caller is the receiver, and for an anonymous caller asker iff the digest matches; a private question is never shown to a visitor |
| Questions.RepliesBy | backend/src/routes/questions.ts:87-93 | the count is at most the table size, and positive iff some reply to the question was sent by the user |
| Questions.Board.Ask | backend/src/routes/questions.ts:26-72 | invalid input 400; private and unauthenticated 401; unknown receiver 404; self-question 400; a valid question from a signed-in caller to another existing user is always stored; a signed-in asker is recorded without hash, an anonymous one only with the IP's digest when an IP is present; exactly one question inserted |
| Questions.Board.ReplyTo | backend/src/routes/questions.ts:105-152 | invalid 400, unknown question 404, succeeds iff `ReplyPermission` allows, and a refusal answers with its error (403 for a non-party, 500 for a hash failure); then exactly one reply is appended and only last_reply_at of that question changes |
| Questions.Board.View | backend/src/routes/questions.ts:154-188 | unknown question 404; shown iff `ViewPermission` allows, and a refusal answers with its error (403 or 500); the permission is never visitor on a private question; the replies are `FilterReplies` of the table, that is the question's replies in stored order |
| Questions.Board.Inbox | backend/src/routes/questions.ts:85-97 | exactly the caller's questions, filtered on whether they replied: pending keeps those with no reply of theirs, answered those with one, any other status all |
| Questions.Board.InboxPartition | backend/src/routes/questions.ts:92-93 | pending and answered are disjoint and together make up the whole inbox |
| Questions.FilterReplies | backend/src/routes/questions.ts:178-183 | every element is a stored reply to the question and every stored reply to it is there |
| Questions.FilterRepliesInOrder | backend/src/routes/questions.ts:178-183 | the thread is the subsequence of the table at exactly the positions of the question's replies, so each appears once and in stored order |
| UserStore.UpdatesMerge | backend/src/services/db.ts:48-63 | the SET list writes exactly the defined fields and keeps every other column |
| UserStore.BuildUpdates | backend/src/services/db.ts:45-65 | the built list is empty iff no field is defined, and applying it is the merge of the defined fields |
| UserStore.RandomAvatarType | backend/src/services/db.ts:77-80 | always one of default_1, default_2, default_3 |
| UserStore.UserTable.FindByClerkId | backend/src/services/db.ts:28-34 | returns a row with that clerk id, and none iff there is none |
| UserStore.UserTable.FindByHandle | backend/src/services/db.ts:36-42 | returns a row with that handle, and none iff there is none |
| UserStore.UserTable.CreateUser | backend/src/services/db.ts:8-18 | inserts one fresh row with the clerk id and email, no handle, no avatar URL, a default avatar type, and the name `momo` unless one is given |
| UserStore.UserTable.UpdateUser | backend/src/services/db.ts:44-75 | with no field defined, returns null and writes nothing; otherwise merges the defined fields and updated_at into that row only, and returns it |
| Auth.HttpStatus | backend/src/routes/auth.ts:38-69 | a missing auth context is the only 500 |
| Auth.Trim | backend/src/routes/auth.ts:18 | the result is the infix left once the white space at both ends is cut, and has no white space at its ends |
| Auth.TrimKeepsTrimmed | backend/src/routes/auth.ts:18 | text without white space at its ends is left unchanged |
| Auth.DisplayName | backend/src/routes/auth.ts:16-19 | `momo` unless the provider is Google with a first name; never white space at its ends |
| Auth.FirstNameOnly | backend/src/routes/auth.ts:16-19 | a Google user with a first name and no last name is named by the first name alone |
| Auth.BlankFirstNameGivesEmptyName | backend/src/routes/auth.ts:16-19 | a first name of white space gives an empty name rather than `momo` |
| Auth.NewHandleKeepsUnique | backend/src/routes/auth.ts:66-78 | writing a handle that is unchanged, empty or held by no one keeps non-empty handles unique |
| Auth.AddKeepsUnique | backend/src/routes/auth.ts:13-23 | inserting a user under a new clerk id without handle keeps clerk ids and handles unique |
| Auth.ClerkIdKeptKeepsUnique | backend/src/routes/auth.ts:26-29 | rewriting a row without changing its clerk id keeps clerk ids unique |
| Auth.Callback | backend/src/routes/auth.ts:8-34 | a known clerk id returns its row and writes nothing; otherwise one new row with the derived name, plus a Google avatar only for a Google sign-in with a picture; keeps clerk ids and handles unique |
| Auth.SignUp | backend/src/routes/auth.ts:16-30 | inserts one row under an id not in use, with the given name, no handle and a default avatar type; with a Google picture only that row then takes the picture and avatar type `google` |
| Auth.Me | backend/src/routes/auth.ts:36-49 | 500 iff the auth context is missing, 404 iff no row has the clerk id, otherwise that row |
| Auth.Profile | backend/src/routes/auth.ts:51-81 | 500 with no auth context, 404 for an unknown user; 400 with no write iff a non-empty handle other than the caller's own is held by a row; otherwise the `updateUser` outcome; keeps handles unique |
| Auth.UpdateProfile | backend/src/routes/auth.ts:65-80 | a non-empty new handle held by any row gives 400 with no write; otherwise the `updateUser` outcome; keeps clerk ids and handles unique |
| PublicUsers.PublicHidesPrivateColumns | backend/src/routes/users.ts:14-22 | the public profile depends only on id, handle, name, avatar_url and avatar_type |
| PublicUsers.GetProfile | backend/src/routes/users.ts:9-23 | 404 iff no user has the handle, otherwise that user's public profile |
| PublicUsers.Visible | backend/src/routes/users.ts:35-43 | the listed questions are exactly the owner's, the private ones only for the owner |
| PublicUsers.VisibleInOrder | backend/src/routes/users.ts:35-45 | the listing is the subsequence of the table at exactly the positions of the shown rows, so each appears once and in table order |
| PublicUsers.Window | backend/src/routes/users.ts:45-47 | SQLite LIMIT/OFFSET: a contiguous slice from the clamped offset, of `limit` rows at most, unbounded for a negative limit |
| PublicUsers.ListQuestions | backend/src/routes/users.ts:25-64 | 404 iff the handle is unknown; otherwise the window at offset (page − 1) × limit of the visible questions, with their total, where the owner is the viewer whose clerk id is on the row; an absent page is 1 and an absent limit is 20, giving at most 20 rows |
| PublicUsers.TotalIgnoresPaging | backend/src/routes/users.ts:36-61 | the total does not depend on page or limit |
| PublicUsers.PrivacyOfListing | backend/src/routes/users.ts:33-43 | every listed question is the owner's, and a private one only when the owner is viewing; the owner's total counts all their questions |
| PublicUsers.LowPagesShowFirstPage | backend/src/routes/users.ts:46 | for a limit of 0 or more, page 0 and negative pages show the same rows as page 1 |
| PublicUsers.PagesTile | backend/src/routes/users.ts:45-47 | consecutive pages follow each other without gap or overlap |
| PublicUsers.ListingKeepsOrder | backend/src/routes/users.ts:45 | a table in last_reply_at descending order gives a page in that order |
| Upload.HttpStatus | backend/src/routes/upload.ts:13-33 | a storage failure is the only 500; every guard answers 400 |
| Upload.Upload | backend/src/routes/upload.ts:8-35 | no file, then a type outside the four images, then more than 5 MiB are refused in that order; the store's URL is returned iff the guards pass and the store succeeds |
| Upload.RejectedNeverStored | backend/src/routes/upload.ts:12-29 | the store is never reached for a rejected file |
| Upload.SizeBoundary | backend/src/routes/upload.ts:23 | exactly 5 MiB is accepted, one byte more is refused |
| Email.Subject | backend/src/services/email.ts:41-102 | the fallback subject iff the kind has no template |
| Email.SubjectsDistinct | backend/src/services/email.ts:43-81 | the three templated kinds have distinct subjects |
| Email.PendingBelowExact | backend/src/services/email.ts:109-111 | lists each pending row exactly once, in table order |
| Email.BatchShape | backend/src/services/email.ts:109-111 | the batch has min(10, pending) rows, all pending and distinct, and holds all pending rows when there are at most ten |
| Email.ProcessingDrains | backend/src/services/email.ts:113-132 | no row of the batch stays pending, rows outside it are unchanged, and the pending count drops by the batch size |
| Email.SmallQueueDrains | backend/src/services/email.ts:109-132 | with at most ten pending rows, one run leaves none pending |
| Email.Outbox.Queue | backend/src/services/email.ts:7-18 | appends one pending row with no sent time |
| Email.Outbox.SelectPending | backend/src/services/email.ts:109-111 | the selection loop returns exactly the batch |
| Email.Outbox.ProcessQueue | backend/src/services/email.ts:105-133 | the table after the loop is `Processed`: each batch row is sent with its time when delivered and failed otherwise; a failure does not stop the loop |

## Left out

- Authentication middleware and Clerk: the caller's lookup result (or clerk id) is an input.
- The CORS middleware, `/debug-env` and `/health`: they hold no logic to model.
- GET /stats of the question board and GET /recent: read-only aggregate queries.
- SQL joins that add names and avatars to results, and JSON `null` sent in request bodies
  (treated as absent).
- The `ORDER BY m.created_at` of a bottle thread: a thread is kept in insertion order, which
  agrees except for messages within the same second.
- Uniformity of `ORDER BY RANDOM()`: `Pick` chooses some eligible bottle.
- Concurrency: each handler is one atomic step, so the select-then-update races of pick,
  release and reply are not modelled. So is the scheduled handler running the mail run and the
  sweep side by side.
- `generateId`, SHA-256, zod's URL check, JSON parsing, the mail API, R2 storage and the CDN URL
  are parameters or left opaque. The HTML bodies of the mails are left out; only their
  subjects are modelled.
- Delivery is a parameter. The mail endpoint in the source keeps a literal `{account_id}` placeholder.
- Reply: the model returns the user to notify. The lookup of that user's email and the
  `queueEmail` call it triggers are not linked to `Email.Outbox`.
- Images sent with a question or a question reply are validated but not stored by the source,
  and the model stores nothing for them either.
- Numbers from `parseInt` that are `NaN` (non-numeric page or limit): page and limit are integers.
- `Auth.Trim`: the white-space set is JavaScript's for the Basic Multilingual Plane; no other
  Unicode handling is modelled.
- `UserStore.UserTable.CreateUser`: updated_at of a new row is taken as `now`, the column default
  is not part of this model.
- `Auth.Profile` and `PublicUsers.ListQuestions` require clerk ids to be unique, the invariant
  `Auth.Callback` keeps; with duplicate clerk ids the row the source picks is unspecified.
- `Email`: the batch is the first ten pending rows in table order. SQLite without ORDER BY
  promises no order.
- Scheduler.Sweep: the `Scheduler` module models the intended comparison of instants, the
  corrected half of the Findings row. The text comparison the code makes is modelled in
  `Timestamps`. `picked_at` comes from CURRENT_TIMESTAMP, which has one-second resolution; the
  millisecond boundary of `Scheduler.LeaseBoundary` ignores that truncation.
- Bottles.Exchange.Mine: returns a set of ids, so the `ORDER BY created_at DESC` of /my is not
  modelled.
- Questions.Board.Inbox: returns a set of ids, so the `ORDER BY last_reply_at DESC` of /inbox
  is not modelled.
- PublicUsers.ListingKeepsOrder: the model orders `last_reply_at` by instant, the corrected half
  of the second Findings row. The source stores ISO text when a question is asked and
  CURRENT_TIMESTAMP text when it is replied to, and sorts the mixed text; `Timestamps` models
  that comparison. The same holds for the inbox order.
- Questions.Board.View: replies are kept in insertion order. The source orders them by
  `created_at`, which agrees except for replies within the same second.

## Findings

| source | as written | input that shows it | evidently intended | confidence | as-written member | corrected member |
|---|---|---|---|---|---|---|
| backend/src/index.ts:47-57 | `picked_at` (SQLite CURRENT_TIMESTAMP text `YYYY-MM-DD HH:MM:SS`) is compared as text with the cutoff from `toISOString()` (`YYYY-MM-DDTHH:MM:SS.sssZ`); on the same calendar day the space sorts before `T`, so the comparison ignores the time of day | a bottle picked 2024-01-01 11:00:00 and swept at 2024-01-01 13:00 (cutoff 01:00:00.000Z) compares as expired after two hours | reclaim only picks older than 12 hours, comparing instants | not executed | Timestamps.EarlyReclaim | Timestamps.IsoOrderIsChronological |
| backend/src/routes/questions.ts:146 | a reply sets `last_reply_at` to CURRENT_TIMESTAMP text (`YYYY-MM-DD HH:MM:SS`) while asking stores `toISOString()` text (questions.ts:56-68); `ORDER BY last_reply_at DESC` (users.ts:45, questions.ts:94) compares the two as text, so on one day any unreplied question sorts above any replied one | a question asked at 2024-01-01 09:00 with no reply is listed above one replied to at 10:00 the same day | order by the instant of last activity, both writes in one format | not executed | Timestamps.StaleQuestionListedFirst | Timestamps.IsoOrderIsChronological |
