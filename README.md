# QuickNotes: the note store, user provisioning and the dashboard's list, in Dafny

QuickNotes is a note-taking web application. Users sign in through Clerk, an external identity
provider. The Express/MongoDB server keeps two collections, `User` and `Note`. On the first
request from a Clerk identity it has not seen, it creates the local user "just in time" from the
Clerk profile. The request handlers then list, create and delete the caller's notes, scoped to the
caller's local `_id`. A Clerk webhook, authenticated by svix signature headers, can also create
the local user ahead of time. The React dashboard keeps the list of notes on screen. It puts a
created note at the front, deletes optimistically and rolls back when the server refuses.

The project models:

- `optional.dfy`: `Option` and JavaScript truthiness of a string that may be absent (`!x`).
- `user_model.dfy`: the `User` record and its schema. `clerkId`, `email` and `photo` are
  required, and `clerkId` and `email` are unique. It also holds the Clerk `Profile`, the
  construction `new User({...})` from a profile, and the `findOne({ clerkId })` query.
- `note_model.dfy`: the `Note` record and its schema. It also holds the queries the handlers
  run: find by owner, sort newest first, find by id and delete by id.
- `server.dfy`: the store as a value `Db` (both collections, the next fresh ObjectId and a clock
  standing for `Date.now`) and the invariant `Consistent` that the schema and the handlers keep.
  Each handler is a pure function from the state and the request to the status and the new
  state, and the properties are proved about these functions. The class `Store` holds the same
  state in fields. Its methods perform the handlers step by step, and each is proved to agree
  with its function.
- `dashboard.dfy`: the dashboard's state (`notes`, `newNote`, `isLoading`, `isSubmitting`) as a
  class. Each async handler is split at its `await` into the part before the request and the part
  after it settles. The network's answer is a parameter.
- `scenarios.dfy`: concrete request sequences and what they must yield.

Calls to other systems are parameters. Clerk's `users.getUser` is an `Option<Profile>`, where
`None` means the call threw. svix's `wh.verify` is an `Option<Event>`, where `None` means
verification threw. The outcome of each database write (`save()`, `deleteOne()`) is a `bool`.
A write the schema refuses fails whatever that bool says: a required string that is empty, or a
duplicate `_id`, `clerkId` or `email`. Clerk's JWT middleware is an optional `auth.userId`.
The webhook secret and headers are optional strings. A `:noteId` that is not a well-formed
ObjectId is `None`, because the cast inside `findById` throws.

Two behaviours of the code worth noting:

- The server's `createNote` rejects only absent or empty content (`!content`). It does not trim,
  so `"   "` is stored (`Server.BlankContentAccepted`). Only the dashboard refuses blank drafts.
- When a lost race or a webhook redelivery hits the unique index, nothing retries: the request
  answers 500.

## Model

| member | source | states |
|---|---|---|
| `Optional.Truthy` | quicknotes-app/server/src/controllers/noteController.ts:62 | `!x` on a string that may be missing: truthy exactly when present and non-empty (also the checks at noteController.ts lines 81, 87 and 109 and webhookController.ts lines 11 and 20) |
| `UserModel.HasRequiredFields` | quicknotes-app/server/src/models/userModel.ts:14-17 | the `required` validators: clerkId, email and photo are non-empty |
| `UserModel.Clashes` | quicknotes-app/server/src/models/userModel.ts:14-15 | a duplicate-key error: some stored user shares the _id, clerkId or email |
| `UserModel.Admits` | quicknotes-app/server/src/models/userModel.ts:13-21 | the schema accepts the user: required fields present and no duplicate key |
| `UserModel.UniqueKeys` | quicknotes-app/server/src/models/userModel.ts:14-15 | the unique indexes: no two users share an _id, a clerkId or an email |
| `UserModel.FromProfile` | quicknotes-app/server/src/controllers/noteController.ts:32-39 | a user is built exactly when the profile lists an email address; its clerkId is the profile's id, its email the first address, the optional fields are copied, and createdAt is the creation time |
| `UserModel.FromProfileRequiredFields` | quicknotes-app/server/src/models/userModel.ts:14-17 | a user built from a profile passes the required validators exactly when the profile's id, first email and image URL are non-empty |
| `UserModel.AdmitKeepsUnique` | quicknotes-app/server/src/models/userModel.ts:14-15 | saving a user the schema admits keeps _id, clerkId and email unique across all users |
| `UserModel.FindByClerkId` | quicknotes-app/server/src/controllers/noteController.ts:21 | findOne finds a user exactly when one holds that clerkId, and what it returns is a stored user with that clerkId |
| `UserModel.FindsTheUniqueUser` | quicknotes-app/server/src/controllers/noteController.ts:21 | under the unique index, findOne by clerkId returns the one user that holds it |
| `NoteModel.UniqueIds` | quicknotes-app/server/src/models/noteModel.ts:10-15 | MongoDB's unique `_id` index on notes: no two stored notes share an id |
| `NoteModel.HasRequiredFields` | quicknotes-app/server/src/models/noteModel.ts:12-13 | the `required` validator on content rejects the empty string (userId is always present in the model) |
| `NoteModel.OwnersResolve` | quicknotes-app/server/src/models/noteModel.ts:12 | every note's userId is the local _id of a stored user, as the `ref: 'User'` intends; the handlers keep it because they only save notes for a provisioned user |
| `NoteModel.NewestFirst` | quicknotes-app/server/src/controllers/noteController.ts:69 | the order of `sort({ createdAt: -1 })`: createdAt never increases along the list |
| `NoteModel.OwnedBy` | quicknotes-app/server/src/controllers/noteController.ts:69 | the owner query returns exactly the notes whose userId is the given local id |
| `NoteModel.OwnedByCounts` | quicknotes-app/server/src/controllers/noteController.ts:69 | the owner query keeps each of the owner's notes as often as it is stored, and no other note |
| `NoteModel.InsertByAge` | quicknotes-app/server/src/controllers/noteController.ts:69 | inserting into a newest-first list keeps it newest first and adds exactly that note |
| `NoteModel.SortNewestFirst` | quicknotes-app/server/src/controllers/noteController.ts:69 | the sort on createdAt descending returns a permutation of its input ordered newest first |
| `NoteModel.ListNotes` | quicknotes-app/server/src/controllers/noteController.ts:69 | the listing holds exactly the owner's notes, ordered by createdAt newest first |
| `NoteModel.ListNotesCounts` | quicknotes-app/server/src/controllers/noteController.ts:69 | the listing holds each of the owner's notes as often as it is stored, and no other note |
| `NoteModel.NewestNoteListedFirst` | quicknotes-app/server/src/models/noteModel.ts:14 | a note newer than every other note of its owner heads that owner's listing |
| `NoteModel.FindNote` | quicknotes-app/server/src/controllers/noteController.ts:118 | findById finds a note exactly when one has that id, and returns a stored note with that id |
| `NoteModel.RemoveNote` | quicknotes-app/server/src/controllers/noteController.ts:132 | deleting by id leaves exactly the notes with other ids |
| `NoteModel.RemoveNoteCounts` | quicknotes-app/server/src/controllers/noteController.ts:132 | deleting by id drops every note with that id and keeps every other note as often as before |
| `NoteModel.RemoveAbsentNote` | quicknotes-app/server/src/controllers/noteController.ts:132 | deleting an id no note has changes nothing |
| `NoteModel.RemoveNoteKeepsUniqueIds` | quicknotes-app/server/src/controllers/noteController.ts:132 | deleting by id keeps note ids unique |
| `NoteModel.RemoveNoteRemovesOne` | quicknotes-app/server/src/controllers/noteController.ts:132 | with unique ids, deleting a stored note's id removes exactly one document |
| `NoteModel.MultisetCountOfUniqueId` | quicknotes-app/server/src/models/noteModel.ts:10-15 | with unique ids every stored note occurs exactly once |
| `Server.Consistent` | quicknotes-app/server/src/models/userModel.ts:13-21 | what the two schemas and the handlers keep true of the store: unique user keys, required fields, unique note ids, ids and times older than the next fresh ones, and resolvable note owners |
| `Server.SavedUser` | quicknotes-app/server/src/controllers/webhookController.ts:51-61 | building and saving a user succeeds exactly when the profile has an email, the write goes through and the schema admits the user; the saved document is exactly the user built from the profile (every field copied, the fresh id and the current time); success appends only that user, whose clerkId and email no stored user had, and keeps the store consistent |
| `Server.OwnersResolveGrows` | quicknotes-app/server/src/models/noteModel.ts:12 | adding a user keeps every note's owner reference resolvable |
| `Server.SavedNote` | quicknotes-app/server/src/controllers/noteController.ts:93-98 | saving a note succeeds exactly when the write goes through and content is non-empty; the new note holds the owner's local id and the content, is the only change, and in a consistent store is newer than every stored note and keeps the store consistent |
| `Server.Provision` | quicknotes-app/server/src/controllers/noteController.ts:18-55 | a known clerkId returns the stored user with nothing changed; on a miss a user exists afterwards exactly when the fetch and the save succeed, and then the result is exactly the user and the store the save produces: one user added, with the fetched id and first email; a failure changes nothing; notes are never touched; consistency is kept |
| `Server.ProvisionIdempotent` | quicknotes-app/server/src/controllers/noteController.ts:21-54 | once provisioning has produced a user for a clerkId, asking again returns the same user and creates nothing, whatever the fetch and the save would do |
| `Server.GetNotesReply` | quicknotes-app/server/src/controllers/noteController.ts:60-76 | 401 with no change without auth; 500 when provisioning fails; otherwise 200 whose body is the owner query on the caller's local id sorted newest first, so exactly the caller's notes, each once per stored copy; the Note table never changes |
| `Server.ListingHoldsEachNoteOnce` | quicknotes-app/server/src/controllers/noteController.ts:69-71 | in a consistent store, every note in a 200 listing occurs in it exactly once |
| `Server.CreateNoteReply` | quicknotes-app/server/src/controllers/noteController.ts:79-104 | 401, then 400 for absent or empty content, both with no change and before provisioning; 201 exactly when provisioning and the note save succeed, adding one note with the caller's local id and the content; past the two checks any other outcome is 500; otherwise the Note table is unchanged |
| `Server.BlankContentAccepted` | quicknotes-app/server/src/controllers/noteController.ts:87-89 | content made of blanks is not rejected: it is stored as sent |
| `Server.DeleteNoteReply` | quicknotes-app/server/src/controllers/noteController.ts:107-139 | 401 with no change; 500 if provisioning fails or the id is malformed; 404 if no note has the id; 403 if its owner is someone else; 200 removing exactly that id when the owner matches and the delete goes through; every answer but 200 leaves the Note table unchanged |
| `Server.RemoveKeepsConsistent` | quicknotes-app/server/src/controllers/noteController.ts:132 | deleting notes keeps the store consistent |
| `Server.DeleteOnlyByOwner` | quicknotes-app/server/src/controllers/noteController.ts:121-134 | a note leaves the store only through a 200 to an authenticated caller whose local id owns it and who named its id |
| `Server.ClerkWebhookReply` | quicknotes-app/server/src/controllers/webhookController.ts:7-71 | missing secret throws before anything else; missing svix header answers 400 whatever verification would say; with all headers present, failed verification answers 400 with no change, other event types answer 200 with no change, and user.created answers 200 with exactly the store the user's save produces or 500 with no change when the save fails; only a 200 to user.created writes |
| `Server.WebhookRejectsKnownClerkId` | quicknotes-app/server/src/controllers/webhookController.ts:46-67 | a user.created event for a Clerk id that already has a local user answers 500 and writes nothing |
| `Server.ProvisionFindsWebhookUser` | quicknotes-app/server/src/controllers/noteController.ts:21-24 | after the webhook has saved a user, provisioning for that Clerk id finds it and creates nothing |
| `Server.CreatedNoteListedFirst` | quicknotes-app/server/src/controllers/noteController.ts:69-99 | a note just created heads the creator's next listing |
| `Server.ProvisionUsersOnly` | quicknotes-app/server/src/controllers/noteController.ts:21 | for a clerkId already stored, provisioning returns that user and changes nothing, whatever the notes and counters |
| `Server.Store.constructor` | quicknotes-app/server/src/models/userModel.ts:13-21 | the empty store is consistent |
| `Server.Store.SaveNewUser` | quicknotes-app/server/src/controllers/webhookController.ts:51-61 | the store's new state and result are those of SavedUser, and consistency is kept |
| `Server.Store.GetOrCreateUser` | quicknotes-app/server/src/controllers/noteController.ts:18-55 | the method's result and new state are those of Provision |
| `Server.Store.GetNotes` | quicknotes-app/server/src/controllers/noteController.ts:60-76 | the method's status, body and new state are those of GetNotesReply |
| `Server.Store.SaveNewNote` | quicknotes-app/server/src/controllers/noteController.ts:93-98 | the store's new state and result are those of SavedNote |
| `Server.Store.CreateNote` | quicknotes-app/server/src/controllers/noteController.ts:79-104 | the method's status, body and new state are those of CreateNoteReply |
| `Server.Store.DeleteNote` | quicknotes-app/server/src/controllers/noteController.ts:107-139 | the method's status and new state are those of DeleteNoteReply |
| `Server.Store.HandleClerkWebhook` | quicknotes-app/server/src/controllers/webhookController.ts:7-71 | the method's outcome and new state are those of ClerkWebhookReply |
| `Dashboard.IsJsWhitespace` | quicknotes-app/client/src/pages/DashboardPage.tsx:44 | the characters `trim()` removes: JavaScript white space and line terminators, listed in `JsWhitespace` |
| `Dashboard.TrimStart` | quicknotes-app/client/src/pages/DashboardPage.tsx:44 | drops exactly the leading JavaScript white space |
| `Dashboard.TrimEnd` | quicknotes-app/client/src/pages/DashboardPage.tsx:44 | drops exactly the trailing JavaScript white space |
| `Dashboard.Trim` | quicknotes-app/client/src/pages/DashboardPage.tsx:44 | `trim()` returns the slice of the draft left after dropping white space at both ends; the result neither starts nor ends with white space |
| `Dashboard.TrimDropsBothEnds` | quicknotes-app/client/src/pages/DashboardPage.tsx:44 | trimming the end after the start keeps exactly the slice between the leading and the trailing white space |
| `Dashboard.TrimEmptyIffBlank` | quicknotes-app/client/src/pages/DashboardPage.tsx:44 | the trimmed draft is empty exactly when every character is white space |
| `Dashboard.Without` | quicknotes-app/client/src/pages/DashboardPage.tsx:69 | the filter keeps exactly the notes whose id differs |
| `Dashboard.WithoutDistributes` | quicknotes-app/client/src/pages/DashboardPage.tsx:69 | the filter keeps the order of what it keeps |
| `Dashboard.WithoutAbsentId` | quicknotes-app/client/src/pages/DashboardPage.tsx:69 | deleting an id no shown note has leaves the list as it was |
| `Dashboard.DashboardPage.constructor` | quicknotes-app/client/src/pages/DashboardPage.tsx:19-22 | the page starts with no notes, an empty draft, loading and not submitting |
| `Dashboard.DashboardPage.FetchNotes` | quicknotes-app/client/src/pages/DashboardPage.tsx:25-38 | on success the list becomes the response, on failure it is kept; loading ends either way |
| `Dashboard.DashboardPage.EditDraft` | quicknotes-app/client/src/pages/DashboardPage.tsx:93 | typing replaces the draft and nothing else |
| `Dashboard.DashboardPage.SubmitNote` | quicknotes-app/client/src/pages/DashboardPage.tsx:42-55 | a blank draft sends nothing and changes nothing; otherwise the form is submitting and the untrimmed draft is sent |
| `Dashboard.DashboardPage.SettleCreate` | quicknotes-app/client/src/pages/DashboardPage.tsx:56-64 | on success the list is the created note followed by the previous list and the draft is cleared; on failure both are kept; submitting ends either way |
| `Dashboard.DashboardPage.DeleteOptimistically` | quicknotes-app/client/src/pages/DashboardPage.tsx:67-70 | the snapshot is the list before; the list becomes the list without that id |
| `Dashboard.DashboardPage.SettleDelete` | quicknotes-app/client/src/pages/DashboardPage.tsx:72-81 | on failure the list is exactly the snapshot; on success it is kept |
| `Scenarios.OwnershipScenario` | quicknotes-app/server/src/controllers/noteController.ts:60-139 | A writes "first" then "second" (201, 201); A's listing is "second", "first"; B deleting A's "first" gets 403; A still sees "first" |
| `Scenarios.CreateFirst` | quicknotes-app/server/src/controllers/noteController.ts:79-104 | the first request provisions A and stores "first", answering 201 |
| `Scenarios.CreateSecond` | quicknotes-app/server/src/controllers/noteController.ts:79-104 | the second request finds A and stores "second", answering 201 |
| `Scenarios.ListNewestFirst` | quicknotes-app/server/src/controllers/noteController.ts:60-76 | A's listing is the two notes, newer first |
| `Scenarios.TwoNotesNewestFirst` | quicknotes-app/server/src/controllers/noteController.ts:69 | the listing query orders the two notes newer first |
| `Scenarios.ForeignDeleteForbidden` | quicknotes-app/server/src/controllers/noteController.ts:107-129 | B is provisioned and refused with 403; the notes are untouched |
| `Scenarios.StillListed` | quicknotes-app/server/src/controllers/noteController.ts:60-76 | A still lists "first" after B's refused delete |
| `Scenarios.FailedDeleteRestores` | quicknotes-app/client/src/pages/DashboardPage.tsx:67-81 | an optimistic delete followed by a failure leaves the list exactly as before |
| `Scenarios.DashboardScenario` | quicknotes-app/client/src/pages/DashboardPage.tsx:25-81 | on a fresh page: load, type a non-blank draft and submit (the draft is sent as typed; the new note shows first, the draft clears, submitting ends), then a failed delete shows the list without the note and then restores it in order |

## Left out

- Concurrency: requests are handled one at a time. Two first requests for the same Clerk id, or a
  request and the webhook, cannot interleave between the lookup and the save. The unique index
  still makes the losing save fail, as `Server.WebhookRejectsKnownClerkId` shows for the
  sequential case.
- The dashboard's stale closures: `handleCreateNote` and `handleDeleteNote` capture `notes` at
  render time. Overlapping handlers are not modelled: a create that settles uses the current list.
  A rolled-back delete restores its own snapshot, which is passed explicitly.
- Reads that fail: `findOne`, `find` and `findById` are assumed to succeed. Only writes (`save`,
  `deleteOne`) and the Clerk and svix calls can fail.
- The svix signature scheme (HMAC over id, timestamp and raw body) sits inside the verification
  outcome, which is a parameter.
- Server.ClerkWebhookReply: a secret that `new Webhook(secret)` rejects is not modelled. The
  constructor runs outside the try block (webhookController.ts line 27), so the handler would
  throw there. The model takes any non-empty secret as usable.
- Server.CreateNoteReply: `content` is a string that may be missing. Other JSON values are not
  modelled: `!content` also answers 400 to `0` and `false`, and other non-string values reach
  the save, where Mongoose either casts them (`5` is stored as "5") or fails the cast with a 500
  after the user has been provisioned.
- Clerk's JWT verification (authMiddleware.ts), the Express wiring (index.ts, routes), the database
  connection (config/db.ts), logging, toasts, rendering and the JSON bodies of error replies.
- ObjectId generation and `Date.now`: ids come from a counter and times from a clock. Both advance
  only when a document is saved, so no two documents share a `createdAt`, unlike `Date.now` whose
  millisecond resolution lets two saves tie. Notes with equal `createdAt` would come back from
  `sort({ createdAt: -1 })` in an unspecified order; `Server.CreatedNoteListedFirst` and
  `Scenarios.OwnershipScenario` rely on times being distinct.
- JavaScript `trim` is modelled over the white space and line terminator characters it removes.
  Characters are Unicode scalar values, not UTF-16 code units.
- The old React/Redux client under frontend/ is not part of this model.
