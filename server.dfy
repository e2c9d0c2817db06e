/**
 * The QuickNotes server: just-in-time user provisioning, the three note handlers and the
 * Clerk webhook handler, over the User and Note collections.
 *
 * Each handler is given twice: as a pure function from the store's state and the request to
 * the reply and the new state (where its properties are proved), and as a method of the class
 * Store that performs the same steps on the store's fields and is proved to agree with it.
 *
 * Calls to other systems are parameters: the Clerk profile fetch is an Option<Profile>
 * (None when it throws), svix verification is an Option<Event> (None when it throws), and the
 * outcome of each database write is a bool. A write the schema rejects fails whatever that
 * bool says.
 */
module Server {
  import opened Optional
  import U = UserModel
  import N = NoteModel

  const OK := 200
  const CREATED := 201
  const BAD_REQUEST := 400
  const UNAUTHORIZED := 401
  const FORBIDDEN := 403
  const NOT_FOUND := 404
  const SERVER_ERROR := 500

  /** The two collections, the next fresh ObjectId and the clock that stands for Date.now. */
  datatype Db = Db(users: seq<U.User>, notes: seq<N.Note>, nextId: U.ObjectId, clock: nat)

  /** What the schema and the way documents are created keep true of the store. */
  ghost predicate Consistent(db: Db)
  {
    && U.UniqueKeys(db.users)
    && (forall i | 0 <= i < |db.users| ::
          U.HasRequiredFields(db.users[i]) && db.users[i].id < db.nextId && db.users[i].createdAt < db.clock)
    && N.UniqueIds(db.notes)
    && (forall i | 0 <= i < |db.notes| ::
          N.HasRequiredFields(db.notes[i]) && db.notes[i].id < db.nextId && db.notes[i].createdAt < db.clock)
    && N.OwnersResolve(db.notes, db.users)
  }

  datatype Saved<T> = Saved(doc: T, db: Db)
  datatype Provisioned = Provisioned(user: Option<U.User>, db: Db)
  datatype Reply<B> = Reply(status: int, body: Option<B>, db: Db)
  datatype Answer = Answer(status: int, db: Db)

  /** A verified svix payload: the event type and its data. */
  datatype Event = Event(eventType: string, data: U.Profile)

  /** The webhook handler either throws (before answering) or answers with a status. */
  datatype WebhookReply = Thrown(db: Db) | Replied(status: int, db: Db)

  /** `new User({...})` from a Clerk profile, then `save()`. */
  function SavedUser(db: Db, p: U.Profile, saveOk: bool): (r: Option<Saved<U.User>>)
    ensures r.Some? <==>
              |p.emailAddresses| > 0 && saveOk && U.Admits(db.users, U.FromProfile(p, db.nextId, db.clock).value)
    ensures r.Some? ==> r.value.db.users == db.users + [r.value.doc] && r.value.db.notes == db.notes
    ensures r.Some? ==> r.value.doc.clerkId == p.id && r.value.doc.email == p.emailAddresses[0]
    ensures r.Some? ==> r.value.doc == U.FromProfile(p, db.nextId, db.clock).value
    ensures r.Some? ==> forall u | u in db.users :: u.clerkId != p.id && u.email != p.emailAddresses[0]
    ensures r.Some? && Consistent(db) ==> Consistent(r.value.db)
  {
    match U.FromProfile(p, db.nextId, db.clock)
    case None => None
    case Some(u) =>
      if saveOk && U.Admits(db.users, u) then
        var db' := db.(users := db.users + [u], nextId := db.nextId + 1, clock := db.clock + 1);
        assert Consistent(db) ==> Consistent(db') by {
          if Consistent(db) {
            U.AdmitKeepsUnique(db.users, u);
            OwnersResolveGrows(db.notes, db.users, u);
          }
        }
        Some(Saved(u, db'))
      else None
  }

  /** Adding a user keeps every note's owner reference resolvable. */
  lemma OwnersResolveGrows(notes: seq<N.Note>, users: seq<U.User>, u: U.User)
    requires N.OwnersResolve(notes, users)
    ensures N.OwnersResolve(notes, users + [u])
  {
    var all := users + [u];
    forall i | 0 <= i < |notes| ensures U.HasId(all, notes[i].userId) {
      var j :| 0 <= j < |users| && users[j].id == notes[i].userId;
      assert all[j] == users[j];
    }
  }

  /** `new Note({ userId, content })`, then `save()`. */
  function SavedNote(db: Db, userId: U.ObjectId, content: string, saveOk: bool): (r: Option<Saved<N.Note>>)
    ensures r.Some? <==> saveOk && content != ""
    ensures r.Some? ==> r.value.db.notes == db.notes + [r.value.doc] && r.value.db.users == db.users
    ensures r.Some? ==> r.value.doc.userId == userId && r.value.doc.content == content
    ensures r.Some? ==> forall n | n in db.notes :: n.createdAt < r.value.doc.createdAt || !Consistent(db)
    ensures r.Some? && Consistent(db) && U.HasId(db.users, userId) ==> Consistent(r.value.db)
  {
    var n := N.Note(db.nextId, userId, content, db.clock);
    if saveOk && N.HasRequiredFields(n) then
      var db' := db.(notes := db.notes + [n], nextId := db.nextId + 1, clock := db.clock + 1);
      assert Consistent(db) ==> forall m | m in db.notes :: m.createdAt < n.createdAt by {
        if Consistent(db) { StoredNotesOlder(db); }
      }
      assert Consistent(db) && U.HasId(db.users, userId) ==> Consistent(db') by {
        if Consistent(db) && U.HasId(db.users, userId) { AddNoteKeepsConsistent(db, n); }
      }
      Some(Saved(n, db'))
    else None
  }

  /** Every stored note was created before the clock's current time. */
  lemma StoredNotesOlder(db: Db)
    requires Consistent(db)
    ensures forall m | m in db.notes :: m.createdAt < db.clock
  {
    forall m | m in db.notes ensures m.createdAt < db.clock {
      var i :| 0 <= i < |db.notes| && db.notes[i] == m;
    }
  }

  /** A note with the fresh id and the current time, owned by a stored user, keeps the store consistent. */
  lemma AddNoteKeepsConsistent(db: Db, n: N.Note)
    requires Consistent(db)
    requires n.id == db.nextId && n.createdAt == db.clock && N.HasRequiredFields(n) && U.HasId(db.users, n.userId)
    ensures Consistent(db.(notes := db.notes + [n], nextId := db.nextId + 1, clock := db.clock + 1))
  {
    var notes := db.notes + [n];
    assert forall i | 0 <= i < |db.notes| :: notes[i] == db.notes[i];
    assert notes[|db.notes|] == n;
  }

  /** getOrCreateUser: find the local user by clerkId; on a miss, fetch the Clerk profile and save it. */
  function Provision(db: Db, clerkId: string, fetched: Option<U.Profile>, saveOk: bool): (r: Provisioned)
    ensures r.db.notes == db.notes
    ensures U.FindByClerkId(db.users, clerkId).Some? ==> r == Provisioned(U.FindByClerkId(db.users, clerkId), db)
    ensures U.FindByClerkId(db.users, clerkId).None? ==>
              (r.user.Some? <==> fetched.Some? && SavedUser(db, fetched.value, saveOk).Some?)
    ensures r.user.None? ==> r.db == db
    ensures r.user.Some? ==> r.user.value in r.db.users
    ensures r.db != db ==>
              && U.FindByClerkId(db.users, clerkId).None? && fetched.Some? && r.user.Some?
              && r.db.users == db.users + [r.user.value]
              && r.user.value.clerkId == fetched.value.id
              && r.user.value.email == fetched.value.emailAddresses[0]
    ensures U.FindByClerkId(db.users, clerkId).None? && fetched.Some? && SavedUser(db, fetched.value, saveOk).Some? ==>
              var s := SavedUser(db, fetched.value, saveOk).value;
              r == Provisioned(Some(s.doc), s.db)
    ensures Consistent(db) ==> Consistent(r.db)
  {
    match U.FindByClerkId(db.users, clerkId)
    case Some(u) => Provisioned(Some(u), db)
    case None =>
      if fetched.None? then Provisioned(None, db)
      else
        match SavedUser(db, fetched.value, saveOk)
        case None => Provisioned(None, db)
        case Some(s) =>
          assert s.doc in s.db.users;
          assert |s.db.users| != |db.users|;
          Provisioned(Some(s.doc), s.db)
  }

  /**
   * Provisioning is idempotent: once it has produced a user for clerkId (from a profile that
   * is clerkId's own), asking again returns that user and changes nothing, whatever the
   * profile fetch and the save would do the second time.
   */
  lemma ProvisionIdempotent(db: Db, clerkId: string, fetched: Option<U.Profile>, saveOk: bool,
                            fetched': Option<U.Profile>, saveOk': bool)
    requires Consistent(db)
    requires fetched.Some? ==> fetched.value.id == clerkId
    requires Provision(db, clerkId, fetched, saveOk).user.Some?
    ensures var first := Provision(db, clerkId, fetched, saveOk);
            Provision(first.db, clerkId, fetched', saveOk') == Provisioned(first.user, first.db)
  {
    var first := Provision(db, clerkId, fetched, saveOk);
    if first.db != db {
      assert Consistent(first.db);
      U.FindsTheUniqueUser(first.db.users, first.user.value);
    }
  }

  /** GET /api/notes. */
  function GetNotesReply(db: Db, auth: Option<string>, fetched: Option<U.Profile>, saveOk: bool)
    : (r: Reply<seq<N.Note>>)
    ensures !Truthy(auth) ==> r == Reply(UNAUTHORIZED, None, db)
    ensures r.db.notes == db.notes
    ensures Truthy(auth) ==> r.db == Provision(db, auth.value, fetched, saveOk).db
    ensures Truthy(auth) && Provision(db, auth.value, fetched, saveOk).user.None? ==>
              r.status == SERVER_ERROR && r.body.None?
    ensures Truthy(auth) && Provision(db, auth.value, fetched, saveOk).user.Some? ==>
              var owner := Provision(db, auth.value, fetched, saveOk).user.value.id;
              && r.status == OK && r.body == Some(N.ListNotes(db.notes, owner)) && N.NewestFirst(r.body.value)
              && forall n :: n in r.body.value <==> n in db.notes && n.userId == owner
    ensures Consistent(db) ==> Consistent(r.db)
  {
    if !Truthy(auth) then Reply(UNAUTHORIZED, None, db)
    else
      var p := Provision(db, auth.value, fetched, saveOk);
      match p.user
      case None => Reply(SERVER_ERROR, None, p.db)
      case Some(user) => Reply(OK, Some(N.ListNotes(p.db.notes, user.id)), p.db)
  }

  /** In a consistent store, a 200 listing holds each of the caller's stored notes exactly once. */
  lemma ListingHoldsEachNoteOnce(db: Db, auth: Option<string>, fetched: Option<U.Profile>, saveOk: bool, n: N.Note)
    requires Consistent(db)
    requires GetNotesReply(db, auth, fetched, saveOk).status == OK
    requires n in GetNotesReply(db, auth, fetched, saveOk).body.value
    ensures multiset(GetNotesReply(db, auth, fetched, saveOk).body.value)[n] == 1
  {
    var p := Provision(db, auth.value, fetched, saveOk);
    var owner := p.user.value.id;
    N.ListNotesCounts(db.notes, owner);
    assert n in db.notes && n.userId == owner;
    var i :| 0 <= i < |db.notes| && db.notes[i] == n;
    N.MultisetCountOfUniqueId(db.notes, i);
  }

  /** POST /api/notes. */
  function CreateNoteReply(db: Db, auth: Option<string>, content: Option<string>,
                           fetched: Option<U.Profile>, userSaveOk: bool, noteSaveOk: bool)
    : (r: Reply<N.Note>)
    ensures !Truthy(auth) ==> r == Reply(UNAUTHORIZED, None, db)
    ensures Truthy(auth) && !Truthy(content) ==> r == Reply(BAD_REQUEST, None, db)
    ensures Truthy(auth) && Truthy(content) ==> r.db.users == Provision(db, auth.value, fetched, userSaveOk).db.users
    ensures r.status == CREATED <==>
              Truthy(auth) && Truthy(content) && Provision(db, auth.value, fetched, userSaveOk).user.Some? && noteSaveOk
    ensures r.status == CREATED ==>
              && r.body.Some? && r.db.notes == db.notes + [r.body.value]
              && r.body.value.content == content.value
              && r.body.value.userId == Provision(db, auth.value, fetched, userSaveOk).user.value.id
    ensures r.status != CREATED ==> r.body.None? && r.db.notes == db.notes
    ensures Truthy(auth) && Truthy(content) && r.status != CREATED ==> r.status == SERVER_ERROR
    ensures r.status in {CREATED, BAD_REQUEST, UNAUTHORIZED, SERVER_ERROR}
    ensures Consistent(db) ==> Consistent(r.db)
  {
    if !Truthy(auth) then Reply(UNAUTHORIZED, None, db)
    else if !Truthy(content) then Reply(BAD_REQUEST, None, db)
    else
      var p := Provision(db, auth.value, fetched, userSaveOk);
      match p.user
      case None => Reply(SERVER_ERROR, None, p.db)
      case Some(user) =>
        match SavedNote(p.db, user.id, content.value, noteSaveOk)
        case None => Reply(SERVER_ERROR, None, p.db)
        case Some(s) => Reply(CREATED, Some(s.doc), s.db)
  }

  /**
   * The handler rejects only absent or empty content: a note made of blanks is stored as sent
   * (the dashboard, not the server, refuses blank drafts).
   */
  lemma BlankContentAccepted(db: Db, auth: Option<string>, fetched: Option<U.Profile>,
                             userSaveOk: bool, noteSaveOk: bool)
    requires Truthy(auth) && Provision(db, auth.value, fetched, userSaveOk).user.Some? && noteSaveOk
    ensures var r := CreateNoteReply(db, auth, Some("   "), fetched, userSaveOk, noteSaveOk);
            r.status == CREATED && r.body.value.content == "   "
  {
  }

  /** DELETE /api/notes/:noteId. A noteId that is not a well-formed ObjectId is None. */
  function DeleteNoteReply(db: Db, auth: Option<string>, noteId: Option<U.ObjectId>,
                           fetched: Option<U.Profile>, saveOk: bool, deleteOk: bool)
    : (r: Answer)
    ensures !Truthy(auth) ==> r == Answer(UNAUTHORIZED, db)
    ensures Truthy(auth) ==> r.db.users == Provision(db, auth.value, fetched, saveOk).db.users
    ensures Truthy(auth) && (Provision(db, auth.value, fetched, saveOk).user.None? || noteId.None?) ==>
              r.status == SERVER_ERROR && r.db.notes == db.notes
    ensures Truthy(auth) && Provision(db, auth.value, fetched, saveOk).user.Some? && noteId.Some? ==>
              var owner := Provision(db, auth.value, fetched, saveOk).user.value.id;
              var found := N.FindNote(db.notes, noteId.value);
              && (found.None? ==> r.status == NOT_FOUND && r.db.notes == db.notes)
              && (found.Some? && found.value.userId != owner ==> r.status == FORBIDDEN && r.db.notes == db.notes)
              && (found.Some? && found.value.userId == owner && deleteOk ==>
                    r.status == OK && r.db.notes == N.RemoveNote(db.notes, noteId.value))
              && (found.Some? && found.value.userId == owner && !deleteOk ==>
                    r.status == SERVER_ERROR && r.db.notes == db.notes)
    ensures r.status in {OK, UNAUTHORIZED, FORBIDDEN, NOT_FOUND, SERVER_ERROR}
    ensures Consistent(db) ==> Consistent(r.db)
  {
    if !Truthy(auth) then Answer(UNAUTHORIZED, db)
    else
      var p := Provision(db, auth.value, fetched, saveOk);
      if p.user.None? || noteId.None? then Answer(SERVER_ERROR, p.db)
      else
        match N.FindNote(p.db.notes, noteId.value)
        case None => Answer(NOT_FOUND, p.db)
        case Some(note) =>
          if note.userId != p.user.value.id then Answer(FORBIDDEN, p.db)
          else if !deleteOk then Answer(SERVER_ERROR, p.db)
          else
            var db' := p.db.(notes := N.RemoveNote(p.db.notes, note.id));
            assert Consistent(p.db) ==> Consistent(db') by {
              if Consistent(p.db) { RemoveKeepsConsistent(p.db, note.id); }
            }
            Answer(OK, db')
  }

  /** Deleting notes keeps the store consistent. */
  lemma RemoveKeepsConsistent(db: Db, noteId: U.ObjectId)
    requires Consistent(db)
    ensures Consistent(db.(notes := N.RemoveNote(db.notes, noteId)))
  {
    var rest := N.RemoveNote(db.notes, noteId);
    var db' := db.(notes := rest);
    N.RemoveNoteKeepsUniqueIds(db.notes, noteId);
    forall i | 0 <= i < |rest|
      ensures N.HasRequiredFields(rest[i]) && rest[i].id < db.nextId && rest[i].createdAt < db.clock
      ensures U.HasId(db.users, rest[i].userId)
    {
      assert rest[i] in db.notes;
    }
    assert N.OwnersResolve(rest, db.users);
    assert Consistent(db');
  }

  /** A note leaves the store only through a 200 answered to its owner. */
  lemma DeleteOnlyByOwner(db: Db, auth: Option<string>, noteId: Option<U.ObjectId>,
                          fetched: Option<U.Profile>, saveOk: bool, deleteOk: bool, gone: N.Note)
    requires Consistent(db)
    requires gone in db.notes && gone !in DeleteNoteReply(db, auth, noteId, fetched, saveOk, deleteOk).db.notes
    ensures DeleteNoteReply(db, auth, noteId, fetched, saveOk, deleteOk).status == OK
    ensures Truthy(auth) && noteId == Some(gone.id)
    ensures var p := Provision(db, auth.value, fetched, saveOk);
            p.user.Some? && p.user.value.id == gone.userId
  {
    var r := DeleteNoteReply(db, auth, noteId, fetched, saveOk, deleteOk);
    assert r.db.notes != db.notes;
    var p := Provision(db, auth.value, fetched, saveOk);
    assert p.user.Some? && noteId.Some?;
    var found := N.FindNote(db.notes, noteId.value);
    assert found.Some? && found.value.userId == p.user.value.id && deleteOk;
    assert r.db.notes == N.RemoveNote(db.notes, noteId.value);
    assert gone.id == noteId.value;
    var a :| 0 <= a < |db.notes| && db.notes[a] == gone;
    var b :| 0 <= b < |db.notes| && db.notes[b] == found.value;
    assert db.notes[a].id == db.notes[b].id;
  }

  /** POST /api/webhooks/clerk. */
  function ClerkWebhookReply(db: Db, secret: Option<string>,
                             svixId: Option<string>, svixTimestamp: Option<string>, svixSignature: Option<string>,
                             verified: Option<Event>, saveOk: bool)
    : (r: WebhookReply)
    ensures !Truthy(secret) ==> r == Thrown(db)
    ensures Truthy(secret) && !(Truthy(svixId) && Truthy(svixTimestamp) && Truthy(svixSignature)) ==>
              r == Replied(BAD_REQUEST, db)
    ensures verified.None? ==> r.db == db && r != Replied(OK, db)
    ensures verified.Some? && verified.value.eventType != "user.created" ==> r.db == db && r != Replied(SERVER_ERROR, db)
    ensures r.db.notes == db.notes
    ensures r.db != db ==>
              && r == Replied(OK, r.db) && verified.Some? && verified.value.eventType == "user.created"
              && SavedUser(db, verified.value.data, saveOk).Some?
              && r.db == SavedUser(db, verified.value.data, saveOk).value.db
    ensures Truthy(secret) && Truthy(svixId) && Truthy(svixTimestamp) && Truthy(svixSignature) &&
            verified.Some? && verified.value.eventType == "user.created" ==>
              (r.Replied? && r.status == OK <==> SavedUser(db, verified.value.data, saveOk).Some?)
    ensures Truthy(secret) && Truthy(svixId) && Truthy(svixTimestamp) && Truthy(svixSignature) ==>
              && (verified.None? ==> r == Replied(BAD_REQUEST, db))
              && (verified.Some? && verified.value.eventType != "user.created" ==> r == Replied(OK, db))
              && (verified.Some? && verified.value.eventType == "user.created" ==>
                    r == if SavedUser(db, verified.value.data, saveOk).Some?
                         then Replied(OK, SavedUser(db, verified.value.data, saveOk).value.db)
                         else Replied(SERVER_ERROR, db))
    ensures r.Replied? ==> r.status in {OK, BAD_REQUEST, SERVER_ERROR}
    ensures Consistent(db) ==> Consistent(r.db)
  {
    if !Truthy(secret) then Thrown(db)
    else if !(Truthy(svixId) && Truthy(svixTimestamp) && Truthy(svixSignature)) then Replied(BAD_REQUEST, db)
    else
      match verified
      case None => Replied(BAD_REQUEST, db)
      case Some(evt) =>
        if evt.eventType == "user.created" then
          match SavedUser(db, evt.data, saveOk)
          case None => Replied(SERVER_ERROR, db)
          case Some(s) => Replied(OK, s.db)
        else Replied(OK, db)
  }

  /**
   * The webhook never looks a user up first: a user.created event for a Clerk id that already
   * has a local user (provisioned just in time) is answered 500 and writes nothing, however
   * often it is delivered.
   */
  lemma WebhookRejectsKnownClerkId(db: Db, secret: Option<string>,
                                   svixId: Option<string>, svixTimestamp: Option<string>, svixSignature: Option<string>,
                                   data: U.Profile, saveOk: bool)
    requires Truthy(secret) && Truthy(svixId) && Truthy(svixTimestamp) && Truthy(svixSignature)
    requires U.FindByClerkId(db.users, data.id).Some?
    ensures ClerkWebhookReply(db, secret, svixId, svixTimestamp, svixSignature,
                              Some(Event("user.created", data)), saveOk) == Replied(SERVER_ERROR, db)
  {
    var u := U.FindByClerkId(db.users, data.id).value;
    assert u in db.users && u.clerkId == data.id;
  }

  /**
   * A user written by the webhook is found by the next just-in-time lookup for that Clerk id,
   * so provisioning then creates nothing.
   */
  lemma ProvisionFindsWebhookUser(db: Db, secret: Option<string>,
                                  svixId: Option<string>, svixTimestamp: Option<string>, svixSignature: Option<string>,
                                  data: U.Profile, saveOk: bool, fetched: Option<U.Profile>, saveOk': bool)
    requires Consistent(db)
    requires ClerkWebhookReply(db, secret, svixId, svixTimestamp, svixSignature,
                               Some(Event("user.created", data)), saveOk).db != db
    ensures var db' := ClerkWebhookReply(db, secret, svixId, svixTimestamp, svixSignature,
                                         Some(Event("user.created", data)), saveOk).db;
            var p := Provision(db', data.id, fetched, saveOk');
            p.db == db' && p.user.Some? && p.user.value.clerkId == data.id && p.user.value in db'.users
  {
    var s := SavedUser(db, data, saveOk).value;
    U.FindsTheUniqueUser(s.db.users, s.doc);
  }

  /** A created note heads its owner's next listing. */
  lemma CreatedNoteListedFirst(db: Db, auth: Option<string>, content: Option<string>,
                               fetched: Option<U.Profile>, userSaveOk: bool, noteSaveOk: bool,
                               fetched': Option<U.Profile>, saveOk': bool)
    requires Consistent(db)
    requires fetched.Some? ==> Truthy(auth) && fetched.value.id == auth.value
    requires CreateNoteReply(db, auth, content, fetched, userSaveOk, noteSaveOk).status == CREATED
    ensures var created := CreateNoteReply(db, auth, content, fetched, userSaveOk, noteSaveOk);
            var listed := GetNotesReply(created.db, auth, fetched', saveOk');
            listed.status == OK && listed.body.value != [] && listed.body.value[0] == created.body.value
  {
    var created := CreateNoteReply(db, auth, content, fetched, userSaveOk, noteSaveOk);
    var p := Provision(db, auth.value, fetched, userSaveOk);
    ProvisionIdempotent(db, auth.value, fetched, userSaveOk, fetched', saveOk');
    var n := created.body.value;
    var s := SavedNote(p.db, p.user.value.id, content.value, noteSaveOk).value;
    assert s.db == created.db && s.doc == n;
    assert Provision(created.db, auth.value, fetched', saveOk') == Provisioned(p.user, created.db) by {
      ProvisionUsersOnly(p.db, created.db, auth.value, fetched', saveOk');
    }
    assert forall m | m in created.db.notes && m != n :: m.createdAt < n.createdAt by {
      assert Consistent(p.db);
      forall m | m in created.db.notes && m != n ensures m.createdAt < n.createdAt {
        assert m in p.db.notes;
      }
    }
    N.NewestNoteListedFirst(created.db.notes, n);
  }

  /** Provisioning looks only at the User collection and the counters, not at the notes. */
  lemma ProvisionUsersOnly(db: Db, db': Db, clerkId: string, fetched: Option<U.Profile>, saveOk: bool)
    requires db'.users == db.users
    requires U.FindByClerkId(db.users, clerkId).Some?
    ensures Provision(db', clerkId, fetched, saveOk) == Provisioned(U.FindByClerkId(db.users, clerkId), db')
  {
  }

  /**
   * The shared MongoDB store as the handlers see it: the two collections, updated in place,
   * and the sources of fresh ObjectIds and of Date.now.
   */
  class Store {
    var users: seq<U.User>
    var notes: seq<N.Note>
    var nextId: U.ObjectId
    var clock: nat

    function State(): Db
      reads this
    {
      Db(users, notes, nextId, clock)
    }

    ghost predicate Valid()
      reads this
    {
      Consistent(State())
    }

    constructor ()
      ensures Valid() && State() == Db([], [], 0, 0)
    {
      users, notes, nextId, clock := [], [], 0, 0;
    }

    /** `new User({...})` from a profile, then `save()`. */
    method SaveNewUser(p: U.Profile, saveOk: bool) returns (user: Option<U.User>)
      requires Valid()
      modifies this
      ensures Valid()
      ensures SavedUser(old(State()), p, saveOk).None? ==> user.None? && State() == old(State())
      ensures SavedUser(old(State()), p, saveOk).Some? ==>
                var s := SavedUser(old(State()), p, saveOk).value;
                user == Some(s.doc) && State() == s.db
    {
      var built := U.FromProfile(p, nextId, clock);
      if built.None? {
        return None;
      }
      var u := built.value;
      if !saveOk || !U.Admits(users, u) {
        return None;
      }
      ghost var s := SavedUser(State(), p, saveOk).value;
      users := users + [u];
      nextId := nextId + 1;
      clock := clock + 1;
      user := Some(u);
      assert State() == s.db;
    }

    /** getOrCreateUser. */
    method GetOrCreateUser(clerkId: string, fetched: Option<U.Profile>, saveOk: bool) returns (user: Option<U.User>)
      requires Valid()
      modifies this
      ensures Valid()
      ensures Provisioned(user, State()) == Provision(old(State()), clerkId, fetched, saveOk)
    {
      user := U.FindByClerkId(users, clerkId);
      if user.None? {
        if fetched.None? {
          return None;
        }
        user := SaveNewUser(fetched.value, saveOk);
      }
    }

    /** GET /api/notes. */
    method GetNotes(auth: Option<string>, fetched: Option<U.Profile>, saveOk: bool)
      returns (status: int, body: Option<seq<N.Note>>)
      requires Valid()
      modifies this
      ensures Valid()
      ensures Reply(status, body, State()) == GetNotesReply(old(State()), auth, fetched, saveOk)
    {
      if !Truthy(auth) {
        return UNAUTHORIZED, None;
      }
      var user := GetOrCreateUser(auth.value, fetched, saveOk);
      if user.None? {
        return SERVER_ERROR, None;
      }
      status, body := OK, Some(N.ListNotes(notes, user.value.id));
    }

    /** `new Note({ userId, content })`, then `save()`. */
    method SaveNewNote(userId: U.ObjectId, content: string, saveOk: bool) returns (note: Option<N.Note>)
      requires Valid() && U.HasId(users, userId)
      modifies this
      ensures Valid()
      ensures SavedNote(old(State()), userId, content, saveOk).None? ==> note.None? && State() == old(State())
      ensures SavedNote(old(State()), userId, content, saveOk).Some? ==>
                var s := SavedNote(old(State()), userId, content, saveOk).value;
                note == Some(s.doc) && State() == s.db
    {
      var n := N.Note(nextId, userId, content, clock);
      if !saveOk || !N.HasRequiredFields(n) {
        return None;
      }
      ghost var s := SavedNote(State(), userId, content, saveOk).value;
      notes := notes + [n];
      nextId := nextId + 1;
      clock := clock + 1;
      note := Some(n);
    }

    /** POST /api/notes. */
    method CreateNote(auth: Option<string>, content: Option<string>,
                      fetched: Option<U.Profile>, userSaveOk: bool, noteSaveOk: bool)
      returns (status: int, body: Option<N.Note>)
      requires Valid()
      modifies this
      ensures Valid()
      ensures Reply(status, body, State()) == CreateNoteReply(old(State()), auth, content, fetched, userSaveOk, noteSaveOk)
    {
      if !Truthy(auth) {
        return UNAUTHORIZED, None;
      }
      if !Truthy(content) {
        return BAD_REQUEST, None;
      }
      var user := GetOrCreateUser(auth.value, fetched, userSaveOk);
      if user.None? {
        return SERVER_ERROR, None;
      }
      assert U.HasId(users, user.value.id) by {
        var j :| 0 <= j < |users| && users[j] == user.value;
      }
      body := SaveNewNote(user.value.id, content.value, noteSaveOk);
      status := if body.Some? then CREATED else SERVER_ERROR;
    }

    /** DELETE /api/notes/:noteId; None stands for an id that is not a well-formed ObjectId. */
    method DeleteNote(auth: Option<string>, noteId: Option<U.ObjectId>,
                      fetched: Option<U.Profile>, saveOk: bool, deleteOk: bool)
      returns (status: int)
      requires Valid()
      modifies this
      ensures Valid()
      ensures Answer(status, State()) == DeleteNoteReply(old(State()), auth, noteId, fetched, saveOk, deleteOk)
    {
      if !Truthy(auth) {
        return UNAUTHORIZED;
      }
      ghost var db0 := old(State());
      ghost var reply := DeleteNoteReply(db0, auth, noteId, fetched, saveOk, deleteOk);
      var user := GetOrCreateUser(auth.value, fetched, saveOk);
      ghost var p := Provision(db0, auth.value, fetched, saveOk);
      assert user == p.user && State() == p.db;
      if user.None? || noteId.None? {
        assert reply == Answer(SERVER_ERROR, p.db);
        return SERVER_ERROR;
      }
      var note := N.FindNote(notes, noteId.value);
      if note.None? {
        assert reply == Answer(NOT_FOUND, p.db);
        return NOT_FOUND;
      }
      if note.value.userId != user.value.id {
        assert reply == Answer(FORBIDDEN, p.db);
        return FORBIDDEN;
      }
      if !deleteOk {
        assert reply == Answer(SERVER_ERROR, p.db);
        return SERVER_ERROR;
      }
      RemoveKeepsConsistent(State(), note.value.id);
      notes := N.RemoveNote(notes, note.value.id);
      status := OK;
      assert reply == Answer(OK, State());
    }

    /** POST /api/webhooks/clerk; a missing secret makes it throw, which is `thrown`. */
    method HandleClerkWebhook(secret: Option<string>,
                              svixId: Option<string>, svixTimestamp: Option<string>, svixSignature: Option<string>,
                              verified: Option<Event>, saveOk: bool)
      returns (thrown: bool, status: int)
      requires Valid()
      modifies this
      ensures Valid()
      ensures (if thrown then Thrown(State()) else Replied(status, State())) ==
              ClerkWebhookReply(old(State()), secret, svixId, svixTimestamp, svixSignature, verified, saveOk)
    {
      if !Truthy(secret) {
        return true, 0;
      }
      if !Truthy(svixId) || !Truthy(svixTimestamp) || !Truthy(svixSignature) {
        return false, BAD_REQUEST;
      }
      if verified.None? {
        return false, BAD_REQUEST;
      }
      var evt := verified.value;
      if evt.eventType == "user.created" {
        var user := SaveNewUser(evt.data, saveOk);
        if user.None? {
          return false, SERVER_ERROR;
        }
      }
      thrown, status := false, OK;
    }
  }
}
