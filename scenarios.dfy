/** Request sequences run against an empty store and a fresh dashboard, and what they must yield. */
module Scenarios {
  import opened Optional
  import U = UserModel
  import N = NoteModel
  import opened Server
  import D = Dashboard

  // Two Clerk users, A and B, and the documents the scenario below creates.
  const ProfileA := U.Profile("a", ["a@x"], None, "p", None, None)
  const ProfileB := U.Profile("b", ["b@x"], None, "p", None, None)
  const UserA := U.User(0, "a", "a@x", None, "p", None, None, 0)
  const UserB := U.User(3, "b", "b@x", None, "p", None, None, 3)
  const First := N.Note(1, 0, "first", 1)
  const Second := N.Note(2, 0, "second", 2)
  const Empty := Db([], [], 0, 0)
  const AfterFirst := Db([UserA], [First], 2, 2)
  const AfterSecond := Db([UserA], [First, Second], 3, 3)
  const AfterForeign := Db([UserA, UserB], [First, Second], 4, 4)

  /**
   * User A writes "first" and then "second"; A's listing shows them newest first. User B
   * then tries to delete A's "first": 403, and the note is still in A's listing.
   */
  lemma OwnershipScenario()
    ensures var c1 := CreateNoteReply(Empty, Some("a"), Some("first"), Some(ProfileA), true, true);
            var c2 := CreateNoteReply(c1.db, Some("a"), Some("second"), Some(ProfileA), true, true);
            var listing := GetNotesReply(c2.db, Some("a"), Some(ProfileA), true);
            var foreign := DeleteNoteReply(listing.db, Some("b"), Some(c1.body.value.id), Some(ProfileB), true, true);
            var after := GetNotesReply(foreign.db, Some("a"), Some(ProfileA), true);
            && c1.status == CREATED && c2.status == CREATED && listing.status == OK
            && |listing.body.value| == 2
            && listing.body.value[0].content == "second" && listing.body.value[1].content == "first"
            && foreign.status == FORBIDDEN
            && c1.body.value in after.body.value
  {
    CreateFirst();
    CreateSecond();
    ListNewestFirst();
    ForeignDeleteForbidden();
    StillListed();
  }

  /** A's first request provisions A and stores "first". */
  lemma CreateFirst()
    ensures CreateNoteReply(Empty, Some("a"), Some("first"), Some(ProfileA), true, true) == Reply(CREATED, Some(First), AfterFirst)
  {
    var db1 := Db([UserA], [], 1, 1);
    assert Empty.users + [UserA] == [UserA];
    assert SavedUser(Empty, ProfileA, true) == Some(Saved(UserA, db1));
    assert db1.notes + [First] == [First];
    assert SavedNote(db1, 0, "first", true) == Some(Saved(First, AfterFirst));
  }

  /** A's second request finds A and stores "second". */
  lemma CreateSecond()
    ensures CreateNoteReply(AfterFirst, Some("a"), Some("second"), Some(ProfileA), true, true) == Reply(CREATED, Some(Second), AfterSecond)
  {
    assert U.FindByClerkId([UserA], "a") == Some(UserA);
    assert AfterFirst.notes + [Second] == [First, Second];
    assert SavedNote(AfterFirst, 0, "second", true) == Some(Saved(Second, AfterSecond));
  }

  /** A's listing holds both notes, the newer one first. */
  lemma ListNewestFirst()
    ensures GetNotesReply(AfterSecond, Some("a"), Some(ProfileA), true) == Reply(OK, Some([Second, First]), AfterSecond)
  {
    assert U.FindByClerkId([UserA], "a") == Some(UserA);
    TwoNotesNewestFirst();
  }

  /** The listing query on the two notes. */
  lemma TwoNotesNewestFirst()
    ensures N.ListNotes([First, Second], 0) == [Second, First]
  {
    var shown := N.ListNotes([First, Second], 0);
    N.ListNotesCounts([First, Second], 0);
    assert multiset(shown) == multiset([First, Second]);
    assert multiset([First, Second]) == multiset{First, Second};
    assert |shown| == 2 by {
      assert |multiset(shown)| == 2;
    }
    N.NewestNoteListedFirst([First, Second], Second);
    assert shown[1] in multiset(shown);
    assert multiset(shown)[Second] == 1;
    assert shown == [shown[0], shown[1]];
  }

  /** B is provisioned, finds A's note, and is refused with the notes untouched. */
  lemma ForeignDeleteForbidden()
    ensures DeleteNoteReply(AfterSecond, Some("b"), Some(First.id), Some(ProfileB), true, true) == Answer(FORBIDDEN, AfterForeign)
  {
    assert U.FindByClerkId([UserA], "b") == None;
    assert !U.Clashes([UserA], UserB);
    assert AfterSecond.users + [UserB] == [UserA, UserB];
    assert SavedUser(AfterSecond, ProfileB, true) == Some(Saved(UserB, AfterForeign));
    assert N.FindNote([First, Second], 1) == Some(First);
  }

  /** A still sees "first" afterwards. */
  lemma StillListed()
    ensures var after := GetNotesReply(AfterForeign, Some("a"), Some(ProfileA), true);
            after.status == OK && First in after.body.value
  {
    assert U.FindByClerkId([UserA, UserB], "a") == Some(UserA);
  }

  /** A failed optimistic delete puts back exactly the list shown before it. */
  method FailedDeleteRestores(page: D.DashboardPage, noteId: string)
    modifies page
    ensures page.notes == old(page.notes)
    ensures page.newNote == old(page.newNote) && page.isSubmitting == old(page.isSubmitting)
  {
    var snapshot := page.DeleteOptimistically(noteId);
    page.SettleDelete(snapshot, false);
  }

  /**
   * On a fresh page: the notes load, a non-blank draft is typed and sent as typed, the created
   * note shows first, then a delete of an older note fails and the list comes back as it was,
   * in its order.
   */
  method DashboardScenario(loaded: seq<D.Note>, typed: string, created: D.Note, doomed: string)
    returns (sent: Option<string>, whileDeleting: seq<D.Note>, shown: seq<D.Note>, draft: string, busy: bool)
    requires D.Trim(typed) != ""
    requires created.id != doomed
    ensures sent == Some(typed)
    ensures whileDeleting == [created] + D.Without(loaded, doomed)
    ensures shown == [created] + loaded
    ensures draft == "" && !busy
  {
    var page := new D.DashboardPage();
    page.FetchNotes(Some(loaded));
    page.EditDraft(typed);
    sent := page.SubmitNote();
    page.SettleCreate(Some(created));
    var snapshot := page.DeleteOptimistically(doomed);
    whileDeleting := page.notes;
    D.WithoutDistributes([created], loaded, doomed);
    assert D.Without([created], doomed) == [created];
    page.SettleDelete(snapshot, false);
    shown, draft, busy := page.notes, page.newNote, page.isSubmitting;
  }
}
