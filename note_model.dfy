/**
 * The Note collection and the queries the note handlers run on it.
 * Schema: userId (the owner's local _id, not the Clerk id) and content are required;
 * createdAt defaults to the time of creation.
 */
module NoteModel {
  import opened Optional
  import UserModel

  datatype Note = Note(id: UserModel.ObjectId, userId: UserModel.ObjectId, content: string, createdAt: nat)

  /** The `required` validator on content rejects an empty string. */
  predicate HasRequiredFields(n: Note)
  {
    n.content != ""
  }

  /** The unique index on _id. */
  ghost predicate UniqueIds(notes: seq<Note>)
  {
    forall i, j | 0 <= i < j < |notes| :: notes[i].id != notes[j].id
  }

  /** Every note's userId refers to a stored user's local _id. */
  ghost predicate OwnersResolve(notes: seq<Note>, users: seq<UserModel.User>)
  {
    forall i | 0 <= i < |notes| :: UserModel.HasId(users, notes[i].userId)
  }

  /** Ordered by createdAt, newest first (`sort({ createdAt: -1 })`). */
  ghost predicate NewestFirst(notes: seq<Note>)
  {
    forall i, j | 0 <= i < j < |notes| :: notes[i].createdAt >= notes[j].createdAt
  }

  /** `Note.find({ userId })`: the notes of one owner. */
  function OwnedBy(notes: seq<Note>, userId: UserModel.ObjectId): (r: seq<Note>)
    ensures forall n :: n in r <==> n in notes && n.userId == userId
  {
    if notes == [] then []
    else
      var rest := OwnedBy(notes[1..], userId);
      assert notes == [notes[0]] + notes[1..];
      if notes[0].userId == userId then [notes[0]] + rest else rest
  }

  /** The owner query keeps each of the owner's notes as often as it is stored, and no other. */
  lemma {:induction false} OwnedByCounts(notes: seq<Note>, userId: UserModel.ObjectId)
    ensures forall n :: multiset(OwnedBy(notes, userId))[n] == if n.userId == userId then multiset(notes)[n] else 0
  {
    if notes != [] {
      OwnedByCounts(notes[1..], userId);
      assert notes == [notes[0]] + notes[1..];
    }
  }

  /** Places n into a list that is already newest first. */
  function InsertByAge(n: Note, sorted: seq<Note>): (r: seq<Note>)
    requires NewestFirst(sorted)
    ensures NewestFirst(r)
    ensures multiset(r) == multiset(sorted) + multiset{n}
  {
    if sorted == [] || sorted[0].createdAt <= n.createdAt then
      HeadIsNewest(sorted);
      PrependKeepsNewestFirst(n, sorted);
      [n] + sorted
    else
      var rest := InsertByAge(n, sorted[1..]);
      InsertBelowHead(n, sorted, rest);
      [sorted[0]] + rest
  }

  /** n, older than the head of a newest-first list, inserted into the tail: the head stays in front. */
  lemma InsertBelowHead(n: Note, sorted: seq<Note>, rest: seq<Note>)
    requires NewestFirst(sorted) && sorted != [] && n.createdAt < sorted[0].createdAt
    requires NewestFirst(rest) && multiset(rest) == multiset(sorted[1..]) + multiset{n}
    ensures NewestFirst([sorted[0]] + rest)
    ensures multiset([sorted[0]] + rest) == multiset(sorted) + multiset{n}
  {
    assert sorted == [sorted[0]] + sorted[1..];
    HeadIsNewest(sorted);
    forall m | m in rest ensures m.createdAt <= sorted[0].createdAt {
      assert m in multiset(rest);
      assert m == n || m in sorted;
    }
    PrependKeepsNewestFirst(sorted[0], rest);
  }

  /** The first note of a newest-first list is at least as new as every note in it. */
  lemma HeadIsNewest(sorted: seq<Note>)
    requires NewestFirst(sorted)
    ensures forall m | m in sorted :: m.createdAt <= sorted[0].createdAt
  {
    forall m | m in sorted ensures m.createdAt <= sorted[0].createdAt {
      var k :| 0 <= k < |sorted| && sorted[k] == m;
      if k > 0 {
        assert sorted[0].createdAt >= sorted[k].createdAt;
      }
    }
  }

  /** A note at least as new as every note of a newest-first list can go in front of it. */
  lemma PrependKeepsNewestFirst(h: Note, rest: seq<Note>)
    requires NewestFirst(rest)
    requires forall m | m in rest :: m.createdAt <= h.createdAt
    ensures NewestFirst([h] + rest)
  {
    var r := [h] + rest;
    forall i, j | 0 <= i < j < |r| ensures r[i].createdAt >= r[j].createdAt {
      assert r[j] == rest[j - 1];
      if i > 0 {
        assert r[i] == rest[i - 1];
      } else {
        assert rest[j - 1] in rest;
      }
    }
  }

  /** `sort({ createdAt: -1 })`: the same notes, newest first. */
  function SortNewestFirst(notes: seq<Note>): (r: seq<Note>)
    ensures NewestFirst(r)
    ensures multiset(r) == multiset(notes)
  {
    if notes == [] then []
    else
      assert notes == [notes[0]] + notes[1..];
      InsertByAge(notes[0], SortNewestFirst(notes[1..]))
  }

  /** The reply of GET /api/notes for the user with local id userId. */
  function ListNotes(notes: seq<Note>, userId: UserModel.ObjectId): (r: seq<Note>)
    ensures NewestFirst(r)
    ensures forall n :: n in r <==> n in notes && n.userId == userId
  {
    var owned := OwnedBy(notes, userId);
    var r := SortNewestFirst(owned);
    assert forall n :: n in r <==> n in multiset(r);
    assert forall n :: n in owned <==> n in multiset(owned);
    r
  }

  /** The listing holds each of the owner's notes as often as it is stored, and no other note. */
  lemma ListNotesCounts(notes: seq<Note>, userId: UserModel.ObjectId)
    ensures forall n :: multiset(ListNotes(notes, userId))[n] == if n.userId == userId then multiset(notes)[n] else 0
  {
    OwnedByCounts(notes, userId);
    assert multiset(ListNotes(notes, userId)) == multiset(OwnedBy(notes, userId));
  }

  /** A note strictly newer than every other note of its owner heads that owner's listing. */
  lemma NewestNoteListedFirst(notes: seq<Note>, n: Note)
    requires n in notes
    requires forall m | m in notes && m != n && m.userId == n.userId :: m.createdAt < n.createdAt
    ensures ListNotes(notes, n.userId) != [] && ListNotes(notes, n.userId)[0] == n
  {
    var r := ListNotes(notes, n.userId);
    assert n in r;
    var k :| 0 <= k < |r| && r[k] == n;
    assert r[0].createdAt >= r[k].createdAt;
    assert r[0] in r;
  }

  /** `Note.findById(noteId)`. */
  function FindNote(notes: seq<Note>, noteId: UserModel.ObjectId): (r: Option<Note>)
    ensures r.Some? <==> exists i | 0 <= i < |notes| :: notes[i].id == noteId
    ensures r.Some? ==> r.value in notes && r.value.id == noteId
  {
    if notes == [] then None
    else if notes[0].id == noteId then Some(notes[0])
    else
      var r := FindNote(notes[1..], noteId);
      assert forall i | 1 <= i < |notes| :: notes[i] == notes[1..][i - 1];
      r
  }

  /** `note.deleteOne()`: the collection without the document of that id. */
  function RemoveNote(notes: seq<Note>, noteId: UserModel.ObjectId): (r: seq<Note>)
    ensures forall n :: n in r <==> n in notes && n.id != noteId
  {
    if notes == [] then []
    else
      var rest := RemoveNote(notes[1..], noteId);
      assert notes == [notes[0]] + notes[1..];
      if notes[0].id == noteId then rest else [notes[0]] + rest
  }

  /** Deleting by id drops every copy of the notes with that id and keeps every other note as often as before. */
  lemma {:induction false} RemoveNoteCounts(notes: seq<Note>, noteId: UserModel.ObjectId)
    ensures forall n :: multiset(RemoveNote(notes, noteId))[n] == if n.id == noteId then 0 else multiset(notes)[n]
  {
    if notes != [] {
      RemoveNoteCounts(notes[1..], noteId);
      assert notes == [notes[0]] + notes[1..];
    }
  }

  /** Deleting by id keeps the ids unique. */
  lemma {:induction false} RemoveNoteKeepsUniqueIds(notes: seq<Note>, noteId: UserModel.ObjectId)
    requires UniqueIds(notes)
    ensures UniqueIds(RemoveNote(notes, noteId))
  {
    if notes != [] {
      var tail := notes[1..];
      TailKeepsUniqueIds(notes);
      RemoveNoteKeepsUniqueIds(tail, noteId);
      if notes[0].id != noteId {
        var rest := RemoveNote(tail, noteId);
        HeadIdNotInTail(notes);
        assert forall m | m in rest :: m in tail;
        PrependKeepsUniqueIds(notes[0], rest);
      }
    }
  }

  /** The unique index still holds after dropping the first note. */
  lemma TailKeepsUniqueIds(notes: seq<Note>)
    requires UniqueIds(notes) && notes != []
    ensures UniqueIds(notes[1..])
  {
    var tail := notes[1..];
    forall a, b | 0 <= a < b < |tail| ensures tail[a].id != tail[b].id {
      assert tail[a] == notes[a + 1] && tail[b] == notes[b + 1];
    }
  }

  /** Under the unique index, no later note shares the first note's id. */
  lemma HeadIdNotInTail(notes: seq<Note>)
    requires UniqueIds(notes) && notes != []
    ensures forall m | m in notes[1..] :: m.id != notes[0].id
  {
    forall m | m in notes[1..] ensures m.id != notes[0].id {
      var t :| 0 <= t < |notes| - 1 && notes[1..][t] == m;
      assert notes[t + 1] == m;
    }
  }

  /** A note whose id no note of a list has can go in front of it. */
  lemma PrependKeepsUniqueIds(h: Note, rest: seq<Note>)
    requires UniqueIds(rest)
    requires forall m | m in rest :: m.id != h.id
    ensures UniqueIds([h] + rest)
  {
    var r := [h] + rest;
    forall i, j | 0 <= i < j < |r| ensures r[i].id != r[j].id {
      assert r[j] == rest[j - 1];
      if i > 0 {
        assert r[i] == rest[i - 1];
      } else {
        assert rest[j - 1] in rest;
      }
    }
  }

  /** Deleting an id that no note has leaves the collection as it was. */
  lemma {:induction false} RemoveAbsentNote(notes: seq<Note>, noteId: UserModel.ObjectId)
    requires forall m | m in notes :: m.id != noteId
    ensures RemoveNote(notes, noteId) == notes
  {
    if notes != [] {
      assert notes[0] in notes;
      assert forall m | m in notes[1..] :: m in notes;
      RemoveAbsentNote(notes[1..], noteId);
      assert notes == [notes[0]] + notes[1..];
    }
  }

  /** Under the unique index, deleting a stored note's id removes exactly one document. */
  lemma {:induction false} RemoveNoteRemovesOne(notes: seq<Note>, n: Note)
    requires UniqueIds(notes) && n in notes
    ensures |RemoveNote(notes, n.id)| == |notes| - 1
  {
    var tail := notes[1..];
    assert notes == [notes[0]] + tail;
    HeadIdNotInTail(notes);
    if notes[0].id == n.id {
      RemoveAbsentNote(tail, n.id);
    } else {
      assert n in tail;
      TailKeepsUniqueIds(notes);
      RemoveNoteRemovesOne(tail, n);
    }
  }

  /** The note at index i is the only one with its id, so it occurs once. */
  lemma {:induction false} MultisetCountOfUniqueId(notes: seq<Note>, i: nat)
    requires UniqueIds(notes) && i < |notes|
    ensures multiset(notes)[notes[i]] == 1
  {
    if i == 0 {
      assert notes == [notes[0]] + notes[1..];
      assert notes[0] !in notes[1..] by {
        forall k | 0 <= k < |notes| - 1 ensures notes[1..][k] != notes[0] {
          assert notes[1..][k] == notes[k + 1];
        }
      }
    } else {
      assert notes == [notes[0]] + notes[1..];
      TailKeepsUniqueIds(notes);
      assert notes[1..][i - 1] == notes[i];
      MultisetCountOfUniqueId(notes[1..], i - 1);
      assert notes[0] != notes[i] by { assert notes[0].id != notes[i].id; }
    }
  }
}
