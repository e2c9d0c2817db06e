/**
 * The dashboard page of the QuickNotes client: the list of notes it shows, the draft in the
 * text area, and the two flags that drive the spinner and the disabled form. The handlers
 * await the network; each is split at its await into the part that runs before the request
 * and the part that runs when the request settles, and the network's answer is a parameter.
 */
module Dashboard {
  import opened Optional

  /** A note as the client receives it. */
  datatype Note = Note(id: string, content: string, createdAt: string)

  /** The characters `String.prototype.trim` removes: white space and line terminators. */
  const JsWhitespace: set<char> :=
    {'\t', '\n', '\U{B}', '\U{C}', '\r', ' ', '\U{A0}', '\U{1680}',
     '\U{2000}', '\U{2001}', '\U{2002}', '\U{2003}', '\U{2004}', '\U{2005}', '\U{2006}', '\U{2007}', '\U{2008}',
     '\U{2009}', '\U{200A}', '\U{2028}', '\U{2029}', '\U{202F}', '\U{205F}', '\U{3000}', '\U{FEFF}'}

  predicate IsJsWhitespace(c: char)
  {
    c in JsWhitespace
  }

  /** Drops leading white space: the longest suffix that starts with a non-space. */
  function TrimStart(s: string): (r: string)
    ensures |r| <= |s| && r == s[|s| - |r|..]
    ensures forall i | 0 <= i < |s| - |r| :: IsJsWhitespace(s[i])
    ensures r != [] ==> !IsJsWhitespace(r[0])
  {
    if s == [] || !IsJsWhitespace(s[0]) then s
    else
      var r := TrimStart(s[1..]);
      assert forall i | 1 <= i < |s| :: s[i] == s[1..][i - 1];
      r
  }

  /** Drops trailing white space: the longest prefix that ends with a non-space. */
  function TrimEnd(s: string): (r: string)
    ensures |r| <= |s| && r == s[..|r|]
    ensures forall i | |r| <= i < |s| :: IsJsWhitespace(s[i])
    ensures r != [] ==> !IsJsWhitespace(r[|r| - 1])
  {
    if s == [] || !IsJsWhitespace(s[|s| - 1]) then s
    else
      var r := TrimEnd(s[..|s| - 1]);
      assert forall i | 0 <= i < |s| - 1 :: s[i] == s[..|s| - 1][i];
      r
  }

  /** r occurs in s starting at index i. */
  predicate SliceAt(s: string, i: int, r: string)
  {
    0 <= i <= |s| - |r| && s[i..i + |r|] == r
  }

  /**
   * `s.trim()`: the slice of s left after dropping white space at both ends; it neither starts
   * nor ends with white space.
   */
  function Trim(s: string): (r: string)
    ensures exists i | SliceAt(s, i, r) ::
              (forall k | 0 <= k < i :: IsJsWhitespace(s[k])) &&
              (forall k | i + |r| <= k < |s| :: IsJsWhitespace(s[k]))
    ensures r != [] ==> !IsJsWhitespace(r[0]) && !IsJsWhitespace(r[|r| - 1])
  {
    TrimDropsBothEnds(s);
    TrimEnd(TrimStart(s))
  }

  /** TrimEnd after TrimStart keeps the slice of s between the two runs of white space. */
  lemma TrimDropsBothEnds(s: string)
    ensures var t := TrimStart(s);
            var i := |s| - |t|;
            && SliceAt(s, i, TrimEnd(t))
            && (forall k | 0 <= k < i :: IsJsWhitespace(s[k]))
            && (forall k | i + |TrimEnd(t)| <= k < |s| :: IsJsWhitespace(s[k]))
  {
    var t := TrimStart(s);
    var i := |s| - |t|;
    SuffixSlice(s, i, t);
  }

  /** A prefix of the suffix of s from i is the slice of s at i, and what follows it in s follows it in the suffix. */
  lemma SuffixSlice(s: string, i: nat, t: string)
    requires i <= |s| && t == s[i..]
    ensures SliceAt(s, i, TrimEnd(t))
    ensures forall k | i + |TrimEnd(t)| <= k < |s| :: IsJsWhitespace(s[k])
  {
    var r := TrimEnd(t);
    assert s[i..i + |r|] == t[..|r|];
    forall k | i + |r| <= k < |s| ensures IsJsWhitespace(s[k]) {
      assert t[k - i] == s[k];
    }
  }

  /** `!newNote.trim()` holds exactly for drafts made only of white space (the empty one included). */
  lemma {:induction false} TrimEmptyIffBlank(s: string)
    ensures Trim(s) == "" <==> forall i | 0 <= i < |s| :: IsJsWhitespace(s[i])
  {
    var t := TrimStart(s);
    if t != [] {
      assert t[0] == s[|s| - |t|];
      assert Trim(s) != "";
    }
  }

  /** `notes.filter(note => note._id !== noteId)`. */
  function Without(notes: seq<Note>, noteId: string): (r: seq<Note>)
    ensures |r| <= |notes|
    ensures forall n :: n in r <==> n in notes && n.id != noteId
  {
    if notes == [] then []
    else
      var rest := Without(notes[1..], noteId);
      assert notes == [notes[0]] + notes[1..];
      if notes[0].id == noteId then rest else [notes[0]] + rest
  }

  /** The filter keeps the order of what it keeps: it distributes over concatenation. */
  lemma {:induction false} WithoutDistributes(a: seq<Note>, b: seq<Note>, noteId: string)
    ensures Without(a + b, noteId) == Without(a, noteId) + Without(b, noteId)
  {
    if a != [] {
      assert (a + b)[1..] == a[1..] + b;
      WithoutDistributes(a[1..], b, noteId);
    } else {
      assert a + b == b;
    }
  }

  /** Deleting an id that no shown note has leaves the list as it was. */
  lemma {:induction false} WithoutAbsentId(notes: seq<Note>, noteId: string)
    requires forall i | 0 <= i < |notes| :: notes[i].id != noteId
    ensures Without(notes, noteId) == notes
  {
    if notes != [] {
      WithoutAbsentId(notes[1..], noteId);
      assert notes == [notes[0]] + notes[1..];
    }
  }

  class DashboardPage {
    var notes: seq<Note>
    var newNote: string
    var isLoading: bool
    var isSubmitting: bool

    /** The initial state of the page's useState hooks. */
    constructor ()
      ensures notes == [] && newNote == "" && isLoading && !isSubmitting
    {
      notes, newNote, isLoading, isSubmitting := [], "", true, false;
    }

    /** fetchNotes, once GET /api/notes has settled (None when it failed). */
    method FetchNotes(response: Option<seq<Note>>)
      modifies this
      ensures notes == if response.Some? then response.value else old(notes)
      ensures !isLoading
      ensures newNote == old(newNote) && isSubmitting == old(isSubmitting)
    {
      if response.Some? {
        notes := response.value;
      }
      isLoading := false;
    }

    /** The text area's onChange. */
    method EditDraft(text: string)
      modifies this
      ensures newNote == text
      ensures notes == old(notes) && isLoading == old(isLoading) && isSubmitting == old(isSubmitting)
    {
      newNote := text;
    }

    /**
     * handleCreateNote up to its await: a blank draft only raises a warning; otherwise the
     * form goes into its submitting state and the draft, untrimmed, is the request's content.
     */
    method SubmitNote() returns (request: Option<string>)
      modifies this
      ensures Trim(old(newNote)) == "" ==> request.None? && isSubmitting == old(isSubmitting)
      ensures Trim(old(newNote)) != "" ==> request == Some(old(newNote)) && isSubmitting
      ensures notes == old(notes) && newNote == old(newNote) && isLoading == old(isLoading)
    {
      if Trim(newNote) == "" {
        return None;
      }
      isSubmitting := true;
      request := Some(newNote);
    }

    /** handleCreateNote after POST /api/notes has settled with the created note, or failed (None). */
    method SettleCreate(response: Option<Note>)
      modifies this
      ensures response.Some? ==> notes == [response.value] + old(notes) && newNote == ""
      ensures response.None? ==> notes == old(notes) && newNote == old(newNote)
      ensures !isSubmitting && isLoading == old(isLoading)
    {
      if response.Some? {
        notes := [response.value] + notes;
        newNote := "";
      }
      isSubmitting := false;
    }

    /** handleDeleteNote up to its await: snapshot the list, then drop the note at once. */
    method DeleteOptimistically(noteId: string) returns (snapshot: seq<Note>)
      modifies this
      ensures snapshot == old(notes) && notes == Without(old(notes), noteId)
      ensures newNote == old(newNote) && isLoading == old(isLoading) && isSubmitting == old(isSubmitting)
    {
      snapshot := notes;
      notes := Without(notes, noteId);
    }

    /** handleDeleteNote after DELETE /api/notes/:noteId has settled: on failure, restore the snapshot. */
    method SettleDelete(snapshot: seq<Note>, succeeded: bool)
      modifies this
      ensures notes == if succeeded then old(notes) else snapshot
      ensures newNote == old(newNote) && isLoading == old(isLoading) && isSubmitting == old(isSubmitting)
    {
      if !succeeded {
        notes := snapshot;
      }
    }
  }
}
