// The notes page of frontend/src/pages/Notes.jsx: the case-insensitive search filter
// over the fetched notes, and the form that edits an existing note or creates a new one.
// The API's replies are parameters.

module NotesPage {
  import opened Wrappers
  import opened JsText

  /** A note as the API returns it; `tags` may be absent. */
  datatype Note = Note(id: string, title: string, content: string, tags: Option<seq<string>>)

  /** The editor form. */
  datatype Form = Form(title: string, content: string, tags: seq<string>)

  const EmptyForm := Form("", "", [])

  /** The request a submit sends. */
  datatype Request = Update(id: string, form: Form) | Create(form: Form)

  /** The search predicate: the lowercased title or content contains the lowercased query. */
  predicate Matches(note: Note, query: string) {
    Contains(ToLower(note.title), ToLower(query)) || Contains(ToLower(note.content), ToLower(query))
  }

  /** `notes.filter(note => Matches(note, query))`. */
  function FilteredNotes(notes: seq<Note>, query: string): (r: seq<Note>)
    ensures |r| <= |notes|
    ensures forall k :: 0 <= k < |r| ==> r[k] in notes && Matches(r[k], query)
  {
    if notes == [] then []
    else (if Matches(notes[0], query) then [notes[0]] else []) + FilteredNotes(notes[1..], query)
  }

  /** A note is shown exactly when it is one of the notes and matches the query. */
  lemma {:induction false} FilteredMembership(notes: seq<Note>, query: string, n: Note)
    ensures n in FilteredNotes(notes, query) <==> n in notes && Matches(n, query)
  {
    if notes != [] {
      FilteredMembership(notes[1..], query, n);
      assert notes == [notes[0]] + notes[1..];
    }
  }

  /** `a` is `b` with some elements left out, the rest in the same order: each element
      of `b` is either kept as the next element of `a` or dropped. */
  predicate IsSubsequence<T(==)>(a: seq<T>, b: seq<T>)
    decreases |b|
  {
    if b == [] then a == []
    else (a != [] && a[0] == b[0] && IsSubsequence(a[1..], b[1..])) || IsSubsequence(a, b[1..])
  }

  /** The filter keeps the notes in their order. */
  lemma {:induction false} FilteredInOrder(notes: seq<Note>, query: string)
    ensures IsSubsequence(FilteredNotes(notes, query), notes)
  {
    if notes != [] {
      FilteredInOrder(notes[1..], query);
      var r := FilteredNotes(notes, query);
      if Matches(notes[0], query) {
        assert r[0] == notes[0] && r[1..] == FilteredNotes(notes[1..], query);
      } else {
        assert r == FilteredNotes(notes[1..], query);
      }
    }
  }

  /** An empty search shows every note. */
  lemma {:induction false} EmptyQueryKeepsAll(notes: seq<Note>)
    ensures FilteredNotes(notes, "") == notes
  {
    if notes != [] {
      assert ToLower("") == "";
      ContainsEmpty(ToLower(notes[0].title));
      EmptyQueryKeepsAll(notes[1..]);
    }
  }

  /** Searching is case-insensitive: the query's case does not change what is shown. */
  lemma {:induction false} SearchIgnoresCase(notes: seq<Note>, q1: string, q2: string)
    requires ToLower(q1) == ToLower(q2)
    ensures FilteredNotes(notes, q1) == FilteredNotes(notes, q2)
  {
    if notes != [] {
      SearchIgnoresCase(notes[1..], q1, q2);
    }
  }

  /** The page's state. */
  class NotesView {
    var notes: seq<Note>
    var loading: bool
    var editingNote: Option<Note>
    var searchQuery: string
    var showForm: bool
    var formData: Form

    constructor ()
      ensures notes == [] && loading && editingNote.None? && searchQuery == "" && !showForm && formData == EmptyForm
    {
      notes, loading, editingNote, searchQuery, showForm, formData := [], true, None, "", false, EmptyForm;
    }

    /** The notes on show. */
    function Visible(): seq<Note>
      reads this
    {
      FilteredNotes(notes, searchQuery)
    }

    /** fetchNotes finishing: the list is replaced by the reply when there is one, and
        loading ends either way. */
    method OnFetched(reply: Option<seq<Note>>)
      modifies this
      ensures notes == if reply.Some? then reply.value else old(notes)
      ensures !loading
      ensures editingNote == old(editingNote) && searchQuery == old(searchQuery)
      ensures showForm == old(showForm) && formData == old(formData)
    {
      if reply.Some? {
        notes := reply.value;
      }
      loading := false;
    }

    method Search(query: string)
      modifies this
      ensures searchQuery == query && Visible() == FilteredNotes(notes, query)
      ensures notes == old(notes) && loading == old(loading) && editingNote == old(editingNote)
      ensures showForm == old(showForm) && formData == old(formData)
    {
      searchQuery := query;
    }

    /** The "New Note" button: toggles the form and starts from an empty, non-editing form. */
    method ToggleForm()
      modifies this
      ensures showForm == !old(showForm) && editingNote.None? && formData == EmptyForm
      ensures notes == old(notes) && loading == old(loading) && searchQuery == old(searchQuery)
    {
      showForm := !showForm;
      editingNote := None;
      formData := EmptyForm;
    }

    /** handleEdit: the form holds the note's title, content and tags (none when it has
        no tags) and edits that note. */
    method HandleEdit(note: Note)
      modifies this
      ensures editingNote == Some(note) && showForm
      ensures formData.title == note.title && formData.content == note.content
      ensures formData.tags == if note.tags.Some? then note.tags.value else []
      ensures notes == old(notes) && loading == old(loading) && searchQuery == old(searchQuery)
    {
      editingNote := Some(note);
      var tags := if note.tags.Some? then note.tags.value else [];
      formData := Form(note.title, note.content, tags);
      showForm := true;
    }

    /** handleSubmit: an update of the note being edited, or else a new note, from the
        form (`request`). When the API accepts it (`ok`) the form is emptied and closed,
        editing ends and the notes are fetched again (`refetch`); when it fails nothing
        changes. */
    method HandleSubmit(ok: bool) returns (request: Request, refetch: bool)
      modifies this
      ensures old(editingNote).Some? ==> request == Update(old(editingNote).value.id, old(formData))
      ensures old(editingNote).None? ==> request == Create(old(formData))
      ensures ok ==> formData == EmptyForm && editingNote.None? && !showForm && refetch
      ensures !ok ==>
        formData == old(formData) && editingNote == old(editingNote) && showForm == old(showForm) && !refetch
      ensures notes == old(notes) && loading == old(loading) && searchQuery == old(searchQuery)
    {
      if editingNote.Some? {
        request := Update(editingNote.value.id, formData);
      } else {
        request := Create(formData);
      }
      refetch := false;
      if !ok {
        return;
      }
      formData := EmptyForm;
      editingNote := None;
      showForm := false;
      refetch := true;
    }

    /** handleDelete: only after the user confirms is the note deleted (`request`), and a
        successful delete fetches the notes again. */
    method HandleDelete(id: string, confirmed: bool, ok: bool) returns (request: Option<string>, refetch: bool)
      ensures request == (if confirmed then Some(id) else None)
      ensures refetch <==> confirmed && ok
    {
      request, refetch := None, false;
      if confirmed {
        request := Some(id);
        refetch := ok;
      }
    }
  }
}
