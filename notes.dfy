/**
 * The notes page (src/pages/Notes.tsx): the search over the user's notes
 * and the form state of the note dialog. The database calls are left
 * out; `SaveNote` returns the request it would send, and the results of
 * loading and deleting arrive as parameters.
 */
module Notes {
  import opened Wrappers
  import opened Text
  import Lists

  /** A row of `user_notes` as the page holds it. */
  datatype Note = Note(id: string, title: string, content: string, tags: seq<string>, createdAt: string, updatedAt: string)

  /** A note matches the query when its title or its content contains it, ignoring case. */
  predicate NoteMatches(note: Note, query: string) {
    IncludesIgnoringCase(note.title, query) || IncludesIgnoringCase(note.content, query)
  }

  /** `filteredNotes`: the matching notes, in their original order. */
  function FilteredNotes(notes: seq<Note>, query: string): (r: seq<Note>)
    ensures |r| == Lists.Count(notes, n => NoteMatches(n, query)) <= |notes|
    ensures forall n :: n in r ==> n in notes && NoteMatches(n, query)
    ensures forall i :: 0 <= i < |notes| && NoteMatches(notes[i], query) ==> notes[i] in r
    ensures Lists.IsSubsequence(r, notes)
  {
    Lists.Filter(notes, n => NoteMatches(n, query))
  }

  /** An empty query keeps every note. */
  lemma EmptyQueryKeepsAll(notes: seq<Note>)
    ensures FilteredNotes(notes, "") == notes
  {
    forall i | 0 <= i < |notes|
      ensures NoteMatches(notes[i], "")
    {
      EmptyQueryMatches(notes[i].title);
    }
  }

  /** The query ignores case: searching for `q` or for its lower-cased form finds the same notes. */
  lemma QueryCaseIgnored(notes: seq<Note>, query: string)
    ensures FilteredNotes(notes, ToLower(query)) == FilteredNotes(notes, query)
  {
    ToLowerIdempotent(query);
    Lists.FilterSamePredicate(notes, n => NoteMatches(n, ToLower(query)), n => NoteMatches(n, query));
  }

  /** The request `saveNote` sends. */
  datatype SaveRequest =
    | NoUser                                       // no signed-in user: nothing happens
    | Update(id: string, title: string, content: string) // `update(...).eq("id", id)`
    | Insert(title: string, content: string)      // `insert({user_id, title, content})`

  /** The path `saveNote` takes for a signed-in user: an update exactly when editing a selected note. */
  function SaveRequestFor(isEditing: bool, selectedNote: Option<Note>, title: string, content: string): (req: SaveRequest)
    ensures req.Update? <==> isEditing && selectedNote.Some?
    ensures req.Insert? <==> !(isEditing && selectedNote.Some?)
    ensures req.Update? ==> req == Update(selectedNote.value.id, title, content)
    ensures req.Insert? ==> req == Insert(title, content)
  {
    if isEditing && selectedNote.Some? then Update(selectedNote.value.id, title, content)
    else Insert(title, content)
  }

  /** The page's state. */
  class NotesPage {
    var notes: seq<Note>
    var searchQuery: string
    var selectedNote: Option<Note>
    var isDialogOpen: bool
    var noteTitle: string
    var noteContent: string
    var isEditing: bool

    /** The form is blank and the dialog is in "create" mode. */
    predicate FormCleared()
      reads this
    {
      noteTitle == "" && noteContent == "" && !isEditing && selectedNote.None?
    }

    /** The read-only viewer is shown for the selected note while the edit dialog is closed. */
    predicate ViewerShown()
      reads this
    {
      selectedNote.Some? && !isDialogOpen
    }

    constructor ()
      ensures notes == [] && searchQuery == "" && !isDialogOpen && FormCleared()
    {
      notes := [];
      searchQuery := "";
      selectedNote := None;
      isDialogOpen := false;
      noteTitle := "";
      noteContent := "";
      isEditing := false;
    }

    /** The result of `fetchNotes`: on an error the list stays as it was; `null` data gives the empty list. */
    method NotesLoaded(result: Result<Option<seq<Note>>, string>)
      modifies this
      ensures result.Err? ==> notes == old(notes)
      ensures result.Ok? && result.value.None? ==> notes == []
      ensures result.Ok? && result.value.Some? ==> notes == result.value.value
      ensures searchQuery == old(searchQuery) && selectedNote == old(selectedNote) && isDialogOpen == old(isDialogOpen)
      ensures noteTitle == old(noteTitle) && noteContent == old(noteContent) && isEditing == old(isEditing)
    {
      match result
      case Err(_) =>
      case Ok(data) =>
        notes := if data.Some? then data.value else [];
    }

    method SetSearchQuery(query: string)
      modifies this
      ensures searchQuery == query
      ensures notes == old(notes) && selectedNote == old(selectedNote) && isDialogOpen == old(isDialogOpen)
      ensures noteTitle == old(noteTitle) && noteContent == old(noteContent) && isEditing == old(isEditing)
    {
      searchQuery := query;
    }

    /** Typing in the dialog's title and content fields. */
    method EditForm(title: string, content: string)
      modifies this
      ensures noteTitle == title && noteContent == content
      ensures notes == old(notes) && searchQuery == old(searchQuery) && selectedNote == old(selectedNote)
      ensures isDialogOpen == old(isDialogOpen) && isEditing == old(isEditing)
    {
      noteTitle := title;
      noteContent := content;
    }

    /** `openEditDialog(note)`: loads the note into the form in "edit" mode and opens the dialog. */
    method OpenEditDialog(note: Note)
      modifies this
      ensures selectedNote == Some(note) && noteTitle == note.title && noteContent == note.content
      ensures isEditing && isDialogOpen
      ensures notes == old(notes) && searchQuery == old(searchQuery)
    {
      selectedNote := Some(note);
      noteTitle := note.title;
      noteContent := note.content;
      isEditing := true;
      isDialogOpen := true;
    }

    /** `openNewNoteDialog`: clears the form and opens the dialog in "create" mode. */
    method OpenNewNoteDialog()
      modifies this
      ensures FormCleared() && isDialogOpen
      ensures notes == old(notes) && searchQuery == old(searchQuery)
    {
      noteTitle := "";
      noteContent := "";
      isEditing := false;
      selectedNote := None;
      isDialogOpen := true;
    }

    /** The dialog's `onOpenChange`. */
    method SetDialogOpen(open: bool)
      modifies this
      ensures isDialogOpen == open
      ensures notes == old(notes) && searchQuery == old(searchQuery) && selectedNote == old(selectedNote)
      ensures noteTitle == old(noteTitle) && noteContent == old(noteContent) && isEditing == old(isEditing)
    {
      isDialogOpen := open;
    }

    /** Clicking a note's content selects it, which opens the viewer when the dialog is closed. */
    method SelectNote(note: Note)
      modifies this
      ensures selectedNote == Some(note)
      ensures notes == old(notes) && searchQuery == old(searchQuery) && isDialogOpen == old(isDialogOpen)
      ensures noteTitle == old(noteTitle) && noteContent == old(noteContent) && isEditing == old(isEditing)
    {
      selectedNote := Some(note);
    }

    /** Closing the viewer, or a successful delete: `setSelectedNote(null)`. */
    method ClearSelection()
      modifies this
      ensures selectedNote.None? && !ViewerShown()
      ensures notes == old(notes) && searchQuery == old(searchQuery) && isDialogOpen == old(isDialogOpen)
      ensures noteTitle == old(noteTitle) && noteContent == old(noteContent) && isEditing == old(isEditing)
    {
      selectedNote := None;
    }

    /**
     * `saveNote`. Without a user nothing changes. With one, the request
     * follows `SaveRequestFor`, and whatever the backend answers the
     * dialog closes and the form is cleared.
     */
    method SaveNote(userPresent: bool) returns (req: SaveRequest)
      modifies this
      ensures !userPresent ==> req == NoUser
      ensures !userPresent ==> (selectedNote == old(selectedNote) && isDialogOpen == old(isDialogOpen)
        && noteTitle == old(noteTitle) && noteContent == old(noteContent) && isEditing == old(isEditing))
      ensures userPresent ==> req == SaveRequestFor(old(isEditing), old(selectedNote), old(noteTitle), old(noteContent))
      ensures userPresent ==> FormCleared() && !isDialogOpen
      ensures notes == old(notes) && searchQuery == old(searchQuery)
    {
      if !userPresent {
        return NoUser;
      }
      req := SaveRequestFor(isEditing, selectedNote, noteTitle, noteContent);
      isDialogOpen := false;
      noteTitle := "";
      noteContent := "";
      isEditing := false;
      selectedNote := None;
    }
  }
}
