/**
 * NotesApp's state: the note list (held by useLocalStorage and written through to the
 * "notes" slot), the draft form fields, and the id of the note being edited.
 */
module App {
  import opened Wrappers
  import opened JsString
  import opened NoteList
  import opened Storage

  class NotesApp {
    var notes: seq<Note>
    var draft: Draft
    var editing: Option<int>
    /** localStorage's value under the key "notes"; None when the key is absent. */
    var slot: Option<Blob>

    /** The slot holds the encoding of the in-memory list. */
    ghost predicate InSync()
      reads this
    {
      slot == Some(Encode(notes))
    }

    /** The first render: seed notes, an empty draft, create mode, and whatever storage holds. */
    constructor (stored: Option<Blob>)
      ensures notes == DefaultNotes && draft == EmptyDraft && editing == None && slot == stored
    {
      notes := DefaultNotes;
      draft := EmptyDraft;
      editing := None;
      slot := stored;
    }

    /**
     * useLocalStorage's mount effect: a stored value that is present, not the empty
     * text and decodable replaces the list; anything else leaves it as it is.
     * Nothing is written back.
     */
    method Mount()
      modifies this`notes
      ensures slot.Some? && slot.value != EmptyText && Decode(slot.value).Some?
              ==> notes == Decode(slot.value).value
      ensures slot.None? || slot.value == EmptyText || Decode(slot.value).None?
              ==> notes == old(notes)
    {
      if slot.Some? && slot.value != EmptyText {
        var parsed := Decode(slot.value);
        if parsed.Some? {
          notes := parsed.value;
        }
      }
    }

    /** useLocalStorage's setValue: set the state and write it through to the slot. */
    method SetNotes(value: seq<Note>)
      modifies this`notes, this`slot
      ensures notes == value && InSync()
    {
      notes := value;
      slot := Some(Encode(value));
    }

    /** The title input's onChange. */
    method TypeTitle(s: string)
      modifies this`draft
      ensures draft == Draft(s, old(draft).content)
    {
      draft := draft.(title := s);
    }

    /** The content textarea's onChange. */
    method TypeContent(s: string)
      modifies this`draft
      ensures draft == Draft(old(draft).title, s)
    {
      draft := draft.(content := s);
    }

    /**
     * handleAddNote: with a non-blank title and content, append the draft as a note
     * whose id is `now` (Date.now()), write through and empty the draft; otherwise do nothing.
     */
    method AddNote(now: int)
      modifies this`notes, this`slot, this`draft
      ensures NonBlank(old(draft).title) && NonBlank(old(draft).content) ==>
                && notes == old(notes) + [Note(now, old(draft).title, old(draft).content)]
                && draft == EmptyDraft && InSync()
      ensures !(NonBlank(old(draft).title) && NonBlank(old(draft).content)) ==>
                notes == old(notes) && draft == old(draft) && slot == old(slot)
      ensures UniqueIds(old(notes)) && !HasId(old(notes), now) ==> UniqueIds(notes)
      ensures old(InSync()) ==> InSync()
    {
      TrimNonEmptyIff(draft.title);
      TrimNonEmptyIff(draft.content);
      if Trim(draft.title) != "" && Trim(draft.content) != "" {
        var added := Note(now, draft.title, draft.content);
        if UniqueIds(notes) {
          AppendUniqueIff(notes, added);
        }
        SetNotes(notes + [added]);
        draft := EmptyDraft;
      }
    }

    /**
     * handleEditNote: load the first note with this id into the draft and enter edit
     * mode for it; with no such note, do nothing. The list is never touched.
     */
    method EditNote(id: int)
      modifies this`draft, this`editing
      ensures Find(notes, id).Some? ==>
                draft == Draft(Find(notes, id).value.title, Find(notes, id).value.content)
                && editing == Some(id)
      ensures Find(notes, id).None? ==> draft == old(draft) && editing == old(editing)
    {
      var found := Find(notes, id);
      if found.Some? {
        draft := Draft(found.value.title, found.value.content);
        editing := Some(id);
      }
    }

    /**
     * handleUpdateNote: with a non-blank draft, give every note whose id is the editing
     * id the draft's title and content, write through, empty the draft and leave edit
     * mode; otherwise do nothing. The editing id itself is not checked for null.
     */
    method UpdateNote()
      modifies this`notes, this`slot, this`draft, this`editing
      ensures NonBlank(old(draft).title) && NonBlank(old(draft).content) ==>
                && notes == ReviseMatching(old(notes), old(editing), old(draft))
                && draft == EmptyDraft && editing == None && InSync()
      ensures !(NonBlank(old(draft).title) && NonBlank(old(draft).content)) ==>
                notes == old(notes) && draft == old(draft) && editing == old(editing)
                && slot == old(slot)
      ensures old(editing).None? || !HasId(old(notes), old(editing).value) ==> notes == old(notes)
      ensures Ids(notes) == Ids(old(notes))
      ensures UniqueIds(old(notes)) ==> UniqueIds(notes)
      ensures old(InSync()) ==> InSync()
    {
      TrimNonEmptyIff(draft.title);
      TrimNonEmptyIff(draft.content);
      if Trim(draft.title) != "" && Trim(draft.content) != "" {
        ReviseKeepsIds(notes, editing, draft);
        if editing.None? || !HasId(notes, editing.value) {
          ReviseUnmatched(notes, editing, draft);
        }
        SetNotes(ReviseMatching(notes, editing, draft));
        draft := EmptyDraft;
        editing := None;
      }
    }

    /** handleDeleteNote: drop every note with this id and write through, even when none has it. */
    method DeleteNote(id: int)
      modifies this`notes, this`slot
      ensures notes == RemoveId(old(notes), id) && InSync()
      ensures UniqueIds(old(notes)) ==> UniqueIds(notes)
    {
      if UniqueIds(notes) {
        RemoveKeepsUnique(notes, id);
      }
      SetNotes(RemoveId(notes, id));
    }

    /** A later session over the same storage: after any write, it loads exactly this list. */
    method Reopen() returns (next: NotesApp)
      requires InSync()
      ensures fresh(next)
      ensures next.notes == notes && next.draft == EmptyDraft && next.editing == None
      ensures next.InSync()
    {
      next := new NotesApp(slot);
      next.Mount();
    }
  }

  /** The seed list, deleted from twice: the second delete changes nothing. */
  method DeleteSeedTwice() {
    var app := new NotesApp(None);
    app.Mount();
    assert app.notes == DefaultNotes;
    app.DeleteNote(2);
    app.DeleteNote(2);
    assert app.notes == [DefaultNotes[0], DefaultNotes[2]];
    assert Ids(app.notes) == [1, 3];
  }

  /** Add a note to an empty stored list, then edit it, change its content and save it. */
  method AddEditUpdate(now: int) {
    var app := new NotesApp(Some(Encode([])));
    app.Mount();
    app.TypeTitle("A");
    app.TypeContent("1");
    assert NonBlank("A") && NonBlank("1") by {
      assert !IsWhiteSpace("A"[0]) && !IsWhiteSpace("1"[0]);
    }
    app.AddNote(now);
    assert app.notes == [Note(now, "A", "1")];
    EditAndSave(app, now);
    assert app.notes == [Note(now, "A", "2")];
  }

  /** Edit the one note of `app`, change its content to "2" and save: its id stays. */
  method EditAndSave(app: NotesApp, now: int)
    requires app.notes == [Note(now, "A", "1")]
    modifies app
    ensures app.notes == [Note(now, "A", "2")]
    ensures app.editing == None && app.draft == EmptyDraft && app.InSync()
  {
    FindUnique(app.notes, 0);
    app.EditNote(now);
    app.TypeContent("2");
    assert NonBlank("A") && NonBlank("2") by {
      assert !IsWhiteSpace("A"[0]) && !IsWhiteSpace("2"[0]);
    }
    assert app.draft == Draft("A", "2") && app.editing == Some(now);
    var one := [Note(now, "A", "1")];
    ReviseUnique(one, 0, Draft("A", "2"));
    assert one[..0] == [] && one[1..] == [];
    app.UpdateNote();
  }

  /** A draft of spaces only is not added. */
  method BlankAddIsIgnored() {
    var app := new NotesApp(None);
    app.Mount();
    app.TypeTitle("  ");
    app.TypeContent("  ");
    app.AddNote(7);
    assert app.notes == DefaultNotes && app.slot == None;
  }
}
