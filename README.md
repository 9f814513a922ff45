# Notes store of the Next.js note taker, in Dafny

This project models the state behind `NotesApp` in `src/components/ui/notes.tsx`: an
ordered list of notes `{id, title, content}` kept by the `useLocalStorage` hook and
written through to the browser's localStorage slot under the key `"notes"` on every
change, the draft `{title, content}` bound to the form, and the id of the note being
edited (or null). The four handlers (add, edit, update, delete), the hook's mount-time
load, and its `setValue` write-through are methods of the class `App.NotesApp`. The
list transformations they are built from (`find`, spread-append, `map`, `filter`) are
functions in `NoteList`, with lemmas about them.

Modules:

- `Wrappers`: `Option`, for `T | null` / `T | undefined`.
- `JsString`: `String.prototype.trim` over the ECMAScript white-space and line-terminator
  code points, and `NonBlank`, the meaning of a truthy `s.trim()`.
- `NoteList`: `Note`, `Draft`, the seed list `DefaultNotes`, `Find`, `ReviseMatching`,
  `RemoveId`, plus the uniqueness, order and idempotence lemmas.
- `Storage`: the `"notes"` slot's text, seen only as empty text, an encoding of a note
  list, or malformed text. `Encode`/`Decode` stand for `JSON.stringify`/`JSON.parse`.
- `App`: the class `NotesApp` and three client methods. `DeleteSeedTwice` runs the
  seed-list double delete. `AddEditUpdate` runs add, then edit (through `EditAndSave`), then update, and the note keeps its id. `BlankAddIsIgnored`
  shows that a blank draft is not added. Each is proved from the method contracts alone.

Inputs supplied from outside: `Date.now()` is the `now` parameter of `AddNote`. The
stored value present at start-up is the constructor's `stored` parameter.

The model follows the code as written; in particular:

- `handleUpdateNote` does not check that an editing id is set. The UI shows the Update
  button only while `editingNoteId !== null` (notes.tsx:157-171), so a null-id update
  happens only when the handler is called directly. With a null editing id the `map`
  matches no note. The list is then written back unchanged, and the draft and
  editing id are still cleared (`UpdateNote`, `ReviseUnmatched`).
- A delete shortens the list by at most one only while ids are unique. `RemoveCount` is
  stated under that hypothesis. `RemoveId` alone promises only "no longer, and no note
  with that id left".
- An add keeps ids unique exactly when `now` is not already an id (`AppendUniqueIff`).
  Nothing in the source prevents a clash.
- The stored title and content are the untrimmed draft. Trimming is only used for the
  blank check.

## Model

| member | source | states |
|---|---|---|
| JsString.LeadingWhiteSpace | src/components/ui/notes.tsx:90 | the white-space prefix that trim strips: all white space, and followed by a kept character or the end |
| JsString.TrailingWhiteSpace | src/components/ui/notes.tsx:90 | the white-space suffix that trim strips, with the same two properties mirrored |
| JsString.Trim | src/components/ui/notes.tsx:108 | the result is `s` with exactly its longest white-space prefix and suffix removed: the infix after the leading white space, followed only by white space, and neither starting nor ending with white space |
| JsString.TrimNonEmptyIff | src/components/ui/notes.tsx:90 | `s.trim()` is truthy (non-empty) exactly when `s` has a non-white-space character |
| NoteList.DefaultNotesIds | src/components/ui/notes.tsx:16-32 | the seed notes carry the ids 1, 2, 3 in that order, and they are distinct |
| NoteList.Find | src/components/ui/notes.tsx:99 | nothing is found exactly when no note has the id; otherwise the result is the note at the first index with that id |
| NoteList.FindUnique | src/components/ui/notes.tsx:99 | when ids are unique, looking up a note's id returns that note |
| NoteList.AppendUniqueIff | src/components/ui/notes.tsx:91-92 | appending to a list with unique ids keeps them unique if and only if the new id is not already present |
| NoteList.ReviseMatching | src/components/ui/notes.tsx:110-114 | same length; each note with the editing id gets the draft's title and content under its own id; every other note is unchanged |
| NoteList.ReviseKeepsIds | src/components/ui/notes.tsx:110-114 | the revision keeps every id in place, so unique ids stay unique |
| NoteList.ReviseUnmatched | src/components/ui/notes.tsx:111 | a null editing id, or one no note has, leaves the list unchanged |
| NoteList.ReviseUnique | src/components/ui/notes.tsx:110-114 | when ids are unique, exactly one note is replaced, at its own position, and the rest of the list is unchanged |
| NoteList.RemoveId | src/components/ui/notes.tsx:123 | never longer; a note survives exactly when it was in the list and has a different id; no note with the id remains |
| NoteList.RemoveConcat | src/components/ui/notes.tsx:123 | the filter distributes over concatenation, so survivors keep their relative order |
| NoteList.RemoveAbsent | src/components/ui/notes.tsx:123 | deleting an id that no note has leaves the list unchanged |
| NoteList.RemoveIdempotent | src/components/ui/notes.tsx:123 | deleting the same id twice gives the same list as deleting it once |
| NoteList.RemoveCount | src/components/ui/notes.tsx:123 | when ids are unique, the length drops by one if the id is present and by zero otherwise |
| NoteList.RemoveKeepsUnique | src/components/ui/notes.tsx:123 | deleting keeps ids unique |
| Storage.Encode | src/components/ui/notes.tsx:60 | a stringified list is never the empty text, so a later load installs it |
| Storage.Decode | src/components/ui/notes.tsx:45 | empty and malformed text fail to decode; a stored value that decodes is the encoding of the list it decodes to, with texts taken up to what JSON.parse returns |
| Storage.DecodeEncode | src/components/ui/notes.tsx:45-60 | decoding an encoded list gives back the same list |
| App.NotesApp.constructor | src/components/ui/notes.tsx:37 | the first render holds the seed notes, an empty draft and a null editing id, and storage is untouched |
| App.NotesApp.Mount | src/components/ui/notes.tsx:40-51 | a stored value that is present, non-empty and decodes becomes the list; an absent, empty or undecodable one leaves the list unchanged |
| App.NotesApp.SetNotes | src/components/ui/notes.tsx:54-65 | the state is the new list and the slot holds its encoding |
| App.NotesApp.TypeTitle | src/components/ui/notes.tsx:144 | the draft's title is replaced and its content kept |
| App.NotesApp.TypeContent | src/components/ui/notes.tsx:151-153 | the draft's content is replaced and its title kept |
| App.NotesApp.AddNote | src/components/ui/notes.tsx:89-95 | a non-blank draft is appended as one note with id `now` and the untrimmed text, earlier notes unchanged; the draft is emptied and the slot is synced. A blank title or content changes nothing. Ids stay unique when `now` is fresh |
| App.NotesApp.EditNote | src/components/ui/notes.tsx:98-104 | the list and slot are untouched; a found note's title and content go into the draft, and the editing id becomes the id; an unknown id changes nothing |
| App.NotesApp.UpdateNote | src/components/ui/notes.tsx:107-119 | a non-blank draft revises the notes with the editing id, keeps every id in place, syncs the slot, and clears the draft and editing id. With no match the list is unchanged. A blank draft changes nothing |
| App.NotesApp.DeleteNote | src/components/ui/notes.tsx:122-124 | the list is filtered by id and the slot is synced even when no note matched; unique ids stay unique |
| App.NotesApp.Reopen | src/components/ui/notes.tsx:37-60 | once the slot is synced, a new session over the same storage loads exactly the current list |

## Left out

- Rendering: the JSX markup, class names, icons and the choice between the Add and the Update button (notes.tsx:126-206). The model lets a caller run `AddNote` while editing, which the source's UI does not offer.
- `src/components/ui/input.tsx`: a `forwardRef` wrapper with no state logic.
- React scheduling: `useState`/`useEffect` timing, and the `isMounted` gate against server-side rendering. The load is the explicit `Mount` call, and every client method calls it right after the constructor, before any handler.
- The `typeof window` checks: the model always has a storage slot.
- localStorage I/O and JSON text. `Encode`/`Decode` are an abstract pair, and `Blob` identifies stored texts by what `JSON.parse` returns: texts that differ only in white space, key order or number spelling (`"[ ]"` and `"[]"`) are one `Blob`, so `Decode`'s re-encoding holds only up to that identification.
- Text that parses as JSON but is not a list of notes, which the source would install without checking, is counted as `Malformed`.
- SetNotes: does not model a `setItem` that throws. In the source the in-memory list is then updated but the slot keeps its old text; the model always writes.
- `console.error` logging and the `try`/`catch` around the load: a failed parse is modelled only as "list retained".
- `Date.now()`: ids are plain integers given by the caller. Number precision, and ids as IEEE doubles, are not modelled.
- Strings are sequences of Unicode scalar values. UTF-16 lone surrogates are not modelled. They cannot affect trim, whose white-space set lies in the Basic Multilingual Plane.
- Setting the list through an updater function (`value instanceof Function`, notes.tsx:57): the handlers always pass a value.
