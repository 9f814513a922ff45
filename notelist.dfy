/**
 * Notes and the pure list transformations the notes handlers are built from:
 * `find` (edit), spread-append (add), `map` (update) and `filter` (delete).
 */
module NoteList {
  import opened Wrappers

  /** A note: its id is the millisecond time stamp at which it was added. */
  datatype Note = Note(id: int, title: string, content: string)

  /** The form's unsaved title and content. */
  datatype Draft = Draft(title: string, content: string)

  const EmptyDraft: Draft := Draft("", "")

  /** The seed notes the store starts from before anything is loaded. */
  const DefaultNotes: seq<Note> := [
    Note(1, "Grocery List", "Milk, Eggs, Bread, Apples"),
    Note(2, "Meeting Notes", "Discuss new project timeline, assign tasks to team"),
    Note(3, "Idea for App", "Develop a note-taking app with a clean and minimalist design")
  ]

  /** The ids of `notes`, in list order. */
  function Ids(notes: seq<Note>): (r: seq<int>)
    ensures |r| == |notes| && forall i :: 0 <= i < |r| ==> r[i] == notes[i].id
  {
    if notes == [] then [] else [notes[0].id] + Ids(notes[1..])
  }

  predicate HasId(notes: seq<Note>, id: int) {
    exists i :: 0 <= i < |notes| && notes[i].id == id
  }

  /** No two notes of the list share an id. */
  predicate UniqueIds(notes: seq<Note>) {
    forall i, j :: 0 <= i < j < |notes| ==> notes[i].id != notes[j].id
  }

  /** `find(note => note.id === id)`: the first note carrying `id`, if any. */
  function Find(notes: seq<Note>, id: int): (r: Option<Note>)
    ensures r.None? <==> !HasId(notes, id)
    ensures r.Some? ==> exists k :: 0 <= k < |notes| && notes[k] == r.value && r.value.id == id
                                     && forall j :: 0 <= j < k ==> notes[j].id != id
  {
    if notes == [] then None
    else if notes[0].id == id then Some(notes[0])
    else
      var r := Find(notes[1..], id);
      assert HasId(notes[1..], id) ==> HasId(notes, id);
      assert HasId(notes, id) ==> HasId(notes[1..], id) by {
        if HasId(notes, id) {
          var i :| 0 <= i < |notes| && notes[i].id == id;
          assert notes[1..][i - 1].id == id;
        }
      }
      if r.Some? then
        var k :| 0 <= k < |notes[1..]| && notes[1..][k] == r.value && r.value.id == id
                 && forall j :: 0 <= j < k ==> notes[1..][j].id != id;
        assert notes[k + 1] == r.value;
        assert forall j :: 0 <= j < k + 1 ==> notes[j].id != id by {
          forall j | 0 <= j < k + 1 ensures notes[j].id != id {
            if j > 0 { assert notes[j] == notes[1..][j - 1]; }
          }
        }
        r
      else r
  }

  /** The note `map` in handleUpdateNote produces for `n`. */
  function Revised(n: Note, target: Option<int>, d: Draft): (r: Note) {
    if target == Some(n.id) then Note(n.id, d.title, d.content) else n
  }

  /**
   * `map(note => note.id === editingNoteId ? {id: note.id, ...draft} : note)`:
   * a null editing id equals no number, so `None` revises nothing.
   */
  function ReviseMatching(notes: seq<Note>, target: Option<int>, d: Draft): (r: seq<Note>)
    ensures |r| == |notes|
    ensures forall i :: 0 <= i < |r| ==> r[i] == Revised(notes[i], target, d)
  {
    if notes == [] then [] else [Revised(notes[0], target, d)] + ReviseMatching(notes[1..], target, d)
  }

  /** `filter(note => note.id !== id)`. */
  function RemoveId(notes: seq<Note>, id: int): (r: seq<Note>)
    ensures |r| <= |notes|
    ensures forall n :: n in r <==> n in notes && n.id != id
    ensures !HasId(r, id)
  {
    if notes == [] then []
    else if notes[0].id == id then RemoveId(notes[1..], id)
    else [notes[0]] + RemoveId(notes[1..], id)
  }

  // ---- Properties of the transformations ----

  /** The seed notes carry the distinct ids 1, 2 and 3. */
  lemma DefaultNotesIds()
    ensures Ids(DefaultNotes) == [1, 2, 3]
    ensures UniqueIds(DefaultNotes)
  {
  }

  /** With unique ids, find returns the one note carrying the id. */
  lemma FindUnique(notes: seq<Note>, k: nat)
    requires UniqueIds(notes) && k < |notes|
    ensures Find(notes, notes[k].id) == Some(notes[k])
  {
  }

  /** Appending keeps the ids unique exactly when the new id is not already taken. */
  lemma AppendUniqueIff(notes: seq<Note>, n: Note)
    requires UniqueIds(notes)
    ensures UniqueIds(notes + [n]) <==> !HasId(notes, n.id)
  {
    var s := notes + [n];
    if HasId(notes, n.id) {
      var i :| 0 <= i < |notes| && notes[i].id == n.id;
      assert s[i].id == s[|notes|].id;
    }
  }

  /** The revision changes no id, so it keeps id uniqueness. */
  lemma ReviseKeepsIds(notes: seq<Note>, target: Option<int>, d: Draft)
    ensures Ids(ReviseMatching(notes, target, d)) == Ids(notes)
    ensures UniqueIds(notes) ==> UniqueIds(ReviseMatching(notes, target, d))
  {
  }

  /** With no editing id, or one that no note carries, the revision is the identity. */
  lemma ReviseUnmatched(notes: seq<Note>, target: Option<int>, d: Draft)
    requires target.None? || !HasId(notes, target.value)
    ensures ReviseMatching(notes, target, d) == notes
  {
  }

  /** Under unique ids, exactly one note, at the place it had, takes the draft. */
  lemma ReviseUnique(notes: seq<Note>, k: nat, d: Draft)
    requires UniqueIds(notes) && k < |notes|
    ensures ReviseMatching(notes, Some(notes[k].id), d)
            == notes[..k] + [Note(notes[k].id, d.title, d.content)] + notes[k + 1..]
  {
  }

  /** Removal distributes over concatenation: it keeps the survivors in their order. */
  lemma {:induction false} RemoveConcat(a: seq<Note>, b: seq<Note>, id: int)
    ensures RemoveId(a + b, id) == RemoveId(a, id) + RemoveId(b, id)
  {
    if a == [] {
      assert a + b == b;
    } else {
      assert (a + b)[0] == a[0] && (a + b)[1..] == a[1..] + b;
      RemoveConcat(a[1..], b, id);
      if a[0].id != id {
        assert [a[0]] + (RemoveId(a[1..], id) + RemoveId(b, id))
            == ([a[0]] + RemoveId(a[1..], id)) + RemoveId(b, id);
      }
    }
  }

  /** Removing an id that no note carries leaves the list as it is. */
  lemma {:induction false} RemoveAbsent(notes: seq<Note>, id: int)
    requires !HasId(notes, id)
    ensures RemoveId(notes, id) == notes
  {
    if notes != [] {
      RemoveAbsent(notes[1..], id);
    }
  }

  /** Deleting twice is deleting once. */
  lemma RemoveIdempotent(notes: seq<Note>, id: int)
    ensures RemoveId(RemoveId(notes, id), id) == RemoveId(notes, id)
  {
  }

  /** Under unique ids a delete removes one note when the id is present and none otherwise. */
  lemma {:induction false} RemoveCount(notes: seq<Note>, id: int)
    requires UniqueIds(notes)
    ensures |RemoveId(notes, id)| == if HasId(notes, id) then |notes| - 1 else |notes|
  {
    if notes == [] {
    } else if notes[0].id == id {
      RemoveAbsent(notes[1..], id);
    } else {
      assert HasId(notes, id) <==> HasId(notes[1..], id) by {
        if HasId(notes, id) {
          var i :| 0 <= i < |notes| && notes[i].id == id;
          assert notes[1..][i - 1].id == id;
        }
        if HasId(notes[1..], id) {
          var i :| 0 <= i < |notes[1..]| && notes[1..][i].id == id;
          assert notes[i + 1].id == id;
        }
      }
      RemoveCount(notes[1..], id);
    }
  }

  /** A delete keeps id uniqueness. */
  lemma {:induction false} RemoveKeepsUnique(notes: seq<Note>, id: int)
    requires UniqueIds(notes)
    ensures UniqueIds(RemoveId(notes, id))
  {
    if notes != [] {
      RemoveKeepsUnique(notes[1..], id);
      if notes[0].id != id {
        var rest := RemoveId(notes[1..], id);
        var r := [notes[0]] + rest;
        forall i, j | 0 <= i < j < |r| ensures r[i].id != r[j].id {
          if i == 0 {
            assert r[j] in notes[1..];
            var m :| 0 <= m < |notes[1..]| && notes[1..][m] == r[j];
            assert notes[m + 1] == r[j];
          } else {
            assert r[i] == rest[i - 1] && r[j] == rest[j - 1];
          }
        }
      }
    }
  }
}
