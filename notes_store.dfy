/** The notes list of context/NotesContext.tsx: each change computes the
    next list and `persist` installs it both as the provider's state and
    under the `hs.notes` storage key. */
module NotesStore {
  import opened Wrappers
  import NoteTypes

  type Note = NoteTypes.Note

  const NOTES_KEY: string := "hs.notes"

  // ---------------------------------------------------------------------
  // The next list of each change

  /** `notes.map(it => it.id === n.id ? n : it)`. */
  function Replaced(notes: seq<Note>, n: Note): (r: seq<Note>)
    ensures |r| == |notes|
    ensures forall i :: 0 <= i < |notes| && notes[i].id == n.id ==> r[i] == n
    ensures forall i :: 0 <= i < |notes| && notes[i].id != n.id ==> r[i] == notes[i]
  {
    if notes == [] then []
    else [if notes[0].id == n.id then n else notes[0]] + Replaced(notes[1..], n)
  }

  /** `notes.filter(n => n.id !== id)`. */
  function Removed(notes: seq<Note>, id: string): (r: seq<Note>)
    ensures |r| <= |notes|
    ensures forall x :: x in r <==> x in notes && x.id != id
  {
    if notes == [] then []
    else if notes[0].id == id then Removed(notes[1..], id)
    else [notes[0]] + Removed(notes[1..], id)
  }

  /** `notes.find(n => n.id === id)`: the first note with that id. */
  function FindNote(notes: seq<Note>, id: string): (r: Option<Note>)
    ensures r.Some? ==> r.value in notes && r.value.id == id
    ensures r.None? <==> forall x :: x in notes ==> x.id != id
    ensures r.Some? ==>
      exists i :: 0 <= i < |notes| && notes[i] == r.value && (forall j :: 0 <= j < i ==> notes[j].id != id)
  {
    if notes == [] then None
    else if notes[0].id == id then Some(notes[0])
    else
      var r := FindNote(notes[1..], id);
      if r.None? then r
      else
        var i :| 0 <= i < |notes[1..]| && notes[1..][i] == r.value &&
          forall j :: 0 <= j < i ==> notes[1..][j].id != id;
        assert notes[i + 1] == r.value;
        r
  }

  // ---------------------------------------------------------------------
  // Properties of the changes

  /** `deleteNote` keeps the other notes in their relative order: removing
      distributes over concatenation. */
  lemma {:induction false} RemovedAppend(a: seq<Note>, b: seq<Note>, id: string)
    ensures Removed(a + b, id) == Removed(a, id) + Removed(b, id)
  {
    if a == [] {
      assert a + b == b;
    } else {
      assert (a + b)[1..] == a[1..] + b;
      RemovedAppend(a[1..], b, id);
    }
  }

  /** A list without the id is left unchanged by removing it. */
  lemma {:induction false} RemovedAbsent(notes: seq<Note>, id: string)
    requires forall x :: x in notes ==> x.id != id
    ensures Removed(notes, id) == notes
  {
    if notes != [] {
      assert forall x :: x in notes[1..] ==> x in notes;
      RemovedAbsent(notes[1..], id);
    }
  }

  /** Removing twice is removing once. */
  lemma RemovedIdempotent(notes: seq<Note>, id: string)
    ensures Removed(Removed(notes, id), id) == Removed(notes, id)
  {
    RemovedAbsent(Removed(notes, id), id);
  }

  /** A list without the id is left unchanged by a replacement. */
  lemma {:induction false} ReplacedAbsent(notes: seq<Note>, n: Note)
    requires forall x :: x in notes ==> x.id != n.id
    ensures Replaced(notes, n) == notes
  {
    if notes != [] {
      assert forall x :: x in notes[1..] ==> x in notes;
      ReplacedAbsent(notes[1..], n);
    }
  }

  /** A note just added is the one found under its id. */
  lemma FindAfterAdd(notes: seq<Note>, n: Note)
    ensures FindNote([n] + notes, n.id) == Some(n)
  {
  }

  /** After a replacement that hit, the id finds the new note. */
  lemma {:induction false} FindAfterReplace(notes: seq<Note>, n: Note)
    requires FindNote(notes, n.id).Some?
    ensures FindNote(Replaced(notes, n), n.id) == Some(n)
  {
    if notes[0].id != n.id {
      assert Replaced(notes, n)[1..] == Replaced(notes[1..], n);
      FindAfterReplace(notes[1..], n);
    }
  }

  /** After a removal nothing is found under the id. */
  lemma FindAfterRemove(notes: seq<Note>, id: string)
    ensures FindNote(Removed(notes, id), id).None?
  {
  }

  /** Replacing, then removing the same id, is removing it. */
  lemma {:induction false} RemovedAfterReplaced(notes: seq<Note>, n: Note)
    ensures Removed(Replaced(notes, n), n.id) == Removed(notes, n.id)
  {
    if notes != [] {
      RemovedAfterReplaced(notes[1..], n);
    }
  }

  // ---------------------------------------------------------------------
  // The provider

  /** The provider's `notes` state and the storage it writes. */
  class NotesProvider {
    var notes: seq<Note>
    var storage: map<string, seq<Note>>

    /** The list shown is the list stored. */
    ghost predicate Synced()
      reads this
    {
      NOTES_KEY in storage && storage[NOTES_KEY] == notes
    }

    /** The start-up load: the stored list when there is one, otherwise
        empty. */
    constructor (stored: map<string, seq<Note>>)
      ensures notes == (if NOTES_KEY in stored then stored[NOTES_KEY] else [])
      ensures storage == stored
    {
      notes := if NOTES_KEY in stored then stored[NOTES_KEY] else [];
      storage := stored;
    }

    /** `persist`: installs `next` as the state and under `hs.notes`, and
        leaves every other key alone. */
    method Persist(next: seq<Note>)
      modifies this
      ensures notes == next
      ensures storage == old(storage)[NOTES_KEY := next]
      ensures Synced()
    {
      notes := next;
      storage := storage[NOTES_KEY := next];
    }

    /** `addNote`: the new note in front of the old list, with no check of
        its id. */
    method AddNote(n: Note)
      modifies this
      ensures notes == [n] + old(notes)
      ensures storage == old(storage)[NOTES_KEY := notes]
      ensures Synced() && GetNote(n.id) == Some(n)
    {
      Persist([n] + notes);
      FindAfterAdd(old(notes), n);
    }

    /** `updateNote`: every note with the id of `n` becomes `n`. */
    method UpdateNote(n: Note)
      modifies this
      ensures notes == Replaced(old(notes), n)
      ensures storage == old(storage)[NOTES_KEY := notes]
      ensures Synced()
      ensures old(GetNote(n.id)).Some? ==> GetNote(n.id) == Some(n)
      ensures old(GetNote(n.id)).None? ==> notes == old(notes)
    {
      if FindNote(notes, n.id).Some? {
        FindAfterReplace(notes, n);
      } else {
        ReplacedAbsent(notes, n);
      }
      Persist(Replaced(notes, n));
    }

    /** `deleteNote`: every note with the id goes. */
    method DeleteNote(id: string)
      modifies this
      ensures notes == Removed(old(notes), id)
      ensures storage == old(storage)[NOTES_KEY := notes]
      ensures Synced() && GetNote(id).None?
    {
      FindAfterRemove(notes, id);
      Persist(Removed(notes, id));
    }

    /** `clearAll`: an empty list. */
    method ClearAll()
      modifies this
      ensures notes == []
      ensures storage == old(storage)[NOTES_KEY := []]
      ensures Synced()
    {
      Persist([]);
    }

    /** `getNote`: the first note with the id, from the current list; with
        duplicate ids the earlier one wins. */
    function GetNote(id: string): (r: Option<Note>)
      reads this
      ensures r.Some? ==> r.value in notes && r.value.id == id
      ensures r.None? <==> forall x :: x in notes ==> x.id != id
      ensures r.Some? ==>
        exists i :: 0 <= i < |notes| && notes[i] == r.value && (forall j :: 0 <= j < i ==> notes[j].id != id)
    {
      FindNote(notes, id)
    }
  }
}
