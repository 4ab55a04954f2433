/**
 * The earlier local-storage `NoteStore`: the same array store, except that
 * notes carry only a `created` stamp and `update` stamps nothing.
 */
module LegacyStore {
  import opened Wrappers
  import opened Notes
  import opened NoteList

  class NoteStore {
    /** The `notes` array, in display order. */
    var notes: seq<Note>

    /** The store as `#readStorage` leaves it: the notes found in local storage. */
    constructor(stored: seq<Note>)
      ensures notes == stored
    {
      notes := stored;
    }

    /** `all`: the current array. */
    function All(): (r: seq<Note>)
      reads this
      ensures r == notes
    {
      notes
    }

    /** `get(id)`: the first note with that id, or nothing. */
    function Get(id: string): (r: Option<Note>)
      reads this
      ensures r.None? <==> forall n :: n in notes ==> n.id != id
      ensures r.Some? ==> r.value in notes && r.value.id == id
      ensures r == Find(notes, id)
    {
      Find(notes, id)
    }

    /**
     * `add(note)`: prepends a fresh note. The clock is read twice, once for
     * the id (`Date.now()`) and once for `created` (`new Date()`), so the
     * two readings are separate parameters. No `updated` or `deleted` field.
     */
    method Add(draft: Draft, idClock: nat, createdAt: int)
      modifies this
      ensures notes == [Note(NoteId(idClock), draft.kind, draft.content, createdAt, None, None)] + old(notes)
      ensures notes[1..] == old(notes)
    {
      notes := [Note(NoteId(idClock), draft.kind, draft.content, createdAt, None, None)] + notes;
    }

    /** `reset()`: forgets every note. */
    method Reset()
      modifies this
      ensures notes == []
    {
      notes := [];
    }

    /** `remove({id})`: drops every note with that id and keeps the rest in order. */
    method Remove(id: string)
      modifies this
      ensures notes == Without(old(notes), id)
      ensures forall n :: n in notes <==> n in old(notes) && n.id != id
    {
      notes := Without(notes, id);
    }

    /** `update(note)`: puts `note`, untouched, in place of every note with its id. */
    method Update(note: Note)
      modifies this
      ensures notes == ReplaceById(old(notes), note)
      ensures |notes| == |old(notes)|
      ensures forall i :: 0 <= i < |notes| ==>
                notes[i] == if old(notes)[i].id == note.id then note else old(notes)[i]
    {
      notes := ReplaceById(notes, note);
    }
  }
}
