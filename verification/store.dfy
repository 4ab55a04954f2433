/**
 * The local-storage `NoteStore` (the version that stamps `updated`): an
 * in-memory array of notes, newest first.
 */
module Store {
  import opened Wrappers
  import opened Notes
  import opened NoteList

  class NoteStore {
    /** The `notes` array, in display order. */
    var notes: seq<Note>

    /** The store as `#readStorage` leaves it: the notes found in local storage. */
    constructor(stored: seq<Note>)
      ensures notes == stored
    {
      notes := stored;
    }

    /** `all`: the current array, unfiltered and in order. */
    function All(): (r: seq<Note>)
      reads this
      ensures r == notes
    {
      notes
    }

    /** `get(id)`: the first note with that id, or nothing. */
    function Get(id: string): (r: Option<Note>)
      reads this
      ensures r.None? <==> forall n :: n in notes ==> n.id != id
      ensures r.Some? ==> r.value in notes && r.value.id == id
      ensures r == Find(notes, id)
    {
      Find(notes, id)
    }

    /** `add(note)`: prepends a fresh note stamped `created = updated = now`, copying only type and content. */
    method Add(draft: Draft, now: nat)
      modifies this
      ensures notes == [Note(NoteId(now), draft.kind, draft.content, now, Some(now), None)] + old(notes)
      ensures notes[1..] == old(notes)
    {
      notes := [Note(NoteId(now), draft.kind, draft.content, now, Some(now), None)] + notes;
    }

    /** `reset()`: forgets every note. */
    method Reset()
      modifies this
      ensures notes == []
    {
      notes := [];
    }

    /** `remove({id})`: drops every note with that id and keeps the rest in order. */
    method Remove(id: string)
      modifies this
      ensures notes == Without(old(notes), id)
      ensures forall n :: n in notes <==> n in old(notes) && n.id != id
    {
      notes := Without(notes, id);
    }

    /**
     * `update(note)`: stamps the caller's note with `updated = now` (the
     * argument is mutated; `stamped` is its new value) and puts it in place
     * of every note with the same id. Length and all other notes stay.
     */
    method Update(note: Note, now: nat) returns (stamped: Note)
      modifies this
      ensures stamped == note.(updated := Some(now))
      ensures notes == ReplaceById(old(notes), stamped)
      ensures |notes| == |old(notes)|
      ensures forall i :: 0 <= i < |notes| && old(notes)[i].id != note.id ==> notes[i] == old(notes)[i]
    {
      stamped := note.(updated := Some(now));
      notes := ReplaceById(notes, stamped);
    }
  }
}
