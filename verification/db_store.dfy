/**
 * `DBNoteStore`: an IndexedDB object store with key path `id`, modelled as
 * a map from id to note.
 */
module DbStore {
  import opened Wrappers
  import opened Notes

  /** The object store's key path: every record sits under its own id. */
  ghost predicate KeyedById(m: map<string, Note>)
  {
    forall k :: k in m ==> m[k].id == k
  }

  class DBNoteStore {
    /** The object store's records by key. */
    var records: map<string, Note>

    ghost predicate Valid()
      reads this
    {
      KeyedById(records)
    }

    /** A store opened on a database that already holds `stored`. */
    constructor(stored: map<string, Note>)
      requires KeyedById(stored)
      ensures Valid() && records == stored
    {
      records := stored;
    }

    /** `all()`: every stored record, unfiltered (as a map; see README for order). */
    function All(): (r: map<string, Note>)
      reads this
      ensures r.Keys == records.Keys
      ensures forall k :: k in r ==> r[k] == records[k]
    {
      records
    }

    /** `get(id)`: the record under `id`, or `undefined`. */
    function Get(id: string): (r: Option<Note>)
      reads this
      ensures r.Some? <==> id in records
      ensures r.Some? ==> r.value == records[id]
      ensures Valid() && r.Some? ==> r.value.id == id
    {
      if id in records then Some(records[id]) else None
    }

    /**
     * `add(note)`: inserts a fresh record with `created = updated = now`,
     * copying only type and content. Object-store `add` never overwrites: when
     * the key is taken the request fails and nothing is written (`added` false).
     */
    method Add(draft: Draft, now: nat) returns (added: bool)
      requires Valid()
      modifies this
      ensures Valid()
      ensures added <==> NoteId(now) !in old(records)
      ensures added ==> records == old(records)[NoteId(now) := Note(NoteId(now), draft.kind, draft.content, now, Some(now), None)]
      ensures !added ==> records == old(records)
    {
      var entry := Note(NoteId(now), draft.kind, draft.content, now, Some(now), None);
      if entry.id in records {
        added := false;
      } else {
        records := records[entry.id := entry];
        added := true;
      }
    }

    /** `reset()`: clears the object store. */
    method Reset()
      modifies this
      ensures Valid()
      ensures records == map[]
    {
      records := map[];
    }

    /** `remove({id})`: deletes the key `id` and nothing else. */
    method Remove(id: string)
      requires Valid()
      modifies this
      ensures Valid()
      ensures records == old(records) - {id}
    {
      records := records - {id};
    }

    /**
     * `update(note)`: stamps the caller's note with `updated = now` and puts
     * it under its id, inserting or replacing; other keys are untouched.
     */
    method Update(note: Note, now: nat) returns (stamped: Note)
      requires Valid()
      modifies this
      ensures Valid()
      ensures stamped == note.(updated := Some(now))
      ensures records == old(records)[note.id := stamped]
    {
      stamped := note.(updated := Some(now));
      records := records[stamped.id := stamped];
    }
  }
}
