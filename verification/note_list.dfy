/**
 * The array operations both in-memory `NoteStore` versions are built from:
 * `find` by id, `filter` out an id, and `map` replacing by id.
 */
module NoteList {
  import opened Wrappers
  import opened Notes

  /** `notes.find((note) => note.id === id)`: the first note with that id. */
  function Find(notes: seq<Note>, id: string): (r: Option<Note>)
    ensures r.None? <==> forall i :: 0 <= i < |notes| ==> notes[i].id != id
    ensures r.Some? ==> exists i :: 0 <= i < |notes| && notes[i] == r.value && r.value.id == id
                                    && forall j :: 0 <= j < i ==> notes[j].id != id
  {
    if notes == [] then None
    else if notes[0].id == id then Some(notes[0])
    else
      var r := Find(notes[1..], id);
      assert r.Some? ==> exists i :: 0 <= i < |notes[1..]| && notes[1..][i] == r.value && r.value.id == id
                                    && forall j :: 0 <= j < i ==> notes[1..][j].id != id;
      assert r.Some? ==> exists i :: 1 <= i < |notes| && notes[i] == r.value && r.value.id == id
                                    && forall j :: 1 <= j < i ==> notes[j].id != id;
      r
  }

  /** `notes.filter((note) => note.id !== id)`. */
  function Without(notes: seq<Note>, id: string): (r: seq<Note>)
    ensures |r| <= |notes|
    ensures forall n :: n in r <==> n in notes && n.id != id
  {
    if notes == [] then []
    else if notes[0].id == id then Without(notes[1..], id)
    else [notes[0]] + Without(notes[1..], id)
  }

  /** `notes.map((n) => (n.id === note.id ? note : n))`. */
  function ReplaceById(notes: seq<Note>, note: Note): (r: seq<Note>)
    ensures |r| == |notes|
    ensures forall i :: 0 <= i < |notes| ==> r[i] == (if notes[i].id == note.id then note else notes[i])
  {
    if notes == [] then []
    else [if notes[0].id == note.id then note else notes[0]] + ReplaceById(notes[1..], note)
  }

  /**
   * Filtering commutes with concatenation, so the kept notes stay in their
   * original relative order.
   */
  lemma {:induction false} WithoutAppend(a: seq<Note>, b: seq<Note>, id: string)
    ensures Without(a + b, id) == Without(a, id) + Without(b, id)
  {
    if a != [] {
      WithoutAppend(a[1..], b, id);
      assert (a + b)[1..] == a[1..] + b;
    } else {
      assert a + b == b;
    }
  }

  /** Filtering keeps every copy of every note with another id, and no copy of the removed id. */
  lemma {:induction false} WithoutCounts(notes: seq<Note>, id: string, n: Note)
    ensures multiset(Without(notes, id))[n] == if n.id == id then 0 else multiset(notes)[n]
  {
    if notes != [] {
      WithoutCounts(notes[1..], id, n);
      assert notes == [notes[0]] + notes[1..];
    }
  }

  /** Nothing is left to find under a removed id. */
  lemma FindWithout(notes: seq<Note>, id: string)
    ensures Find(Without(notes, id), id) == None
  {
  }

  /** A note put in front is what `find` returns for its id. */
  lemma FindFront(n: Note, notes: seq<Note>)
    ensures Find([n] + notes, n.id) == Some(n)
  {
  }

  /** After replacing, `find` returns the new note exactly when its id was present. */
  lemma {:induction false} FindReplaced(notes: seq<Note>, note: Note)
    ensures Find(ReplaceById(notes, note), note.id)
            == if Find(notes, note.id).Some? then Some(note) else None
  {
    if notes != [] && notes[0].id != note.id {
      FindReplaced(notes[1..], note);
      assert ReplaceById(notes, note)[1..] == ReplaceById(notes[1..], note);
    }
  }

  /** Replacing changes nothing that `find` returns for any other id. */
  lemma {:induction false} ReplaceKeepsOthers(notes: seq<Note>, note: Note, id: string)
    requires id != note.id
    ensures Find(ReplaceById(notes, note), id) == Find(notes, id)
  {
    if notes != [] {
      ReplaceKeepsOthers(notes[1..], note, id);
      assert ReplaceById(notes, note)[1..] == ReplaceById(notes[1..], note);
    }
  }
}
