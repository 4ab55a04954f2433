/**
 * The note record shared by every store. Stores keep JavaScript objects;
 * here a field that may be `null` or missing is an `Option`, `None`
 * standing for both (the code only ever tests such fields for truthiness
 * or compares them with `>`).
 */
module Notes {
  import opened Wrappers
  import Strings

  /** One checklist entry of a tasklist note. */
  datatype Task = Task(checked: bool, content: string)

  /** A note's `content`: a string for a `note`, an array of tasks for a `tasklist`. */
  datatype Content = TextContent(text: string) | TaskContent(tasks: seq<Task>)

  /** A stored note. `kind` is the JavaScript `type` field. Timestamps are milliseconds. */
  datatype Note = Note(
    id: string,
    kind: string,
    content: Content,
    created: int,
    updated: Option<int>,
    deleted: Option<int>)

  /** The `{type, content}` object a form hands to a store's `add`. */
  datatype Draft = Draft(kind: string, content: Content)

  /** The id every store gives a note added at clock value `now`: `"id_" + now`. */
  function NoteId(now: nat): (id: string)
    ensures |id| > 3 && id[..3] == "id_"
    ensures id[3..] == Strings.NatToString(now)
  {
    "id_" + Strings.NatToString(now)
  }

  /** Ids of added notes collide exactly when they were added in the same millisecond. */
  lemma NoteIdInjective(a: nat, b: nat)
    ensures NoteId(a) == NoteId(b) <==> a == b
  {
    if NoteId(a) == NoteId(b) {
      assert NoteId(a)[3..] == Strings.NatToString(a);
      assert NoteId(b)[3..] == Strings.NatToString(b);
      Strings.NatToStringInjective(a, b);
    }
  }

  /** JavaScript truthiness of a nullable timestamp: null and 0 are falsy. */
  predicate Truthy(t: Option<int>)
  {
    t.Some? && t.value != 0
  }

  /** JavaScript `t > 0` for a nullable timestamp: false for null. */
  predicate Positive(t: Option<int>)
  {
    t.Some? && t.value > 0
  }

  /** A tombstone is a note whose `deleted` field is truthy. */
  predicate IsTombstone(n: Note)
  {
    Truthy(n.deleted)
  }
}
