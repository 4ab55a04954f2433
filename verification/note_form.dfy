/**
 * The `note-form` component's data: the `{type, content}` note it edits,
 * and the conversions that keep the content's shape in step with the type
 * (text for a `note`, a list of tasks for a `tasklist`).
 */
module NoteForm {
  import opened Wrappers
  import opened Strings
  import opened Notes

  /** The texts of a task list, in order. */
  function Contents(tasks: seq<Task>): (lines: seq<string>)
    ensures |lines| == |tasks|
    ensures forall i :: 0 <= i < |tasks| ==> lines[i] == tasks[i].content
  {
    seq(|tasks|, i requires 0 <= i < |tasks| => tasks[i].content)
  }

  /** `convertToTaskList(note)`: one unchecked task per `\n`-separated line. */
  function ConvertToTaskList(note: string): (tasks: seq<Task>)
    ensures |tasks| == Count(note, '\n') + 1
    ensures forall i :: 0 <= i < |tasks| ==> !tasks[i].checked && '\n' !in tasks[i].content
    ensures Contents(tasks) == Split(note, '\n')
  {
    SplitLength(note, '\n');
    var lines := Split(note, '\n');
    seq(|lines|, i requires 0 <= i < |lines| => Task(false, lines[i]))
  }

  /** `convertToNote(tasks)`: the task texts, one per line; the ticks are dropped. */
  function ConvertToNote(tasks: seq<Task>): (note: string)
    ensures |tasks| == 0 ==> note == ""
    ensures SingleLines(tasks) ==> Split(note, '\n') == Contents(tasks)
  {
    var note := Join(Contents(tasks), "\n");
    assert SingleLines(tasks) ==> Split(note, '\n') == Contents(tasks) by {
      if SingleLines(tasks) {
        SplitJoin(Contents(tasks), '\n');
      }
    }
    note
  }

  /** A non-empty list of tasks none of whose texts holds a `\n`. */
  predicate SingleLines(tasks: seq<Task>)
  {
    |tasks| >= 1 && forall i :: 0 <= i < |tasks| ==> '\n' !in tasks[i].content
  }

  /** Text turned into a task list and back is the same text. */
  lemma ConvertRoundTrip(note: string)
    ensures ConvertToNote(ConvertToTaskList(note)) == note
  {
    JoinSplit(note, '\n');
  }

  /**
   * A non-empty list of unchecked single-line tasks turned into text and
   * back is the same list. (An empty list comes back as one empty task, a
   * ticked task comes back unticked, a multi-line task comes back split.)
   */
  lemma ConvertBack(tasks: seq<Task>)
    requires |tasks| >= 1
    requires forall i :: 0 <= i < |tasks| ==> !tasks[i].checked && '\n' !in tasks[i].content
    ensures ConvertToTaskList(ConvertToNote(tasks)) == tasks
  {
    SplitJoin(Contents(tasks), '\n');
  }

  /** `typeof content`: text is a `"string"`, an array of tasks an `"object"`. */
  function TypeOf(c: Content): string
  {
    match c
    case TextContent(_) => "string"
    case TaskContent(_) => "object"
  }

  /** The conversions `contentMap` holds. */
  datatype Conversion = Identity | ToNote | ToTaskList

  /** `contentMap`, keyed by `` `${type}_${typeof content}` ``. */
  const CONTENT_MAP: map<string, Conversion> :=
    map["note_string" := Identity, "note_object" := ToNote,
        "tasklist_object" := Identity, "tasklist_string" := ToTaskList]

  /**
   * A conversion applied to a content. Applied to content of the other
   * shape it throws (`split` and `map` are not methods of the other type).
   */
  function Apply(conv: Conversion, c: Content): Option<Content>
  {
    match conv
    case Identity => Some(c)
    case ToNote => if c.TaskContent? then Some(TextContent(ConvertToNote(c.tasks))) else None
    case ToTaskList => if c.TextContent? then Some(TaskContent(ConvertToTaskList(c.text))) else None
  }

  /** The `contentMap` key of a type and a content. */
  function ContentKey(kind: string, c: Content): string
  {
    kind + "_" + TypeOf(c)
  }

  /** Content of the shape its type calls for. */
  predicate Shaped(kind: string, c: Content)
  {
    (kind == "note" && c.TextContent?) || (kind == "tasklist" && c.TaskContent?)
  }

  /** A key names the type `kind` exactly when its part before `_string` or `_object` is `kind`. */
  lemma ContentKeyIs(kind: string, c: Content, known: string)
    requires known == "note" || known == "tasklist"
    ensures ContentKey(kind, c) == known + "_" + TypeOf(c) <==> kind == known
    ensures kind == known ==> ContentKey(kind, c) in CONTENT_MAP
  {
    var key := ContentKey(kind, c);
    if key == known + "_" + TypeOf(c) {
      assert |kind| == |known|;
      assert key[..|kind|] == kind;
      assert key[..|known|] == known;
    }
    if kind == known {
      assert key in CONTENT_MAP by {
        assert "note" + "_" + "string" == "note_string";
        assert "note" + "_" + "object" == "note_object";
        assert "tasklist" + "_" + "string" == "tasklist_string";
        assert "tasklist" + "_" + "object" == "tasklist_object";
      }
    }
  }

  /** Only the two types have entries, each for both content shapes. */
  lemma ContentKeyKnown(kind: string, c: Content)
    ensures ContentKey(kind, c) in CONTENT_MAP <==> kind == "note" || kind == "tasklist"
  {
    ContentKeyIs(kind, c, "note");
    ContentKeyIs(kind, c, "tasklist");
    var key := ContentKey(kind, c);
    if key in CONTENT_MAP {
      assert key[|key| - 6..] == TypeOf(c);
      assert key == "note_string" || key == "note_object" || key == "tasklist_object" || key == "tasklist_string";
      if c.TextContent? {
        assert key == "note_string" || key == "tasklist_string";
      } else {
        assert key == "note_object" || key == "tasklist_object";
      }
    }
  }

  /**
   * The content `#setContent` leaves for a type: the matching conversion
   * from `contentMap`, or `None` when it throws (a type with no entry, so
   * the looked-up conversion is `undefined`).
   */
  function Normalise(kind: string, c: Content): (r: Option<Content>)
    ensures r.Some? <==> kind == "note" || kind == "tasklist"
    ensures r.Some? ==> Shaped(kind, r.value)
    ensures Shaped(kind, c) ==> r == Some(c)
    ensures kind == "note" && c.TaskContent? ==> r == Some(TextContent(ConvertToNote(c.tasks)))
    ensures kind == "tasklist" && c.TextContent? ==> r == Some(TaskContent(ConvertToTaskList(c.text)))
  {
    ContentKeyIs(kind, c, "note");
    ContentKeyIs(kind, c, "tasklist");
    ContentKeyKnown(kind, c);
    var key := ContentKey(kind, c);
    assert kind == "note" && c.TextContent? ==> key == "note_string";
    assert kind == "note" && c.TaskContent? ==> key == "note_object";
    assert kind == "tasklist" && c.TextContent? ==> key == "tasklist_string";
    assert kind == "tasklist" && c.TaskContent? ==> key == "tasklist_object";
    if key in CONTENT_MAP then Apply(CONTENT_MAP[key], c) else None
  }

  /** Normalising twice for the same type changes nothing more. */
  lemma NormaliseIdempotent(kind: string, c: Content)
    requires Normalise(kind, c).Some?
    ensures Normalise(kind, Normalise(kind, c).value) == Normalise(kind, c)
  {
  }

  /** Switching a text note to a task list and back restores its text. */
  lemma SwitchBackRestoresText(text: string)
    ensures Normalise("note", Normalise("tasklist", TextContent(text)).value) == Some(TextContent(text))
  {
    ConvertRoundTrip(text);
  }

  /** The form's note before any input: an empty text note. */
  const EMPTY_NOTE: Draft := Draft("note", TextContent(""))

  class NoteForm {
    /** `this.note`: the type and content being edited. */
    var note: Draft

    /** A new form edits an empty text note. */
    constructor()
      ensures note == EMPTY_NOTE
    {
      note := EMPTY_NOTE;
    }

    /**
     * `#setContent()`: brings the content to the shape of the type. When the
     * type has no conversion the call throws and the note is left as it was.
     */
    method SetContent() returns (ok: bool)
      modifies this
      ensures ok <==> old(note.kind) == "note" || old(note.kind) == "tasklist"
      ensures ok ==> note.kind == old(note.kind) && Shaped(note.kind, note.content)
      ensures ok ==> note.content == Normalise(old(note.kind), old(note.content)).value
      ensures !ok ==> note == old(note)
    {
      var converted := Normalise(note.kind, note.content);
      if converted.Some? {
        note := note.(content := converted.value);
        ok := true;
      } else {
        ok := false;
      }
    }

    /** `load(note)`: edits the given note, normalising its content to its type. */
    method Load(d: Draft) returns (ok: bool)
      modifies this
      ensures ok <==> d.kind == "note" || d.kind == "tasklist"
      ensures ok ==> note == Draft(d.kind, Normalise(d.kind, d.content).value)
      ensures !ok ==> note == d
    {
      note := d;
      ok := SetContent();
    }

    /** `#reset()`: back to an empty text note. */
    method Reset()
      modifies this
      ensures note == EMPTY_NOTE
    {
      note := EMPTY_NOTE;
      var _ := SetContent();
    }

    /**
     * The task-list and note mode buttons: set the type, then convert the
     * content to it (text to one task per line, tasks to one line per task).
     */
    method SelectType(kind: string) returns (ok: bool)
      requires kind == "note" || kind == "tasklist"
      modifies this
      ensures ok
      ensures note.kind == kind && Shaped(kind, note.content)
      ensures note.content == Normalise(kind, old(note.content)).value
    {
      note := note.(kind := kind);
      ok := SetContent();
    }
  }
}
