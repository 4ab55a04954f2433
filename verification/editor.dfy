/**
 * The `editable-area` and `task-list-item` custom elements, reduced to
 * their text buffer: a textarea's value with its selection, the display
 * rendering of that value, and the boolean attributes they parse. The
 * three copies of `EditableArea` (the current components file, the earlier
 * components file and the earlier single-file app) are the same code and
 * share this model.
 */
module Editor {
  import opened Wrappers
  import opened Strings

  /**
   * A textarea: its value and its selection. A collapsed selection
   * (`selectionStart == selectionEnd`) is the caret.
   */
  datatype InputElement = InputElement(value: string, selectionStart: nat, selectionEnd: nat)
  {
    /** A browser keeps the selection ordered and inside the value. */
    ghost predicate Valid()
    {
      selectionStart <= selectionEnd <= |value|
    }
  }

  /**
   * Assigning a textarea's `value`: when the text changes, the selection
   * collapses to the end of the new text; otherwise it stays.
   */
  function SetValue(e: InputElement, text: string): (r: InputElement)
    requires e.Valid()
    ensures r.Valid() && r.value == text
  {
    if text == e.value then e else InputElement(text, |text|, |text|)
  }

  /**
   * `setSelectionRange(start, end)`: both offsets are clamped to the value's
   * length, and a start past the end is moved back to the end.
   */
  function SetSelectionRange(e: InputElement, start: nat, end: nat): (r: InputElement)
    ensures r.Valid() && r.value == e.value
  {
    var end' := if end > |e.value| then |e.value| else end;
    var start' := if start > end' then end' else start;
    InputElement(e.value, start', end')
  }

  /** Assigning `selectionStart`: the end is first pushed up to the new start if it lies before it. */
  function SetSelectionStart(e: InputElement, start: nat): (r: InputElement)
    ensures r.Valid() && r.value == e.value
  {
    SetSelectionRange(e, start, if e.selectionEnd < start then start else e.selectionEnd)
  }

  /** Assigning `selectionEnd`: the start is kept. */
  function SetSelectionEnd(e: InputElement, end: nat): (r: InputElement)
    ensures r.Valid() && r.value == e.value
  {
    SetSelectionRange(e, e.selectionStart, end)
  }

  /** `list.includes(v)` where `v` may be `undefined`, which no string equals. */
  predicate Includes(list: seq<string>, v: Option<string>)
  {
    exists i :: 0 <= i < |list| && v == Some(list[i])
  }

  /**
   * The parse of the `readonly` and `checked` attributes: set exactly when
   * the attribute is present with value `""` or `"true"`; an absent
   * attribute (`None`) is unset.
   */
  function AttributeIsSet(attr: Option<string>): (isSet: bool)
    ensures isSet <==> attr == Some("") || attr == Some("true")
    ensures attr.None? ==> !isSet
  {
    assert Includes(["", "true"], Some("")) by { assert ["", "true"][0] == ""; }
    assert Includes(["", "true"], Some("true")) by { assert ["", "true"][1] == "true"; }
    Includes(["", "true"], attr)
  }

  /** A string with no carriage return and no line feed. */
  predicate NoBreaks(s: string)
  {
    '\r' !in s && '\n' !in s
  }

  /**
   * `text.replace(/(?:\r\n|\r|\n)/g, "<br>")`: scanning left to right, a
   * `\r\n` pair is one match (the first alternative is tried first), and a
   * lone `\r` or `\n` is another.
   */
  function ReplaceBreaks(s: string): (r: string)
    ensures NoBreaks(r)
    decreases |s|
  {
    if s == [] then []
    else if s[0] == '\r' && |s| > 1 && s[1] == '\n' then "<br>" + ReplaceBreaks(s[2..])
    else if s[0] == '\r' || s[0] == '\n' then "<br>" + ReplaceBreaks(s[1..])
    else [s[0]] + ReplaceBreaks(s[1..])
  }

  /**
   * `renderText` / `render`: the display HTML of a textarea value. Every
   * line break becomes `<br>`, and one more `<br>` closes the text.
   */
  function RenderText(text: string): (html: string)
    ensures |html| >= 4 && html[|html| - 4..] == "<br>"
    ensures NoBreaks(html)
    ensures NoBreaks(text) ==> html == text + "<br>"
  {
    var body := ReplaceBreaks(text);
    assert NoBreaks(text) ==> body == text by {
      if NoBreaks(text) {
        ReplaceBreaksPrefix(text, []);
        assert text + [] == text;
      }
    }
    assert (body + "<br>")[|body|..] == "<br>";
    assert NoBreaks("<br>");
    body + "<br>"
  }

  /** Text without breaks passes through unchanged, whatever follows it. */
  lemma {:induction false} ReplaceBreaksPrefix(a: string, rest: string)
    requires NoBreaks(a)
    ensures ReplaceBreaks(a + rest) == a + ReplaceBreaks(rest)
  {
    if a == [] {
      assert a + rest == rest;
    } else {
      var c, t := a[0], a[1..];
      assert NoBreaks(t) && c != '\r' && c != '\n' && a + rest == [c] + (t + rest) by {
        assert c in a;
        assert a == [c] + t;
      }
      ReplaceBreaksPrefix(t, rest);
      ReplaceBreaksOther(c, t + rest);
      assert [c] + (t + ReplaceBreaks(rest)) == a + ReplaceBreaks(rest) by {
        assert a == [c] + t;
      }
    }
  }

  /** A character other than a break is copied as it is. */
  lemma ReplaceBreaksOther(c: char, t: string)
    requires c != '\r' && c != '\n'
    ensures ReplaceBreaks([c] + t) == [c] + ReplaceBreaks(t)
  {
    assert ([c] + t)[1..] == t;
  }

  /** The three line-break forms the expression matches. */
  predicate IsLineBreak(sep: string)
  {
    sep == "\r\n" || sep == "\r" || sep == "\n"
  }

  /**
   * Lines joined by any one break form render as the same lines joined by
   * `<br>`: every break becomes exactly one `<br>`, and `\r\n` is never
   * read as two breaks.
   */
  lemma {:induction false} ReplaceBreaksLines(lines: seq<string>, sep: string)
    requires IsLineBreak(sep)
    requires forall i :: 0 <= i < |lines| ==> NoBreaks(lines[i])
    ensures ReplaceBreaks(Join(lines, sep)) == Join(lines, "<br>")
  {
    if |lines| == 1 {
      ReplaceBreaksPrefix(lines[0], []);
      assert lines[0] + [] == lines[0];
    } else if |lines| > 1 {
      var head, rest := lines[0], lines[1..];
      var tail, out := Join(rest, sep), Join(rest, "<br>");
      assert Join(lines, sep) == head + (sep + tail) by {
        assert Join(lines, sep) == head + sep + tail;
      }
      assert Join(lines, "<br>") == head + ("<br>" + out) by {
        assert Join(lines, "<br>") == head + "<br>" + out;
      }
      ReplaceBreaksLines(rest, sep);
      ReplaceBreaksPrefix(head, sep + tail);
      if sep == "\r" && tail != [] {
        JoinHead(rest, sep);
      }
      ReplaceBreaksSeparator(sep, tail);
    }
  }

  /** One break form in front of text becomes one `<br>`, unless a lone `\r` would pair with a following `\n`. */
  lemma ReplaceBreaksSeparator(sep: string, tail: string)
    requires IsLineBreak(sep)
    requires sep == "\r" && tail != [] ==> tail[0] != '\n'
    ensures ReplaceBreaks(sep + tail) == "<br>" + ReplaceBreaks(tail)
  {
    if sep == "\r\n" {
      assert (sep + tail)[2..] == tail;
    } else {
      assert (sep + tail)[1..] == tail;
    }
  }

  /** A join of break-free lines by a break form starts with a line's character or with the separator. */
  lemma JoinHead(lines: seq<string>, sep: string)
    requires IsLineBreak(sep) && |lines| > 0
    requires forall i :: 0 <= i < |lines| ==> NoBreaks(lines[i])
    requires Join(lines, sep) != []
    ensures Join(lines, sep)[0] != '\n' || sep == "\n"
  {
    if lines[0] != [] {
      assert Join(lines, sep)[0] == lines[0][0];
    }
  }

  /** The textarea part of an `editable-area`. */
  class EditableArea {
    /** The textarea's value and selection. */
    var input: InputElement
    /** The textarea's `disabled` flag, driven by the `readonly` attribute. */
    var disabled: bool

    ghost predicate Valid()
      reads this
    {
      input.Valid()
    }

    /**
     * `connectedCallback`: a fresh textarea receives the element's text
     * content, so the caret sits at its end; then the `readonly` attribute
     * is read.
     */
    constructor(text: string, readonlyAttr: Option<string>)
      ensures Valid()
      ensures input == InputElement(text, |text|, |text|)
      ensures disabled == AttributeIsSet(readonlyAttr)
    {
      input := SetValue(InputElement("", 0, 0), text);
      disabled := AttributeIsSet(readonlyAttr);
    }

    /** `set value(text)`: replaces the text; a change moves the caret to the end. */
    method SetText(text: string)
      requires Valid()
      modifies this
      ensures Valid()
      ensures input.value == text
      ensures text == old(input.value) ==> input == old(input)
      ensures text != old(input.value) ==> input.selectionStart == input.selectionEnd == |text|
      ensures disabled == old(disabled)
    {
      input := SetValue(input, text);
    }

    /** `focusStart()`: collapses the selection to the start of the text (focus itself is not modelled). */
    method FocusStart()
      requires Valid()
      modifies this
      ensures Valid()
      ensures input == old(input).(selectionStart := 0, selectionEnd := 0)
      ensures CursorAtStart()
      ensures disabled == old(disabled)
    {
      input := SetSelectionEnd(input, 0);
    }

    /** `focusEnd()`: collapses the selection to the end of the text. */
    method FocusEnd()
      requires Valid()
      modifies this
      ensures Valid()
      ensures input == old(input).(selectionStart := |old(input.value)|, selectionEnd := |old(input.value)|)
      ensures CursorAtEnd()
      ensures disabled == old(disabled)
    {
      input := SetSelectionStart(input, |input.value|);
    }

    /**
     * `cutTextAfterCursor()`: keeps the text before the selection start and
     * returns the rest. Nothing is lost: kept text and returned text
     * concatenate to the old value. The caret ends at the end of what is kept.
     */
    method CutTextAfterCursor() returns (tail: string)
      requires Valid()
      modifies this
      ensures Valid()
      ensures input.value + tail == old(input.value)
      ensures |input.value| == old(input.selectionStart)
      ensures input.selectionStart == input.selectionEnd == |input.value|
      ensures CursorAtEnd()
      ensures disabled == old(disabled)
    {
      var cursorPos := input.selectionStart;
      var text := input.value;
      input := SetValue(input, text[..cursorPos]);
      tail := text[cursorPos..];
    }

    /**
     * `append(text)`: adds `text` after the value, then puts back the
     * selection it had before, which the assignment had moved.
     */
    method Append(text: string)
      requires Valid()
      modifies this
      ensures Valid()
      ensures input == InputElement(old(input.value) + text, old(input.selectionStart), old(input.selectionEnd))
      ensures disabled == old(disabled)
    {
      var cursorStartPos := input.selectionStart;
      var cursorEndPos := input.selectionEnd;
      input := SetValue(input, input.value + text);
      input := SetSelectionStart(input, cursorStartPos);
      input := SetSelectionEnd(input, cursorEndPos);
    }

    /**
     * `cursorAtStart()`: tests `selectionEnd === 0`; in a valid textarea
     * that is a caret at the very start.
     */
    function CursorAtStart(): (atStart: bool)
      reads this
      ensures Valid() ==> (atStart <==> input.selectionStart == 0 && input.selectionEnd == 0)
    {
      input.selectionEnd == 0
    }

    /**
     * `cursorAtEnd()`: tests `selectionStart === value.length`; in a valid
     * textarea that is a caret at the very end.
     */
    function CursorAtEnd(): (atEnd: bool)
      reads this
      ensures Valid() ==> (atEnd <==> input.selectionStart == |input.value| && input.selectionEnd == |input.value|)
    {
      input.selectionStart == |input.value|
    }

    /** `#updateReadonly()`: disables the textarea exactly when `readonly` is set. */
    method UpdateReadonly(readonlyAttr: Option<string>)
      modifies this
      ensures disabled == AttributeIsSet(readonlyAttr)
      ensures input == old(input)
    {
      disabled := AttributeIsSet(readonlyAttr);
    }
  }

  /** The checkbox part of a `task-list-item`. */
  class TaskListItem {
    /** The checkbox's `checked` flag. */
    var checked: bool

    constructor(checkedAttr: Option<string>)
      ensures checked == AttributeIsSet(checkedAttr)
    {
      checked := AttributeIsSet(checkedAttr);
    }

    /** `#updateChecked()`: ticks the checkbox exactly when the `checked` attribute is set. */
    method UpdateChecked(checkedAttr: Option<string>)
      modifies this
      ensures checked <==> checkedAttr == Some("") || checkedAttr == Some("true")
    {
      checked := AttributeIsSet(checkedAttr);
    }
  }
}
