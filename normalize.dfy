/**
 * The record `report` builds for anything that is not a native Error: the first
 * line, with the when.js header deleted, becomes the message, and the other
 * lines, joined again, become the stack.
 */
module Normalize {
  import opened Wrappers
  import opened Lines
  import Header

  /** The `name` of every record built here. */
  const RejectionName: string := "Promise rejection"

  /**
   * The error `report` throws for an empty array (`replace` called on the
   * undefined that `shift()` gives) and for a value without `shift`. The
   * language fixes only the error's type; the wording of its message differs
   * between JavaScript engines, so the model keeps the type alone.
   */
  const TypeError: string := "TypeError"

  /** The object literal `{name, message, stack}` handed to Raygun.send. */
  datatype Record = Record(name: string, message: string, stack: string)

  /**
   * The record built from an array of lines: `shift()` takes the title, the
   * header is deleted from it, and the remaining lines are joined with '\n'.
   * On an empty array `shift()` yields undefined and calling `replace` on it
   * throws a TypeError.
   */
  function FromLines(lines: seq<string>): (r: Result<Record>)
    ensures r.Success? <==> |lines| > 0
    ensures r.Success? ==> r.value.name == RejectionName
  {
    if |lines| == 0 then Failure(TypeError)
    else Success(Record(RejectionName, Header.Strip(lines[0]), Join(lines[1..])))
  }

  /** The record built from a string, which is first split on '\n'. Never fails. */
  function FromString(s: string): (r: Record)
    ensures r.name == RejectionName
  {
    FromLines(Split(s)).value
  }

  /** The message comes from the text before the first newline, the stack is everything after it. */
  lemma {:induction false} FromStringFirstNewline(title: string, rest: string)
    requires NewLine !in title
    ensures FromString(title + [NewLine] + rest) == Record(RejectionName, Header.Strip(title), rest)
  {
    var s := title + [NewLine] + rest;
    var k := IndexOf(s, NewLine);
    assert s[|title|] == NewLine;
    assert k == |title| by {
      assert forall i :: 0 <= i < |title| ==> s[i] == title[i];
    }
    assert s[..k] == title;
    assert s[k + 1..] == rest;
    SplitTail(s);
  }

  /** A single line yields an empty stack, and the message is the line less its header. */
  lemma {:induction false} FromStringSingleLine(s: string)
    requires NewLine !in s
    ensures FromString(s) == Record(RejectionName, Header.Strip(s), "")
  {
    assert IndexOf(s, NewLine) == |s|;
    assert Split(s) == [s];
  }

  /**
   * Without a header in the first line nothing is lost: message, newline and
   * stack put back together give the input.
   */
  lemma {:induction false} FromStringRoundTrip(title: string, rest: string)
    requires NewLine !in title && !Header.HasMatch(title)
    ensures var r := FromString(title + [NewLine] + rest);
      r.message + [NewLine] + r.stack == title + [NewLine] + rest
  {
    FromStringFirstNewline(title, rest);
    Header.StripUnchangedIff(title);
  }

  /** An array of lines is reported exactly as the string they join to. */
  lemma {:induction false} FromLinesAsJoined(lines: seq<string>)
    requires |lines| >= 1
    requires forall i :: 0 <= i < |lines| ==> NewLine !in lines[i]
    ensures FromLines(lines) == Success(FromString(Join(lines)))
  {
    SplitJoin(lines);
  }

  /** A when.js rejection whose error message shares the header's line. */
  lemma {:induction false} WhenRejectionExample(title: string, rest: string)
    requires title == "Potentially unhandled rejection [1] Error: boom"
    requires rest == "at foo.js:10"
    ensures FromString(title + "\n" + rest) == Record("Promise rejection", "Error: boom", "at foo.js:10")
  {
    LiteralWithoutNewline(title, "Potentially unhandled ", "rejection [1] Error: boom");
    FromStringFirstNewline(title, rest);
    Header.StripHeaderBeforeMessage(title);
  }

  /**
   * A header on a line of its own leaves an empty message, and every line after
   * it goes to the stack.
   */
  lemma {:induction false} HeaderLineExample(title: string, rest: string)
    requires title == "Potentially unhandled rejection [0]"
    requires rest == "Error: boom\nat foo.js:10"
    ensures FromString(title + "\n" + rest) == Record("Promise rejection", "", "Error: boom\nat foo.js:10")
  {
    LiteralWithoutNewline(title, "Potentially unhandled ", "rejection [0]");
    FromStringFirstNewline(title, rest);
    Header.StripBareHeader(title);
  }

  /** A text given in two newline-free pieces has no newline. */
  lemma LiteralWithoutNewline(s: string, a: string, b: string)
    requires s == a + b && NewLine !in a && NewLine !in b
    ensures NewLine !in s
  {
  }

  /** A plain single line is kept whole as the message. */
  lemma {:induction false} SingleLineExample(s: string)
    requires s == "Just one line"
    ensures FromString(s) == Record("Promise rejection", "Just one line", "")
  {
    FromStringSingleLine(s);
    Header.ShortTitleUnchanged(s);
  }
}
