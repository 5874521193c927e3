/** The line-wrapping token writer behind the plain PPM ("P3") output (`PpmFormatter` in
    src/canvas.rs). Tokens are appended to the current line, separated by the separator; a
    token that would push the line past the maximum length first ends the line. Finished
    lines go to the output, each followed by a newline.

    The class keeps the source's two strings, and as ghost state the list of finished lines
    whose rendering the output is. Its methods are specified by Step, a function on a Layout
    (the finished lines and the current one); the properties of the output are proved about
    WriteAll, which applies Step to a whole list of tokens. */
module PpmFormatting {
  import opened Sequences

  /** The finished lines and the line being filled. */
  datatype Layout = Layout(lines: seq<string>, line: string)

  /** The text of finished lines: each line followed by a newline. */
  function Render(lines: seq<string>): string
  {
    if lines == [] then "" else Render(lines[..|lines| - 1]) + lines[|lines| - 1] + "\n"
  }

  /** One `write`: when the line, a separator and the token together exceed the maximum length
      the line is finished first (even when it is empty); the separator goes in only when the
      line is not empty. */
  function Step(layout: Layout, s: string, maxLength: nat, separator: string): Layout
  {
    var broke := |layout.line| + |separator| + |s| > maxLength;
    var lines := if broke then layout.lines + [layout.line] else layout.lines;
    var line := if broke then "" else layout.line;
    Layout(lines, if line == "" then s else line + separator + s)
  }

  /** The tokens written one after the other. */
  function WriteAll(layout: Layout, tokens: seq<string>, maxLength: nat, separator: string): Layout
  {
    if tokens == [] then layout
    else Step(WriteAll(layout, tokens[..|tokens| - 1], maxLength, separator), tokens[|tokens| - 1], maxLength, separator)
  }

  /** The lines of one block of tokens written from an empty line and then ended with
      `new_line`. */
  function BlockLines(tokens: seq<string>, maxLength: nat, separator: string): seq<string>
  {
    var layout := WriteAll(Layout([], ""), tokens, maxLength, separator);
    layout.lines + [layout.line]
  }

  /** The tokens joined as `write` joins them: a separator before each token except when the
      line so far is empty. */
  function JoinLine(tokens: seq<string>, separator: string): string
  {
    if tokens == [] then
      ""
    else
      var init := JoinLine(tokens[..|tokens| - 1], separator);
      if init == "" then tokens[|tokens| - 1] else init + separator + tokens[|tokens| - 1]
  }

  class PpmFormatter {
    const maxLength: nat
    const separator: string
    var output: string
    var line: string
    /** The lines written to the output so far. */
    ghost var lines: seq<string>

    ghost predicate Valid()
      reads this
    {
      output == Render(lines)
    }

    /** `PpmFormatter::new`: empty output and an empty current line. */
    constructor (maxLength: nat, separator: string)
      ensures this.maxLength == maxLength && this.separator == separator
      ensures Valid() && lines == [] && line == ""
    {
      this.maxLength := maxLength;
      this.separator := separator;
      output := "";
      line := "";
      lines := [];
    }

    /** `write`: one Step of the layout. */
    method Write(s: string)
      requires Valid()
      modifies this
      ensures Valid()
      ensures Layout(lines, line) == Step(Layout(old(lines), old(line)), s, maxLength, separator)
    {
      if |line| + |separator| + |s| > maxLength {
        NewLine();
      }
      if line != "" {
        line := line + separator;
      }
      line := line + s;
    }

    /** `new_line`: the current line and a newline go to the output; the line starts over. */
    method NewLine()
      requires Valid()
      modifies this
      ensures Valid()
      ensures output == old(output) + old(line) + "\n"
      ensures lines == old(lines) + [old(line)] && line == ""
    {
      RenderSnoc(lines, line);
      output := output + line + "\n";
      lines := lines + [line];
      line := "";
    }

    /** `flush`: ends the current line unless it is empty. */
    method Flush()
      requires Valid()
      modifies this
      ensures Valid()
      ensures lines == old(lines) + (if old(line) == "" then [] else [old(line)]) && line == ""
    {
      if line != "" {
        NewLine();
      }
    }

    /** `to_string`: flushes and returns the whole output. */
    method ToString() returns (s: string)
      requires Valid()
      modifies this
      ensures Valid() && s == output
      ensures lines == old(lines) + (if old(line) == "" then [] else [old(line)]) && line == ""
    {
      Flush();
      s := output;
    }
  }

  // ---------------------------------------------------------------------------------------------
  // Properties

  /** Finishing one more line appends it and a newline to the text. */
  lemma RenderSnoc(lines: seq<string>, l: string)
    ensures Render(lines + [l]) == Render(lines) + l + "\n"
  {
    assert (lines + [l])[..|lines|] == lines;
  }

  /** The text of finished lines is the text of the first ones followed by that of the rest. */
  lemma {:induction false} RenderAppend(a: seq<string>, b: seq<string>)
    ensures Render(a + b) == Render(a) + Render(b)
  {
    if b == [] {
      assert a + b == a;
    } else {
      var n := |b| - 1;
      assert (a + b)[..|a + b| - 1] == a + b[..n];
      assert (a + b)[|a + b| - 1] == b[n];
      RenderAppend(a, b[..n]);
    }
  }

  /** A Step adds at most one finished line, the same whatever lines were finished before. */
  lemma StepFromLines(lines: seq<string>, line: string, s: string, maxLength: nat, separator: string)
    ensures Step(Layout(lines, line), s, maxLength, separator) ==
            var started := Step(Layout([], line), s, maxLength, separator);
            Layout(lines + started.lines, started.line)
  {
  }

  /** Writing tokens no longer than the maximum, from a line within the maximum, keeps every
      finished line and the current line within the maximum: the source's wrapping of long
      lines. */
  lemma StepBounded(layout: Layout, s: string, maxLength: nat, separator: string)
    requires forall i :: 0 <= i < |layout.lines| ==> |layout.lines[i]| <= maxLength
    requires |layout.line| <= maxLength && |s| <= maxLength
    ensures var next := Step(layout, s, maxLength, separator);
      |next.line| <= maxLength && forall i :: 0 <= i < |next.lines| ==> |next.lines[i]| <= maxLength
  {
  }

  lemma {:induction false} WriteAllBounded(layout: Layout, tokens: seq<string>, maxLength: nat, separator: string)
    requires forall i :: 0 <= i < |layout.lines| ==> |layout.lines[i]| <= maxLength
    requires |layout.line| <= maxLength
    requires forall k :: 0 <= k < |tokens| ==> |tokens[k]| <= maxLength
    ensures var result := WriteAll(layout, tokens, maxLength, separator);
      |result.line| <= maxLength && forall i :: 0 <= i < |result.lines| ==> |result.lines[i]| <= maxLength
  {
    if tokens != [] {
      var n := |tokens| - 1;
      WriteAllBounded(layout, tokens[..n], maxLength, separator);
      StepBounded(WriteAll(layout, tokens[..n], maxLength, separator), tokens[n], maxLength, separator);
    }
  }

  /** The lines of a layout are the given token groups, and its current line the given
      current group, each joined with separators. */
  ghost predicate Describes(groups: seq<seq<string>>, current: seq<string>, layout: Layout, separator: string)
  {
    && |groups| == |layout.lines|
    && (forall i :: 0 <= i < |groups| ==> layout.lines[i] == JoinLine(groups[i], separator))
    && layout.line == JoinLine(current, separator)
  }

  /** A Step either finishes the current group and starts a new one holding the token, or
      adds the token to the current group; either way the token follows the others. */
  lemma StepDescribed(groups: seq<seq<string>>, current: seq<string>, layout: Layout, s: string,
                      maxLength: nat, separator: string)
    returns (groups': seq<seq<string>>, current': seq<string>)
    requires Describes(groups, current, layout, separator)
    ensures Flatten(groups') + current' == Flatten(groups) + current + [s]
    ensures Describes(groups', current', Step(layout, s, maxLength, separator), separator)
  {
    if |layout.line| + |separator| + |s| > maxLength {
      assert [s][..0] == [];
      FlattenStep(groups + [current], |groups|);
      assert (groups + [current])[..|groups| + 1] == groups + [current];
      assert (groups + [current])[..|groups|] == groups;
      groups', current' := groups + [current], [s];
    } else {
      assert (current + [s])[..|current|] == current;
      groups', current' := groups, current + [s];
    }
  }

  /** The output lines hold the tokens in the order they were written: the tokens split into
      consecutive groups, one per line, each line being its group joined with separators. */
  lemma {:induction false} TokensInOrder(tokens: seq<string>, maxLength: nat, separator: string)
    returns (groups: seq<seq<string>>, current: seq<string>)
    ensures Flatten(groups) + current == tokens
    ensures Describes(groups, current, WriteAll(Layout([], ""), tokens, maxLength, separator), separator)
  {
    if tokens == [] {
      groups, current := [], [];
    } else {
      var n := |tokens| - 1;
      groups, current := TokensInOrder(tokens[..n], maxLength, separator);
      var before := WriteAll(Layout([], ""), tokens[..n], maxLength, separator);
      assert WriteAll(Layout([], ""), tokens, maxLength, separator) == Step(before, tokens[n], maxLength, separator);
      assert tokens == tokens[..n] + [tokens[n]];
      groups, current := StepDescribed(groups, current, before, tokens[n], maxLength, separator);
    }
  }

  /** Writing one more token is one more Step. */
  lemma WriteAllSnoc(layout: Layout, tokens: seq<string>, t: string, maxLength: nat, separator: string)
    ensures WriteAll(layout, tokens + [t], maxLength, separator) ==
            Step(WriteAll(layout, tokens, maxLength, separator), t, maxLength, separator)
  {
    assert (tokens + [t])[..|tokens|] == tokens;
  }

  /** Rendered lines end with a newline. */
  lemma RenderEndsWithNewline(lines: seq<string>)
    requires lines != []
    ensures var text := Render(lines);
      |text| > 0 && text[|text| - 1] == '\n'
  {
  }

  /** Writing from a layout with finished lines gives those lines followed by what writing from
      no finished lines gives. */
  lemma {:induction false} WriteAllFromLines(lines: seq<string>, line: string, tokens: seq<string>,
                                            maxLength: nat, separator: string)
    ensures var started := WriteAll(Layout([], line), tokens, maxLength, separator);
      WriteAll(Layout(lines, line), tokens, maxLength, separator) == Layout(lines + started.lines, started.line)
  {
    if tokens != [] {
      var n := |tokens| - 1;
      WriteAllFromLines(lines, line, tokens[..n], maxLength, separator);
      var started := WriteAll(Layout([], line), tokens[..n], maxLength, separator);
      StepFromLines(started.lines, started.line, tokens[n], maxLength, separator);
      StepFromLines(lines + started.lines, started.line, tokens[n], maxLength, separator);
    }
  }

  /** A block of one token that fits is one line. One that does not fit even on an empty line,
      with the separator counted, comes after an empty line: the source measures the separator
      even when it will not be written. */
  lemma SingleTokenBlock(t: string, maxLength: nat, separator: string)
    ensures |separator| + |t| <= maxLength ==> BlockLines([t], maxLength, separator) == [t]
    ensures |separator| + |t| > maxLength ==> BlockLines([t], maxLength, separator) == ["", t]
  {
    WriteAllSnoc(Layout([], ""), [], t, maxLength, separator);
    assert [] + [t] == [t];
  }

  /** Every line of a block of tokens no longer than the maximum is within the maximum. */
  lemma BlockBounded(tokens: seq<string>, maxLength: nat, separator: string)
    requires forall k :: 0 <= k < |tokens| ==> |tokens[k]| <= maxLength
    ensures var block := BlockLines(tokens, maxLength, separator);
      forall i :: 0 <= i < |block| ==> |block[i]| <= maxLength
  {
    WriteAllBounded(Layout([], ""), tokens, maxLength, separator);
  }
}
