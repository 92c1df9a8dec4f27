/** The translation pass as the program runs it: one loop over the parsed
    records that pushes Markdown onto an output string and keeps the current
    left margin in a variable. Each method is proved to compute what the
    functions of module Markdown describe. */
module Translator {
  import opened Text
  import opened ParseTree
  import opened Markdown

  /** Pushes the token of every modifier of an `allowed_modifiers` pair. */
  method PushModifiers(output: string, modifiers: seq<Modifier>) returns (out: string)
    ensures out == output + ModifiersText(modifiers)
  {
    out := output;
    assert out == output + ModifiersText(modifiers[..0]) by {
      assert modifiers[..0] == [];
    }
    for i := 0 to |modifiers|
      invariant out == output + ModifiersText(modifiers[..i])
    {
      ghost var before := out;
      match modifiers[i] {
        case BoldModifier => out := out + "**";
        case ItalicsModifier => out := out + "*";
        case UnderlineModifier => out := out + "__";
        case OtherModifier =>
      }
      assert out == before + ModifierToken(modifiers[i]);
      ModifiersTextPrefix(modifiers, i);
    }
    assert out == output + ModifiersText(modifiers) by {
      assert modifiers[..|modifiers|] == modifiers;
    }
  }

  /** Pushes one inner pair of a normal line: displayed text verbatim,
      modifiers as their tokens, any other pair not at all. */
  method PushSegment(output: string, segment: Segment) returns (out: string)
    ensures out == output + SegmentText(segment)
  {
    match segment
    case DisplayedText(text) => out := output + text;
    case AllowedModifiers(modifiers) => out := PushModifiers(output, modifiers);
    case OtherPair => out := output;
  }

  /** Pushes the inner pairs of a normal line in order. */
  method PushSegments(output: string, segments: seq<Segment>) returns (out: string)
    ensures out == output + SegmentsText(segments)
  {
    out := output;
    assert out == output + SegmentsText(segments[..0]) by {
      assert segments[..0] == [];
    }
    for i := 0 to |segments|
      invariant out == output + SegmentsText(segments[..i])
    {
      out := PushSegment(out, segments[i]);
      SegmentsTextPrefix(segments, i);
    }
    assert out == output + SegmentsText(segments) by {
      assert segments[..|segments|] == segments;
    }
  }

  /** Pushes a normal line: the margin markers, then its segments, then a
      newline. */
  method PushNormalLine(output: string, leftMargin: nat, segments: seq<Segment>) returns (out: string)
    ensures out == output + NormalLineText(leftMargin, segments)
  {
    var indent := Repeat(MARGIN_MARKER, leftMargin);
    out := output + indent;
    out := PushSegments(out, segments);
    out := out + "\n";
    assert out == output + (indent + SegmentsText(segments) + "\n");
  }

  /** Pushes a header line: the heading's `#` prefix, its text and a
      newline. */
  method PushHeaderLine(output: string, heading: HeadingRule, text: string) returns (out: string)
    ensures out == output + (HeadingPrefix(heading) + text + "\n")
  {
    out := output;
    match heading {
      case DotH1 => out := out + "# ";
      case DotH2 => out := out + "## ";
      case DotH3 => out := out + "### ";
      case DotH4 => out := out + "#### ";
      case DotH5 => out := out + "##### ";
      case OtherHeadingRule =>
    }
    out := out + text;
    out := out + "\n";
  }

  /** Carries out the command of an `allowed_dot_commands` pair on the
      output and the margin. */
  method ApplyDotCommand(output: string, leftMargin: nat, command: DotCommand) returns (r: Result<State>)
    ensures r == Then(State(output, leftMargin), DotCommandStep(leftMargin, command))
  {
    match command
    case DotInsertFile(arg) =>
      if arg.Some? {
        var name := FileName(arg.value);
        if name.None? {
          return Panicked(FileNameUnwrap(arg.value));
        }
        r := Ok(State(output + ("\n[" + name.value + "](" + arg.value + ")\n"), leftMargin));
      } else {
        r := Ok(State(output, leftMargin));
        assert output + "" == output;
      }
    case DotLeftMargin(arg) =>
      var margin: nat;
      if arg.Some? {
        margin := ParseUsize(arg.value).GetOr(0);
      } else {
        margin := 0;
      }
      r := Ok(State(output, margin));
      assert output + "" == output;
    case DotPageBreak =>
      r := Ok(State(output + "\n----\n\n", leftMargin));
    case OtherDotCommand =>
      r := Ok(State(output, leftMargin));
      assert output + "" == output;
  }

  /** Translates one record on top of the output so far and the current
      margin. */
  method PushRecord(output: string, leftMargin: nat, record: Record) returns (r: Result<State>)
    ensures r == Then(State(output, leftMargin), Step(leftMargin, record))
  {
    match record
    case HeaderLine(heading, text) =>
      var out := PushHeaderLine(output, heading, text);
      r := Ok(State(out, leftMargin));
    case NormalLine(segments) =>
      var out := PushNormalLine(output, leftMargin, segments);
      r := Ok(State(out, leftMargin));
    case DotCommandLine(pair) =>
      if pair.AllowedDotCommands? {
        r := ApplyDotCommand(output, leftMargin, pair.command);
      } else {
        r := Ok(State(output, leftMargin));
        assert output + "" == output;
      }
    case OtherRecord =>
      r := Ok(State(output, leftMargin));
      assert output + "" == output;
  }

  /** Translates the records of a document body in order, starting from
      margin 0. The result is the Markdown text, or the panic of the first
      insert-file command whose path has no final component. */
  method Translate(records: seq<Record>) returns (result: Result<string>)
    ensures result == Translation(records)
    ensures result.Panicked? <==> exists i :: 0 <= i < |records| && Panics(records[i])
  {
    var output: string := "";
    var leftMargin: nat := 0;
    assert Run(records[..0], 0) == Ok(State(output, leftMargin)) by {
      assert records[..0] == [];
    }
    for i := 0 to |records|
      invariant Run(records[..i], 0) == Ok(State(output, leftMargin))
    {
      var r := PushRecord(output, leftMargin, records[i]);
      RunPrefixStep(records, i, 0);
      if r.Panicked? {
        RunPrefixPanics(records, i + 1, 0);
        RunPanicsIff(records, 0);
        return Panicked(r.panic);
      }
      output, leftMargin := r.value.output, r.value.leftMargin;
    }
    assert Run(records, 0) == Ok(State(output, leftMargin)) by {
      assert records[..|records|] == records;
    }
    RunPanicsIff(records, 0);
    result := Ok(output);
  }
}
