/** The parse tree that the WordStar grammar produces for a document body:
    the top-level records and the inner pairs that the translation pass
    matches on. Every rule the pass does not handle has its own variant, so
    that the `_ => {}` arms of its matches are modelled too. */
module ParseTree {
  import opened Text

  /** The inner pair of a `header_line` that selects the heading level. */
  datatype HeadingRule = DotH1 | DotH2 | DotH3 | DotH4 | DotH5 | OtherHeadingRule

  /** The inner pairs of an `allowed_modifiers` pair. */
  datatype Modifier = BoldModifier | ItalicsModifier | UnderlineModifier | OtherModifier

  /** The inner pairs of a `normal_line`. */
  datatype Segment =
    | DisplayedText(text: string)
    | AllowedModifiers(modifiers: seq<Modifier>)
    | OtherPair

  /** The command inside an `allowed_dot_commands` pair, with the text of its
      optional argument pair. */
  datatype DotCommand =
    | DotInsertFile(fileName: Option<string>)
    | DotLeftMargin(margin: Option<string>)
    | DotPageBreak
    | OtherDotCommand

  /** The first inner pair of a `dot_command_line`. */
  datatype DotPair = AllowedDotCommands(command: DotCommand) | OtherDotPair

  /** One top-level record of the parsed `file` rule. */
  datatype Record =
    | HeaderLine(heading: HeadingRule, text: string)
    | NormalLine(segments: seq<Segment>)
    | DotCommandLine(pair: DotPair)
    | OtherRecord

  /** The heading level a heading rule stands for; 0 for any other rule. */
  function Level(h: HeadingRule): nat {
    match h
    case DotH1 => 1
    case DotH2 => 2
    case DotH3 => 3
    case DotH4 => 4
    case DotH5 => 5
    case OtherHeadingRule => 0
  }

  /** The record is a left-margin dot command (`.lm`), the only record that
      changes the margin. */
  predicate IsLeftMarginCommand(r: Record) {
    r.DotCommandLine? && r.pair.AllowedDotCommands? && r.pair.command.DotLeftMargin?
  }
}
