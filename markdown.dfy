/** What the translation pass computes, as functions of the parse tree: the
    Markdown each record appends to the output and the left margin it leaves
    behind, and the lemmas that say what that Markdown is. */
module Markdown {
  import opened Text
  import opened ParseTree

  /** One level of left-margin indentation in the Markdown output. */
  const MARGIN_MARKER: string := "&nbsp;"

  /** What a page break becomes: a horizontal rule between blank lines. */
  const PAGE_BREAK: string := "\n----\n\n"

  /** The panic that aborts the whole run: `file_name().unwrap()` on an
      insert-file path that has no final component. */
  datatype Panic = FileNameUnwrap(path: string)

  datatype Result<T> = Ok(value: T) | Panicked(panic: Panic)

  /** The state of the pass: the Markdown produced so far and the current
      left margin. For a record or a run of records on its own, it is the
      Markdown they produce and the margin they leave behind. */
  datatype State = State(output: string, leftMargin: nat)

  // ---------------------------------------------------------------------
  // Header lines

  function HeadingPrefix(h: HeadingRule): string {
    match h
    case DotH1 => "# "
    case DotH2 => "## "
    case DotH3 => "### "
    case DotH4 => "#### "
    case DotH5 => "##### "
    case OtherHeadingRule => ""
  }

  /** The prefix of a level-n heading is n `#` characters and one space. */
  lemma HeadingPrefixIsHashes(h: HeadingRule)
    ensures 1 <= Level(h) ==> HeadingPrefix(h) == Repeat("#", Level(h)) + " "
    ensures Level(h) == 0 ==> HeadingPrefix(h) == ""
  {
    assert Repeat("#", 1) == "#";
    assert Repeat("#", 2) == "##";
    assert Repeat("#", 3) == "###";
    assert Repeat("#", 4) == "####";
    assert Repeat("#", 5) == "#####";
  }

  // ---------------------------------------------------------------------
  // Normal lines

  function ModifierToken(m: Modifier): string {
    match m
    case BoldModifier => "**"
    case ItalicsModifier => "*"
    case UnderlineModifier => "__"
    case OtherModifier => ""
  }

  function ModifiersText(modifiers: seq<Modifier>): string {
    if modifiers == [] then ""
    else ModifierToken(modifiers[0]) + ModifiersText(modifiers[1..])
  }

  function SegmentText(s: Segment): string {
    match s
    case DisplayedText(text) => text
    case AllowedModifiers(modifiers) => ModifiersText(modifiers)
    case OtherPair => ""
  }

  function SegmentsText(segments: seq<Segment>): string {
    if segments == [] then ""
    else SegmentText(segments[0]) + SegmentsText(segments[1..])
  }

  /** The Markdown line for a normal line at the given left margin. */
  function NormalLineText(leftMargin: nat, segments: seq<Segment>): string {
    Repeat(MARGIN_MARKER, leftMargin) + SegmentsText(segments) + "\n"
  }

  /** Modifiers translate one by one: the tokens of a run of modifiers are
      the tokens of its parts, with no pairing or balancing between them. */
  lemma {:induction false} ModifiersTextAppend(a: seq<Modifier>, b: seq<Modifier>)
    ensures ModifiersText(a + b) == ModifiersText(a) + ModifiersText(b)
  {
    if a == [] {
      assert a + b == b;
    } else {
      assert (a + b)[0] == a[0];
      assert (a + b)[1..] == a[1..] + b;
      ModifiersTextAppend(a[1..], b);
    }
  }

  /** Segments translate one by one, in order. */
  lemma {:induction false} SegmentsTextAppend(a: seq<Segment>, b: seq<Segment>)
    ensures SegmentsText(a + b) == SegmentsText(a) + SegmentsText(b)
  {
    if a == [] {
      assert a + b == b;
    } else {
      assert (a + b)[0] == a[0];
      assert (a + b)[1..] == a[1..] + b;
      SegmentsTextAppend(a[1..], b);
    }
  }

  /** One more modifier of a pair adds exactly its own token. */
  lemma ModifiersTextPrefix(modifiers: seq<Modifier>, i: nat)
    requires i < |modifiers|
    ensures ModifiersText(modifiers[..i + 1]) == ModifiersText(modifiers[..i]) + ModifierToken(modifiers[i])
  {
    assert modifiers[..i + 1] == modifiers[..i] + [modifiers[i]];
    ModifiersTextAppend(modifiers[..i], [modifiers[i]]);
    assert ModifiersText([modifiers[i]]) == ModifierToken(modifiers[i]) + ModifiersText([]);
  }

  /** One more segment of a line adds exactly its own text. */
  lemma SegmentsTextPrefix(segments: seq<Segment>, i: nat)
    requires i < |segments|
    ensures SegmentsText(segments[..i + 1]) == SegmentsText(segments[..i]) + SegmentText(segments[i])
  {
    assert segments[..i + 1] == segments[..i] + [segments[i]];
    SegmentsTextAppend(segments[..i], [segments[i]]);
    assert SegmentsText([segments[i]]) == SegmentText(segments[i]) + SegmentsText([]);
  }

  /** A run of displayed text and bold markers: the text passes through
      verbatim and every bold marker becomes `**` on its own, so an odd
      number of markers yields unbalanced emphasis. */
  lemma UnpairedBold(before: string, after: string)
    ensures SegmentsText([DisplayedText(before), AllowedModifiers([BoldModifier]), DisplayedText(after)])
         == before + "**" + after
  {
    var segs := [DisplayedText(before), AllowedModifiers([BoldModifier]), DisplayedText(after)];
    assert segs == [segs[0]] + [segs[1]] + [segs[2]];
    SegmentsTextAppend([segs[0]] + [segs[1]], [segs[2]]);
    SegmentsTextAppend([segs[0]], [segs[1]]);
  }

  /** The `k`-th block of six characters of a normal line at margin
      `leftMargin > k` is a margin marker. */
  lemma NormalLineMarker(leftMargin: nat, segments: seq<Segment>, k: nat)
    requires k < leftMargin
    ensures 6 * k + 6 <= |NormalLineText(leftMargin, segments)|
    ensures NormalLineText(leftMargin, segments)[6 * k .. 6 * k + 6] == MARGIN_MARKER
  {
    var indent := Repeat(MARGIN_MARKER, leftMargin);
    RepeatLength(MARGIN_MARKER, leftMargin);
    RepeatBlock(MARGIN_MARKER, leftMargin, k);
    var t := NormalLineText(leftMargin, segments);
    assert t == indent + (SegmentsText(segments) + "\n");
    assert t[6 * k .. 6 * k + 6] == indent[6 * k .. 6 * k + 6];
  }

  /** Whatever the line holds, its Markdown starts with exactly `leftMargin`
      margin markers, continues with the segments' text and ends with a
      newline. */
  lemma NormalLineLayout(leftMargin: nat, segments: seq<Segment>)
    ensures var t := NormalLineText(leftMargin, segments);
      && |t| == 6 * leftMargin + |SegmentsText(segments)| + 1
      && (forall k :: 0 <= k < leftMargin ==> t[6 * k .. 6 * k + 6] == MARGIN_MARKER)
      && t[6 * leftMargin .. |t| - 1] == SegmentsText(segments)
      && t[|t| - 1] == '\n'
  {
    RepeatLength(MARGIN_MARKER, leftMargin);
    forall k | 0 <= k < leftMargin
      ensures NormalLineText(leftMargin, segments)[6 * k .. 6 * k + 6] == MARGIN_MARKER
    {
      NormalLineMarker(leftMargin, segments, k);
    }
  }

  // ---------------------------------------------------------------------
  // Dot commands

  /** The Markdown link that an insert-file command becomes. */
  function FileLink(path: string, name: string): string {
    "\n[" + name + "](" + path + ")\n"
  }

  function DotCommandStep(leftMargin: nat, command: DotCommand): Result<State> {
    match command
    case DotInsertFile(arg) =>
      if arg.None? then Ok(State("", leftMargin))
      else if FileName(arg.value).None? then Panicked(FileNameUnwrap(arg.value))
      else Ok(State(FileLink(arg.value, FileName(arg.value).value), leftMargin))
    case DotLeftMargin(arg) =>
      if arg.None? then Ok(State("", 0))
      else Ok(State("", ParseUsize(arg.value).GetOr(0)))
    case DotPageBreak => Ok(State(PAGE_BREAK, leftMargin))
    case OtherDotCommand => Ok(State("", leftMargin))
  }

  /** An insert-file command whose path has no final component: the only
      record that makes the pass panic. */
  predicate Panics(r: Record) {
    && r.DotCommandLine? && r.pair.AllowedDotCommands?
    && r.pair.command.DotInsertFile? && r.pair.command.fileName.Some?
    && FileName(r.pair.command.fileName.value).None?
  }

  // ---------------------------------------------------------------------
  // Records and runs of records

  /** What one record produces when the left margin is `leftMargin`, and
      the margin after it. */
  function Step(leftMargin: nat, r: Record): (e: Result<State>)
    ensures e.Panicked? <==> Panics(r)
    ensures e.Ok? && !IsLeftMarginCommand(r) ==> e.value.leftMargin == leftMargin
    ensures e.Ok? && IsLeftMarginCommand(r) ==> e.value.output == ""
    ensures e.Ok? && leftMargin < USIZE_LIMIT ==> e.value.leftMargin < USIZE_LIMIT
  {
    match r
    case HeaderLine(h, text) => Ok(State(HeadingPrefix(h) + text + "\n", leftMargin))
    case NormalLine(segments) => Ok(State(NormalLineText(leftMargin, segments), leftMargin))
    case DotCommandLine(pair) =>
      if pair.AllowedDotCommands? then DotCommandStep(leftMargin, pair.command)
      else Ok(State("", leftMargin))
    case OtherRecord => Ok(State("", leftMargin))
  }

  /** `first` followed by `rest`: the texts concatenated, the margin of the
      later one, and a panic of the later one passed on. */
  function Then(first: State, rest: Result<State>): Result<State> {
    match rest
    case Ok(second) => Ok(State(first.output + second.output, second.leftMargin))
    case Panicked(p) => Panicked(p)
  }

  predicate NoLeftMarginCommand(records: seq<Record>) {
    forall i :: 0 <= i < |records| ==> !IsLeftMarginCommand(records[i])
  }

  /** What translating `records` in order produces, starting at margin
      `leftMargin`; the first panic aborts the run. */
  function Run(records: seq<Record>, leftMargin: nat): (e: Result<State>)
    ensures e.Ok? && leftMargin < USIZE_LIMIT ==> e.value.leftMargin < USIZE_LIMIT
    ensures e.Ok? && NoLeftMarginCommand(records) ==> e.value.leftMargin == leftMargin
  {
    if records == [] then Ok(State("", leftMargin))
    else
      match Step(leftMargin, records[0])
      case Panicked(p) => Panicked(p)
      case Ok(first) => Then(first, Run(records[1..], first.leftMargin))
  }

  /** A run panics exactly when one of its records is an insert-file command
      whose path has no final component; otherwise it runs to the end. */
  lemma {:induction false} RunPanicsIff(records: seq<Record>, leftMargin: nat)
    ensures Run(records, leftMargin).Panicked? <==> exists i :: 0 <= i < |records| && Panics(records[i])
  {
    if records != [] {
      match Step(leftMargin, records[0])
      case Panicked(_) =>
        assert Panics(records[0]);
      case Ok(first) =>
        RunPanicsIff(records[1..], first.leftMargin);
        if exists i :: 0 <= i < |records| && Panics(records[i]) {
          var i :| 0 <= i < |records| && Panics(records[i]);
          assert i > 0 && Panics(records[1..][i - 1]);
        }
        if exists j :: 0 <= j < |records[1..]| && Panics(records[1..][j]) {
          var j :| 0 <= j < |records[1..]| && Panics(records[1..][j]);
          assert Panics(records[j + 1]);
        }
    }
  }

  /** The translation of the whole body, starting at margin 0. */
  function Translation(records: seq<Record>): Result<string> {
    match Run(records, 0)
    case Ok(e) => Ok(e.output)
    case Panicked(p) => Panicked(p)
  }

  /** `before`, then the records `b` from the margin `before` leaves; a
      panic in `before` is passed on without running `b`. */
  function AndThen(before: Result<State>, b: seq<Record>): Result<State> {
    match before
    case Panicked(p) => Panicked(p)
    case Ok(first) => Then(first, Run(b, first.leftMargin))
  }

  lemma ThenAndThen(first: State, rest: Result<State>, b: seq<Record>)
    ensures Then(first, AndThen(rest, b)) == AndThen(Then(first, rest), b)
  {
    match rest
    case Panicked(_) =>
    case Ok(mid) =>
      match Run(b, mid.leftMargin)
      case Panicked(_) =>
      case Ok(last) =>
        assert first.output + (mid.output + last.output) == (first.output + mid.output) + last.output;
  }

  /** Translating `a + b` is translating `a`, then translating `b` from the
      margin `a` left behind; the output is only ever appended to, and a
      panic in `a` aborts before `b`. */
  lemma {:induction false} RunAppend(a: seq<Record>, b: seq<Record>, leftMargin: nat)
    ensures Run(a + b, leftMargin) == AndThen(Run(a, leftMargin), b)
  {
    if a == [] {
      assert a + b == b;
      match Run(b, leftMargin)
      case Ok(e) => assert "" + e.output == e.output;
      case Panicked(_) =>
    } else {
      assert Run(a + b, leftMargin) == AndThen(Step(leftMargin, a[0]), a[1..] + b) by {
        assert (a + b)[0] == a[0];
        assert (a + b)[1..] == a[1..] + b;
      }
      assert Run(a, leftMargin) == AndThen(Step(leftMargin, a[0]), a[1..]);
      match Step(leftMargin, a[0])
      case Panicked(_) =>
      case Ok(first) =>
        RunAppend(a[1..], b, first.leftMargin);
        ThenAndThen(first, Run(a[1..], first.leftMargin), b);
    }
  }

  /** The output of a prefix of the records is a prefix of the output. */
  lemma OutputOnlyGrows(a: seq<Record>, b: seq<Record>, leftMargin: nat)
    requires Run(a + b, leftMargin).Ok?
    ensures Run(a, leftMargin).Ok?
    ensures Run(a, leftMargin).value.output <= Run(a + b, leftMargin).value.output
  {
    RunAppend(a, b, leftMargin);
  }

  /** One more record: the loop step of the translation pass. */
  lemma RunSnoc(records: seq<Record>, r: Record, leftMargin: nat)
    ensures Run(records + [r], leftMargin) ==
      match Run(records, leftMargin)
      case Ok(before) => Then(before, Step(before.leftMargin, r))
      case Panicked(p) => Panicked(p)
  {
    RunAppend(records, [r], leftMargin);
    match Run(records, leftMargin)
    case Panicked(_) =>
    case Ok(before) => RunSingle(r, before.leftMargin);
  }

  /** The run over the first `i + 1` records is the run over the first `i`
      followed by record `i`. */
  lemma RunPrefixStep(records: seq<Record>, i: nat, leftMargin: nat)
    requires i < |records|
    ensures Run(records[..i + 1], leftMargin) ==
      match Run(records[..i], leftMargin)
      case Ok(before) => Then(before, Step(before.leftMargin, records[i]))
      case Panicked(p) => Panicked(p)
  {
    RunSnoc(records[..i], records[i], leftMargin);
    assert records[..i + 1] == records[..i] + [records[i]];
  }

  /** A panic in the first `i` records is the panic of the whole run. */
  lemma RunPrefixPanics(records: seq<Record>, i: nat, leftMargin: nat)
    requires i <= |records|
    requires Run(records[..i], leftMargin).Panicked?
    ensures Run(records, leftMargin) == Run(records[..i], leftMargin)
  {
    RunAppend(records[..i], records[i..], leftMargin);
    assert records[..i] + records[i..] == records;
  }

  // ---------------------------------------------------------------------
  // Per-record properties

  /** A level-n heading becomes n `#` characters, one space, the heading
      text verbatim and a newline; the margin is untouched. */
  lemma HeaderLineOutput(leftMargin: nat, h: HeadingRule, text: string)
    requires 1 <= Level(h) <= 5
    ensures Step(leftMargin, HeaderLine(h, text))
         == Ok(State(Repeat("#", Level(h)) + " " + text + "\n", leftMargin))
  {
    HeadingPrefixIsHashes(h);
  }

  /** A left-margin command appends nothing. With a `usize` argument it sets
      the margin to that number; with an argument that does not parse, or
      with none, it sets the margin to 0. */
  lemma LeftMarginOutput(leftMargin: nat, arg: Option<string>, k: nat)
    requires k < USIZE_LIMIT
    ensures Step(leftMargin, DotCommandLine(AllowedDotCommands(DotLeftMargin(Some(Decimal(k))))))
         == Ok(State("", k))
    ensures arg.None? || ParseUsize(arg.value).None? ==>
      Step(leftMargin, DotCommandLine(AllowedDotCommands(DotLeftMargin(arg)))) == Ok(State("", 0))
  {
    DecimalRoundTrip(k);
  }

  /** A page break appends the horizontal-rule block whatever the margin,
      and keeps the margin. */
  lemma PageBreakOutput(leftMargin: nat)
    ensures Step(leftMargin, DotCommandLine(AllowedDotCommands(DotPageBreak)))
         == Ok(State("\n----\n\n", leftMargin))
  {
  }

  /** An insert-file command with path `dir/name`, or with the bare name,
      appends a link whose label is `name` and whose target is the whole
      path; the margin is kept. */
  lemma InsertFileOutput(leftMargin: nat, dir: string, name: string)
    requires IsNormalName(name)
    ensures var p := dir + "/" + name;
      Step(leftMargin, DotCommandLine(AllowedDotCommands(DotInsertFile(Some(p)))))
      == Ok(State("\n[" + name + "](" + p + ")\n", leftMargin))
    ensures Step(leftMargin, DotCommandLine(AllowedDotCommands(DotInsertFile(Some(name)))))
      == Ok(State("\n[" + name + "](" + name + ")\n", leftMargin))
  {
    FileNameOfJoin(dir, name);
  }

  /** An insert-file command without an argument appends nothing; one whose
      path has no final component panics. */
  lemma InsertFileWithoutName(leftMargin: nat, p: string)
    ensures Step(leftMargin, DotCommandLine(AllowedDotCommands(DotInsertFile(None))))
         == Ok(State("", leftMargin))
    ensures FileName(p).None? ==>
      Step(leftMargin, DotCommandLine(AllowedDotCommands(DotInsertFile(Some(p))))) == Panicked(FileNameUnwrap(p))
  {
  }

  /** Records the pass does not handle append nothing and keep the margin. */
  lemma IgnoredRecords(leftMargin: nat, r: Record)
    requires r == OtherRecord || r == DotCommandLine(OtherDotPair)
          || r == DotCommandLine(AllowedDotCommands(OtherDotCommand))
    ensures Step(leftMargin, r) == Ok(State("", leftMargin))
  {
  }

  // ---------------------------------------------------------------------
  // The margin over a run

  /** A normal line after records without a left-margin command is indented
      by the margin the run started with. */
  lemma NormalLineKeepsMargin(before: seq<Record>, segments: seq<Segment>, leftMargin: nat)
    requires NoLeftMarginCommand(before)
    requires Run(before, leftMargin).Ok?
    ensures Run(before + [NormalLine(segments)], leftMargin)
         == Ok(State(Run(before, leftMargin).value.output + NormalLineText(leftMargin, segments), leftMargin))
  {
    RunSnoc(before, NormalLine(segments), leftMargin);
  }

  /** A margin set to `k` persists: every normal line after it is indented
      by `k` markers until the next left-margin command. */
  lemma MarginPersists(k: nat, between: seq<Record>, segments: seq<Segment>, leftMargin: nat)
    requires k < USIZE_LIMIT
    requires NoLeftMarginCommand(between)
    requires Run(between, k).Ok?
    ensures var set_k := DotCommandLine(AllowedDotCommands(DotLeftMargin(Some(Decimal(k)))));
      Run([set_k] + between + [NormalLine(segments)], leftMargin)
      == Ok(State(Run(between, k).value.output + NormalLineText(k, segments), k))
  {
    var set_k := DotCommandLine(AllowedDotCommands(DotLeftMargin(Some(Decimal(k)))));
    var rest := between + [NormalLine(segments)];
    LeftMarginOutput(leftMargin, None, k);
    RunSingle(set_k, leftMargin);
    NormalLineKeepsMargin(between, segments, k);
    RunAppend([set_k], rest, leftMargin);
    assert [set_k] + between + [NormalLine(segments)] == [set_k] + rest;
    var text := Run(between, k).value.output + NormalLineText(k, segments);
    assert "" + text == text;
  }

  /** Translating a single record is that record's step. */
  lemma RunSingle(r: Record, leftMargin: nat)
    ensures Run([r], leftMargin) == Step(leftMargin, r)
  {
    assert [r][1..] == [];
    match Step(leftMargin, r)
    case Panicked(_) =>
    case Ok(e) => assert e.output + "" == e.output;
  }

  /** A heading, a line with a bold word and a page break, at the default
      margin: `.h1 Title`, `Hello <bold>world<bold>!` and `.pa` give
      `# Title`, `Hello **world**!` and a horizontal rule. */
  lemma ExampleDocument(title: string, before: string, word: string, after: string)
    ensures Translation([
      HeaderLine(DotH1, title),
      NormalLine([DisplayedText(before), AllowedModifiers([BoldModifier]), DisplayedText(word),
                  AllowedModifiers([BoldModifier]), DisplayedText(after)]),
      DotCommandLine(AllowedDotCommands(DotPageBreak))])
      == Ok("# " + title + "\n" + (before + "**" + word + "**" + after + "\n") + "\n----\n\n")
  {
    var line := [DisplayedText(before), AllowedModifiers([BoldModifier]), DisplayedText(word),
                 AllowedModifiers([BoldModifier]), DisplayedText(after)];
    var heading, normal, pageBreak :=
      HeaderLine(DotH1, title), NormalLine(line), DotCommandLine(AllowedDotCommands(DotPageBreak));
    var t1, t2 := "# " + title + "\n", before + "**" + word + "**" + after + "\n";
    assert SegmentsText(line) == before + "**" + word + "**" + after by {
      assert line == [line[0], line[1], line[2]] + [line[3], line[4]];
      SegmentsTextAppend([line[0], line[1], line[2]], [line[3], line[4]]);
      UnpairedBold(before, word);
      UnpairedBold("", after);
      assert [line[3], line[4]] == [DisplayedText(""), line[3], line[4]][1..];
    }
    assert Run([heading], 0) == Ok(State(t1, 0)) by {
      RunSingle(heading, 0);
    }
    assert Run([normal], 0) == Ok(State(t2, 0)) by {
      RunSingle(normal, 0);
      var segs := before + "**" + word + "**" + after;
      assert Repeat(MARGIN_MARKER, 0) == "";
      assert NormalLineText(0, line) == "" + segs + "\n";
      assert "" + segs == segs;
    }
    assert Run([heading, normal], 0) == Ok(State(t1 + t2, 0)) by {
      RunAppend([heading], [normal], 0);
      assert [heading] + [normal] == [heading, normal];
    }
    assert Run([heading, normal, pageBreak], 0) == Ok(State(t1 + t2 + PAGE_BREAK, 0)) by {
      RunSingle(pageBreak, 0);
      RunAppend([heading, normal], [pageBreak], 0);
      assert [heading, normal] + [pageBreak] == [heading, normal, pageBreak];
    }
  }
}
