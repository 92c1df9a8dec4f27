# ws2markdown translation pass, modelled in Dafny

ws2markdown converts a WordStar document into Markdown. It reads the
file and decodes it lossily as UTF-8. It drops the first 128 bytes of the
decoded text, which stand for the WordStar header, and parses the rest with
a grammar into a sequence of top-level records. It then walks those
records once, appending Markdown to an output string. One `usize`
variable, the left margin, carries state from one record to the next:

- **Header lines** (`.h1` … `.h5`) become `#` … `#####`, a space, the
  heading text and a newline.
- **Normal lines** become `&nbsp;` repeated once per margin level,
  followed by the line's displayed text verbatim and a newline. Each bold,
  italic or underline marker becomes `**`, `*` or `__` on its own. Markers
  are never paired or balanced.
- **Dot commands**:
  - `.lm n` sets the margin to `n` when `n` parses as a `usize`, and to 0
    otherwise. A bare `.lm` resets the margin to 0.
  - `.pa` becomes a horizontal rule between blank lines.
  - An insert-file command with a path becomes a link
    `[final component](path)`. Without a path it produces nothing. A path
    with no final component (`/`, `..`, `dir/..`) makes `file_name().unwrap()`
    panic, which aborts the whole run.
- **Everything else**, including every match arm the code leaves empty,
  produces nothing and leaves the margin alone.

The model has five modules:

- `Text` — the standard-library pieces the pass relies on: `str::repeat`,
  `usize::from_str` with a 64-bit `usize`, and `Path::file_name` for
  `/`-separated paths.
- `Header` — the `[128..]` slice that removes the header. It works on the
  UTF-8 bytes of the already decoded text, and models both of its panics.
- `ParseTree` — the records and inner pairs the pass matches on. Each
  `_ => {}` arm has its own `Other…` variant.
- `Markdown` — the meaning of the pass as functions:
  - `Step` gives the Markdown one record produces at a given margin, and
    the margin it leaves behind.
  - `Run` folds `Step` over a sequence of records.
  - `Translation` runs the whole body from margin 0.
  - Lemmas state what each kind of record produces, how runs compose, and
    how the margin persists.
- `Translator` — the pass as the program runs it: a loop over the records
  that pushes onto an output string and updates a margin variable. Every
  method is proved to compute exactly what `Markdown` describes.

## Model

| member | source | states |
|---|---|---|
| Text.Repeat | src/main.rs:132 | no ensures: `str::repeat`; its length is stated by Text.RepeatLength and its contents by Text.RepeatBlock |
| Text.RepeatLength | src/main.rs:132 | `s.repeat(n)` has exactly `n * len(s)` characters |
| Text.RepeatBlock | src/main.rs:132 | block `k < n` of `s.repeat(n)` is `s` itself |
| Text.ParseUsize | src/main.rs:196 | parses only if the text is an optional `+` followed by at least one ASCII digit; the value is always below 2^64 |
| Text.DecimalRoundTrip | src/main.rs:196 | the decimal spelling of any `usize`, with or without a leading `+`, parses back to that number |
| Text.DecimalOverflow | src/main.rs:196 | the spelling of a number of 2^64 or more does not parse |
| Text.DigitsValue | src/main.rs:196 | no ensures: the value of a digit string; Text.DigitsValueOfDecimal, Text.DecimalRoundTrip and Text.DecimalOverflow state what it gives |
| Text.DigitsValueOfDecimal | src/main.rs:196 | the digits of the decimal spelling of `n` have the value `n` |
| Text.Decimal | src/main.rs:196 | the spelling of a number is a non-empty string of digits |
| Text.LastComponent | src/main.rs:180-181 | the text after the last separator contains no separator |
| Text.FileName | src/main.rs:180-182 | a final component, when there is one, is non-empty, has no separator, and is neither `.` nor `..` |
| Text.LastComponentOfJoin | src/main.rs:180-181 | the last component of `dir/name` is `name` when `name` has no separator |
| Text.LastComponentOfName | src/main.rs:180-181 | a separator-free name is its own last component |
| Text.FileNameOfJoin | src/main.rs:180-182 | `file_name` of `dir/name`, and of `name` alone, is `name` for any normal name |
| Text.FileNameIgnoresTrailingSeparator | src/main.rs:180-182 | a trailing `/` does not change the final component |
| Text.FileNameOfParent | src/main.rs:180-182 | a path ending in `/..` has no final component, so the `unwrap` panics |
| Header.StripHeader | src/main.rs:99 | panics when the decoded text is shorter than 128 bytes or byte 128 is not a character boundary; when it does not panic, the body is the decoded text after its first 128 bytes, starts on a character boundary, and those 128 bytes followed by the body give back the text |
| Header.IsCharBoundary | src/main.rs:99 | no ensures: the start, the end, or a byte that is not a UTF-8 continuation byte; its use is stated by Header.StripHeader and Header.StripHeaderOfFile |
| Header.StripHeaderOfFile | src/main.rs:99 | any 128 bytes of decoded text followed by a body starting on a character boundary yields exactly the body; a body starting inside a character panics |
| Markdown.HeadingPrefix | src/main.rs:116-123 | no ensures: the heading-level match; Markdown.HeadingPrefixIsHashes states what it gives |
| Markdown.HeadingPrefixIsHashes | src/main.rs:116-123 | a level-n heading (n = 1..5) is prefixed by n `#` and a space; any other rule by nothing |
| Markdown.HeaderLineOutput | src/main.rs:110-129 | a level-n header record appends n `#`, a space, the heading text verbatim and a newline, and keeps the margin |
| Markdown.ModifierToken | src/main.rs:146-155 | no ensures: the token of one modifier; Markdown.ModifiersTextPrefix and Markdown.UnpairedBold state its use |
| Markdown.ModifiersText | src/main.rs:144-156 | no ensures: the tokens of a modifier pair; Markdown.ModifiersTextAppend and Markdown.ModifiersTextPrefix state its meaning, and Translator.PushModifiers is proved equal to it |
| Markdown.SegmentText | src/main.rs:137-159 | no ensures: the text of one inner pair; Translator.PushSegment is proved equal to it |
| Markdown.SegmentsText | src/main.rs:136-160 | no ensures: the text of a line's inner pairs; Markdown.SegmentsTextAppend and Markdown.SegmentsTextPrefix state its meaning, and Translator.PushSegments is proved equal to it |
| Markdown.NormalLineText | src/main.rs:130-163 | no ensures: the Markdown of a normal line; Markdown.NormalLineLayout states its layout |
| Markdown.ModifiersTextAppend | src/main.rs:144-156 | modifiers translate independently: the tokens of `a + b` are the tokens of `a` followed by those of `b` |
| Markdown.SegmentsTextAppend | src/main.rs:136-160 | the inner pairs of a line translate in order: the text of `a + b` is the text of `a` followed by that of `b` |
| Markdown.ModifiersTextPrefix | src/main.rs:145-155 | each further modifier appends exactly its own token (`**`, `*`, `__`, or nothing) |
| Markdown.SegmentsTextPrefix | src/main.rs:136-159 | each further inner pair appends exactly its own text |
| Markdown.UnpairedBold | src/main.rs:142-151 | displayed text passes through verbatim and a single bold marker becomes `**` with no closing partner |
| Markdown.NormalLineMarker | src/main.rs:132 | block k of six characters, for every k below the margin, is `&nbsp;` |
| Markdown.NormalLineLayout | src/main.rs:130-163 | a normal line is exactly `left_margin` copies of `&nbsp;`, then the text of its pairs, then a newline, whatever the line holds |
| Markdown.FileLink | src/main.rs:178-186 | no ensures: the link an insert-file command becomes; Markdown.InsertFileOutput states it for concrete paths |
| Markdown.DotCommandStep | src/main.rs:170-207 | no ensures: the effect of an allowed dot command; Markdown.LeftMarginOutput, Markdown.PageBreakOutput, Markdown.InsertFileOutput, Markdown.InsertFileWithoutName and Markdown.IgnoredRecords state each arm, and Translator.ApplyDotCommand is proved equal to it |
| Markdown.Step | src/main.rs:109-211 | a record panics exactly when it is an insert-file command whose path has no final component; only a left-margin command changes the margin, and it appends nothing; the margin stays below 2^64 |
| Markdown.Run | src/main.rs:106-212 | the margin stays a `usize`, and a run with no left-margin command ends at the margin it started with |
| Markdown.RunPanicsIff | src/main.rs:173-188 | a run panics if and only if one of its records is an insert-file command whose path has no final component |
| Markdown.Translation | src/main.rs:105-212 | no ensures: the whole body's translation from margin 0 and an empty output; Translator.Translate is proved equal to it, and Markdown.RunPanicsIff, Markdown.RunAppend and Markdown.ExampleDocument state its meaning |
| Markdown.ThenAndThen | src/main.rs:106-212 | appending to the output is associative across three stretches of records |
| Markdown.RunAppend | src/main.rs:106-212 | translating `a + b` from margin m is translating `a`, then `b` from the margin `a` leaves; the outputs are concatenated, and a panic in `a` stops before `b` |
| Markdown.OutputOnlyGrows | src/main.rs:106-212 | the output of a prefix of the records is a prefix of the whole output |
| Markdown.RunSnoc | src/main.rs:106-212 | one more record appends that record's Markdown at the margin reached so far |
| Markdown.RunPrefixStep | src/main.rs:106-212 | the run over records `0..i+1` is the run over `0..i` followed by record `i` |
| Markdown.RunPrefixPanics | src/main.rs:106-212 | a panic within the first `i` records is the outcome of the whole run |
| Markdown.RunSingle | src/main.rs:106-212 | a run of one record is that record's step |
| Markdown.LeftMarginOutput | src/main.rs:190-200 | `.lm k` for a `usize` k sets the margin to k; an unparsable argument or no argument sets it to 0; neither appends anything |
| Markdown.PageBreakOutput | src/main.rs:201-205 | a page break appends exactly a newline, `----` and two newlines, whatever the margin, and keeps the margin |
| Markdown.InsertFileOutput | src/main.rs:173-188 | an insert-file command on `dir/name` appends a newline, `[name](dir/name)` and a newline; on a bare `name` it appends a newline, `[name](name)` and a newline; the margin is kept in both cases |
| Markdown.InsertFileWithoutName | src/main.rs:173-188 | without an argument nothing is appended; a path with no final component panics |
| Markdown.IgnoredRecords | src/main.rs:164-210 | unrecognised records, dot pairs and dot commands append nothing and keep the margin |
| Markdown.NormalLineKeepsMargin | src/main.rs:130-132 | after records with no left-margin command, a normal line is indented by the starting margin |
| Markdown.MarginPersists | src/main.rs:190-199 | after `.lm k`, every later normal line is indented by k markers until the next left-margin command |
| Markdown.ExampleDocument | src/main.rs:105-212 | a heading, a line with a bold word and a page break translate to `# title`, the line with `**` around the word, and a horizontal rule |
| Translator.PushModifiers | src/main.rs:143-157 | the loop over modifier pairs appends exactly the tokens of the modifiers, in order |
| Translator.PushSegment | src/main.rs:137-159 | one inner pair appends its text verbatim, its modifiers' tokens, or nothing |
| Translator.PushSegments | src/main.rs:136-160 | the loop over a line's pairs appends exactly the text of the pairs, in order |
| Translator.PushNormalLine | src/main.rs:130-163 | appends the margin markers, the line's text and a newline |
| Translator.PushHeaderLine | src/main.rs:110-129 | appends the heading prefix, the heading text and a newline |
| Translator.ApplyDotCommand | src/main.rs:170-207 | applies an allowed dot command to the output and margin exactly as its step says, panicking where the step panics |
| Translator.PushRecord | src/main.rs:109-211 | translates one record on top of the current output and margin exactly as its step says |
| Translator.Translate | src/main.rs:105-212 | the loop over all records, from margin 0 and an empty output, yields the translation of the body, and panics if and only if some insert-file path has no final component |

## Left out

- Command-line handling, the file dialog, reading the input file, and
  writing the result to a file or standard output are left out. They are
  I/O.
- The byte-to-text decoding (`String::from_utf8_lossy`) is left out.
- Header.StripHeader: cuts at byte 128 of the decoded text, as the code
  does, and not at byte 128 of the raw file. Decoding comes first, and
  every invalid UTF-8 sequence in the raw header becomes the three-byte
  U+FFFD. So a header holding such bytes loses fewer than 128 raw bytes,
  and its remainder stays at the start of the body. Or the cut falls
  inside a U+FFFD and panics. Only the second outcome is visible in this
  model, as a cut that is not on a character boundary. How raw header
  bytes map to decoded bytes is not modelled.
- The WordStar grammar and the parser are not part of this model. The
  model starts from the parse tree. A parse failure (`expect`), and the
  `next().unwrap()` calls whose success the grammar guarantees, are
  outside it.
- `Text.FileName` follows Unix path rules only (separator `/`). Windows
  prefixes and `\` separators are not modelled. The `to_str().unwrap()`
  after `file_name` cannot fail on text that is already a Rust string, so
  it is not modelled as a panic.
- `Text.ParseUsize` assumes a 64-bit `usize`. On other targets the limit
  differs.
- `Text.RepeatLength`: `str::repeat` also panics when the repeated length
  overflows `usize`. A margin near 2^64 would exhaust memory first. The
  model treats the repetition as always succeeding.
- An insert-file path with no final component aborts the whole run
  (`Panicked`), as the `unwrap` in the code does. It is not skipped.
