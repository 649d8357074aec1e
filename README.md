# Bedrock server wrapper: stdout framing, console parsing and the properties store

This project models two pieces of string logic from a Node.js wrapper around a
game-server executable, and proves properties of them in Dafny.

**The process adapter** (`src/index.ts`, module `Server` in `server.dfy`):

- `processStdout` keeps one pending fragment, `cache`. A chunk that does not
  end in `"\r\n"` is added to the fragment. A chunk that does end in it
  flushes fragment and chunk together: one `console` event for each line that
  is neither empty nor `":r"`, then one `stdout` event with the whole text.
  After that, no fragment is pending.
- `processConsole` splits text on `"\r\n"`. For each line, it takes the
  matches of the lazy pattern `/\[(.*?)\]/g` and builds a console event:
  - the message is the line with the header removed. The header is the first
    three segments joined by spaces, followed by one space;
  - date, time and the first tag come from the lower-cased first segment;
  - each further segment adds one more tag.
- The class `Executable` has the `cache` field and an event log. Emitting an
  event appends it to the log.
- The pure functions beside the class carry the specification:
  - `Step` and `FeedAll` for the state machine;
  - `Segments`, `ParseLine` and `Events` for the parser.
- The constructor models only the parent-path computation of
  `src/index.ts:40`.

**The properties store** (`src/Properties.ts`, module `Config` in
`config.dfy`):

- The `Property` enumeration is a datatype. `Wire` gives each member's key
  string and `Name` gives its member name. `MembersTable` proves that no two
  members share a key string.
- The constructor parses the file text:
  - it drops `\r`, splits on `\n` and skips blank and `#` lines;
  - it splits each remaining line on `=`;
  - it types each value as a boolean, a natural number or a string;
  - it stores the value in a map that keeps insertion order, as a
    JavaScript `Map` does.
- `setProperty` stores the value. It then records, in the field `written`, the
  text it would write: the construction-time text with
  `text.replace(new RegExp(key + "=(.*)", "g"), key + "=" + value)` applied.
  The `(.*)` stops at the next line terminator.
- The replacement template is expanded the way JavaScript's
  `String.prototype.replace` expands it (`Expand`).
- `getAllProperties` maps each stored key back to its member name, in
  insertion order.
- `text.dfy` (module `Text`) models the JavaScript string operations both
  files use: `split`, `join`, first-occurrence `replace`, `endsWith`, and the
  characters a regular-expression `.` refuses.

Behaviour of the code that the proofs pin down, where one might expect
otherwise:

- **A line terminator split across chunks is missed.** Suppose a chunk `a`
  does not end the line and a chunk `b` follows it. Feeding `a` then `b` gives
  the same result as feeding `a + b` in one chunk only when `b` itself ends in
  `"\r\n"`, or when `a + b` does not (`TwoChunks`).
  - For example, `"x\r"` followed by `"\n"` stays buffered, although `"x\r\n"`
    as one chunk would be flushed (`SplitTerminatorIsMissed`).
  - The general positive result is `ChunkingInvariance`.
- **The key pattern is not anchored to the start of a line.** `gamemode=` also
  matches inside `force-gamemode=...`. Setting `gamemode` therefore rewrites
  the `force-gamemode` line as well (`SuffixKeyIsRewritten`, `ReplaceWithinLine`).
  Comment lines that contain `key=` are rewritten too.
- **The value is not written verbatim when it contains `$`.** It is a
  replacement template. For example, the value `$1` writes the old value back
  (`DollarOneKeepsOldValue`). A value without `$` is written as it is
  (`ReplaceLiteral`).
- **Later writes discard earlier ones.** Every write starts from the text read
  at construction, so a write shows only the latest key and value.

## Model

| member | source | states |
|---|---|---|
| Server.CloseAt | src/index.ts:85 | the lazy `(.*?)\]` after a `[` stops at the first `]`, and fails when a line terminator or the end of the line comes first |
| Server.Segments | src/index.ts:85 | every global match is a bracketed segment that begins with `[` and ends with `]`, with no `]` and no line terminator between its brackets |
| Server.CloseAtFirst | src/index.ts:85 | after a `[`, a text free of `]` and line terminators followed by `]` is matched up to exactly that `]` |
| Server.SegmentsAtBracket | src/index.ts:85 | a `[` closed on its line contributes its segment first, and the search resumes after its `]` |
| Server.SegmentsSkip | src/index.ts:85 | a character other than `[` starts no match; the search goes on at the next character |
| Server.SegmentsUnclosed | src/index.ts:85 | a `[` that is not closed on its line starts no match; the search goes on right after it |
| Server.SegmentsWithoutBracket | src/index.ts:85-86 | a line without `[` has no match |
| Server.SegmentsOfTwo | src/index.ts:85 | two closed segments separated and followed by a space, then text without `[`, give exactly those two matches |
| Server.NoSegmentsIff | src/index.ts:85-86 | `match` finds nothing exactly when no `[` in the line is closed on that line |
| Server.Unbracket | src/index.ts:95 | deleting `[` and `]` leaves no bracket, never lengthens the text, and leaves a bracket-free text unchanged |
| Server.UnbracketAppend | src/index.ts:95 | deleting brackets distributes over concatenation |
| Server.CleanSegment | src/index.ts:95 | a cleaned segment is its inner text, lower-cased, with any further `[` removed |
| Server.ParseLine | src/index.ts:85-110 | specified by `ParseLineFields`, `ParseLineTwoSegments` and `ParseLineExample` |
| Server.ParseLineFields | src/index.ts:85-110 | without a segment: the line unchanged, and no date, time or tags. Otherwise: the message is the line with the header removed; date and time are tokens 0 and 1 of the first segment's inner text, lower-cased and without brackets; there is one tag per segment, first token 2, then the lower-cased inner text of each further segment in order |
| Server.HeaderOfTwo | src/index.ts:94 | with two segments, removing the header `seg0 + " " + seg1 + " "` from `seg0 + " " + seg1 + " " + message` leaves the message |
| Server.ParseLineTwoSegments | src/index.ts:85-110 | a line of two bracketed segments and a message: the message is passed through; date, time and first tag are the space-separated tokens of the lower-cased first segment; the second tag is the lower-cased second segment |
| Server.ParseLineExample | src/index.ts:85-110 | `[2024-01-01 12:00:00 INFO] [Server] Starting...` gives message `Starting...`, date `2024-01-01`, time `12:00:00` and tags `info`, `server` |
| Server.KeptLines | src/index.ts:83-84 | the lines kept are exactly the input lines that are neither `""` nor `":r"` |
| Server.EventsOfKeptLines | src/index.ts:82-112 | one console event per kept line, in order, each the parse of its line |
| Server.EventsAppend | src/index.ts:83-112 | the events of two runs of lines are the events of the first run, then those of the second |
| Server.FlushShape | src/index.ts:70-77 | a flush emits the console events of every kept line, all before one stdout event carrying the flushed text |
| Server.Step | src/index.ts:61-79 | specified by `Executable.ProcessStdout`, `IncompleteChunksAccumulate`, `StepAfterIncomplete`, `ChunkingInvariance` and `TwoChunks` |
| Server.IncompleteChunksAccumulate | src/index.ts:63-68 | incomplete chunks only add to the fragment and emit nothing |
| Server.StepAfterIncomplete | src/index.ts:65-74 | an incomplete chunk followed by a complete one has the same effect as their concatenation |
| Server.ChunkingInvariance | src/index.ts:61-79 | incomplete chunks followed by a complete one, fed one by one, give the same log and fragment as their concatenation fed at once |
| Server.TwoChunks | src/index.ts:63-78 | after an incomplete chunk `a`, feeding `a` then `b` equals feeding `a + b` exactly when `b` is complete or `a + b` is not |
| Server.SplitTerminatorIsMissed | src/index.ts:63-74 | `"x\r"` then `"\n"` leaves `"x\r\n"` pending with nothing emitted, whereas `"x\r\n"` in one chunk is flushed |
| Server.ParentPath | src/index.ts:40 | specified by `ParentPathSpec` |
| Server.ParentPathSpec | src/index.ts:40 | the directory is the text before the last backslash, or empty when the path has no backslash |
| Server.ParseConsoleLine | src/index.ts:85-110 | the loop that pushes the further segments onto `meta` builds exactly the event `ParseLine` specifies |
| Server.Executable.constructor | src/index.ts:38-40 | the directory is the parent path of the executable, with no fragment pending and nothing emitted |
| Server.Executable.ProcessStdout | src/index.ts:61-79 | an incomplete chunk is appended to the fragment and emits nothing; a complete one emits the console events of fragment plus chunk, then their stdout event, and clears the fragment; the new state equals `Step` of the old one |
| Server.Executable.ProcessConsole | src/index.ts:81-113 | the log grows by exactly the console events of the text's kept lines, in order |
| Text.OccursAt | src/index.ts:94 | an occurrence is a position where the pattern starts |
| Text.JoinSplit | src/index.ts:40 | joining the pieces of a split with the same separator gives the text back |
| Text.SplitPiecesAvoidSeparator | src/index.ts:82 | no piece of a split contains the separator |
| Text.SplitOnAbsent | src/index.ts:97 | a text without the one-character separator splits into itself alone |
| Text.SplitOnFirst | src/index.ts:97 | splitting on a one-character separator cuts at its first occurrence |
| Text.RemoveFirstAt | src/index.ts:94 | `replace(header, '')` removes the leftmost occurrence of the header and keeps everything else |
| Text.RemoveFirstAbsent | src/index.ts:94 | without an occurrence of the header, the line is unchanged |
| Config.MemberName | src/Properties.ts:81 | specified by `MemberNameOfWire` |
| Config.Find | src/Properties.ts:81 | the reverse lookup finds a listed member with that key string, or none when no listed member has it |
| Config.MembersTable | src/Properties.ts:6-43 | every member is listed, and no two members share a key string |
| Config.MemberNameOfWire | src/Properties.ts:81 | a stored key equal to a member's key string is reported as that member's name; it has no name exactly when no member has it |
| Config.Decimal | src/Properties.ts:76 | `${value}` of a number is a non-empty run of digits with no leading zero, except for zero itself |
| Config.Render | src/Properties.ts:76 | specified by `ReadBack` and `DecimalRoundTrip` |
| Config.TypeValue | src/Properties.ts:60-66 | specified by `ReadBack` and `ParseFileSpec` |
| Config.DecimalRoundTrip | src/Properties.ts:63 | `Number` of the written digits gives the number back |
| Config.ReadBack | src/Properties.ts:60-66 | a written value is typed back as itself, except a string that reads as a boolean or a numeral |
| Config.RemoveCarriageReturns | src/Properties.ts:58 | no `\r` is left, the text never grows, and a text without `\r` is kept as it is |
| Config.RemoveCarriageReturnsAppend | src/Properties.ts:58 | removing `\r` distributes over concatenation |
| Config.RetainedOnly | src/Properties.ts:58 | the lines kept are exactly the input lines that are non-empty and do not start with `#` |
| Config.HasValueIff | src/Properties.ts:58-62 | a line has a second field exactly when it contains `=` |
| Config.KeyAndValue | src/Properties.ts:58-59 | the key is the text before the first `=`; the value is the text after it, up to the next `=` or the end of the line |
| Config.Insert | src/Properties.ts:61-65 | `Map.set` keeps the map well-formed and keeps the old order as a prefix |
| Config.Load | src/Properties.ts:59-67 | specified by `LoadFailure`, `LoadWellFormed`, `LoadKeys`, `LoadUntouched`, `LoadLast` and `LoadOrder` |
| Config.LoadFailure | src/Properties.ts:58-64 | the parse fails exactly when a retained line has no `=`, and it reports the first such line |
| Config.LoadWellFormed | src/Properties.ts:56-67 | parsing yields one order entry per distinct key, matching the map's keys |
| Config.LoadKeys | src/Properties.ts:59-67 | a key is present after parsing exactly when it was present before or some line sets it |
| Config.LoadUntouched | src/Properties.ts:59-67 | a key no line sets keeps its value |
| Config.LoadLast | src/Properties.ts:59-67 | the last line that sets a key decides its typed value |
| Config.FirstSetting | src/Properties.ts:59-65 | the first line that sets a key, or the number of lines when none does |
| Config.FirstSettingIsFirst | src/Properties.ts:59-65 | no line before it sets the key |
| Config.LoadOrder | src/Properties.ts:59-67 | the keys a parse appends to the order are new, each set by some line, and they stand in the order of the lines that first set them |
| Config.LoadOrderStep | src/Properties.ts:59-65 | a line whose key is new puts that key ahead of every key first set later; a known key leaves the order as it is |
| Config.ParseFile | src/Properties.ts:57-67 | specified by `ParseFileSpec` and `LoadFailure` |
| Config.ParseFileSpec | src/Properties.ts:57-67 | a parse that succeeds has a value on every retained line, a well-formed map whose keys are exactly the keys of the retained lines, for each key the typed value of its last line, and keys ordered by the line that first sets each |
| Config.LineRest | src/Properties.ts:76 | `.*` takes the characters before the first line terminator |
| Config.Span | src/Properties.ts:76 | a match covers the pattern and lies inside the text |
| Config.SubstituteAbsent | src/Properties.ts:76 | a text with no occurrence of `key=` is written unchanged |
| Config.SubstituteLines | src/Properties.ts:76 | a line terminator is kept, and the text on each side of it is rewritten independently |
| Config.SubstituteLine | src/Properties.ts:76 | on one line, the text before the first `key=` is kept, and the rest becomes `key=` + value |
| Config.SubstituteKeepsShortPrefix | src/Properties.ts:76 | a prefix no longer than the pattern starts the written text exactly when it starts the original one |
| Config.SubstituteIdempotent | src/Properties.ts:76 | rewriting the written text with the same key and a one-line value changes nothing |
| Config.Expand | src/Properties.ts:76 | specified by `ExpandLiteral` and `DollarOneKeepsOldValue` |
| Config.ExpandLiteral | src/Properties.ts:76 | a template without `$` is inserted as it is |
| Config.ReplaceFrom | src/Properties.ts:76 | specified by `ReplaceFromAtMatch` and `ReplaceLiteral` |
| Config.Replace | src/Properties.ts:76 | specified by `ReplaceLiteral`, `ReplaceWithinLine`, `SuffixKeyIsRewritten` and `DollarOneKeepsOldValue` |
| Config.ReplaceLiteral | src/Properties.ts:76 | with no `$` in key or value, the regular-expression replacement equals the literal substitution `Substitute` |
| Config.ReplaceWithinLine | src/Properties.ts:76 | the first `key=` on a line takes the rest of that line, whatever text comes before it on the line |
| Config.SuffixKeyIsRewritten | src/Properties.ts:76 | setting `gamemode` replaces the value on a `force-gamemode` line |
| Config.DollarOneKeepsOldValue | src/Properties.ts:76 | the value `$1` writes the old line back unchanged |
| Config.Entries | src/Properties.ts:81 | one entry per key, in order, with the key's member name and its stored value |
| Config.EntriesNamed | src/Properties.ts:81 | each entry's value is the stored one; its name is the member whose key string it is, and absent exactly when there is none |
| Config.Properties.constructor | src/Properties.ts:54-68 | the loop over the retained lines builds exactly the table `ParseFile` specifies; it keeps the text and has written nothing |
| Config.Properties.Absorb | src/Properties.ts:60-66 | one turn of the loop sets the key to the typed value, as `Insert` specifies |
| Config.Properties.Open | src/Properties.ts:54-68 | construction fails exactly when the parse fails, with its error; otherwise it yields a fresh, well-formed store holding the parsed table |
| Config.Properties.GetProperty | src/Properties.ts:70-72 | the stored value of the key, absent exactly when the file never set it |
| Config.Properties.SetProperty | src/Properties.ts:74-78 | the key then holds the value, and every other key keeps its value; a new key goes to the end of the order; the written text is the construction-time text with every `key=(.*)` replaced by the template `key=value` |
| Config.Properties.SetTyped | src/Properties.ts:84-362 | a typed setter behaves as `setProperty` with a value of the accessor's type |
| Config.Properties.GetTyped | src/Properties.ts:84-362 | a typed getter returns the stored value unchanged, since the cast checks nothing |
| Config.Properties.GetAllProperties | src/Properties.ts:80-82 | one entry per stored key, in insertion order, each with its value unchanged and the member name of its key, absent exactly when no member has that key string |

## Left out

- Starting the process, writing to its stdin, the `spawn` and `close` handlers, and stderr forwarding (`src/index.ts:41-58`): these are input and output pass-throughs with no logic.
- The `EventEmitter` and its listeners: emitting an event is modelled as appending it to the log.
- The `Properties` object that the `Executable` constructor creates is not wired into the `Executable` class. The store is modelled on its own.
- `readFileSync`, `writeFileSync` and `path.resolve`: the file's text is a parameter, and the written text is recorded in the field `written`.
- UTF-8 decoding of chunks: chunks are taken as already-decoded strings. JavaScript strings are UTF-16 code units; the model works on `char`.
- `toLocaleLowerCase`: modelled as ASCII lower-casing (`Text.Lower`), because the locale-dependent mapping is outside the model.
- The return values of `processStdout`: its only caller, the stream listener, discards them.
- Config.Value: a `Num` holds a natural number. `Number` of a very long digit string loses precision as a double, and that is not modelled. `setProperty` with a negative or fractional number cannot be expressed in the model.
- Config.Properties.constructor: requires that the text parses. The `TypeError` that JavaScript throws on a retained line without `=` is modelled by `Properties.Open` and `ParseFile`'s `Failure`.
- The 70 typed getters and setters are one generic pair, `GetTyped` and `SetTyped`. `Accessor` records the type each member's pair declares. `enable-lan-visibility` has no pair.
- Regular-expression metacharacters in keys: the pattern is treated as literal text. Every key string of the enumeration consists of letters, digits and `-`, which are literal in a regular expression.
- Config.Expand: only the forms that a pattern with one capture group and no named groups can produce are modelled.
