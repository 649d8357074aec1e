/**
 * The process adapter of src/index.ts: the stdout line-reassembly state
 * machine (one pending fragment, `cache`) and the console-line parser that
 * turns each complete line into a structured console event. Emitting an
 * event is modelled as appending it to an event log.
 */
module Server {
  import opened Wrappers
  import opened Text

  /** The line terminator the server writes. */
  const CRLF: string := "\r\n"

  /** A console line the parser skips besides the empty one. */
  const NoOpMarker: string := ":r"

  /**
   * The payload of a `console` event. `date`, `time` and `meta` are None
   * where the source leaves them `undefined`; an element of `meta` is None
   * where the source pushes `undefined` (a first segment with fewer than
   * three space-separated tokens).
   */
  datatype ConsoleEvent = ConsoleEvent(
    line: string,
    date: Option<string>,
    time: Option<string>,
    meta: Option<seq<Option<string>>>)

  /** An event the adapter emits. */
  datatype Event = Stdout(text: string) | Console(event: ConsoleEvent)

  // ---------------------------------------------------------------------
  // Bracketed segments: the matches of /\[(.*?)\]/g
  // ---------------------------------------------------------------------

  /**
   * Where the lazy `(.*?)\]` that follows a `[` stops: the index of the
   * first `]` in `t`, provided no line terminator (which `.` refuses) comes
   * before it.
   */
  function CloseAt(t: string): (r: Option<nat>)
    ensures r.Some? ==> r.value < |t| && t[r.value] == ']'
    ensures r.Some? ==> forall j :: 0 <= j < r.value ==> t[j] != ']' && !IsLineTerminator(t[j])
    ensures r.None? ==> forall k :: 0 <= k < |t| && t[k] == ']' ==> exists m :: 0 <= m < k && IsLineTerminator(t[m])
    decreases |t|
  {
    if t == [] then None
    else if t[0] == ']' then Some(0)
    else if IsLineTerminator(t[0]) then None
    else
      match CloseAt(t[1..])
      case None => None
      case Some(k) => Some(k + 1)
  }

  /**
   * The global matches of /\[(.*?)\]/ in `s`, left to right, each with its
   * brackets. A `[` whose match fails is skipped and the search resumes at
   * the next character; after a match it resumes after the `]`.
   */
  function Segments(s: string): (r: seq<string>)
    ensures forall k :: 0 <= k < |r| ==> 2 <= |r[k]| && r[k][0] == '[' && r[k][|r[k]| - 1] == ']'
    ensures forall k :: 0 <= k < |r| ==> ']' !in Inner(r[k]) && OneLine(Inner(r[k]))
    decreases |s|
  {
    if s == [] then []
    else if s[0] == '[' && CloseAt(s[1..]).Some? then
      var n := CloseAt(s[1..]).value + 2;
      assert Inner(s[..n]) == s[1..][..n - 2];
      [s[..n]] + Segments(s[n..])
    else Segments(s[1..])
  }

  /** The text between a segment's brackets. */
  function Inner(segment: string): string
    requires |segment| >= 2
  {
    segment[1..|segment| - 1]
  }

  /** The lazy match stops at the first `]` when no line terminator precedes it. */
  lemma CloseAtFirst(x: string, rest: string)
    requires ']' !in x && OneLine(x)
    ensures CloseAt(x + "]" + rest) == Some(|x|)
  {
    var t := x + "]" + rest;
    assert t[|x|] == ']';
    assert forall j :: 0 <= j < |x| ==> t[j] == x[j];
  }

  /** A `[` closed on its line starts the first segment, and the search resumes after its `]`. */
  lemma SegmentsAtBracket(x: string, rest: string)
    requires ']' !in x && OneLine(x)
    ensures Segments("[" + x + "]" + rest) == ["[" + x + "]"] + Segments(rest)
  {
    var s := "[" + x + "]" + rest;
    assert s[1..] == x + "]" + rest;
    CloseAtFirst(x, rest);
    assert s[..|x| + 2] == "[" + x + "]";
    assert s[|x| + 2..] == rest;
  }

  /** A character other than `[` starts no segment. */
  lemma SegmentsSkip(c: char, rest: string)
    requires c != '['
    ensures Segments([c] + rest) == Segments(rest)
  {
    assert ([c] + rest)[1..] == rest;
  }

  /** A `[` not closed on its line starts no segment; the search resumes right after it. */
  lemma SegmentsUnclosed(rest: string)
    requires CloseAt(rest).None?
    ensures Segments("[" + rest) == Segments(rest)
  {
    assert ("[" + rest)[1..] == rest;
  }

  /** A line without `[` has no segment. */
  lemma {:induction false} SegmentsWithoutBracket(s: string)
    requires '[' !in s
    ensures Segments(s) == []
    decreases |s|
  {
    if s != [] {
      SegmentsWithoutBracket(s[1..]);
    }
  }

  /** A line has no bracketed segment exactly when no `[` in it is closed on its line. */
  lemma {:induction false} NoSegmentsIff(s: string)
    ensures Segments(s) == [] <==> forall i :: 0 <= i < |s| && s[i] == '[' ==> CloseAt(s[i + 1..]).None?
    decreases |s|
  {
    if s != [] {
      NoSegmentsIff(s[1..]);
      forall i | 1 <= i < |s| ensures s[1..][i - 1] == s[i] && s[1..][i - 1 + 1..] == s[i + 1..] { }
      if s[0] == '[' && CloseAt(s[1..]).Some? {
        assert Segments(s) != [];
      }
    }
  }

  /** `data.replace(/\[|\]/g, '')`: every bracket character removed. */
  function Unbracket(s: string): (r: string)
    ensures '[' !in r && ']' !in r
    ensures |r| <= |s|
    ensures '[' !in s && ']' !in s ==> r == s
    decreases |s|
  {
    if s == [] then []
    else if s[0] == '[' || s[0] == ']' then Unbracket(s[1..])
    else [s[0]] + Unbracket(s[1..])
  }

  /** Removing brackets distributes over concatenation. */
  lemma {:induction false} UnbracketAppend(a: string, b: string)
    ensures Unbracket(a + b) == Unbracket(a) + Unbracket(b)
    decreases |a|
  {
    if a != [] {
      assert (a + b)[0] == a[0];
      assert (a + b)[1..] == a[1..] + b;
      UnbracketAppend(a[1..], b);
      if a[0] != '[' && a[0] != ']' {
        assert Unbracket(a + b) == [a[0]] + (Unbracket(a[1..]) + Unbracket(b));
      }
    } else {
      assert a + b == b;
    }
  }

  /** One element of `meta` in the source: a segment without brackets, lower-cased. */
  function Clean(segment: string): string {
    Lower(Unbracket(segment))
  }

  /** Cleaning a segment lower-cases its inner text with any further `[` removed. */
  lemma CleanSegment(x: string)
    ensures Clean("[" + x + "]") == Lower(Unbracket(x))
  {
    UnbracketAppend("[", x + "]");
    UnbracketAppend(x, "]");
    assert "[" + x + "]" == "[" + (x + "]");
  }

  /** `timestamp.map(...)`: every segment cleaned, in order. */
  function CleanAll(segments: seq<string>): (r: seq<string>)
    ensures |r| == |segments|
  {
    seq(|segments|, k requires 0 <= k < |segments| => Clean(segments[k]))
  }

  /** The text the parser strips: the first three segments (at most) joined by spaces, then a space. */
  function Header(segments: seq<string>): string
    requires segments != []
  {
    Join(segments[..if |segments| < 3 then |segments| else 3], " ") + " "
  }

  /** Element `i` of a JavaScript array, `undefined` past its end. */
  function At(tokens: seq<string>, i: nat): (r: Option<string>)
    ensures r.Some? <==> i < |tokens|
    ensures r.Some? ==> r.value == tokens[i]
  {
    if i < |tokens| then Some(tokens[i]) else None
  }

  /** Strings as present array elements. */
  function Wrap(s: seq<string>): (r: seq<Option<string>>)
    ensures |r| == |s|
    ensures forall k :: 0 <= k < |s| ==> r[k] == Some(s[k])
  {
    seq(|s|, k requires 0 <= k < |s| => Some(s[k]))
  }

  /**
   * The console event of one line (the body of the loop in processConsole).
   * Without a bracketed segment the line is passed through with every other
   * field absent; otherwise the header is stripped from the message, the
   * first segment gives date, time and the first tag, and every further
   * segment one more tag.
   */
  function ParseLine(line: string): ConsoleEvent
  {
    var segments := Segments(line);
    if segments == [] then ConsoleEvent(line, None, None, None)
    else
      var meta := CleanAll(segments);
      var tokens := SplitOn(meta[0], " ");
      ConsoleEvent(RemoveFirst(line, Header(segments)), Some(tokens[0]), At(tokens, 1),
                   Some([At(tokens, 2)] + Wrap(meta[1..])))
  }

  /**
   * The fields of a line's console event: without a bracketed segment the
   * line unchanged and nothing else; otherwise the message with the header
   * removed, date and time the first two space-separated tokens of the
   * cleaned first segment, and one tag per segment: the third token, then
   * the cleaned further segments in order.
   */
  lemma ParseLineFields(line: string)
    ensures Segments(line) == [] ==> ParseLine(line) == ConsoleEvent(line, None, None, None)
    ensures Segments(line) != [] ==>
      var segments := Segments(line);
      var tokens := SplitOn(Lower(Unbracket(Inner(segments[0]))), " ");
      var r := ParseLine(line);
      && r.line == RemoveFirst(line, Header(segments))
      && r.date == Some(tokens[0])
      && r.time == At(tokens, 1)
      && r.meta.Some? && |r.meta.value| == |segments|
      && r.meta.value[0] == At(tokens, 2)
      && forall k :: 1 <= k < |segments| ==> r.meta.value[k] == Some(Lower(Unbracket(Inner(segments[k]))))
  {
    var segments := Segments(line);
    if segments != [] {
      var meta := CleanAll(segments);
      forall k | 0 <= k < |segments|
        ensures meta[k] == Lower(Unbracket(Inner(segments[k])))
      {
        CleanSegment(Inner(segments[k]));
        assert segments[k] == "[" + Inner(segments[k]) + "]";
      }
      var tokens := SplitOn(meta[0], " ");
      var tags := [At(tokens, 2)] + Wrap(meta[1..]);
      var r := ParseLine(line);
      assert r == ConsoleEvent(RemoveFirst(line, Header(segments)), Some(tokens[0]), At(tokens, 1), Some(tags));
      forall k | 1 <= k < |segments|
        ensures tags[k] == Some(meta[k])
      {
        assert tags[k] == Wrap(meta[1..])[k - 1];
      }
    }
  }

  /** The two segments of a line with two closed segments and a message free of `[`. */
  lemma SegmentsOfTwo(a: string, b: string, message: string)
    requires ']' !in a && OneLine(a) && ']' !in b && OneLine(b) && '[' !in message
    ensures Segments("[" + a + "]" + " " + "[" + b + "]" + " " + message) == ["[" + a + "]", "[" + b + "]"]
  {
    var tail := "[" + b + "]" + " " + message;
    SegmentsAtBracket(b, " " + message);
    SegmentsSkip(' ', message);
    SegmentsWithoutBracket(message);
    assert tail == "[" + b + "]" + (" " + message);
    assert " " + message == [' '] + message;
    SegmentsAtBracket(a, " " + tail);
    SegmentsSkip(' ', tail);
    assert " " + tail == [' '] + tail;
    assert "[" + a + "]" + " " + "[" + b + "]" + " " + message == "[" + a + "]" + (" " + tail);
  }

  /** Stripping the header of two segments leaves the message. */
  lemma HeaderOfTwo(seg0: string, seg1: string, message: string)
    ensures RemoveFirst(seg0 + " " + seg1 + " " + message, Header([seg0, seg1])) == message
  {
    var header := Header([seg0, seg1]);
    var line := seg0 + " " + seg1 + " " + message;
    assert [seg0, seg1][..2] == [seg0, seg1];
    JoinFirstTwo([seg0, seg1], " ");
    assert header == seg0 + " " + seg1 + " ";
    assert line == header + message;
    RemoveFirstAt(line, header, 0);
    assert line[0..] == line;
  }

  /**
   * A line with two bracketed segments and a message free of `[`: the
   * header is both segments, the first yields date, time and first tag, the
   * second the other tag.
   */
  lemma ParseLineTwoSegments(a: string, b: string, message: string)
    requires '[' !in a && ']' !in a && OneLine(a) && '[' !in b && ']' !in b && OneLine(b) && '[' !in message
    ensures var tokens := SplitOn(Lower(a), " ");
      ParseLine("[" + a + "]" + " " + "[" + b + "]" + " " + message)
      == ConsoleEvent(message, Some(tokens[0]), At(tokens, 1), Some([At(tokens, 2), Some(Lower(b))]))
  {
    var seg0, seg1 := "[" + a + "]", "[" + b + "]";
    var line := "[" + a + "]" + " " + "[" + b + "]" + " " + message;
    SegmentsOfTwo(a, b, message);
    HeaderOfTwo(seg0, seg1, message);
    assert line == seg0 + " " + seg1 + " " + message;
    ParseLineFields(line);
    assert Inner(seg0) == a && Inner(seg1) == b;
    var r := ParseLine(line);
    var tokens := SplitOn(Lower(a), " ");
    assert r.meta.value == [At(tokens, 2), Some(Lower(b))];
  }

  /** Lower-casing the first segment of the typical line. */
  lemma LowerExample()
    ensures Lower("2024-01-01 12:00:00 INFO") == "2024-01-01 12:00:00 info"
    ensures Lower("Server") == "server"
  {
  }

  /** Time and level of the typical line split apart. */
  lemma SplitTimeExample()
    ensures SplitOn("12:00:00 info", " ") == ["12:00:00", "info"]
  {
    assert "12:00:00" + " " + "info" == "12:00:00 info";
    SplitOnFirst("12:00:00", " ", "info");
    SplitOnAbsent("info", " ");
  }

  /** The first segment of the typical line splits into date, time and level. */
  lemma SplitExample()
    ensures SplitOn("2024-01-01 12:00:00 info", " ") == ["2024-01-01", "12:00:00", "info"]
  {
    assert "2024-01-01" + " " + "12:00:00 info" == "2024-01-01 12:00:00 info";
    SplitOnFirst("2024-01-01", " ", "12:00:00 info");
    SplitTimeExample();
  }

  /**
   * A typical server line: date, time and level in the first segment, the
   * origin in the second, and the message after the header.
   */
  lemma ParseLineExample()
    ensures ParseLine("[" + "2024-01-01 12:00:00 INFO" + "]" + " " + "[" + "Server" + "]" + " " + "Starting...")
         == ConsoleEvent("Starting...", Some("2024-01-01"), Some("12:00:00"), Some([Some("info"), Some("server")]))
  {
    var first := "2024-01-01 12:00:00 INFO";
    ParseLineTwoSegments(first, "Server", "Starting...");
    LowerExample();
    SplitExample();
    var tokens := SplitOn(Lower(first), " ");
    assert tokens == ["2024-01-01", "12:00:00", "info"];
    assert At(tokens, 1) == Some("12:00:00");
    assert At(tokens, 2) == Some("info");
  }

  /** A line the parser skips. */
  predicate Skipped(line: string) {
    line == "" || line == NoOpMarker
  }

  /** The lines of a split that the parser does not skip, in order. */
  function KeptLines(lines: seq<string>): (r: seq<string>)
    ensures |r| <= |lines|
    ensures forall k :: 0 <= k < |r| ==> !Skipped(r[k]) && r[k] in lines
    ensures forall line :: line in r <==> line in lines && !Skipped(line)
    decreases |lines|
  {
    if lines == [] then []
    else if Skipped(lines[0]) then KeptLines(lines[1..])
    else [lines[0]] + KeptLines(lines[1..])
  }

  /** The console events that processConsole emits for the given lines, one line at a time. */
  function Events(lines: seq<string>): seq<Event>
    decreases |lines|
  {
    if lines == [] then []
    else if Skipped(lines[0]) then Events(lines[1..])
    else [Console(ParseLine(lines[0]))] + Events(lines[1..])
  }

  /** The console events of some lines are the parses of the lines not skipped, in order. */
  lemma {:induction false} EventsOfKeptLines(lines: seq<string>)
    ensures |Events(lines)| == |KeptLines(lines)|
    ensures forall k :: 0 <= k < |Events(lines)| ==> Events(lines)[k] == Console(ParseLine(KeptLines(lines)[k]))
    decreases |lines|
  {
    if lines != [] {
      var rest := lines[1..];
      EventsOfKeptLines(rest);
      if !Skipped(lines[0]) {
        var head := Console(ParseLine(lines[0]));
        assert Events(lines) == [head] + Events(rest);
        assert KeptLines(lines) == [lines[0]] + KeptLines(rest);
      }
    }
  }

  /** Events distributes over concatenation of the line sequence. */
  lemma {:induction false} EventsAppend(a: seq<string>, b: seq<string>)
    ensures Events(a + b) == Events(a) + Events(b)
    decreases |a|
  {
    if a == [] {
      assert a + b == b;
    } else {
      assert (a + b)[0] == a[0] && (a + b)[1..] == a[1..] + b;
      EventsAppend(a[1..], b);
      if !Skipped(a[0]) {
        calc {
          Events(a + b);
          [Console(ParseLine(a[0]))] + Events(a[1..] + b);
          [Console(ParseLine(a[0]))] + (Events(a[1..]) + Events(b));
          ([Console(ParseLine(a[0]))] + Events(a[1..])) + Events(b);
        }
      }
    }
  }

  /** The console events of a flushed text. */
  function ConsoleEvents(text: string): seq<Event> {
    Events(SplitOn(text, CRLF))
  }

  /** What one flush of a complete text emits: its console events, then one stdout event. */
  function Flush(text: string): seq<Event> {
    ConsoleEvents(text) + [Stdout(text)]
  }

  /**
   * A flush emits one console event per piece of the text between line
   * terminators that is neither empty nor the no-op marker, each the parse
   * of that piece, all of them before one stdout event carrying the text.
   */
  lemma FlushShape(text: string)
    ensures var kept := KeptLines(SplitOn(text, CRLF));
      && |Flush(text)| == |kept| + 1
      && Flush(text)[|kept|] == Stdout(text)
      && forall k :: 0 <= k < |kept| ==> Flush(text)[k] == Console(ParseLine(kept[k]))
  {
    EventsOfKeptLines(SplitOn(text, CRLF));
  }

  // ---------------------------------------------------------------------
  // The line-reassembly state machine, as a function of the state
  // ---------------------------------------------------------------------

  /** The adapter's state: the pending fragment ("" for none) and the events emitted so far. */
  datatype Adapter = Adapter(cache: string, log: seq<Event>)

  /** A chunk that ends the pending text. */
  predicate Complete(chunk: string) {
    EndsWith(chunk, CRLF)
  }

  /**
   * processStdout on one chunk: an incomplete chunk is appended to the
   * pending fragment; a complete one flushes fragment and chunk together and
   * leaves no fragment.
   */
  function Step(s: Adapter, chunk: string): Adapter
  {
    if Complete(chunk) then Adapter("", s.log + Flush(s.cache + chunk))
    else Adapter(s.cache + chunk, s.log)
  }

  /** Feeding chunks one after another. */
  function FeedAll(s: Adapter, chunks: seq<string>): Adapter
    decreases |chunks|
  {
    if chunks == [] then s else FeedAll(Step(s, chunks[0]), chunks[1..])
  }

  /** The chunks' text, end to end. */
  function Concat(chunks: seq<string>): string
    decreases |chunks|
  {
    if chunks == [] then [] else chunks[0] + Concat(chunks[1..])
  }

  /** Incomplete chunks only accumulate in the fragment: nothing is emitted. */
  lemma {:induction false} IncompleteChunksAccumulate(s: Adapter, chunks: seq<string>)
    requires forall k :: 0 <= k < |chunks| ==> !Complete(chunks[k])
    ensures FeedAll(s, chunks) == Adapter(s.cache + Concat(chunks), s.log)
    decreases |chunks|
  {
    if chunks != [] {
      IncompleteChunksAccumulate(Step(s, chunks[0]), chunks[1..]);
      assert s.cache + chunks[0] + Concat(chunks[1..]) == s.cache + Concat(chunks);
    }
  }

  lemma CompleteAppend(a: string, b: string)
    requires Complete(b)
    ensures Complete(a + b)
  {
    assert (a + b)[|a + b| - 2..] == b[|b| - 2..];
  }

  /**
   * Splitting a line across chunks does not change what is emitted: when
   * every chunk but the last is incomplete and the last is complete, feeding
   * them one by one gives the same log and fragment as feeding their
   * concatenation at once.
   */
  lemma {:induction false} ChunkingInvariance(s: Adapter, chunks: seq<string>)
    requires |chunks| >= 1 && Complete(chunks[|chunks| - 1])
    requires forall k :: 0 <= k < |chunks| - 1 ==> !Complete(chunks[k])
    ensures FeedAll(s, chunks) == Step(s, Concat(chunks))
    decreases |chunks|
  {
    var first, rest := chunks[0], chunks[1..];
    assert FeedAll(s, chunks) == FeedAll(Step(s, first), rest);
    assert Concat(chunks) == first + Concat(rest);
    if |chunks| == 1 {
      assert Concat(rest) == [];
      assert Concat(chunks) == first;
    } else {
      ChunkingInvariance(Step(s, first), rest);
      ConcatComplete(rest);
      StepAfterIncomplete(s, first, Concat(rest));
    }
  }

  /** An incomplete chunk followed by a complete one flushes like their concatenation. */
  lemma StepAfterIncomplete(s: Adapter, a: string, b: string)
    requires !Complete(a) && Complete(b)
    ensures Step(Step(s, a), b) == Step(s, a + b)
  {
    CompleteAppend(a, b);
    assert (s.cache + a) + b == s.cache + (a + b);
  }

  lemma {:induction false} ConcatComplete(chunks: seq<string>)
    requires |chunks| >= 1 && Complete(chunks[|chunks| - 1])
    ensures Complete(Concat(chunks))
    decreases |chunks|
  {
    if |chunks| > 1 {
      ConcatComplete(chunks[1..]);
      CompleteAppend(chunks[0], Concat(chunks[1..]));
    }
  }

  /**
   * Two chunks, the first incomplete: feeding them apart agrees with feeding
   * them together exactly when the second is complete or the two together
   * are not. A terminator split between the chunks ("...\r" then "\n") is
   * therefore not recognised.
   */
  lemma TwoChunks(s: Adapter, a: string, b: string)
    requires !Complete(a)
    ensures FeedAll(s, [a, b]) == Step(s, a + b) <==> Complete(b) || !Complete(a + b)
  {
    assert [a, b][1..] == [b] && [b][1..] == [];
    assert FeedAll(s, [a, b]) == FeedAll(Step(s, a), [b]);
    assert FeedAll(Step(s, a), [b]) == FeedAll(Step(Step(s, a), b), []);
    assert Step(s, a) == Adapter(s.cache + a, s.log);
    assert s.cache + a + b == s.cache + (a + b);
    if Complete(b) {
      CompleteAppend(a, b);
    } else if Complete(a + b) {
      assert |a + b| >= 2;
      assert Step(s, a + b).cache == "";
    }
  }

  /** The concrete case of a terminator split between two chunks. */
  lemma SplitTerminatorIsMissed()
    ensures FeedAll(Adapter("", []), ["x\r", "\n"]) == Adapter("x\r\n", [])
    ensures Step(Adapter("", []), "x\r\n").cache == "" && Step(Adapter("", []), "x\r\n").log != []
  {
    assert !Complete("x\r") && !Complete("\n");
    IncompleteChunksAccumulate(Adapter("", []), ["x\r", "\n"]);
    assert Concat(["x\r", "\n"]) == "x\r" + Concat(["\n"]);
    assert Concat(["\n"]) == "\n" + Concat([]);
    assert Complete("x\r\n");
  }

  // ---------------------------------------------------------------------
  // The parent directory (src/index.ts:40)
  // ---------------------------------------------------------------------

  /** `path.split('\\').slice(0, -1).join('\\')`. */
  function ParentPath(path: string): string {
    var parts := SplitOn(path, "\\");
    Join(parts[..|parts| - 1], "\\")
  }

  /** The parent is the text before the last backslash, or empty without one. */
  lemma ParentPathSpec(path: string)
    ensures '\\' !in path ==> ParentPath(path) == ""
    ensures '\\' in path ==> exists file :: '\\' !in file && path == ParentPath(path) + "\\" + file
  {
    var parts := SplitOn(path, "\\");
    JoinSplit(path, "\\");
    SplitPiecesAvoidSeparator(path, "\\");
    var last := parts[|parts| - 1];
    OccursChar('\\', last);
    if |parts| == 1 {
      OccursChar('\\', parts[0]);
    } else {
      JoinLast(parts, "\\");
      assert path == ParentPath(path) + "\\" + last;
      assert path[|ParentPath(path)|] == '\\';
    }
  }

  // ---------------------------------------------------------------------
  // The adapter object
  // ---------------------------------------------------------------------

  /** processConsole's treatment of one line that is not skipped. */
  method ParseConsoleLine(line: string) returns (event: ConsoleEvent)
    ensures event == ParseLine(line)
  {
    var timestamp := Segments(line);
    if timestamp == [] {
      event := ConsoleEvent(line, None, None, None);
    } else {
      var message := RemoveFirst(line, Header(timestamp));
      var meta := CleanAll(timestamp);
      var tokens := SplitOn(meta[0], " ");
      var tags := [At(tokens, 2)];
      if |meta| > 1 {
        for index := 0 to |meta|
          invariant index <= 1 ==> tags == [At(tokens, 2)]
          invariant index >= 1 ==> tags == [At(tokens, 2)] + Wrap(meta[1..index])
        {
          if index == 0 {
            assert meta[1..1] == [];
            continue;
          }
          assert Wrap(meta[1..index + 1]) == Wrap(meta[1..index]) + [Some(meta[index])];
          tags := tags + [Some(meta[index])];
        }
        assert meta[1..|meta|] == meta[1..];
      } else {
        assert Wrap(meta[1..]) == [];
      }
      assert tags == [At(tokens, 2)] + Wrap(meta[1..]);
      event := ConsoleEvent(message, Some(tokens[0]), At(tokens, 1), Some(tags));
    }
  }

  /** The server executable: its directory, the pending stdout fragment and the events emitted. */
  class Executable {
    const path: string
    var cache: string
    var log: seq<Event>

    /** The process, its listeners and the properties store are not modelled; see README. */
    constructor (executablePath: string)
      ensures path == ParentPath(executablePath)
      ensures cache == "" && log == []
    {
      path := ParentPath(executablePath);
      cache := "";
      log := [];
    }

    /** processStdout: reassemble lines across chunks and flush complete text. */
    method ProcessStdout(chunk: string)
      modifies this`cache, this`log
      ensures !Complete(chunk) ==> cache == old(cache) + chunk && log == old(log)
      ensures Complete(chunk) ==> cache == "" && log == old(log) + ConsoleEvents(old(cache) + chunk) + [Stdout(old(cache) + chunk)]
      ensures Adapter(cache, log) == Step(Adapter(old(cache), old(log)), chunk)
    {
      if cache == "" && !EndsWith(chunk, CRLF) {
        cache := chunk;
      } else if cache != "" && !EndsWith(chunk, CRLF) {
        var line := cache + chunk;
        cache := line;
      } else if cache != "" && EndsWith(chunk, CRLF) {
        var line := cache + chunk;
        ProcessConsole(line);
        log := log + [Stdout(line)];
        cache := "";
      } else {
        assert old(cache) + chunk == chunk;
        ProcessConsole(chunk);
        log := log + [Stdout(chunk)];
      }
    }

    /** processConsole: one console event per line that is not skipped, in order. */
    method ProcessConsole(data: string)
      modifies this`log
      ensures log == old(log) + ConsoleEvents(data)
    {
      var parsed := SplitOn(data, CRLF);
      for i := 0 to |parsed|
        invariant log == old(log) + Events(parsed[..i])
      {
        var line := parsed[i];
        assert parsed[..i + 1] == parsed[..i] + [line];
        EventsAppend(parsed[..i], [line]);
        if line == "" || line == NoOpMarker {
          continue;
        }
        var event := ParseConsoleLine(line);
        log := log + [Console(event)];
      }
      assert parsed[..|parsed|] == parsed;
    }
  }
}
