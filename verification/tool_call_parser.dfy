/** The two readers of tool calls written as text by the model:
    `TOOL_CALL: <name>` followed by `ARGUMENTS: <json object>`.

    `ParseDirect` is the marker scanner of `parseToolCallsFromTextDirectly`
    (it finds each marker, cuts the name at the line end and copies the JSON
    object by counting braces outside string literals); `ParseLines` is the
    line reader of `parseToolCallsFromText`. */
module ToolCallParser {
  import opened Wrappers
  import opened JavaString

  const Marker: string := "TOOL_CALL:"
  const ArgsMarker: string := "ARGUMENTS:"

  /** A tool call read from text. */
  datatype Call = Call(name: string, arguments: string)

  /** What the marker scanner promises of every call it emits: a one-line
      non-empty name, and non-empty arguments that end in `}` when they hold
      one. */
  predicate IsEmittable(c: Call) {
    && c.name != [] && '\n' !in c.name
    && c.arguments != []
    && ('}' in c.arguments ==> c.arguments[|c.arguments| - 1] == '}')
  }

  // ------------------------------------------------ JSON object extent

  /** The brace scanner's state: nesting depth, whether it is inside a
      string literal, and whether the previous character was a backslash. */
  datatype Scan = Scan(depth: int, inString: bool, escapeNext: bool)

  /** The scanner's step on one character. */
  function Step(st: Scan, c: char): Scan {
    if st.escapeNext then st.(escapeNext := false)
    else if c == '\\' then st.(escapeNext := true)
    else if c == '"' then st.(inString := !st.inString)
    else if !st.inString && c == '{' then st.(depth := st.depth + 1)
    else if !st.inString && c == '}' then st.(depth := st.depth - 1)
    else st
  }

  /** Whether the scanner stops right after reading `c`: a `}` outside a
      string literal that brings the depth back to zero. */
  predicate Stops(st: Scan, c: char) {
    !st.escapeNext && c != '\\' && c != '"' && !st.inString && c == '}' && st.depth - 1 == 0
  }

  /** Where the scan started at `i` in state `st` ends: one past the
      stopping `}`, or the end of `s`. */
  function ScanEnd(s: string, i: nat, st: Scan): (k: nat)
    requires i <= |s|
    ensures i <= k <= |s|
    ensures k < |s| ==> i < k && s[k - 1] == '}'
    decreases |s| - i
  {
    if i == |s| then |s|
    else if Stops(st, s[i]) then i + 1
    else ScanEnd(s, i + 1, Step(st, s[i]))
  }

  /** The leading spaces, LFs and CRs the scanner skips. */
  function SkipBlankPrefix(s: string, i: nat): (k: nat)
    requires i <= |s|
    ensures i <= k <= |s|
    ensures k < |s| ==> s[k] != ' ' && s[k] != '\n' && s[k] != '\r'
    decreases |s| - i
  {
    if i < |s| && (s[i] == ' ' || s[i] == '\n' || s[i] == '\r') then SkipBlankPrefix(s, i + 1) else i
  }

  /** The text the scanner copies from the arguments section: from the
      first non-blank character up to the `}` that closes the object, or to
      the end. */
  function JsonPrefix(section: string): (r: string)
  {
    var start := SkipBlankPrefix(section, 0);
    section[start..ScanEnd(section, start, Scan(0, false, false))]
  }

  /** `s` up to and including its last `}`, or `s` when it has none. */
  function CutAfterLastBrace(s: string): (r: string)
    ensures |r| <= |s| && r == s[..|r|]
    ensures s != [] ==> r != []
    ensures s != [] && s[|s| - 1] == '}' ==> r == s
  {
    var last := LastIndexOfChar(s, '}');
    if last != -1 then s[..last + 1] else s
  }

  /** Markdown emphasis the model sometimes writes after the object. */
  predicate HasMarkup(s: string) {
    Contains(s, "**") || Contains(s, "*content*")
  }

  /** Drops what follows the last `}`: first when non-blank text follows
      it, then again when the text holds `**` or `*content*`. */
  function DropTextAfterJson(arguments: string): (r: string)
    ensures |r| <= |arguments| && r == arguments[..|r|]
    ensures arguments != [] ==> r != []
  {
    var last := LastIndexOfChar(arguments, '}');
    var a1 :=
      if last != -1 && last < |arguments| - 1 && !IsBlank(arguments[last + 1..])
      then arguments[..last + 1] else arguments;
    if HasMarkup(a1) then CutAfterLastBrace(a1) else a1
  }

  /** Trimmed arguments come out ending in `}` whenever they hold one. */
  lemma {:induction false} DropTextAfterJsonEndsWithBrace(arguments: string)
    requires IsTrimmed(arguments)
    ensures var r := DropTextAfterJson(arguments); '}' in r ==> r[|r| - 1] == '}'
  {
    var last := LastIndexOfChar(arguments, '}');
    if last != -1 && last < |arguments| - 1 {
      var tail := arguments[last + 1..];
      assert tail[|tail| - 1] == arguments[|arguments| - 1];
      BlankIffAllSpace(tail);
    }
  }

  // ------------------------------------------------ the marker scanner

  lemma {:induction false} OccursAtChar(s: string, c: char, k: int)
    ensures OccursAt(s, [c], k) <==> 0 <= k < |s| && s[k] == c
  {
    if 0 <= k < |s| {
      assert s[k..k + 1] == [s[k]];
    }
  }

  /** The end of the name: the first LF of the section, or its end. */
  function NameEnd(section: string): (e: nat)
    requires StartsWith(section, Marker)
    ensures |Marker| <= e <= |section|
    ensures forall k :: |Marker| <= k < e ==> section[k] != '\n'
  {
    var nl := IndexOf(section, "\n");
    assert forall k :: 0 <= k < |section| && (nl == -1 || k < nl) ==> section[k] != '\n' by {
      forall k | 0 <= k < |section| && (nl == -1 || k < nl)
        ensures section[k] != '\n'
      {
        OccursAtChar(section, '\n', k);
      }
    }
    assert nl == -1 || |Marker| <= nl by {
      forall k | 0 <= k < |Marker| ensures section[k] != '\n' {
        assert section[k] == section[..|Marker|][k];
      }
      if nl != -1 {
        OccursAtChar(section, '\n', nl);
      }
    }
    if nl == -1 then |section| else nl
  }

  /** The name after the marker at `idx`: the rest of its line, trimmed. */
  function NameAt(text: string, idx: nat): (r: string)
    requires OccursAt(text, Marker, idx)
    ensures '\n' !in r
  {
    var section := text[idx..];
    assert section[..|Marker|] == Marker;
    var nameEnd := NameEnd(section);
    var rawName := section[|Marker|..nameEnd];
    assert '\n' !in rawName by {
      forall k | 0 <= k < |rawName| ensures rawName[k] != '\n' {
        assert rawName[k] == section[|Marker| + k];
      }
    }
    TrimKeepsAbsence(rawName, '\n');
    Trim(rawName)
  }

  /** The arguments read from `text[start..]`: the JSON object the brace
      scanner copies, trimmed and cut after its last `}`. */
  function ArgumentsFrom(text: string, start: nat): (r: string)
    requires start <= |text|
    ensures '}' in r ==> r[|r| - 1] == '}'
  {
    var trimmed := Trim(JsonPrefix(Trim(text[start..])));
    DropTextAfterJsonEndsWithBrace(trimmed);
    DropTextAfterJson(trimmed)
  }

  /** The arguments of the call at the marker `idx`: those after the first
      `ARGUMENTS:` anywhere past the marker, or `None` when none follows. */
  function ArgumentsAt(text: string, idx: nat): (r: Option<string>)
    requires OccursAt(text, Marker, idx)
    ensures r.Some? && '}' in r.value ==> r.value[|r.value| - 1] == '}'
  {
    var argsAt := IndexOf(text[idx..], ArgsMarker);
    if argsAt == -1 then None else Some(ArgumentsFrom(text, idx + argsAt + |ArgsMarker|))
  }

  /** The call starting at the marker at `idx`, if it has a name and
      arguments. */
  function CallAt(text: string, idx: nat): (r: Option<Call>)
    requires OccursAt(text, Marker, idx)
    ensures r.Some? ==> IsEmittable(r.value)
  {
    var name := NameAt(text, idx);
    var arguments := ArgumentsAt(text, idx);
    if arguments.Some? && name != [] && arguments.value != [] then Some(Call(name, arguments.value)) else None
  }

  function ScanMeasure(text: string, idx: int): nat {
    if idx < 0 || idx > |text| then 0 else |text| + 1 - idx
  }

  /** The calls at the marker `idx` (or none when `idx` is -1) and at every
      later marker, each search starting one past the previous marker. */
  function ParseDirectFrom(text: string, idx: int): (r: seq<Call>)
    requires idx == -1 || OccursAt(text, Marker, idx)
    ensures forall k :: 0 <= k < |r| ==> IsEmittable(r[k])
    decreases ScanMeasure(text, idx)
  {
    if idx == -1 then []
    else
      var here := CallAt(text, idx);
      var head := if here.Some? then [here.value] else [];
      var next := IndexOfFrom(text, Marker, idx + 1);
      assert ScanMeasure(text, next) < ScanMeasure(text, idx);
      var rest := ParseDirectFrom(text, next);
      assert forall k :: 0 <= k < |head| ==> IsEmittable(head[k]);
      head + rest
  }

  /** `parseToolCallsFromTextDirectly`. */
  function ParseDirect(text: string): (r: seq<Call>)
    ensures !Contains(text, Marker) ==> r == []
    ensures forall k :: 0 <= k < |r| ==> IsEmittable(r[k])
  {
    ParseDirectFrom(text, IndexOf(text, Marker))
  }

  /** The number of positions at or after `from` where `pat` occurs. */
  function Occurrences(text: string, pat: string, from: nat): nat
    decreases |text| - from
  {
    if from >= |text| then 0
    else (if OccursAt(text, pat, from) then 1 else 0) + Occurrences(text, pat, from + 1)
  }

  lemma {:induction false} OccurrencesSkip(text: string, pat: string, lo: nat, hi: nat)
    requires lo <= hi
    requires forall i :: lo <= i < hi ==> !OccursAt(text, pat, i)
    ensures Occurrences(text, pat, lo) == Occurrences(text, pat, hi)
    decreases hi - lo
  {
    if lo < hi {
      OccurrencesSkip(text, pat, lo + 1, hi);
      if lo >= |text| {
        assert Occurrences(text, pat, hi) == 0;
      }
    }
  }

  lemma {:induction false} OccurrencesNone(text: string, pat: string, from: nat)
    requires forall i :: from <= i ==> !OccursAt(text, pat, i)
    ensures Occurrences(text, pat, from) == 0
    decreases |text| - from
  {
    if from < |text| {
      OccurrencesNone(text, pat, from + 1);
    }
  }

  /** The scanner emits at most one call per marker. */
  lemma {:induction false} ParseDirectFromCount(text: string, idx: int)
    requires idx == -1 || OccursAt(text, Marker, idx)
    ensures idx != -1 ==> |ParseDirectFrom(text, idx)| <= Occurrences(text, Marker, idx)
    decreases ScanMeasure(text, idx)
  {
    if idx != -1 {
      var next := IndexOfFrom(text, Marker, idx + 1);
      ParseDirectFromCount(text, next);
      if next == -1 {
        OccurrencesNone(text, Marker, idx + 1);
      } else {
        OccurrencesSkip(text, Marker, idx + 1, next);
      }
    }
  }

  lemma {:induction false} ParseDirectCount(text: string)
    ensures |ParseDirect(text)| <= Occurrences(text, Marker, 0)
  {
    var idx := IndexOf(text, Marker);
    ParseDirectFromCount(text, idx);
    if idx != -1 {
      OccurrencesSkip(text, Marker, 0, idx);
    }
  }

  // ------------------------------------------------ the line reader

  /** The line reader's state: the call being read, its argument text, and
      whether an `ARGUMENTS:` line has been seen since the last marker. */
  datatype LineState = LineState(current: Option<string>, builder: string, inArguments: bool, calls: seq<Call>)

  /** The calls so far, plus the one being read when it has argument text. */
  function Flush(st: LineState): (r: seq<Call>)
    ensures |st.calls| <= |r| <= |st.calls| + 1 && r[..|st.calls|] == st.calls
  {
    if st.current.Some? && |st.builder| > 0 then st.calls + [Call(st.current.value, Trim(st.builder))]
    else st.calls
  }

  /** One line, trimmed, fed to the reader. */
  function ReadLine(st: LineState, raw: string): (r: LineState)
    ensures |r.calls| <= |st.calls| + 1
    ensures StartsWith(Trim(raw), Marker) ==> r.current.Some? && r.builder == [] && !r.inArguments
    ensures !StartsWith(Trim(raw), Marker) ==> r.calls == st.calls && r.current == st.current
  {
    var line := Trim(raw);
    if StartsWith(line, Marker) then LineState(Some(Trim(line[|Marker|..])), [], false, Flush(st))
    else if StartsWith(line, ArgsMarker) then st.(inArguments := true, builder := st.builder + Trim(line[|ArgsMarker|..]))
    else if st.inArguments && st.current.Some? then st.(builder := st.builder + " " + line)
    else st
  }

  function ReadLines(st: LineState, lines: seq<string>): LineState
    decreases |lines|
  {
    if lines == [] then st else ReadLines(ReadLine(st, lines[0]), lines[1..])
  }

  /** The calls `parseToolCallsFromText` assembles, before each is turned
      into a request object. */
  function ParseLines(text: string): seq<Call> {
    Flush(ReadLines(LineState(None, [], false, []), SplitLiteral(text, "\n")))
  }

  /** `parseToolCallsFromText`: the request objects are built by reflection,
      which either always or never succeeds in a given runtime; when it
      fails every call is dropped. */
  function ParseToolCallsFromText(text: string, reflective: bool): (r: seq<Call>)
    ensures !reflective ==> r == []
  {
    if reflective then ParseLines(text) else []
  }

  /** The number of lines that start a call. */
  function MarkerLines(lines: seq<string>): nat {
    if lines == [] then 0
    else (if StartsWith(Trim(lines[0]), Marker) then 1 else 0) + MarkerLines(lines[1..])
  }

  /** Every call the line reader emits was opened by its own marker line. */
  lemma {:induction false} ReadLinesCount(st: LineState, lines: seq<string>)
    requires st.current.None? ==> |st.calls| == 0
    ensures |Flush(ReadLines(st, lines))| <= |st.calls| + (if st.current.Some? then 1 else 0) + MarkerLines(lines)
    decreases |lines|
  {
    if lines != [] {
      var st' := ReadLine(st, lines[0]);
      ReadLinesCount(st', lines[1..]);
    }
  }

  lemma {:induction false} ParseLinesCount(text: string)
    ensures |ParseLines(text)| <= MarkerLines(SplitLiteral(text, "\n"))
  {
    ReadLinesCount(LineState(None, [], false, []), SplitLiteral(text, "\n"));
  }
}
