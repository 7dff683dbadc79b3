/** The format the system prompt asks the model to use for a tool call,
    `TOOL_CALL: <name>` on one line and `ARGUMENTS: <json>` on the next, and
    the proof that both text readers give back the call that was written,
    for tool names of lower-case letters and underscores and for one-line
    JSON objects without nested objects or escapes. */
module ToolCallRender {
  import opened Wrappers
  import opened JavaString
  import opened ToolCallParser

  predicate IsToolNameChar(c: char) {
    IsAsciiLower(c) || c == '_'
  }

  /** A tool name as the tools are registered: `send_notification`, … */
  predicate IsToolName(name: string) {
    name != [] && forall k :: 0 <= k < |name| ==> IsToolNameChar(name[k])
  }

  /** The number of `"` characters in `s`. */
  function Quotes(s: string): nat {
    if s == [] then 0 else Quotes(s[..|s| - 1]) + (if s[|s| - 1] == '"' then 1 else 0)
  }

  /** A one-line JSON object without nested objects or escapes: braces
      around text holding no brace, backslash or line break and an even
      number of quotes, and not mentioning the call marker. */
  predicate IsFlatObject(a: string) {
    && |a| >= 2 && a[0] == '{' && a[|a| - 1] == '}'
    && (forall k :: 0 < k < |a| - 1 ==> a[k] != '{' && a[k] != '}' && a[k] != '\\' && a[k] != '\n')
    && Quotes(a[1..|a| - 1]) % 2 == 0
    && !Contains(a, Marker)
  }

  /** The call as the model is told to write it. */
  function Render(c: Call): (t: string)
    ensures StartsWith(t, Marker)
  {
    Marker + " " + c.name + "\n" + ArgsMarker + " " + c.arguments
  }

  predicate IsRenderable(c: Call) {
    IsToolName(c.name) && IsFlatObject(c.arguments)
  }

  // ------------------------------------------------ the brace scanner

  /** Inside a flat object the scanner stays at depth one, inside a string
      exactly when an odd number of quotes has been read. */
  lemma {:induction false} ScanFlatFrom(a: string, i: nat)
    requires IsFlatObject(a) && 1 <= i <= |a| - 1
    ensures ScanEnd(a, i, Scan(1, Quotes(a[1..i]) % 2 == 1, false)) == |a|
    decreases |a| - i
  {
    var st := Scan(1, Quotes(a[1..i]) % 2 == 1, false);
    if i == |a| - 1 {
      assert a[1..i] == a[1..|a| - 1];
      assert Stops(st, a[i]);
    } else {
      assert a[1..i + 1][..i - 1] == a[1..i];
      assert Step(st, a[i]) == Scan(1, Quotes(a[1..i + 1]) % 2 == 1, false);
      ScanFlatFrom(a, i + 1);
    }
  }

  /** The scanner copies a flat object whole. */
  lemma {:induction false} JsonPrefixFlat(a: string)
    requires IsFlatObject(a)
    ensures JsonPrefix(a) == a
  {
    assert SkipBlankPrefix(a, 0) == 0;
    assert Step(Scan(0, false, false), a[0]) == Scan(1, false, false);
    assert Quotes(a[1..1]) == 0;
    ScanFlatFrom(a, 1);
    assert ScanEnd(a, 0, Scan(0, false, false)) == |a|;
  }

  /** A flat object survives the clean-up of text after the JSON. */
  lemma {:induction false} DropTextAfterFlat(a: string)
    requires IsFlatObject(a)
    ensures DropTextAfterJson(a) == a
  {
    assert LastIndexOfChar(a, '}') == |a| - 1;
  }

  // ------------------------------------------------ layout of the text

  /** Where each part of a rendered call sits. */
  lemma {:induction false} RenderLayout(c: Call)
    ensures var t := Render(c); var n := |c.name|;
      && |t| == 23 + n + |c.arguments|
      && t[..10] == Marker && t[10] == ' '
      && t[10..11 + n] == " " + c.name
      && (forall k :: 0 <= k < n ==> t[11 + k] == c.name[k])
      && t[11 + n] == '\n'
      && t[12 + n..22 + n] == ArgsMarker
      && t[22 + n] == ' '
      && t[22 + n..] == " " + c.arguments
      && t[..11 + n] == Marker + " " + c.name
      && t[12 + n..] == ArgsMarker + " " + c.arguments
  {
  }

  lemma {:induction false} OccursAtHead(s: string, pat: string, p: int)
    requires |pat| >= 2 && OccursAt(s, pat, p)
    ensures s[p] == pat[0] && s[p + 1] == pat[1]
  {
    assert s[p] == s[p..p + |pat|][0];
    assert s[p + 1] == s[p..p + |pat|][1];
  }

  /** The first occurrence is the one with no occurrence before it. */
  lemma {:induction false} IndexOfIs(s: string, pat: string, i: nat)
    requires |pat| > 0 && OccursAt(s, pat, i)
    requires forall p :: 0 <= p < i ==> !OccursAt(s, pat, p)
    ensures IndexOf(s, pat) == i
  {
  }

  /** The name line ends at the first line break. */
  lemma {:induction false} NameLineEnd(c: Call)
    requires IsRenderable(c)
    ensures IndexOf(Render(c), "\n") == 11 + |c.name|
  {
    var t, n := Render(c), |c.name|;
    RenderLayout(c);
    OccursAtChar(t, '\n', 11 + n);
    forall p | 0 <= p < 11 + n ensures !OccursAt(t, "\n", p) {
      OccursAtChar(t, '\n', p);
      if p < 10 {
        assert t[p] == Marker[p];
      } else if p > 10 {
        assert t[p] == c.name[p - 11];
      }
    }
    IndexOfIs(t, "\n", 11 + n);
  }

  /** The only `ARGUMENTS:` before the arguments is the one on the second
      line. */
  lemma {:induction false} ArgsLineStart(c: Call)
    requires IsRenderable(c)
    ensures IndexOf(Render(c), ArgsMarker) == 12 + |c.name|
  {
    var t, n := Render(c), |c.name|;
    RenderLayout(c);
    forall p | 0 <= p < 12 + n ensures !OccursAt(t, ArgsMarker, p) {
      if OccursAt(t, ArgsMarker, p) {
        OccursAtHead(t, ArgsMarker, p);
      }
    }
    IndexOfIs(t, ArgsMarker, 12 + n);
  }

  /** No call marker starts inside the first line past its own. */
  lemma {:induction false} NoMarkerOnNameLine(c: Call, p: nat)
    requires IsRenderable(c) && 1 <= p < 12 + |c.name|
    ensures !OccursAt(Render(c), Marker, p)
  {
    var t, n := Render(c), |c.name|;
    RenderLayout(c);
    if OccursAt(t, Marker, p) {
      OccursAtHead(t, Marker, p);
    }
  }

  /** No call marker starts on the second line before the arguments. */
  lemma {:induction false} NoMarkerOnArgsLine(c: Call, p: nat)
    requires IsRenderable(c) && 12 + |c.name| <= p < 23 + |c.name|
    ensures !OccursAt(Render(c), Marker, p)
  {
    var t, n := Render(c), |c.name|;
    RenderLayout(c);
    if OccursAt(t, Marker, p) {
      OccursAtHead(t, Marker, p);
    }
  }

  /** A call marker inside the arguments would be one of the arguments. */
  lemma {:induction false} NoMarkerInArguments(c: Call, p: nat)
    requires IsRenderable(c) && 23 + |c.name| <= p
    ensures !OccursAt(Render(c), Marker, p)
  {
    var pre := Marker + " " + c.name + "\n" + ArgsMarker + " ";
    if OccursAt(Render(c), Marker, p) {
      assert Render(c) == pre + c.arguments;
      OccursBehind(pre, c.arguments, Marker, p);
      ContainsWitness(c.arguments, Marker, p - |pre|);
    }
  }

  /** The rendered text holds no second call marker. */
  lemma {:induction false} NoSecondMarker(c: Call)
    requires IsRenderable(c)
    ensures IndexOfFrom(Render(c), Marker, 1) == -1
  {
    var n := |c.name|;
    forall p | 1 <= p ensures !OccursAt(Render(c), Marker, p) {
      if p < 12 + n {
        NoMarkerOnNameLine(c, p);
      } else if p < 23 + n {
        NoMarkerOnArgsLine(c, p);
      } else {
        NoMarkerInArguments(c, p);
      }
    }
  }

  // ------------------------------------------------ the round trips

  /** The marker scanner reads back the name that was written. */
  lemma {:induction false} NameOfRender(c: Call)
    requires IsRenderable(c)
    ensures NameAt(Render(c), 0) == c.name
  {
    var t, n := Render(c), |c.name|;
    RenderLayout(c);
    assert t[0..] == t;
    NameLineEnd(c);
    TrimPadded(" ", c.name, []);
    assert " " + c.name + [] == " " + c.name;
  }

  /** The marker scanner reads back the arguments that were written. */
  lemma {:induction false} ArgumentsOfRender(c: Call)
    requires IsRenderable(c)
    ensures ArgumentsAt(Render(c), 0) == Some(c.arguments)
  {
    var t, n, a := Render(c), |c.name|, c.arguments;
    RenderLayout(c);
    assert t[0..] == t;
    ArgsLineStart(c);
    TrimPadded(" ", a, []);
    assert " " + a + [] == " " + a;
    JsonPrefixFlat(a);
    TrimOfTrimmed(a);
    DropTextAfterFlat(a);
  }

  lemma {:induction false} CallAtRender(c: Call)
    requires IsRenderable(c)
    ensures OccursAt(Render(c), Marker, 0) && CallAt(Render(c), 0) == Some(c)
  {
    assert OccursAt(Render(c), Marker, 0);
    NameOfRender(c);
    ArgumentsOfRender(c);
  }

  /** `parseToolCallsFromTextDirectly` returns exactly the call that was
      written in the prompted format. */
  lemma {:induction false} ParseDirectRender(c: Call)
    requires IsRenderable(c)
    ensures ParseDirect(Render(c)) == [c]
  {
    var t := Render(c);
    assert OccursAt(t, Marker, 0);
    IndexOfIs(t, Marker, 0);
    CallAtRender(c);
    NoSecondMarker(c);
    assert ParseDirectFrom(t, 0) == [c] + ParseDirectFrom(t, -1);
  }

  /** The rendered call is split into its two lines. */
  lemma {:induction false} SplitRender(c: Call)
    requires IsRenderable(c)
    ensures var n := |c.name|;
      SplitLiteral(Render(c), "\n") == [Marker + " " + c.name, ArgsMarker + " " + c.arguments]
  {
    var t, n, a := Render(c), |c.name|, c.arguments;
    RenderLayout(c);
    NameLineEnd(c);
    var line2 := t[12 + n..];
    forall p | 0 <= p ensures !OccursAt(line2, "\n", p) {
      OccursAtChar(line2, '\n', p);
      if p < 10 {
        assert line2[p] == ArgsMarker[p];
      } else if 10 < p < |line2| {
        assert line2[p] == a[p - 11];
      }
    }
    assert IndexOf(line2, "\n") == -1;
    assert SplitRaw(t, "\n") == [t[..11 + n], line2];
  }

  /** `parseToolCallsFromText` assembles exactly the call that was written
      in the prompted format. */
  lemma {:induction false} ParseLinesRender(c: Call)
    requires IsRenderable(c)
    ensures ParseLines(Render(c)) == [c]
  {
    var name, a := c.name, c.arguments;
    var line1, line2 := Marker + " " + name, ArgsMarker + " " + a;
    var st1, st2 := LineState(Some(name), [], false, []), LineState(Some(name), a, true, []);
    SplitRender(c);
    ReadCallLine(name);
    ReadArgumentsLine(name, a);
    assert ReadLines(LineState(None, [], false, []), [line1, line2]) == ReadLines(st1, [line2]);
    assert ReadLines(st1, [line2]) == ReadLines(st2, []);
    TrimOfTrimmed(a);
  }

  /** The marker line opens a call of that name. */
  lemma {:induction false} ReadCallLine(name: string)
    requires IsToolName(name)
    ensures ReadLine(LineState(None, [], false, []), Marker + " " + name) == LineState(Some(name), [], false, [])
  {
    var line1 := Marker + " " + name;
    TrimOfTrimmed(line1);
    assert line1[..|Marker|] == Marker;
    assert line1[|Marker|..] == " " + name;
    TrimPadded(" ", name, []);
    assert " " + name + [] == " " + name;
  }

  /** The arguments line of an open call starts its arguments. */
  lemma {:induction false} ReadArgumentsLine(name: string, a: string)
    requires IsFlatObject(a)
    ensures ReadLine(LineState(Some(name), [], false, []), ArgsMarker + " " + a) == LineState(Some(name), a, true, [])
  {
    var line2 := ArgsMarker + " " + a;
    TrimOfTrimmed(line2);
    assert line2[0] == 'A';
    assert !StartsWith(line2, Marker);
    assert line2[..|ArgsMarker|] == ArgsMarker;
    assert line2[|ArgsMarker|..] == " " + a;
    TrimPadded(" ", a, []);
    assert " " + a + [] == " " + a;
  }

  /** With reflection available, both readers agree on a rendered call. */
  lemma {:induction false} ReadersAgreeOnRender(c: Call)
    requires IsRenderable(c)
    ensures ParseToolCallsFromText(Render(c), true) == ParseDirect(Render(c))
  {
    ParseDirectRender(c);
    ParseLinesRender(c);
  }
}
