/** Text made of CRLF-terminated lines, as both the iCalendar object and the
    HTTP request head are written. */
module CrlfLines {
  import opened JavaString

  predicate NoCR(s: string) {
    forall k :: 0 <= k < |s| ==> s[k] != '\r'
  }

  lemma {:induction false} NoCRConcat(a: string, b: string)
    requires NoCR(a) && NoCR(b)
    ensures NoCR(a + b)
  {
  }

  /** A line with no carriage return in it. */
  type Line = s: string | NoCR(s)

  predicate NoCRs(lines: seq<string>) {
    forall k :: 0 <= k < |lines| ==> NoCR(lines[k])
  }

  lemma {:induction false} NoCRsConcat(a: seq<string>, b: seq<string>)
    requires NoCRs(a) && NoCRs(b)
    ensures NoCRs(a + b)
  {
  }

  /** Every line followed by CRLF. */
  function Terminate(lines: seq<string>): (r: string)
    ensures lines != [] ==> |r| >= 2 && r[|r| - 2..] == "\r\n"
  {
    if lines == [] then [] else lines[0] + "\r\n" + Terminate(lines[1..])
  }

  /** The first CRLF after a line without CR is the one that ends it. */
  lemma {:induction false} SplitAfterLine(line: string, rest: string)
    requires NoCR(line)
    ensures SplitRaw(line + "\r\n" + rest, "\r\n") == [line] + SplitRaw(rest, "\r\n")
  {
    var s := line + "\r\n" + rest;
    assert OccursAt(s, "\r\n", |line|);
    forall i | 0 <= i < |line| ensures !OccursAt(s, "\r\n", i) {
      assert s[i] == line[i];
    }
    assert IndexOf(s, "\r\n") == |line|;
    assert s[..|line|] == line;
    assert s[|line| + 2..] == rest;
  }

  /** Splitting the terminated text at CRLF gives the lines back, plus the
      empty piece after the last terminator: every line ends in CRLF. */
  lemma {:induction false} SplitTerminate(lines: seq<string>)
    requires NoCRs(lines)
    ensures SplitRaw(Terminate(lines), "\r\n") == lines + [""]
  {
    if lines == [] {
      SplitNothing("\r\n");
    } else {
      var rest := lines[1..];
      assert NoCRs(rest) by {
        assert forall k :: 0 <= k < |rest| ==> rest[k] == lines[k + 1];
      }
      SplitTerminate(rest);
      SplitTerminateStep(lines[0], Terminate(rest), rest);
      assert lines == [lines[0]] + rest;
    }
  }

  /** The empty text splits into one empty piece. */
  lemma {:induction false} SplitNothing(d: string)
    requires |d| > 0
    ensures SplitRaw("", d) == [""]
  {
    assert IndexOf("", d) == -1;
  }

  /** One more line in front of a text that already splits into lines. */
  lemma {:induction false} SplitTerminateStep(line: string, text: string, lines: seq<string>)
    requires NoCR(line)
    requires SplitRaw(text, "\r\n") == lines + [""]
    ensures SplitRaw(line + "\r\n" + text, "\r\n") == [line] + lines + [""]
  {
    SplitAfterLine(line, text);
  }

  /** Non-empty lines without CR. */
  predicate AreHeaderLines(lines: seq<string>) {
    forall k :: 0 <= k < |lines| ==> lines[k] != [] && NoCR(lines[k])
  }

  /** Each CR of the terminated text ends a non-empty line, so the
      character two places after a CR is never a CR itself. */
  lemma {:induction false} NoDoubleCR(lines: seq<string>, i: int)
    requires lines != [] && AreHeaderLines(lines)
    requires 0 <= i && i + 2 < |Terminate(lines)|
    ensures Terminate(lines)[i] != '\r' || Terminate(lines)[i + 2] != '\r'
    decreases |lines|
  {
    var l := lines[0];
    var t1 := Terminate(lines[1..]);
    var t := Terminate(lines);
    assert t == l + "\r\n" + t1;
    if i < |l| {
      assert t[i] == l[i];
    } else if i == |l| {
      assert t[i + 2] == t1[0] == lines[1][0];
    } else if i == |l| + 1 {
      assert t[i] == '\n';
    } else {
      var j := i - |l| - 2;
      NoDoubleCR(lines[1..], j);
      assert t[i] == t1[j] && t[i + 2] == t1[j + 2];
    }
  }

  /** Before the end of the last line there is no empty line, so no
      CRLF CRLF. */
  lemma {:induction false} NoEarlyBlank(lines: seq<string>, rest: string, i: int)
    requires lines != [] && AreHeaderLines(lines)
    requires 0 <= i < |Terminate(lines)| - 2
    ensures !OccursAt(Terminate(lines) + "\r\n" + rest, "\r\n\r\n", i)
  {
    var t := Terminate(lines);
    var s := t + "\r\n" + rest;
    NoDoubleCR(lines, i);
    assert s[i] == t[i] && s[i + 2] == t[i + 2];
    assert s[i..i + 4][0] == s[i] && s[i..i + 4][2] == s[i + 2];
  }

  /** The head ends at the first empty line (section 2.1 of RFC 9112): the
      first CRLF CRLF is the one that closes the last header line, and what
      follows it is exactly the body. */
  lemma {:induction false} FirstBlankLine(lines: seq<string>, body: string)
    requires lines != [] && AreHeaderLines(lines)
    ensures var s := Terminate(lines) + "\r\n" + body;
      var i := IndexOf(s, "\r\n\r\n");
      i == |Terminate(lines)| - 2 && s[i + 4..] == body
  {
    var t := Terminate(lines);
    var s := t + "\r\n" + body;
    var p := |t| - 2;
    assert s[p..p + 4] == "\r\n\r\n";
    assert OccursAt(s, "\r\n\r\n", p);
    forall i | 0 <= i < p ensures !OccursAt(s, "\r\n\r\n", i) {
      NoEarlyBlank(lines, body, i);
    }
    assert s[p + 4..] == body;
  }

  /** Header lines, the empty line that ends them, then the body. */
  function Framed(lines: seq<string>, body: string): string {
    Terminate(lines) + "\r\n" + body
  }

  /** What a reader gets from `s` when it cuts at the first CRLF CRLF:
      `lines` from the head split at CRLF, and `body` after the cut. */
  predicate ReadsAs(s: string, lines: seq<string>, body: string) {
    var i := IndexOf(s, "\r\n\r\n");
    && 0 <= i && i + 4 <= |s|
    && SplitRaw(s[..i + 2], "\r\n") == lines + [""]
    && s[i + 4..] == body
  }

  /** A message of header lines, an empty line and a body: cut at the first
      CRLF CRLF, the head splits back into its lines and the rest is the
      body. */
  lemma {:induction false} FramedMessage(lines: seq<string>, body: string)
    requires lines != [] && AreHeaderLines(lines)
    ensures ReadsAs(Framed(lines, body), lines, body)
  {
    var t := Terminate(lines);
    var s := t + "\r\n" + body;
    FirstBlankLine(lines, body);
    var i := IndexOf(s, "\r\n\r\n");
    assert s[..i + 2] == t;
    assert NoCRs(lines);
    SplitTerminate(lines);
  }
}
