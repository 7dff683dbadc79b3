/** The few `java.lang.String` operations the services rely on, with the
    exact semantics of the JDK: `trim`, `indexOf`, `lastIndexOf`,
    `contains`, `startsWith`, `toLowerCase` and `split` (both on a literal
    delimiter and on the regular expression `\s+`). Characters are Unicode
    scalar values; Java's UTF-16 code units differ only for characters
    outside the Basic Multilingual Plane. */
module JavaString {

  /** Characters removed by `String.trim()`: every code point up to U+0020. */
  predicate IsTrimSpace(c: char) {
    c <= ' '
  }

  /** Characters matched by the regular expression class `\s` (without the
      UNICODE_CHARACTER_CLASS flag): space, tab, LF, VT, FF and CR. */
  predicate IsRegexSpace(c: char) {
    c == ' ' || c == '\t' || c == '\n' || c == '\U{000B}' || c == '\U{000C}' || c == '\r'
  }

  predicate IsAsciiUpper(c: char) {
    'A' <= c <= 'Z'
  }

  predicate IsAsciiLower(c: char) {
    'a' <= c <= 'z'
  }

  predicate IsAsciiDigit(c: char) {
    '0' <= c <= '9'
  }

  predicate IsAsciiAlnum(c: char) {
    IsAsciiUpper(c) || IsAsciiLower(c) || IsAsciiDigit(c)
  }

  predicate IsAscii(s: string) {
    forall i :: 0 <= i < |s| ==> s[i] < '\U{0080}'
  }

  // ---------------------------------------------------------------- trim

  /** No leading or trailing character up to U+0020: what `trim()` leaves. */
  predicate IsTrimmed(s: string) {
    s == [] || (!IsTrimSpace(s[0]) && !IsTrimSpace(s[|s| - 1]))
  }

  /** `String.trim()`: leading, then trailing, characters up to U+0020
      removed. */
  function Trim(s: string): (r: string)
    ensures IsTrimmed(r)
    ensures |r| <= |s|
    decreases |s|
  {
    if s == [] then []
    else if IsTrimSpace(s[0]) then Trim(s[1..])
    else if IsTrimSpace(s[|s| - 1]) then Trim(s[..|s| - 1])
    else s
  }

  /** `s.trim().isEmpty()`. */
  predicate IsBlank(s: string) {
    Trim(s) == []
  }

  /** The trimmed text is a slice of the input, starting at `i`. */
  lemma {:induction false} TrimIsSlice(s: string) returns (i: nat)
    ensures SliceAt(s, Trim(s), i)
    decreases |s|
  {
    if s == [] {
      i := 0;
    } else if IsTrimSpace(s[0]) {
      var j := TrimIsSlice(s[1..]);
      SliceOfDrop(s, Trim(s), j);
      i := j + 1;
    } else if IsTrimSpace(s[|s| - 1]) {
      i := TrimIsSlice(s[..|s| - 1]);
      SliceOfTake(s, Trim(s), i);
    } else {
      i := 0;
    }
  }

  /** `t` is the slice of `s` starting at `i`. */
  predicate SliceAt(s: string, t: string, i: nat) {
    i + |t| <= |s| && t == s[i..i + |t|]
  }

  /** A slice of the text without its first character is a slice of the
      text, one place further on. */
  lemma {:induction false} SliceOfDrop(s: string, t: string, j: nat)
    requires s != [] && SliceAt(s[1..], t, j)
    ensures SliceAt(s, t, j + 1)
  {
  }

  /** A slice of the text without its last character is a slice of the
      text. */
  lemma {:induction false} SliceOfTake(s: string, t: string, j: nat)
    requires s != [] && SliceAt(s[..|s| - 1], t, j)
    ensures SliceAt(s, t, j)
  {
  }

  /** A character absent from the input is absent from the trimmed text. */
  lemma {:induction false} TrimKeepsAbsence(s: string, c: char)
    requires c !in s
    ensures c !in Trim(s)
  {
    var i := TrimIsSlice(s);
    assert forall k :: 0 <= k < |Trim(s)| ==> Trim(s)[k] == s[i + k];
  }

  /** Only all-space text trims to nothing. */
  lemma {:induction false} BlankIffAllSpace(s: string)
    ensures IsBlank(s) <==> forall k :: 0 <= k < |s| ==> IsTrimSpace(s[k])
    decreases |s|
  {
    if s != [] {
      if IsTrimSpace(s[0]) {
        BlankIffAllSpace(s[1..]);
        assert forall k :: 1 <= k < |s| ==> s[k] == s[1..][k - 1];
      } else if IsTrimSpace(s[|s| - 1]) {
        BlankIffAllSpace(s[..|s| - 1]);
        assert forall k :: 0 <= k < |s| - 1 ==> s[k] == s[..|s| - 1][k];
      }
    }
  }

  /** Text that is already trimmed is left alone. */
  lemma {:induction false} TrimOfTrimmed(s: string)
    requires IsTrimmed(s)
    ensures Trim(s) == s
  {
  }

  /** Trimming text padded with spaces around a trimmed core gives the core. */
  lemma {:induction false} TrimPadded(pre: string, core: string, post: string)
    requires forall k :: 0 <= k < |pre| ==> IsTrimSpace(pre[k])
    requires forall k :: 0 <= k < |post| ==> IsTrimSpace(post[k])
    requires core != [] && IsTrimmed(core)
    ensures Trim(pre + core + post) == core
    decreases |pre| + |post|
  {
    var s := pre + core + post;
    if pre != [] {
      assert s[0] == pre[0];
      assert s[1..] == pre[1..] + core + post;
      TrimPadded(pre[1..], core, post);
    } else if post != [] {
      assert s == core + post;
      assert s[|s| - 1] == post[|post| - 1];
      assert s[..|s| - 1] == pre + core + post[..|post| - 1];
      TrimPadded(pre, core, post[..|post| - 1]);
    } else {
      assert s == core;
    }
  }

  // ------------------------------------------------------- search

  predicate OccursAt(s: string, pat: string, i: int) {
    0 <= i && i + |pat| <= |s| && s[i..i + |pat|] == pat
  }

  /** `s.indexOf(pat, from)` for a non-empty pattern: the first occurrence
      at or after `from`, or -1. */
  function IndexOfFrom(s: string, pat: string, from: nat): (r: int)
    requires |pat| > 0
    ensures r == -1 || (from <= r && OccursAt(s, pat, r))
    ensures r == -1 ==> forall i :: from <= i ==> !OccursAt(s, pat, i)
    ensures r != -1 ==> forall i :: from <= i < r ==> !OccursAt(s, pat, i)
    decreases |s| - from
  {
    if from + |pat| > |s| then -1
    else if OccursAt(s, pat, from) then from
    else IndexOfFrom(s, pat, from + 1)
  }

  /** `s.indexOf(pat)`. */
  function IndexOf(s: string, pat: string): (r: int)
    requires |pat| > 0
    ensures r == -1 <==> forall i :: 0 <= i ==> !OccursAt(s, pat, i)
    ensures r != -1 ==> OccursAt(s, pat, r) && forall i :: 0 <= i < r ==> !OccursAt(s, pat, i)
  {
    IndexOfFrom(s, pat, 0)
  }

  /** `s.contains(pat)`. */
  predicate Contains(s: string, pat: string) {
    |pat| == 0 || IndexOf(s, pat) != -1
  }

  /** `s.lastIndexOf(c)`: the last position holding `c`, or -1. */
  function LastIndexOfChar(s: string, c: char): (r: int)
    ensures -1 <= r < |s|
    ensures r != -1 ==> s[r] == c
    ensures forall k :: r < k < |s| ==> s[k] != c
  {
    if s == [] then -1
    else if s[|s| - 1] == c then |s| - 1
    else LastIndexOfChar(s[..|s| - 1], c)
  }

  predicate StartsWith(s: string, prefix: string) {
    |prefix| <= |s| && s[..|prefix|] == prefix
  }

  lemma {:induction false} ContainsWitness(s: string, pat: string, i: int)
    requires OccursAt(s, pat, i)
    ensures Contains(s, pat)
  {
  }

  /** An occurrence past a prefix is an occurrence in what follows it. */
  lemma {:induction false} OccursBehind(pre: string, a: string, pat: string, p: int)
    requires |pre| <= p && OccursAt(pre + a, pat, p)
    ensures OccursAt(a, pat, p - |pre|)
  {
    assert (pre + a)[p..p + |pat|] == a[p - |pre|..p - |pre| + |pat|];
  }

  lemma {:induction false} ContainsOccurs(s: string, pat: string)
    requires |pat| > 0 && Contains(s, pat)
    ensures OccursAt(s, pat, IndexOf(s, pat))
  {
  }

  /** A pattern found in `a` is still found in `a + b` and in `b + a`. */
  lemma {:induction false} ContainsConcat(a: string, b: string, pat: string)
    requires Contains(a, pat)
    ensures Contains(a + b, pat) && Contains(b + a, pat)
  {
    if |pat| > 0 {
      var i := IndexOf(a, pat);
      assert (a + b)[i..i + |pat|] == a[i..i + |pat|];
      ContainsWitness(a + b, pat, i);
      assert (b + a)[|b| + i..|b| + i + |pat|] == a[i..i + |pat|];
      ContainsWitness(b + a, pat, |b| + i);
    }
  }

  // ------------------------------------------------------- case

  /** `Character.toLowerCase` restricted to ASCII and the basic Cyrillic
      block (U+0400..U+042F), the scripts the application handles. */
  function LowerChar(c: char): (r: char)
    ensures IsAsciiUpper(c) ==> IsAsciiLower(r)
    ensures !IsAsciiUpper(c) && c < '\U{0080}' ==> r == c
  {
    if IsAsciiUpper(c) then (c as int + 32) as char
    else if '\U{0410}' <= c <= '\U{042F}' then (c as int + 32) as char
    else if '\U{0400}' <= c <= '\U{040F}' then (c as int + 80) as char
    else c
  }

  /** `String.toLowerCase()` character by character. */
  function ToLower(s: string): (r: string)
    ensures |r| == |s|
    ensures forall i :: 0 <= i < |s| ==> r[i] == LowerChar(s[i])
  {
    if s == [] then [] else [LowerChar(s[0])] + ToLower(s[1..])
  }

  lemma {:induction false} ToLowerConcat(a: string, b: string)
    ensures ToLower(a + b) == ToLower(a) + ToLower(b)
  {
    assert ToLower(a + b) == ToLower(a) + ToLower(b);
  }

  // ------------------------------------------------------- join and split

  /** `String.join(sep, parts)`. */
  function Join(parts: seq<string>, sep: string): (r: string)
    ensures parts == [] ==> r == []
    ensures |parts| == 1 ==> r == parts[0]
  {
    if parts == [] then []
    else if |parts| == 1 then parts[0]
    else parts[0] + sep + Join(parts[1..], sep)
  }

  /** The pieces between successive non-overlapping occurrences of `d`,
      before Java drops trailing empty pieces. */
  function SplitRaw(s: string, d: string): (r: seq<string>)
    requires |d| > 0
    ensures |r| >= 1
    ensures forall k :: 0 <= k < |r| ==> !Contains(r[k], d)
    decreases |s|
  {
    var i := IndexOf(s, d);
    if i == -1 then [s]
    else
      var head := s[..i];
      assert !Contains(head, d) by {
        forall j | OccursAt(head, d, j) ensures false {
          assert s[j..j + |d|] == head[j..j + |d|];
          assert OccursAt(s, d, j);
        }
      }
      [head] + SplitRaw(s[i + |d|..], d)
  }

  /** Splitting on `d` and joining with `d` gives the input back. */
  lemma {:induction false} JoinSplitRaw(s: string, d: string)
    requires |d| > 0
    ensures Join(SplitRaw(s, d), d) == s
    decreases |s|
  {
    var i := IndexOf(s, d);
    if i != -1 {
      JoinSplitRaw(s[i + |d|..], d);
      JoinSplitStep(s, d, i);
    }
  }

  /** The first piece, the separator, and the rejoined rest. */
  lemma {:induction false} JoinSplitStep(s: string, d: string, i: int)
    requires |d| > 0 && i == IndexOf(s, d) && i != -1
    requires Join(SplitRaw(s[i + |d|..], d), d) == s[i + |d|..]
    ensures Join(SplitRaw(s, d), d) == s
  {
    var head, tail := s[..i], s[i + |d|..];
    assert SplitRaw(s, d) == [head] + SplitRaw(tail, d);
    JoinCons(head, SplitRaw(tail, d), d);
    assert s[i..i + |d|] == d;
    assert s == head + d + tail;
  }

  /** Joining a first part in front of further parts puts one separator
      between them. */
  lemma {:induction false} JoinCons(x: string, rest: seq<string>, sep: string)
    requires rest != []
    ensures Join([x] + rest, sep) == x + sep + Join(rest, sep)
  {
    assert ([x] + rest)[1..] == rest;
  }


  lemma {:induction false} OccursOne(s: string, c: char, i: int)
    requires OccursAt(s, [c], i)
    ensures s[i] == c
  {
    assert s[i..i + 1][0] == s[i];
  }

  /** Parts free of the one-character separator `c`, joined with it, split
      back into those parts. */
  lemma {:induction false} SplitRawJoin(parts: seq<string>, c: char)
    requires parts != []
    requires forall k :: 0 <= k < |parts| ==> c !in parts[k]
    ensures SplitRaw(Join(parts, [c]), [c]) == parts
    decreases |parts|
  {
    var p := parts[0];
    assert c !in p;
    if |parts| == 1 {
      SplitRawWhole(p, c);
    } else {
      var rest := Join(parts[1..], [c]);
      SplitRawJoin(parts[1..], c);
      SplitRawStep(p, c, rest);
      assert parts == [p] + parts[1..];
    }
  }

  /** Text without the separator is one piece. */
  lemma {:induction false} SplitRawWhole(p: string, c: char)
    requires c !in p
    ensures SplitRaw(p, [c]) == [p]
  {
    forall i | 0 <= i ensures !OccursAt(p, [c], i) {
      if OccursAt(p, [c], i) {
        OccursOne(p, c, i);
      }
    }
  }

  /** The first separator ends the first piece. */
  lemma {:induction false} SplitRawStep(p: string, c: char, rest: string)
    requires c !in p
    ensures SplitRaw(p + [c] + rest, [c]) == [p] + SplitRaw(rest, [c])
  {
    var s := p + [c] + rest;
    assert OccursAt(s, [c], |p|) by {
      assert s[|p|..|p| + 1] == [c];
    }
    forall i | 0 <= i < |p| ensures !OccursAt(s, [c], i) {
      assert s[i] == p[i] && p[i] in p;
      if OccursAt(s, [c], i) {
        OccursOne(s, c, i);
      }
    }
    assert IndexOf(s, [c]) == |p|;
    assert s[..|p|] == p && s[|p| + 1..] == rest;
  }

  /** Java's `split` with limit 0 removes trailing empty strings. */
  function DropTrailingEmpty(xs: seq<string>): (r: seq<string>)
    ensures |r| <= |xs| && r == xs[..|r|]
    ensures r == [] || r[|r| - 1] != []
    ensures forall k :: |r| <= k < |xs| ==> xs[k] == []
  {
    if xs == [] || xs[|xs| - 1] != [] then xs else DropTrailingEmpty(xs[..|xs| - 1])
  }

  /** `s.split(d)` for a delimiter without regular-expression meta
      characters: when `d` does not occur the result is `[s]`, otherwise the
      pieces with trailing empty ones removed. */
  function SplitLiteral(s: string, d: string): (r: seq<string>)
    requires |d| > 0
    ensures forall k :: 0 <= k < |r| ==> !Contains(r[k], d)
    ensures !Contains(s, d) ==> r == [s]
  {
    if !Contains(s, d) then [s] else DropTrailingEmpty(SplitRaw(s, d))
  }

  // ------------------------------------------- split on the regex \s+

  function SkipRegexSpace(s: string): (r: string)
    ensures |r| <= |s| && r == s[|s| - |r|..]
    ensures r == [] || !IsRegexSpace(r[0])
    ensures forall k :: 0 <= k < |s| - |r| ==> IsRegexSpace(s[k])
  {
    if s == [] || !IsRegexSpace(s[0]) then s else SkipRegexSpace(s[1..])
  }

  /** A run of whitespace at the front of `a` ends inside `a` or where
      `b` begins, when `b` does not start with whitespace. */
  lemma {:induction false} SkipRegexSpaceConcat(a: string, b: string)
    requires b == [] || !IsRegexSpace(b[0])
    ensures SkipRegexSpace(a + b) == SkipRegexSpace(a) + b
    decreases |a|
  {
    if a != [] {
      assert (a + b)[0] == a[0];
      if IsRegexSpace(a[0]) {
        assert (a + b)[1..] == a[1..] + b;
        SkipRegexSpaceConcat(a[1..], b);
      }
    } else {
      assert a + b == b;
    }
  }

  function FirstRegexSpace(s: string): (r: int)
    ensures -1 <= r < |s|
    ensures r != -1 ==> IsRegexSpace(s[r])
    ensures forall k :: 0 <= k < |s| && (r == -1 || k < r) ==> !IsRegexSpace(s[k])
  {
    if s == [] then -1
    else if IsRegexSpace(s[0]) then 0
    else
      var r := FirstRegexSpace(s[1..]);
      if r == -1 then -1 else r + 1
  }

  predicate HasRegexSpace(s: string) {
    exists k :: 0 <= k < |s| && IsRegexSpace(s[k])
  }

  /** The pieces between maximal runs of `\s`, before Java drops trailing
      empty pieces. */
  function SplitWsRaw(s: string): (r: seq<string>)
    ensures |r| >= 1 && NoneHasSpace(r)
    decreases |s|
  {
    var i := FirstRegexSpace(s);
    if i == -1 then [s]
    else
      var rest := SkipRegexSpace(s[i..]);
      assert |rest| < |s|;
      var tail := SplitWsRaw(rest);
      HeadHasNoSpace(s, i);
      NoneHasSpaceCons(s[..i], tail);
      [s[..i]] + tail
  }

  /** No piece holds whitespace. */
  predicate NoneHasSpace(parts: seq<string>) {
    forall k :: 0 <= k < |parts| ==> !HasRegexSpace(parts[k])
  }

  /** The text before the first whitespace holds none. */
  lemma {:induction false} HeadHasNoSpace(s: string, i: int)
    requires i == FirstRegexSpace(s) && i != -1
    ensures !HasRegexSpace(s[..i])
  {
    var head := s[..i];
    assert forall k :: 0 <= k < |head| ==> head[k] == s[k];
  }

  lemma {:induction false} NoneHasSpaceCons(head: string, tail: seq<string>)
    requires !HasRegexSpace(head) && NoneHasSpace(tail)
    ensures NoneHasSpace([head] + tail)
  {
    assert forall k :: 1 <= k < |tail| + 1 ==> ([head] + tail)[k] == tail[k - 1];
  }

  /** `s.split("\\s+")`. */
  function SplitWs(s: string): (r: seq<string>)
    ensures forall k :: 0 <= k < |r| ==> !HasRegexSpace(r[k])
    ensures !HasRegexSpace(s) ==> r == [s]
  {
    if !HasRegexSpace(s) then [s] else DropTrailingEmpty(SplitWsRaw(s))
  }

  /** A word followed by whitespace: the word is the first piece, and the
      rest is split as if the whitespace were not there. */
  lemma {:induction false} SplitWsRawWord(w: string, gap: string, rest: string)
    requires w != [] && !HasRegexSpace(w)
    requires gap != [] && forall k :: 0 <= k < |gap| ==> IsRegexSpace(gap[k])
    ensures SplitWsRaw(w + gap + rest) == [w] + SplitWsRaw(SkipRegexSpace(gap + rest))
  {
    var s := w + gap + rest;
    var i := FirstRegexSpace(s);
    assert IsRegexSpace(s[|w|]);
    assert forall k :: 0 <= k < |w| ==> s[k] == w[k];
    assert i == |w|;
    assert s[..i] == w;
    assert s[i..] == gap + rest;
  }

  // ------------------------------------------------------------ text blocks

  /** A Java text block: each line followed by a line feed. */
  function TextBlock(lines: seq<string>): (r: string)
    ensures lines != [] ==> StartsWith(r, lines[0] + "\n")
  {
    if lines == [] then [] else lines[0] + "\n" + TextBlock(lines[1..])
  }

  /** Every line of a text block occurs in it. */
  lemma {:induction false} TextBlockHasLine(lines: seq<string>, k: nat)
    requires k < |lines|
    ensures Contains(TextBlock(lines), lines[k])
    decreases k
  {
    var rest := TextBlock(lines[1..]);
    if k == 0 {
      assert OccursAt(TextBlock(lines), lines[0], 0) by {
        assert TextBlock(lines) == lines[0] + ("\n" + rest);
      }
      ContainsWitness(TextBlock(lines), lines[0], 0);
    } else {
      TextBlockHasLine(lines[1..], k - 1);
      ContainsConcat(rest, lines[0] + "\n", lines[k]);
    }
  }

  /** A text found in a line is found in the letter. */
  lemma {:induction false} LineShows(lines: seq<string>, k: nat, caption: string, value: string)
    requires k < |lines| && lines[k] == caption + value
    ensures Contains(TextBlock(lines), value)
  {
    TextBlockHasLine(lines, k);
    assert OccursAt(lines[k], value, |caption|) by {
      assert lines[k][|caption|..|caption| + |value|] == value;
    }
    ContainsWitness(lines[k], value, |caption|);
    ContainsIn(lines[k], value, TextBlock(lines));
  }

  /** Containment is transitive. */
  lemma {:induction false} ContainsIn(inner: string, pat: string, outer: string)
    requires Contains(inner, pat) && Contains(outer, inner)
    ensures Contains(outer, pat)
  {
    if |pat| > 0 {
      ContainsOccurs(inner, pat);
      ContainsOccurs(outer, inner);
      var i, j := IndexOf(inner, pat), IndexOf(outer, inner);
      assert outer[j..j + |inner|] == inner && inner[i..i + |pat|] == pat;
      assert outer[j + i..j + i + |pat|] == pat by {
        forall k | 0 <= k < |pat| ensures outer[j + i..j + i + |pat|][k] == pat[k] {
          assert pat[k] == inner[i + k] == outer[j + i + k];
        }
      }
      ContainsWitness(outer, pat, j + i);
    }
  }
}
