/** The name of a user's calendar collection, as both the event writer and
    the provisioner compute it: the label "<first name>'s Calendar" (or
    "Work Calendar"), transliterated from Russian to Latin, reduced to
    URL-safe characters and lower-cased. The two services carry identical
    copies of `sanitizeCalendarName` and `transliterateRussianToLatin`;
    here they are defined once. */
module CalendarName {
  import opened Wrappers
  import opened JavaString
  import opened Replace

  // ------------------------------------------------------ transliteration

  /** A letter of the Cyrillic block. */
  type CyrillicChar = c: char | c >= '\U{0400}' witness '\U{0400}'

  type AsciiText = s: string | IsAscii(s)

  /** The `replace` calls of `transliterateRussianToLatin`, in source
      order, six to a row. */
  const TranslitRow0: seq<(CyrillicChar, AsciiText)> := [('А', "A"), ('а', "a"), ('Б', "B"), ('б', "b"), ('В', "V"), ('в', "v")]
  const TranslitRow1: seq<(CyrillicChar, AsciiText)> := [('Г', "G"), ('г', "g"), ('Д', "D"), ('д', "d"), ('Е', "E"), ('е', "e")]
  const TranslitRow2: seq<(CyrillicChar, AsciiText)> := [('Ё', "E"), ('ё', "e"), ('Ж', "Zh"), ('ж', "zh"), ('З', "Z"), ('з', "z")]
  const TranslitRow3: seq<(CyrillicChar, AsciiText)> := [('И', "I"), ('и', "i"), ('Й', "Y"), ('й', "y"), ('К', "K"), ('к', "k")]
  const TranslitRow4: seq<(CyrillicChar, AsciiText)> := [('Л', "L"), ('л', "l"), ('М', "M"), ('м', "m"), ('Н', "N"), ('н', "n")]
  const TranslitRow5: seq<(CyrillicChar, AsciiText)> := [('О', "O"), ('о', "o"), ('П', "P"), ('п', "p"), ('Р', "R"), ('р', "r")]
  const TranslitRow6: seq<(CyrillicChar, AsciiText)> := [('С', "S"), ('с', "s"), ('Т', "T"), ('т', "t"), ('У', "U"), ('у', "u")]
  const TranslitRow7: seq<(CyrillicChar, AsciiText)> := [('Ф', "F"), ('ф', "f"), ('Х', "Kh"), ('х', "kh"), ('Ц', "Ts"), ('ц', "ts")]
  const TranslitRow8: seq<(CyrillicChar, AsciiText)> := [('Ч', "Ch"), ('ч', "ch"), ('Ш', "Sh"), ('ш', "sh"), ('Щ', "Shch"), ('щ', "shch")]
  const TranslitRow9: seq<(CyrillicChar, AsciiText)> := [('Ъ', ""), ('ъ', ""), ('Ы', "Y"), ('ы', "y"), ('Ь', ""), ('ь', "")]
  const TranslitRow10: seq<(CyrillicChar, AsciiText)> := [('Э', "E"), ('э', "e"), ('Ю', "Yu"), ('ю', "yu"), ('Я', "Ya"), ('я', "ya")]

  const TranslitTable: seq<(CyrillicChar, AsciiText)> :=
    TranslitRow0 + TranslitRow1 + TranslitRow2 + TranslitRow3 + TranslitRow4 + TranslitRow5 + TranslitRow6 + TranslitRow7 + TranslitRow8 + TranslitRow9 + TranslitRow10

  /** Rules from (letter, Latin text) pairs. */
  function AsRules(table: seq<(CyrillicChar, AsciiText)>): (r: seq<Rule>)
    ensures |r| == |table|
    ensures forall j :: 0 <= j < |r| ==> r[j] == Rule(table[j].0, table[j].1)
  {
    if table == [] then [] else [Rule(table[0].0, table[0].1)] + AsRules(table[1..])
  }

  const TranslitRules: seq<Rule> := AsRules(TranslitTable)

  /** `transliterateRussianToLatin` (the empty string comes back as is). */
  function Transliterate(s: string): string {
    ReplaceChain(s, TranslitRules)
  }

  /** Every key is a Cyrillic letter and every replacement is ASCII. */
  predicate IsShaped(r: Rule) {
    r.key >= '\U{0400}' && IsAscii(r.value)
  }

  lemma {:induction false} RulesShape()
    ensures forall j :: 0 <= j < |TranslitRules| ==> IsShaped(TranslitRules[j])
  {
  }

  lemma {:induction false} KeyNotInValues(c: char)
    requires c >= '\U{0400}'
    ensures forall j :: 0 <= j < |TranslitRules| ==> c !in TranslitRules[j].value
  {
    RulesShape();
  }

  /** The chain reads as a per-letter table, since no replacement contains
      a Cyrillic letter. */
  lemma {:induction false} TransliterateIsTable(s: string)
    ensures Transliterate(s) == MapChars(s, TranslitRules)
  {
    RulesShape();
    forall i, j | 0 <= i < j < |TranslitRules| ensures TranslitRules[j].key !in TranslitRules[i].value {
      KeyNotInValues(TranslitRules[j].key);
    }
    ChainIsMap(s, TranslitRules);
  }

  /** No transliterated letter survives. */
  lemma {:induction false} TransliterateRemovesLetters(s: string, j: nat)
    requires j < |TranslitRules|
    ensures TranslitRules[j].key !in Transliterate(s)
  {
    RulesShape();
    KeyNotInValues(TranslitRules[j].key);
    TransliterateIsTable(s);
    MapCharsRemovesKeys(s, TranslitRules, TranslitRules[j].key);
  }

  /** Every character lies below the Cyrillic block, U+0400. */
  predicate BelowCyrillic(s: string) {
    forall k :: 0 <= k < |s| ==> s[k] < '\U{0400}'
  }

  /** Text below U+0400 is left alone; in particular Latin text. */
  lemma {:induction false} TransliterateKeepsLatin(s: string)
    requires BelowCyrillic(s)
    ensures Transliterate(s) == s
  {
    RulesShape();
    TransliterateIsTable(s);
    MapCharsNoKeys(s, TranslitRules);
  }

  /** Transliterating twice is transliterating once. */
  lemma {:induction false} TransliterateIdempotent(s: string)
    ensures Transliterate(Transliterate(s)) == Transliterate(s)
  {
    var t := Transliterate(s);
    forall j | 0 <= j < |TranslitRules| ensures TranslitRules[j].key !in t {
      TransliterateRemovesLetters(s, j);
    }
    TransliterateIsTable(t);
    MapCharsNoKeys(t, TranslitRules);
  }

  // ------------------------------------------------------------ sanitising

  /** The characters `[a-zA-Z0-9\s-]` keeps. */
  predicate IsNameChar(c: char) {
    IsAsciiAlnum(c) || IsRegexSpace(c) || c == '-'
  }

  /** The characters a sanitised name consists of. */
  predicate IsSafeChar(c: char) {
    IsAsciiLower(c) || IsAsciiDigit(c) || c == '-'
  }

  predicate IsSafeName(s: string) {
    |s| >= 2 && forall k :: 0 <= k < |s| ==> IsSafeChar(s[k])
  }

  /** `replaceAll("[^a-zA-Z0-9\\s-]", "")`. */
  function KeepNameChars(s: string): (r: string)
    ensures forall k :: 0 <= k < |r| ==> IsNameChar(r[k])
    ensures (forall k :: 0 <= k < |s| ==> IsNameChar(s[k])) ==> r == s
  {
    if s == [] then []
    else (if IsNameChar(s[0]) then [s[0]] else []) + KeepNameChars(s[1..])
  }

  /** `replaceAll("\\s+", "-")`: each maximal run of `\s` becomes one "-". */
  function HyphenateSpaces(s: string): (r: string)
    ensures forall k :: 0 <= k < |r| ==> !IsRegexSpace(r[k])
    ensures (forall k :: 0 <= k < |s| ==> IsNameChar(s[k])) ==>
              forall k :: 0 <= k < |r| ==> IsAsciiAlnum(r[k]) || r[k] == '-'
    ensures (forall k :: 0 <= k < |s| ==> !IsRegexSpace(s[k])) ==> r == s
    decreases |s|
  {
    if s == [] then []
    else if IsRegexSpace(s[0]) then
      var rest := SkipRegexSpace(s);
      assert forall k :: 0 <= k < |rest| ==> rest[k] == s[|s| - |rest| + k];
      "-" + HyphenateSpaces(rest)
    else [s[0]] + HyphenateSpaces(s[1..])
  }

  /** A single space between two words becomes a hyphen. */
  lemma {:induction false} HyphenateOneSpace(w: string, rest: string)
    requires !HasRegexSpace(w)
    requires rest == [] || !IsRegexSpace(rest[0])
    ensures HyphenateSpaces(w + " " + rest) == w + "-" + HyphenateSpaces(rest)
    decreases |w|
  {
    if w == [] {
      OneSpaceBase(w, rest);
    } else {
      NoSpaceAfterFirst(w);
      HyphenateOneSpace(w[1..], rest);
      OneSpaceStep(w, rest);
    }
  }

  lemma {:induction false} OneSpaceBase(w: string, rest: string)
    requires w == [] && (rest == [] || !IsRegexSpace(rest[0]))
    ensures HyphenateSpaces(w + " " + rest) == w + "-" + HyphenateSpaces(rest)
  {
    DropEmpty(w, " ", rest);
    DropEmpty(w, "-", HyphenateSpaces(rest));
    HyphenateLeadingSpace(rest);
  }

  lemma {:induction false} DropEmpty(w: string, a: string, b: string)
    requires w == []
    ensures w + a + b == a + b
  {
  }

  lemma {:induction false} NoSpaceAfterFirst(w: string)
    requires w != [] && !HasRegexSpace(w)
    ensures !IsRegexSpace(w[0]) && !HasRegexSpace(w[1..])
  {
    assert forall k :: 0 <= k < |w| - 1 ==> w[1..][k] == w[k + 1];
  }

  /** The word's first character is kept in front of the rest. */
  lemma {:induction false} OneSpaceStep(w: string, rest: string)
    requires w != [] && !IsRegexSpace(w[0])
    requires HyphenateSpaces(w[1..] + " " + rest) == w[1..] + "-" + HyphenateSpaces(rest)
    ensures HyphenateSpaces(w + " " + rest) == w + "-" + HyphenateSpaces(rest)
  {
    HyphenateWordChar(w[0], w[1..] + " " + rest);
    SplitFirst(w, " ", rest);
    SplitFirst(w, "-", HyphenateSpaces(rest));
  }

  lemma {:induction false} SplitFirst(w: string, a: string, b: string)
    requires w != []
    ensures w + a + b == [w[0]] + (w[1..] + a + b)
  {
    assert w == [w[0]] + w[1..];
  }

  /** One space before text that starts with no whitespace becomes "-". */
  lemma {:induction false} HyphenateLeadingSpace(rest: string)
    requires rest == [] || !IsRegexSpace(rest[0])
    ensures HyphenateSpaces(" " + rest) == "-" + HyphenateSpaces(rest)
  {
    SkipOneSpace(' ', rest);
  }

  /** The run of whitespace of one character before text that starts with
      no whitespace ends after that character. */
  lemma {:induction false} SkipOneSpace(c: char, rest: string)
    requires IsRegexSpace(c) && (rest == [] || !IsRegexSpace(rest[0]))
    ensures SkipRegexSpace([c] + rest) == rest
  {
    assert ([c] + rest)[1..] == rest;
  }

  /** A character that is not whitespace is kept as it is. */
  lemma {:induction false} HyphenateWordChar(c: char, rest: string)
    requires !IsRegexSpace(c)
    ensures HyphenateSpaces([c] + rest) == [c] + HyphenateSpaces(rest)
  {
    assert ([c] + rest)[1..] == rest;
  }

  lemma {:induction false} KeepNameCharsConcat(a: string, b: string)
    ensures KeepNameChars(a + b) == KeepNameChars(a) + KeepNameChars(b)
    decreases |a|
  {
    if a == [] {
      assert a + b == b;
    } else {
      assert (a + b)[0] == a[0] && (a + b)[1..] == a[1..] + b;
      KeepNameCharsConcat(a[1..], b);
    }
  }

  /** Text that starts with a non-space closes the whitespace run before
      it, so the two halves are hyphenated separately. */
  lemma {:induction false} HyphenateConcat(a: string, b: string)
    requires b == [] || !IsRegexSpace(b[0])
    ensures HyphenateSpaces(a + b) == HyphenateSpaces(a) + HyphenateSpaces(b)
    decreases |a|, 1
  {
    if a == [] {
      assert a + b == b;
    } else if IsRegexSpace(a[0]) {
      HyphenateConcatAtSpace(a, b);
    } else {
      var s := a + b;
      assert s[0] == a[0] && s[1..] == a[1..] + b;
      HyphenateConcat(a[1..], b);
      assert HyphenateSpaces(s) == [a[0]] + HyphenateSpaces(a[1..] + b);
    }
  }

  lemma {:induction false} HyphenateConcatAtSpace(a: string, b: string)
    requires b == [] || !IsRegexSpace(b[0])
    requires a != [] && IsRegexSpace(a[0])
    ensures HyphenateSpaces(a + b) == HyphenateSpaces(a) + HyphenateSpaces(b)
    decreases |a|, 0
  {
    var s := a + b;
    assert s[0] == a[0];
    var rest := SkipRegexSpace(a);
    assert |rest| < |a|;
    SkipRegexSpaceConcat(a, b);
    assert SkipRegexSpace(s) == rest + b;
    HyphenateConcat(rest, b);
    HyphenateAtSpace(s);
    HyphenateAtSpace(a);
    Regroup(HyphenateSpaces(s), HyphenateSpaces(a), HyphenateSpaces(rest), HyphenateSpaces(b), HyphenateSpaces(rest + b));
  }

  lemma {:induction false} Regroup(whole: string, front: string, rest: string, back: string, restBack: string)
    requires whole == "-" + restBack && restBack == rest + back && front == "-" + rest
    ensures whole == front + back
  {
  }

  lemma {:induction false} HyphenateAtWord(s: string)
    requires s != [] && !IsRegexSpace(s[0])
    ensures HyphenateSpaces(s) == [s[0]] + HyphenateSpaces(s[1..])
  {
  }

  lemma {:induction false} HyphenateAtSpace(s: string)
    requires s != [] && IsRegexSpace(s[0])
    ensures HyphenateSpaces(s) == "-" + HyphenateSpaces(SkipRegexSpace(s))
  {
  }

  /** The steps of `sanitizeCalendarName` after transliteration: keep
      `[a-zA-Z0-9\s-]`, turn whitespace runs into "-", lower-case, and fall
      back to "calendar" when fewer than two characters remain. */
  function Clean(t: string): (r: string)
    ensures IsSafeName(r)
  {
    var kept := ToLower(HyphenateSpaces(KeepNameChars(t)));
    if |kept| < 2 then FallbackIsSafe(); Fallback else KeptIsSafe(t); kept
  }

  /** The name used when too little of the label is left. */
  const Fallback := "calendar"

  lemma {:induction false} FallbackIsSafe()
    ensures IsSafeName(Fallback)
  {
  }

  /** Long enough, what is left of the label is a safe name. */
  lemma {:induction false} KeptIsSafe(t: string)
    requires |ToLower(HyphenateSpaces(KeepNameChars(t)))| >= 2
    ensures IsSafeName(ToLower(HyphenateSpaces(KeepNameChars(t))))
  {
    LowerOfAlnum(HyphenateSpaces(KeepNameChars(t)));
  }

  /** `sanitizeCalendarName`. */
  function Sanitize(name: string): (r: string)
    ensures IsSafeName(r)
  {
    Clean(Transliterate(name))
  }

  lemma {:induction false} LowerOfAlnum(s: string)
    requires forall k :: 0 <= k < |s| ==> IsAsciiAlnum(s[k]) || s[k] == '-'
    ensures forall k :: 0 <= k < |ToLower(s)| ==> IsSafeChar(ToLower(s)[k])
  {
  }

  lemma {:induction false} ToLowerOfSafe(s: string)
    requires forall k :: 0 <= k < |s| ==> IsSafeChar(s[k])
    ensures ToLower(s) == s
  {
    assert forall k :: 0 <= k < |s| ==> ToLower(s)[k] == s[k];
  }

  /** A sanitised name is its own sanitised form. */
  lemma {:induction false} SanitizeIdempotent(name: string)
    ensures Sanitize(Sanitize(name)) == Sanitize(name)
  {
    SanitizeOfSafe(Sanitize(name));
  }

  /** A safe name is its own sanitised form. */
  lemma {:induction false} SanitizeOfSafe(r: string)
    requires IsSafeName(r)
    ensures Sanitize(r) == r
  {
    TransliterateKeepsLatin(r);
    CleanOfSafe(r);
  }

  lemma {:induction false} CleanOfSafe(r: string)
    requires IsSafeName(r)
    ensures Clean(r) == r
  {
    assert KeepNameChars(r) == r;
    assert HyphenateSpaces(r) == r;
    ToLowerOfSafe(r);
  }

  // ------------------------------------------------------ the calendar name

  /** "'s Calendar" and "Work Calendar", kept in pieces so that proofs
      can take them apart word by word. */
  const Possessive := "'" + ("s" + " " + "Calendar")
  const WorkCalendar := "Work" + " " + "Calendar"

  /** The label before sanitising: "<first name>'s Calendar" for a present,
      non-empty first name, otherwise "Work Calendar". */
  function Label(firstName: Option<string>): string {
    if firstName.Some? && firstName.value != [] then firstName.value + Possessive else WorkCalendar
  }

  /** The collection name of a user's calendar. */
  function ForUser(firstName: Option<string>): (r: string)
    ensures IsSafeName(r)
    ensures firstName.Some? && firstName.value != [] ==> r == Sanitize(firstName.value + Possessive)
  {
    Sanitize(Label(firstName))
  }
}
