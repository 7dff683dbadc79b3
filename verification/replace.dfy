/** Chains of single-character `String.replace(target, replacement)` calls.
    The transliterator and the iCalendar escaper are both written as such a
    chain; this module shows that a chain equals a per-character table
    lookup whenever no rule's replacement contains the key of a LATER rule
    (an earlier rule's key may appear, since that rule has already run). */
module Replace {

  /** One `replace(key, value)` call. */
  datatype Rule = Rule(key: char, value: string)

  /** `s.replace(String.valueOf(key), value)`: every occurrence of `key`
      replaced, left to right, by `value`. */
  function ReplaceChar(s: string, key: char, value: string): (r: string)
    ensures key !in s ==> r == s
    ensures key !in value ==> key !in r
    ensures forall c :: c in r && c != key && c !in value ==> c in s
  {
    if s == [] then []
    else (if s[0] == key then value else [s[0]]) + ReplaceChar(s[1..], key, value)
  }

  /** The rules applied one after the other, as in `s.replace(..).replace(..)`. */
  function ReplaceChain(s: string, rules: seq<Rule>): string
    decreases |rules|
  {
    if rules == [] then s
    else ReplaceChain(ReplaceChar(s, rules[0].key, rules[0].value), rules[1..])
  }

  /** The table reading of a chain: the value of the first rule whose key is
      `c`, or `c` itself. */
  function Lookup(rules: seq<Rule>, c: char): (r: string)
    ensures (forall j :: 0 <= j < |rules| ==> rules[j].key != c) ==> r == [c]
  {
    if rules == [] then [c]
    else if rules[0].key == c then rules[0].value
    else Lookup(rules[1..], c)
  }

  /** Every character of `s` replaced through the table. */
  function MapChars(s: string, rules: seq<Rule>): string {
    if s == [] then [] else Lookup(rules, s[0]) + MapChars(s[1..], rules)
  }

  predicate IsKey(rules: seq<Rule>, c: char) {
    exists j :: 0 <= j < |rules| && rules[j].key == c
  }

  /** No replacement text contains the key of a later rule. */
  predicate NoLaterKeys(rules: seq<Rule>) {
    forall i, j :: 0 <= i < j < |rules| ==> rules[j].key !in rules[i].value
  }

  lemma {:induction false} MapCharsConcat(a: string, b: string, rules: seq<Rule>)
    ensures MapChars(a + b, rules) == MapChars(a, rules) + MapChars(b, rules)
    decreases |a|
  {
    if a == [] {
      assert a + b == b;
    } else {
      assert (a + b)[0] == a[0] && (a + b)[1..] == a[1..] + b;
      MapCharsConcat(a[1..], b, rules);
    }
  }

  /** Text holding no key is left alone by the table. */
  lemma {:induction false} MapCharsNoKeys(t: string, rules: seq<Rule>)
    requires forall j :: 0 <= j < |rules| ==> rules[j].key !in t
    ensures MapChars(t, rules) == t
    decreases |t|
  {
    if t != [] {
      assert t[0] in t;
      MapCharsNoKeys(t[1..], rules);
    }
  }

  /** One step of the chain, seen through the remaining table. */
  lemma {:induction false} ReplaceThenMap(s: string, rules: seq<Rule>)
    requires rules != [] && NoLaterKeys(rules)
    ensures MapChars(ReplaceChar(s, rules[0].key, rules[0].value), rules[1..]) == MapChars(s, rules)
    decreases |s|
  {
    if s != [] {
      var k, v := rules[0].key, rules[0].value;
      var piece := if s[0] == k then v else [s[0]];
      MapCharsConcat(piece, ReplaceChar(s[1..], k, v), rules[1..]);
      ReplaceThenMap(s[1..], rules);
      if s[0] == k {
        forall j | 0 <= j < |rules[1..]| ensures rules[1..][j].key !in v {
          assert rules[1..][j] == rules[j + 1];
        }
        MapCharsNoKeys(v, rules[1..]);
      } else {
        assert MapChars([s[0]], rules[1..]) == Lookup(rules[1..], s[0]);
      }
    }
  }

  /** A chain of replacements equals the per-character table when no
      replacement introduces a key that a later call would rewrite. */
  lemma {:induction false} ChainIsMap(s: string, rules: seq<Rule>)
    requires NoLaterKeys(rules)
    ensures ReplaceChain(s, rules) == MapChars(s, rules)
    decreases |rules|
  {
    if rules == [] {
      MapCharsNoKeys(s, rules);
    } else {
      var s' := ReplaceChar(s, rules[0].key, rules[0].value);
      assert NoLaterKeys(rules[1..]) by {
        forall i, j | 0 <= i < j < |rules[1..]|
          ensures rules[1..][j].key !in rules[1..][i].value
        {
          assert rules[1..][j] == rules[j + 1] && rules[1..][i] == rules[i + 1];
        }
      }
      ChainIsMap(s', rules[1..]);
      ReplaceThenMap(s, rules);
    }
  }

  /** When every replacement avoids every key, no key survives the table. */
  lemma {:induction false} MapCharsRemovesKeys(s: string, rules: seq<Rule>, c: char)
    requires forall j :: 0 <= j < |rules| ==> c !in rules[j].value
    requires IsKey(rules, c)
    ensures c !in MapChars(s, rules)
    decreases |s|
  {
    if s != [] {
      MapCharsRemovesKeys(s[1..], rules, c);
      LookupAvoids(rules, s[0], c);
    }
  }

  lemma {:induction false} LookupAvoids(rules: seq<Rule>, d: char, c: char)
    requires forall j :: 0 <= j < |rules| ==> c !in rules[j].value
    requires IsKey(rules, c)
    ensures c !in Lookup(rules, d)
    decreases |rules|
  {
    if rules != [] && rules[0].key != d {
      if rules[0].key == c {
        LookupFallback(rules[1..], d, c);
      } else {
        var j :| 0 <= j < |rules| && rules[j].key == c;
        assert rules[1..][j - 1].key == c;
        LookupAvoids(rules[1..], d, c);
      }
    }
  }

  lemma {:induction false} LookupFallback(rules: seq<Rule>, d: char, c: char)
    requires forall j :: 0 <= j < |rules| ==> c !in rules[j].value
    requires c != d
    ensures c !in Lookup(rules, d)
    decreases |rules|
  {
    if rules != [] && rules[0].key != d {
      LookupFallback(rules[1..], d, c);
    }
  }
}
