/** The plain chat service (`LLMService`): one request to the model and
    either the whole answer or an emulated stream of it, word by word. The
    model's reply is a parameter: its text (possibly null) or the message
    of the exception the call threw (possibly null). */
module LlmService {
  import opened Wrappers
  import opened JavaString
  import AgentLoop

  /** What the model call produced. */
  datatype ModelReply = Answer(text: Option<string>) | Throws(message: Option<string>)

  /** What the callbacks received: every `onToken` argument in order, and
      the one `onComplete` argument. */
  datatype Stream = Stream(tokens: seq<string>, completion: string)

  const Fallback := "Не удалось сгенерировать ответ"
  const GenerateFailure := "Не удалось сгенерировать ответ: "
  const StreamFailure := "Ошибка при генерации ответа: "
  const StreamRateLimit := "Ошибка: "

  /** Java string concatenation of a possibly null message. */
  function MessageText(message: Option<string>): string {
    message.GetOr("null")
  }

  /** The rate-limit test as the service writes it, with its third clause. */
  predicate IsRateLimited(message: Option<string>) {
    message.Some? && (Contains(message.value, "429") || Contains(message.value, "rate")
                      || Contains(message.value, "rate-limited"))
  }

  lemma {:induction false} RateInRateLimited()
    ensures Contains("rate-limited", "rate")
  {
    assert OccursAt("rate-limited", "rate", 0);
    ContainsWitness("rate-limited", "rate", 0);
  }

  /** The third clause adds nothing: the service classifies exceptions
      exactly as the agent loop does. */
  lemma {:induction false} SameRateLimitTest(message: string)
    ensures IsRateLimited(Some(message)) <==> AgentLoop.IsRateLimited(message)
  {
    if Contains(message, "rate-limited") {
      RateInRateLimited();
      ContainsIn("rate-limited", "rate", message);
    }
  }

  /** True when the model gave no usable text. */
  predicate NoText(text: Option<string>) {
    text.None? || text.value == []
  }

  // ------------------------------------------------------------ generate

  /** `generate`: the model's text, the fallback when it is missing or
      empty, and for a failure the rate-limit text or the prefixed
      message. The answer is never empty. */
  function Generate(reply: ModelReply): (r: Result<string, string>)
    ensures r.Ok? <==> reply.Answer?
    ensures r.Ok? ==> r.value != []
    ensures r.Ok? && NoText(reply.text) ==> r.value == Fallback
    ensures r.Ok? && !NoText(reply.text) ==> r.value == reply.text.value
    ensures r.Err? && !IsRateLimited(reply.message) ==> r.error == GenerateFailure + MessageText(reply.message)
    ensures r.Err? && IsRateLimited(reply.message) ==> r.error == AgentLoop.RateLimitText
  {
    match reply
    case Answer(text) => if NoText(text) then Ok(Fallback) else Ok(text.value)
    case Throws(message) =>
      if IsRateLimited(message) then Err(AgentLoop.RateLimitText)
      else Err(GenerateFailure + MessageText(message))
  }

  // ------------------------------------------------------------ streaming

  /** The concatenation of a sequence of strings. */
  function Concat(xs: seq<string>): string {
    if xs == [] then [] else xs[0] + Concat(xs[1..])
  }

  /** The token for each word: the word, and a space after all but the
      last. */
  function Tokens(words: seq<string>): (r: seq<string>)
    ensures |r| == |words|
  {
    seq(|words|, k requires 0 <= k < |words| => words[k] + (if k < |words| - 1 then " " else ""))
  }

  /** How many words are sent: all of them, unless the pause after word
      `i` (counted from 0) is interrupted, which stops after that word. */
  function Sent(count: nat, interrupted: Option<nat>): (n: nat)
    ensures n <= count
    ensures count > 0 ==> n > 0
  {
    if interrupted.Some? && interrupted.value < count then interrupted.value + 1 else count
  }

  /** `generateStream`: never fails; errors reach `onComplete` as text. For
      usable text the tokens are the whitespace-split words and the
      completion is those words joined by single spaces; `interrupted`
      stands for the thread interruption that ends the loop early. */
  function GenerateStream(reply: ModelReply, interrupted: Option<nat>): (r: Stream)
    ensures reply.Throws? || NoText(reply.text) ==> r.tokens == []
    ensures reply.Answer? && NoText(reply.text) ==> r.completion == Fallback
    ensures reply.Throws? && IsRateLimited(reply.message) ==> r.completion == StreamRateLimit + AgentLoop.RateLimitText
    ensures reply.Throws? && !IsRateLimited(reply.message) ==> r.completion == StreamFailure + MessageText(reply.message)
    ensures reply.Answer? && !NoText(reply.text) ==>
      var words := SplitWs(reply.text.value);
      var n := Sent(|words|, interrupted);
      && r.tokens == Tokens(words)[..n]
      && r.completion == Join(words[..n], " ")
  {
    match reply
    case Throws(message) =>
      if IsRateLimited(message) then Stream([], StreamRateLimit + AgentLoop.RateLimitText)
      else Stream([], StreamFailure + MessageText(message))
    case Answer(text) =>
      if NoText(text) then Stream([], Fallback)
      else
        var words := SplitWs(text.value);
        var n := Sent(|words|, interrupted);
        Stream(Tokens(words)[..n], Join(words[..n], " "))
  }

  lemma {:induction false} ConcatCons(x: string, xs: seq<string>)
    ensures Concat([x] + xs) == x + Concat(xs)
  {
    assert ([x] + xs)[1..] == xs;
  }

  /** The first `n` tokens spell the first `n` words joined by spaces,
      plus the space that follows the last of them when it is not the
      final word. */
  lemma {:induction false} ConcatTokens(words: seq<string>, n: nat)
    requires 1 <= n <= |words|
    ensures Concat(Tokens(words)[..n]) == Join(words[..n], " ") + (if n < |words| then " " else "")
    decreases n
  {
    var t := Tokens(words);
    if n == 1 {
      assert t[..1] == [t[0]];
      ConcatCons(t[0], []);
      assert words[..1] == [words[0]];
    } else {
      var rest := words[1..];
      assert t[1..] == Tokens(rest);
      assert t[..n] == [words[0] + " "] + Tokens(rest)[..n - 1];
      ConcatCons(words[0] + " ", Tokens(rest)[..n - 1]);
      ConcatTokens(rest, n - 1);
      assert words[..n][1..] == rest[..n - 1];
    }
  }

  /** What the client sees adds up: the tokens it received concatenate to
      the completion text, followed by one space when the stream was cut
      short by an interruption. */
  lemma {:induction false} TokensSpellCompletion(reply: ModelReply, interrupted: Option<nat>)
    requires reply.Answer? && !NoText(reply.text)
    ensures var s := GenerateStream(reply, interrupted);
      var words := SplitWs(reply.text.value);
      Concat(s.tokens) == s.completion + (if Sent(|words|, interrupted) < |words| then " " else "")
    ensures interrupted.None? ==> Concat(GenerateStream(reply, interrupted).tokens) == GenerateStream(reply, interrupted).completion
  {
    var words := SplitWs(reply.text.value);
    var n := Sent(|words|, interrupted);
    if n > 0 {
      ConcatTokens(words, n);
    } else {
      assert Tokens(words)[..0] == [];
      assert words[..0] == [];
    }
  }

  /** Text that is only whitespace splits into no words: nothing is
      streamed and the completion is empty. */
  lemma {:induction false} BlankTextStreamsNothing(text: string, interrupted: Option<nat>)
    requires text != [] && forall k :: 0 <= k < |text| ==> IsRegexSpace(text[k])
    ensures GenerateStream(Answer(Some(text)), interrupted) == Stream([], [])
  {
    assert IsRegexSpace(text[0]);
    assert SplitWsRaw(text) == [[]] + SplitWsRaw([]) by {
      assert FirstRegexSpace(text) == 0;
      assert SkipRegexSpace(text[0..]) == [];
    }
    assert SplitWs(text) == [];
  }

  /** One word and a single space: the word is split off and the rest is
      split as it stands. */
  lemma {:induction false} SplitWordSpace(w: string, rest: string)
    requires w != [] && !HasRegexSpace(w)
    requires rest == [] || !IsRegexSpace(rest[0])
    ensures SplitWsRaw(w + " " + rest) == [w] + SplitWsRaw(rest)
  {
    SplitWsRawWord(w, " ", rest);
    SkipRegexSpaceConcat(" ", rest);
    assert SkipRegexSpace(" ") == [];
  }

  /** Joined words start with the first character of the first word. */
  lemma {:induction false} JoinStart(words: seq<string>)
    requires words != [] && words[0] != []
    ensures Join(words, " ") != [] && Join(words, " ")[0] == words[0][0]
  {
  }

  /** Non-empty words without whitespace in them. */
  predicate AreWords(words: seq<string>) {
    forall k :: 0 <= k < |words| ==> words[k] != [] && !HasRegexSpace(words[k])
  }

  /** The words after the first are words too, and their joined text
      starts with a character that is not whitespace. */
  lemma {:induction false} RestAreWords(words: seq<string>)
    requires |words| > 1 && AreWords(words)
    ensures AreWords(words[1..])
    ensures var rest := Join(words[1..], " "); rest != [] && !IsRegexSpace(rest[0])
  {
    JoinStart(words[1..]);
    assert !HasRegexSpace(words[1]);
  }

  /** Words separated by single spaces come back from the whitespace split
      unchanged. */
  lemma {:induction false} SplitSingleSpaced(words: seq<string>)
    requires words != [] && AreWords(words)
    ensures SplitWsRaw(Join(words, " ")) == words
    decreases |words|
  {
    if |words| == 1 {
      assert FirstRegexSpace(words[0]) == -1;
    } else {
      RestAreWords(words);
      SplitSingleSpaced(words[1..]);
      SplitWordSpace(words[0], Join(words[1..], " "));
      assert words == [words[0]] + words[1..];
    }
  }

  /** A text of words separated by single spaces streams back as itself,
      one word per token, when no interruption cuts it short. */
  lemma {:induction false} SingleSpacedRoundTrip(words: seq<string>)
    requires words != [] && AreWords(words)
    ensures var s := GenerateStream(Answer(Some(Join(words, " "))), None);
      && |s.tokens| == |words|
      && s.completion == Join(words, " ")
      && Concat(s.tokens) == Join(words, " ")
  {
    var text := Join(words, " ");
    SplitSingleSpaced(words);
    if |words| == 1 {
      assert !HasRegexSpace(text);
    } else {
      assert text == words[0] + " " + Join(words[1..], " ");
      assert IsRegexSpace(text[|words[0]|]);
      assert words[|words| - 1] != [];
    }
    assert SplitWs(text) == words;
    assert text != [] by {
      assert words[0] != [];
      if |words| > 1 {
        assert |text| >= |words[0]|;
      }
    }
    assert words[..|words|] == words;
    TokensSpellCompletion(Answer(Some(text)), None);
  }

  /** The stream reports the same outcome `generate` does: the same
      fallback, and for a rate-limited failure the same text behind
      "Ошибка: ". */
  lemma {:induction false} StreamMatchesGenerate(reply: ModelReply, interrupted: Option<nat>)
    ensures reply.Answer? && NoText(reply.text) ==>
      GenerateStream(reply, interrupted).completion == Generate(reply).value
    ensures reply.Throws? && IsRateLimited(reply.message) ==>
      GenerateStream(reply, interrupted).completion == StreamRateLimit + Generate(reply).error
  {
  }
}
