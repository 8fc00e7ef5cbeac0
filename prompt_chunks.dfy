/**
 * The simulated streaming response used by the prompt tests: a response text
 * chosen by keywords of the prompt, optionally preceded by a fixed
 * `<thinking>` block, cut the way `text.match(/.{1,20}/g)` cuts it, and
 * followed by one `finish` chunk.
 */
module PromptChunks {
  import opened Strings

  /** The two kinds of stream chunk the simulation produces. */
  datatype ChunkData =
    | TextDelta(textDelta: string)
    | Finish(finishReason: string, promptTokens: nat)

  // ------------------------------------------------------- response texts

  const DefaultText: string := "Esta é uma resposta padrão para testes."
  const WeatherText: string := "De acordo com os dados atuais, o tempo está ensolarado com 25°C."
  const CodeText: string :=
    "Aqui está um exemplo de código:\n\n```javascript\nfunction exemplo() {\n  console.log(\"Hello, world!\");\n  return true;\n}\n```\n\nVocê pode usar esse exemplo como ponto de partida."
  const GenericHead: string := "Esta é uma resposta simulada para testes. \nO prompt fornecido contém "
  const GenericTail: string := " caracteres. \nÉ importante notar que esta é apenas uma resposta de teste."
  /** The simulated reasoning, which the response separates from the answer by a blank line. */
  const Thinking: string :=
    "<thinking>\nVamos analisar essa pergunta passo a passo:\n1. Primeiro, identifico o que está sendo perguntado\n2. Depois, avalio as informações disponíveis\n3. Finalmente, formulo uma resposta apropriada\n\nEste é um processo de raciocínio simulado para testes.\n</thinking>"
  const ThinkingBlock: string := Thinking + "\n\n"

  /** The generic answer, which reports the prompt's length in decimal. */
  function GenericText(length: nat): string
  {
    GenericHead + NatToString(length) + GenericTail
  }

  predicate MentionsWeather(p: string)
  {
    Includes(p, "weather") || Includes(p, "clima")
  }

  predicate MentionsCode(p: string)
  {
    Includes(p, "código") || Includes(p, "code")
  }

  /** The answer chosen for a prompt, before any reasoning block. */
  function BaseResponse(prompt: Option<string>): string
  {
    if prompt.None? || |prompt.value| == 0 then DefaultText
    else if MentionsWeather(prompt.value) then WeatherText
    else if MentionsCode(prompt.value) then CodeText
    else GenericText(|prompt.value|)
  }

  /** The whole simulated response text. */
  function ResponseText(prompt: Option<string>, withReasoning: bool): string
  {
    if withReasoning then ThinkingBlock + BaseResponse(prompt) else BaseResponse(prompt)
  }

  // ----------------------------------------------------------- chunking

  /** The characters the regular-expression `.` does not match. */
  predicate IsLineTerminator(c: char)
  {
    c == '\n' || c == '\r' || c == '\U{2028}' || c == '\U{2029}'
  }

  predicate NoTerminator(s: string)
  {
    forall i :: 0 <= i < |s| ==> !IsLineTerminator(s[i])
  }

  /** How many of the leading characters of `s`, at most `limit`, `.` matches in a row. */
  function LeadingRun(s: string, limit: nat): (n: nat)
    ensures n <= limit && n <= |s|
    ensures NoTerminator(s[..n])
    ensures n < limit && n < |s| ==> IsLineTerminator(s[n])
    decreases limit
  {
    if limit == 0 || |s| == 0 || IsLineTerminator(s[0]) then 0
    else
      var m := LeadingRun(s[1..], limit - 1);
      assert s[..m + 1] == [s[0]] + s[1..][..m];
      1 + m
  }

  /**
   * `s.match(/.{1,20}/g) || []`: the scan skips a line terminator, and
   * otherwise takes the longest run of at most 20 characters without one.
   */
  function MatchChunks(s: string): (chunks: seq<string>)
    ensures forall i :: 0 <= i < |chunks| ==> 1 <= |chunks[i]| <= 20 && NoTerminator(chunks[i])
    decreases |s|
  {
    if |s| == 0 then []
    else if IsLineTerminator(s[0]) then MatchChunks(s[1..])
    else
      var n := LeadingRun(s, 20);
      [s[..n]] + MatchChunks(s[n..])
  }

  /** `s` with its line terminators removed. */
  function StripTerminators(s: string): string
    decreases |s|
  {
    if |s| == 0 then ""
    else if IsLineTerminator(s[0]) then StripTerminators(s[1..])
    else [s[0]] + StripTerminators(s[1..])
  }

  lemma {:induction false} StripAppend(a: string, b: string)
    ensures StripTerminators(a + b) == StripTerminators(a) + StripTerminators(b)
    decreases |a|
  {
    if |a| == 0 {
      assert a + b == b;
    } else {
      assert (a + b)[1..] == a[1..] + b;
      StripAppend(a[1..], b);
    }
  }

  lemma {:induction false} StripNoTerminator(s: string)
    requires NoTerminator(s)
    ensures StripTerminators(s) == s
    decreases |s|
  {
    if |s| > 0 {
      StripNoTerminator(s[1..]);
    }
  }

  /** The chunks put back together give the text without its line terminators. */
  lemma {:induction false} ConcatMatchChunks(s: string)
    ensures Concat(MatchChunks(s)) == StripTerminators(s)
    decreases |s|
  {
    if |s| > 0 {
      if IsLineTerminator(s[0]) {
        ConcatMatchChunks(s[1..]);
      } else {
        var n := LeadingRun(s, 20);
        ConcatMatchChunks(s[n..]);
        assert s == s[..n] + s[n..];
        StripAppend(s[..n], s[n..]);
        StripNoTerminator(s[..n]);
        assert ([s[..n]] + MatchChunks(s[n..]))[1..] == MatchChunks(s[n..]);
      }
    }
  }

  function Min(a: int, b: int): int
  {
    if a <= b then a else b
  }

  /** On a line without terminators a run is cut only by the limit. */
  lemma LeadingRunOnLine(s: string, limit: nat)
    requires NoTerminator(s)
    ensures LeadingRun(s, limit) == Min(limit, |s|)
  {
  }

  /** The slices of the text after the first 20 characters, named from the whole text. */
  lemma ShiftSlices(s: string, rest: string, chunks: seq<string>, r: seq<string>)
    requires |s| > 20 && rest == s[20..] && chunks == [s[..20]] + r
    requires forall j :: 0 <= j < |r| ==> 20 * j < |rest| && r[j] == rest[20 * j..Min(20 * j + 20, |rest|)]
    ensures forall i :: 0 <= i < |chunks| ==> 20 * i < |s| && chunks[i] == s[20 * i..Min(20 * i + 20, |s|)]
  {
    forall i | 1 <= i < |chunks|
      ensures 20 * i < |s| && chunks[i] == s[20 * i..Min(20 * i + 20, |s|)]
    {
      var j := i - 1;
      assert chunks[i] == r[j];
      assert rest[20 * j..Min(20 * j + 20, |rest|)] == s[20 * i..Min(20 * i + 20, |s|)];
    }
  }

  /**
   * On a line without terminators the chunks are the consecutive 20-character
   * slices of the line, the last one possibly shorter.
   */
  lemma {:induction false} LineChunks(s: string)
    requires NoTerminator(s)
    ensures var chunks := MatchChunks(s);
      && |chunks| == (|s| + 19) / 20
      && forall i :: 0 <= i < |chunks| ==> chunks[i] == s[20 * i..Min(20 * i + 20, |s|)]
    decreases |s|
  {
    if |s| > 0 {
      LeadingRunOnLine(s, 20);
      var n := Min(20, |s|);
      var rest := s[n..];
      assert NoTerminator(rest) by {
        forall i | 0 <= i < |rest| ensures !IsLineTerminator(rest[i]) {
          assert rest[i] == s[n + i];
        }
      }
      LineChunks(rest);
      var r := MatchChunks(rest);
      MatchTake(s, n);
      if |s| > 20 {
        forall j | 0 <= j < |r| ensures 20 * j < |rest| {
          ChunkStart(|rest|, j);
        }
        assert n == 20 && MatchChunks(s) == [s[..20]] + r;
        ShiftSlices(s, rest, MatchChunks(s), r);
      } else {
        assert rest == [];
      }
    }
  }

  /** Chunk `k` of a line of length `len` starts inside the line. */
  lemma ChunkStart(len: nat, k: nat)
    requires k < (len + 19) / 20
    ensures 20 * k < len
  {
  }

  /** Within a line every chunk but the last is exactly 20 characters long. */
  lemma LineChunkLengths(s: string)
    requires NoTerminator(s)
    ensures var chunks := MatchChunks(s);
      forall i :: 0 <= i < |chunks| - 1 ==> |chunks[i]| == 20
  {
    LineChunks(s);
  }

  /** A run stopped by a line terminator ignores what follows it. */
  lemma {:induction false} LeadingRunStops(a: string, c: string, limit: nat)
    requires |c| > 0 && IsLineTerminator(c[0])
    ensures LeadingRun(a + c, limit) == LeadingRun(a, limit)
    decreases limit
  {
    if |a| == 0 {
      assert a + c == c;
    } else if limit > 0 && !IsLineTerminator(a[0]) {
      SlicesAround(a, c, 1);
      LeadingRunStops(a[1..], c, limit - 1);
    }
  }

  /** Cutting `a + c` within `a` cuts `a`. */
  lemma SlicesAround<T>(a: seq<T>, c: seq<T>, n: nat)
    requires n <= |a|
    ensures (a + c)[..n] == a[..n] && (a + c)[n..] == a[n..] + c
  {
  }

  /** The scan skips a leading line terminator. */
  lemma MatchSkip(s: string)
    requires |s| > 0 && IsLineTerminator(s[0])
    ensures MatchChunks(s) == MatchChunks(s[1..])
  {
  }

  /** The scan takes the leading run as one chunk and goes on after it. */
  lemma MatchTake(s: string, n: nat)
    requires |s| > 0 && !IsLineTerminator(s[0]) && n == LeadingRun(s, 20)
    ensures MatchChunks(s) == [s[..n]] + MatchChunks(s[n..])
  {
  }

  /**
   * Chunks never straddle a line terminator: the text before the terminator
   * and the text after it are cut independently.
   */
  lemma {:induction false} ChunksSplitAtTerminator(a: string, c: string)
    requires |c| > 0 && IsLineTerminator(c[0])
    ensures MatchChunks(a + c) == MatchChunks(a) + MatchChunks(c[1..])
    decreases |a|
  {
    if |a| == 0 {
      assert a + c == c;
      MatchSkip(c);
      assert [] + MatchChunks(c[1..]) == MatchChunks(c[1..]);
    } else if IsLineTerminator(a[0]) {
      SlicesAround(a, c, 1);
      MatchSkip(a + c);
      MatchSkip(a);
      ChunksSplitAtTerminator(a[1..], c);
    } else {
      var n := LeadingRun(a, 20);
      LeadingRunStops(a, c, 20);
      SlicesAround(a, c, n);
      MatchTake(a + c, n);
      MatchTake(a, n);
      ChunksSplitAtTerminator(a[n..], c);
      Regroup([a[..n]], MatchChunks(a[n..]), MatchChunks(c[1..]));
    }
  }

  /** The chunk records of the chunk texts, in order. */
  function Deltas(texts: seq<string>): (chunks: seq<ChunkData>)
    ensures |chunks| == |texts|
    ensures forall i :: 0 <= i < |texts| ==> chunks[i] == TextDelta(texts[i])
  {
    seq(|texts|, i requires 0 <= i < |texts| => TextDelta(texts[i]))
  }

  /** The texts carried by `text-delta` chunks, in order. */
  function DeltaTexts(chunks: seq<ChunkData>): string
    decreases |chunks|
  {
    if |chunks| == 0 then ""
    else if chunks[0].TextDelta? then chunks[0].textDelta + DeltaTexts(chunks[1..])
    else DeltaTexts(chunks[1..])
  }

  lemma {:induction false} DeltaTextsOfDeltas(texts: seq<string>)
    ensures DeltaTexts(Deltas(texts) + [Finish("stop", 10)]) == Concat(texts)
    decreases |texts|
  {
    var cs := Deltas(texts) + [Finish("stop", 10)];
    if |texts| == 0 {
      assert cs == [Finish("stop", 10)];
      assert DeltaTexts(cs) == DeltaTexts(cs[1..]);
      assert cs[1..] == [];
    } else {
      DeltaTextsOfDeltas(texts[1..]);
      assert cs[1..] == Deltas(texts[1..]) + [Finish("stop", 10)];
    }
  }

  /**
   * `getResponseChunksByPrompt`: choose the response, prepend the reasoning
   * block when asked, cut it into `text-delta` chunks and append the
   * `finish` chunk.
   */
  method GetResponseChunksByPrompt(prompt: Option<string>, withReasoning: bool)
    returns (chunks: seq<ChunkData>)
    ensures chunks == Deltas(MatchChunks(ResponseText(prompt, withReasoning))) + [Finish("stop", 10)]
    ensures |chunks| >= 1 && chunks[|chunks| - 1] == Finish("stop", 10)
    ensures forall i :: 0 <= i < |chunks| - 1 ==>
      chunks[i].TextDelta? && 1 <= |chunks[i].textDelta| <= 20 && NoTerminator(chunks[i].textDelta)
    ensures DeltaTexts(chunks) == StripTerminators(ResponseText(prompt, withReasoning))
  {
    var responseText := "";
    if prompt.None? || |prompt.value| == 0 {
      responseText := DefaultText;
    } else if MentionsWeather(prompt.value) {
      responseText := WeatherText;
    } else if MentionsCode(prompt.value) {
      responseText := CodeText;
    } else {
      responseText := GenericText(|prompt.value|);
    }
    if withReasoning {
      responseText := ThinkingBlock + responseText;
    }
    var responseChunks := MatchChunks(responseText);
    chunks := Deltas(responseChunks);
    chunks := chunks + [Finish("stop", 10)];
    StreamOfText(responseText);
  }

  /** What the stream of any response text consists of. */
  lemma StreamOfText(text: string)
    ensures var chunks := Deltas(MatchChunks(text)) + [Finish("stop", 10)];
      && chunks[|chunks| - 1] == Finish("stop", 10)
      && (forall i :: 0 <= i < |chunks| - 1 ==>
            chunks[i].TextDelta? && 1 <= |chunks[i].textDelta| <= 20 && NoTerminator(chunks[i].textDelta))
      && DeltaTexts(chunks) == StripTerminators(text)
  {
    var texts := MatchChunks(text);
    var chunks := Deltas(texts) + [Finish("stop", 10)];
    forall i | 0 <= i < |chunks| - 1
      ensures chunks[i].TextDelta? && 1 <= |chunks[i].textDelta| <= 20 && NoTerminator(chunks[i].textDelta)
    {
      assert chunks[i] == TextDelta(texts[i]);
    }
    DeltaTextsOfDeltas(texts);
    ConcatMatchChunks(text);
  }

  // ------------------------------------------------------ response choice

  /** A missing or empty prompt gets the default answer. */
  lemma DefaultForEmptyPrompt(prompt: Option<string>)
    requires prompt.None? || prompt == Some("")
    ensures BaseResponse(prompt) == DefaultText
  {
  }

  /**
   * A prompt mentioning the weather gets the weather answer, whether or not
   * it also mentions code; one mentioning only code gets the code sample;
   * any other non-empty prompt gets the generic answer.
   */
  lemma ResponseChoice(p: string)
    ensures MentionsWeather(p) ==> BaseResponse(Some(p)) == WeatherText
    ensures !MentionsWeather(p) && MentionsCode(p) ==> BaseResponse(Some(p)) == CodeText
    ensures p != "" && !MentionsWeather(p) && !MentionsCode(p) ==> BaseResponse(Some(p)) == GenericText(|p|)
  {
    IncludesFits(p, "weather");
    IncludesFits(p, "clima");
    IncludesFits(p, "código");
    IncludesFits(p, "code");
  }

  lemma IncludesFits(hay: string, needle: string)
    ensures Includes(hay, needle) ==> |needle| <= |hay|
  {
  }

  /** The generic answer states the prompt's length so that it can be read back. */
  lemma GenericTextReportsLength(length: nat)
    ensures var d := NatToString(length); var t := GenericText(length);
      && t[..|GenericHead|] == GenericHead
      && t[|GenericHead|..|GenericHead| + |d|] == d
      && ParseNat(d) == length
  {
    ParseNatToString(length);
  }

  /** Prompts of different lengths get different generic answers. */
  lemma GenericTextInjective(m: nat, n: nat)
    requires GenericText(m) == GenericText(n)
    ensures m == n
  {
    var dm, dn := NatToString(m), NatToString(n);
    assert |dm| == |dn|;
    GenericTextReportsLength(m);
    GenericTextReportsLength(n);
    NatToStringInjective(m, n);
  }

  /** With reasoning, the fixed block comes first and the answer follows unchanged. */
  lemma ReasoningPrependsBlock(prompt: Option<string>)
    ensures ResponseText(prompt, true)[..|ThinkingBlock|] == ThinkingBlock
    ensures ResponseText(prompt, true)[|ThinkingBlock|..] == ResponseText(prompt, false)
  {
  }

  /** Text ending in a line break is chunked on its own, whatever follows it. */
  lemma ChunksAfterLineBreak(t: string, b: string)
    requires |t| > 0 && IsLineTerminator(t[|t| - 1])
    ensures MatchChunks(t + b) == MatchChunks(t) + MatchChunks(b)
  {
    var k := |t| - 1;
    var a, c := t[..k], t[k..];
    assert t == a + c;
    assert t + b == a + (c + b);
    ChunksSplitAtTerminator(a, c + b);
    ChunksSplitAtTerminator(a, c);
    assert (c + b)[1..] == b;
    assert c[1..] == [];
    assert MatchChunks([]) == [];
    var ca := MatchChunks(a);
    assert ca + [] == ca;
  }

  /**
   * The reasoning block ends with a line break, so by `ChunksAfterLineBreak`
   * the answer is cut into the same chunks with or without it.
   */
  lemma ThinkingBlockEndsLine()
    ensures |ThinkingBlock| > 0 && IsLineTerminator(ThinkingBlock[|ThinkingBlock| - 1])
  {
    assert ThinkingBlock[|ThinkingBlock| - 1] == "\n\n"[1];
  }

  /** With reasoning on, the stream is the block's chunks followed by exactly the chunks it has without reasoning. */
  lemma ReasoningChunks(prompt: Option<string>)
    ensures MatchChunks(ResponseText(prompt, true)) == MatchChunks(ThinkingBlock) + MatchChunks(ResponseText(prompt, false))
  {
    ThinkingBlockEndsLine();
    ChunksAfterLineBreak(ThinkingBlock, BaseResponse(prompt));
  }
}
