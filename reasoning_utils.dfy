/**
 * Recovering the reasoning of a chat message: the `reasoning` field when a
 * middleware has set it, otherwise the inner texts of the `<think>…</think>`
 * blocks of a plain-string content, taken left to right the way a global
 * lazy regular-expression scan finds them.
 */
module ReasoningUtils {
  import opened Strings
  import opened UIMessages

  const OpenTag: string := "<think>"
  const CloseTag: string := "</think>"

  /**
   * The inner texts of the blocks of `s`: from the first opening tag to the
   * nearest closing tag after it, then the same on the rest of `s`. An
   * opening tag with no closing tag after it ends the scan.
   */
  function ThinkBlocks(s: string): (blocks: seq<string>)
    ensures forall i :: 0 <= i < |blocks| ==> !Includes(blocks[i], CloseTag)
    decreases |s|
  {
    match IndexOf(s, OpenTag)
    case None => []
    case Some(j) =>
      var rest := s[j + |OpenTag|..];
      match IndexOf(rest, CloseTag)
      case None => []
      case Some(k) =>
        var inner := rest[..k];
        assert !Includes(inner, CloseTag) by {
          if Includes(inner, CloseTag) {
            var p := IndexOf(inner, CloseTag).value;
            OccursInPrefix(CloseTag, rest, k, p);
          }
        }
        [inner] + ThinkBlocks(rest[k + |CloseTag|..])
  }

  /** `s` holds an opening tag followed, not overlapping, by a closing tag. */
  ghost predicate HasCompleteBlock(s: string)
  {
    exists i, j :: OccursAt(OpenTag, s, i) && OccursAt(CloseTag, s, j) && i + |OpenTag| <= j
  }

  /** At least one block is found exactly when some opening tag is later closed. */
  lemma BlocksIffCompleteBlock(s: string)
    ensures |ThinkBlocks(s)| > 0 <==> HasCompleteBlock(s)
  {
    var open := IndexOf(s, OpenTag);
    if open.None? {
      NoBlocksWithoutOpenTag(s);
    } else {
      var j := open.value;
      var close := IndexOf(s[j + |OpenTag|..], CloseTag);
      if close.Some? {
        BlocksStep(s, j, close.value);
        ClosedBlockFound(s, j, close.value);
      } else {
        UnclosedBlockEndsScan(s, j);
      }
    }
  }

  /** The first opening tag closed later gives a complete block. */
  lemma ClosedBlockFound(s: string, j: nat, k: nat)
    requires j + |OpenTag| <= |s| && OccursAt(OpenTag, s, j)
    requires OccursAt(CloseTag, s[j + |OpenTag|..], k)
    ensures HasCompleteBlock(s)
  {
    OccursInSuffix(CloseTag, s, j + |OpenTag|, k);
  }

  /** When the first opening tag is never closed, no opening tag is. */
  lemma UnclosedBlockEndsScan(s: string, j: nat)
    requires IndexOf(s, OpenTag) == Some(j)
    requires IndexOf(s[j + |OpenTag|..], CloseTag) == None
    ensures ThinkBlocks(s) == [] && !HasCompleteBlock(s)
  {
    if HasCompleteBlock(s) {
      var i, c :| OccursAt(OpenTag, s, i) && OccursAt(CloseTag, s, c) && i + |OpenTag| <= c;
      OccursInSuffix(CloseTag, s, j + |OpenTag|, c - j - |OpenTag|);
      assert false;
    }
  }

  /**
   * Blocks are taken left to right without overlap: text without an opening
   * tag, then a block whose inner text (newlines included) has no closing
   * tag, yields that inner text first and then the blocks of what follows.
   */
  lemma BlocksOfLeadingBlock(gap: string, inner: string, tail: string)
    requires !Includes(gap, OpenTag) && !Includes(inner, CloseTag)
    ensures ThinkBlocks(gap + OpenTag + inner + CloseTag + tail) == [inner] + ThinkBlocks(tail)
  {
    var s := gap + OpenTag + inner + CloseTag + tail;
    var rest := inner + CloseTag + tail;
    TagsStartOnce();
    assert s == gap + OpenTag + rest;
    FirstOccurrence(gap, OpenTag, rest);
    assert s[|gap| + |OpenTag|..] == rest;
    FirstOccurrence(inner, CloseTag, tail);
    assert rest[..|inner|] == inner;
    assert rest[|inner| + |CloseTag|..] == tail;
    BlocksStep(s, |gap|, |inner|);
  }

  /** Neither tag repeats its first character. */
  lemma TagsStartOnce()
    ensures forall k :: 1 <= k < |OpenTag| ==> OpenTag[k] != OpenTag[0]
    ensures forall k :: 1 <= k < |CloseTag| ==> CloseTag[k] != CloseTag[0]
  {
  }

  /** One step of the scan: the first block, then the blocks after it. */
  lemma BlocksStep(s: string, j: nat, k: nat)
    requires IndexOf(s, OpenTag) == Some(j)
    requires IndexOf(s[j + |OpenTag|..], CloseTag) == Some(k)
    ensures var rest := s[j + |OpenTag|..];
      ThinkBlocks(s) == [rest[..k]] + ThinkBlocks(rest[k + |CloseTag|..])
  {
  }

  /** Text without an opening tag holds no block. */
  lemma NoBlocksWithoutOpenTag(s: string)
    requires !Includes(s, OpenTag)
    ensures ThinkBlocks(s) == []
  {
  }

  /**
   * `extractReasoningFromMessage`: a truthy `reasoning` field as it is;
   * otherwise, for string content with at least one block, the inner texts
   * joined by blank lines; otherwise nothing.
   */
  function ExtractReasoningFromMessage(m: Message): Option<string>
  {
    if HasTruthyReasoning(m) then m.reasoning
    else if m.content.Text? && |ThinkBlocks(m.content.s)| > 0 then
      Some(Join("\n\n", ThinkBlocks(m.content.s)))
    else None
  }

  predicate HasReasoning(m: Message)
  {
    ExtractReasoningFromMessage(m) != None
  }

  predicate IsAssistantMessageWithReasoning(m: Message)
  {
    m.role == Assistant && HasReasoning(m)
  }

  /**
   * A truthy `reasoning` is returned unchanged without looking at the
   * content; otherwise there is a result exactly when the content is a string
   * holding a complete block, and it is the blocks' inner texts joined by
   * blank lines.
   */
  lemma ExtractReasoningSpec(m: Message)
    ensures HasTruthyReasoning(m) ==> ExtractReasoningFromMessage(m) == m.reasoning
    ensures !HasTruthyReasoning(m) ==>
      (ExtractReasoningFromMessage(m).Some? <==> m.content.Text? && HasCompleteBlock(m.content.s))
    ensures !HasTruthyReasoning(m) && m.content.Text? && HasCompleteBlock(m.content.s) ==>
      ExtractReasoningFromMessage(m) == Some(Join("\n\n", ThinkBlocks(m.content.s)))
  {
    if m.content.Text? {
      BlocksIffCompleteBlock(m.content.s);
    }
  }

  /** An empty `reasoning` string is falsy: extraction falls through to the content. */
  lemma EmptyReasoningFallsThrough(m: Message)
    requires m.reasoning == Some("")
    ensures ExtractReasoningFromMessage(m) == ExtractReasoningFromMessage(m.(reasoning := None))
  {
  }

  /** An empty block yields the empty string, not the absence of reasoning. */
  lemma EmptyBlockYieldsEmptyString(role: Role)
    ensures ExtractReasoningFromMessage(Message(role, Text("<think></think>"), None)) == Some("")
  {
    BlocksOfLeadingBlock("", "", "");
    assert "" + OpenTag + "" + CloseTag + "" == "<think></think>";
    assert ThinkBlocks("") == [];
  }

  /**
   * `hasReasoning` and `isAssistantMessageWithReasoning` stated on the
   * message itself rather than on the extraction result.
   */
  lemma HasReasoningSpec(m: Message)
    ensures HasReasoning(m) <==> HasTruthyReasoning(m) || (m.content.Text? && HasCompleteBlock(m.content.s))
    ensures IsAssistantMessageWithReasoning(m)
      <==> m.role == Assistant && (HasTruthyReasoning(m) || (m.content.Text? && HasCompleteBlock(m.content.s)))
  {
    ExtractReasoningSpec(m);
  }

  /** The `<thinking>` tag is not an opening tag: `>` must follow `think` directly. */
  lemma ThinkingIsNotOpenTag()
    ensures !Includes("<thinking>", OpenTag)
  {
    var s := "<thinking>";
    forall p ensures !OccursAt(OpenTag, s, p) {
      if 0 <= p <= |s| - 7 {
        // the window's first character is not `<` unless it starts the string,
        // and there the seventh is `i`, not `>`
        assert s[p..p + 7][0] == s[p] && s[p..p + 7][6] == s[p + 6];
      }
    }
  }
}
