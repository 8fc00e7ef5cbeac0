/**
 * How the pieces meet: the pipeline's reasoning trace uses exactly the
 * header format the reasoning panel recognises, and the `<thinking>` wrapper
 * of the final message is not the `<think>` tag the reasoning extraction
 * looks for.
 */
module TraceFormat {
  import opened Strings
  import opened UIMessages
  import A = Agents
  import O = Orchestrator
  import R = ReasoningUtils
  import M = MessageReasoning

  /** Every agent's name is one the panel colours, and a trace heading is its header and a space. */
  lemma AgentNamesAreRecognised()
    ensures forall i :: 0 <= i < |A.AllAgents| ==>
      A.AllAgents[i].name in M.AgentTypes && M.GetAgentColorClass(A.AllAgents[i].name) != ""
    ensures forall n :: O.TraceHeading(n) == M.HeaderMarkup(n) + " "
  {
    forall n ensures O.TraceHeading(n) == M.HeaderMarkup(n) + " " {
      assert "**" + n + ":** " == ("**" + n + ":**") + " ";
    }
    forall i | 0 <= i < |A.AllAgents|
      ensures A.AllAgents[i].name in M.AgentTypes && M.GetAgentColorClass(A.AllAgents[i].name) != ""
    {
      M.ColorClassSpec(A.AllAgents[i].name, "");
    }
  }

  /** The tail of a trace entry after its heading's `**Name:**`, up to the next heading. */
  function EntryTail(content: string, last: bool): string
  {
    " " + Trim(content) + (if last then "" else "\n\n")
  }

  /** The trace text regrouped as header, tail, header, tail, header, tail. */
  lemma RegroupTrace(h1: string, h2: string, h3: string, x1: string, x2: string, x3: string)
    ensures (h1 + " " + x1) + "\n\n" + (h2 + " " + x2) + "\n\n" + (h3 + " " + x3)
      == h1 + ((" " + x1 + "\n\n") + (h2 + ((" " + x2 + "\n\n") + (h3 + (" " + x3 + "")))))
  {
  }

  /** The trace of the first three stages, as headers and entry tails. */
  lemma TraceAsHeadersAndTails(analysis: string, proposal: string, critique: string)
    ensures O.ReasoningMarkdown([O.AgentOutput("analyst", analysis),
        O.AgentOutput("expert", proposal), O.AgentOutput("critic", critique)])
      == M.HeaderMarkup("Analista") + (EntryTail(analysis, false)
         + (M.HeaderMarkup("Especialista") + (EntryTail(proposal, false)
         + (M.HeaderMarkup("Crítico") + EntryTail(critique, true)))))
  {
    O.ReasoningMarkdownOfStages(analysis, proposal, critique);
    AgentNamesAreRecognised();
    var h1, h2, h3 := M.HeaderMarkup("Analista"), M.HeaderMarkup("Especialista"), M.HeaderMarkup("Crítico");
    RegroupTrace(h1, h2, h3, Trim(analysis), Trim(proposal), Trim(critique));
    assert O.TraceHeading("Analista") == h1 + " ";
    assert O.TraceHeading("Especialista") == h2 + " ";
    assert O.TraceHeading("Crítico") == h3 + " ";
  }

  /** Three headers, each followed by text in which no header starts, are wrapped in turn. */
  lemma EnhanceThreeHeaders(g1: string, g2: string, g3: string)
    requires M.PlainBefore(g1, M.HeaderMarkup("Especialista") + (g2 + (M.HeaderMarkup("Crítico") + g3)))
    requires M.PlainBefore(g2, M.HeaderMarkup("Crítico") + g3)
    requires M.PlainBefore(g3, "")
    ensures M.EnhanceAgentFormatting(M.HeaderMarkup("Analista") + (g1
         + (M.HeaderMarkup("Especialista") + (g2 + (M.HeaderMarkup("Crítico") + g3)))))
      == M.HeaderDiv("Analista") + (g1 + (M.HeaderDiv("Especialista") + (g2 + (M.HeaderDiv("Crítico") + g3))))
  {
    var h2, h3 := M.HeaderMarkup("Especialista"), M.HeaderMarkup("Crítico");
    M.EnhanceHeader("Analista", g1 + (h2 + (g2 + (h3 + g3))));
    M.EnhanceKeepsPlainText(g1, h2 + (g2 + (h3 + g3)));
    M.EnhanceHeader("Especialista", g2 + (h3 + g3));
    M.EnhanceKeepsPlainText(g2, h3 + g3);
    M.EnhanceHeader("Crítico", g3);
    M.EnhanceKeepsPlainText(g3, "");
    assert g3 + "" == g3;
    assert M.EnhanceAgentFormatting("") == "";
  }

  /**
   * A header cannot start inside an entry tail whose text holds none: it
   * would have to run into the blank line after the text, and a header lies
   * on one line.
   */
  lemma NoOccurrenceInTail(h: string, x: string, t: string, j: int, sep: string, rest: string, i: int)
    requires |h| > 0 && h[0] == '*' && '\n' !in h
    requires !Includes(x, h)
    requires 0 <= j && j + |t| <= |x| && x[j..j + |t|] == t
    requires sep == "\n\n" || (sep == "" && rest == "")
    requires 0 <= i < 1 + |t| + |sep|
    ensures !OccursAt(h, " " + t + sep + rest, i)
  {
    var s := " " + t + sep + rest;
    assert s == " " + t + (sep + rest);
    if i + |h| <= |s| {
      if i == 0 {
        assert s[i..i + |h|][0] == ' ';
      } else if i - 1 + |h| <= |t| {
        // a window inside the entry's text
        OccursWithin(h, " ", t, sep + rest, i - 1);
        OccursInInfix(h, x, j, t, i - 1);
        NotIncludes(x, h, j + i - 1);
      } else if sep == "\n\n" {
        // a window reaching the blank line after the text
        var w := s[i..i + |h|];
        if i <= |t| + 1 {
          assert w[|t| + 1 - i] == s[|t| + 1] == '\n';
        } else {
          assert w[0] == s[|t| + 2] == '\n';
        }
      }
    }
  }

  /** No header starts inside the tail of an entry whose text holds none. */
  lemma TailPlainBefore(x: string, last: bool, rest: string)
    requires M.NoHeader(x) && (last ==> rest == "")
    ensures M.PlainBefore(EntryTail(x, last), rest)
  {
    var t := Trim(x);
    TrimSpec(x);
    var j :| TrimmedAt(x, t, j);
    var sep := if last then "" else "\n\n";
    var g := EntryTail(x, last);
    assert g == " " + t + sep;
    forall i | 0 <= i < |g| ensures M.HeaderAmong(M.AgentTypes, (g + rest)[i..]).None? {
      forall n | n in M.AgentTypes ensures !OccursAt(M.HeaderMarkup(n), g + rest, i) {
        M.HeaderOnOneLine(n);
        NoOccurrenceInTail(M.HeaderMarkup(n), x, t, j, sep, rest, i);
      }
      M.NoHeaderAmongAt(g + rest, i);
    }
  }

  /**
   * Formatting the trace of the first three stages wraps each of the three
   * headings and keeps the stage texts verbatim, `*` and all, provided no
   * agent's header occurs in a stage's output.
   */
  lemma EnhancedSwarmTrace(analysis: string, proposal: string, critique: string)
    requires M.NoHeader(analysis) && M.NoHeader(proposal) && M.NoHeader(critique)
    ensures M.EnhanceAgentFormatting(O.ReasoningMarkdown([O.AgentOutput("analyst", analysis),
        O.AgentOutput("expert", proposal), O.AgentOutput("critic", critique)]))
      == M.HeaderDiv("Analista") + (EntryTail(analysis, false)
         + (M.HeaderDiv("Especialista") + (EntryTail(proposal, false)
         + (M.HeaderDiv("Crítico") + EntryTail(critique, true)))))
  {
    var h2, h3 := M.HeaderMarkup("Especialista"), M.HeaderMarkup("Crítico");
    var g1, g2, g3 := EntryTail(analysis, false), EntryTail(proposal, false), EntryTail(critique, true);
    TraceAsHeadersAndTails(analysis, proposal, critique);
    TailPlainBefore(analysis, false, h2 + (g2 + (h3 + g3)));
    TailPlainBefore(proposal, false, h3 + g3);
    TailPlainBefore(critique, true, "");
    EnhanceThreeHeaders(g1, g2, g3);
  }

  /**
   * The final message wraps the trace in `<thinking>`, which the `<think>`
   * pattern does not match: when neither the trace nor the answer holds a
   * `<think>` tag, extracting reasoning from that message as plain content
   * finds none.
   */
  lemma SwarmMessageHasNoThinkBlock(output: O.SwarmOutput)
    requires !Includes(output.reasoningMarkdown, R.OpenTag) && !Includes(output.responseText, R.OpenTag)
    ensures !Includes(O.CreateSwarmMessage(output), R.OpenTag)
    ensures R.ExtractReasoningFromMessage(Message(Assistant, Text(O.CreateSwarmMessage(output)), None)) == None
  {
    var md, rt := output.reasoningMarkdown, output.responseText;
    var s := O.CreateSwarmMessage(output);
    assert s == "<thinking>\n" + md + "\n</thinking>\n\n" + rt;
    forall p | 0 <= p && p + 7 <= |s|
      ensures !OccursAt(R.OpenTag, s, p)
    {
      NoOpenTagInWrapped(md, rt, p);
    }
    R.ExtractReasoningSpec(Message(Assistant, Text(s), None));
  }

  /** No window of the wrapped message is an opening tag. */
  lemma NoOpenTagInWrapped(md: string, rt: string, p: int)
    requires !Includes(md, R.OpenTag) && !Includes(rt, R.OpenTag)
    ensures !OccursAt(R.OpenTag, "<thinking>\n" + md + "\n</thinking>\n\n" + rt, p)
  {
    var open, close := "<thinking>\n", "\n</thinking>\n\n";
    var s := open + md + close + rt;
    var c := |open| + |md|;
    Regroup(open + md, close, rt);
    Regroup(md, close, rt);
    Regroup(open, md, close + rt);
    if 0 <= p && p + 7 <= |s| {
      if p < |open| {
        NoTagFromOpening(md + close + rt, p);
      } else if p + 7 <= c {
        // a window inside the trace
        OccursWithin(R.OpenTag, open, md, close + rt, p - |open|);
        NotIncludes(md, R.OpenTag, p - |open|);
      } else if p <= c {
        NoTagReachingBreak(open + md, close + rt, p);
      } else if p < c + |close| {
        NoTagFromClosing(open + md, rt, p - c);
      } else {
        // a window inside the answer
        OccursWithin(R.OpenTag, open + md + close, rt, "", p - c - |close|);
        assert s + "" == s;
        NotIncludes(rt, R.OpenTag, p - c - |close|);
      }
    }
  }

  /** No opening tag starts in the `<thinking>` line. */
  lemma NoTagFromOpening(x: string, p: int)
    requires 0 <= p < 11
    ensures !OccursAt(R.OpenTag, "<thinking>\n" + x, p)
  {
    var s := "<thinking>\n" + x;
    if p + 7 <= |s| {
      var w := s[p..p + 7];
      if p == 0 {
        // `<thinking` has `i` where the tag has `>`
        assert w[6] == s[6] == 'i';
      } else {
        assert w[0] == s[p] == "<thinking>\n"[p];
      }
    }
  }

  /** No opening tag starts in the `</thinking>` line or the blank line after it. */
  lemma NoTagFromClosing(y: string, x: string, q: int)
    requires 0 <= q < 14
    ensures !OccursAt(R.OpenTag, y + "\n</thinking>\n\n" + x, |y| + q)
  {
    var close := "\n</thinking>\n\n";
    var s := y + close + x;
    var p := |y| + q;
    if p + 7 <= |s| {
      var w := s[p..p + 7];
      if q == 1 {
        assert w[1] == s[p + 1] == close[2] == '/';
      } else {
        assert w[0] == s[p] == close[q];
      }
    }
  }

  /** A window that reaches a line break is not an opening tag. */
  lemma NoTagReachingBreak(y: string, z: string, p: int)
    requires |z| > 0 && z[0] == '\n' && 0 <= p <= |y| < p + 7
    ensures !OccursAt(R.OpenTag, y + z, p)
  {
    var s := y + z;
    if p + 7 <= |s| {
      assert s[p..p + 7][|y| - p] == s[|y|] == '\n';
    }
  }
}
