/**
 * The formatting that the reasoning panel applies to a reasoning trace before
 * rendering it as Markdown: every `**Name:**` header of one of the four agent
 * names is wrapped in a coloured `agent-header` block.
 */
module MessageReasoning {
  import opened Strings

  /** The agent names the panel recognises, in the order the pattern tries them. */
  const AgentTypes: seq<string> := ["Analista", "Especialista", "Crítico", "Consolidador"]

  /** `getAgentColorClass`: the colour class of a recognised name, `""` for any other. */
  function GetAgentColorClass(name: string): string
  {
    if name == "Analista" then "text-blue-600 dark:text-blue-400"
    else if name == "Especialista" then "text-green-600 dark:text-green-400"
    else if name == "Crítico" then "text-amber-600 dark:text-amber-400"
    else if name == "Consolidador" then "text-purple-600 dark:text-purple-400"
    else ""
  }

  /** The Markdown header the trace uses for an agent. */
  function HeaderMarkup(name: string): string
  {
    "**" + name + ":**"
  }

  function DivOpen(name: string): string
  {
    "<div class=\"agent-header " + GetAgentColorClass(name) + "\">"
  }

  /** The replacement of a recognised header. */
  function HeaderDiv(name: string): string
  {
    DivOpen(name) + HeaderMarkup(name) + "</div>"
  }

  /** The first of `names` whose header starts `s`, as the pattern's alternation picks it. */
  function HeaderAmong(names: seq<string>, s: string): (r: Option<string>)
    ensures r.Some? ==> r.value in names && OccursAt(HeaderMarkup(r.value), s, 0)
    ensures r.None? ==> forall n :: n in names ==> !OccursAt(HeaderMarkup(n), s, 0)
    decreases |names|
  {
    if |names| == 0 then None
    else if OccursAt(HeaderMarkup(names[0]), s, 0) then Some(names[0])
    else HeaderAmong(names[1..], s)
  }

  /**
   * `enhanceAgentFormatting`: one left-to-right pass that replaces each
   * recognised header and resumes after it, so a replacement is never
   * rescanned.
   */
  function EnhanceAgentFormatting(s: string): string
    decreases |s|
  {
    if |s| == 0 then ""
    else match HeaderAmong(AgentTypes, s)
      case Some(n) => HeaderDiv(n) + EnhanceAgentFormatting(s[|HeaderMarkup(n)|..])
      case None => [s[0]] + EnhanceAgentFormatting(s[1..])
  }

  /** `reasoning ? enhanceAgentFormatting(reasoning) : ''` for an optional reasoning. */
  function EnhancedReasoning(reasoning: Option<string>): string
  {
    if reasoning.Some? && reasoning.value != "" then EnhanceAgentFormatting(reasoning.value) else ""
  }

  /** Exactly the four agent names have a colour class, and no two share one. */
  lemma ColorClassSpec(name: string, other: string)
    ensures GetAgentColorClass(name) != "" <==> name in AgentTypes
    ensures name in AgentTypes && other in AgentTypes && name != other
      ==> GetAgentColorClass(name) != GetAgentColorClass(other)
  {
  }

  /** Every header begins with `*`, so text starting otherwise starts with none. */
  lemma NoHeaderWithoutStar(names: seq<string>, s: string)
    requires |s| > 0 && s[0] != '*'
    ensures HeaderAmong(names, s) == None
  {
    forall n ensures !OccursAt(HeaderMarkup(n), s, 0) {
      var m := HeaderMarkup(n);
      if |m| <= |s| {
        assert s[..|m|][0] == s[0] != m[0];
      }
    }
  }

  /** A first character other than `*` is copied and the pass moves on by one. */
  lemma EnhanceCopiesPlainChar(s: string)
    requires |s| > 0 && s[0] != '*'
    ensures EnhanceAgentFormatting(s) == [s[0]] + EnhanceAgentFormatting(s[1..])
  {
    NoHeaderWithoutStar(AgentTypes, s);
  }

  /** Text holding no `*` is copied unchanged, and the pass continues after it. */
  lemma {:induction false} EnhanceStarFree(a: string, b: string)
    requires '*' !in a
    ensures EnhanceAgentFormatting(a + b) == a + EnhanceAgentFormatting(b)
    decreases |a|
  {
    if |a| == 0 {
      assert a + b == b;
    } else {
      var s := a + b;
      assert s[0] == a[0] && s[1..] == a[1..] + b;
      EnhanceCopiesPlainChar(s);
      EnhanceStarFree(a[1..], b);
      Regroup([a[0]], a[1..], EnhanceAgentFormatting(b));
      assert [a[0]] + a[1..] == a;
    }
  }

  /** No recognised header starts inside `a` when `b` follows it. */
  predicate PlainBefore(a: string, b: string)
  {
    forall i :: 0 <= i < |a| ==> HeaderAmong(AgentTypes, (a + b)[i..]).None?
  }

  /** Where no agent's header occurs, the alternation matches nothing. */
  lemma NoHeaderAmongAt(s: string, i: int)
    requires 0 <= i <= |s|
    requires forall n :: n in AgentTypes ==> !OccursAt(HeaderMarkup(n), s, i)
    ensures HeaderAmong(AgentTypes, s[i..]).None?
  {
    forall n | n in AgentTypes ensures !OccursAt(HeaderMarkup(n), s[i..], 0) {
      OccursInSuffix(HeaderMarkup(n), s, i, 0);
    }
  }

  /** Plain text before `b` starts without a header and stays plain after its first character. */
  lemma PlainBeforeSteps(a: string, b: string)
    requires |a| > 0 && PlainBefore(a, b)
    ensures HeaderAmong(AgentTypes, a + b).None?
    ensures (a + b)[0] == a[0] && (a + b)[1..] == a[1..] + b
    ensures PlainBefore(a[1..], b)
  {
    var s := a + b;
    assert s[0..] == s;
    assert s[1..] == a[1..] + b;
    forall i | 0 <= i < |a[1..]| ensures HeaderAmong(AgentTypes, (a[1..] + b)[i..]).None? {
      assert (a[1..] + b)[i..] == s[i + 1..];
    }
  }

  /** Where no header is recognised, the first character is copied and the pass moves on by one. */
  lemma EnhanceNoHeaderStep(s: string)
    requires |s| > 0 && HeaderAmong(AgentTypes, s).None?
    ensures EnhanceAgentFormatting(s) == [s[0]] + EnhanceAgentFormatting(s[1..])
  {
  }

  /**
   * Text in which no recognised header starts is copied verbatim and in
   * order, whatever `*` it holds, and the pass continues after it.
   */
  lemma {:induction false} EnhanceKeepsPlainText(a: string, b: string)
    requires PlainBefore(a, b)
    ensures EnhanceAgentFormatting(a + b) == a + EnhanceAgentFormatting(b)
    decreases |a|
  {
    if |a| == 0 {
      assert a + b == b;
    } else {
      var s := a + b;
      PlainBeforeSteps(a, b);
      EnhanceNoHeaderStep(s);
      EnhanceKeepsPlainText(a[1..], b);
      Regroup([a[0]], a[1..], EnhanceAgentFormatting(b));
      assert [a[0]] + a[1..] == a;
    }
  }

  /** A recognised header at the front is recognised as its own name. */
  lemma HeaderRecognised(name: string, b: string)
    requires name in AgentTypes
    ensures HeaderAmong(AgentTypes, HeaderMarkup(name) + b) == Some(name)
  {
    var s := HeaderMarkup(name) + b;
    OccursInMiddle([], HeaderMarkup(name), b);
    assert [] + HeaderMarkup(name) + b == s;
    forall m | m in AgentTypes && m != name
      ensures !OccursAt(HeaderMarkup(m), s, 0)
    {
      // the four names already differ in their first or second letter
      var h := HeaderMarkup(m);
      assert m[0] != name[0] || m[1] != name[1];
      assert s[2] == name[0] && s[3] == name[1];
      assert h[2] == m[0] && h[3] == m[1];
      if |h| <= |s| {
        assert s[..|h|][2] == s[2] && s[..|h|][3] == s[3];
      }
    }
  }

  /** A recognised header at the front is replaced, and the pass resumes after it. */
  lemma EnhanceHeader(name: string, b: string)
    requires name in AgentTypes
    ensures EnhanceAgentFormatting(HeaderMarkup(name) + b) == HeaderDiv(name) + EnhanceAgentFormatting(b)
  {
    var s := HeaderMarkup(name) + b;
    HeaderRecognised(name, b);
    assert s[|HeaderMarkup(name)|..] == b;
  }

  /** `s` holds no recognised header anywhere. */
  predicate NoHeader(s: string)
  {
    forall n :: n in AgentTypes ==> !Includes(s, HeaderMarkup(n))
  }

  /** A header starts with `*` and lies on one line. */
  lemma HeaderOnOneLine(name: string)
    requires name in AgentTypes
    ensures |HeaderMarkup(name)| > 0 && HeaderMarkup(name)[0] == '*' && '\n' !in HeaderMarkup(name)
  {
    assert '\n' !in name;
  }

  /** Text without `*` holds no header. */
  lemma StarFreeHasNoHeader(s: string)
    requires '*' !in s
    ensures NoHeader(s)
  {
    forall n | n in AgentTypes ensures !Includes(s, HeaderMarkup(n)) {
      var h := HeaderMarkup(n);
      forall k | 0 <= k && k + |h| <= |s| ensures !OccursAt(h, s, k) {
        assert s[k..k + |h|][0] == s[k];
      }
    }
  }

  /** Text with no recognised header is returned unchanged. */
  lemma {:induction false} EnhanceWithoutHeader(s: string)
    requires NoHeader(s)
    ensures EnhanceAgentFormatting(s) == s
    decreases |s|
  {
    if |s| > 0 {
      forall n | n in AgentTypes ensures !OccursAt(HeaderMarkup(n), s, 0) {
        NotIncludes(s, HeaderMarkup(n), 0);
      }
      assert HeaderAmong(AgentTypes, s).None?;
      forall n | n in AgentTypes ensures !Includes(s[1..], HeaderMarkup(n)) {
        if Includes(s[1..], HeaderMarkup(n)) {
          var k := IndexOf(s[1..], HeaderMarkup(n)).value;
          OccursAtShift(HeaderMarkup(n), s, k);
        }
      }
      EnhanceWithoutHeader(s[1..]);
      assert [s[0]] + s[1..] == s;
    }
  }

  /** A header with an unrecognised name is left as it is. */
  lemma OtherNameUnchanged()
    ensures EnhanceAgentFormatting("**Outro:**") == "**Outro:**"
  {
    var s := "**Outro:**";
    forall n | n in AgentTypes ensures !Includes(s, HeaderMarkup(n)) {
      assert |HeaderMarkup(n)| > |s|;
    }
    EnhanceWithoutHeader(s);
  }

  /** No colour class holds a `*`. */
  lemma ColorClassStarFree(name: string)
    ensures '*' !in GetAgentColorClass(name)
  {
    if name == "Analista" {
      assert '*' !in "text-blue-600 dark:text-blue-400";
    } else if name == "Especialista" {
      assert '*' !in "text-green-600 dark:text-green-400";
    } else if name == "Crítico" {
      assert '*' !in "text-amber-600 dark:text-amber-400";
    } else if name == "Consolidador" {
      assert '*' !in "text-purple-600 dark:text-purple-400";
    }
  }

  /** The opening of a replacement holds no `*`, so a second pass copies it. */
  lemma DivOpenStarFree(name: string)
    ensures '*' !in DivOpen(name)
  {
    ColorClassStarFree(name);
    var c := GetAgentColorClass(name);
    assert '*' !in "<div class=\"agent-header ";
    assert '*' !in "\">";
    assert DivOpen(name) == "<div class=\"agent-header " + c + "\">";
  }

  /** A lone recognised header becomes its replacement. */
  lemma EnhanceLoneHeader(name: string)
    requires name in AgentTypes
    ensures EnhanceAgentFormatting(HeaderMarkup(name)) == HeaderDiv(name)
  {
    EnhanceHeader(name, "");
    assert HeaderMarkup(name) + "" == HeaderMarkup(name);
    assert HeaderDiv(name) + EnhanceAgentFormatting("") == HeaderDiv(name);
  }

  /** A header followed by the closing tag of its replacement. */
  lemma EnhanceHeaderThenClose(name: string)
    requires name in AgentTypes
    ensures EnhanceAgentFormatting(HeaderMarkup(name) + "</div>") == HeaderDiv(name) + "</div>"
  {
    EnhanceHeader(name, "</div>");
    EnhanceCloseTag();
  }

  lemma EnhanceCloseTag()
    ensures EnhanceAgentFormatting("</div>") == "</div>"
  {
    EnhanceStarFree("</div>", "");
    assert "</div>" + "" == "</div>";
    assert "</div>" + EnhanceAgentFormatting("") == "</div>";
  }

  /**
   * The pass is not idempotent: formatting an already formatted header wraps
   * it a second time.
   */
  lemma EnhanceTwiceWrapsTwice(name: string)
    requires name in AgentTypes
    ensures EnhanceAgentFormatting(EnhanceAgentFormatting(HeaderMarkup(name)))
      == DivOpen(name) + HeaderDiv(name) + "</div>"
    ensures EnhanceAgentFormatting(EnhanceAgentFormatting(HeaderMarkup(name)))
      != EnhanceAgentFormatting(HeaderMarkup(name))
  {
    EnhanceLoneHeader(name);
    DivOpenStarFree(name);
    Regroup(DivOpen(name), HeaderMarkup(name), "</div>");
    EnhanceStarFree(DivOpen(name), HeaderMarkup(name) + "</div>");
    EnhanceHeaderThenClose(name);
    Regroup(DivOpen(name), HeaderDiv(name), "</div>");
  }

  /** An empty or absent reasoning is shown as the empty text. */
  lemma EnhancedReasoningOfNothing(reasoning: Option<string>)
    ensures reasoning.None? || reasoning == Some("") ==> EnhancedReasoning(reasoning) == ""
    ensures reasoning.Some? && reasoning.value != "" ==>
      EnhancedReasoning(reasoning) == EnhanceAgentFormatting(reasoning.value)
  {
  }
}
