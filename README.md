# Multi-agent answer pipeline of soluto-ai, modelled in Dafny

This project models the parts of the soluto-ai chat back end and UI that turn a
user question into a collaboratively reasoned answer, and proves what they
promise.

- **The swarm pipeline** (`lib/ai/swarm/orchestrator.ts`, `lib/ai/swarm/agents.ts`)
  - It validates the conversation and renders earlier messages into a transcript.
  - It runs four agents strictly in sequence: Analista, Especialista, Crítico and Consolidador.
  - Each agent's text is threaded into the next agent's input.
  - A model call that is rejected with an error message, including a timeout, becomes a fallback text that names the agent.
  - It builds the `**Nome:** texto` reasoning trace from the first three stages.
  - It builds the `<thinking>`-wrapped final message.
- **Reasoning extraction** (`lib/reasoning-utils.ts`): a message's reasoning is its `reasoning` field if that is truthy. Otherwise it is the inner texts of the `<think>…</think>` blocks of a string content, joined by blank lines.
- **Agent-header formatting** in the reasoning panel (`components/message-reasoning.tsx`): every `**Analista:**`, `**Especialista:**`, `**Crítico:**` or `**Consolidador:**` header is wrapped in a coloured `agent-header` block, in one left-to-right pass.
- **The simulated streaming response** of the prompt tests (`tests/prompts/utils.ts`):
  - it picks an answer by keywords of the prompt;
  - it optionally puts a `<thinking>` block in front;
  - it cuts the text into chunks the way `/.{1,20}/g` does;
  - it appends one `finish` chunk.

Files and modules:

| file | module | models |
|---|---|---|
| `strings.dfy` | `Strings` | The JavaScript string operations used: `join`, `indexOf`/`includes`, `trim` with the ECMAScript whitespace set, and the decimal rendering of a number in a template literal. |
| `ui_message.dfy` | `UIMessages` | The message shape: role, content (string, array of parts, or other value) and the optional `reasoning` field. |
| `agents.dfy` | `Agents` | The agent record, the four agents, `AGENTS`, `AGENT_IDS`, and `AGENTS.find` by id. |
| `orchestrator.dfy` | `Orchestrator` | `getMessageContent`, `executeAgent`, `runSwarmOrchestration` and `createSwarmMessage`. |
| `reasoning_utils.dfy` | `ReasoningUtils` | `extractReasoningFromMessage`, `hasReasoning` and `isAssistantMessageWithReasoning`. |
| `message_reasoning.dfy` | `MessageReasoning` | `enhanceAgentFormatting`, `getAgentColorClass` and the `reasoning ? … : ''` guard. |
| `prompt_chunks.dfy` | `PromptChunks` | `getResponseChunksByPrompt`. |
| `trace_format.dfy` | `TraceFormat` | How the trace the pipeline writes meets the panel's formatter and the reasoning extractor. |

The language-model call is a function parameter `complete: ModelRequest -> ModelOutcome`. It answers each request with either the model's content (`Completed`) or a rejection message (`Rejected`). `runSwarmOrchestration` is a method, and like the source it appends each stage's output to a local `agentOutputs` sequence. Its ghost out-parameter `calls` records the requests sent to the model, in order. Its contract states:

- when the input is refused;
- the four requests, in order, with their inputs;
- that only the fourth request carries tools;
- the answer and the trace.

The response selection of the prompt tests is an `if`/`else` chain that reassigns `responseText`, as `getResponseChunksByPrompt` does. The final `finish` chunk is appended to the chunk sequence.

What the code does, where a reader might expect otherwise:

- `executeAgent` returns a plain string. It does not classify a stage as completed, timed out or failed; a rejection becomes a fallback text.
- `agentOutputs` holds three entries: Analyst, Expert and Critic. The Consolidator's text is returned as `responseText` and is not stored there.
- `responseText` is the Consolidator's content verbatim. It is empty when the model completes with empty content, so the model does not claim that the answer is non-empty.

A property proved across files (`TraceFormat.SwarmMessageHasNoThinkBlock`): the final message wraps the trace in `<thinking>`, and `extractReasoningFromMessage` looks for `<think>`. So when neither the trace nor the answer contains `<think>`, the saved final message, read back as plain content, yields no reasoning. The chat route streams the trace separately as reasoning data.

## Model

| member | source | states |
|---|---|---|
| `Strings.IndexOf` | lib/ai/swarm/orchestrator.ts:85 | `indexOf`: a returned index is an occurrence and no earlier index is one; no result means no occurrence anywhere. `includes` is defined from it. |
| `Strings.TrimSpec` | lib/ai/swarm/orchestrator.ts:228 | `trim()` yields the infix left after removing only whitespace on both sides, and the result neither starts nor ends with whitespace. |
| `Strings.ParseNatToString` | lib/ai/swarm/orchestrator.ts:70 | The decimal rendering of a number used in a template literal reads back as the same number. |
| `Strings.NatToStringInjective` | tests/prompts/utils.ts:35 | Different numbers render differently. |
| `Orchestrator.ErrorMessagesDistinct` | lib/ai/swarm/orchestrator.ts:103-109 | The two refusals throw non-empty messages that differ from each other. |
| `Agents.Ids` | lib/ai/swarm/agents.ts:98 | `AGENTS.map(a => a.id)`: same length, and entry i is the id of agent i. |
| `Agents.FindById` | lib/ai/swarm/orchestrator.ts:227 | `AGENTS.find(a => a.id === id)`: absent exactly when no agent has the id; otherwise the first agent with that id. |
| `Agents.AgentIdsInOrder` | lib/ai/swarm/agents.ts:97-98 | `AGENT_IDS` is `['analyst','expert','critic','consolidator']` in this order. |
| `Agents.AgentIdsDistinct` | lib/ai/swarm/agents.ts:98 | The agent ids are pairwise distinct. |
| `Agents.FindByIdFindsAgent` | lib/ai/swarm/orchestrator.ts:227 | Looking up any agent by its own id finds exactly that agent. |
| `Agents.AgentNames` | lib/ai/swarm/agents.ts:97 | The names in order are Analista, Especialista, Crítico, Consolidador, and they are pairwise distinct. |
| `Agents.OnlyConsolidatorUsesTools` | lib/ai/swarm/agents.ts:93-97 | Only the Consolidator has `usesTool`, and it is the last agent. |
| `Orchestrator.PartTexts` | lib/ai/swarm/orchestrator.ts:36-40 | One text per array element, in order. |
| `Orchestrator.GetMessageContent` | lib/ai/swarm/orchestrator.ts:30-44 | String content is returned unchanged; a value that is neither string nor array gives its serialized form. |
| `Orchestrator.PartsContent` | lib/ai/swarm/orchestrator.ts:35-41 | Array content: an empty array gives `""`, a single element gives its own text, and each further element adds one space and its text. A bare string element gives itself, a text part gives its text, and any other part gives `[type content]`. |
| `Orchestrator.JoinAppend` | lib/ai/swarm/orchestrator.ts:41 | `join` of one more part appends the separator and that part. |
| `Orchestrator.RenderTurns` | lib/ai/swarm/orchestrator.ts:116-119 | One `Usuário:`/`Assistente:`-labelled line per earlier message, in order. |
| `Orchestrator.UserInputWithoutHistory` | lib/ai/swarm/orchestrator.ts:116-136 | The Analyst's input equals the user content exactly when there is no earlier message. Otherwise the transcript starts with the labelled first earlier message. |
| `Orchestrator.AgentRequest` | lib/ai/swarm/orchestrator.ts:62-78 | The system message is the agent's prompt, a blank line and the context. The user message is the stage input. Tools are passed exactly when the agent uses tools and tools were supplied. |
| `Orchestrator.ToolsOnlyForConsolidator` | lib/ai/swarm/orchestrator.ts:76 | Of the four agents, a request carries tools exactly for the Consolidator with tools supplied. |
| `Orchestrator.FallbacksNameAgent` | lib/ai/swarm/orchestrator.ts:85-89 | The timeout and generic fallback texts differ, and both name the agent. |
| `Orchestrator.ExecuteAgentNeverFails` | lib/ai/swarm/orchestrator.ts:67-90 | A stage always yields text. It is the model's content when the call completes. Otherwise it names the agent: the timeout text exactly when the error message contains `timed out`, the generic text exactly when it does not. |
| `Orchestrator.TimeoutReportedAsTimeout` | lib/ai/swarm/orchestrator.ts:69-87 | A rejection by the stage timer (`Agent X timed out after 20000ms`) yields the timeout fallback. |
| `Orchestrator.TimeoutErrorSaysTimedOut` | lib/ai/swarm/orchestrator.ts:70 | The stage timer's rejection message contains `timed out`. |
| `Orchestrator.ExpertInputCarries` | lib/ai/swarm/orchestrator.ts:155 | The Expert's input holds the user content and the Analyst's output, at the positions after their labels. |
| `Orchestrator.CriticInputCarries` | lib/ai/swarm/orchestrator.ts:171 | The Critic's input holds the user content and the Expert's output. |
| `Orchestrator.ConsolidatorInputCarries` | lib/ai/swarm/orchestrator.ts:207-210 | The Consolidator's input holds the user content and the three earlier outputs, in stage order and not overlapping. |
| `Orchestrator.TraceEntries` | lib/ai/swarm/orchestrator.ts:226-228 | One trace entry per agent output, in order. |
| `Orchestrator.TraceEntryOfAgent` | lib/ai/swarm/orchestrator.ts:227-228 | The entry of a known agent's output is `**Name:** ` followed by the trimmed output. |
| `Orchestrator.StageTraceEntries` | lib/ai/swarm/orchestrator.ts:226-228 | The three stage outputs give entries headed Analista, Especialista and Crítico. |
| `Orchestrator.ReasoningMarkdownOfStages` | lib/ai/swarm/orchestrator.ts:226-229 | The trace is the three headed, trimmed stage outputs, joined by blank lines, in stage order. |
| `Orchestrator.CreateSwarmMessage` | lib/ai/swarm/orchestrator.ts:245-247 | The final message is the `<thinking>` line, then the trace, then the `</thinking>` line and a blank line, then the answer, which ends the message; it is 25 characters longer than the trace and the answer together. |
| `Orchestrator.RunSwarmOrchestration` | lib/ai/swarm/orchestrator.ts:96-235 | The input is refused, with the matching error and before any model call, exactly when there are no messages or the last is not the user's. Otherwise exactly four requests are made in order. Each stage's input threads the earlier outputs. Only the fourth request carries tools. The answer is the Consolidator's text verbatim, and the trace is built from the three recorded outputs. |
| `ReasoningUtils.ThinkBlocks` | lib/reasoning-utils.ts:12-13 | Every extracted block is free of `</think>`: each block closes at the nearest following closing tag. |
| `ReasoningUtils.BlocksIffCompleteBlock` | lib/reasoning-utils.ts:12-15 | Some block is found exactly when an opening tag is followed, without overlap, by a closing tag. |
| `ReasoningUtils.BlocksOfLeadingBlock` | lib/reasoning-utils.ts:12-16 | Blocks are taken left to right without overlap. Text without an opening tag, then a block whose inner text (newlines included) has no closing tag, yields that inner text and then the blocks of the rest. |
| `ReasoningUtils.NoBlocksWithoutOpenTag` | lib/reasoning-utils.ts:12-20 | Text without `<think>` has no block. |
| `ReasoningUtils.ExtractReasoningSpec` | lib/reasoning-utils.ts:4-21 | A truthy `reasoning` is returned unchanged. Otherwise there is a result exactly when the content is a string holding a complete block, and it is the inner texts joined by `"\n\n"`. |
| `ReasoningUtils.EmptyReasoningFallsThrough` | lib/reasoning-utils.ts:6-8 | An empty `reasoning` string behaves as if the field were absent. |
| `ReasoningUtils.EmptyBlockYieldsEmptyString` | lib/reasoning-utils.ts:11-20 | `<think></think>` yields `""`, not the absence of reasoning. |
| `ReasoningUtils.HasReasoningSpec` | lib/reasoning-utils.ts:24-31 | `hasReasoning` and `isAssistantMessageWithReasoning` restated on the message itself, both directions. |
| `ReasoningUtils.ThinkingIsNotOpenTag` | lib/reasoning-utils.ts:12 | `<thinking>` contains no `<think>` opening tag. |
| `MessageReasoning.HeaderAmong` | components/message-reasoning.tsx:42 | The alternation picks a listed name whose `**Name:**` starts the text, or none when no listed name's header does. |
| `MessageReasoning.ColorClassSpec` | components/message-reasoning.tsx:51-58 | A name has a non-empty colour class exactly when it is one of the four agent names, and the four classes are pairwise distinct. |
| `MessageReasoning.EnhanceStarFree` | components/message-reasoning.tsx:41-47 | The special case of `EnhanceKeepsPlainText` for text without any `*`: it is copied verbatim and the pass continues after it. |
| `MessageReasoning.EnhanceKeepsPlainText` | components/message-reasoning.tsx:41-47 | Text in which no recognised header starts is copied verbatim and in order, whatever `*` it holds, and the pass continues after it. |
| `MessageReasoning.NoHeaderAmongAt` | components/message-reasoning.tsx:42 | Where no agent's `**Name:**` occurs, the alternation matches nothing. |
| `MessageReasoning.StarFreeHasNoHeader` | components/message-reasoning.tsx:42 | Text without `*` holds no recognised header. |
| `MessageReasoning.EnhanceHeader` | components/message-reasoning.tsx:41-47 | A recognised header is replaced by `<div class="agent-header CLASS">**Name:**</div>` and the pass resumes after it. |
| `MessageReasoning.EnhanceWithoutHeader` | components/message-reasoning.tsx:41-47 | Text with no recognised header is returned unchanged. |
| `MessageReasoning.OtherNameUnchanged` | components/message-reasoning.tsx:42 | `**Outro:**` is left unchanged. |
| `MessageReasoning.EnhanceLoneHeader` | components/message-reasoning.tsx:43-46 | A lone header becomes exactly its replacement. |
| `MessageReasoning.EnhanceTwiceWrapsTwice` | components/message-reasoning.tsx:41-47 | Formatting twice wraps the header a second time, so the pass is not idempotent. |
| `MessageReasoning.EnhancedReasoningOfNothing` | components/message-reasoning.tsx:62 | An absent or empty reasoning is shown as `''`; a non-empty one is formatted. |
| `PromptChunks.LeadingRun` | tests/prompts/utils.ts:55 | `.{1,20}` at a position takes the longest run of at most 20 characters without a line terminator. |
| `PromptChunks.MatchChunks` | tests/prompts/utils.ts:55 | Every chunk has 1 to 20 characters and no line terminator. |
| `PromptChunks.ConcatMatchChunks` | tests/prompts/utils.ts:55-61 | The chunks, concatenated, give the text with its line terminators removed. |
| `PromptChunks.LineChunks` | tests/prompts/utils.ts:55 | On a line without terminators, chunk i is the slice [20i, min(20i+20, n)), and there are ⌈n/20⌉ chunks. |
| `PromptChunks.LineChunkLengths` | tests/prompts/utils.ts:55 | Within a line every chunk except the last has exactly 20 characters. |
| `PromptChunks.ChunksSplitAtTerminator` | tests/prompts/utils.ts:55 | No chunk straddles a line terminator: the text on either side is cut independently. |
| `PromptChunks.ChunksAfterLineBreak` | tests/prompts/utils.ts:55 | Text ending in a line break is cut on its own, whatever follows it. |
| `PromptChunks.GetResponseChunksByPrompt` | tests/prompts/utils.ts:11-72 | The result is the `text-delta` chunks of the selected response followed by exactly one `finish` chunk with reason `stop`. Every delta has 1 to 20 characters and no line terminator, and the deltas concatenate to the response without its line terminators. |
| `PromptChunks.StreamOfText` | tests/prompts/utils.ts:55-69 | For any response text, the stream ends with the `finish` chunk, every earlier chunk is a delta of 1 to 20 characters without a line terminator, and the deltas concatenate to the text without its line terminators. |
| `PromptChunks.DefaultForEmptyPrompt` | tests/prompts/utils.ts:18-19 | A missing or empty prompt selects the default text. |
| `PromptChunks.ResponseChoice` | tests/prompts/utils.ts:20-36 | `weather`/`clima` selects the weather text even when code is also mentioned. `código`/`code` alone selects the code sample. Any other non-empty prompt selects the generic text for its length. |
| `PromptChunks.GenericTextReportsLength` | tests/prompts/utils.ts:34-36 | The generic text holds the prompt's length in decimal after its fixed opening, and it reads back as that length. |
| `PromptChunks.GenericTextInjective` | tests/prompts/utils.ts:34-36 | Prompts of different lengths get different generic texts. |
| `PromptChunks.ReasoningPrependsBlock` | tests/prompts/utils.ts:40-52 | With reasoning, the fixed `<thinking>` block comes first and the base text follows unchanged. |
| `PromptChunks.ThinkingBlockEndsLine` | tests/prompts/utils.ts:41-51 | The reasoning block ends with a line break. |
| `PromptChunks.ReasoningChunks` | tests/prompts/utils.ts:41-55 | With reasoning on, the chunks are the reasoning block's own chunks followed by exactly the chunks of the answer without reasoning. |
| `TraceFormat.AgentNamesAreRecognised` | components/message-reasoning.tsx:42 | Every agent name of the pipeline is one the panel colours, and a trace heading is exactly a panel header followed by a space. |
| `TraceFormat.TraceAsHeadersAndTails` | lib/ai/swarm/orchestrator.ts:226-229 | The three-stage trace is the panel headers of Analista, Especialista and Crítico, each followed by its stage's space-prefixed trimmed text. |
| `TraceFormat.TailPlainBefore` | components/message-reasoning.tsx:41-47 | No recognised header starts inside a trace entry's text when the stage output holds none: a header lies on one line and cannot run into the blank line after the entry. |
| `TraceFormat.EnhancedSwarmTrace` | components/message-reasoning.tsx:41-47 | Formatting the pipeline's trace wraps each of its three headings and keeps the stage texts verbatim, `*` included, provided no agent's `**Name:**` header occurs in a stage's output. |
| `TraceFormat.SwarmMessageHasNoThinkBlock` | lib/ai/swarm/orchestrator.ts:245-247 | The `<thinking>`-wrapped final message, read as plain content, holds no `<think>` tag and yields no extracted reasoning, provided neither the trace nor the answer contains `<think>`. |

## Left out

- The timeout race (`setTimeout`, `Promise.race`) is concurrency. The model call is an oracle returning content or a rejection message. Only the classification of a rejection into the two fallback texts is modelled, and the timer's own rejection message is shown to classify as a timeout.
- Model construction (`openai(...)`), provider wiring and the mock models are thin wrappers over external libraries.
- `getRequestPromptFromHints` lives in a module that is not part of this model. Its result is the `locationContext` parameter.
- Logging (`console.log`/`console.error`) has no effect on results.
- The outer `catch` that rethrows with a `Falha na orquestração do swarm:` prefix is not modelled. In the model nothing inside the `try` can fail, because the model call is total and its rejections always carry a message (see `Orchestrator.ExecuteAgentNeverFails` below).
- The four agent system prompts and the artifacts prompt are opaque string constants. No property depends on their wording.
- `JSON.stringify` of a content that is neither a string nor an array is not modelled. The `Other` content carries its serialized text.
- An array element that is neither a string nor an object with a string `type` (for example a text part without `text`) is not modelled.
- The `completionTokens: responseText.length / 4` field of the finish chunk is floating-point division. The finish chunk carries only `finishReason` and `promptTokens`.
- The React state, JSX, animation variants and styles of the reasoning panel are UI. So is all of `components/suggested-actions.tsx`.
- Strings are sequences of characters. Every literal involved lies in the Basic Multilingual Plane, where a character is one UTF-16 code unit. For text outside that plane, `length` counts and `.` matches differ between the model and JavaScript.
- `Orchestrator.ExecuteAgentNeverFails`: a rejection with no error object (`null` or `undefined`) is not modelled. The model's rejection always carries a message string. In the source, reading `.message` of such a rejection throws a `TypeError` inside the `catch` of `executeAgent`; that error escapes the stage and reaches the outer `catch`, which rethrows it.
- `Orchestrator.RunSwarmOrchestration`: the model call is a pure function of the request, so two identical requests get identical outcomes. In the running system they need not.
