# philosopher_agent: plan parsing, judge verdicts and the agent driver in Dafny

`app.py` runs a chain of language-model "agents" over a text:

1. A planner extracts open philosophical questions from the text.
2. For each question, a historical agent and a modernity agent answer it, a comparison agent contrasts the two answers, and a synthesis agent merges them.
3. An evaluation judge then re-checks the synthesis. A detail-analysis agent refines it until the judge approves.
4. A report aggregator turns the synthesis into a report. A feedback judge re-checks the report, and each time it rejects, the synthesis is refined again and a new report is aggregated.
5. The run returns one `{question, report}` record per question.

This project models the sequential logic around the model calls and proves properties of it:

- `text.dfy`, module `Text`: Python's `str.strip()`, `str.strip(chars)` and `str.splitlines()` on `seq<char>`.
  - The whitespace set is the one `str.isspace` uses.
  - The line-break set is the one `str.splitlines` uses, with `"\r\n"` treated as a single break.
- `comprehension.dfy`, module `Comprehension`: Python's filtered list comprehension `[f(x) for x in xs if keep(x)]`, with the facts that hold whatever `f` and `keep` are.
- `planner.dfy`, module `Planner`: the comprehension that turns the planner's answer into questions (app.py line 36).
- `judge.dfy`, module `Judge`: the verdict `"yes" in result.lower()` of the two judges (lines 97 and 136).
- `refinement.dfy`, module `Refinement`: the "judge, and refine until approved" loop that both loops of `run_agent_system` share.
- `pipeline.dfy`, module `Pipeline`: `run_agent_system` itself (lines 138-163).
- `wrappers.dfy`, module `Wrappers`: the `Option` type.

Every model stage is an oracle, a field of the `Stages` datatype. Each oracle takes a *call index* and the stage's inputs. The call index is the number of model-service calls the run made before that call. This lets the same prompt receive different answers at different times, as a sampled model does.

The loops have no attempt limit and no clock. Each loop therefore receives `fuel`, an upper bound on its judge calls. A result of `None` stands for a run that would still be looping. The driver's call indices are:

- the planning call is 0 and the first question starts at 1;
- for each question, the historical, modernity, comparison and synthesis calls come first;
- each synthesis round is an evaluation plus a refinement;
- the report aggregation follows;
- each feedback round is a feedback verdict plus a refinement plus a new aggregation.

## Model

| member | source | states |
|---|---|---|
| Text.Strip | app.py:36 | `s.strip(chars)`: the result has no stripped character at either end, and the input is the result surrounded by two runs of stripped characters |
| Text.StripIsUnique | app.py:36 | any split of a string into boundary runs around a core that neither starts nor ends with a stripped character gives exactly the strip result, so the result is the unique maximal strip |
| Text.StripIdempotent | app.py:36 | stripping a stripped string changes nothing |
| Text.StripEmptyIffAll | app.py:36 | `s.strip(chars)` is empty exactly when every character of `s` is in `chars` |
| Text.Trim | app.py:36 | `s.strip()` has no whitespace at either end, and the input is the result surrounded by two whitespace-only runs |
| Text.TrimEmptyIffBlank | app.py:36 | the filter `if line.strip()` keeps exactly the lines that are not whitespace-only |
| Text.SplitLines | app.py:36 | `splitlines()` gives no lines for the empty text, at least one otherwise, and no line contains a line break |
| Text.SplitLinesAtBreak | app.py:36 | `splitlines()` ends the first line at the first single-character line break, drops the break and goes on after it; a final break opens no further line |
| Text.SplitLinesAtCrLf | app.py:36 | `"\r\n"` ends a line as one break, and both characters are dropped |
| Text.SplitLinesInText | app.py:36 | every line `splitlines()` yields occurs, unchanged, in the text |
| Text.SplitLinesJoinLines | app.py:36 | splitting a text of `"\n"`-terminated rows gives back exactly those rows |
| Text.SplitTwoLines | app.py:36 | two break-free lines joined by `"\n"` split into those two lines |
| Comprehension.SelectPicksKept | app.py:36 | `Select`, the comprehension `[f(x) for x in xs if keep(x)]`: its k-th element is `f` of the k-th kept element, and it has as many elements as there are kept ones |
| Comprehension.KeptIndices | app.py:36 | lists, in increasing order, only positions of kept elements |
| Comprehension.KeptIndicesComplete | app.py:36 | every kept element's position is listed |
| Comprehension.SelectAppend | app.py:36 | the comprehension over two sequences one after the other is the concatenation of the two comprehensions |
| Comprehension.SelectEmptyIffNoneKept | app.py:36 | the comprehension is empty exactly when no element is kept |
| Planner.Question | app.py:36 | a kept line's question has no surrounding whitespace, and the line is the question with only dashes, spaces and other whitespace around it on either side |
| Planner.PlainQuestion | app.py:36 | a line with neither a bullet mark nor whitespace at its ends is its own question |
| Planner.ParseLinesSelectsNonBlank | app.py:36 | `ParseLines`, the comprehension over the lines: the k-th question is the stripped form of the k-th non-blank line, and there is exactly one question per non-blank line, in line order |
| Planner.ParseLinesAppend | app.py:36 | parsing two line lists one after the other gives the questions of the first followed by those of the second |
| Planner.ParseLinesEmptyIffAllBlank | app.py:36 | no question at all exactly when every line is whitespace-only |
| Planner.ParsePlanAtBreak | app.py:36 | `ParsePlan`, the planner's parse of its answer, works line by line: the first line's question (none if the line is blank), then the questions after its single-character break |
| Planner.ParsePlanAtCrLf | app.py:36 | `ParsePlan` treats a line ended by `"\r\n"` the same way |
| Planner.ParsePlanQuestionsOccurInText | app.py:36 | every question `ParsePlan` yields occurs, unchanged, in the planner's answer |
| Planner.ParsePlanQuestionsComeFromLines | app.py:36 | every question has no surrounding whitespace and occurs inside a non-blank line of the planner's answer |
| Planner.BulletOnlyLineGivesEmptyQuestion | app.py:36 | a non-blank line made only of `-` and spaces is kept, as the empty question |
| Planner.BulletedQuestion | app.py:36 | a bullet item `"- q"` yields `q` |
| Planner.TwoBulletedQuestions | app.py:36 | a two-line bullet list parses to its two items, without the bullets |
| Planner.TwoQuestionExample | app.py:36 | `"- Is free will compatible with determinism?\n- Does moral realism hold?"` parses to exactly those two questions |
| Planner.TabLineShieldsBullet | app.py:36 | a line of the answer that opens with a tab before a bulleted item keeps the bullet: the bullet strip stops at the tab, and only the tab is removed |
| Planner.TabShieldsBullet | app.py:36 | the same within a whole answer, for a tabbed line after a first line, since the answer itself arrives stripped |
| Planner.TabLineAfterPlainLine | app.py:36 | a plain first line followed by a tabbed bullet line parses to the first line and the bulleted item, bullet kept |
| Planner.TabLineExample | app.py:36 | `"a\n\t- foo"` parses to `"a"` and `"- foo"` |
| Planner.DashLineExample | app.py:36 | `"- -"` parses to one empty question |
| Planner.ParseOneLine | app.py:36 | a single line yields its question, or nothing when it is blank |
| Planner.ParseSingleLine | app.py:36 | a planner answer of one non-blank line yields exactly that line's question |
| Planner.BlankTextHasNoQuestions | app.py:36 | a whitespace-only answer, line breaks included, yields no questions |
| Planner.BlankPlanExample | app.py:36 | `""` and `" \n\t\r\n"` yield no questions |
| Judge.LowerCharIs | app.py:97 | `lower()` turns a character into the lower-case letter l exactly when the character is l itself or its upper-case form |
| Judge.ApprovesIffYesAt | app.py:97 | `Approves`, the verdict `"yes" in result.lower()` of both judges, holds exactly when y, e, s (each in either case) appear consecutively somewhere in the answer |
| Judge.ApprovesIgnoresCase | app.py:97 | the verdict on `lower(s)` equals the verdict on `s` |
| Judge.ApprovesMonotone | app.py:136 | an answer that contains an approving answer approves |
| Judge.NoYRejects | app.py:136 | an answer without the letter y rejects |
| Judge.ApprovingExamples | app.py:97 | "Yes", "YES", "yes, it is sufficient" and "The eyes have it" approve |
| Judge.RejectingExamples | app.py:136 | "" and "No, it needs more work" reject |
| Refinement.RefineLoop | app.py:149-152 | a loop that ends was ended by an approving judge call, after fewer rounds than the fuel allows |
| Refinement.RefineLoopExitsAtFirstApproval | app.py:149-152 | the loop ends with the state reached after its recorded number of rounds, and every earlier state was rejected |
| Refinement.RefineLoopFindsFirstApproval | app.py:156-160 | when the state after k rounds is the first approved one and the fuel allows k rounds, the loop ends there |
| Refinement.RefineLoopNoneIffAllRejected | app.py:149-152 | the loop runs out of fuel exactly when every state it reaches is rejected |
| Refinement.RefineLoopFuelMonotone | app.py:149-152 | more fuel never changes the result of a loop that ended |
| Refinement.RefineLoopKeeps | app.py:156-160 | a property that every refinement step re-establishes, and that the starting state has, holds of the final state |
| Pipeline.SynthesisLoop | app.py:149-152 | the synthesis loop ends only when the evaluation judge approves the final synthesis |
| Pipeline.SynthesisLoopStopsAtFirstApproval | app.py:149-152 | the final synthesis is the first one in the chain of detail refinements of the same question that the evaluation judge approves, and each earlier one was rejected |
| Pipeline.SynthesisLoopDivergesIffAllRejected | app.py:149-152 | the synthesis loop keeps going exactly when the evaluation judge rejects every refinement the fuel reaches |
| Pipeline.FeedbackLoop | app.py:154-160 | the feedback loop ends only when the feedback judge approves the current report, and when it starts from a report aggregated from the synthesis it ends with the aggregation of its final synthesis |
| Pipeline.FeedbackLoopStopsAtFirstApproval | app.py:156-160 | the final draft is the first whose report the feedback judge approves; each round refines the synthesis for the same question and re-aggregates the report from it |
| Pipeline.FinishQuestion | app.py:154-162 | after the synthesis loop, a finished question has a report approved by a later feedback call that aggregates the final synthesis |
| Pipeline.ImmediateApprovalRecord | app.py:143-162 | `FirstSynthesis`, the chain historical, modernity, comparison, synthesis: when both judges approve at once, the record holds the aggregation of `synthesis(comparison(historical(q), modernity(q)))`, with no refinement |
| Pipeline.SynthesisLoopFollowsDriver | app.py:143-152 | the synthesis loop of a question starts from `synthesis(comparison(historical(q), modernity(q)))`, rejects every earlier refinement and ends at the first approved one, with the approving evaluation call at its start index plus two per round |
| Pipeline.FinishQuestionFollowsDriver | app.py:154-160 | after the synthesis loop approved synthesis s1 at call j1, the report of s1 is aggregated at j1 + 1, and the feedback loop runs from j1 + 2, refining s1 for the same question; every earlier report is rejected and the final one is approved; the next question starts right after that approval |
| Pipeline.RunQuestionFollowsDriver | app.py:143-162 | a finished question is exactly the driver's call sequence for it: the synthesis phase from its start index, then the feedback phase on the approved synthesis, with the next question starting right after the approving feedback call |
| Pipeline.RunQuestionsFollowDriver | app.py:142-162 | in a finished loop over the questions, the i-th run is that call sequence for the i-th question, starting at the given index for the first question and right after the previous question's approving feedback call otherwise |
| Pipeline.RunQuestion | app.py:143-162 | one question's record carries that question and a report that the feedback judge approved and that aggregates the final synthesis |
| Pipeline.RunQuestions | app.py:142-162 | one record per question, in order, each approved and aggregated from its final synthesis, with approvals in increasing call order |
| Pipeline.RunAgentSystem | app.py:138-163 | an empty plan yields an empty result, and a finished run has one record per planned question, with the i-th record for the i-th question |
| Pipeline.RunAgentSystemReportsApproved | app.py:142-163 | a run finishes exactly when every question's loops finish; its i-th record holds the i-th question's run's report, which that run's own feedback call approved and which aggregates that run's final synthesis; the approving calls come in increasing order |
| Pipeline.RunAgentSystemQuestionsFromPlan | app.py:139 | `PlannedQuestions`: the questions of a finished run have no surrounding whitespace and occur in the planning call's answer |
| Pipeline.RunAgentSystemFuelMonotone | app.py:138-163 | the fuel only stands in for the missing termination guarantee: more fuel never changes a finished run |
| Pipeline.AlwaysApprovingRunFinishes | app.py:138-163 | with judges that always approve, one judge call per loop suffices and the run yields one record per question |
| Pipeline.NeverApprovingRunDiverges | app.py:149-152 | with an evaluation judge that never approves, a run with at least one question never finishes, because the source has neither an attempt limit nor a time limit |

## Left out

- `call_chat_completion` (app.py lines 16-23) is a network call to the OpenAI service. Each stage's answer is an oracle value, which stands for the already stripped text that the function returns.
- Failing service calls are not modelled. The OpenAI call can raise, and `response.choices[0].message.content.strip()` (app.py line 23) raises when the content is `None`. `run_agent_system` has no handler, so such a failure aborts the whole run and the records built so far are lost. Every oracle in `Stages` always returns a string, and `RunAgentSystem` has no failure outcome besides running out of fuel.
- Prompt and message construction in every agent are left out. They are fixed text templates and influence only what the oracles receive.
- The Flask route, template rendering, app start-up and `.env` / API-key loading are I/O and configuration, so they are not modelled.
- `time.sleep(1)` in both loops affects wall-clock time only, so it is not modelled.
- The attempt counters `attempt` and `feedback_attempt` are written but never read. The exit record's `rounds` field equals the counter minus one.
- The source contains no time budget, no progress reporting and no concurrency, so the model has none either. Both loops are unbounded, and `NeverApprovingRunDiverges` shows the consequence.
- Pipeline.RunAgentSystem: a run that would loop forever is represented as `None` once the fuel runs out. Nothing about such a run is stated beyond `NeverApprovingRunDiverges` and the loop lemmas.
- Judge.Lower lowers only `A`-`Z`, whereas Python's `lower()` covers all of Unicode. This loses nothing for the `"yes"` test. The only characters whose lower-case form contains `y`, `e` or `s` are `Y`, `E` and `S` themselves, because Unicode's lower-case mappings never produce these ASCII letters from any other character. Any other character that lower-casing changes is therefore neither part of a "yes" nor able to create one.
- Empty questions: a line such as `"- -"` survives the blank filter and becomes the empty question, as `DashLineExample` shows. The code keeps these, and the model follows the code. The filter runs before the bullet strip, so such lines are not dropped.
