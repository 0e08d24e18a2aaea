/** `run_agent_system` (app.py lines 138-163): plan once, then for every planned question,
    in order, run the stage chain historical -> modernity -> comparison -> synthesis, the
    synthesis-quality loop, the report aggregation and the feedback loop, and append one
    {question, report} record.

    Every language-model stage is an oracle: a function of its call index (how many service
    calls the run made before it) and of the stage's inputs. The index lets the same prompt
    get different answers at different times, as a sampled model does. The prompt wording
    is not modelled; an oracle stands for what `call_chat_completion` returns. */
module Pipeline {
  import opened Wrappers
  import opened Text
  import opened Planner
  import opened Judge
  import opened Refinement

  /** The stage oracles of one run. */
  datatype Stages = Stages(
    plan: (nat, string) -> string,                 // planner_agent's model answer for the input
    historical: (nat, string) -> string,           // historical_agent(question)
    modernity: (nat, string) -> string,            // modernity_agent(question)
    comparison: (nat, string, string) -> string,   // comparison_agent(classical, modern)
    synthesis: (nat, string) -> string,            // synthesis_agent(comparison)
    evaluation: (nat, string) -> string,           // evaluation_agent's model answer on a synthesis
    detail: (nat, string, string) -> string,       // detail_analysis_agent(question, synthesis)
    report: (nat, string) -> string,               // report_aggregator(synthesis)
    feedback: (nat, string) -> string)             // feedback_agent's model answer on a report

  /** One record of the result list. */
  datatype Entry = Entry(question: string, report: string)

  /** The feedback loop's state: the current synthesis, the current report, and the call
      index at which that report was aggregated. */
  datatype Draft = Draft(synthesis: string, report: string, reportCall: nat)

  /** The report is the aggregation of the current synthesis. */
  predicate ReportOfSynthesis(st: Stages, d: Draft) {
    d.report == st.report(d.reportCall, d.synthesis)
  }

  /** What the driver knows about one finished question. */
  datatype QuestionRun = QuestionRun(
    question: string,
    draft: Draft,             // final synthesis and the report appended for it
    approvedAt: nat,          // index of the feedback call that approved the report
    synthesisRounds: nat,     // refinements made by the synthesis-quality loop
    feedbackRounds: nat)      // refinements made by the feedback loop

  /** `evaluation_agent`: the verdict on a synthesis. */
  function EvaluationJudge(st: Stages): (nat, string) -> bool {
    (k: nat, s: string) => Approves(st.evaluation(k, s))
  }

  /** One round of the synthesis loop: `detail_analysis_agent(question, synthesis)`. */
  function SynthesisStep(st: Stages, question: string): (nat, string) -> string {
    (k: nat, s: string) => st.detail(k, question, s)
  }

  /** `feedback_agent`: the verdict on the current report. */
  function FeedbackJudge(st: Stages): (nat, Draft) -> bool {
    (k: nat, d: Draft) => Approves(st.feedback(k, d.report))
  }

  /** One round of the feedback loop: refine the synthesis for the question, then aggregate
      a new report from the refined synthesis. */
  function FeedbackStep(st: Stages, question: string): (nat, Draft) -> Draft {
    (k: nat, d: Draft) =>
      var s := st.detail(k, question, d.synthesis);
      Draft(s, st.report(k + 1, s), k + 1)
  }

  /** Judge call + one refine call per synthesis round. */
  const SynthesisStride: nat := 2
  /** Judge call + refine call + aggregation call per feedback round. */
  const FeedbackStride: nat := 3

  /** The synthesis-quality loop: as long as the evaluation judge rejects the current
      synthesis, the detail stage refines it for the same question. */
  function SynthesisLoop(st: Stages, question: string, s: string, t: nat, fuel: nat): (r: Option<Exit<string>>)
    ensures r.Some? ==> Approves(st.evaluation(r.value.judgedAt, r.value.state))
  {
    RefineLoop(EvaluationJudge(st), SynthesisStep(st, question), SynthesisStride, s, t, fuel)
  }

  /** The feedback loop: as long as the feedback judge rejects the current report, the
      detail stage refines the synthesis for the same question and the aggregator builds a
      new report from it. The report it leaves with is the aggregation of its final
      synthesis, whichever round it stops in, provided it started with one. */
  function FeedbackLoop(st: Stages, question: string, d: Draft, t: nat, fuel: nat): (r: Option<Exit<Draft>>)
    ensures r.Some? ==> Approves(st.feedback(r.value.judgedAt, r.value.state.report))
    ensures r.Some? && ReportOfSynthesis(st, d) ==> ReportOfSynthesis(st, r.value.state)
  {
    RefineLoopKeeps((x: Draft) => ReportOfSynthesis(st, x), FeedbackJudge(st), FeedbackStep(st, question),
                    FeedbackStride, d, t, fuel);
    RefineLoop(FeedbackJudge(st), FeedbackStep(st, question), FeedbackStride, d, t, fuel)
  }

  /** The stage chain before the synthesis loop, starting at call index `t`:
      historical, modernity, comparison and synthesis calls, in that order. */
  function FirstSynthesis(st: Stages, question: string, t: nat): string {
    var classical := st.historical(t, question);
    var modern := st.modernity(t + 1, question);
    st.synthesis(t + 3, st.comparison(t + 2, classical, modern))
  }

  /** What follows the synthesis loop that ended in `e1`: the report aggregation and the
      feedback loop. On success it returns what happened and the next call index. */
  function FinishQuestion(st: Stages, question: string, e1: Exit<string>, fuel: nat): (r: Option<(QuestionRun, nat)>)
    ensures r.Some? ==> r.value.0.question == question
    ensures r.Some? ==> Approves(st.feedback(r.value.0.approvedAt, r.value.0.draft.report))
    ensures r.Some? ==> ReportOfSynthesis(st, r.value.0.draft)
    ensures r.Some? ==> e1.judgedAt < r.value.0.approvedAt < r.value.1
  {
    var draft := Draft(e1.state, st.report(e1.judgedAt + 1, e1.state), e1.judgedAt + 1);
    match FeedbackLoop(st, question, draft, e1.judgedAt + 2, fuel)
    case None => None
    case Some(e2) =>
      Some((QuestionRun(question, e2.state, e2.judgedAt, e1.rounds, e2.rounds), e2.judgedAt + 1))
  }

  /** The body of the per-question loop, starting at call index `t`. On success it returns
      what happened and the call index at which the next question starts. */
  function RunQuestion(st: Stages, question: string, t: nat, fuel: nat): (r: Option<(QuestionRun, nat)>)
    ensures r.Some? ==> r.value.0.question == question
    ensures r.Some? ==> Approves(st.feedback(r.value.0.approvedAt, r.value.0.draft.report))
    ensures r.Some? ==> ReportOfSynthesis(st, r.value.0.draft)
    ensures r.Some? ==> t < r.value.0.approvedAt < r.value.1
  {
    match SynthesisLoop(st, question, FirstSynthesis(st, question, t), t + 4, fuel)
    case None => None
    case Some(e1) => FinishQuestion(st, question, e1, fuel)
  }

  /** The `for question in questions` loop from call index `t`: one run per question, in
      order, each approved by the feedback judge and holding the aggregation of its final
      synthesis. */
  function RunQuestions(st: Stages, questions: seq<string>, t: nat, fuel: nat): (r: Option<seq<QuestionRun>>)
    ensures r.Some? ==> |r.value| == |questions|
    ensures r.Some? ==> forall i :: 0 <= i < |questions| ==>
              && r.value[i].question == questions[i]
              && Approves(st.feedback(r.value[i].approvedAt, r.value[i].draft.report))
              && ReportOfSynthesis(st, r.value[i].draft)
    ensures r.Some? ==> forall i, j :: 0 <= i < j < |questions| ==>
              t < r.value[i].approvedAt < r.value[j].approvedAt
    decreases |questions|
  {
    if |questions| == 0 then Some([])
    else
      match RunQuestion(st, questions[0], t, fuel)
      case None => None
      case Some((run, next)) =>
        match RunQuestions(st, questions[1..], next, fuel)
        case None => None
        case Some(rest) => Some([run] + rest)
  }

  /** The records `final_reports` receives. */
  function Entries(runs: seq<QuestionRun>): (entries: seq<Entry>)
    ensures |entries| == |runs|
    ensures forall i :: 0 <= i < |runs| ==> entries[i].question == runs[i].question
    ensures forall i :: 0 <= i < |runs| ==> entries[i].report == runs[i].draft.report
  {
    seq(|runs|, i requires 0 <= i < |runs| => Entry(runs[i].question, runs[i].draft.report))
  }

  /** The questions the run works on: the parsed answer of the planning call (index 0). */
  function PlannedQuestions(st: Stages, input: string): seq<string> {
    ParsePlan(st.plan(0, input))
  }

  /** `run_agent_system(input_data)`. `None` means some refinement loop was still going
      when its fuel ran out. */
  function RunAgentSystem(st: Stages, input: string, fuel: nat): (r: Option<seq<Entry>>)
    ensures PlannedQuestions(st, input) == [] ==> r == Some([])
    ensures r.Some? ==> |r.value| == |PlannedQuestions(st, input)|
    ensures r.Some? ==> forall i :: 0 <= i < |r.value| ==> r.value[i].question == PlannedQuestions(st, input)[i]
  {
    match RunQuestions(st, PlannedQuestions(st, input), 1, fuel)
    case None => None
    case Some(runs) => Some(Entries(runs))
  }

  /** The synthesis after `j` rounds of the synthesis loop that starts from `s` with its
      first evaluation at call index `t`: each round refines the previous synthesis for the
      same question, with the refinement call at the index after that round's evaluation. */
  function Refined(st: Stages, question: string, s: string, t: nat, j: nat): string
    decreases j
  {
    if j == 0 then s else Refined(st, question, st.detail(t + 1, question, s), t + 2, j - 1)
  }

  lemma {:induction false} SynthesisTrajectory(st: Stages, question: string, s: string, t: nat, j: nat)
    ensures Trajectory(SynthesisStep(st, question), SynthesisStride, s, t, j)
         == (Refined(st, question, s, t, j), t + 2 * j)
    decreases j
  {
    if j > 0 {
      SynthesisTrajectory(st, question, st.detail(t + 1, question, s), t + 2, j - 1);
    }
  }

  /** The synthesis-quality loop leaves with the first synthesis of the refinement chain that
      the evaluation judge approves; every earlier one was rejected, and each refinement was
      asked for the same question with the previous synthesis. */
  lemma SynthesisLoopStopsAtFirstApproval(st: Stages, question: string, s: string, t: nat, fuel: nat)
    ensures var r := SynthesisLoop(st, question, s, t, fuel);
            r.Some? ==>
              && r.value.state == Refined(st, question, s, t, r.value.rounds)
              && r.value.judgedAt == t + 2 * r.value.rounds
              && forall j :: 0 <= j < r.value.rounds ==>
                   !Approves(st.evaluation(t + 2 * j, Refined(st, question, s, t, j)))
  {
    var judge, step := EvaluationJudge(st), SynthesisStep(st, question);
    var r := SynthesisLoop(st, question, s, t, fuel);
    RefineLoopExitsAtFirstApproval(judge, step, SynthesisStride, s, t, fuel);
    if r.Some? {
      SynthesisTrajectory(st, question, s, t, r.value.rounds);
      forall j | 0 <= j < r.value.rounds
        ensures !Approves(st.evaluation(t + 2 * j, Refined(st, question, s, t, j)))
      {
        SynthesisTrajectory(st, question, s, t, j);
        assert !judge(t + 2 * j, Refined(st, question, s, t, j));
      }
    }
  }

  /** The loop runs out of fuel exactly when the evaluation judge rejects every synthesis of
      the refinement chain that the fuel reaches. */
  lemma SynthesisLoopDivergesIffAllRejected(st: Stages, question: string, s: string, t: nat, fuel: nat)
    ensures SynthesisLoop(st, question, s, t, fuel).None?
        <==> forall j :: 0 <= j < fuel ==> !Approves(st.evaluation(t + 2 * j, Refined(st, question, s, t, j)))
  {
    var judge, step := EvaluationJudge(st), SynthesisStep(st, question);
    RefineLoopNoneIffAllRejected(judge, step, SynthesisStride, s, t, fuel);
    if SynthesisLoop(st, question, s, t, fuel).None? {
      forall j | 0 <= j < fuel
        ensures !Approves(st.evaluation(t + 2 * j, Refined(st, question, s, t, j)))
      {
        SynthesisTrajectory(st, question, s, t, j);
        var (x, u) := Trajectory(step, SynthesisStride, s, t, j);
        assert !judge(u, x);
      }
    } else {
      var j :| 0 <= j < fuel && var (x, u) := Trajectory(step, SynthesisStride, s, t, j); judge(u, x);
      SynthesisTrajectory(st, question, s, t, j);
      assert Approves(st.evaluation(t + 2 * j, Refined(st, question, s, t, j)));
    }
  }

  /** The draft after `j` rounds of the feedback loop that starts from `d` with its first
      feedback call at index `t`: each round refines the synthesis for the same question and
      aggregates a new report from the refined synthesis. */
  function Revised(st: Stages, question: string, d: Draft, t: nat, j: nat): Draft
    decreases j
  {
    if j == 0 then d
    else
      var s := st.detail(t + 1, question, d.synthesis);
      Revised(st, question, Draft(s, st.report(t + 2, s), t + 2), t + 3, j - 1)
  }

  lemma {:induction false} FeedbackTrajectory(st: Stages, question: string, d: Draft, t: nat, j: nat)
    ensures Trajectory(FeedbackStep(st, question), FeedbackStride, d, t, j)
         == (Revised(st, question, d, t, j), t + 3 * j)
    decreases j
  {
    if j > 0 {
      var s := st.detail(t + 1, question, d.synthesis);
      FeedbackTrajectory(st, question, Draft(s, st.report(t + 2, s), t + 2), t + 3, j - 1);
    }
  }

  /** The feedback loop leaves with the first draft whose report the feedback judge approves;
      every earlier report was rejected, and each round refined the synthesis for the same
      question and rebuilt the report from it. */
  lemma FeedbackLoopStopsAtFirstApproval(st: Stages, question: string, d: Draft, t: nat, fuel: nat)
    ensures var r := FeedbackLoop(st, question, d, t, fuel);
            r.Some? ==>
              && r.value.state == Revised(st, question, d, t, r.value.rounds)
              && r.value.judgedAt == t + 3 * r.value.rounds
              && forall j :: 0 <= j < r.value.rounds ==>
                   !Approves(st.feedback(t + 3 * j, Revised(st, question, d, t, j).report))
  {
    var judge, step := FeedbackJudge(st), FeedbackStep(st, question);
    var r := FeedbackLoop(st, question, d, t, fuel);
    RefineLoopExitsAtFirstApproval(judge, step, FeedbackStride, d, t, fuel);
    if r.Some? {
      FeedbackTrajectory(st, question, d, t, r.value.rounds);
      forall j | 0 <= j < r.value.rounds
        ensures !Approves(st.feedback(t + 3 * j, Revised(st, question, d, t, j).report))
      {
        FeedbackTrajectory(st, question, d, t, j);
        assert !judge(t + 3 * j, Revised(st, question, d, t, j));
      }
    }
  }

  /** The synthesis loop of a question that starts at call index `t`: the historical,
      modernity, comparison and synthesis calls at `t` to `t + 3`, then evaluations from
      `t + 4` on that reject the first `rounds` syntheses of the refinement chain and
      approve the next one. */
  ghost predicate SynthesisPhase(st: Stages, question: string, t: nat, rounds: nat) {
    var s0 := FirstSynthesis(st, question, t);
    && (forall j :: 0 <= j < rounds ==>
          !Approves(st.evaluation(t + 4 + 2 * j, Refined(st, question, s0, t + 4, j))))
    && Approves(st.evaluation(t + 4 + 2 * rounds, Refined(st, question, s0, t + 4, rounds)))
  }

  /** What follows the evaluation call `j1` that approved synthesis `s1`: the report
      aggregation at `j1 + 1`, then a feedback loop from `j1 + 2`, refining that synthesis
      for that same question, which rejects every earlier report and approves the final
      draft's report at `run.approvedAt`. */
  ghost predicate FeedbackPhase(st: Stages, question: string, s1: string, j1: nat, run: QuestionRun) {
    var d1 := Draft(s1, st.report(j1 + 1, s1), j1 + 1);
    && (forall j :: 0 <= j < run.feedbackRounds ==>
          !Approves(st.feedback(j1 + 2 + 3 * j, Revised(st, question, d1, j1 + 2, j).report)))
    && run.draft == Revised(st, question, d1, j1 + 2, run.feedbackRounds)
    && run.approvedAt == j1 + 2 + 3 * run.feedbackRounds
    && Approves(st.feedback(run.approvedAt, run.draft.report))
  }

  /** `run` is what one pass of the per-question loop body does for `question` from call
      index `t`: its synthesis phase, then its feedback phase on the approved synthesis. */
  ghost predicate RunOfQuestion(st: Stages, question: string, t: nat, run: QuestionRun) {
    var s0 := FirstSynthesis(st, question, t);
    && run.question == question
    && SynthesisPhase(st, question, t, run.synthesisRounds)
    && FeedbackPhase(st, question, Refined(st, question, s0, t + 4, run.synthesisRounds),
                     t + 4 + 2 * run.synthesisRounds, run)
  }

  /** The synthesis loop of a question that starts at `t` ends in its synthesis phase,
      with the approved synthesis and the index of the approving evaluation call. */
  lemma SynthesisLoopFollowsDriver(st: Stages, question: string, t: nat, fuel: nat)
    ensures var s0 := FirstSynthesis(st, question, t);
            var r := SynthesisLoop(st, question, s0, t + 4, fuel);
            r.Some? ==>
              && SynthesisPhase(st, question, t, r.value.rounds)
              && r.value.state == Refined(st, question, s0, t + 4, r.value.rounds)
              && r.value.judgedAt == t + 4 + 2 * r.value.rounds
  {
    SynthesisLoopStopsAtFirstApproval(st, question, FirstSynthesis(st, question, t), t + 4, fuel);
  }

  /** After a synthesis loop that ended in `e1`, the rest of the pass is the feedback phase
      on `e1`'s synthesis, and the next question starts right after the approving call. */
  lemma FinishQuestionFollowsDriver(st: Stages, question: string, e1: Exit<string>, fuel: nat)
    ensures var r := FinishQuestion(st, question, e1, fuel);
            r.Some? ==>
              && FeedbackPhase(st, question, e1.state, e1.judgedAt, r.value.0)
              && r.value.1 == r.value.0.approvedAt + 1
  {
    var d1 := Draft(e1.state, st.report(e1.judgedAt + 1, e1.state), e1.judgedAt + 1);
    FeedbackLoopStopsAtFirstApproval(st, question, d1, e1.judgedAt + 2, fuel);
  }

  /** A finished pass of the loop body is exactly the call sequence the driver makes for
      its question, and the next question starts right after the approving feedback call. */
  lemma RunQuestionFollowsDriver(st: Stages, question: string, t: nat, fuel: nat)
    ensures var r := RunQuestion(st, question, t, fuel);
            r.Some? ==> RunOfQuestion(st, question, t, r.value.0) && r.value.1 == r.value.0.approvedAt + 1
  {
    var s0 := FirstSynthesis(st, question, t);
    SynthesisLoopFollowsDriver(st, question, t, fuel);
    match SynthesisLoop(st, question, s0, t + 4, fuel)
    case None =>
    case Some(e1) =>
      FinishQuestionFollowsDriver(st, question, e1, fuel);
      match FinishQuestion(st, question, e1, fuel)
      case None =>
      case Some((run, _)) =>
        RunOfQuestionIntro(st, question, t, run, e1.state, e1.judgedAt);
  }

  lemma RunOfQuestionIntro(st: Stages, question: string, t: nat, run: QuestionRun, s1: string, j1: nat)
    requires run.question == question && SynthesisPhase(st, question, t, run.synthesisRounds)
    requires s1 == Refined(st, question, FirstSynthesis(st, question, t), t + 4, run.synthesisRounds)
    requires j1 == t + 4 + 2 * run.synthesisRounds && FeedbackPhase(st, question, s1, j1, run)
    ensures RunOfQuestion(st, question, t, run)
  {
  }

  /** The call index at which the `i`-th question of a finished run starts: `t` for the
      first, and the index after the previous question's approving feedback call otherwise. */
  function StartOf(t: nat, runs: seq<QuestionRun>, i: nat): nat
    requires i <= |runs|
  {
    if i == 0 then t else runs[i - 1].approvedAt + 1
  }

  /** Whatever property `P` every finished pass of the loop body has from the index it
      starts at, every record of a finished run has from the index where the previous
      question stopped. */
  lemma {:induction false} RunQuestionsChain(st: Stages, P: (string, nat, QuestionRun) -> bool,
                                             questions: seq<string>, t: nat, fuel: nat)
    requires forall q, u :: RunQuestion(st, q, u, fuel).Some? ==>
               && P(q, u, RunQuestion(st, q, u, fuel).value.0)
               && RunQuestion(st, q, u, fuel).value.1 == RunQuestion(st, q, u, fuel).value.0.approvedAt + 1
    ensures var r := RunQuestions(st, questions, t, fuel);
            r.Some? ==> forall i :: 0 <= i < |r.value| ==> P(questions[i], StartOf(t, r.value, i), r.value[i])
    decreases |questions|
  {
    if |questions| > 0 {
      match RunQuestion(st, questions[0], t, fuel)
      case None =>
      case Some((run, next)) =>
        RunQuestionsChain(st, P, questions[1..], next, fuel);
        match RunQuestions(st, questions[1..], next, fuel)
        case None =>
        case Some(rest) =>
          var runs := [run] + rest;
          assert RunQuestions(st, questions, t, fuel) == Some(runs);
          forall i | 0 <= i < |runs|
            ensures P(questions[i], StartOf(t, runs, i), runs[i])
          {
            if i > 0 {
              ChainStep(P, questions, t, run, rest, i);
            }
          }
    }
  }

  lemma ChainStep(P: (string, nat, QuestionRun) -> bool, questions: seq<string>, t: nat,
                  run: QuestionRun, rest: seq<QuestionRun>, i: nat)
    requires 0 < i < |questions| && |rest| == |questions| - 1
    requires P(questions[1..][i - 1], StartOf(run.approvedAt + 1, rest, i - 1), rest[i - 1])
    ensures P(questions[i], StartOf(t, [run] + rest, i), ([run] + rest)[i])
  {
    assert ([run] + rest)[i] == rest[i - 1] && questions[i] == questions[1..][i - 1];
  }

  /** In a finished run, the `i`-th record comes from the call sequence the driver makes
      for the `i`-th question, starting where the previous question stopped. */
  lemma RunQuestionsFollowDriver(st: Stages, questions: seq<string>, t: nat, fuel: nat)
    ensures var r := RunQuestions(st, questions, t, fuel);
            r.Some? ==> forall i :: 0 <= i < |r.value| ==>
              RunOfQuestion(st, questions[i], StartOf(t, r.value, i), r.value[i])
  {
    forall q, u | RunQuestion(st, q, u, fuel).Some?
      ensures RunOfQuestion(st, q, u, RunQuestion(st, q, u, fuel).value.0)
      ensures RunQuestion(st, q, u, fuel).value.1 == RunQuestion(st, q, u, fuel).value.0.approvedAt + 1
    {
      RunQuestionFollowsDriver(st, q, u, fuel);
    }
    RunQuestionsChain(st, (q: string, u: nat, run: QuestionRun) => RunOfQuestion(st, q, u, run), questions, t, fuel);
  }

  lemma FinishQuestionFuelMonotone(st: Stages, question: string, e1: Exit<string>, fuel: nat, more: nat)
    requires FinishQuestion(st, question, e1, fuel).Some? && fuel <= more
    ensures FinishQuestion(st, question, e1, more) == FinishQuestion(st, question, e1, fuel)
  {
    var draft := Draft(e1.state, st.report(e1.judgedAt + 1, e1.state), e1.judgedAt + 1);
    RefineLoopFuelMonotone(FeedbackJudge(st), FeedbackStep(st, question), FeedbackStride,
                           draft, e1.judgedAt + 2, fuel, more);
  }

  lemma RunQuestionFuelMonotone(st: Stages, question: string, t: nat, fuel: nat, more: nat)
    requires RunQuestion(st, question, t, fuel).Some? && fuel <= more
    ensures RunQuestion(st, question, t, more) == RunQuestion(st, question, t, fuel)
  {
    var synthesis := FirstSynthesis(st, question, t);
    RefineLoopFuelMonotone(EvaluationJudge(st), SynthesisStep(st, question), SynthesisStride,
                           synthesis, t + 4, fuel, more);
    FinishQuestionFuelMonotone(st, question, SynthesisLoop(st, question, synthesis, t + 4, fuel).value, fuel, more);
  }

  lemma {:induction false} RunQuestionsFuelMonotone(st: Stages, questions: seq<string>, t: nat, fuel: nat, more: nat)
    requires RunQuestions(st, questions, t, fuel).Some? && fuel <= more
    ensures RunQuestions(st, questions, t, more) == RunQuestions(st, questions, t, fuel)
    decreases |questions|
  {
    if |questions| > 0 {
      RunQuestionFuelMonotone(st, questions[0], t, fuel, more);
      var next := RunQuestion(st, questions[0], t, fuel).value.1;
      RunQuestionsFuelMonotone(st, questions[1..], next, fuel, more);
    }
  }

  /** Fuel only bounds the unbounded loops: once a run finishes, any larger fuel gives the
      same records. */
  lemma RunAgentSystemFuelMonotone(st: Stages, input: string, fuel: nat, more: nat)
    requires RunAgentSystem(st, input, fuel).Some? && fuel <= more
    ensures RunAgentSystem(st, input, more) == RunAgentSystem(st, input, fuel)
  {
    RunQuestionsFuelMonotone(st, PlannedQuestions(st, input), 1, fuel, more);
  }

  /** Both judges approve every answer. */
  ghost predicate AlwaysApproving(st: Stages) {
    && (forall k, s :: Approves(st.evaluation(k, s)))
    && (forall k, s :: Approves(st.feedback(k, s)))
  }

  lemma {:induction false} ApprovingRunQuestions(st: Stages, questions: seq<string>, t: nat, fuel: nat)
    requires AlwaysApproving(st) && fuel >= 1
    ensures var r := RunQuestions(st, questions, t, fuel);
            r.Some? && forall i :: 0 <= i < |r.value| ==>
              r.value[i].synthesisRounds == 0 && r.value[i].feedbackRounds == 0
    decreases |questions|
  {
    if |questions| > 0 {
      var next := RunQuestion(st, questions[0], t, fuel).value.1;
      ApprovingRunQuestions(st, questions[1..], next, fuel);
    }
  }

  /** With judges that always approve, one judge call per loop suffices: the run yields one
      record per planned question and no refinement happens. */
  lemma AlwaysApprovingRunFinishes(st: Stages, input: string, fuel: nat)
    requires AlwaysApproving(st) && fuel >= 1
    ensures var r := RunAgentSystem(st, input, fuel);
            r.Some? && |r.value| == |PlannedQuestions(st, input)|
  {
    ApprovingRunQuestions(st, PlannedQuestions(st, input), 1, fuel);
  }

  /** With an evaluation judge that never approves, a run with at least one planned question
      never finishes, whatever the fuel: the source has no attempt limit and no time limit. */
  lemma NeverApprovingRunDiverges(st: Stages, input: string, fuel: nat)
    requires forall k, s :: !Approves(st.evaluation(k, s))
    requires PlannedQuestions(st, input) != []
    ensures RunAgentSystem(st, input, fuel).None?
  {
    var question := PlannedQuestions(st, input)[0];
    SynthesisLoopDivergesIffAllRejected(st, question, FirstSynthesis(st, question, 1), 5, fuel);
  }

  /** Record `e` is what the driver appends for `run`: its question, and the report of the
      run's final draft, which the feedback call at `run.approvedAt` approved and which is
      the aggregation of the final synthesis. */
  ghost predicate RecordOfRun(st: Stages, e: Entry, run: QuestionRun) {
    && e.question == run.question
    && e.report == run.draft.report
    && Approves(st.feedback(run.approvedAt, e.report))
    && e.report == st.report(run.draft.reportCall, run.draft.synthesis)
  }

  /** A run finishes exactly when every question's loops finish, and then its i-th record
      is the one appended for the i-th question's run: a report approved by that run's own
      feedback call and aggregated from that run's final synthesis. The approving calls
      come in increasing order, one question after the other. */
  lemma RunAgentSystemReportsApproved(st: Stages, input: string, fuel: nat)
    ensures var r := RunAgentSystem(st, input, fuel);
            var rr := RunQuestions(st, PlannedQuestions(st, input), 1, fuel);
            && (r.Some? <==> rr.Some?)
            && (r.Some? ==> |r.value| == |rr.value|)
            && (r.Some? ==> forall i :: 0 <= i < |r.value| ==> RecordOfRun(st, r.value[i], rr.value[i]))
            && (r.Some? ==> forall i, j :: 0 <= i < j < |r.value| ==>
                  1 < rr.value[i].approvedAt < rr.value[j].approvedAt)
  {
    var r := RunAgentSystem(st, input, fuel);
    var rr := RunQuestions(st, PlannedQuestions(st, input), 1, fuel);
    if r.Some? {
      var runs := rr.value;
      assert r.value == Entries(runs);
      forall i | 0 <= i < |r.value|
        ensures RecordOfRun(st, r.value[i], runs[i])
      {
        var d := runs[i].draft;
        assert r.value[i].report == d.report;
        assert Approves(st.feedback(runs[i].approvedAt, d.report));
        assert d.report == st.report(d.reportCall, d.synthesis);
      }
    }
  }

  /** The questions of a finished run are taken from the planning call's answer: each one
      has no surrounding whitespace and occurs in that answer. */
  lemma RunAgentSystemQuestionsFromPlan(st: Stages, input: string, fuel: nat)
    ensures var r := RunAgentSystem(st, input, fuel);
            r.Some? ==> forall i :: 0 <= i < |r.value| ==>
              IsTrimmed(r.value[i].question) && IsSubstring(r.value[i].question, st.plan(0, input))
  {
    var r := RunAgentSystem(st, input, fuel);
    var text := st.plan(0, input);
    ParsePlanQuestionsComeFromLines(text);
    ParsePlanQuestionsOccurInText(text);
    if r.Some? {
      forall i | 0 <= i < |r.value|
        ensures IsTrimmed(r.value[i].question) && IsSubstring(r.value[i].question, text)
      {
        assert r.value[i].question == ParsePlan(text)[i];
      }
    }
  }

  /** The stage chain: when the evaluation judge approves the first synthesis and the
      feedback judge approves its first report, the question's record holds the
      aggregation of synthesis(comparison(historical(question), modernity(question))),
      with no refinement and seven service calls in all. */
  lemma ImmediateApprovalRecord(st: Stages, question: string, t: nat, fuel: nat)
    requires fuel >= 1
    requires var s := st.synthesis(t + 3, st.comparison(t + 2, st.historical(t, question), st.modernity(t + 1, question)));
             Approves(st.evaluation(t + 4, s)) && Approves(st.feedback(t + 6, st.report(t + 5, s)))
    ensures var s := st.synthesis(t + 3, st.comparison(t + 2, st.historical(t, question), st.modernity(t + 1, question)));
            RunQuestion(st, question, t, fuel)
              == Some((QuestionRun(question, Draft(s, st.report(t + 5, s), t + 5), t + 6, 0, 0), t + 7))
  {
    var s := FirstSynthesis(st, question, t);
    assert SynthesisLoop(st, question, s, t + 4, fuel) == Some(Exit(s, t + 4, 0));
    var d := Draft(s, st.report(t + 5, s), t + 5);
    assert FeedbackLoop(st, question, d, t + 6, fuel) == Some(Exit(d, t + 6, 0));
  }
}
