/** The shape shared by the two refinement loops of `run_agent_system` (app.py lines
    149-152 and 156-160): ask the judge about the current state; on approval stop, otherwise
    replace the state by one refinement step and ask again. There is no attempt limit and
    no clock in the source, so the loop is given `fuel` (an upper bound on judge calls) and
    answers `None` when the fuel runs out: `None` stands for a loop that would keep going.

    Every model-service call carries its call index, the number of calls made before it in
    the run. A judge call at index `t` is followed by a step whose first call has index
    `t + 1`; the step makes `stride - 1` calls, so the next judge call has index `t + stride`. */
module Refinement {
  import opened Wrappers

  /** How a loop ended: the approved state, the index of the approving judge call, and the
      number of refinement rounds that preceded it (the source's attempt counter minus one). */
  datatype Exit<S> = Exit(state: S, judgedAt: nat, rounds: nat)

  /** The state after `j` refinement rounds from `s`, with the index of the judge call on it. */
  function Trajectory<S>(step: (nat, S) -> S, stride: nat, s: S, t: nat, j: nat): (S, nat)
    decreases j
  {
    if j == 0 then (s, t) else Trajectory(step, stride, step(t + 1, s), t + stride, j - 1)
  }

  /** One run of a refinement loop from state `s`, first judge call at index `t`. */
  function RefineLoop<S>(judge: (nat, S) -> bool, step: (nat, S) -> S, stride: nat,
                         s: S, t: nat, fuel: nat): (r: Option<Exit<S>>)
    ensures r.Some? ==> judge(r.value.judgedAt, r.value.state)
    ensures r.Some? ==> r.value.rounds < fuel && t <= r.value.judgedAt
    decreases fuel
  {
    if fuel == 0 then None
    else if judge(t, s) then Some(Exit(s, t, 0))
    else
      match RefineLoop(judge, step, stride, step(t + 1, s), t + stride, fuel - 1)
      case None => None
      case Some(e) => Some(Exit(e.state, e.judgedAt, e.rounds + 1))
  }

  /** No state among the first `n` of the trajectory is approved. */
  predicate RejectedBefore<S>(judge: (nat, S) -> bool, step: (nat, S) -> S, stride: nat,
                              s: S, t: nat, n: nat) {
    forall j :: 0 <= j < n ==>
      var (x, u) := Trajectory(step, stride, s, t, j); !judge(u, x)
  }

  lemma RejectedBeforeShift<S>(judge: (nat, S) -> bool, step: (nat, S) -> S, stride: nat,
                               s: S, t: nat, n: nat)
    requires !judge(t, s)
    ensures RejectedBefore(judge, step, stride, s, t, n + 1)
        <==> RejectedBefore(judge, step, stride, step(t + 1, s), t + stride, n)
  {
    var s', t' := step(t + 1, s), t + stride;
    forall j | 0 <= j < n
      ensures Trajectory(step, stride, s, t, j + 1) == Trajectory(step, stride, s', t', j)
    {
    }
    if RejectedBefore(judge, step, stride, s', t', n) {
      forall j | 0 <= j < n + 1
        ensures var (x, u) := Trajectory(step, stride, s, t, j); !judge(u, x)
      {
        if j > 0 {
          assert Trajectory(step, stride, s, t, j) == Trajectory(step, stride, s', t', j - 1);
        }
      }
    }
  }

  /** The loop leaves only on approval, and at the FIRST approved state of its trajectory:
      every earlier state was rejected. */
  lemma {:induction false} RefineLoopExitsAtFirstApproval<S>(
    judge: (nat, S) -> bool, step: (nat, S) -> S, stride: nat, s: S, t: nat, fuel: nat)
    ensures var r := RefineLoop(judge, step, stride, s, t, fuel);
            r.Some? ==>
              && Trajectory(step, stride, s, t, r.value.rounds) == (r.value.state, r.value.judgedAt)
              && RejectedBefore(judge, step, stride, s, t, r.value.rounds)
    decreases fuel
  {
    var r := RefineLoop(judge, step, stride, s, t, fuel);
    if fuel > 0 && !judge(t, s) && r.Some? {
      var s', t' := step(t + 1, s), t + stride;
      var e := RefineLoop(judge, step, stride, s', t', fuel - 1).value;
      RefineLoopExitsAtFirstApproval(judge, step, stride, s', t', fuel - 1);
      RejectedBeforeShift(judge, step, stride, s, t, e.rounds);
    }
  }

  /** Conversely, when the state after `k` rounds is the first approved one and the fuel
      allows `k` rounds, the loop leaves with exactly that state after `k` rounds. */
  lemma {:induction false} RefineLoopFindsFirstApproval<S>(
    judge: (nat, S) -> bool, step: (nat, S) -> S, stride: nat, s: S, t: nat, fuel: nat, k: nat)
    requires k < fuel
    requires RejectedBefore(judge, step, stride, s, t, k)
    requires var (x, u) := Trajectory(step, stride, s, t, k); judge(u, x)
    ensures var (x, u) := Trajectory(step, stride, s, t, k);
            RefineLoop(judge, step, stride, s, t, fuel) == Some(Exit(x, u, k))
    decreases k
  {
    if k > 0 {
      assert !judge(t, s) by {
        assert Trajectory(step, stride, s, t, 0) == (s, t);
      }
      var s', t' := step(t + 1, s), t + stride;
      RejectedBeforeShift(judge, step, stride, s, t, k - 1);
      RefineLoopFindsFirstApproval(judge, step, stride, s', t', fuel - 1, k - 1);
    }
  }

  /** The loop runs out of fuel exactly when every state it could judge is rejected. */
  lemma {:induction false} RefineLoopNoneIffAllRejected<S>(
    judge: (nat, S) -> bool, step: (nat, S) -> S, stride: nat, s: S, t: nat, fuel: nat)
    ensures RefineLoop(judge, step, stride, s, t, fuel).None?
        <==> RejectedBefore(judge, step, stride, s, t, fuel)
    decreases fuel
  {
    if fuel > 0 {
      if judge(t, s) {
        assert Trajectory(step, stride, s, t, 0) == (s, t);
      } else {
        RefineLoopNoneIffAllRejected(judge, step, stride, step(t + 1, s), t + stride, fuel - 1);
        RejectedBeforeShift(judge, step, stride, s, t, fuel - 1);
      }
    }
  }

  /** More fuel never changes a result that was reached: the fuel only stands in for the
      missing termination guarantee. */
  lemma {:induction false} RefineLoopFuelMonotone<S>(
    judge: (nat, S) -> bool, step: (nat, S) -> S, stride: nat, s: S, t: nat, fuel: nat, more: nat)
    requires RefineLoop(judge, step, stride, s, t, fuel).Some?
    requires fuel <= more
    ensures RefineLoop(judge, step, stride, s, t, more) == RefineLoop(judge, step, stride, s, t, fuel)
    decreases fuel
  {
    if !judge(t, s) {
      RefineLoopFuelMonotone(judge, step, stride, step(t + 1, s), t + stride, fuel - 1, more - 1);
    }
  }

  /** A property of the state that every refinement step re-establishes holds of the state
      the loop leaves with. */
  lemma {:induction false} RefineLoopKeeps<S>(
    inv: S -> bool, judge: (nat, S) -> bool, step: (nat, S) -> S, stride: nat, s: S, t: nat, fuel: nat)
    requires forall k, x :: inv(x) ==> inv(step(k, x))
    ensures var r := RefineLoop(judge, step, stride, s, t, fuel);
            r.Some? && inv(s) ==> inv(r.value.state)
    decreases fuel
  {
    if fuel > 0 && !judge(t, s) {
      RefineLoopKeeps(inv, judge, step, stride, step(t + 1, s), t + stride, fuel - 1);
    }
  }
}
