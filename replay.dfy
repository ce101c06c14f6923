/** The replay stepper of packages/dashboard/src/components/ReplayController.tsx. The
    state is `step`: None is live mode (the timeline follows the newest call), Some(i)
    replays up to call i. Each control maps the step and the calls to the step passed to
    `onStepChange`; a control that returns early leaves the step as it was. */
module Replay {
  import opened Wrappers
  import opened ToolCalls

  type Step = Option<int>

  /** The steps the controls keep the stepper in: live, or a call of the timeline. */
  predicate InRange(step: Step, total: nat) {
    step.None? || 0 <= step.value < total
  }

  function Max(a: int, b: int): int {
    if a < b then b else a
  }

  /** `current`: the highlighted call, the newest one in live mode. */
  function Current(step: Step, total: nat): int {
    step.GetOr(total - 1)
  }

  /** `prev`: one call back, from live mode to the newest call, never below the first. */
  function Prev(step: Step, total: nat): Step {
    if total == 0 then step else Some(Max(0, step.GetOr(total) - 1))
  }

  /** `next`: one call on, live mode counting as -1; past the newest call back to live. */
  function Next(step: Step, total: nat): Step {
    if total == 0 then step
    else
      var s := step.GetOr(-1);
      if s >= total - 1 then None else Some(s + 1)
  }

  /** `toggleReplay`: leave replay for live mode, or start replaying at the first call. */
  function ToggleReplay(step: Step): Step {
    if step.Some? then None else Some(0)
  }

  /** The highlighted call is a call of the timeline whenever there is one. */
  lemma CurrentInRange(step: Step, total: nat)
    requires InRange(step, total) && total > 0
    ensures 0 <= Current(step, total) < total
    ensures step.None? ==> Current(step, total) == total - 1
  {
  }

  /** Stepping keeps the stepper on a call or in live mode. */
  lemma StepsStayInRange(step: Step, total: nat)
    requires InRange(step, total)
    ensures InRange(Prev(step, total), total)
    ensures InRange(Next(step, total), total)
  {
  }

  /** With no calls both arrows do nothing. */
  lemma EmptyTimelineIgnoresArrows(step: Step)
    ensures Prev(step, 0) == step && Next(step, 0) == step
  {
  }

  /** `prev` from live mode lands on the newest call, and stays on the first call. */
  lemma PrevEnds(total: nat)
    requires total > 0
    ensures Prev(None, total) == Some(total - 1)
    ensures Prev(Some(0), total) == Some(0)
  {
  }

  /** `next` from the newest call returns to live mode, and from live mode starts at the
      first call. */
  lemma NextEnds(total: nat)
    requires total > 0
    ensures Next(Some(total - 1), total) == None
    ensures Next(None, total) == Some(0)
  {
  }

  /** `prev` undoes `next` on every call of the timeline. */
  lemma PrevUndoesNext(s: int, total: nat)
    requires 0 <= s < total
    ensures Prev(Next(Some(s), total), total) == Some(s)
  {
  }

  /** `next` undoes `prev` everywhere but on the first call, where `prev` stays put. */
  lemma NextUndoesPrev(step: Step, total: nat)
    requires InRange(step, total) && total > 0 && step != Some(0)
    ensures Next(Prev(step, total), total) == step
  {
  }

  /** Toggling twice from live mode comes back to live mode, through the first call. */
  lemma ToggleTwice(step: Step)
    ensures ToggleReplay(step) == (if step.Some? then None else Some(0))
    ensures ToggleReplay(ToggleReplay(None)) == None
  {
  }

  /** The first erroring call at an index in [lo, hi), if any. */
  function FirstError(calls: seq<ToolCall>, lo: int, hi: int): (r: Option<nat>)
    requires 0 <= lo && hi <= |calls|
    ensures r.Some? ==> lo <= r.value < hi && calls[r.value].isError
    ensures r.Some? ==> forall k :: lo <= k < r.value ==> !calls[k].isError
    ensures r.None? ==> forall k :: lo <= k < hi ==> !calls[k].isError
    decreases hi - lo
  {
    if lo >= hi then None
    else if calls[lo].isError then Some(lo)
    else FirstError(calls, lo + 1, hi)
  }

  /** `jumpToError`: the call handed to `onStepChange`, or None when it is not called.
      The search starts after the current step and wraps round to the start; outside
      the steps allowed here the source reads past the end of `calls`. */
  method JumpToError(calls: seq<ToolCall>, step: Step) returns (selected: Option<nat>)
    requires step.None? || -1 <= step.value <= |calls|
    ensures |calls| == 0 ==> selected == None
    ensures |calls| > 0 ==>
      var after := FirstError(calls, if step.Some? then step.value + 1 else 0, |calls|);
      selected == if after.Some? then after else FirstError(calls, 0, step.GetOr(|calls|))
  {
    var total := |calls|;
    selected := None;
    if total != 0 {
      var start := if step.Some? then step.value + 1 else 0;
      var i := start;
      while i < total && selected.None?
        invariant start <= i && (i <= total || i == start)
        invariant selected.None? ==> FirstError(calls, start, total) == FirstError(calls, i, total)
        invariant selected.Some? ==> selected == FirstError(calls, start, total)
      {
        if calls[i].isError {
          selected := Some(i);
        }
        i := i + 1;
      }
      if selected.None? {
        var bound := step.GetOr(total);
        i := 0;
        while i < bound && selected.None?
          invariant 0 <= i && (i <= bound || i == 0)
          invariant selected.None? ==> FirstError(calls, 0, bound) == FirstError(calls, i, bound)
          invariant selected.Some? ==> selected == FirstError(calls, 0, bound)
        {
          if calls[i].isError {
            selected := Some(i);
          }
          i := i + 1;
        }
      }
    }
  }

  /** What `jumpToError` promises: it picks an erroring call of the timeline other than
      the current step, the first after the step if there is one, and picks nothing only
      when no call but the current one errs. */
  lemma JumpToErrorPicksOtherError(calls: seq<ToolCall>, step: Step)
    requires step.None? || 0 <= step.value < |calls|
    ensures var start := if step.Some? then step.value + 1 else 0;
      var after := FirstError(calls, start, |calls|);
      var picked := if after.Some? then after else FirstError(calls, 0, step.GetOr(|calls|));
      && (picked.Some? ==> picked.value < |calls| && calls[picked.value].isError)
      && (picked.Some? && step.Some? ==> picked.value != step.value)
      && (picked.None? <==> forall k :: 0 <= k < |calls| && Some(k) != step ==> !calls[k].isError)
  {
    var start := if step.Some? then step.value + 1 else 0;
    var after := FirstError(calls, start, |calls|);
    var before := FirstError(calls, 0, step.GetOr(|calls|));
    if after.None? && before.None? {
      forall k | 0 <= k < |calls| && Some(k) != step ensures !calls[k].isError {
        if step.Some? && k > step.value {
          assert start <= k;
        }
      }
    }
  }
}
