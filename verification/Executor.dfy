/** The serial execution loop (remote_mutation.py, `_execute_serial`) as a method that takes the
    engine's steps one by one while other processes act in between. */
module Executor {
  import opened Base
  import opened Verdicts
  import opened Targets
  import opened Engine
  import opened EngineSafety
  import opened EngineHistory

  /** What one process sees never changes under the steps of others while it executes a run. */
  lemma {:induction false} ExecutorUndisturbed(states: seq<State>, actions: seq<Action>, n: nat, m: nat, p: nat)
    requires Execution(states, actions) && n <= m < |states|
    requires p in states[n].procs && Active(states[n].procs[p])
    requires forall k :: n <= k < m ==> Actor(actions[k]) != Some(p)
    ensures p in states[m].procs && states[m].procs[p] == states[n].procs[p]
    ensures states[n].procs[p].run in states[n].runs && states[n].procs[p].run in states[m].runs
    ensures states[m].runs[states[n].procs[p].run] == states[n].runs[states[n].procs[p].run]
    decreases m
  {
    ExecutionKeepsInv(states, actions, n);
    assert Placed(states[n], states[n].procs[p]);
    if n < m {
      ExecutorUndisturbed(states, actions, n, m - 1, p);
      ExecutionKeepsInv(states, actions, m - 1);
      StepLeavesExecutorAlone(states[m - 1], actions[m - 1], states[m], p);
    }
  }

  predicate Active(proc: Process) {
    !proc.Validated? && Executes(proc, proc.run)
  }

  lemma {:induction false} StepLeavesExecutorAlone(s: State, a: Action, t: State, p: nat)
    requires RunsOk(s) && Step(s, a, t) && p in s.procs && Active(s.procs[p]) && Actor(a) != Some(p)
    requires s.procs[p].run in s.runs
    ensures p in t.procs && t.procs[p] == s.procs[p]
    ensures s.procs[p].run in t.runs && t.runs[s.procs[p].run] == s.runs[s.procs[p].run]
  {
    OnlyTheActorMoves(s, a, t, p);
    var q := Actor(a);
    if q.Some? && q.value in s.procs && !s.procs[q.value].Validated? && s.procs[q.value].run == s.procs[p].run {
      ExecutorIsAlone(s, p, q.value);
      assert false;
    }
    OtherRunsUntouched(s, a, t, s.procs[p].run);
  }

  class Database {
    var s: State
    ghost var states: seq<State>
    ghost var actions: seq<Action>

    ghost predicate Valid()
      reads this
    {
      Execution(states, actions) && s == states[|states| - 1]
    }

    /** One step of any process. */
    method Do(a: Action)
      requires Valid() && Enabled(s, a)
      modifies this
      ensures Valid() && s == Apply(old(s), a)
      ensures states == old(states) + [s] && actions == old(actions) + [a]
    {
      OneMoreLink(Step, states, actions, a, Apply(s, a));
      s := Apply(s, a);
      states, actions := states + [s], actions + [a];
    }

    /** Any number of steps of the mailbox, of local maintenance and of other processes.  The body takes
        none, which is one way to meet this contract; the loop relies on nothing but the contract. */
    method Interfere(p: nat)
      requires Valid() && p in s.procs && Active(s.procs[p])
      modifies this
      ensures Valid() && old(states) <= states && old(actions) <= actions
      ensures forall k :: |old(actions)| <= k < |actions| ==> Actor(actions[k]) != Some(p)
      ensures p in s.procs && s.procs[p] == old(s.procs[p])
      ensures s.procs[p].run in s.runs && old(s.procs[p].run in s.runs)
      ensures s.runs[s.procs[p].run] == old(s.runs[s.procs[p].run])
    {
      ExecutorUndisturbed(states, actions, |states| - 1, |states| - 1, p);
    }

    /** Fetches the next planned row; with none left the run is completed. */
    method PickNext(p: nat, run: nat) returns (next: Option<nat>)
      requires Valid() && p in s.procs && s.procs[p] == Picking(run)
      modifies this
      ensures Valid() && old(states) <= states && run in s.runs && old(run in s.runs)
      ensures s.runs[run].rows == old(s.runs[run].rows)
      ensures next == FirstPlanned(s.runs[run].rows, 0)
      ensures next.None? ==> p !in s.procs && s.runs[run].status == RunCompleted
      ensures next.Some? ==> p in s.procs && s.procs[p] == Picked(run, next.value)
    {
      Interfere(p);
      next := FirstPlanned(s.runs[run].rows, 0);
      Do(Pick(p));
    }

    /** The fresh evaluation. */
    method EvaluateTarget(p: nat, run: nat, i: nat) returns (eligible: bool)
      requires Valid() && p in s.procs && s.procs[p] == Picked(run, i)
      modifies this
      ensures Valid() && old(states) <= states && run in s.runs && old(run in s.runs) && s.runs[run] == old(s.runs[run])
      ensures p in s.procs && (if eligible then s.procs[p].Reported? else s.procs[p].Stale?)
      ensures s.procs[p].run == run && s.procs[p].i == i
    {
      Interfere(p);
      ExecutionKeepsInv(states, actions, |states| - 1);
      assert Placed(s, s.procs[p]);
      Do(Evaluate(p));
      eligible := s.procs[p].Reported?;
    }

    /** The identity check. */
    method MatchTarget(p: nat, run: nat, i: nat) returns (current: bool)
      requires Valid() && p in s.procs && s.procs[p].Reported? && s.procs[p].run == run && s.procs[p].i == i
      modifies this
      ensures Valid() && old(states) <= states && run in s.runs && old(run in s.runs) && s.runs[run] == old(s.runs[run])
      ensures p in s.procs && (if current then s.procs[p].Matched? else s.procs[p].Stale?)
      ensures s.procs[p].run == run && s.procs[p].i == i
    {
      Interfere(p);
      ExecutionKeepsInv(states, actions, |states| - 1);
      assert Placed(s, s.procs[p]);
      Do(MatchIdentity(p));
      current := s.procs[p].Matched?;
    }

    method Halt(p: nat, run: nat, i: nat)
      requires Valid() && p in s.procs && s.procs[p] == Stale(run, i)
      modifies this
      ensures Valid() && old(states) <= states && p !in s.procs && RowExists(s, run, i) && old(RowExists(s, run, i))
      ensures s.runs[run] == old(SetStatus(s.runs[run], i, Failed)).(status := RunHalted)
    {
      Interfere(p);
      ExecutionKeepsInv(states, actions, |states| - 1);
      assert Placed(s, s.procs[p]);
      Do(HaltStale(p));
    }

    /** Commits `started` before anything is sent. */
    method Commit(p: nat, run: nat, i: nat)
      requires Valid() && p in s.procs && s.procs[p].Matched? && s.procs[p].run == run && s.procs[p].i == i
      modifies this
      ensures Valid() && old(states) <= states && RowExists(s, run, i) && old(RowExists(s, run, i))
      ensures p in s.procs && s.procs[p].Calling? && s.procs[p].run == run && s.procs[p].i == i
      ensures s.runs[run] == old(SetStatus(s.runs[run], i, Started))
    {
      Interfere(p);
      ExecutionKeepsInv(states, actions, |states| - 1);
      assert Placed(s, s.procs[p]);
      Do(CommitStarted(p));
    }

    /** The single provider call. */
    method Call(p: nat, run: nat, i: nat, result: MutationResult, raised: bool, removed: bool)
      requires Valid() && p in s.procs && s.procs[p].Calling? && s.procs[p].run == run && s.procs[p].i == i
      modifies this
      ensures Valid() && old(states) <= states && run in s.runs && old(run in s.runs) && s.runs[run] == old(s.runs[run])
      ensures p in s.procs && s.procs[p] == Returned(run, i, result, if raised then Some(AdapterException) else None)
    {
      Interfere(p);
      ExecutionKeepsInv(states, actions, |states| - 1);
      assert Placed(s, s.procs[p]);
      Do(CallProvider(p, result, raised, removed));
    }

    /** The first attempt to record failed; an adapter exception is what will be recorded. */
    method RaiseInstead(p: nat, run: nat, i: nat)
      requires Valid() && p in s.procs && s.procs[p].Returned? && s.procs[p].run == run && s.procs[p].i == i && s.procs[p].raised.None?
      modifies this
      ensures Valid() && old(states) <= states && run in s.runs && old(run in s.runs) && s.runs[run] == old(s.runs[run])
      ensures p in s.procs && s.procs[p].Returned? && s.procs[p].run == run && s.procs[p].i == i
      ensures s.procs[p].raised == Some(AdapterException)
    {
      Interfere(p);
      Do(RecordRaises(p));
    }

    method Settle(p: nat, run: nat, i: nat) returns (succeeded: bool)
      requires Valid() && p in s.procs && s.procs[p].Returned? && s.procs[p].run == run && s.procs[p].i == i
      requires s.procs[p].raised == None || s.procs[p].raised == Some(AdapterException)
      modifies this
      ensures Valid() && old(states) <= states && RowExists(s, run, i) && old(RowExists(s, run, i))
      ensures Normalize(old(s.procs[p].result), old(s.procs[p].raised)).Recorded?
      ensures succeeded <==> Normalize(old(s.procs[p].result), old(s.procs[p].raised)).status == Succeeded
      ensures succeeded ==> p in s.procs && s.procs[p] == Picking(run) && s.runs[run] == old(SetStatus(s.runs[run], i, Succeeded))
      ensures !succeeded ==>
                && p !in s.procs
                && s.runs[run] == old(SetStatus(s.runs[run], i, Normalize(s.procs[p].result, s.procs[p].raised).status)).(status := RunHalted)
    {
      Interfere(p);
      ExecutionKeepsInv(states, actions, |states| - 1);
      assert Placed(s, s.procs[p]);
      Do(RecordOutcome(p));
      succeeded := p in s.procs;
    }

    /** The commit, the call and the record of its outcome. */
    method Attempt(p: nat, run: nat, i: nat) returns (goOn: bool)
      requires Valid() && p in s.procs && s.procs[p].Matched? && s.procs[p].run == run && s.procs[p].i == i
      modifies this
      ensures Valid() && old(states) <= states && run in s.runs
      ensures goOn ==> p in s.procs && s.procs[p] == Picking(run) && old(RowExists(s, run, i))
                       && s.runs[run].rows == old(s.runs[run].rows[i := s.runs[run].rows[i].(status := Succeeded)])
      ensures !goOn ==> p !in s.procs && s.runs[run].status == RunHalted
    {
      Commit(p, run, i);
      var result: MutationResult, raised: bool, removed: bool, recordFails: bool := *, *, *, *;
      Call(p, run, i, result, raised, removed);
      if recordFails && !raised {
        RaiseInstead(p, run, i);
      }
      goOn := Settle(p, run, i);
    }

    /** One pass of the loop over the picked row: it goes on only if that row, and no other, has become
        succeeded; otherwise the run is halted and this process has ended. */
    method ExecuteRow(p: nat, run: nat, i: nat) returns (goOn: bool)
      requires Valid() && p in s.procs && s.procs[p] == Picked(run, i)
      modifies this
      ensures Valid() && old(states) <= states && run in s.runs
      ensures goOn ==> p in s.procs && s.procs[p] == Picking(run) && old(RowExists(s, run, i))
                       && s.runs[run].rows == old(s.runs[run].rows[i := s.runs[run].rows[i].(status := Succeeded)])
      ensures !goOn ==> p !in s.procs && s.runs[run].status == RunHalted
    {
      goOn := EvaluateTarget(p, run, i);
      if goOn {
        goOn := MatchTarget(p, run, i);
      }
      if !goOn {
        Halt(p, run, i);
        return;
      }
      goOn := Attempt(p, run, i);
    }

    /** One turn of the loop: picks the first planned row and executes it.  It goes on only with that row
        succeeded; otherwise the run is over and so is this process. */
    method Turn(p: nat, run: nat) returns (goOn: bool, next: nat)
      requires Valid() && p in s.procs && s.procs[p] == Picking(run) && run in s.runs
      modifies this
      ensures Valid() && old(states) <= states && run in s.runs
      ensures goOn ==>
                && p in s.procs && s.procs[p] == Picking(run) && FirstPlanned(old(s.runs[run].rows), 0) == Some(next)
                && next < |old(s.runs[run].rows)|
                && s.runs[run].rows == old(s.runs[run].rows)[next := old(s.runs[run].rows)[next].(status := Succeeded)]
      ensures !goOn ==> p !in s.procs && s.runs[run].status in {RunCompleted, RunHalted}
    {
      FirstPlannedFinds(s.runs[run].rows, 0);
      next := 0;
      var picked := PickNext(p, run);
      if picked.None? { return false, 0; }
      next := picked.value;
      goOn := ExecuteRow(p, run, next);
    }

    /** The loop.  Without a crash of this process it always ends, and it leaves the run completed, with
        every row succeeded, or halted, with nothing in flight. */
    method ExecuteSerial(p: nat)
      requires Valid() && p in s.procs && s.procs[p].Picking?
      modifies this
      ensures Valid() && old(states) <= states && p !in s.procs
      ensures old(s.procs[p].run) in s.runs
      ensures s.runs[old(s.procs[p].run)].status == RunCompleted || s.runs[old(s.procs[p].run)].status == RunHalted
      ensures Shaped(s.runs[old(s.procs[p].run)])
    {
      var run := s.procs[p].run;
      ExecutorHasRun(p);
      Loop(p, run);
      EndsShaped(run);
    }

    lemma {:induction false} ExecutorHasRun(p: nat)
      requires Valid() && p in s.procs && s.procs[p].Picking?
      ensures s.procs[p].run in s.runs
    {
      ExecutionKeepsInv(states, actions, |states| - 1);
      assert Placed(s, s.procs[p]);
    }

    lemma {:induction false} EndsShaped(run: nat)
      requires Valid() && run in s.runs
      ensures Shaped(s.runs[run])
    {
      ExecutionKeepsInv(states, actions, |states| - 1);
    }

    method Loop(p: nat, run: nat)
      requires Valid() && p in s.procs && s.procs[p] == Picking(run) && run in s.runs
      modifies this
      ensures Valid() && old(states) <= states && p !in s.procs
      ensures run in s.runs && s.runs[run].status in {RunCompleted, RunHalted}
    {
      var done: nat := 0;
      ghost var total := |s.runs[run].rows|;
      while true
        invariant Valid() && old(states) <= states
        invariant p in s.procs && s.procs[p] == Picking(run) && run in s.runs
        invariant |s.runs[run].rows| == total && done <= total
        invariant forall j :: 0 <= j < done ==> s.runs[run].rows[j].status != Planned
        decreases total - done
      {
        FirstPlannedFinds(s.runs[run].rows, 0);
        var goOn, next := Turn(p, run);
        if !goOn { return; }
        done := next + 1;
      }
    }
  }
}
