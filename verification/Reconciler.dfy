/**
 The reconciler as one worker runs it without interference: the wrapper's `deploy_process` over
 the conditional status update, the event handler, and the loop that drains the queue. Each
 handled event is shown to be a run of the interleaving protocol of `ProcessDeployment`.
 */
module Reconciler {
  import opened Wrappers
  import opened Scopes
  import opened Authorization
  import opened ProcessDeployment

  datatype Error = NotFound | Conflict | CannotUpdate | DeploymentFailed | AlreadyInProgress

  const RECONCILER := System("process-reconciler")

  /** The state after the only worker has handled one event: the specification of `HandleProcessEvent`. */
  function AfterEvent(env: Environment, s: State, outcome: Outcome): State
    requires s.pending > 0
  {
    if s.row.None? || Converged(env, s.row.value.ToPotto()) || s.row.value.InProgress() then
      s.(pending := s.pending - 1)
    else
      var row := s.row.value;
      s.(row := Some(row.(status := Some(Status(outcome, Some(Hash(env, row.definition)))))),
         runs := s.runs + [Run(0, row.definition, outcome)],
         recorder := 0)
  }

  ghost predicate LeadsTo(env: Environment, s: State, t: State) {
    exists trace: Trace :: After(env, s, trace) == Some(t)
  }

  /** Handling an event without interference is a run of the protocol. */
  lemma HandlingIsARun(env: Environment, s: State, outcome: Outcome)
    requires s.workers == [Idle] && s.pending > 0
    ensures LeadsTo(env, s, AfterEvent(env, s, outcome))
  {
    var trace, t := Extend(env, s, Begin, s, Deliver(0));
    trace, t := Extend(env, s, trace, t, Advance(0, outcome));
    if s.row.Some? && !Converged(env, s.row.value.ToPotto()) {
      assert t == s.(pending := s.pending - 1, workers := [Redeploying]);
      trace, t := ClaimingRun(env, s, trace, t, outcome);
      if !s.row.value.InProgress() {
        trace, t := RecordingRun(env, s, trace, t, outcome);
      }
    }
    assert t == AfterEvent(env, s, outcome);
  }

  lemma ClaimingRun(env: Environment, start: State, earlier: Trace, s: State, outcome: Outcome)
    returns (trace: Trace, t: State)
    requires After(env, start, earlier) == Some(s) && s.workers == [Redeploying] && s.row.Some?
    ensures After(env, start, trace) == Some(t)
    ensures var row := s.row.value;
      t == if row.InProgress() then s.(workers := [Idle])
           else s.(row := Some(row.(status := Some(Status(InProgress, Some(Hash(env, row.definition)))))),
                   workers := [Claimed(row.id)])
  {
    trace, t := LookupRun(env, start, earlier, s, outcome);
    trace, t := Extend(env, start, trace, t, Advance(0, outcome));
  }

  lemma LookupRun(env: Environment, start: State, earlier: Trace, s: State, outcome: Outcome)
    returns (trace: Trace, t: State)
    requires After(env, start, earlier) == Some(s) && s.workers == [Redeploying] && s.row.Some?
    ensures After(env, start, trace) == Some(t)
    ensures t == s.(workers := [Claiming(s.row.value.ToPotto(), s.row.value.id)])
  {
    trace, t := Extend(env, start, earlier, s, Advance(0, outcome));
    trace, t := Extend(env, start, trace, t, Advance(0, outcome));
  }

  lemma RecordingRun(env: Environment, start: State, earlier: Trace, s: State, outcome: Outcome)
    returns (trace: Trace, t: State)
    requires After(env, start, earlier) == Some(s) && s.row.Some? && s.workers == [Claimed(s.row.value.id)]
    requires s.row.value.status == Some(Status(InProgress, Some(Hash(env, s.row.value.definition))))
    ensures After(env, start, trace) == Some(t)
    ensures var row := s.row.value;
      t == s.(row := Some(row.(status := Some(Status(outcome, Some(Hash(env, row.definition)))))),
              runs := s.runs + [Run(0, row.definition, outcome)], recorder := 0,
              pending := s.pending + 1, workers := [Idle])
  {
    var claimed := s.row.value.ToPotto();
    trace, t := Extend(env, start, earlier, s, Advance(0, outcome));
    trace, t := Extend(env, start, trace, t, Advance(0, outcome));
    assert t == s.(runs := s.runs + [Run(0, claimed.definition, outcome)], workers := [Ran(claimed, outcome)]);
    trace, t := Extend(env, start, trace, t, Advance(0, outcome));
    trace, t := Extend(env, start, trace, t, Advance(0, outcome));
    assert t.workers == [Recorded(s.row.value.id, outcome)];
    trace, t := PublishingRun(env, start, trace, t, outcome);
  }

  lemma PublishingRun(env: Environment, start: State, earlier: Trace, s: State, outcome: Outcome)
    returns (trace: Trace, t: State)
    requires After(env, start, earlier) == Some(s) && s.row.Some? && s.workers == [Recorded(s.row.value.id, outcome)]
    ensures After(env, start, trace) == Some(t) && t == s.(pending := s.pending + 1, workers := [Idle])
  {
    trace, t := Extend(env, start, earlier, s, Advance(0, outcome));
    trace, t := Extend(env, start, trace, t, Advance(0, outcome));
  }

  lemma {:induction false} RunPreservesProgress(env: Environment, s: State, trace: Trace)
    requires Progressing(env, s) && After(env, s, trace).Some?
    ensures Progressing(env, After(env, s, trace).value)
  {
    match trace
    case Begin =>
    case Then(earlier, step) =>
      RunPreservesProgress(env, s, earlier);
      StepPreservesProgress(env, After(env, s, earlier).value, step);
  }

  /** The wrapper, with the process manager's row and the internal broker's queue as its stores. */
  class Potto {
    const env: Environment
    /** How the job manager's n-th deployment run ends; None when it raises. */
    const deployment: nat -> Option<Outcome>
    const identifier: string
    const owner: User

    var row: Option<Row>
    var nextId: nat
    var pending: nat
    var runs: seq<Run>
    var recorder: nat

    constructor (env: Environment, deployment: nat -> Option<Outcome>, identifier: string, owner: User)
      ensures this.env == env && this.deployment == deployment && this.identifier == identifier && this.owner == owner
      ensures Protocol() == Initial(1)
    {
      this.env, this.deployment, this.identifier, this.owner := env, deployment, identifier, owner;
      row, nextId, pending, runs, recorder := None, 0, 0, [], 0;
    }

    /** The protocol state this object stands for, seen between two handled events. */
    ghost function Protocol(): State
      reads this
    {
      State(row, nextId, 0, pending, [Idle], runs, recorder)
    }

    function NextOutcome(): Outcome
      reads this
    {
      if deployment(|runs|).Some? then deployment(|runs|).value else Failed
    }

    /** The process as authorization sees it. */
    function ResourceOf(process: Process): Resource {
      Resource(identifier, owner, process.definition.isPublic)
    }

    method SetProcessDeploymentStatus(principal: Principal, process: Process, value: StatusValue,
                                      fromValues: set<StatusValue>, expectedHash: Option<Digest>)
      returns (r: Result<Process, Error>)
      modifies this`row
      ensures r.Failure? ==> row == old(row)
      ensures r == Failure(CannotUpdate) <==> !MayEdit(Processes, Some(principal), ResourceOf(process))
      ensures r == Failure(NotFound) <==> MayEdit(Processes, Some(principal), ResourceOf(process)) && old(row).None?
      ensures MayEdit(Processes, Some(principal), ResourceOf(process)) && old(row).Some? ==>
        var updated := ConditionalUpdate(old(row).value, old(row).value.id,
                                         Status(value, Some(Hash(env, process.definition))), fromValues, expectedHash);
        if updated.Some? then row == updated && r == Success(updated.value.ToPotto())
        else r == Failure(Conflict)
    {
      if !MayEdit(Processes, Some(principal), ResourceOf(process)) {
        return Failure(CannotUpdate);
      }
      if row.None? {
        return Failure(NotFound);
      }
      var status := Status(value, Some(Hash(env, process.definition)));
      var updated := ConditionalUpdate(row.value, row.value.id, status, fromValues, expectedHash);
      if updated.None? {
        return Failure(Conflict);
      }
      row := updated;
      r := Success(row.value.ToPotto());
    }

    /** Whoever may not view the process is told that there is none; whoever may view but not edit it, is refused. */
    method DeployProcess(principal: Principal) returns (r: Result<Process, Error>)
      modifies this`row, this`pending, this`runs, this`recorder
      ensures r.Failure? ==>
        row == old(row) && pending == old(pending) && runs == old(runs) && recorder == old(recorder)
      ensures r == Failure(DeploymentFailed) <==>
        old(row).None? || !MayView(Processes, Some(principal), ResourceOf(old(row).value.ToPotto()))
      ensures old(row).Some? && MayView(Processes, Some(principal), ResourceOf(old(row).value.ToPotto())) ==>
        if !MayEdit(Processes, Some(principal), ResourceOf(old(row).value.ToPotto())) then r == Failure(CannotUpdate)
        else if old(row).value.InProgress() then r == Failure(AlreadyInProgress)
        else
          var ending, was := deployment(|old(runs)|), old(row).value;
          var outcome := if ending.None? then Failed else ending.value;
          && row == Some(Row(was.id, was.definition, Some(Status(outcome, Some(env.sha(was.definition.parts))))))
          && r == Success(Process(was.definition, row.value.status.value))
          && pending == old(pending) + 1 && recorder == 0
          && runs == old(runs) + [Run(0, was.definition, outcome)]
    {
      if row.None? || !MayView(Processes, Some(principal), ResourceOf(row.value.ToPotto())) {
        return Failure(DeploymentFailed);
      }
      var process := row.value.ToPotto();
      var claim := SetProcessDeploymentStatus(principal, process, InProgress, CLAIMABLE, None);
      if claim.Failure? {
        return if claim.error.Conflict? then Failure(AlreadyInProgress) else claim;
      }
      var claimed := claim.value;
      var outcome := NextOutcome();
      runs := runs + [Run(0, claimed.definition, outcome)];
      var recorded := SetProcessDeploymentStatus(principal, claimed, outcome, {InProgress}, claimed.status.hash);
      if recorded == Failure(Conflict) {
        return Success(claimed);
      }
      recorder := 0;
      pending := pending + 1;
      r := recorded;
    }

    /** Nobody is deploying the process, and no outcome is recorded under the hash of its definition. */
    predicate NeedsDeployment(row: Row) {
      row.status.None? ||
      (&& !row.status.value.value.InProgress?
       && (row.status.value.value.Queued? || row.status.value.hash != Some(env.sha(row.definition.parts))))
    }

    method HandleProcessEvent()
      requires pending > 0
      modifies this`row, this`pending, this`runs, this`recorder
      ensures Protocol() == AfterEvent(env, old(Protocol()), old(NextOutcome()))
      ensures LeadsTo(env, old(Protocol()), Protocol())
      ensures if old(row).Some? && NeedsDeployment(old(row).value) then
                var ending, was := deployment(|old(runs)|), old(row).value;
                var outcome := if ending.None? then Failed else ending.value;
                && row == Some(Row(was.id, was.definition, Some(Status(outcome, Some(env.sha(was.definition.parts))))))
                && runs == old(runs) + [Run(0, was.definition, outcome)] && pending == old(pending)
              else row == old(row) && runs == old(runs) && pending == old(pending) - 1
    {
      HandlingIsARun(env, Protocol(), NextOutcome());
      pending := pending - 1;
      if row.Some? && !Converged(env, row.value.ToPotto()) {
        var _ := DeployProcess(RECONCILER);
      }
    }

    function Remaining(): nat
      reads this
    {
      pending + if row.Some? && !Converged(env, row.value.ToPotto()) then 2 else 0
    }

    /**
     With no further changes and no redelivery, the queue empties: every waiting event is handled
     once, plus the one event of the single deployment run that a non-converged process needs.
     */
    method Drain() returns (handled: nat)
      requires Progressing(env, Protocol())
      modifies this`row, this`pending, this`runs, this`recorder
      ensures pending == 0
      ensures row.Some? <==> old(row).Some?
      ensures row.Some? ==> row.value.definition == old(row).value.definition && row.value.id == old(row).value.id
      ensures row.Some? ==>
        && row.value.status.Some? && row.value.status.value.hash == Some(env.sha(row.value.definition.parts))
        && (row.value.status.value.value.Deployed? || row.value.status.value.value.Failed?)
      ensures var needed := if old(row).Some? && !Converged(env, old(row).value.ToPotto()) then 1 else 0;
        |runs| == |old(runs)| + needed && handled == old(pending) + needed
    {
      handled := 0;
      while pending > 0
        invariant Progressing(env, Protocol())
        invariant row.Some? <==> old(row).Some?
        invariant row.Some? ==> row.value.definition == old(row).value.definition && row.value.id == old(row).value.id
        invariant var open := if row.Some? && !Converged(env, row.value.ToPotto()) then 1 else 0;
          var needed := if old(row).Some? && !Converged(env, old(row).value.ToPotto()) then 1 else 0;
          |runs| + open == |old(runs)| + needed && handled + pending + open == old(pending) + needed
        decreases Remaining()
      {
        ghost var before := Protocol();
        HandleProcessEvent();
        ghost var trace :| After(env, before, trace) == Some(Protocol());
        RunPreservesProgress(env, before, trace);
        handled := handled + 1;
      }
    }
  }
}
