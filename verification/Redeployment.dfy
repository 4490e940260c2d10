/**
 How often a process is deployed. One worker deploys it at most once for every change. Two can redeploy
 a definition that nobody changes any more without end: each sees the other's run in progress, takes
 that for having work to do, and claims the process as soon as the other has recorded its outcome.
 */
module Redeployment {
  import opened Wrappers
  import opened ProcessDeployment

  /** The creations, updates and deletions of a run. */
  function Changes(trace: Trace): nat {
    match trace
    case Begin => 0
    case Then(earlier, step) => Changes(earlier) + if step.Create? || step.Update? || step.Delete? then 1 else 0
  }

  /** A step of potto itself, neither a change from outside nor a repeated delivery. */
  predicate IsOwnStep(step: Step) { step.PublishChange? || step.Deliver? || step.Advance? }

  predicate OnlyOwnSteps(trace: Trace) { trace.Then? ==> IsOwnStep(trace.step) && OnlyOwnSteps(trace.earlier) }

  lemma {:induction false} OwnStepsAreNoChanges(trace: Trace)
    requires OnlyOwnSteps(trace)
    ensures Changes(trace) == 0
  {
    if trace.Then? {
      OwnStepsAreNoChanges(trace.earlier);
    }
  }

  lemma {:induction false} Appended(env: Environment, start: State, earlier: Trace, s: State, later: Trace, t: State)
    returns (whole: Trace)
    requires After(env, start, earlier) == Some(s) && After(env, s, later) == Some(t)
    ensures After(env, start, whole) == Some(t) && Changes(whole) == Changes(earlier) + Changes(later)
  {
    match later
    case Begin => whole := earlier;
    case Then(before, step) =>
      whole := Appended(env, start, earlier, s, before, After(env, s, before).value);
      whole := Then(whole, step);
  }

  // ---------------------------------------------------------------- the events

  /** How often changes were published, events delivered again, and events delivered. */
  function Published(trace: Trace): nat {
    if trace.Begin? then 0 else Published(trace.earlier) + if trace.step.PublishChange? then 1 else 0
  }

  function Redelivered(trace: Trace): nat {
    if trace.Begin? then 0 else Redelivered(trace.earlier) + if trace.step.Redeliver? then 1 else 0
  }

  function Delivered(trace: Trace): nat {
    if trace.Begin? then 0 else Delivered(trace.earlier) + if trace.step.Deliver? then 1 else 0
  }

  /** How often an outcome was published. */
  function Announced(env: Environment, start: State, trace: Trace): nat {
    match trace
    case Begin => 0
    case Then(earlier, step) =>
      var s := After(env, start, earlier);
      Announced(env, start, earlier) +
      if s.Some? && step.Advance? && step.worker < |s.value.workers| && s.value.workers[step.worker].Publishing?
      then 1 else 0
  }

  /**
   Events are neither lost nor invented: every change, a deletion included, is published once or still to be
   published, and every published change or outcome, or repeated delivery, was delivered once or is waiting.
   */
  lemma {:induction false} EventsAreConserved(env: Environment, workers: nat, trace: Trace, s: State)
    requires After(env, Initial(workers), trace) == Some(s)
    ensures Changes(trace) == Published(trace) + s.changers
    ensures Published(trace) + Redelivered(trace) + Announced(env, Initial(workers), trace) ==
            Delivered(trace) + s.pending
  {
    match trace
    case Begin =>
    case Then(earlier, step) =>
      var before := After(env, Initial(workers), earlier).value;
      EventsAreConserved(env, workers, earlier, before);
      if step.Advance? {
        AdvanceKeepsEvents(env, before, step.worker, step.outcome);
      }
  }

  lemma AdvanceKeepsEvents(env: Environment, s: State, w: nat, outcome: Outcome)
    requires w < |s.workers| && !s.workers[w].Idle?
    ensures var t := AdvanceWorker(env, s, w, outcome);
      t.changers == s.changers && t.pending == s.pending + if s.workers[w].Publishing? then 1 else 0
  {
  }

  // ---------------------------------------------------------------- one worker

  /** Recording the outcome of what was claimed will leave the row converged. */
  predicate WillConverge(env: Environment, row: Row, claimed: Process) {
    && row.InProgress() && ExpectsStatusOf(row, claimed)
    && env.sha(row.definition.parts) == env.sha(claimed.definition.parts)
  }

  /** The deployments that the only worker will still run, if nothing changes any more. */
  function Owed(env: Environment, s: State): nat
    requires |s.workers| == 1
  {
    var afterwards := if s.row.Some? && !Converged(env, s.row.value.ToPotto()) then 1 else 0;
    match s.workers[0]
    case Redeploying => if s.row.Some? then 1 else 0
    case Reread(_) => if s.row.Some? then 1 else 0
    case Claiming(_, _) => if s.row.Some? then 1 else 0
    case Claimed(id) =>
      if s.row.None? then 1 else if s.row.value.id == id && !s.row.value.InProgress() then 2 else 1
    case Deploying(claimed) =>
      1 + if s.row.Some? && !WillConverge(env, s.row.value, claimed) then 1 else 0
    case Ran(claimed, _) =>
      if s.row.Some? && !WillConverge(env, s.row.value, claimed) then 1 else 0
    case Recording(claimed, _, id) =>
      if s.row.Some? && !(s.row.value.id == id && WillConverge(env, s.row.value, claimed)) then 1 else 0
    case Idle => afterwards
    case Woken => afterwards
    case Recorded(_, _) => afterwards
    case Publishing(_) => afterwards
  }

  lemma ChangeOwesOne(env: Environment, s: State, step: Step)
    requires |s.workers| == 1 && (step.Create? || step.Update? || step.Delete?) && Next(env, s, step).Some?
    ensures var t := Next(env, s, step).value;
      t.workers == s.workers && t.runs == s.runs && Owed(env, t) <= Owed(env, s) + 1
  {
  }

  lemma AdvanceOwesNoMore(env: Environment, s: State, outcome: Outcome)
    requires |s.workers| == 1 && !s.workers[0].Idle?
    ensures var t := AdvanceWorker(env, s, 0, outcome);
      |t.workers| == 1 && |t.runs| + Owed(env, t) <= |s.runs| + Owed(env, s)
  {
    var worker := s.workers[0];
    if worker.Recording? {
      RecordOwesNoMore(env, s, outcome);
    }
  }

  lemma RecordOwesNoMore(env: Environment, s: State, outcome: Outcome)
    requires |s.workers| == 1 && s.workers[0].Recording?
    ensures var t := AdvanceWorker(env, s, 0, outcome);
      t.runs == s.runs && Owed(env, t) <= Owed(env, s)
  {
    RecordExactly(env, s, 0, outcome);
  }

  /** A single worker deploys at most once for every change, however often events are delivered. */
  lemma {:induction false} OneWorkerDeploysOncePerChange(env: Environment, trace: Trace, s: State)
    requires After(env, Initial(1), trace) == Some(s)
    ensures |s.workers| == 1 && |s.runs| + Owed(env, s) <= Changes(trace)
  {
    match trace
    case Begin =>
    case Then(earlier, step) =>
      var before := After(env, Initial(1), earlier).value;
      OneWorkerDeploysOncePerChange(env, earlier, before);
      if step.Create? || step.Update? || step.Delete? {
        ChangeOwesOne(env, before, step);
      } else if step.Advance? {
        AdvanceOwesNoMore(env, before, step.outcome);
      }
  }

  // ---------------------------------------------------------------- two workers

  /** The process as it is read while a deployment of its current definition is in progress. */
  function Claim(env: Environment, d: Definition): Process {
    Process(d, Status(InProgress, Some(env.sha(d.parts))))
  }

  /** Worker `v` is deploying while worker `w`, which saw that, is about to claim; nothing else is going on. */
  ghost predicate Chasing(env: Environment, s: State, v: nat, w: nat, d: Definition) {
    var seen := Claim(env, d);
    && v < |s.workers| && w < |s.workers| && v != w
    && s.row == Some(Row(0, d, Some(seen.status))) && s.changers == 0 && s.pending == 0
    && s.workers[v] == Deploying(seen) && s.workers[w] == Claiming(seen, 0)
  }

  lemma Extend(env: Environment, start: State, trace: Trace, s: State, step: Step) returns (longer: Trace, t: State)
    requires After(env, start, trace) == Some(s) && OnlyOwnSteps(trace)
    requires IsOwnStep(step) && Next(env, s, step).Some?
    ensures After(env, start, longer) == Some(t) && OnlyOwnSteps(longer) && Some(t) == Next(env, s, step)
    ensures Length(longer) == Length(trace) + 1
  {
    longer, t := Then(trace, step), Next(env, s, step).value;
  }

  /** A woken worker finds a deployment of the current definition in progress and gets ready to claim. */
  lemma Chase(env: Environment, start: State, earlier: Trace, before: State, v: nat, w: nat, d: Definition)
    returns (trace: Trace, s: State)
    requires After(env, start, earlier) == Some(before) && OnlyOwnSteps(earlier)
    requires w < |before.workers| && before.workers[w] == Woken
    requires Chasing(env, before.(workers := before.workers[w := Claiming(Claim(env, d), 0)]), v, w, d)
    ensures After(env, start, trace) == Some(s) && OnlyOwnSteps(trace)
    ensures Chasing(env, s, v, w, d) && s.runs == before.runs && |s.workers| == |before.workers|
  {
    trace, s := Extend(env, start, earlier, before, Advance(w, Failed));
    trace, s := Extend(env, start, trace, s, Advance(w, Failed));
    trace, s := Extend(env, start, trace, s, Advance(w, Failed));
  }

  /** The deployment ends and is recorded. */
  lemma Finish(env: Environment, start: State, earlier: Trace, before: State, v: nat, w: nat, d: Definition,
               outcome: Outcome)
    returns (trace: Trace, s: State)
    requires After(env, start, earlier) == Some(before) && OnlyOwnSteps(earlier) && Chasing(env, before, v, w, d)
    ensures After(env, start, trace) == Some(s) && OnlyOwnSteps(trace)
    ensures s.row == Some(Row(0, d, Some(Status(outcome, Some(env.sha(d.parts))))))
    ensures s.changers == 0 && s.pending == 0 && s.workers == before.workers[v := Recorded(0, outcome)]
    ensures s.runs == before.runs + [Run(v, d, outcome)]
  {
    trace, s := Extend(env, start, earlier, before, Advance(v, outcome));
    trace, s := Extend(env, start, trace, s, Advance(v, outcome));
    trace, s := Extend(env, start, trace, s, Advance(v, outcome));
  }

  /** The outcome is published. */
  lemma Publish(env: Environment, start: State, earlier: Trace, before: State, v: nat, outcome: Outcome)
    returns (trace: Trace, s: State)
    requires After(env, start, earlier) == Some(before) && OnlyOwnSteps(earlier)
    requires v < |before.workers| && before.row.Some? && before.workers[v] == Recorded(before.row.value.id, outcome)
    ensures After(env, start, trace) == Some(s) && OnlyOwnSteps(trace)
    ensures s == before.(workers := before.workers[v := Idle], pending := before.pending + 1)
  {
    trace, s := Extend(env, start, earlier, before, Advance(v, outcome));
    trace, s := Extend(env, start, trace, s, Advance(v, outcome));
  }

  /** The other worker claims, and the event wakes the first one again. */
  lemma TakeOver(env: Environment, start: State, earlier: Trace, before: State, v: nat, w: nat, d: Definition,
                 outcome: Outcome)
    returns (trace: Trace, s: State)
    requires After(env, start, earlier) == Some(before) && OnlyOwnSteps(earlier)
    requires v < |before.workers| && w < |before.workers| && v != w
    requires before.row == Some(Row(0, d, Some(Status(outcome, Some(env.sha(d.parts))))))
    requires before.changers == 0 && before.pending == 1
    requires before.workers[v] == Idle && before.workers[w] == Claiming(Claim(env, d), 0)
    ensures After(env, start, trace) == Some(s) && OnlyOwnSteps(trace)
    ensures s.row == Some(Row(0, d, Some(Claim(env, d).status))) && s.changers == 0 && s.pending == 0
    ensures s.workers == before.workers[w := Deploying(Claim(env, d))][v := Woken] && s.runs == before.runs
  {
    trace, s := Extend(env, start, earlier, before, Advance(w, outcome));
    assert s.workers == before.workers[w := Claimed(0)] && s.row.value.status == Some(Claim(env, d).status);
    trace, s := Extend(env, start, trace, s, Advance(w, outcome));
    trace, s := Extend(env, start, trace, s, Deliver(v));
  }

  /** The roles are swapped, with one more deployment run. */
  lemma Round(env: Environment, start: State, earlier: Trace, before: State, v: nat, w: nat, d: Definition,
              outcome: Outcome)
    returns (trace: Trace, s: State)
    requires After(env, start, earlier) == Some(before) && OnlyOwnSteps(earlier) && Chasing(env, before, v, w, d)
    ensures After(env, start, trace) == Some(s) && OnlyOwnSteps(trace)
    ensures Chasing(env, s, w, v, d) && s.runs == before.runs + [Run(v, d, outcome)]
    ensures |s.workers| == |before.workers|
  {
    trace, s := Finish(env, start, earlier, before, v, w, d, outcome);
    trace, s := Publish(env, start, trace, s, v, outcome);
    trace, s := TakeOver(env, start, trace, s, v, w, d, outcome);
    trace, s := Chase(env, start, trace, s, w, v, d);
  }

  lemma FirstEvents(env: Environment, workers: nat, d: Definition) returns (trace: Trace, s: State)
    ensures After(env, Initial(workers), trace) == Some(s) && Changes(trace) == 1
    ensures s == Initial(workers).(row := Some(Row(0, d, None)), nextId := 1, pending := 2)
  {
    var start := Initial(workers);
    var created := start.(row := Some(Row(0, d, None)), nextId := 1, changers := 1);
    trace := Then(Begin, Create(d));
    assert After(env, start, trace) == Some(created) && Changes(trace) == 1;
    var published := created.(changers := 0, pending := 1);
    trace := Then(trace, PublishChange);
    assert After(env, start, trace) == Some(published);
    trace := Then(trace, Redeliver);
    s := published.(pending := 2);
  }

  /** A process is created, its event is delivered to both workers, and the first of them claims it. */
  lemma FirstClaim(env: Environment, workers: nat, d: Definition) returns (trace: Trace, s: State)
    requires workers >= 2
    ensures After(env, Initial(workers), trace) == Some(s) && Changes(trace) == 1
    ensures |s.workers| == workers && s.workers[0] == Deploying(Claim(env, d)) && s.workers[1] == Woken
    ensures s.row == Some(Row(0, d, Some(Claim(env, d).status)))
    ensures s.changers == 0 && s.pending == 0 && s.runs == []
  {
    var first, published := FirstEvents(env, workers, d);
    var tail, t := WakeBoth(env, published, d);
    tail, s := ClaimFirst(env, published, tail, t, d);
    trace := Appended(env, Initial(workers), first, published, tail, s);
    OwnStepsAreNoChanges(tail);
  }

  /** Both are woken, and the first gets as far as reading the process again. */
  lemma WakeBoth(env: Environment, start: State, d: Definition) returns (trace: Trace, s: State)
    requires |start.workers| >= 2 && start.workers[0] == start.workers[1] == Idle
    requires start.row == Some(Row(0, d, None)) && start.pending == 2
    ensures After(env, start, trace) == Some(s) && OnlyOwnSteps(trace)
    ensures s == start.(pending := 0,
                        workers := start.workers[0 := Reread(Process(d, Status(Failed, None)))][1 := Woken])
  {
    trace, s := Extend(env, start, Begin, start, Deliver(0));
    trace, s := Extend(env, start, trace, s, Deliver(1));
    assert s == start.(pending := 0, workers := start.workers[0 := Woken][1 := Woken]);
    trace, s := Extend(env, start, trace, s, Advance(0, Failed));
    trace, s := Extend(env, start, trace, s, Advance(0, Failed));
  }

  lemma ClaimFirst(env: Environment, start: State, earlier: Trace, before: State, d: Definition)
    returns (trace: Trace, s: State)
    requires After(env, start, earlier) == Some(before) && OnlyOwnSteps(earlier)
    requires before.workers != [] && before.workers[0] == Reread(Process(d, Status(Failed, None)))
    requires before.row == Some(Row(0, d, None))
    ensures After(env, start, trace) == Some(s) && OnlyOwnSteps(trace)
    ensures s == before.(row := Some(Row(0, d, Some(Claim(env, d).status))),
                         workers := before.workers[0 := Deploying(Claim(env, d))])
  {
    trace, s := Extend(env, start, earlier, before, Advance(0, Failed));
    trace, s := Extend(env, start, trace, s, Advance(0, Failed));
    assert s.workers == before.workers[0 := Claimed(0)] && s.row.value.status == Some(Claim(env, d).status);
    trace, s := Extend(env, start, trace, s, Advance(0, Failed));
  }

  /** From there on potto's own steps suffice for any number of deployment runs. */
  lemma {:induction false} RedeploysWithoutEnd(env: Environment, start: State, v: nat, w: nat, d: Definition,
                                               outcome: Outcome, n: nat)
    returns (trace: Trace, s: State)
    requires Chasing(env, start, v, w, d)
    ensures After(env, start, trace) == Some(s) && OnlyOwnSteps(trace)
    ensures if n % 2 == 0 then Chasing(env, s, v, w, d) else Chasing(env, s, w, v, d)
    ensures |s.runs| == |start.runs| + n
    ensures forall i :: |start.runs| <= i < |s.runs| ==> s.runs[i].definition == d && s.runs[i].outcome == outcome
  {
    if n == 0 {
      trace, s := Begin, start;
    } else {
      trace, s := RedeploysWithoutEnd(env, start, v, w, d, outcome, n - 1);
      if n % 2 == 1 {
        trace, s := Round(env, start, trace, s, v, w, d, outcome);
      } else {
        trace, s := Round(env, start, trace, s, w, v, d, outcome);
      }
    }
  }

  /** One creation and one repeated delivery lead two workers, or more, to deploy a definition as often as one likes. */
  lemma OneChangeRedeploys(env: Environment, workers: nat, d: Definition, outcome: Outcome, n: nat)
    returns (trace: Trace, s: State)
    requires workers >= 2
    ensures After(env, Initial(workers), trace) == Some(s) && Changes(trace) == 1
    ensures |s.runs| == n && forall run <- s.runs :: run.definition == d && run.outcome == outcome
  {
    var first, t := FirstClaim(env, workers, d);
    var second, u := Chase(env, t, Begin, t, 0, 1, d);
    var third;
    third, s := RedeploysWithoutEnd(env, u, 0, 1, d, outcome, n);
    OwnStepsAreNoChanges(second);
    OwnStepsAreNoChanges(third);
    trace := Appended(env, Initial(workers), first, t, second, u);
    trace := Appended(env, Initial(workers), trace, u, third, s);
  }

  /** No run deploys more often than the number of its changes allows. */
  ghost predicate IsBound(env: Environment, workers: nat, bound: nat -> nat) {
    forall trace, s :: After(env, Initial(workers), trace) == Some(s) ==> |s.runs| <= bound(Changes(trace))
  }

  lemma {:induction false} WithoutWorkers(env: Environment, trace: Trace, s: State)
    requires After(env, Initial(0), trace) == Some(s)
    ensures s.workers == [] && s.runs == []
  {
    match trace
    case Begin =>
    case Then(earlier, step) =>
      WithoutWorkers(env, earlier, After(env, Initial(0), earlier).value);
  }

  /**
   The number of changes bounds the number of deployments exactly when at most one worker serves the
   process, and then every change causes one at most.
   */
  lemma BoundedExactlyWhen(env: Environment, workers: nat)
    ensures (exists bound: nat -> nat :: IsBound(env, workers, bound)) <==> workers <= 1
    ensures IsBound(env, workers, (changes: nat) => changes) <==> workers <= 1
  {
    if workers <= 1 {
      forall trace, s | After(env, Initial(workers), trace) == Some(s) ensures |s.runs| <= Changes(trace) {
        if workers == 0 {
          WithoutWorkers(env, trace, s);
        } else {
          OneWorkerDeploysOncePerChange(env, trace, s);
        }
      }
      assert IsBound(env, workers, (changes: nat) => changes);
    } else {
      forall bound: nat -> nat ensures !IsBound(env, workers, bound) {
        var d := Definition("", "", false, DeployableParts(None, [], []));
        var trace, s := OneChangeRedeploys(env, workers, d, Deployed, bound(1) + 1);
      }
    }
  }

  // ---------------------------------------------------------------- coming to rest

  function Length(trace: Trace): nat { if trace.Begin? then 0 else Length(trace.earlier) + 1 }

  /** A worker's steps, where running a deployment is paid for by the deployment that is owed. */
  function StepsLeft(worker: Worker): nat {
    match worker
    case Idle => 0
    case Deploying(_) => 1
    case Claimed(_) => 2
    case Claiming(_, _) => 3
    case Reread(_) => 4
    case Redeploying => 5
    case Woken => 6
    case Publishing(_) => 9
    case Recorded(_, _) => 10
    case Recording(_, _, _) => 11
    case Ran(_, _) => 12
  }

  function Remaining(env: Environment, s: State): nat
    requires |s.workers| == 1
  {
    12 * Owed(env, s) + 9 * s.changers + 8 * s.pending + StepsLeft(s.workers[0])
  }

  lemma AdvanceUsesStep(env: Environment, s: State, outcome: Outcome)
    requires |s.workers| == 1 && !s.workers[0].Idle?
    ensures var t := AdvanceWorker(env, s, 0, outcome);
      |t.workers| == 1 && Remaining(env, t) < Remaining(env, s)
  {
    AdvanceOwesNoMore(env, s, outcome);
  }

  lemma OwnStepUsesStep(env: Environment, s: State, step: Step)
    requires |s.workers| == 1 && IsOwnStep(step) && Next(env, s, step).Some?
    ensures var t := Next(env, s, step).value;
      |t.workers| == 1 && Remaining(env, t) < Remaining(env, s) && IsSameDefinition(s.row, t.row)
  {
    if step.Advance? {
      AdvanceUsesStep(env, s, step.outcome);
    }
  }

  /** Only the recorded status may differ. */
  predicate IsSameDefinition(before: Option<Row>, after: Option<Row>) {
    && before.Some? == after.Some?
    && (before.Some? ==> before.value.id == after.value.id && before.value.definition == after.value.definition)
  }

  lemma {:induction false} OwnRunsAreShort(env: Environment, s: State, trace: Trace, t: State)
    requires |s.workers| == 1 && After(env, s, trace) == Some(t) && OnlyOwnSteps(trace)
    ensures |t.workers| == 1 && Length(trace) + Remaining(env, t) <= Remaining(env, s)
    ensures IsSameDefinition(s.row, t.row)
  {
    match trace
    case Begin =>
    case Then(earlier, step) =>
      var before := After(env, s, earlier).value;
      OwnRunsAreShort(env, s, earlier, before);
      OwnStepUsesStep(env, before, step);
  }

  lemma OwnStepRemains(env: Environment, s: State) returns (step: Step)
    requires |s.workers| > 0 && !Quiescent(s)
    ensures IsOwnStep(step) && Next(env, s, step).Some?
  {
    if w :| 0 <= w < |s.workers| && !s.workers[w].Idle? {
      step := Advance(w, Failed);
    } else if s.changers > 0 {
      step := PublishChange;
    } else {
      step := Deliver(0);
    }
  }

  /**
   Left alone at any moment, a process that one worker serves is deployed or has failed under its current
   definition after boundedly many steps, in whatever order they are taken.
   */
  lemma LeftAloneItConverges(env: Environment, earlier: Trace, s: State, trace: Trace, t: State)
    requires After(env, Initial(1), earlier) == Some(s)
    requires After(env, s, trace) == Some(t) && OnlyOwnSteps(trace)
    ensures |s.workers| == 1 && Length(trace) <= Remaining(env, s)
    ensures s.row.Some? && (forall step :: IsOwnStep(step) ==> Next(env, t, step).None?) ==>
      && t.row.Some? && t.row.value.definition == s.row.value.definition && t.row.value.status.Some?
      && t.row.value.status.value.hash == Some(env.sha(s.row.value.definition.parts))
      && t.row.value.status.value.value in {Deployed, Failed}
  {
    OneWorkerDeploysOncePerChange(env, earlier, s);
    OwnRunsAreShort(env, s, trace, t);
    if s.row.Some? && forall step :: IsOwnStep(step) ==> Next(env, t, step).None? {
      if !Quiescent(t) {
        var step := OwnStepRemains(env, t);
      }
      var whole := Appended(env, Initial(1), earlier, s, trace, t);
      IsReachable(env, 1, whole, t);
      ConvergesAtQuiescence(env, t);
    }
  }
}
