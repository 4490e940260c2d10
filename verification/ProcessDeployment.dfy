/**
 The deployment protocol of a process, as an interleaving of workers.

 Several workers receive internal process events, each at least once, and reconcile the
 process with its recorded deployment status. Every `await` of the program is a step
 boundary here: between two steps of one worker, any number of other workers, updates,
 deletions and re-creations may run. Each database statement is one step.
 */
module ProcessDeployment {
  import opened Wrappers

  type Digest = string

  /** The parts of a process that its deployment hash covers. */
  datatype DeployableParts = DeployableParts(executionUnit: Option<string>, inputs: seq<string>, outputs: seq<string>)

  datatype Definition = Definition(title: string, version: string, isPublic: bool, parts: DeployableParts)

  datatype StatusValue = Queued | InProgress | Deployed | Failed

  /** What a deployment run ends with; a run that raises counts as failed. */
  type Outcome = v: StatusValue | v.Deployed? || v.Failed? witness Failed

  datatype Status = Status(value: StatusValue, hash: Option<Digest>)

  /** A process as handed around in memory: a copy of a row at some past moment. */
  datatype Process = Process(definition: Definition, status: Status)

  /** The stored row. A row without any recorded status counts as failed. */
  datatype Row = Row(id: nat, definition: Definition, status: Option<Status>) {
    function ToPotto(): Process {
      Process(definition, if status.Some? then status.value else Status(Failed, None))
    }

    predicate InProgress() { ToPotto().status.value.InProgress? }
  }

  /**
   What varies between installations: the hash function, whether updating a definition also
   resets the recorded status to queued (`updatesReset`; the PostGIS manager never does), and
   whether a deleted process may be created again under its old identifier (`recreates`).
   */
  datatype Environment = Environment(sha: DeployableParts -> Digest, updatesReset: bool, recreates: bool)

  function Hash(env: Environment, definition: Definition): Digest { env.sha(definition.parts) }

  /** The reconciler's test for having nothing to do. */
  predicate Converged(env: Environment, process: Process) {
    process.status.hash == Some(Hash(env, process.definition)) && process.status.value in {Deployed, Failed}
  }

  /** The conditional UPDATE statement: check and write are one atomic step. */
  function ConditionalUpdate(row: Row, id: nat, status: Status, fromValues: set<StatusValue>,
                             expectedHash: Option<Digest>): Option<Row>
  {
    if && row.id == id
       && row.ToPotto().status.value in fromValues
       && (expectedHash.Some? ==> row.ToPotto().status.hash == expectedHash)
    then Some(row.(status := Some(status)))
    else None
  }

  const CLAIMABLE: set<StatusValue> := {Queued, Deployed, Failed}

  /** Where a worker stands, with the locals it still needs. */
  datatype Worker =
    | Idle
    | Woken                                                        // has an event, about to read the process
    | Redeploying                                                  // saw it not converged, about to read it again
    | Reread(process: Process)                                     // about to look up the row to claim
    | Claiming(process: Process, id: nat)                          // about to run the claiming UPDATE
    | Claimed(id: nat)                                             // claim committed, about to read the row back
    | Deploying(claimed: Process)                                  // the deployment is running
    | Ran(claimed: Process, outcome: Outcome)                  // about to look up the row to record in
    | Recording(claimed: Process, outcome: Outcome, id: nat)   // about to run the recording UPDATE
    | Recorded(id: nat, outcome: Outcome)                      // outcome committed, about to read the row back
    | Publishing(outcome: Outcome)                             // about to publish the outcome event

  /** A completed deployment run. */
  datatype Run = Run(worker: nat, definition: Definition, outcome: Outcome)

  /**
   `changers` counts create, update and delete calls that have committed but not yet published
   their event. The reconciler only uses an event's process identifier, so the pending events
   of one process are a count. `runs` and `recorder` are history.
   */
  datatype State = State(row: Option<Row>, nextId: nat, changers: nat, pending: nat, workers: seq<Worker>,
                         runs: seq<Run>, recorder: nat)

  datatype Step =
    | Create(definition: Definition)
    | Update(definition: Definition, reset: Option<Status>)
    | Delete
    | PublishChange
    | Redeliver
    | Deliver(worker: nat)
    | Advance(worker: nat, outcome: Outcome)

  function Initial(workers: nat): State {
    State(None, 0, 0, 0, seq(workers, _ => Idle), [], 0)
  }

  /** The state after a step, or None where the step cannot happen. */
  function Next(env: Environment, s: State, step: Step): Option<State> {
    match step
    case Create(definition) =>
      if s.row.None? && (env.recreates || s.nextId == 0)
      then Some(s.(row := Some(Row(s.nextId, definition, None)), nextId := s.nextId + 1, changers := s.changers + 1))
      else None
    case Update(definition, reset) =>
      if s.row.Some? && (reset.Some? ==> env.updatesReset && reset.value.value.Queued?)
      then Some(s.(row := Some(Row(s.row.value.id, definition, if reset.Some? then reset else s.row.value.status)),
                   changers := s.changers + 1))
      else None
    case Delete =>
      if s.row.Some? then Some(s.(row := None, changers := s.changers + 1)) else None
    case PublishChange =>
      if s.changers > 0 then Some(s.(changers := s.changers - 1, pending := s.pending + 1)) else None
    case Redeliver =>
      Some(s.(pending := s.pending + 1))
    case Deliver(w) =>
      if w < |s.workers| && s.workers[w].Idle? && s.pending > 0
      then Some(s.(pending := s.pending - 1, workers := s.workers[w := Woken]))
      else None
    case Advance(w, outcome) =>
      if w < |s.workers| && !s.workers[w].Idle?
      then Some(AdvanceWorker(env, s, w, outcome))
      else None
  }

  /** The reconciler's and `deploy_process`'s code, one await at a time. */
  function AdvanceWorker(env: Environment, s: State, w: nat, outcome: Outcome): State
    requires w < |s.workers| && !s.workers[w].Idle?
  {
    match s.workers[w]
    case Woken =>
      // undeploying a deleted process raises, and a converged one needs nothing
      MoveTo(s, w, if s.row.Some? && !Converged(env, s.row.value.ToPotto()) then Redeploying else Idle)
    case Redeploying =>
      MoveTo(s, w, if s.row.Some? then Reread(s.row.value.ToPotto()) else Idle)
    case Reread(process) =>
      MoveTo(s, w, if s.row.Some? then Claiming(process, s.row.value.id) else Idle)
    case Claiming(process, id) =>
      var claim := Status(InProgress, Some(Hash(env, process.definition)));
      var row := if s.row.Some? then ConditionalUpdate(s.row.value, id, claim, CLAIMABLE, None) else None;
      if row.Some? then MoveTo(s.(row := row), w, Claimed(id)) else MoveTo(s, w, Idle)
    case Claimed(id) =>
      MoveTo(s, w, if s.row.Some? && s.row.value.id == id then Deploying(s.row.value.ToPotto()) else Idle)
    case Deploying(claimed) =>
      MoveTo(s.(runs := s.runs + [Run(w, claimed.definition, outcome)]), w, Ran(claimed, outcome))
    case Ran(claimed, result) =>
      MoveTo(s, w, if s.row.Some? then Recording(claimed, result, s.row.value.id) else Idle)
    case Recording(claimed, result, id) =>
      var record := Status(result, Some(Hash(env, claimed.definition)));
      var row := if s.row.Some?
                 then ConditionalUpdate(s.row.value, id, record, {InProgress}, claimed.status.hash)
                 else None;
      if row.Some? then MoveTo(s.(row := row, recorder := w), w, Recorded(id, result)) else MoveTo(s, w, Idle)
    case Recorded(id, result) =>
      MoveTo(s, w, if s.row.Some? && s.row.value.id == id then Publishing(result) else Idle)
    case Publishing(_) =>
      MoveTo(s.(pending := s.pending + 1), w, Idle)
  }

  function MoveTo(s: State, w: nat, worker: Worker): State
    requires w < |s.workers|
  {
    s.(workers := s.workers[w := worker])
  }

  /** A run: the steps taken so far, latest last. */
  datatype Trace = Begin | Then(earlier: Trace, step: Step)

  function After(env: Environment, start: State, trace: Trace): Option<State> {
    match trace
    case Begin => Some(start)
    case Then(earlier, step) =>
      var s := After(env, start, earlier);
      if s.Some? then Next(env, s.value, step) else None
  }

  ghost predicate Reachable(env: Environment, s: State) {
    exists workers: nat, trace: Trace :: After(env, Initial(workers), trace) == Some(s)
  }

  lemma IsReachable(env: Environment, workers: nat, trace: Trace, s: State)
    requires After(env, Initial(workers), trace) == Some(s)
    ensures Reachable(env, s)
  {
  }

  /** Nobody is mid-flight and no event is waiting. */
  predicate Quiescent(s: State) {
    s.changers == 0 && s.pending == 0 && forall w :: 0 <= w < |s.workers| ==> s.workers[w].Idle?
  }

  // ---------------------------------------------------------------- the two conditional updates

  /** A status that may be claimed: none recorded yet, or any but in progress. */
  predicate IsClaimable(row: Row) { row.status.Some? ==> !row.status.value.value.InProgress? }

  /** A claim takes the row it looked up, if it still exists and nobody is deploying it, and changes nothing else. */
  lemma ClaimExactly(env: Environment, s: State, w: nat, outcome: Outcome)
    requires w < |s.workers| && s.workers[w].Claiming?
    ensures var worker, t := s.workers[w], AdvanceWorker(env, s, w, outcome);
      if s.row.Some? && s.row.value.id == worker.id && IsClaimable(s.row.value) then
        && t.row == Some(Row(worker.id, s.row.value.definition,
                             Some(Status(InProgress, Some(env.sha(worker.process.definition.parts))))))
        && t.workers == s.workers[w := Claimed(worker.id)]
      else t.row == s.row && t.workers == s.workers[w := Idle]
  {
  }

  /** The row is in progress under the hash that a claim was read back with. */
  predicate IsOwnClaim(row: Row, claimed: Process) {
    && row.status.Some? && row.status.value.value.InProgress?
    && (claimed.status.hash.Some? ==> row.status.value.hash == claimed.status.hash)
  }

  /** A record replaces an in-progress status under the recorder's own hash, by the outcome of its run, and no other. */
  lemma RecordExactly(env: Environment, s: State, w: nat, outcome: Outcome)
    requires w < |s.workers| && s.workers[w].Recording?
    ensures var worker, t := s.workers[w], AdvanceWorker(env, s, w, outcome);
      if s.row.Some? && s.row.value.id == worker.id && IsOwnClaim(s.row.value, worker.claimed) then
        && t.row == Some(Row(worker.id, s.row.value.definition,
                             Some(Status(worker.outcome, Some(env.sha(worker.claimed.definition.parts))))))
        && t.workers == s.workers[w := Recorded(worker.id, worker.outcome)] && t.recorder == w
      else t.row == s.row && t.workers == s.workers[w := Idle]
  {
  }

  // ---------------------------------------------------------------- convergence

  /** The worker's recording UPDATE will succeed if the row's status stays as it is. */
  predicate WillRecord(row: Row, worker: Worker) {
    && row.InProgress()
    && match worker
       case Claimed(id) => row.id == id
       case Deploying(claimed) => ExpectsStatusOf(row, claimed)
       case Ran(claimed, _) => ExpectsStatusOf(row, claimed)
       case Recording(claimed, _, id) => row.id == id && ExpectsStatusOf(row, claimed)
       case _ => false
  }

  predicate ExpectsStatusOf(row: Row, claimed: Process) {
    claimed.status.hash.Some? ==> row.ToPotto().status.hash == claimed.status.hash
  }

  /** The worker will look at the row again, or publish an event that makes another one look. */
  predicate WillRevisit(row: Row, worker: Worker) {
    match worker
    case Woken => true
    case Redeploying => true
    case Reread(_) => true
    case Claiming(_, id) => row.id == id
    case Recorded(id, _) => row.id == id
    case Publishing(_) => true
    case _ => WillRecord(row, worker)
  }

  lemma RecordingIsRevisiting(row: Row, worker: Worker)
    requires WillRecord(row, worker)
    ensures WillRevisit(row, worker)
  {
  }

  /** An in-progress deployment has a worker that will record its outcome. */
  ghost predicate InProgressIsOwned(s: State) {
    s.row.Some? && s.row.value.InProgress() ==>
      exists w :: 0 <= w < |s.workers| && WillRecord(s.row.value, s.workers[w])
  }

  /** Whatever is not converged is still owed an event or a record. */
  ghost predicate NoLostWork(env: Environment, s: State) {
    s.row.Some? && !Converged(env, s.row.value.ToPotto()) ==>
      || s.changers > 0
      || s.pending > 0
      || exists w :: 0 <= w < |s.workers| && WillRevisit(s.row.value, s.workers[w])
  }

  ghost predicate Progressing(env: Environment, s: State) {
    InProgressIsOwned(s) && NoLostWork(env, s)
  }

  lemma AdvancePreservesProgress(env: Environment, s: State, w: nat, outcome: Outcome)
    requires Progressing(env, s)
    requires w < |s.workers| && !s.workers[w].Idle?
    ensures Progressing(env, AdvanceWorker(env, s, w, outcome))
  {
    var t := AdvanceWorker(env, s, w, outcome);
    if t.row.Some? && t.row.value.InProgress() && !WillRecord(t.row.value, t.workers[w]) {
      var v :| 0 <= v < |s.workers| && WillRecord(s.row.value, s.workers[v]);
      assert v != w && WillRecord(t.row.value, t.workers[v]);
    }
    if t.row.Some? && !Converged(env, t.row.value.ToPotto()) && t.changers == 0 && t.pending == 0 {
      if t.row.value.InProgress() {
        var v :| 0 <= v < |t.workers| && WillRecord(t.row.value, t.workers[v]);
        RecordingIsRevisiting(t.row.value, t.workers[v]);
      } else if !WillRevisit(t.row.value, t.workers[w]) {
        assert t.row == s.row;
        var v :| 0 <= v < |s.workers| && WillRevisit(s.row.value, s.workers[v]);
        assert v != w && WillRevisit(t.row.value, t.workers[v]);
      }
    }
  }

  lemma StepPreservesProgress(env: Environment, s: State, step: Step)
    requires Progressing(env, s) && Next(env, s, step).Some?
    ensures Progressing(env, Next(env, s, step).value)
  {
    var t := Next(env, s, step).value;
    match step
    case Advance(w, outcome) =>
      AdvancePreservesProgress(env, s, w, outcome);
    case Deliver(w) =>
      if t.row.Some? {
        assert WillRevisit(t.row.value, t.workers[w]);
        if t.row.value.InProgress() {
          var v :| 0 <= v < |s.workers| && WillRecord(s.row.value, s.workers[v]);
          assert WillRecord(t.row.value, t.workers[v]);
        }
      }
    case Update(_, _) =>
      if t.row.value.InProgress() {
        var v :| 0 <= v < |s.workers| && WillRecord(s.row.value, s.workers[v]);
        assert WillRecord(t.row.value, t.workers[v]);
      }
    case _ =>
  }

  lemma {:induction false} AlwaysProgressing(env: Environment, workers: nat, trace: Trace)
    requires After(env, Initial(workers), trace).Some?
    ensures Progressing(env, After(env, Initial(workers), trace).value)
  {
    match trace
    case Begin =>
    case Then(earlier, step) =>
      AlwaysProgressing(env, workers, earlier);
      StepPreservesProgress(env, After(env, Initial(workers), earlier).value, step);
  }

  /**
   Convergence: whenever everything has settled, the recorded status is final and is that of
   the current definition, whatever the interleaving and whether or not updates reset it.
   */
  lemma ConvergesAtQuiescence(env: Environment, s: State)
    requires Reachable(env, s) && Quiescent(s) && s.row.Some?
    ensures Converged(env, s.row.value.ToPotto())
    ensures var row := s.row.value;
      && row.status.Some? && row.status.value.hash == Some(env.sha(row.definition.parts))
      && (row.status.value.value.Deployed? || row.status.value.value.Failed?)
  {
    var workers: nat, trace: Trace :| After(env, Initial(workers), trace) == Some(s);
    AlwaysProgressing(env, workers, trace);
  }

  // ---------------------------------------------------------------- truthful outcomes

  /** The outcome a worker is about to record is that of a run it completed on that very definition. */
  ghost predicate OutcomesAreRuns(s: State) {
    forall w :: 0 <= w < |s.workers| && (s.workers[w].Ran? || s.workers[w].Recording?) ==>
      Run(w, s.workers[w].claimed.definition, s.workers[w].outcome) in s.runs
  }

  /** A recorded outcome is that of a run, by the worker that recorded it, on a definition with the recorded hash. */
  ghost predicate StatusIsTruthful(env: Environment, s: State) {
    s.row.Some? && s.row.value.status.Some? && s.row.value.status.value.value in {Deployed, Failed} ==>
      exists run :: run in s.runs && run.worker == s.recorder
        && s.row.value.status.value == Status(run.outcome, Some(Hash(env, run.definition)))
  }

  lemma {:induction false} AlwaysTruthful(env: Environment, workers: nat, trace: Trace)
    requires After(env, Initial(workers), trace).Some?
    ensures OutcomesAreRuns(After(env, Initial(workers), trace).value)
    ensures StatusIsTruthful(env, After(env, Initial(workers), trace).value)
  {
    match trace
    case Begin =>
    case Then(earlier, step) =>
      AlwaysTruthful(env, workers, earlier);
      StepStaysTruthful(env, After(env, Initial(workers), earlier).value, step);
  }

  lemma StepStaysTruthful(env: Environment, s: State, step: Step)
    requires OutcomesAreRuns(s) && StatusIsTruthful(env, s) && Next(env, s, step).Some?
    ensures OutcomesAreRuns(Next(env, s, step).value) && StatusIsTruthful(env, Next(env, s, step).value)
  {
    if step.Advance? {
      AdvanceStaysTruthful(env, s, step.worker, step.outcome);
    }
  }

  lemma AdvanceStaysTruthful(env: Environment, s: State, w: nat, outcome: Outcome)
    requires OutcomesAreRuns(s) && StatusIsTruthful(env, s) && w < |s.workers| && !s.workers[w].Idle?
    ensures OutcomesAreRuns(AdvanceWorker(env, s, w, outcome))
    ensures StatusIsTruthful(env, AdvanceWorker(env, s, w, outcome))
  {
    var t, worker := AdvanceWorker(env, s, w, outcome), s.workers[w];
    assert forall run :: run in s.runs ==> run in t.runs;
    if worker.Recording? {
      assert Run(w, worker.claimed.definition, worker.outcome) in t.runs;
    }
  }

  /** Recorded outcomes are truthful, even when an update landed between the recorder's read and its claim. */
  lemma RecordedOutcomeIsTruthful(env: Environment, s: State)
    requires Reachable(env, s)
    ensures StatusIsTruthful(env, s)
  {
    var workers: nat, trace: Trace :| After(env, Initial(workers), trace) == Some(s);
    AlwaysTruthful(env, workers, trace);
  }

  ghost predicate HashIsInjective(env: Environment) {
    forall p: DeployableParts, q: DeployableParts :: env.sha(p) == env.sha(q) ==> p == q
  }

  /** With an injective hash, what is recorded at quiescence is the outcome of running the current deployable parts. */
  lemma QuiescentStatusIsOfCurrentDefinition(env: Environment, s: State) returns (run: Run)
    requires HashIsInjective(env)
    requires Reachable(env, s) && Quiescent(s) && s.row.Some?
    ensures run in s.runs && run.definition.parts == s.row.value.definition.parts
    ensures s.row.value.ToPotto().status.value == run.outcome
  {
    ConvergesAtQuiescence(env, s);
    RecordedOutcomeIsTruthful(env, s);
    run :| run in s.runs && s.row.value.status.value == Status(run.outcome, Some(Hash(env, run.definition)));
    var d, e := run.definition, s.row.value.definition;
    assert Hash(env, d) == Hash(env, e);
    assert env.sha(d.parts) == env.sha(e.parts) ==> d.parts == e.parts;
  }

  // ---------------------------------------------------------------- mutual exclusion

  /** Between claim and record. */
  predicate Holding(worker: Worker) {
    worker.Claimed? || worker.Deploying? || worker.Ran? || worker.Recording?
  }

  /**
   At most one worker is between claim and record; while the process exists one is there exactly
   when the status is in progress, and the record it is heading for will not conflict.
   */
  ghost predicate Exclusive(s: State) {
    && (forall v, w :: 0 <= v < |s.workers| && 0 <= w < |s.workers| && Holding(s.workers[v]) && Holding(s.workers[w])
          ==> v == w)
    && (s.row.Some? ==> (s.row.value.InProgress() <==> exists w :: 0 <= w < |s.workers| && Holding(s.workers[w])))
    && (s.row.Some? ==>
          forall w :: 0 <= w < |s.workers| && Holding(s.workers[w]) ==> WillRecord(s.row.value, s.workers[w]))
  }

  /** Without re-creation there is only ever one row, so every identifier in flight is its. */
  ghost predicate SingleRow(s: State) {
    && s.nextId <= 1
    && (s.nextId == 0 ==> forall w :: 0 <= w < |s.workers| ==> s.workers[w].Idle? || s.workers[w].Woken?)
    && (s.row.Some? ==> s.nextId == 1 && s.row.value.id == 0)
    && (forall w :: 0 <= w < |s.workers| ==>
          match s.workers[w]
          case Claiming(_, id) => id == 0
          case Claimed(id) => id == 0
          case Recording(_, _, id) => id == 0
          case _ => true)
  }

  lemma {:induction false} AlwaysExclusive(env: Environment, workers: nat, trace: Trace)
    requires !env.updatesReset && !env.recreates
    requires After(env, Initial(workers), trace).Some?
    ensures SingleRow(After(env, Initial(workers), trace).value)
    ensures Exclusive(After(env, Initial(workers), trace).value)
  {
    match trace
    case Begin =>
    case Then(earlier, step) =>
      AlwaysExclusive(env, workers, earlier);
      StepPreservesExclusion(env, After(env, Initial(workers), earlier).value, step);
  }

  lemma StepPreservesExclusion(env: Environment, s: State, step: Step)
    requires !env.updatesReset && !env.recreates
    requires SingleRow(s) && Exclusive(s) && Next(env, s, step).Some?
    ensures SingleRow(Next(env, s, step).value) && Exclusive(Next(env, s, step).value)
  {
    var t := Next(env, s, step).value;
    match step
    case Advance(w, outcome) =>
      AdvancePreservesExclusion(env, s, w, outcome);
    case Deliver(w) =>
      SameHolders(s, t);
    case Update(_, _) =>
      SameHolders(s, t);
    case _ =>
  }

  /** A step that moves nobody into or out of the protected section, and leaves the status, keeps exclusion. */
  lemma SameHolders(s: State, t: State)
    requires Exclusive(s) && |s.workers| == |t.workers|
    requires t.row.Some? ==> s.row.Some? && s.row.value.id == t.row.value.id && s.row.value.status == t.row.value.status
    requires forall w :: 0 <= w < |s.workers| ==>
      if Holding(t.workers[w]) then s.workers[w] == t.workers[w] else !Holding(s.workers[w]) || t.row.None?
    ensures Exclusive(t)
  {
    if t.row.Some? && s.row.value.InProgress() {
      var v :| 0 <= v < |s.workers| && Holding(s.workers[v]);
      assert Holding(t.workers[v]);
    }
  }

  lemma AdvancePreservesExclusion(env: Environment, s: State, w: nat, outcome: Outcome)
    requires !env.recreates && SingleRow(s) && Exclusive(s)
    requires w < |s.workers| && !s.workers[w].Idle?
    ensures SingleRow(AdvanceWorker(env, s, w, outcome)) && Exclusive(AdvanceWorker(env, s, w, outcome))
  {
    var t := AdvanceWorker(env, s, w, outcome);
    if !Holding(s.workers[w]) {
      if Holding(t.workers[w]) {
        EntersAlone(s, t, w);
      } else {
        SameHolders(s, t);
      }
    } else if s.row.Some? {
      assert WillRecord(s.row.value, s.workers[w]);
      if Holding(t.workers[w]) {
        assert WillRecord(t.row.value, t.workers[w]);
      }
    }
  }

  lemma EntersAlone(s: State, t: State, w: nat)
    requires Exclusive(s) && s.row.Some? && !s.row.value.InProgress()
    requires w < |s.workers| == |t.workers| && t.workers == s.workers[w := t.workers[w]]
    requires Holding(t.workers[w])
    requires t.row.Some? && WillRecord(t.row.value, t.workers[w])
    ensures Exclusive(t)
  {
    assert forall v :: 0 <= v < |s.workers| ==> !Holding(s.workers[v]);
  }

  // ---------------------------------------------------------------- when exclusion fails

  lemma Extend(env: Environment, start: State, trace: Trace, s: State, step: Step) returns (longer: Trace, t: State)
    requires After(env, start, trace) == Some(s) && Next(env, s, step).Some?
    ensures After(env, start, longer) == Some(t) && Some(t) == Next(env, s, step)
  {
    longer, t := Then(trace, step), Next(env, s, step).value;
  }

  /** Worker 0 has just claimed row 0 while worker 1 holds a second delivery of the same event. */
  lemma FirstWorkerClaims(env: Environment, start: State, d: Definition) returns (trace: Trace, s: State)
    requires start == Initial(2)
    ensures After(env, start, trace) == Some(s)
    ensures s.workers == [Claimed(0), Woken] && s.nextId == 1
    ensures s.row == Some(Row(0, d, Some(Status(InProgress, Some(Hash(env, d))))))
  {
    trace, s := Extend(env, start, Begin, start, Create(d));
    trace, s := Extend(env, start, trace, s, PublishChange);
    trace, s := Extend(env, start, trace, s, Redeliver);
    trace, s := Extend(env, start, trace, s, Deliver(0));
    trace, s := Extend(env, start, trace, s, Deliver(1));
    trace, s := Extend(env, start, trace, s, Advance(0, Failed));
    trace, s := Extend(env, start, trace, s, Advance(0, Failed));
    trace, s := Extend(env, start, trace, s, Advance(0, Failed));
    trace, s := Extend(env, start, trace, s, Advance(0, Failed));
  }

  /** The second worker looks at a row that is neither converged nor in progress, and gets to deploy it. */
  lemma SecondWorkerDeploys(env: Environment, start: State, earlier: Trace, before: State)
    returns (trace: Trace, s: State)
    requires After(env, start, earlier) == Some(before)
    requires |before.workers| == 2 && before.workers[0].Deploying? && before.workers[1].Woken? && before.row.Some?
    requires !Converged(env, before.row.value.ToPotto()) && !before.row.value.InProgress()
    ensures After(env, start, trace) == Some(s)
    ensures |s.workers| == 2 && s.workers[0] == before.workers[0]
    ensures s.workers[1].Deploying? && s.workers[1].claimed.definition == before.row.value.definition
  {
    var first, row := before.workers[0], before.row.value;
    trace, s := Extend(env, start, earlier, before, Advance(1, Failed));
    trace, s := Extend(env, start, trace, s, Advance(1, Failed));
    assert s == before.(workers := [first, Reread(row.ToPotto())]);
    trace, s := Extend(env, start, trace, s, Advance(1, Failed));
    assert s == before.(workers := [first, Claiming(row.ToPotto(), row.id)]);
    trace, s := SecondWorkerClaims(env, start, trace, s);
    trace, s := Extend(env, start, trace, s, Advance(1, Failed));
  }

  lemma SecondWorkerClaims(env: Environment, start: State, earlier: Trace, before: State)
    returns (trace: Trace, s: State)
    requires After(env, start, earlier) == Some(before)
    requires |before.workers| == 2 && before.row.Some? && !before.row.value.InProgress()
    requires before.workers[1] == Claiming(before.row.value.ToPotto(), before.row.value.id)
    ensures After(env, start, trace) == Some(s) && s.workers == [before.workers[0], Claimed(before.row.value.id)]
    ensures s.row.Some? && s.row.value.id == before.row.value.id
    ensures s.row.value.definition == before.row.value.definition
  {
    trace, s := Extend(env, start, earlier, before, Advance(1, Failed));
  }

  /** Two workers run deployments of the process at the same time. */
  predicate TwoDeploying(s: State) {
    exists v, w :: 0 <= v < w < |s.workers| && s.workers[v].Deploying? && s.workers[w].Deploying?
  }

  /** A reset, or a deletion and re-creation, while one worker is deploying lets another deploy the same definition. */
  lemma OverlappingRun(env: Environment, d: Definition) returns (s: State)
    requires env.updatesReset || env.recreates
    ensures Reachable(env, s) && TwoDeploying(s) && |s.workers| == 2
    ensures s.workers[0].Deploying? && s.workers[1].Deploying?
    ensures s.workers[0].claimed.definition == s.workers[1].claimed.definition == d
  {
    var start := Initial(2);
    var trace;
    trace, s := FirstWorkerClaims(env, start, d);
    trace, s := Extend(env, start, trace, s, Advance(0, Failed));
    if env.updatesReset {
      trace, s := Extend(env, start, trace, s, Update(d, Some(Status(Queued, None))));
    } else {
      trace, s := Extend(env, start, trace, s, Delete);
      trace, s := Extend(env, start, trace, s, Create(d));
    }
    trace, s := SecondWorkerDeploys(env, start, trace, s);
    IsReachable(env, 2, trace, s);
  }

  lemma ExclusiveIsSingle(s: State)
    requires Exclusive(s)
    ensures !TwoDeploying(s)
  {
    if v, w :| 0 <= v < w < |s.workers| && s.workers[v].Deploying? && s.workers[w].Deploying? {
      assert Holding(s.workers[v]) && Holding(s.workers[w]);
    }
  }

  /**
   No two workers ever deploy the process at the same time exactly when updates keep the status and
   identifiers are not reused; and exactly then is exclusion an invariant, with a record that never conflicts.
   */
  lemma ExclusiveExactlyWhen(env: Environment)
    ensures (forall s :: Reachable(env, s) ==> !TwoDeploying(s)) <==> !env.updatesReset && !env.recreates
    ensures (forall s :: Reachable(env, s) ==> Exclusive(s)) <==> !env.updatesReset && !env.recreates
  {
    if !env.updatesReset && !env.recreates {
      forall s | Reachable(env, s) ensures Exclusive(s) && !TwoDeploying(s) {
        var workers: nat, trace: Trace :| After(env, Initial(workers), trace) == Some(s);
        AlwaysExclusive(env, workers, trace);
        ExclusiveIsSingle(s);
      }
    } else {
      var s := OverlappingRun(env, Definition("", "", false, DeployableParts(None, [], [])));
      if Exclusive(s) {
        ExclusiveIsSingle(s);
      }
    }
  }

  // ---------------------------------------------------------------- the hash of what is being deployed

  /** The promise about a claim: its status holds the hash of the definition that is being deployed. */
  predicate ClaimNamesDeployed(env: Environment, worker: Worker) {
    worker.Deploying? && worker.claimed.status.value.InProgress? ==>
      worker.claimed.status.hash == Some(Hash(env, worker.claimed.definition))
  }

  predicate ClaimsNameDeployed(env: Environment, s: State) {
    forall w :: 0 <= w < |s.workers| ==> ClaimNamesDeployed(env, s.workers[w])
  }

  /** Between reading the process to claim it and reading it back after the claim. */
  predicate InWindow(worker: Worker) {
    worker.Reread? || worker.Claiming? || worker.Claimed?
  }

  predicate Busy(s: State) {
    exists w :: 0 <= w < |s.workers| && InWindow(s.workers[w])
  }

  /** What is ruled out while somebody is claiming: updates of the deployable parts, and creation. */
  datatype Rules = Rules(noUpdates: bool, noCreation: bool)

  predicate Permits(env: Environment, rules: Rules, s: State, step: Step) {
    Busy(s) ==>
      && (rules.noUpdates && step.Update? && s.row.Some? ==>
            Hash(env, step.definition) == Hash(env, s.row.value.definition))
      && !(rules.noCreation && step.Create?)
  }

  /** All steps of a run are permitted. */
  predicate Follows(env: Environment, rules: Rules, start: State, trace: Trace) {
    match trace
    case Begin => true
    case Then(earlier, step) =>
      && Follows(env, rules, start, earlier)
      && var s := After(env, start, earlier);
        (s.Some? ==> Permits(env, rules, s.value, step))
  }

  /** With these rules no row changes its hash under the eyes of somebody who is claiming it. */
  predicate Suffices(env: Environment, rules: Rules) {
    rules.noUpdates && (rules.noCreation || !env.recreates)
  }

  /** A worker in the window knows the hash that the row's definition has, and its claim stored it. */
  predicate WindowAgrees(env: Environment, row: Row, worker: Worker) {
    match worker
    case Reread(process) => Hash(env, process.definition) == Hash(env, row.definition)
    case Claiming(process, _) => Hash(env, process.definition) == Hash(env, row.definition)
    case Claimed(_) => row.InProgress() ==> row.ToPotto().status.hash == Some(Hash(env, row.definition))
    case _ => true
  }

  predicate Undisturbed(env: Environment, s: State) {
    && ClaimsNameDeployed(env, s)
    && forall w :: 0 <= w < |s.workers| && InWindow(s.workers[w]) ==>
         s.nextId > 0 && (s.row.Some? ==> WindowAgrees(env, s.row.value, s.workers[w]))
  }

  lemma AdvanceStaysUndisturbed(env: Environment, s: State, w: nat, outcome: Outcome)
    requires Undisturbed(env, s) && (s.row.Some? ==> s.nextId > 0) && w < |s.workers| && !s.workers[w].Idle?
    ensures Undisturbed(env, AdvanceWorker(env, s, w, outcome))
  {
    var t := AdvanceWorker(env, s, w, outcome);
    forall v | 0 <= v < |t.workers|
      ensures ClaimNamesDeployed(env, t.workers[v])
      ensures InWindow(t.workers[v]) ==> t.nextId > 0 && (t.row.Some? ==> WindowAgrees(env, t.row.value, t.workers[v]))
    {
      assert ClaimNamesDeployed(env, s.workers[v]) && ClaimNamesDeployed(env, s.workers[w]);
      assert InWindow(s.workers[w]) && s.row.Some? ==> WindowAgrees(env, s.row.value, s.workers[w]);
      assert v != w ==> t.workers[v] == s.workers[v];
    }
  }

  lemma StepStaysUndisturbed(env: Environment, rules: Rules, s: State, step: Step)
    requires Suffices(env, rules) && Permits(env, rules, s, step)
    requires Undisturbed(env, s) && (s.row.Some? ==> s.nextId > 0) && Next(env, s, step).Some?
    ensures Undisturbed(env, Next(env, s, step).value)
    ensures Next(env, s, step).value.row.Some? ==> Next(env, s, step).value.nextId > 0
  {
    if step.Advance? {
      AdvanceStaysUndisturbed(env, s, step.worker, step.outcome);
    } else {
      var t := Next(env, s, step).value;
      forall v | 0 <= v < |t.workers|
        ensures ClaimNamesDeployed(env, t.workers[v])
        ensures InWindow(t.workers[v]) ==>
          t.nextId > 0 && (t.row.Some? ==> WindowAgrees(env, t.row.value, t.workers[v]))
      {
        assert ClaimNamesDeployed(env, s.workers[v]);
        assert InWindow(t.workers[v]) ==> t.workers[v] == s.workers[v] && Busy(s);
      }
    }
  }

  /** Runs under sufficient rules keep the promise. */
  lemma {:induction false} RulesKeepPromise(env: Environment, rules: Rules, workers: nat, trace: Trace)
    requires Suffices(env, rules) && Follows(env, rules, Initial(workers), trace)
    requires After(env, Initial(workers), trace).Some?
    ensures var s := After(env, Initial(workers), trace).value;
      Undisturbed(env, s) && (s.row.Some? ==> s.nextId > 0)
  {
    match trace
    case Begin =>
    case Then(earlier, step) =>
      RulesKeepPromise(env, rules, workers, earlier);
      StepStaysUndisturbed(env, rules, After(env, Initial(workers), earlier).value, step);
  }

  ghost predicate HashesDiffer(env: Environment) {
    exists d, e :: Hash(env, d) != Hash(env, e)
  }

  /** What is in progress has the hash of some definition. */
  ghost predicate HashesAreOfDefinitions(env: Environment, s: State) {
    && (s.row.Some? && s.row.value.InProgress() ==>
          exists d :: s.row.value.ToPotto().status.hash == Some(Hash(env, d)))
    && forall w :: 0 <= w < |s.workers| && s.workers[w].Deploying? && s.workers[w].claimed.status.value.InProgress? ==>
         exists d :: s.workers[w].claimed.status.hash == Some(Hash(env, d))
  }

  lemma StepKeepsHashesOfDefinitions(env: Environment, s: State, step: Step)
    requires HashesAreOfDefinitions(env, s) && Next(env, s, step).Some?
    ensures HashesAreOfDefinitions(env, Next(env, s, step).value)
  {
    if step.Advance? && s.workers[step.worker].Claiming? {
      var claim := Status(InProgress, Some(Hash(env, s.workers[step.worker].process.definition)));
      assert claim.hash == Some(Hash(env, s.workers[step.worker].process.definition));
    }
  }

  lemma {:induction false} AlwaysHashesOfDefinitions(env: Environment, workers: nat, trace: Trace)
    requires After(env, Initial(workers), trace).Some?
    ensures HashesAreOfDefinitions(env, After(env, Initial(workers), trace).value)
  {
    match trace
    case Begin =>
    case Then(earlier, step) =>
      AlwaysHashesOfDefinitions(env, workers, earlier);
      StepKeepsHashesOfDefinitions(env, After(env, Initial(workers), earlier).value, step);
  }

  ghost predicate AlwaysPromised(env: Environment, rules: Rules) {
    forall workers: nat, trace: Trace ::
      Follows(env, rules, Initial(workers), trace) && After(env, Initial(workers), trace).Some? ==>
        ClaimsNameDeployed(env, After(env, Initial(workers), trace).value)
  }

  /**
   A claim always names the hash of the definition being deployed exactly when, while somebody is
   claiming the process, updates leave its deployable parts alone and it is not created again under its
   identifier, unless all definitions hash alike anyway.
   */
  lemma ClaimsNameDeployedExactlyWhen(env: Environment, rules: Rules)
    ensures AlwaysPromised(env, rules) <==> Suffices(env, rules) || !HashesDiffer(env)
  {
    if Suffices(env, rules) || !HashesDiffer(env) {
      forall workers: nat, trace: Trace
        | Follows(env, rules, Initial(workers), trace) && After(env, Initial(workers), trace).Some?
        ensures ClaimsNameDeployed(env, After(env, Initial(workers), trace).value)
      {
        if Suffices(env, rules) {
          RulesKeepPromise(env, rules, workers, trace);
        } else {
          AlwaysHashesOfDefinitions(env, workers, trace);
        }
      }
    } else {
      var d, e :| Hash(env, d) != Hash(env, e);
      var trace, s;
      if rules.noUpdates {
        trace, s := LagByCreation(env, rules, d, e);
      } else {
        trace, s := LagByUpdate(env, rules, d, e);
      }
      assert !ClaimNamesDeployed(env, s.workers[0]);
    }
  }

  lemma ExtendPermitted(env: Environment, rules: Rules, start: State, trace: Trace, s: State, step: Step)
    returns (longer: Trace, t: State)
    requires After(env, start, trace) == Some(s) && Follows(env, rules, start, trace)
    requires Permits(env, rules, s, step) && Next(env, s, step).Some?
    ensures After(env, start, longer) == Some(t) && Follows(env, rules, start, longer) && Some(t) == Next(env, s, step)
  {
    longer, t := Then(trace, step), Next(env, s, step).value;
  }

  /** The only worker has read the process to claim it. */
  lemma WorkerReads(env: Environment, rules: Rules, start: State, d: Definition) returns (trace: Trace, s: State)
    requires start == Initial(1)
    ensures After(env, start, trace) == Some(s) && Follows(env, rules, start, trace)
    ensures s.row == Some(Row(0, d, None)) && s.nextId == 1
    ensures s.workers == [Reread(Process(d, Status(Failed, None)))]
  {
    trace, s := ExtendPermitted(env, rules, start, Begin, start, Create(d));
    trace, s := ExtendPermitted(env, rules, start, trace, s, PublishChange);
    trace, s := ExtendPermitted(env, rules, start, trace, s, Deliver(0));
    trace, s := ExtendPermitted(env, rules, start, trace, s, Advance(0, Failed));
    trace, s := ExtendPermitted(env, rules, start, trace, s, Advance(0, Failed));
  }

  /** It goes on to deploy whatever definition the row then has, under the hash it read. */
  lemma WorkerClaims(env: Environment, rules: Rules, start: State, earlier: Trace, before: State,
                     read: Process, id: nat, e: Definition)
    returns (trace: Trace, s: State)
    requires After(env, start, earlier) == Some(before) && Follows(env, rules, start, earlier)
    requires before.workers == [Reread(read)] && before.row == Some(Row(id, e, None))
    ensures After(env, start, trace) == Some(s) && Follows(env, rules, start, trace)
    ensures s.workers == [Deploying(Process(e, Status(InProgress, Some(Hash(env, read.definition)))))]
  {
    trace, s := ExtendPermitted(env, rules, start, earlier, before, Advance(0, Failed));
    assert s == before.(workers := [Claiming(read, id)]);
    trace, s := ExtendPermitted(env, rules, start, trace, s, Advance(0, Failed));
    assert s.workers == [Claimed(id)];
    trace, s := ExtendPermitted(env, rules, start, trace, s, Advance(0, Failed));
  }

  /** An update after the reading leaves the hash of the older definition in the claim. */
  lemma LagByUpdate(env: Environment, rules: Rules, d: Definition, e: Definition) returns (trace: Trace, s: State)
    requires !rules.noUpdates
    ensures After(env, Initial(1), trace) == Some(s) && Follows(env, rules, Initial(1), trace)
    ensures s.workers == [Deploying(Process(e, Status(InProgress, Some(Hash(env, d)))))]
  {
    var start, read := Initial(1), Process(d, Status(Failed, None));
    trace, s := WorkerReads(env, rules, start, d);
    trace, s := ExtendPermitted(env, rules, start, trace, s, Update(e, None));
    trace, s := WorkerClaims(env, rules, start, trace, s, read, 0, e);
  }

  /** So does a deletion followed by a new creation. */
  lemma LagByCreation(env: Environment, rules: Rules, d: Definition, e: Definition) returns (trace: Trace, s: State)
    requires !rules.noCreation && env.recreates
    ensures After(env, Initial(1), trace) == Some(s) && Follows(env, rules, Initial(1), trace)
    ensures s.workers == [Deploying(Process(e, Status(InProgress, Some(Hash(env, d)))))]
  {
    var start, read := Initial(1), Process(d, Status(Failed, None));
    trace, s := WorkerReads(env, rules, start, d);
    trace, s := ExtendPermitted(env, rules, start, trace, s, Delete);
    trace, s := ExtendPermitted(env, rules, start, trace, s, Create(e));
    trace, s := WorkerClaims(env, rules, start, trace, s, read, 1, e);
  }
}
