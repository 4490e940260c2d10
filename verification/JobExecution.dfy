/**
 Execution of one job by workers that race on duplicate `created` events, while outside parties
 may set its status or delete it. Each await is a step boundary; each conditional UPDATE is one step.
 */
module JobExecution {
  import opened Wrappers

  datatype JobStatus = Accepted | Running | Successful | Failed | Dismissed

  type Outcome = v: JobStatus | v.Successful? || v.Failed? witness Failed

  /** Who wrote a status: the creation of the job, an executor, or a call from outside. */
  datatype Writer = Creation | Executor(worker: nat) | Outside

  datatype Write = Write(writer: Writer, from: JobStatus, to: JobStatus)

  /** An executor's run of the job, with how it ended. */
  datatype Completion = Completion(worker: nat, outcome: Outcome)

  datatype Worker =
    | Idle
    | Woken                           // has an event, about to read the job
    | Got(seen: JobStatus)            // about to look the job up for claiming
    | Claiming(seen: JobStatus)       // about to run the claiming UPDATE
    | Claimed(seen: JobStatus)        // claim committed, about to read the job back
    | Executing(seen: JobStatus)      // the job is running
    | Ran(seen: JobStatus, outcome: Outcome)        // about to look the job up for recording
    | Recording(seen: JobStatus, outcome: Outcome)  // about to run the recording UPDATE
    | Rereading(seen: JobStatus)      // an UPDATE is done or did not apply, about to read the job back
    | Notifying                       // about to publish that the status changed

  /**
   `starts` counts claims, `entries` counts the times the job entered the accepted status, and
   `writes` is the history of status writes after creation; `lastWriter` wrote the current status.
   */
  datatype State = State(job: Option<JobStatus>, created: bool, creating: bool, pending: nat, notified: nat,
                         workers: seq<Worker>, starts: nat, entries: nat, completed: set<Completion>,
                         writes: seq<Write>, lastWriter: Writer)

  datatype Step =
    | Create
    | PublishCreated
    | Redeliver
    | Deliver(worker: nat)
    | Advance(worker: nat, outcome: Outcome)
    | SetStatus(status: JobStatus)
    | Delete

  function Initial(workers: nat): State {
    State(None, false, false, 0, 0, seq(workers, _ => Idle), 0, 0, {}, [], Creation)
  }

  /** Write a status over an existing one. */
  function WriteStatus(s: State, writer: Writer, to: JobStatus): State
    requires s.job.Some?
  {
    s.(job := Some(to),
       entries := s.entries + if to.Accepted? && !s.job.value.Accepted? then 1 else 0,
       writes := s.writes + [Write(writer, s.job.value, to)],
       lastWriter := writer)
  }

  function MoveTo(s: State, w: nat, worker: Worker): State
    requires w < |s.workers|
  {
    s.(workers := s.workers[w := worker])
  }

  function Next(s: State, step: Step): Option<State> {
    match step
    case Create =>
      // identifiers are generated, so a job is created at most once
      if !s.created
      then Some(s.(job := Some(Accepted), created := true, creating := true, entries := s.entries + 1,
                   lastWriter := Creation))
      else None
    case PublishCreated =>
      if s.creating then Some(s.(creating := false, pending := s.pending + 1)) else None
    case Redeliver =>
      Some(s.(pending := s.pending + 1))
    case Deliver(w) =>
      if w < |s.workers| && s.workers[w].Idle? && s.pending > 0
      then Some(MoveTo(s, w, Woken).(pending := s.pending - 1))
      else None
    case Advance(w, outcome) =>
      if w < |s.workers| && !s.workers[w].Idle? then Some(AdvanceWorker(s, w, outcome)) else None
    case SetStatus(status) =>
      if s.job.Some? then Some(WriteStatus(s, Outside, status)) else None
    case Delete =>
      if s.job.Some? then Some(s.(job := None)) else None
  }

  /** The executor's code, one await at a time. A missing job raises, which ends the handler. */
  function AdvanceWorker(s: State, w: nat, outcome: Outcome): State
    requires w < |s.workers| && !s.workers[w].Idle?
  {
    match s.workers[w]
    case Woken => MoveTo(s, w, if s.job.Some? then Got(s.job.value) else Idle)
    case Got(seen) => MoveTo(s, w, if s.job.Some? then Claiming(seen) else Idle)
    case Claiming(seen) => Claim(s, w, seen)
    case Claimed(seen) =>
      MoveTo(s, w, if s.job.Some? then Executing(seen) else Idle)
    case Executing(seen) =>
      MoveTo(s.(completed := s.completed + {Completion(w, outcome)}), w, Ran(seen, outcome))
    case Ran(seen, result) =>
      MoveTo(s, w, if s.job.Some? then Recording(seen, result) else Idle)
    case Recording(seen, result) => Record(s, w, seen, result)
    case Rereading(seen) =>
      MoveTo(s, w, if s.job.Some? && s.job.value != seen then Notifying else Idle)
    case Notifying =>
      MoveTo(s.(notified := s.notified + 1), w, Idle)
  }

  /** The claiming UPDATE. */
  function Claim(s: State, w: nat, seen: JobStatus): State
    requires w < |s.workers|
  {
    if s.job == Some(Accepted)
    then MoveTo(WriteStatus(s, Executor(w), Running).(starts := s.starts + 1), w, Claimed(seen))
    else MoveTo(s, w, Rereading(seen))
  }

  /** The recording UPDATE. */
  function Record(s: State, w: nat, seen: JobStatus, outcome: Outcome): State
    requires w < |s.workers|
  {
    if s.job == Some(Running)
    then MoveTo(WriteStatus(s, Executor(w), outcome), w, Rereading(seen))
    else MoveTo(s, w, Rereading(seen))
  }

  datatype Trace = Begin | Then(earlier: Trace, step: Step)

  function After(start: State, trace: Trace): Option<State> {
    match trace
    case Begin => Some(start)
    case Then(earlier, step) =>
      var s := After(start, earlier);
      if s.Some? then Next(s.value, step) else None
  }

  // ---------------------------------------------------------------- at most once

  predicate InExecution(worker: Worker) {
    worker.Claimed? || worker.Executing? || worker.Ran? || worker.Recording?
  }

  /** The workers that are executing the job. */
  ghost function Executors(workers: seq<Worker>): set<nat> {
    set w: nat | w < |workers| && InExecution(workers[w])
  }

  lemma ExecutorsAfterMove(workers: seq<Worker>, w: nat, worker: Worker)
    requires w < |workers|
    ensures |Executors(workers[w := worker])| ==
            |Executors(workers)| - (if InExecution(workers[w]) then 1 else 0) + if InExecution(worker) then 1 else 0
  {
    var rest := Executors(workers) - {w};
    assert Executors(workers) == if InExecution(workers[w]) then rest + {w} else rest;
    assert Executors(workers[w := worker]) == if InExecution(worker) then rest + {w} else rest;
  }

  /** A write by an executor only goes from accepted to running, or from running to an outcome it produced. */
  predicate ExecutorWriteIsLegal(write: Write, completed: set<Completion>) {
    write.writer.Executor? ==>
      || (write.from.Accepted? && write.to.Running?)
      || (&& write.from.Running? && (write.to.Successful? || write.to.Failed?)
          && Completion(write.writer.worker, write.to) in completed)
  }

  /** How often a call from outside wrote the accepted status. */
  function OutsideAccepts(writes: seq<Write>): nat {
    if writes == [] then 0 else
    var last := writes[|writes| - 1];
    OutsideAccepts(writes[..|writes| - 1]) + if last.writer.Outside? && last.to.Accepted? then 1 else 0
  }

  ghost predicate Counted(s: State) {
    && s.starts + (if s.job == Some(Accepted) then 1 else 0) <= s.entries
    && |Executors(s.workers)| <= s.starts
    && (!s.created ==> s.job.None? && s.entries == 0)
    && s.entries <= (if s.created then 1 else 0) + OutsideAccepts(s.writes)
  }

  ghost predicate Lawful(s: State) {
    && (forall i :: 0 <= i < |s.writes| ==> ExecutorWriteIsLegal(s.writes[i], s.completed))
    && (forall w :: 0 <= w < |s.workers| ==> KnowsItsRun(s, w))
  }

  lemma WriteKeepsOutsideAccepts(s: State, writer: Writer, to: JobStatus)
    requires s.job.Some?
    ensures OutsideAccepts(WriteStatus(s, writer, to).writes) ==
            OutsideAccepts(s.writes) + if writer.Outside? && to.Accepted? then 1 else 0
  {
    var writes := WriteStatus(s, writer, to).writes;
    assert writes[..|writes| - 1] == s.writes;
  }

  /** What a worker is about to record is a run it completed. */
  predicate KnowsItsRun(s: State, w: nat)
    requires w < |s.workers|
  {
    s.workers[w].Ran? || s.workers[w].Recording? ==> Completion(w, s.workers[w].outcome) in s.completed
  }

  /** Every other step of an executor leaves the job alone. */
  lemma OtherAdvances(s: State, w: nat, outcome: Outcome)
    requires w < |s.workers| && !s.workers[w].Idle? && !s.workers[w].Claiming? && !s.workers[w].Recording?
    ensures var t := AdvanceWorker(s, w, outcome);
      && t == s.(workers := t.workers, completed := t.completed, notified := t.notified)
      && |t.workers| == |s.workers| && t.workers == s.workers[w := t.workers[w]]
      && s.completed <= t.completed && (KnowsItsRun(s, w) ==> KnowsItsRun(t, w))
      && (InExecution(t.workers[w]) ==> InExecution(s.workers[w]))
      && (InExecution(s.workers[w]) ==> InExecution(t.workers[w]) || s.job.None?)
      && (WillTryToClaim(s.workers[w]) ==> WillTryToClaim(t.workers[w]) || s.job.None?)
  {
  }

  lemma ClaimKeepsCounts(s: State, w: nat, seen: JobStatus)
    requires Counted(s) && w < |s.workers| && !InExecution(s.workers[w])
    ensures Counted(Claim(s, w, seen))
  {
    if s.job == Some(Accepted) {
      WriteKeepsOutsideAccepts(s, Executor(w), Running);
      ExecutorsAfterMove(s.workers, w, Claimed(seen));
    } else {
      ExecutorsAfterMove(s.workers, w, Rereading(seen));
    }
  }

  lemma RecordKeepsCounts(s: State, w: nat, seen: JobStatus, outcome: Outcome)
    requires Counted(s) && w < |s.workers|
    ensures Counted(Record(s, w, seen, outcome))
  {
    if s.job == Some(Running) {
      WriteKeepsOutsideAccepts(s, Executor(w), outcome);
    }
    ExecutorsAfterMove(s.workers, w, Rereading(seen));
  }

  lemma AdvanceKeepsCounts(s: State, w: nat, outcome: Outcome)
    requires Counted(s) && w < |s.workers| && !s.workers[w].Idle?
    ensures Counted(AdvanceWorker(s, w, outcome))
  {
    var worker := s.workers[w];
    if worker.Claiming? {
      ClaimKeepsCounts(s, w, worker.seen);
    } else if worker.Recording? {
      RecordKeepsCounts(s, w, worker.seen, worker.outcome);
    } else {
      OtherAdvances(s, w, outcome);
      ExecutorsAfterMove(s.workers, w, AdvanceWorker(s, w, outcome).workers[w]);
    }
  }

  lemma StepKeepsCounts(s: State, step: Step)
    requires Counted(s) && Next(s, step).Some?
    ensures Counted(Next(s, step).value)
  {
    if step.Advance? {
      AdvanceKeepsCounts(s, step.worker, step.outcome);
    } else if step.Deliver? {
      ExecutorsAfterMove(s.workers, step.worker, Woken);
    } else if step.SetStatus? {
      WriteKeepsOutsideAccepts(s, Outside, step.status);
    } else {
      var t := Next(s, step).value;
      assert t.workers == s.workers && t.writes == s.writes && t.starts == s.starts;
    }
  }

  lemma ExtensionKeepsLaw(s: State, t: State)
    requires Lawful(s) && s.completed <= t.completed && |t.workers| == |s.workers|
    requires forall w :: 0 <= w < |s.workers| ==> t.workers[w] == s.workers[w] || KnowsItsRun(t, w)
    requires t.writes == s.writes ||
             (t.writes != [] && t.writes[..|t.writes| - 1] == s.writes
              && ExecutorWriteIsLegal(t.writes[|t.writes| - 1], t.completed))
    ensures Lawful(t)
  {
    forall w | 0 <= w < |t.workers| ensures KnowsItsRun(t, w) {
      assert KnowsItsRun(s, w);
    }
    forall i | 0 <= i < |t.writes| ensures ExecutorWriteIsLegal(t.writes[i], t.completed) {
      if i < |s.writes| {
        assert ExecutorWriteIsLegal(s.writes[i], s.completed);
        assert t.writes[i] == s.writes[i];
      }
    }
  }

  lemma AdvanceKeepsLaw(s: State, w: nat, outcome: Outcome)
    requires Lawful(s) && w < |s.workers| && !s.workers[w].Idle?
    ensures Lawful(AdvanceWorker(s, w, outcome))
  {
    var worker := s.workers[w];
    assert KnowsItsRun(s, w);
    if worker.Claiming? {
      ClaimKeepsLaw(s, w, worker.seen);
    } else if worker.Recording? {
      RecordKeepsLaw(s, w, worker.seen, worker.outcome);
    } else {
      OtherAdvances(s, w, outcome);
      ExtensionKeepsLaw(s, AdvanceWorker(s, w, outcome));
    }
  }

  lemma ClaimKeepsLaw(s: State, w: nat, seen: JobStatus)
    requires Lawful(s) && w < |s.workers|
    ensures Lawful(Claim(s, w, seen))
  {
    ExtensionKeepsLaw(s, Claim(s, w, seen));
  }

  lemma RecordKeepsLaw(s: State, w: nat, seen: JobStatus, outcome: Outcome)
    requires Lawful(s) && w < |s.workers| && Completion(w, outcome) in s.completed
    ensures Lawful(Record(s, w, seen, outcome))
  {
    ExtensionKeepsLaw(s, Record(s, w, seen, outcome));
  }

  lemma StepKeepsLaw(s: State, step: Step)
    requires Lawful(s) && Next(s, step).Some?
    ensures Lawful(Next(s, step).value)
  {
    if step.Advance? {
      AdvanceKeepsLaw(s, step.worker, step.outcome);
    } else {
      ExtensionKeepsLaw(s, Next(s, step).value);
    }
  }

  lemma {:induction false} AlwaysDisciplined(workers: nat, trace: Trace)
    requires After(Initial(workers), trace).Some?
    ensures Counted(After(Initial(workers), trace).value)
    ensures Lawful(After(Initial(workers), trace).value)
  {
    match trace
    case Begin =>
      assert Executors(Initial(workers).workers) == {};
    case Then(earlier, step) =>
      AlwaysDisciplined(workers, earlier);
      StepKeepsCounts(After(Initial(workers), earlier).value, step);
      StepKeepsLaw(After(Initial(workers), earlier).value, step);
  }

  /** Under any interleaving a job starts running at most as often as it entered the accepted status. */
  lemma {:induction false} StartsAreBounded(workers: nat, trace: Trace, s: State)
    requires After(Initial(workers), trace) == Some(s)
    ensures s.starts <= s.entries <= 1 + OutsideAccepts(s.writes)
    ensures (forall i :: 0 <= i < |s.writes| ==> !(s.writes[i].writer.Outside? && s.writes[i].to.Accepted?)) ==>
      s.starts <= 1 && |Executors(s.workers)| <= 1
  {
    AlwaysDisciplined(workers, trace);
    NoOutsideAccepts(s.writes);
  }

  lemma {:induction false} NoOutsideAccepts(writes: seq<Write>)
    ensures (forall i :: 0 <= i < |writes| ==> !(writes[i].writer.Outside? && writes[i].to.Accepted?)) ==>
      OutsideAccepts(writes) == 0
  {
    if writes != [] {
      NoOutsideAccepts(writes[..|writes| - 1]);
    }
  }

  /**
   The executors' own writes only go accepted, running, outcome; and an outcome is that of a run that
   executor completed.
   */
  lemma ExecutorWritesAreLegal(workers: nat, trace: Trace, s: State, i: nat)
    requires After(Initial(workers), trace) == Some(s) && i < |s.writes|
    ensures ExecutorWriteIsLegal(s.writes[i], s.completed)
    ensures var write := s.writes[i];
      write.writer.Executor? ==>
        || (write.from == Accepted && write.to == Running)
        || (write.from == Running && write.to == Successful
            && Completion(write.writer.worker, Successful) in s.completed)
        || (write.from == Running && write.to == Failed && Completion(write.writer.worker, Failed) in s.completed)
  {
    AlwaysDisciplined(workers, trace);
  }

  /** No outside call and no deletion. */
  predicate NoInterventions(trace: Trace) {
    match trace
    case Begin => true
    case Then(earlier, step) => !step.SetStatus? && !step.Delete? && NoInterventions(earlier)
  }

  predicate IsIntervention(step: Step) { step.SetStatus? || step.Delete? }

  /** How many steps of a kind a run has. */
  function Count(trace: Trace, kind: Step -> bool): nat {
    match trace
    case Begin => 0
    case Then(earlier, step) => Count(earlier, kind) + if kind(step) then 1 else 0
  }

  lemma {:induction false} NoneIsCounted(trace: Trace)
    ensures NoInterventions(trace) <==> Count(trace, IsIntervention) == 0
    ensures OnlyOwnSteps(trace) <==> Count(trace, IsOwnStep) == Length(trace)
    ensures Count(trace, IsOwnStep) <= Length(trace)
  {
    if trace.Then? {
      NoneIsCounted(trace.earlier);
    }
  }

  /** A job that is neither accepted nor running keeps its status until somebody outside changes it. */
  lemma {:induction false} FinishedStaysFinished(s: State, trace: Trace)
    requires s.created && s.job.Some? && !s.job.value.Accepted? && !s.job.value.Running?
    requires NoInterventions(trace) && After(s, trace).Some?
    ensures After(s, trace).value.job == s.job && After(s, trace).value.created
    ensures After(s, trace).value.writes == s.writes
  {
    match trace
    case Begin =>
    case Then(earlier, step) =>
      FinishedStaysFinished(s, earlier);
      FinishedStep(After(s, earlier).value, step);
  }

  lemma FinishedStep(s: State, step: Step)
    requires s.created && s.job.Some? && !s.job.value.Accepted? && !s.job.value.Running?
    requires !step.SetStatus? && !step.Delete? && Next(s, step).Some?
    ensures var t := Next(s, step).value; t.job == s.job && t.created && t.writes == s.writes
  {
  }

  /** In particular a job dismissed while it was running stays dismissed, whatever its executor finds. */
  lemma DismissedStaysDismissed(s: State, trace: Trace)
    requires s.created && s.job == Some(Running)
    requires NoInterventions(trace) && After(Next(s, SetStatus(Dismissed)).value, trace).Some?
    ensures After(Next(s, SetStatus(Dismissed)).value, trace).value.job == Some(Dismissed)
  {
    FinishedStaysFinished(Next(s, SetStatus(Dismissed)).value, trace);
  }

  // ---------------------------------------------------------------- nothing is left hanging

  predicate WillTryToClaim(worker: Worker) {
    worker.Woken? || worker.Got? || worker.Claiming?
  }

  /**
   An accepted job has somebody on the way to claim it, and a claimed one has an executor, unless an
   outside call intervened.
   */
  ghost predicate NotAbandoned(s: State) {
    && (s.job == Some(Accepted) && s.lastWriter.Creation? ==>
          || s.creating
          || s.pending > 0
          || exists w :: 0 <= w < |s.workers| && WillTryToClaim(s.workers[w]))
    && (s.job == Some(Running) && s.lastWriter.Executor? ==>
          exists w :: 0 <= w < |s.workers| && InExecution(s.workers[w]))
    && (s.job == Some(Running) ==> !s.lastWriter.Creation?)
    && (s.job == Some(Accepted) ==> !s.lastWriter.Executor?)
  }

  lemma MoveKeepsNotAbandoned(s: State, t: State, w: nat)
    requires NotAbandoned(s) && w < |s.workers| == |t.workers| && t.workers == s.workers[w := t.workers[w]]
    requires t.creating == s.creating && t.job == s.job && t.lastWriter == s.lastWriter
    requires t.pending > 0 || WillTryToClaim(t.workers[w]) || (t.pending == s.pending && !WillTryToClaim(s.workers[w]))
             || s.job != Some(Accepted)
    requires InExecution(t.workers[w]) || !InExecution(s.workers[w]) || s.job != Some(Running)
    ensures NotAbandoned(t)
  {
    if v :| 0 <= v < |s.workers| && v != w && WillTryToClaim(s.workers[v]) {
      assert WillTryToClaim(t.workers[v]);
    }
    if v :| 0 <= v < |s.workers| && v != w && InExecution(s.workers[v]) {
      assert InExecution(t.workers[v]);
    }
  }

  lemma AdvanceKeepsNotAbandoned(s: State, w: nat, outcome: Outcome)
    requires NotAbandoned(s) && w < |s.workers| && !s.workers[w].Idle?
    ensures NotAbandoned(AdvanceWorker(s, w, outcome))
  {
    var worker := s.workers[w];
    if worker.Claiming? {
      ClaimKeepsNotAbandoned(s, w, worker.seen);
    } else if worker.Recording? {
      RecordKeepsNotAbandoned(s, w, worker.seen, worker.outcome);
    } else {
      OtherAdvances(s, w, outcome);
      MoveKeepsNotAbandoned(s, AdvanceWorker(s, w, outcome), w);
    }
  }

  lemma ClaimKeepsNotAbandoned(s: State, w: nat, seen: JobStatus)
    requires NotAbandoned(s) && w < |s.workers| && s.workers[w].Claiming?
    ensures NotAbandoned(Claim(s, w, seen))
  {
    var t := Claim(s, w, seen);
    if s.job == Some(Accepted) {
      assert InExecution(t.workers[w]);
    } else {
      MoveKeepsNotAbandoned(s, t, w);
    }
  }

  lemma RecordKeepsNotAbandoned(s: State, w: nat, seen: JobStatus, outcome: Outcome)
    requires NotAbandoned(s) && w < |s.workers| && s.workers[w].Recording?
    ensures NotAbandoned(Record(s, w, seen, outcome))
  {
    if s.job != Some(Running) {
      MoveKeepsNotAbandoned(s, Record(s, w, seen, outcome), w);
    }
  }

  lemma StepKeepsNotAbandoned(s: State, step: Step)
    requires NotAbandoned(s) && Next(s, step).Some?
    ensures NotAbandoned(Next(s, step).value)
  {
    match step
    case Advance(w, outcome) => AdvanceKeepsNotAbandoned(s, w, outcome);
    case Deliver(w) => MoveKeepsNotAbandoned(s, Next(s, step).value, w);
    case _ =>
  }

  lemma {:induction false} NeverAbandoned(workers: nat, trace: Trace, s: State)
    requires After(Initial(workers), trace) == Some(s)
    ensures NotAbandoned(s)
  {
    match trace
    case Begin =>
    case Then(earlier, step) =>
      var before := After(Initial(workers), earlier).value;
      NeverAbandoned(workers, earlier, before);
      StepKeepsNotAbandoned(before, step);
  }

  predicate Quiescent(s: State) {
    !s.creating && s.pending == 0 && forall w :: 0 <= w < |s.workers| ==> s.workers[w].Idle?
  }

  /** Once everything has settled, only a call from outside can have left a job accepted or running. */
  lemma QuiescentJobIsFinished(workers: nat, trace: Trace, s: State)
    requires After(Initial(workers), trace) == Some(s) && Quiescent(s)
    requires s.job == Some(Accepted) || s.job == Some(Running)
    ensures s.lastWriter.Outside?
  {
    NeverAbandoned(workers, trace, s);
  }

  // ---------------------------------------------------------------- coming to rest

  /** A step of potto itself, neither a call from outside nor a repeated delivery. */
  predicate IsOwnStep(step: Step) { step.PublishCreated? || step.Deliver? || step.Advance? }

  /** The steps a worker takes at most until it is idle again. */
  function StepsLeft(worker: Worker): nat {
    match worker
    case Idle => 0
    case Notifying => 1
    case Rereading(_) => 2
    case Recording(_, _) => 3
    case Ran(_, _) => 4
    case Executing(_) => 5
    case Claimed(_) => 6
    case Claiming(_) => 7
    case Got(_) => 8
    case Woken => 9
  }

  function TotalLeft(workers: seq<Worker>): nat {
    if workers == [] then 0 else StepsLeft(workers[0]) + TotalLeft(workers[1..])
  }

  /** An event that is still to be published or delivered is worth publishing, delivering and a handler's steps. */
  function Remaining(s: State): nat {
    (if s.creating then 11 else 0) + 10 * s.pending + TotalLeft(s.workers)
  }

  lemma {:induction false} TotalAfterMove(workers: seq<Worker>, w: nat, worker: Worker)
    requires w < |workers|
    ensures TotalLeft(workers[w := worker]) == TotalLeft(workers) - StepsLeft(workers[w]) + StepsLeft(worker)
  {
    if w > 0 {
      TotalAfterMove(workers[1..], w - 1, worker);
      assert workers[w := worker][1..] == workers[1..][w - 1 := worker];
    } else {
      assert workers[w := worker][1..] == workers[1..];
    }
  }

  predicate UsesStep(s: State, w: nat, t: State) {
    && w < |s.workers| == |t.workers| && t.creating == s.creating && t.pending == s.pending
    && t.workers == s.workers[w := t.workers[w]]
    && StepsLeft(t.workers[w]) < StepsLeft(s.workers[w])
  }

  lemma AdvanceUsesStep(s: State, w: nat, outcome: Outcome)
    requires w < |s.workers| && !s.workers[w].Idle?
    ensures UsesStep(s, w, AdvanceWorker(s, w, outcome))
  {
    var worker := s.workers[w];
    if worker.Claiming? {
      ClaimUsesStep(s, w, worker.seen);
    } else if worker.Recording? {
      RecordUsesStep(s, w, worker.seen, worker.outcome);
    }
  }

  lemma ClaimUsesStep(s: State, w: nat, seen: JobStatus)
    requires w < |s.workers| && s.workers[w].Claiming?
    ensures UsesStep(s, w, Claim(s, w, seen))
  {
  }

  lemma RecordUsesStep(s: State, w: nat, seen: JobStatus, outcome: Outcome)
    requires w < |s.workers| && s.workers[w].Recording?
    ensures UsesStep(s, w, Record(s, w, seen, outcome))
  {
  }

  lemma OwnStepUsesStep(s: State, step: Step)
    requires IsOwnStep(step) && Next(s, step).Some?
    ensures Remaining(Next(s, step).value) < Remaining(s)
  {
    match step
    case PublishCreated =>
    case Deliver(w) =>
      TotalAfterMove(s.workers, w, Woken);
    case Advance(w, outcome) =>
      AdvanceUsesStep(s, w, outcome);
      TotalAfterMove(s.workers, w, AdvanceWorker(s, w, outcome).workers[w]);
  }

  predicate OnlyOwnSteps(trace: Trace) { trace.Then? ==> IsOwnStep(trace.step) && OnlyOwnSteps(trace.earlier) }

  function Length(trace: Trace): nat { if trace.Begin? then 0 else Length(trace.earlier) + 1 }

  lemma {:induction false} OwnRunsAreShort(s: State, trace: Trace, t: State)
    requires After(s, trace) == Some(t) && OnlyOwnSteps(trace)
    ensures Length(trace) + Remaining(t) <= Remaining(s)
  {
    if trace.Then? {
      var before := After(s, trace.earlier).value;
      OwnRunsAreShort(s, trace.earlier, before);
      OwnStepUsesStep(before, trace.step);
    }
  }

  /** Potto has a step to take as long as anything is left to do, and somebody to do it. */
  lemma OwnStepRemains(s: State) returns (step: Step)
    requires |s.workers| > 0 && !Quiescent(s)
    ensures IsOwnStep(step) && Next(s, step).Some?
  {
    if w :| 0 <= w < |s.workers| && !s.workers[w].Idle? {
      step := Advance(w, Failed);
    } else if s.creating {
      step := PublishCreated;
    } else {
      step := Deliver(0);
    }
  }

  /** Creation accepts, and an executor never leaves a job accepted or dismissed. */
  predicate IsWritersStatus(s: State) {
    s.job.Some? ==>
      match s.lastWriter
      case Creation => s.job.value.Accepted?
      case Executor(_) => s.job.value in {Running, Successful, Failed}
      case Outside => true
  }

  lemma StepKeepsWriter(s: State, step: Step)
    requires IsWritersStatus(s) && Next(s, step).Some?
    ensures var t := Next(s, step).value;
      IsWritersStatus(t) && |t.workers| == |s.workers| &&
      (IsOwnStep(step) && !s.lastWriter.Outside? ==> !t.lastWriter.Outside? && t.job.Some? == s.job.Some?)
  {
    if step.Advance? {
      AdvanceKeepsWriter(s, step.worker, step.outcome);
    }
  }

  lemma AdvanceKeepsWriter(s: State, w: nat, outcome: Outcome)
    requires IsWritersStatus(s) && w < |s.workers| && !s.workers[w].Idle?
    ensures var t := AdvanceWorker(s, w, outcome);
      IsWritersStatus(t) && |t.workers| == |s.workers| &&
      (!s.lastWriter.Outside? ==> !t.lastWriter.Outside? && t.job.Some? == s.job.Some?)
  {
  }

  lemma {:induction false} RunKeepsWriter(s: State, trace: Trace, t: State)
    requires IsWritersStatus(s) && After(s, trace) == Some(t)
    ensures IsWritersStatus(t) && |t.workers| == |s.workers|
    ensures OnlyOwnSteps(trace) && !s.lastWriter.Outside? ==> !t.lastWriter.Outside? && t.job.Some? == s.job.Some?
  {
    match trace
    case Begin =>
    case Then(earlier, step) =>
      var before := After(s, earlier).value;
      RunKeepsWriter(s, earlier, before);
      StepKeepsWriter(before, step);
  }

  /**
   Left alone at any moment, a job whose status nobody outside has set last is finished after boundedly
   many steps, in whatever order they are taken: a run of potto's own steps is no longer than what
   remained to do, and one that cannot be continued has the job successful or failed.
   */
  lemma LeftAloneItFinishes(workers: nat, earlier: Trace, s: State, trace: Trace, t: State)
    requires workers > 0 && After(Initial(workers), earlier) == Some(s)
    requires After(s, trace) == Some(t) && OnlyOwnSteps(trace)
    requires s.job.Some? && !s.lastWriter.Outside?
    ensures Length(trace) <= Remaining(s)
    ensures (forall step :: IsOwnStep(step) ==> Next(t, step).None?) ==>
      t.job.Some? && t.job.value in {Successful, Failed}
  {
    OwnRunsAreShort(s, trace, t);
    RunKeepsWriter(Initial(workers), earlier, s);
    RunKeepsWriter(s, trace, t);
    var whole := Appended(Initial(workers), earlier, s, trace, t);
    if forall step :: IsOwnStep(step) ==> Next(t, step).None? {
      RestIsQuiescent(t);
      if t.job.value in {Accepted, Running} {
        QuiescentJobIsFinished(workers, whole, t);
      }
    }
  }

  lemma RestIsQuiescent(s: State)
    requires |s.workers| > 0 && forall step :: IsOwnStep(step) ==> Next(s, step).None?
    ensures Quiescent(s)
  {
    if !Quiescent(s) {
      var step := OwnStepRemains(s);
    }
  }

  lemma {:induction false} Appended(start: State, earlier: Trace, s: State, later: Trace, t: State)
    returns (whole: Trace)
    requires After(start, earlier) == Some(s) && After(s, later) == Some(t)
    ensures After(start, whole) == Some(t)
  {
    match later
    case Begin => whole := earlier;
    case Then(before, step) =>
      whole := Appended(start, earlier, s, before, After(s, before).value);
      whole := Then(whole, step);
  }

  // ---------------------------------------------------------------- the events

  predicate IsCreate(step: Step) { step.Create? }

  predicate IsPublish(step: Step) { step.PublishCreated? }

  predicate IsRedeliver(step: Step) { step.Redeliver? }

  predicate IsDeliver(step: Step) { step.Deliver? }

  /**
   A job is created at most once; its event is published once or still to be published; and what was
   published or is delivered again was delivered once or is waiting.
   */
  lemma {:induction false} EventsAreConserved(workers: nat, trace: Trace, s: State)
    requires After(Initial(workers), trace) == Some(s)
    ensures Count(trace, IsCreate) == (if s.created then 1 else 0)
    ensures Count(trace, IsCreate) == Count(trace, IsPublish) + if s.creating then 1 else 0
    ensures Count(trace, IsPublish) + Count(trace, IsRedeliver) == Count(trace, IsDeliver) + s.pending
  {
    match trace
    case Begin =>
    case Then(earlier, step) =>
      var before := After(Initial(workers), earlier).value;
      EventsAreConserved(workers, earlier, before);
      if step.Advance? {
        AdvanceKeepsEvents(before, step.worker, step.outcome);
      }
  }

  lemma AdvanceKeepsEvents(s: State, w: nat, outcome: Outcome)
    requires w < |s.workers| && !s.workers[w].Idle?
    ensures var t := AdvanceWorker(s, w, outcome);
      t.created == s.created && t.creating == s.creating && t.pending == s.pending
  {
  }

  lemma Extend(start: State, trace: Trace, s: State, step: Step) returns (longer: Trace, t: State)
    requires After(start, trace) == Some(s) && Next(s, step).Some?
    ensures After(start, longer) == Some(t) && Some(t) == Next(s, step) && Length(longer) == Length(trace) + 1
  {
    longer, t := Then(trace, step), Next(s, step).value;
  }

  /** A job can be created, claimed and run with any outcome, and ends with one notification that its status changed. */
  lemma AnyOutcomeIsReached(workers: nat, outcome: Outcome) returns (trace: Trace, s: State)
    requires workers > 0
    ensures After(Initial(workers), trace) == Some(s) && Quiescent(s)
    ensures s.job == Some(outcome) && s.starts == 1 && s.notified == 1
    ensures s.writes == [Write(Executor(0), Accepted, Running), Write(Executor(0), Running, outcome)]
  {
    var start := Initial(workers);
    trace, s := CreateAndWake(workers);
    trace, s := ClaimAndRun(start, trace, s, outcome);
    trace, s := RecordAndNotify(start, trace, s, outcome);
  }

  lemma CreateAndWake(workers: nat) returns (trace: Trace, s: State)
    requires workers > 0
    ensures After(Initial(workers), trace) == Some(s)
    ensures s.job == Some(Accepted) && s.workers == Initial(workers).workers[0 := Got(Accepted)]
    ensures s.starts == s.notified == s.pending == 0 && s.writes == [] && !s.creating
  {
    var start := Initial(workers);
    trace, s := Extend(start, Begin, start, Create);
    trace, s := Extend(start, trace, s, PublishCreated);
    trace, s := Extend(start, trace, s, Deliver(0));
    trace, s := Extend(start, trace, s, Advance(0, Failed));
  }

  lemma RecordAndNotify(start: State, earlier: Trace, before: State, outcome: Outcome) returns (trace: Trace, s: State)
    requires After(start, earlier) == Some(before)
    requires before.workers != [] && before.workers[0] == Ran(Accepted, outcome) && before.job == Some(Running)
    ensures After(start, trace) == Some(s)
    ensures s.job == Some(outcome) && s.workers == before.workers[0 := Idle]
    ensures s.starts == before.starts && s.notified == before.notified + 1
    ensures s.writes == before.writes + [Write(Executor(0), Running, outcome)]
    ensures s.creating == before.creating && s.pending == before.pending
  {
    trace, s := Extend(start, earlier, before, Advance(0, outcome));
    trace, s := Extend(start, trace, s, Advance(0, outcome));
    assert s.job == Some(outcome) && s.workers == before.workers[0 := Rereading(Accepted)];
    trace, s := Notify(start, trace, s);
  }

  lemma Notify(start: State, earlier: Trace, before: State) returns (trace: Trace, s: State)
    requires After(start, earlier) == Some(before)
    requires before.workers != [] && before.workers[0] == Rereading(Accepted)
    requires before.job.Some? && !before.job.value.Accepted?
    ensures After(start, trace) == Some(s)
    ensures s == before.(workers := before.workers[0 := Idle], notified := before.notified + 1)
  {
    trace, s := Extend(start, earlier, before, Advance(0, Failed));
    trace, s := Extend(start, trace, s, Advance(0, Failed));
  }

  lemma ClaimAndRun(start: State, earlier: Trace, before: State, outcome: Outcome) returns (trace: Trace, s: State)
    requires After(start, earlier) == Some(before)
    requires before.workers != [] && before.workers[0] == Got(Accepted) && before.job == Some(Accepted)
    ensures After(start, trace) == Some(s)
    ensures s.job == Some(Running) && s.workers == before.workers[0 := Ran(Accepted, outcome)]
    ensures s.starts == before.starts + 1 && s.notified == before.notified
    ensures s.writes == before.writes + [Write(Executor(0), Accepted, Running)]
    ensures s.creating == before.creating && s.pending == before.pending
  {
    trace, s := Extend(start, earlier, before, Advance(0, outcome));
    trace, s := Extend(start, trace, s, Advance(0, outcome));
    assert s.job == Some(Running) && s.workers == before.workers[0 := Claimed(Accepted)];
    trace, s := Extend(start, trace, s, Advance(0, outcome));
    trace, s := Extend(start, trace, s, Advance(0, outcome));
  }
}
