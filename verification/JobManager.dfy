/**
 Jobs as the manager stores and executes them, call by call. At every await of a call other parties may
 set statuses and delete jobs; one whole call is shown to be a run of the protocol of `JobExecution`.
 */
module JobManager {
  import opened Wrappers
  import opened Scopes
  import opened Authorization
  import opened JobExecution

  datatype Exception = Exception(type_: string, title: string, detail: Option<string>)

  datatype JobRecord = JobRecord(job: Job, status: JobStatus, message: Option<string>, progress: Option<int>,
                                 exception: Option<Exception>, startedAt: Option<nat>, finishedAt: Option<nat>)

  /** What a status update writes; absent parts are left as they are. */
  datatype Change = Change(status: JobStatus, message: Option<string>, progress: Option<int>,
                           exception: Option<Exception>)

  datatype ProcessRecord = ProcessRecord(resource: Resource, isDeployed: bool)

  /** The stored jobs and the database's clock. */
  datatype Store = Store(jobs: map<string, JobRecord>, clock: nat) {
    function StatusOf(identifier: string): Option<JobStatus> {
      if identifier in jobs then Some(jobs[identifier].status) else None
    }
  }

  datatype Error = NotFound | CannotCreate | CannotUpdate

  predicate IsFinal(status: JobStatus) { status.Successful? || status.Failed? || status.Dismissed? }

  function OrElse<T>(o: Option<T>, default: Option<T>): Option<T> { if o.Some? then o else default }

  function Clamp(progress: int): int {
    var atMost := if progress < 100 then progress else 100;
    if atMost > 0 then atMost else 0
  }

  /** The row after the UPDATE statement. */
  function Changed(r: JobRecord, change: Change, now: nat): JobRecord {
    r.(status := change.status,
       startedAt := if change.status.Running? then OrElse(r.startedAt, Some(now)) else r.startedAt,
       finishedAt := if IsFinal(change.status) then Some(now) else r.finishedAt,
       message := OrElse(change.message, r.message),
       progress := if change.progress.Some? then Some(Clamp(change.progress.value)) else r.progress,
       exception := OrElse(change.exception, r.exception))
  }

  /** Each column of the row after an update: what is given is written, progress as a percentage, the rest is kept. */
  lemma UpdateWrites(r: JobRecord, change: Change, now: nat)
    ensures var t := Changed(r, change, now);
      && t.job == r.job && t.status == change.status
      && (change.message.None? ==> t.message == r.message) && (change.message.Some? ==> t.message == change.message)
      && (change.exception.None? ==> t.exception == r.exception)
      && (change.exception.Some? ==> t.exception == change.exception)
      && (change.progress.None? ==> t.progress == r.progress)
      && (forall p :: change.progress == Some(p) ==>
            && (0 <= p <= 100 ==> t.progress == Some(p))
            && (p > 100 ==> t.progress == Some(100))
            && (p < 0 ==> t.progress == Some(0)))
      && (change.status == Running && r.startedAt == None ==> t.startedAt == Some(now))
      && (change.status != Running || r.startedAt != None ==> t.startedAt == r.startedAt)
      && (change.status == Accepted || change.status == Running ==> t.finishedAt == r.finishedAt)
      && (change.status == Successful || change.status == Failed || change.status == Dismissed ==>
            t.finishedAt == Some(now))
  {
  }

  // ---------------------------------------------------------------- specification of an execution

  /** How running a job ends. */
  datatype Run = Returns | Raises(type_: string, text: string)

  const EXECUTOR := System("job-executor")

  const CLAIM := Change(Running, None, None, None)

  function OutcomeOf(run: Run): Outcome { if run.Returns? then Successful else Failed }

  /** What is recorded after a run. */
  function Recorded(run: Run): Change {
    match run
    case Returns => Change(Successful, None, Some(100), None)
    case Raises(type_, text) =>
      Change(Failed, Some(if text != "" then text else type_), None,
             Some(Exception(type_, "Job execution failed", if text != "" then Some(text) else None)))
  }

  /** What others do at an await. */
  datatype Call = Pass(time: nat) | Set(identifier: string, change: Change) | Remove(identifier: string)

  function AfterCall(s: Store, call: Call): Store {
    match call
    case Pass(time) => s.(clock := s.clock + time)
    case Set(identifier, change) =>
      if identifier in s.jobs
      then s.(jobs := s.jobs[identifier := Changed(s.jobs[identifier], change, s.clock)])
      else s
    case Remove(identifier) => s.(jobs := s.jobs - {identifier})
  }

  function AfterCalls(s: Store, calls: seq<Call>): Store {
    if calls == [] then s else AfterCall(AfterCalls(s, calls[..|calls| - 1]), calls[|calls| - 1])
  }

  /** The conditional update of one job. */
  function Updated(s: Store, identifier: string, change: Change, from: Option<set<JobStatus>>): Store {
    if identifier in s.jobs && (from.Some? ==> s.jobs[identifier].status in from.value)
    then s.(jobs := s.jobs[identifier := Changed(s.jobs[identifier], change, s.clock)])
    else s
  }

  /**
   What others do at the awaits of one handled event: between the first reading of the job and the
   lookup for claiming it, on either side of the claiming UPDATE, while the job runs, and on either
   side of the recording UPDATE.
   */
  datatype Meanwhile = Meanwhile(atFirst: seq<Call>, beforeClaim: seq<Call>, afterClaim: seq<Call>,
                                 running: seq<Call>, beforeRecord: seq<Call>, afterRecord: seq<Call>)

  /** One status update: look the job up, run the UPDATE, read the job back. */
  function StatusSet(s: Store, identifier: string, change: Change, from: Option<set<JobStatus>>,
                     before: seq<Call>, after: seq<Call>): Store
  {
    if identifier in s.jobs then AfterCalls(Updated(AfterCalls(s, before), identifier, change, from), after) else s
  }

  /** Whether its UPDATE finds the job as required. */
  predicate TakesEffect(s: Store, identifier: string, from: Option<set<JobStatus>>, before: seq<Call>) {
    && identifier in s.jobs
    && var t := AfterCalls(s, before);
      identifier in t.jobs && (from.Some? ==> t.jobs[identifier].status in from.value)
  }

  /** The store after one execution: claim, run, and record if the job is still running. */
  function Executed(s: Store, identifier: string, run: Run, m: Meanwhile): Store {
    var t := StatusSet(s, identifier, CLAIM, Some({Accepted}), m.beforeClaim, m.afterClaim);
    if TakesEffect(s, identifier, Some({Accepted}), m.beforeClaim) && identifier in t.jobs
    then StatusSet(AfterCalls(t, m.running), identifier, Recorded(run), Some({Running}), m.beforeRecord, m.afterRecord)
    else t
  }

  /** The store after one handled event. */
  function Handled(s: Store, identifier: string, run: Run, m: Meanwhile): Store {
    if identifier in s.jobs then Executed(AfterCalls(s, m.atFirst), identifier, run, m) else s
  }

  // ---------------------------------------------------------------- what every call keeps

  /** What every stored job satisfies. */
  predicate Sound(r: JobRecord, clock: nat) {
    && (r.progress.Some? ==> 0 <= r.progress.value <= 100)
    && (r.status.Running? ==> r.startedAt.Some?)
    && (IsFinal(r.status) ==> r.finishedAt.Some?)
    && (r.startedAt.Some? ==> r.startedAt.value <= clock)
    && (r.finishedAt.Some? ==> r.finishedAt.value <= clock)
  }

  predicate AllSound(s: Store) { forall identifier <- s.jobs :: Sound(s.jobs[identifier], s.clock) }

  /** What a later version of a store keeps of a job it still has: its identity and when it first started. */
  predicate Continues(s: Store, t: Store) {
    && s.clock <= t.clock
    && forall identifier <- t.jobs ::
         && identifier in s.jobs
         && t.jobs[identifier].job == s.jobs[identifier].job
         && (s.jobs[identifier].startedAt.Some? ==> t.jobs[identifier].startedAt == s.jobs[identifier].startedAt)
  }

  lemma {:induction false} CallsKeep(s: Store, calls: seq<Call>)
    requires AllSound(s)
    ensures AllSound(AfterCalls(s, calls)) && Continues(s, AfterCalls(s, calls))
  {
    if calls != [] {
      CallsKeep(s, calls[..|calls| - 1]);
      CallKeeps(AfterCalls(s, calls[..|calls| - 1]), calls[|calls| - 1]);
    }
  }

  lemma CallKeeps(s: Store, call: Call)
    requires AllSound(s)
    ensures AllSound(AfterCall(s, call)) && Continues(s, AfterCall(s, call))
  {
    if call.Set? {
      UpdateKeeps(s, call.identifier, call.change, None);
    }
  }

  lemma UpdateKeeps(s: Store, identifier: string, change: Change, from: Option<set<JobStatus>>)
    requires AllSound(s)
    ensures AllSound(Updated(s, identifier, change, from)) && Continues(s, Updated(s, identifier, change, from))
  {
    if identifier in s.jobs {
      assert Sound(s.jobs[identifier], s.clock);
      assert Sound(Changed(s.jobs[identifier], change, s.clock), s.clock);
    }
  }

  lemma StatusSetKeeps(s: Store, identifier: string, change: Change, from: Option<set<JobStatus>>,
                       before: seq<Call>, after: seq<Call>)
    requires AllSound(s)
    ensures var t := StatusSet(s, identifier, change, from, before, after); AllSound(t) && Continues(s, t)
  {
    if identifier in s.jobs {
      CallsKeep(s, before);
      UpdateKeeps(AfterCalls(s, before), identifier, change, from);
      CallsKeep(Updated(AfterCalls(s, before), identifier, change, from), after);
    }
  }

  /**
   A handled event, with anything happening at its awaits, keeps every job sound, and every job that is
   left keeps its identity and the time it first started.
   */
  lemma HandlingKeeps(s: Store, identifier: string, run: Run, m: Meanwhile)
    requires AllSound(s)
    ensures AllSound(Handled(s, identifier, run, m)) && Continues(s, Handled(s, identifier, run, m))
    ensures var t := Handled(s, identifier, run, m);
      forall k <- t.jobs ::
        && k in s.jobs && t.jobs[k].job == s.jobs[k].job
        && (s.jobs[k].startedAt.Some? ==> t.jobs[k].startedAt == s.jobs[k].startedAt)
        && (t.jobs[k].status == Running ==> t.jobs[k].startedAt.Some?)
        && (t.jobs[k].status in {Successful, Failed, Dismissed} ==> t.jobs[k].finishedAt.Some?)
        && (t.jobs[k].startedAt.Some? ==> t.jobs[k].startedAt.value <= t.clock)
        && (t.jobs[k].finishedAt.Some? ==> t.jobs[k].finishedAt.value <= t.clock)
        && (t.jobs[k].progress.Some? ==> 0 <= t.jobs[k].progress.value <= 100)
  {
    if identifier in s.jobs {
      var looked := AfterCalls(s, m.atFirst);
      var t := StatusSet(looked, identifier, CLAIM, Some({Accepted}), m.beforeClaim, m.afterClaim);
      CallsKeep(s, m.atFirst);
      StatusSetKeeps(looked, identifier, CLAIM, Some({Accepted}), m.beforeClaim, m.afterClaim);
      if t != Executed(looked, identifier, run, m) {
        CallsKeep(t, m.running);
        StatusSetKeeps(AfterCalls(t, m.running), identifier, Recorded(run), Some({Running}),
                       m.beforeRecord, m.afterRecord);
      }
    }
  }

  predicate Leaves(calls: seq<Call>, identifier: string) {
    forall i :: 0 <= i < |calls| ==> calls[i].Pass? || calls[i].identifier != identifier
  }

  lemma {:induction false} LeftAlone(s: Store, calls: seq<Call>, identifier: string)
    requires Leaves(calls, identifier) && identifier in s.jobs
    ensures var t := AfterCalls(s, calls);
      identifier in t.jobs && t.jobs[identifier] == s.jobs[identifier] && t.clock >= s.clock
  {
    if calls != [] {
      LeftAlone(s, calls[..|calls| - 1], identifier);
    }
  }

  predicate AllLeave(m: Meanwhile, identifier: string) {
    && Leaves(m.atFirst, identifier) && Leaves(m.beforeClaim, identifier) && Leaves(m.afterClaim, identifier)
    && Leaves(m.running, identifier) && Leaves(m.beforeRecord, identifier) && Leaves(m.afterRecord, identifier)
  }

  /** A status update nobody interferes with changes the job as it was. */
  lemma UndisturbedUpdate(s: Store, identifier: string, change: Change, from: set<JobStatus>, before: seq<Call>,
                          after: seq<Call>)
    requires identifier in s.jobs && s.jobs[identifier].status in from
    requires Leaves(before, identifier) && Leaves(after, identifier)
    ensures TakesEffect(s, identifier, Some(from), before)
    ensures var now, t := AfterCalls(s, before).clock, StatusSet(s, identifier, change, Some(from), before, after);
      && identifier in t.jobs && t.jobs[identifier] == Changed(s.jobs[identifier], change, now)
      && s.clock <= now <= t.clock
  {
    LeftAlone(s, before, identifier);
    LeftAlone(Updated(AfterCalls(s, before), identifier, change, Some(from)), after, identifier);
  }

  /**
   An event nobody interferes with finishes the job: it was started before it finished, and it either
   succeeded with full progress, or failed with the exception's text, or for lack of one its type.
   */
  lemma UndisturbedExecutionFinishes(s: Store, identifier: string, run: Run, m: Meanwhile)
    requires s.StatusOf(identifier) == Some(Accepted) && AllSound(s) && AllLeave(m, identifier)
    ensures identifier in Handled(s, identifier, run, m).jobs
    ensures var was, r := s.jobs[identifier], Handled(s, identifier, run, m).jobs[identifier];
      && r.job == was.job
      && match run
         case Returns =>
           r.status == Successful && r.progress == Some(100) && r.message == was.message && r.exception == was.exception
         case Raises(type_, text) =>
           && r.status == Failed && r.progress == was.progress
           && r.message == Some(if text != "" then text else type_)
           && r.exception == Some(Exception(type_, "Job execution failed", if text != "" then Some(text) else None))
    ensures var was, t := s.jobs[identifier], Handled(s, identifier, run, m);
      var r := t.jobs[identifier];
      && r.startedAt.Some? && r.finishedAt.Some? && s.clock <= r.finishedAt.value <= t.clock
      && r.startedAt.value <= r.finishedAt.value
      && (if was.startedAt.Some? then r.startedAt == was.startedAt else s.clock <= r.startedAt.value)
  {
    assert Sound(s.jobs[identifier], s.clock);
    LeftAlone(s, m.atFirst, identifier);
    var looked := AfterCalls(s, m.atFirst);
    UndisturbedUpdate(looked, identifier, CLAIM, {Accepted}, m.beforeClaim, m.afterClaim);
    var t := StatusSet(looked, identifier, CLAIM, Some({Accepted}), m.beforeClaim, m.afterClaim);
    LeftAlone(t, m.running, identifier);
    UndisturbedUpdate(AfterCalls(t, m.running), identifier, Recorded(run), {Running}, m.beforeRecord, m.afterRecord);
  }

  // ---------------------------------------------------------------- an execution is a run of the protocol

  /** The protocol's steps that are visible to one job when others make calls. */
  function StepsOf(calls: seq<Call>, identifier: string, s: Store): Trace {
    if calls == [] then Begin else
    var earlier := StepsOf(calls[..|calls| - 1], identifier, s);
    var before := AfterCalls(s, calls[..|calls| - 1]);
    match calls[|calls| - 1]
    case Pass(_) => earlier
    case Set(i, change) =>
      if i == identifier && i in before.jobs then Then(earlier, SetStatus(change.status)) else earlier
    case Remove(i) =>
      if i == identifier && i in before.jobs then Then(earlier, Delete) else earlier
  }

  /** Only the job, the writes and the like change; the workers stay where they are. */
  lemma {:induction false} CallsAreSteps(p: State, s: Store, calls: seq<Call>, identifier: string)
    requires p.job == s.StatusOf(identifier)
    ensures var q := After(p, StepsOf(calls, identifier, s));
      q.Some? && q.value.job == AfterCalls(s, calls).StatusOf(identifier)
      && q.value.workers == p.workers && q.value.pending == p.pending && q.value.notified == p.notified
  {
    if calls != [] {
      CallsAreSteps(p, s, calls[..|calls| - 1], identifier);
    }
  }

  function Append(earlier: Trace, later: Trace): Trace {
    match later
    case Begin => earlier
    case Then(some, step) => Then(Append(earlier, some), step)
  }

  lemma {:induction false} AfterAppend(p: State, earlier: Trace, later: Trace)
    requires After(p, earlier).Some?
    ensures After(p, Append(earlier, later)) == After(After(p, earlier).value, later)
  {
    match later
    case Begin =>
    case Then(some, step) => AfterAppend(p, earlier, some);
  }

  /**
   The protocol can get from one state to the other, as far as the job, the workers and the messages are
   concerned.
   */
  ghost predicate IsRun(p: State, job: Option<JobStatus>, pending: nat, notified: nat) {
    exists trace :: Arrives(After(p, trace), p.workers, job, pending, notified)
  }

  predicate Arrives(q: Option<State>, workers: seq<Worker>, job: Option<JobStatus>, pending: nat, notified: nat) {
    && q.Some? && q.value.workers == workers && q.value.job == job
    && q.value.pending == pending && q.value.notified == notified
  }

  /** The notification is sent when the status read back differs from the one read first. */
  function Notifications(s: Store, t: Store, identifier: string): nat {
    if s.StatusOf(identifier).Some? && t.StatusOf(identifier).Some? && s.StatusOf(identifier) != t.StatusOf(identifier)
    then 1 else 0
  }

  /** A run in which one worker took an event and has got to a certain point, all others staying where they were. */
  predicate IsAt(p: State, trace: Trace, q: State, w: nat, local: Worker, job: Option<JobStatus>) {
    && w < |p.workers| && After(p, trace) == Some(q)
    && q.workers == p.workers[w := local] && q.job == job
    && q.pending + 1 == p.pending && q.notified == p.notified
  }

  /** The worker's next step. */
  lemma Stepped(p: State, earlier: Trace, s: State, w: nat, local: Worker, job: Option<JobStatus>, outcome: Outcome)
    returns (trace: Trace, q: State)
    requires IsAt(p, earlier, s, w, local, job) && !local.Idle? && !local.Notifying?
    ensures q == AdvanceWorker(s, w, outcome) && IsAt(p, trace, q, w, q.workers[w], q.job)
  {
    trace, q := Then(earlier, Advance(w, outcome)), AdvanceWorker(s, w, outcome);
    assert q.workers == p.workers[w := q.workers[w]];
  }

  /** What others do in between. */
  lemma Interfered(p: State, earlier: Trace, q: State, w: nat, local: Worker, s: Store, calls: seq<Call>,
                   identifier: string)
    returns (trace: Trace, r: State)
    requires IsAt(p, earlier, q, w, local, s.StatusOf(identifier))
    ensures IsAt(p, trace, r, w, local, AfterCalls(s, calls).StatusOf(identifier))
  {
    CallsAreSteps(q, s, calls, identifier);
    AfterAppend(p, earlier, StepsOf(calls, identifier, s));
    trace, r := Append(earlier, StepsOf(calls, identifier, s)), After(q, StepsOf(calls, identifier, s)).value;
  }

  /** From the delivery to the lookup for claiming. */
  lemma ReadingRun(p: State, w: nat, s: Store, identifier: string, calls: seq<Call>, outcome: Outcome)
    returns (trace: Trace, q: State)
    requires w < |p.workers| && p.workers[w].Idle? && p.pending > 0 && p.job == s.StatusOf(identifier) && p.job.Some?
    ensures IsAt(p, trace, q, w, Got(p.job.value), AfterCalls(s, calls).StatusOf(identifier))
  {
    trace, q := Then(Begin, Deliver(w)), Next(p, Deliver(w)).value;
    assert After(p, Begin) == Some(p);
    assert IsAt(p, trace, q, w, Woken, p.job);
    trace, q := Stepped(p, trace, q, w, Woken, p.job, outcome);
    trace, q := Interfered(p, trace, q, w, Got(p.job.value), s, calls, identifier);
  }

  /** Where a worker is after an attempt to claim, with the job read back if it was claimed. */
  function AfterClaiming(seen: JobStatus, looked: Store, t: Store, identifier: string, before: seq<Call>): Worker {
    if identifier !in looked.jobs then Idle
    else if !TakesEffect(looked, identifier, Some({Accepted}), before) then Rereading(seen)
    else if identifier in t.jobs then Executing(seen)
    else Idle
  }

  lemma ClaimingRun(p: State, earlier: Trace, s: State, w: nat, seen: JobStatus, looked: Store, identifier: string,
                    m: Meanwhile, outcome: Outcome)
    returns (trace: Trace, q: State)
    requires IsAt(p, earlier, s, w, Got(seen), looked.StatusOf(identifier))
    ensures var t := StatusSet(looked, identifier, CLAIM, Some({Accepted}), m.beforeClaim, m.afterClaim);
      IsAt(p, trace, q, w, AfterClaiming(seen, looked, t, identifier, m.beforeClaim), t.StatusOf(identifier))
  {
    trace, q := Stepped(p, earlier, s, w, Got(seen), looked.StatusOf(identifier), outcome);
    if identifier in looked.jobs {
      var before := AfterCalls(looked, m.beforeClaim);
      var updated := Updated(before, identifier, CLAIM, Some({Accepted}));
      trace, q := Interfered(p, trace, q, w, Claiming(seen), looked, m.beforeClaim, identifier);
      trace, q := Stepped(p, trace, q, w, Claiming(seen), before.StatusOf(identifier), outcome);
      var local := q.workers[w];
      assert local == if before.StatusOf(identifier) == Some(Accepted) then Claimed(seen) else Rereading(seen);
      trace, q := Interfered(p, trace, q, w, local, updated, m.afterClaim, identifier);
      if local.Claimed? {
        trace, q := Stepped(p, trace, q, w, local, AfterCalls(updated, m.afterClaim).StatusOf(identifier), outcome);
      }
    }
  }

  /** From the start of the run until after the recording UPDATE. */
  lemma RecordingRun(p: State, earlier: Trace, s: State, w: nat, seen: JobStatus, t: Store, identifier: string,
                     run: Run, m: Meanwhile)
    returns (trace: Trace, q: State)
    requires IsAt(p, earlier, s, w, Executing(seen), t.StatusOf(identifier))
    ensures var ran := AfterCalls(t, m.running);
      IsAt(p, trace, q, w, if identifier in ran.jobs then Rereading(seen) else Idle,
           StatusSet(ran, identifier, Recorded(run), Some({Running}), m.beforeRecord, m.afterRecord)
           .StatusOf(identifier))
  {
    var outcome, ran := OutcomeOf(run), AfterCalls(t, m.running);
    trace, q := Interfered(p, earlier, s, w, Executing(seen), t, m.running, identifier);
    trace, q := Stepped(p, trace, q, w, Executing(seen), ran.StatusOf(identifier), outcome);
    trace, q := Stepped(p, trace, q, w, Ran(seen, outcome), ran.StatusOf(identifier), outcome);
    if identifier in ran.jobs {
      var before := AfterCalls(ran, m.beforeRecord);
      trace, q := Interfered(p, trace, q, w, Recording(seen, outcome), ran, m.beforeRecord, identifier);
      trace, q := Stepped(p, trace, q, w, Recording(seen, outcome), before.StatusOf(identifier), outcome);
      var updated := Updated(before, identifier, Recorded(run), Some({Running}));
      trace, q := Interfered(p, trace, q, w, Rereading(seen), updated, m.afterRecord, identifier);
    }
  }

  /** Reading back and notifying. */
  lemma ClosingRun(p: State, earlier: Trace, s: State, w: nat, seen: JobStatus, job: Option<JobStatus>,
                   outcome: Outcome)
    requires IsAt(p, earlier, s, w, Rereading(seen), job) && p.workers[w].Idle?
    ensures IsRun(p, job, p.pending - 1, p.notified + if job.Some? && job.value != seen then 1 else 0)
  {
    var trace, q := Stepped(p, earlier, s, w, Rereading(seen), job, outcome);
    if job.Some? && job.value != seen {
      trace, q := Then(trace, Advance(w, outcome)), AdvanceWorker(q, w, outcome);
    }
    assert q.workers == p.workers;
    assert Arrives(After(p, trace), p.workers, job, p.pending - 1, q.notified);
  }

  lemma StoppedRun(p: State, trace: Trace, q: State, w: nat, job: Option<JobStatus>)
    requires IsAt(p, trace, q, w, Idle, job) && p.workers[w].Idle?
    ensures IsRun(p, job, p.pending - 1, p.notified)
  {
    assert Arrives(After(p, trace), p.workers, job, p.pending - 1, p.notified);
  }

  /** Handling one event, with whatever others do at its awaits, is a run of the protocol. */
  lemma HandlingIsARun(p: State, w: nat, s: Store, identifier: string, run: Run, m: Meanwhile)
    requires w < |p.workers| && p.workers[w].Idle? && p.pending > 0 && p.job == s.StatusOf(identifier)
    ensures var t := Handled(s, identifier, run, m);
      IsRun(p, t.StatusOf(identifier), p.pending - 1, p.notified + Notifications(s, t, identifier))
    ensures var t := Handled(s, identifier, run, m);
      exists trace ::
        && After(p, trace).Some? && After(p, trace).value.workers == p.workers
        && After(p, trace).value.job == (if identifier in t.jobs then Some(t.jobs[identifier].status) else None)
        && After(p, trace).value.pending == p.pending - 1
        && (p.notified <= After(p, trace).value.notified <= p.notified + 1)
  {
    if identifier in s.jobs {
      KnownJobIsARun(p, w, s, identifier, run, m);
    } else {
      var trace, q := Then(Then(Begin, Deliver(w)), Advance(w, Failed)), p.(pending := p.pending - 1);
      assert After(p, Then(Begin, Deliver(w))) == Some(p.(pending := p.pending - 1, workers := p.workers[w := Woken]));
      assert q.workers == p.workers[w := Woken][w := Idle];
      assert After(p, trace) == Some(q);
      assert Arrives(After(p, trace), p.workers, None, p.pending - 1, p.notified);
    }
  }

  lemma KnownJobIsARun(p: State, w: nat, s: Store, identifier: string, run: Run, m: Meanwhile)
    requires w < |p.workers| && p.workers[w].Idle? && p.pending > 0 && p.job == s.StatusOf(identifier)
    requires identifier in s.jobs
    ensures var t := Handled(s, identifier, run, m);
      IsRun(p, t.StatusOf(identifier), p.pending - 1, p.notified + Notifications(s, t, identifier))
  {
    var seen, outcome, looked := p.job.value, OutcomeOf(run), AfterCalls(s, m.atFirst);
    var t := StatusSet(looked, identifier, CLAIM, Some({Accepted}), m.beforeClaim, m.afterClaim);
    var trace, q := ReadingRun(p, w, s, identifier, m.atFirst, outcome);
    trace, q := ClaimingRun(p, trace, q, w, seen, looked, identifier, m, outcome);
    var local := AfterClaiming(seen, looked, t, identifier, m.beforeClaim);
    if local.Executing? {
      var ran, u := AfterCalls(t, m.running), Executed(looked, identifier, run, m);
      trace, q := RecordingRun(p, trace, q, w, seen, t, identifier, run, m);
      if identifier in ran.jobs {
        ClosingRun(p, trace, q, w, seen, u.StatusOf(identifier), outcome);
      } else {
        StoppedRun(p, trace, q, w, u.StatusOf(identifier));
      }
    } else if local.Rereading? {
      ClosingRun(p, trace, q, w, seen, t.StatusOf(identifier), outcome);
    } else {
      StoppedRun(p, trace, q, w, t.StatusOf(identifier));
    }
  }

  // ---------------------------------------------------------------- the manager

  class Manager {
    var jobs: map<string, JobRecord>
    var clock: nat
    const processes: map<string, ProcessRecord>

    /** Events published on the internal broker: jobs created, and jobs whose status changed. */
    var created: seq<string>
    var statusChanged: seq<string>

    constructor (processes: map<string, ProcessRecord>)
      ensures this.processes == processes && Stored() == Store(map[], 0) && created == [] && statusChanged == []
    {
      this.processes := processes;
      jobs, clock, created, statusChanged := map[], 0, [], [];
    }

    ghost function Stored(): Store
      reads this
    {
      Store(jobs, clock)
    }

    /** Create a job under a newly generated identifier; a clash is refused by the database. */
    method CreateJob(processId: string, principal: Option<Principal>, identifier: string)
      returns (r: Result<JobRecord, Error>)
      modifies this`jobs, this`created
      ensures r.Failure? ==> jobs == old(jobs) && created == old(created)
      ensures r == Failure(NotFound) <==> processId !in processes
      ensures r.Success? <==>
        && processId in processes && MayView(Processes, principal, processes[processId].resource)
        && processes[processId].isDeployed && identifier !in old(jobs)
      ensures r.Success? ==>
        && r.value == JobRecord(r.value.job, Accepted, None, None, None, None, None)
        && jobs == old(jobs)[identifier := r.value] && created == old(created) + [identifier]
        && MayViewJob(principal, r.value.job)
      ensures r.Success? ==>
        var process := processes[processId].resource;
        match principal
        case Some(Person(user)) => r.value.job == Job(identifier, process, user, false)
        case Some(System(_)) => r.value.job == Job(identifier, process, process.owner, false)
        case None => r.value.job == Job(identifier, process, process.owner, true)
      ensures old(AllSound(Stored())) ==> AllSound(Stored())
    {
      if processId !in processes {
        return Failure(NotFound);
      }
      var process := processes[processId];
      if !MayView(Processes, principal, process.resource) {
        return Failure(CannotCreate);
      }
      if !process.isDeployed {
        return Failure(CannotCreate);
      }
      var owner := process.resource.owner;
      if principal.Some? && principal.value.Person? {
        owner := principal.value.user;
      }
      if identifier in jobs {
        return Failure(CannotCreate);
      }
      var job := Job(identifier, process.resource, owner, principal.None?);
      var record := JobRecord(job, Accepted, None, None, None, None, None);
      jobs := jobs[identifier := record];
      created := created + [identifier];
      r := Success(record);
    }

    /**
     Update a job's status, optionally only from certain statuses; also says whether it was updated. No
     user may. Others act between the lookup and the UPDATE, and before the job is read back.
     */
    method SetJobStatus(principal: Principal, identifier: string, change: Change, from: Option<set<JobStatus>>,
                        before: seq<Call>, after: seq<Call>)
      returns (r: Result<JobRecord, Error>, updated: bool)
      modifies this`jobs, this`clock
      ensures Stored() == if principal.System? then StatusSet(old(Stored()), identifier, change, from, before, after)
                          else old(Stored())
      ensures r == if identifier in old(jobs) && principal.Person? then Failure(CannotUpdate)
                   else if identifier in jobs then Success(jobs[identifier])
                   else Failure(NotFound)
      ensures updated <==> principal.System? && TakesEffect(old(Stored()), identifier, from, before)
    {
      updated := false;
      if identifier !in jobs {
        return Failure(NotFound), false;
      }
      if principal.Person? {
        return Failure(CannotUpdate), false;
      }
      Await(before);
      if identifier in jobs && (from.Some? ==> jobs[identifier].status in from.value) {
        Update(identifier, change);
        updated := true;
      }
      Await(after);
      r := if identifier in jobs then Success(jobs[identifier]) else Failure(NotFound);
    }

    /** The UPDATE statement. */
    method Update(identifier: string, change: Change)
      requires identifier in jobs
      modifies this`jobs
      ensures Stored() == Updated(old(Stored()), identifier, change, None)
    {
      var job := jobs[identifier].(status := change.status);
      if change.status.Running? {
        job := job.(startedAt := OrElse(job.startedAt, Some(clock)));
      } else if IsFinal(change.status) {
        job := job.(finishedAt := Some(clock));
      }
      if change.message.Some? {
        job := job.(message := change.message);
      }
      if change.progress.Some? {
        job := job.(progress := Some(Clamp(change.progress.value)));
      }
      if change.exception.Some? {
        job := job.(exception := change.exception);
      }
      jobs := jobs[identifier := job];
    }

    /** An await: the others' calls take effect. */
    method Await(calls: seq<Call>)
      modifies this`jobs, this`clock
      ensures Stored() == AfterCalls(old(Stored()), calls)
    {
      var s := AfterCalls(Store(jobs, clock), calls);
      jobs, clock := s.jobs, s.clock;
    }

    method ExecuteJob(identifier: string, run: Run, m: Meanwhile) returns (r: Result<JobRecord, Error>)
      modifies this`jobs, this`clock
      ensures Stored() == Executed(old(Stored()), identifier, run, m)
      ensures r == if identifier in jobs then Success(jobs[identifier]) else Failure(NotFound)
    {
      var claim, claimed := SetJobStatus(EXECUTOR, identifier, CLAIM, Some({Accepted}), m.beforeClaim, m.afterClaim);
      if claim.Failure? || !claimed {
        return claim;
      }
      Await(m.running);
      var message, progress, exception := None, None, None;
      var outcome := Failed;
      match run {
        case Raises(type_, text) =>
          message := Some(if text != "" then text else type_);
          exception := Some(Exception(type_, "Job execution failed", if text != "" then Some(text) else None));
        case Returns =>
          outcome, progress := Successful, Some(100);
      }
      var finished;
      r, finished := SetJobStatus(EXECUTOR, identifier, Change(outcome, message, progress, exception), Some({Running}),
                                  m.beforeRecord, m.afterRecord);
    }

    /** The handler of a `created` event: execute the job and announce a change of its status. */
    method HandleJobCreated(identifier: string, run: Run, m: Meanwhile)
      modifies this`jobs, this`clock, this`statusChanged
      ensures Stored() == Handled(old(Stored()), identifier, run, m)
      ensures statusChanged == old(statusChanged) +
        if && identifier in old(jobs) && identifier in jobs
           && old(jobs)[identifier].status != jobs[identifier].status
        then [identifier] else []
      ensures forall p: State, w: nat ::
        w < |p.workers| && p.workers[w].Idle? && p.pending > 0 && p.job == old(Stored()).StatusOf(identifier) ==>
          IsRun(p, Stored().StatusOf(identifier), p.pending - 1, p.notified + (|statusChanged| - |old(statusChanged)|))
      ensures old(AllSound(Stored())) ==> AllSound(Stored()) && Continues(old(Stored()), Stored())
    {
      ghost var s := Stored();
      if identifier in jobs {
        var status := jobs[identifier].status;
        Await(m.atFirst);
        var executed := ExecuteJob(identifier, run, m);
        if executed.Success? && executed.value.status != status {
          statusChanged := statusChanged + [identifier];
        }
      }
      forall p: State, w: nat | w < |p.workers| && p.workers[w].Idle? && p.pending > 0
                                && p.job == s.StatusOf(identifier)
        ensures IsRun(p, Stored().StatusOf(identifier), p.pending - 1,
                      p.notified + Notifications(s, Stored(), identifier))
      {
        HandlingIsARun(p, w, s, identifier, run, m);
      }
      if AllSound(s) {
        HandlingKeeps(s, identifier, run, m);
      }
    }
  }
}
