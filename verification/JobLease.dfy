/**
 The job-execution lease protocol (internal/service/taskworker.go, driven by
 internal/service/taskworker_adapter.go).

 There is one row per job.  Every worker is one ExecuteJob request with an owner
 id of its own; each SQL statement it issues is one atomic step, and the steps of
 different workers interleave in any order.  Clock readings are arguments of the
 steps and need not agree between workers.  A statement may be refused without
 effect, or take effect although the worker sees an error, and a worker may crash
 at any point.
 */
module JobLease {
  import opened Wrappers

  type JobId = string
  type Owner = string
  type Payload = string
  type Time = int

  datatype Status = Running | Succeeded | Failed | Cancelled

  datatype Execution = Execution(status: Status, owner: Owner, leaseUntil: Option<Time>, attempt: int, result: Option<Payload>)

  datatype Reply =
    | AlreadyRunning(retryAfter: Time)
    | ReplaySucceeded(stored: Option<Payload>)
    | ReplayCancelled
    | StartFailed
    | OwnSuccess(result: Payload)
    | OwnFailure
    | OwnCancelled

  /** Where a request stands between two statements. */
  datatype Phase =
    | Starting
    | Reading
    | Deciding(now: Time, seen: Execution)
    | Executing
    | Rejected(reply: Reply)
    | Finished(reply: Reply)
    | Crashed

  datatype Worker = Worker(job: JobId, attempt: int, phase: Phase)

  datatype State = State(rows: map<JobId, Execution>, workers: map<Owner, Worker>)

  /** How the database answers a writing statement. */
  datatype Answer = Accepted | Refused | Unseen

  /** What the target method did; a success carries the reply value and its sanitised form. */
  datatype Outcome = Success(raw: Payload, sanitised: Payload) | Failure | Cancellation

  datatype Step =
    | Spawn(owner: Owner, job: JobId, attempt: int)
    | Create(owner: Owner, leaseUntil: Time, answer: Answer)
    | Read(owner: Owner, now: Time, answer: Answer)
    | TakeOver(owner: Owner, answer: Answer)
    | Heartbeat(owner: Owner, now: Time, answer: Answer)
    | Finalize(owner: Owner, outcome: Outcome, answer: Answer)
    | Crash(owner: Owner)

  datatype Config = Config(leaseDurationMs: int, alreadyRunningRetryMaxMs: int)

  function LeaseDuration(cfg: Config): Time {
    if cfg.leaseDurationMs <= 0 then 60000 else cfg.leaseDurationMs
  }

  function RetryAfter(cfg: Config, leaseUntil: Time, now: Time): Time {
    var max := if cfg.alreadyRunningRetryMaxMs <= 0 then 60000 else cfg.alreadyRunningRetryMaxMs;
    if leaseUntil - now > max then max else leaseUntil - now
  }

  // ---------------------------------------------------------------- one step

  /** The WHERE clause of the takeover update; a NULL lease never compares as expired. */
  predicate TakeOverMatches(row: Execution, now: Time) {
    row.status == Failed || (row.status == Running && row.leaseUntil.Some? && row.leaseUntil.value <= now)
  }

  function Taken(cfg: Config, row: Execution, owner: Owner, attempt: int, now: Time): Execution {
    row.(status := Running, owner := owner, attempt := attempt, leaseUntil := Some(now + LeaseDuration(cfg)))
  }

  function Finalized(row: Execution, outcome: Outcome): Execution {
    match outcome
    case Success(_, sanitised) => row.(status := Succeeded, result := Some(sanitised), leaseUntil := None)
    case Failure => row.(status := Failed, leaseUntil := None)
    case Cancellation => row.(status := Cancelled, leaseUntil := None)
  }

  function OwnReply(outcome: Outcome): Reply {
    match outcome
    case Success(raw, _) => OwnSuccess(raw)
    case Failure => OwnFailure
    case Cancellation => OwnCancelled
  }

  function Move(s: State, owner: Owner, phase: Phase): State
    requires owner in s.workers
  {
    s.(workers := s.workers[owner := s.workers[owner].(phase := phase)])
  }

  function PhaseOf(s: State, owner: Owner): Phase {
    if owner in s.workers then s.workers[owner].phase else Crashed
  }

  /** Reading the existing row: answer at once, or go on to the conditional update. */
  function AfterRead(cfg: Config, row: Execution, now: Time): Phase {
    match row.status
    case Succeeded => Rejected(ReplaySucceeded(row.result))
    case Cancelled => Rejected(ReplayCancelled)
    case Running =>
      if row.leaseUntil.Some? && row.leaseUntil.value > now then
        Rejected(AlreadyRunning(RetryAfter(cfg, row.leaseUntil.value, now)))
      else Deciding(now, row)
    case Failed => Deciding(now, row)
  }

  /** One atomic step; a step that its worker cannot take changes nothing. */
  function Next(cfg: Config, s: State, step: Step): State {
    var o := step.owner;
    if step.Spawn? then
      if o in s.workers then s else s.(workers := s.workers[o := Worker(step.job, step.attempt, Starting)])
    else if o !in s.workers then s
    else
      var w := s.workers[o];
      match step
      case Spawn(_, _, _) => s
      case Create(_, leaseUntil, answer) =>
        if !w.phase.Starting? then s
        else if answer.Refused? then Move(s, o, Rejected(StartFailed))
        else if w.job in s.rows then Move(s, o, Reading)
        else
          Move(s.(rows := s.rows[w.job := Execution(Running, o, Some(leaseUntil), w.attempt, None)]), o,
               if answer.Accepted? then Executing else Rejected(StartFailed))
      case Read(_, now, answer) =>
        if !w.phase.Reading? then s
        else if !answer.Accepted? || w.job !in s.rows then Move(s, o, Rejected(StartFailed))
        else Move(s, o, AfterRead(cfg, s.rows[w.job], now))
      case TakeOver(_, answer) =>
        if !w.phase.Deciding? then s
        else if answer.Refused? then Move(s, o, Rejected(StartFailed))
        else if w.job !in s.rows || !TakeOverMatches(s.rows[w.job], w.phase.now) then
          Move(s, o, if answer.Accepted? then Reading else Rejected(StartFailed))
        else
          Move(s.(rows := s.rows[w.job := Taken(cfg, s.rows[w.job], o, w.attempt, w.phase.now)]), o,
               if answer.Accepted? then Executing else Rejected(StartFailed))
      case Heartbeat(_, now, answer) =>
        if !(w.phase.Executing? || w.phase.Finished?) || answer.Refused? then s
        else if w.job in s.rows && s.rows[w.job].owner == o && s.rows[w.job].status == Running then
          s.(rows := s.rows[w.job := s.rows[w.job].(leaseUntil := Some(now + LeaseDuration(cfg)))])
        else s
      case Finalize(_, outcome, answer) =>
        if !w.phase.Executing? then s
        else if FinalizeHits(s, step) then
          Move(s.(rows := s.rows[w.job := Finalized(s.rows[w.job], outcome)]), o, Finished(OwnReply(outcome)))
        else Move(s, o, Finished(OwnReply(outcome)))
      case Crash(_) => Move(s, o, Crashed)
  }

  /** The finalise update affects a row: the worker still owns it and the statement is not refused. */
  predicate FinalizeHits(s: State, step: Step) {
    && step.Finalize? && step.owner in s.workers
    && var w := s.workers[step.owner];
       w.phase.Executing? && !step.answer.Refused? && w.job in s.rows && s.rows[w.job].owner == step.owner
  }

  function Run(cfg: Config, s: State, steps: seq<Step>): State
    decreases |steps|
  {
    if steps == [] then s else Run(cfg, Next(cfg, s, steps[0]), steps[1..])
  }

  const EMPTY := State(map[], map[])

  // ---------------------------------------------------------------- invariant

  predicate Settled(status: Status) {
    status == Succeeded || status == Cancelled
  }

  /** What every reachable state satisfies, row by row and worker by worker. */
  ghost predicate RowOk(s: State, job: JobId)
    requires job in s.rows
  {
    var row := s.rows[job];
    && row.owner in s.workers && s.workers[row.owner].job == job
    && (row.status == Running <==> row.leaseUntil.Some?)
    && (row.status == Succeeded ==> row.result.Some?)
    && (row.status == Running ==>
          var p := s.workers[row.owner].phase; p.Executing? || p.Crashed? || p.Finished? || p == Rejected(StartFailed))
    && (row.status != Running ==>
          var p := s.workers[row.owner].phase; p.Finished? || p.Crashed?)
  }

  ghost predicate WorkerOk(s: State, owner: Owner)
    requires owner in s.workers
  {
    var w := s.workers[owner];
    && (w.phase.Reading? || w.phase.Deciding? || w.phase.Executing? ==> w.job in s.rows)
    && (w.phase.Deciding? ==> TakeOverMatches(w.phase.seen, w.phase.now))
    && (w.phase.Rejected? && w.phase.reply.ReplaySucceeded? ==>
          w.job in s.rows && s.rows[w.job].status == Succeeded && s.rows[w.job].result == w.phase.reply.stored)
    && (w.phase == Rejected(ReplayCancelled) ==>
          w.job in s.rows && s.rows[w.job].status == Cancelled)
  }

  ghost predicate Inv(s: State) {
    && (forall job | job in s.rows :: RowOk(s, job))
    && (forall owner | owner in s.workers :: WorkerOk(s, owner))
  }

  /** A step of a worker of another job, or of no worker yet, leaves the row and its owner alone. */
  lemma NextKeepsOtherRow(cfg: Config, s: State, step: Step, job: JobId)
    requires job in s.rows && RowOk(s, job)
    requires step.owner !in s.workers || s.workers[step.owner].job != job
    ensures job in Next(cfg, s, step).rows && RowOk(Next(cfg, s, step), job)
  {
  }

  lemma NextKeepsRow(cfg: Config, s: State, step: Step, job: JobId)
    requires Inv(s) && job in Next(cfg, s, step).rows
    ensures RowOk(Next(cfg, s, step), job)
  {
    if job in s.rows && (step.owner !in s.workers || s.workers[step.owner].job != job) {
      assert RowOk(s, job);
      NextKeepsOtherRow(cfg, s, step, job);
    } else {
      if job in s.rows {
        assert RowOk(s, job);
      }
      assert step.owner in s.workers && WorkerOk(s, step.owner);
    }
  }

  lemma NextKeepsOwnWorker(cfg: Config, s: State, step: Step)
    requires Inv(s) && step.owner in Next(cfg, s, step).workers
    ensures WorkerOk(Next(cfg, s, step), step.owner)
  {
    if step.owner in s.workers {
      assert WorkerOk(s, step.owner);
      if s.workers[step.owner].job in s.rows {
        assert RowOk(s, s.workers[step.owner].job);
      }
    }
  }

  lemma NextKeepsOtherWorker(cfg: Config, s: State, step: Step, owner: Owner)
    requires Inv(s) && owner in Next(cfg, s, step).workers && owner != step.owner
    ensures WorkerOk(Next(cfg, s, step), owner)
  {
    assert owner in s.workers && WorkerOk(s, owner);
    if step.owner in s.workers {
      assert WorkerOk(s, step.owner);
    }
  }

  lemma OthersLeaveWorker(cfg: Config, s: State, step: Step, owner: Owner)
    requires owner in s.workers && step.owner != owner
    ensures owner in Next(cfg, s, step).workers && Next(cfg, s, step).workers[owner] == s.workers[owner]
  {
  }

  lemma NextKeepsInv(cfg: Config, s: State, step: Step)
    requires Inv(s)
    ensures Inv(Next(cfg, s, step))
  {
    forall job | job in Next(cfg, s, step).rows
      ensures RowOk(Next(cfg, s, step), job)
    {
      NextKeepsRow(cfg, s, step, job);
    }
    forall owner | owner in Next(cfg, s, step).workers
      ensures WorkerOk(Next(cfg, s, step), owner)
    {
      if owner == step.owner {
        NextKeepsOwnWorker(cfg, s, step);
      } else {
        NextKeepsOtherWorker(cfg, s, step, owner);
      }
    }
  }

  lemma {:induction false} RunKeepsInv(cfg: Config, s: State, steps: seq<Step>)
    requires Inv(s)
    ensures Inv(Run(cfg, s, steps))
    decreases |steps|
  {
    if steps != [] {
      NextKeepsInv(cfg, s, steps[0]);
      RunKeepsInv(cfg, Next(cfg, s, steps[0]), steps[1..]);
    }
  }

  // ---------------------------------------------------------------- who may change a row

  /** A job may be started over a row that has failed, or that is running on a lease that is over. */
  predicate Startable(row: Execution, now: Time) {
    || row.status == Failed
    || (row.status == Running && row.leaseUntil.Some? && row.leaseUntil.value <= now)
  }

  /**
   Every change of an existing row is one of three: its owner prolongs the lease of
   a running row, another worker takes over a row that has failed or whose lease was
   over when that worker read the clock, or the owner finishes a running row.
   */
  lemma RowChangesAreLegal(cfg: Config, s: State, step: Step, job: JobId)
    requires Inv(s) && job in s.rows
    ensures job in Next(cfg, s, step).rows
    ensures var before := s.rows[job];
            var after := Next(cfg, s, step).rows[job];
            || after == before
            || (step.Heartbeat? && before.owner == step.owner && before.status == Running
                && after == before.(leaseUntil := Some(step.now + LeaseDuration(cfg))))
            || (step.TakeOver? && step.owner in s.workers && before.owner != step.owner
                && var w := s.workers[step.owner];
                   && w.phase.Deciding? && Startable(before, w.phase.now)
                   && after == Execution(Running, step.owner, Some(w.phase.now + LeaseDuration(cfg)), w.attempt,
                                         before.result))
            || (FinalizeHits(s, step) && before.owner == step.owner && before.status == Running
                && after == Finalized(before, step.outcome))
  {
    assert RowOk(s, job);
    if step.owner in s.workers {
      assert WorkerOk(s, step.owner);
    }
  }

  /** A succeeded or cancelled row never changes again. */
  lemma {:induction false} SettledRowIsFinal(cfg: Config, s: State, steps: seq<Step>, job: JobId)
    requires Inv(s) && job in s.rows && Settled(s.rows[job].status)
    ensures job in Run(cfg, s, steps).rows && Run(cfg, s, steps).rows[job] == s.rows[job]
    decreases |steps|
  {
    if steps != [] {
      RowChangesAreLegal(cfg, s, steps[0], job);
      assert RowOk(s, job);
      NextKeepsInv(cfg, s, steps[0]);
      SettledRowIsFinal(cfg, Next(cfg, s, steps[0]), steps[1..], job);
    }
  }

  // ---------------------------------------------------------------- one finish per job

  /** The step is a finalise for this job that affects the row and succeeds or cancels. */
  predicate Finishes(s: State, step: Step, job: JobId) {
    FinalizeHits(s, step) && s.workers[step.owner].job == job && !step.outcome.Failure?
  }

  function CountFinishes(cfg: Config, s: State, steps: seq<Step>, job: JobId): nat
    decreases |steps|
  {
    if steps == [] then 0
    else (if Finishes(s, steps[0], job) then 1 else 0) + CountFinishes(cfg, Next(cfg, s, steps[0]), steps[1..], job)
  }

  /**
   At most one finalise that succeeds or cancels ever takes effect for a job, and it
   has happened exactly when the row is settled.
   */
  lemma {:induction false} AtMostOneFinish(cfg: Config, s: State, steps: seq<Step>, job: JobId)
    requires Inv(s)
    ensures var settled := (t: State) => job in t.rows && Settled(t.rows[job].status);
            (if settled(s) then 1 else 0) + CountFinishes(cfg, s, steps, job)
            == (if settled(Run(cfg, s, steps)) then 1 else 0)
    decreases |steps|
  {
    if steps != [] {
      NextKeepsInv(cfg, s, steps[0]);
      AtMostOneFinish(cfg, Next(cfg, s, steps[0]), steps[1..], job);
      if job in s.rows {
        RowChangesAreLegal(cfg, s, steps[0], job);
        assert RowOk(s, job);
      }
    }
  }

  // ---------------------------------------------------------------- lost leases

  /** The worker has passed its start and does not own the row. */
  predicate Dispossessed(s: State, owner: Owner) {
    && owner in s.workers
    && var w := s.workers[owner];
       !(w.phase.Starting? || w.phase.Reading? || w.phase.Deciding?) && (w.job in s.rows ==> s.rows[w.job].owner != owner)
  }

  /** No step of this worker in the run changes any row. */
  predicate Powerless(cfg: Config, s: State, steps: seq<Step>, owner: Owner)
    decreases |steps|
  {
    steps != [] ==>
    && (steps[0].owner == owner ==> Next(cfg, s, steps[0]).rows == s.rows)
    && Powerless(cfg, Next(cfg, s, steps[0]), steps[1..], owner)
  }

  lemma StaysDispossessed(cfg: Config, s: State, step: Step, owner: Owner)
    requires Inv(s) && Dispossessed(s, owner)
    ensures Dispossessed(Next(cfg, s, step), owner)
    ensures step.owner == owner ==> Next(cfg, s, step).rows == s.rows
  {
    if s.workers[owner].job in s.rows {
      RowChangesAreLegal(cfg, s, step, s.workers[owner].job);
    }
    if step.owner in s.workers {
      assert WorkerOk(s, step.owner);
    }
  }

  /** Once another worker holds the row, nothing this worker still does, its finalise included, changes a row. */
  lemma {:induction false} LostLeaseIsPowerless(cfg: Config, s: State, steps: seq<Step>, owner: Owner)
    requires Inv(s) && Dispossessed(s, owner)
    ensures Powerless(cfg, s, steps, owner)
    decreases |steps|
  {
    if steps != [] {
      NextKeepsInv(cfg, s, steps[0]);
      StaysDispossessed(cfg, s, steps[0], owner);
      LostLeaseIsPowerless(cfg, Next(cfg, s, steps[0]), steps[1..], owner);
    }
  }

  // ---------------------------------------------------------------- replies

  /** A replayed SUCCEEDED reply carries the one stored result, at the reply and for ever after. */
  lemma ReplayCarriesStoredResult(cfg: Config, steps: seq<Step>, later: seq<Step>, owner: Owner)
    requires var s := Run(cfg, EMPTY, steps);
             owner in s.workers && s.workers[owner].phase.Rejected? && s.workers[owner].phase.reply.ReplaySucceeded?
    ensures var s := Run(cfg, EMPTY, steps);
            var t := Run(cfg, s, later);
            var w := s.workers[owner];
            && w.job in t.rows
            && t.rows[w.job].status == Succeeded
            && t.rows[w.job].result == w.phase.reply.stored
            && w.phase.reply.stored.Some?
  {
    RunKeepsInv(cfg, EMPTY, steps);
    var s := Run(cfg, EMPTY, steps);
    assert WorkerOk(s, owner);
    assert RowOk(s, s.workers[owner].job);
    SettledRowIsFinal(cfg, s, later, s.workers[owner].job);
  }

  /**
   A worker's own SUCCEEDED reply is backed by the row exactly when it still owns
   the row and the update is not refused; the reply itself does not depend on that.
   */
  lemma OwnSuccessIsBackedIffStillOwner(cfg: Config, s: State, owner: Owner, raw: Payload, sanitised: Payload,
          answer: Answer)
    requires Inv(s) && owner in s.workers && s.workers[owner].phase.Executing?
    ensures var t := Next(cfg, s, Finalize(owner, Success(raw, sanitised), answer));
            var job := s.workers[owner].job;
            && t.workers[owner].phase == Finished(OwnSuccess(raw))
            && job in t.rows
            && (t.rows[job].owner == owner && t.rows[job].status == Succeeded && t.rows[job].result == Some(sanitised)
                <==> s.rows[job].owner == owner && !answer.Refused?)
  {
    assert WorkerOk(s, owner);
    assert RowOk(s, s.workers[owner].job);
  }

  const SLOW := "slow"
  const QUICK := "quick"

  /** Two requests for one job: the first outlives its lease, is taken over, and then reports success. */
  const OVERTAKEN: seq<Step> :=
    [Spawn(SLOW, "job", 1), Create(SLOW, 60000, Accepted),
     Spawn(QUICK, "job", 2), Create(QUICK, 120000, Accepted), Read(QUICK, 60000, Accepted), TakeOver(QUICK, Accepted),
     Finalize(SLOW, Success("a", "a"), Accepted)]

  /** So a SUCCEEDED reply does not mean that the row has succeeded. */
  lemma SuccessReplyMayBeUnbacked()
    ensures var s := Run(Config(0, 0), EMPTY, OVERTAKEN);
            && SLOW in s.workers && s.workers[SLOW].phase == Finished(OwnSuccess("a"))
            && "job" in s.rows && s.rows["job"].status == Running && s.rows["job"].owner == QUICK
  {
    var cfg := Config(0, 0);
    var s1 := Next(cfg, EMPTY, OVERTAKEN[0]);
    var s2 := Next(cfg, s1, OVERTAKEN[1]);
    var s3 := Next(cfg, s2, OVERTAKEN[2]);
    var s4 := Next(cfg, s3, OVERTAKEN[3]);
    var s5 := Next(cfg, s4, OVERTAKEN[4]);
    var s6 := Next(cfg, s5, OVERTAKEN[5]);
    var s7 := Next(cfg, s6, OVERTAKEN[6]);
    assert OVERTAKEN[7..] == [];
    assert Run(cfg, s7, OVERTAKEN[7..]) == s7;
    assert OVERTAKEN[6..][1..] == OVERTAKEN[7..];
    assert Run(cfg, s6, OVERTAKEN[6..]) == s7;
    assert OVERTAKEN[5..][1..] == OVERTAKEN[6..];
    assert Run(cfg, s5, OVERTAKEN[5..]) == s7;
    assert OVERTAKEN[4..][1..] == OVERTAKEN[5..];
    assert Run(cfg, s4, OVERTAKEN[4..]) == s7;
    assert OVERTAKEN[3..][1..] == OVERTAKEN[4..];
    assert Run(cfg, s3, OVERTAKEN[3..]) == s7;
    assert OVERTAKEN[2..][1..] == OVERTAKEN[3..];
    assert Run(cfg, s2, OVERTAKEN[2..]) == s7;
    assert OVERTAKEN[1..][1..] == OVERTAKEN[2..];
    assert Run(cfg, s1, OVERTAKEN[1..]) == s7;
  }

  // ---------------------------------------------------------------- the recursion of handleExisting

  /** The worker decided on a row that has changed since. */
  predicate Stale(s: State, owner: Owner) {
    && owner in s.workers && s.workers[owner].phase.Deciding?
    && (s.workers[owner].job in s.rows ==> s.rows[s.workers[owner].job] != s.workers[owner].phase.seen)
  }

  /** The takeover update affects no row, and the worker starts over. */
  predicate Misses(cfg: Config, s: State, step: Step, owner: Owner) {
    step.TakeOver? && step.owner == owner && PhaseOf(s, owner).Deciding? && PhaseOf(Next(cfg, s, step), owner).Reading?
  }

  function CountMisses(cfg: Config, s: State, steps: seq<Step>, owner: Owner): nat
    decreases |steps|
  {
    if steps == [] then 0
    else (if Misses(cfg, s, steps[0], owner) then 1 else 0) + CountMisses(cfg, Next(cfg, s, steps[0]), steps[1..], owner)
  }

  function CountWrites(cfg: Config, s: State, steps: seq<Step>, job: JobId): nat
    decreases |steps|
  {
    if steps == [] then 0
    else
      var t := Next(cfg, s, steps[0]);
      (if job in s.rows && t.rows[job] != s.rows[job] then 1 else 0) + CountWrites(cfg, t, steps[1..], job)
  }

  /** A miss uses up staleness, and only a write of the row creates it. */
  lemma MissNeedsWrite(cfg: Config, s: State, step: Step, owner: Owner)
    requires Inv(s) && owner in s.workers
    ensures var t := Next(cfg, s, step);
            var job := s.workers[owner].job;
            && owner in t.workers && t.workers[owner].job == job
            && (Misses(cfg, s, step, owner) ==> Stale(s, owner) && !Stale(t, owner))
            && (Stale(t, owner) ==> Stale(s, owner) || (job in s.rows && t.rows[job] != s.rows[job]))
  {
    assert WorkerOk(s, owner);
    if s.workers[owner].job in s.rows {
      RowChangesAreLegal(cfg, s, step, s.workers[owner].job);
    }
  }

  /**
   The takeover misses only if another step changed the row since it was read, so a
   request starts over at most as often as its row is written.
   */
  lemma {:induction false} RetriesBoundedByWrites(cfg: Config, s: State, steps: seq<Step>, owner: Owner)
    requires Inv(s) && owner in s.workers
    ensures CountMisses(cfg, s, steps, owner)
              <= CountWrites(cfg, s, steps, s.workers[owner].job) + (if Stale(s, owner) then 1 else 0)
    decreases |steps|
  {
    if steps != [] {
      MissNeedsWrite(cfg, s, steps[0], owner);
      NextKeepsInv(cfg, s, steps[0]);
      RetriesBoundedByWrites(cfg, Next(cfg, s, steps[0]), steps[1..], owner);
    }
  }

  /**
   For a row that reads as running, one round of read and update comes back to where
   it was exactly when the row has no lease: the case that the invariant rules out
   and that would otherwise recurse for ever.
   */
  lemma RoundTripsIffNoLease(cfg: Config, s: State, owner: Owner, now: Time)
    requires owner in s.workers && s.workers[owner].phase == Reading
    requires s.workers[owner].job in s.rows && s.rows[s.workers[owner].job].status == Running
    ensures Run(cfg, s, [Read(owner, now, Accepted), TakeOver(owner, Accepted)]) == s
            <==> s.rows[s.workers[owner].job].leaseUntil.None?
  {
    var steps := [Read(owner, now, Accepted), TakeOver(owner, Accepted)];
    var s1 := Next(cfg, s, steps[0]);
    var s2 := Next(cfg, s1, steps[1]);
    assert steps[1..] == [steps[1]];
    assert steps[1..][1..] == [];
    assert Run(cfg, s1, steps[1..]) == s2;
    if s.rows[s.workers[owner].job].leaseUntil.None? {
      assert s2.workers == s.workers;
    } else {
      assert !PhaseOf(s2, owner).Reading?;
    }
  }

  // ---------------------------------------------------------------- what a request comes to

  /** The number a request that is turned away is told to wait: the rest of the lease, or the cap if that is less. */
  predicate WaitIs(cfg: Config, wait: Time, leaseUntil: Time, now: Time) {
    var cap := if cfg.alreadyRunningRetryMaxMs > 0 then cfg.alreadyRunningRetryMaxMs else 60000;
    wait <= leaseUntil - now && wait <= cap && (wait == leaseUntil - now || wait == cap)
  }

  /** What a request is told that finds this row; nothing if it is to run the job. */
  predicate ReplyFits(cfg: Config, row: Execution, now: Time, reply: Option<Reply>) {
    && (reply.None? <==> Startable(row, now))
    && (row.status == Succeeded ==> reply == Some(ReplaySucceeded(row.result)))
    && (row.status == Cancelled ==> reply == Some(ReplayCancelled))
    && (row.status == Running && row.leaseUntil.Some? && now < row.leaseUntil.value ==>
          reply.Some? && reply.value.AlreadyRunning? && WaitIs(cfg, reply.value.retryAfter, row.leaseUntil.value, now))
  }

  lemma TwoSteps(cfg: Config, s: State, a: Step, b: Step)
    ensures Run(cfg, s, [a, b]) == Next(cfg, Next(cfg, s, a), b)
  {
    var t := Next(cfg, s, a);
    assert [a, b][1..] == [b] && [b][1..] == [];
    assert Run(cfg, t, [b]) == Run(cfg, Next(cfg, t, b), []);
  }

  lemma StartableIsTaken(cfg: Config, s: State, owner: Owner, now: Time)
    requires owner in s.workers && s.workers[owner].phase == Reading && s.workers[owner].job in s.rows
    requires Startable(s.rows[s.workers[owner].job], now)
    ensures var w := s.workers[owner];
            var lease := if cfg.leaseDurationMs > 0 then cfg.leaseDurationMs else 60000;
            Next(cfg, Next(cfg, s, Read(owner, now, Accepted)), TakeOver(owner, Accepted))
              == State(s.rows[w.job := Execution(Running, owner, Some(now + lease), w.attempt, s.rows[w.job].result)],
                       s.workers[owner := w.(phase := Executing)])
  {
    var w := s.workers[owner];
    var row := s.rows[w.job];
    assert Next(cfg, s, Read(owner, now, Accepted)) == Move(s, owner, Deciding(now, row));
    assert Move(Move(s, owner, Deciding(now, row)), owner, Executing) == Move(s, owner, Executing);
  }

  lemma UnstartableIsTold(cfg: Config, s: State, owner: Owner, now: Time)
    requires owner in s.workers && s.workers[owner].phase == Reading
    requires s.workers[owner].job in s.rows && RowOk(s, s.workers[owner].job)
    requires !Startable(s.rows[s.workers[owner].job], now)
    ensures var t := Next(cfg, s, Read(owner, now, Accepted));
            && t.rows == s.rows && owner in t.workers && t.workers[owner].phase.Rejected?
            && ReplyFits(cfg, s.rows[s.workers[owner].job], now, Some(t.workers[owner].phase.reply))
            && Next(cfg, t, TakeOver(owner, Accepted)) == t
  {
  }

  /**
   A request that nobody disturbs starts the job exactly over a failed row or an expired
   lease, and is otherwise told what the row says.
   */
  lemma UndisturbedRequest(cfg: Config, s: State, owner: Owner, now: Time)
    requires Inv(s) && owner in s.workers && s.workers[owner].phase == Reading
    ensures var t := Run(cfg, s, [Read(owner, now, Accepted), TakeOver(owner, Accepted)]);
            var w := s.workers[owner];
            && w.job in s.rows && w.job in t.rows && owner in t.workers
            && var row := s.rows[w.job];
               if Startable(row, now) then
                 var lease := if cfg.leaseDurationMs > 0 then cfg.leaseDurationMs else 60000;
                 && t.workers[owner].phase == Executing
                 && t.rows == s.rows[w.job := Execution(Running, owner, Some(now + lease), w.attempt, row.result)]
               else
                 && t.rows == s.rows && t.workers[owner].phase.Rejected?
                 && ReplyFits(cfg, row, now, Some(t.workers[owner].phase.reply))
  {
    assert WorkerOk(s, owner) && RowOk(s, s.workers[owner].job);
    TwoSteps(cfg, s, Read(owner, now, Accepted), TakeOver(owner, Accepted));
    if Startable(s.rows[s.workers[owner].job], now) {
      StartableIsTaken(cfg, s, owner, now);
    } else {
      UnstartableIsTold(cfg, s, owner, now);
    }
  }

  /** The first request for a job creates its row and runs it. */
  lemma FirstRequestStarts(cfg: Config, s: State, owner: Owner, job: JobId, attempt: int, leaseUntil: Time)
    requires owner !in s.workers && job !in s.rows
    ensures var t := Run(cfg, s, [Spawn(owner, job, attempt), Create(owner, leaseUntil, Accepted)]);
            && t.rows == s.rows[job := Execution(Running, owner, Some(leaseUntil), attempt, None)]
            && t.workers == s.workers[owner := Worker(job, attempt, Executing)]
  {
    TwoSteps(cfg, s, Spawn(owner, job, attempt), Create(owner, leaseUntil, Accepted));
  }

  /** Every later one goes on to read the row. */
  lemma LaterRequestReads(cfg: Config, s: State, owner: Owner, job: JobId, attempt: int, leaseUntil: Time)
    requires owner !in s.workers && job in s.rows
    ensures Run(cfg, s, [Spawn(owner, job, attempt), Create(owner, leaseUntil, Accepted)])
         == s.(workers := s.workers[owner := Worker(job, attempt, Reading)])
  {
    TwoSteps(cfg, s, Spawn(owner, job, attempt), Create(owner, leaseUntil, Accepted));
  }

  /** A heartbeat that is carried out extends a running row of the worker's own, and nothing else. */
  lemma HeartbeatExtendsIffOwnAndRunning(cfg: Config, s: State, owner: Owner, now: Time, answer: Answer)
    requires owner in s.workers && s.workers[owner].phase.Executing? && s.workers[owner].job in s.rows
    ensures var job := s.workers[owner].job;
            var row := s.rows[job];
            var t := Next(cfg, s, Heartbeat(owner, now, answer));
            var lease := if cfg.leaseDurationMs > 0 then cfg.leaseDurationMs else 60000;
            && t.workers == s.workers
            && t.rows == if !answer.Refused? && row.owner == owner && row.status == Running
                         then s.rows[job := row.(leaseUntil := Some(now + lease))] else s.rows
  {
  }

  /** How a worker ends its own row, and what it replies: three outcomes, three statuses, three replies. */
  lemma FinalizeSettlesOwnRow(cfg: Config, s: State, owner: Owner, outcome: Outcome, answer: Answer)
    requires Inv(s) && owner in s.workers && s.workers[owner].phase.Executing?
    ensures var job := s.workers[owner].job;
            var t := Next(cfg, s, Finalize(owner, outcome, answer));
            && job in s.rows && owner in t.workers
            && var row := s.rows[job];
               match outcome
               case Success(raw, sanitised) =>
                 && t.workers[owner].phase == Finished(OwnSuccess(raw))
                 && (row.owner == owner && !answer.Refused? ==>
                       t.rows == s.rows[job := Execution(Succeeded, owner, None, row.attempt, Some(sanitised))])
               case Failure =>
                 && t.workers[owner].phase == Finished(OwnFailure)
                 && (row.owner == owner && !answer.Refused? ==>
                       t.rows == s.rows[job := Execution(Failed, owner, None, row.attempt, row.result)])
               case Cancellation =>
                 && t.workers[owner].phase == Finished(OwnCancelled)
                 && (row.owner == owner && !answer.Refused? ==>
                       t.rows == s.rows[job := Execution(Cancelled, owner, None, row.attempt, row.result)])
    ensures var job := s.workers[owner].job;
            job in s.rows && (s.rows[job].owner != owner || answer.Refused?) ==>
              Next(cfg, s, Finalize(owner, outcome, answer)).rows == s.rows
  {
    assert WorkerOk(s, owner);
  }

  /** A statement of a starting request that gets no answer, or a row that is missing, turns the request away. */
  lemma UnansweredRequestIsRejected(cfg: Config, s: State, step: Step)
    requires step.owner in s.workers
    requires var w := s.workers[step.owner];
             || (step.Create? && w.phase.Starting? && (step.answer.Refused? || (step.answer.Unseen? && w.job !in s.rows)))
             || (step.Read? && w.phase.Reading? && (!step.answer.Accepted? || w.job !in s.rows))
             || (step.TakeOver? && w.phase.Deciding? && !step.answer.Accepted?)
    ensures var t := Next(cfg, s, step);
            && step.owner in t.workers && t.workers[step.owner].phase == Rejected(StartFailed)
            && (step.answer.Refused? || step.Read? ==> t.rows == s.rows)
  {
  }

  /** A request whose row was taken by another after it was read changes nothing and reads the row again. */
  lemma OvertakenRequestReadsAgain(cfg: Config, s: State, owner: Owner)
    requires owner in s.workers && s.workers[owner].phase.Deciding? && s.workers[owner].job in s.rows
    requires !Startable(s.rows[s.workers[owner].job], s.workers[owner].phase.now)
    ensures Next(cfg, s, TakeOver(owner, Accepted))
         == s.(workers := s.workers[owner := s.workers[owner].(phase := Reading)])
  {
  }

  lemma {:induction false} RunConcat(cfg: Config, s: State, a: seq<Step>, b: seq<Step>)
    ensures Run(cfg, s, a + b) == Run(cfg, Run(cfg, s, a), b)
    decreases |a|
  {
    if a == [] {
      assert a + b == b;
    } else {
      assert (a + b)[0] == a[0] && (a + b)[1..] == a[1..] + b;
      RunConcat(cfg, Next(cfg, s, a[0]), a[1..], b);
    }
  }

  /** A request that finds the job's row, takes it over, and ends the job. */
  function SecondRun(owner: Owner, job: JobId, attempt: int, now: Time, outcome: Outcome): seq<Step> {
    [Spawn(owner, job, attempt), Create(owner, now, Accepted)]
    + ([Read(owner, now, Accepted), TakeOver(owner, Accepted)] + [Finalize(owner, outcome, Accepted)])
  }

  /** A failed job, or one whose worker has let its lease expire, is run again and can succeed. */
  lemma StartableJobIsRunAgain(cfg: Config, s: State, owner: Owner, job: JobId, attempt: int, now: Time, raw: Payload,
                               sanitised: Payload)
    requires Inv(s) && owner !in s.workers && job in s.rows && Startable(s.rows[job], now)
    ensures var t := Run(cfg, s, SecondRun(owner, job, attempt, now, Success(raw, sanitised)));
            && job in t.rows && owner in t.workers
            && t.rows[job] == Execution(Succeeded, owner, None, attempt, Some(sanitised))
            && t.workers[owner].phase == Finished(OwnSuccess(raw))
  {
    var enter := [Spawn(owner, job, attempt), Create(owner, now, Accepted)];
    var start := [Read(owner, now, Accepted), TakeOver(owner, Accepted)];
    var end := Finalize(owner, Success(raw, sanitised), Accepted);
    var s1 := Run(cfg, s, enter);
    LaterRequestReads(cfg, s, owner, job, attempt, now);
    RunKeepsInv(cfg, s, enter);
    var s2 := Run(cfg, s1, start);
    UndisturbedRequest(cfg, s1, owner, now);
    RunKeepsInv(cfg, s1, start);
    assert s2.workers[owner].job == job by {
      TwoSteps(cfg, s1, start[0], start[1]);
    }
    FinalizeSettlesOwnRow(cfg, s2, owner, end.outcome, Accepted);
    assert Run(cfg, s2, [end]) == Run(cfg, Next(cfg, s2, end), []);
    RunConcat(cfg, s, enter, start + [end]);
    RunConcat(cfg, s1, start, [end]);
  }

  // ---------------------------------------------------------------- the store

  /** One round of handleExisting: the clock reading, and what other workers do before the update is issued. */
  datatype Round = Round(now: Time, meanwhile: seq<Step>)

  class TaskExecutionStore {
    const cfg: Config
    var rows: map<JobId, Execution>
    var workers: map<Owner, Worker>

    ghost function View(): State
      reads this
    {
      State(rows, workers)
    }

    constructor (cfg: Config)
      ensures this.cfg == cfg && View() == EMPTY
    {
      this.cfg := cfg;
      rows, workers := map[], map[];
    }

    method SetPhase(owner: Owner, phase: Phase)
      requires owner in workers
      modifies this`workers
      ensures View() == Move(old(View()), owner, phase)
    {
      workers := workers[owner := workers[owner].(phase := phase)];
    }

    /** The INSERT of tryStart. */
    method Insert(owner: Owner, leaseUntil: Time, answer: Answer)
      requires owner in workers && workers[owner].phase.Starting?
      modifies this
      ensures View() == Next(cfg, old(View()), Create(owner, leaseUntil, answer))
    {
      var job := workers[owner].job;
      if answer.Refused? {
        SetPhase(owner, Rejected(StartFailed));
      } else if job in rows {
        SetPhase(owner, Reading);
      } else {
        rows := rows[job := Execution(Running, owner, Some(leaseUntil), workers[owner].attempt, None)];
        SetPhase(owner, if answer.Accepted? then Executing else Rejected(StartFailed));
      }
    }

    /** The SELECT of handleExisting. */
    method Select(owner: Owner, now: Time, answer: Answer)
      requires owner in workers && workers[owner].phase.Reading?
      modifies this
      ensures View() == Next(cfg, old(View()), Read(owner, now, answer))
    {
      var job := workers[owner].job;
      if !answer.Accepted? || job !in rows {
        SetPhase(owner, Rejected(StartFailed));
        return;
      }
      var existing := rows[job];
      if existing.status == Succeeded {
        SetPhase(owner, Rejected(ReplaySucceeded(existing.result)));
      } else if existing.status == Cancelled {
        SetPhase(owner, Rejected(ReplayCancelled));
      } else if existing.status == Running && existing.leaseUntil.Some? && existing.leaseUntil.value > now {
        SetPhase(owner, Rejected(AlreadyRunning(RetryAfter(cfg, existing.leaseUntil.value, now))));
      } else {
        SetPhase(owner, Deciding(now, existing));
      }
    }

    /** The conditional UPDATE of handleExisting. */
    method UpdateToTakeOver(owner: Owner, answer: Answer)
      requires owner in workers && workers[owner].phase.Deciding?
      modifies this
      ensures View() == Next(cfg, old(View()), TakeOver(owner, answer))
    {
      var w := workers[owner];
      if answer.Refused? {
        SetPhase(owner, Rejected(StartFailed));
        return;
      }
      var affected := 0;
      if w.job in rows && TakeOverMatches(rows[w.job], w.phase.now) {
        rows := rows[w.job := rows[w.job].(status := Running, owner := owner, attempt := w.attempt,
                                           leaseUntil := Some(w.phase.now + LeaseDuration(cfg)))];
        affected := 1;
      }
      if answer.Unseen? {
        SetPhase(owner, Rejected(StartFailed));
      } else if affected == 0 {
        SetPhase(owner, Reading);
      } else {
        SetPhase(owner, Executing);
      }
    }

    method Beat(owner: Owner, now: Time, answer: Answer) returns (leaseLost: bool)
      requires owner in workers && (workers[owner].phase.Executing? || workers[owner].phase.Finished?)
      modifies this`rows
      ensures View() == Next(cfg, old(View()), Heartbeat(owner, now, answer))
      ensures !leaseLost <==>
                && answer.Accepted? && workers[owner].job in old(rows)
                && old(rows)[workers[owner].job].owner == owner && old(rows)[workers[owner].job].status == Running
      ensures !leaseLost ==> workers[owner].job in rows && rows[workers[owner].job].owner == owner
                             && rows[workers[owner].job].leaseUntil == Some(now + LeaseDuration(cfg))
    {
      var job := workers[owner].job;
      leaseLost := !answer.Accepted?;
      if !answer.Refused? {
        if job in rows && rows[job].owner == owner && rows[job].status == Running {
          rows := rows[job := rows[job].(leaseUntil := Some(now + LeaseDuration(cfg)))];
        } else {
          leaseLost := true;
        }
      }
    }

    /** finalizeSuccess, finalizeFailure and finalizeCancelled: an UPDATE for this job and owner, errors ignored. */
    method FinalizeOwned(owner: Owner, outcome: Outcome, answer: Answer) returns (reply: Reply)
      requires owner in workers && workers[owner].phase.Executing?
      modifies this
      ensures View() == Next(cfg, old(View()), Finalize(owner, outcome, answer))
      ensures reply == OwnReply(outcome)
    {
      var job := workers[owner].job;
      if !answer.Refused? && job in rows && rows[job].owner == owner {
        match outcome {
          case Success(_, sanitised) =>
            rows := rows[job := rows[job].(status := Succeeded, result := Some(sanitised), leaseUntil := None)];
          case Failure =>
            rows := rows[job := rows[job].(status := Failed, leaseUntil := None)];
          case Cancellation =>
            rows := rows[job := rows[job].(status := Cancelled, leaseUntil := None)];
        }
      }
      reply := OwnReply(outcome);
      SetPhase(owner, Finished(reply));
    }

    /** Lets any one step happen. */
    method Perform(step: Step)
      modifies this
      ensures View() == Next(cfg, old(View()), step)
    {
      var o := step.owner;
      if step.Spawn? {
        if o !in workers {
          workers := workers[o := Worker(step.job, step.attempt, Starting)];
        }
      } else if o in workers {
        var phase := workers[o].phase;
        match step {
          case Create(_, leaseUntil, answer) => if phase.Starting? { Insert(o, leaseUntil, answer); }
          case Read(_, now, answer) => if phase.Reading? { Select(o, now, answer); }
          case TakeOver(_, answer) => if phase.Deciding? { UpdateToTakeOver(o, answer); }
          case Heartbeat(_, now, answer) => if phase.Executing? || phase.Finished? { var _ := Beat(o, now, answer); }
          case Finalize(_, outcome, answer) => if phase.Executing? { var _ := FinalizeOwned(o, outcome, answer); }
          case Crash(_) => SetPhase(o, Crashed);
          case Spawn(_, _, _) =>
        }
      }
    }

    /** A step of another worker. */
    method PerformOther(step: Step, ghost owner: Owner)
      requires Inv(View()) && owner in workers && step.owner != owner
      modifies this
      ensures View() == Next(cfg, old(View()), step)
      ensures Inv(View()) && owner in workers && workers[owner] == old(workers[owner])
    {
      NextKeepsInv(cfg, View(), step);
      OthersLeaveWorker(cfg, View(), step, owner);
      Perform(step);
    }

    /** Other workers run for a while. */
    method Interfere(steps: seq<Step>, ghost owner: Owner)
      requires Inv(View()) && owner in workers
      requires forall step <- steps :: step.owner != owner
      modifies this
      ensures View() == Run(cfg, old(View()), steps)
      ensures Inv(View()) && owner in workers && workers[owner] == old(workers[owner])
    {
      var i := 0;
      while i < |steps|
        invariant 0 <= i <= |steps|
        invariant Run(cfg, View(), steps[i..]) == Run(cfg, old(View()), steps)
        invariant Inv(View()) && owner in workers && workers[owner] == old(workers[owner])
      {
        assert steps[i..][0] == steps[i] && steps[i..][1..] == steps[i + 1..];
        PerformOther(steps[i], owner);
        i := i + 1;
      }
    }

    /**
     handleExisting: it calls itself again when its update
     affects no row.  It ends although nothing bounds the recursion in the code: a
     round without interference cannot miss, so the rounds in which other workers
     interfere are all that can repeat it.
     */
    method HandleExisting(owner: Owner, rounds: seq<Round>, quiet: Time) returns (reply: Option<Reply>, tries: nat)
      requires Inv(View()) && owner in workers && workers[owner].phase == Reading
      requires forall round <- rounds, step <- round.meanwhile :: step.owner != owner
      modifies this
      ensures Inv(View()) && owner in workers
      ensures workers[owner].job == old(workers[owner].job) && workers[owner].attempt == old(workers[owner].attempt)
      ensures reply.Some? ==> workers[owner].phase == Rejected(reply.value)
      ensures reply.None? ==>
                && workers[owner].phase == Executing
                && workers[owner].job in rows
                && var row := rows[workers[owner].job];
                   row.owner == owner && row.status == Running && row.attempt == workers[owner].attempt
      ensures 1 <= tries <= |rounds| + 1
      ensures rounds == [] ==>
                && workers[owner].job in old(rows)
                && ReplyFits(cfg, old(rows)[workers[owner].job], quiet, reply)
      decreases |rounds|
    {
      assert WorkerOk(View(), owner);
      assert RowOk(View(), workers[owner].job);
      var round := if rounds == [] then Round(quiet, []) else rounds[0];
      NextKeepsInv(cfg, View(), Read(owner, round.now, Accepted));
      Select(owner, round.now, Accepted);
      if workers[owner].phase.Rejected? {
        return Some(workers[owner].phase.reply), 1;
      }
      Interfere(round.meanwhile, owner);
      ghost var before := View();
      NextKeepsInv(cfg, before, TakeOver(owner, Accepted));
      UpdateToTakeOver(owner, Accepted);
      if workers[owner].phase == Executing {
        return None, 1;
      }
      MissNeedsWrite(cfg, before, TakeOver(owner, Accepted), owner);
      reply, tries := HandleExisting(owner, rounds[1..], quiet);
      tries := tries + 1;
    }
  }
}
