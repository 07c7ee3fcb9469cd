/**
 The timed provisioning lease (internal/provision/lease.go,
 internal/provision/minimal.go, over the locker of internal/state/lease/lease.go).

 Several processes compete for the one `system:init` lease row.  The clock is
 shared and only moves by `Wait` steps, which cannot pass a moment at which a renew
 loop has to act: ticks are on time, and a call to the locker takes at most
 `maxDelay`, takes effect once between its start and its return, and stamps the row
 with the time of its start.  A statement may fail without effect, or take effect
 although the caller sees an error.
 */
module ProvisionLease {
  import opened Wrappers

  type Pid = nat
  type Time = int

  datatype Config = Config(ttl: Time, interval: Time, maxDelay: Time)

  predicate Sensible(cfg: Config) {
    0 < cfg.ttl && 0 < cfg.interval && 0 <= cfg.maxDelay <= cfg.interval
  }

  datatype Lease = Lease(owner: Pid, expiresAt: Time)

  datatype Verdict = Renewed | NotOwner | Transient

  /** A Renew call: not issued, issued at `since`, or carried out with a verdict still to be returned. */
  datatype Renewal = Quiet | Calling(since: Time) | Answered(since: Time, effective: bool, verdict: Verdict)

  datatype Stage =
    | Acquiring(start: Time)
    | Acquired(start: Time)
    | Probing
    | Holding
    | Installing
    | Releasing
    | Finished
    | Dead

  /** `lost` says that the renew loop has signalled a failure, which also cancels the install. */
  datatype Process = Process(stage: Stage, cancelled: bool, lost: bool, lastOK: Time, nextTick: Time, renewal: Renewal)

  /** `installs` counts the calls that have reported a successful install. */
  datatype State = State(now: Time, lease: Option<Lease>, processes: map<Pid, Process>, provisioned: bool, installs: nat)

  datatype Answer = Accepted | Refused | Unseen

  datatype Step =
    | Wait(amount: Time)
    | Begin(pid: Pid)
    | AcquireTakesEffect(pid: Pid, answer: Answer)
    | StartLoop(pid: Pid)
    | Tick(pid: Pid)
    | RenewTakesEffect(pid: Pid, answer: Answer)
    | RenewReturns(pid: Pid)
    | Recheck(pid: Pid)
    | InstallEnds(pid: Pid, ok: bool)
    | Release(pid: Pid, answer: Answer)
    | Timeout(pid: Pid)
    | Crash(pid: Pid)

  // ---------------------------------------------------------------- one step

  /** The process is between its Acquire and its Release. */
  predicate Active(p: Process) {
    p.stage.Acquired? || LoopRuns(p)
  }

  predicate LoopRuns(p: Process) {
    p.stage.Probing? || p.stage.Holding? || p.stage.Installing?
  }

  /** The moment by which the process has to act, if there is one. */
  predicate MayWaitUntil(cfg: Config, p: Process, t: Time) {
    && (p.stage.Acquiring? || p.stage.Acquired? ==> t <= p.stage.start + cfg.maxDelay)
    && (LoopRuns(p) && !p.cancelled && p.renewal.Quiet? ==> t <= p.nextTick)
    && (LoopRuns(p) && !p.renewal.Quiet? ==> t <= p.renewal.since + cfg.maxDelay)
  }

  function Set(s: State, pid: Pid, p: Process): State {
    s.(processes := s.processes[pid := p])
  }

  /** A tick is on time; after a cancellation one that has become due may still be taken. */
  predicate MayTick(p: Process, now: Time) {
    LoopRuns(p) && !p.lost && p.renewal.Quiet? && (now == p.nextTick || (p.cancelled && p.nextTick < now))
  }

  /** Retry a transient failure only while the last success leaves a whole interval before expiry. */
  predicate MayRetry(cfg: Config, p: Process, now: Time) {
    !p.cancelled && cfg.ttl - cfg.interval > 0 && now - p.lastOK < cfg.ttl - cfg.interval
  }

  /** The locker grants a free, an expired, or an own row. */
  predicate MayAcquire(lease: Option<Lease>, pid: Pid, start: Time) {
    lease.None? || lease.value.expiresAt < start || lease.value.owner == pid
  }

  /** One atomic step; a step that cannot be taken changes nothing. */
  function Next(cfg: Config, s: State, step: Step): State {
    if step.Wait? then
      if step.amount >= 0 && forall q | q in s.processes :: MayWaitUntil(cfg, s.processes[q], s.now + step.amount)
      then s.(now := s.now + step.amount) else s
    else if step.Begin? then
      if step.pid in s.processes then s
      else Set(s, step.pid, Process(if s.provisioned then Finished else Acquiring(s.now), false, false, s.now, s.now, Quiet))
    else if step.pid !in s.processes then s
    else
      var pid := step.pid;
      var p := s.processes[pid];
      match step
      case Wait(_) => s
      case Begin(_) => s
      case AcquireTakesEffect(_, answer) =>
        if !p.stage.Acquiring? then s
        else if answer.Refused? || !MayAcquire(s.lease, pid, p.stage.start) then Set(s, pid, p.(stage := Finished))
        else
          Set(s.(lease := Some(Lease(pid, p.stage.start + cfg.ttl))), pid,
              p.(stage := if answer.Accepted? then Acquired(p.stage.start) else Finished))
      case StartLoop(_) =>
        if !p.stage.Acquired? then s
        else Set(s, pid, p.(stage := Probing, lastOK := s.now, nextTick := s.now + cfg.interval, renewal := Calling(s.now)))
      case Tick(_) =>
        if MayTick(p, s.now) then Set(s, pid, p.(nextTick := s.now + cfg.interval, renewal := Calling(s.now))) else s
      case RenewTakesEffect(_, answer) =>
        if !LoopRuns(p) || !p.renewal.Calling? then s
        else if answer.Refused? then Set(s, pid, p.(renewal := Answered(p.renewal.since, false, Transient)))
        else if s.lease.None? || s.lease.value.owner != pid then
          Set(s, pid, p.(renewal := Answered(p.renewal.since, false, if answer.Accepted? then NotOwner else Transient)))
        else
          Set(s.(lease := Some(Lease(pid, p.renewal.since + cfg.ttl))), pid,
              p.(renewal := Answered(p.renewal.since, true, if answer.Accepted? then Renewed else Transient)))
      case RenewReturns(_) =>
        if !LoopRuns(p) || !p.renewal.Answered? then s
        else
          var q := p.(renewal := Quiet, stage := if p.stage.Probing? then Holding else p.stage);
          if p.renewal.verdict.Renewed? then Set(s, pid, q.(lastOK := s.now))
          else if p.renewal.verdict.Transient? && MayRetry(cfg, p, s.now) then Set(s, pid, q)
          else Set(s, pid, q.(cancelled := true, lost := true, stage := if p.stage.Probing? then Releasing else q.stage))
      case Recheck(_) =>
        if !p.stage.Holding? then s
        else if s.provisioned then Set(s, pid, p.(stage := Releasing, renewal := Quiet))
        else Set(s, pid, p.(stage := Installing))
      case InstallEnds(_, ok) =>
        if !p.stage.Installing? then s
        else
          Set(s.(provisioned := s.provisioned || ok, installs := s.installs + if ok && !p.lost then 1 else 0),
              pid, p.(stage := Releasing, renewal := Quiet))
      case Release(_, answer) =>
        if !p.stage.Releasing? then s
        else if !answer.Refused? && s.lease.Some? && s.lease.value.owner == pid then
          Set(s.(lease := None), pid, p.(stage := Finished))
        else Set(s, pid, p.(stage := Finished))
      case Timeout(_) => Set(s, pid, p.(cancelled := true))
      case Crash(_) => Set(s, pid, p.(stage := Dead))
  }

  function Run(cfg: Config, s: State, steps: seq<Step>): State
    decreases |steps|
  {
    if steps == [] then s else Run(cfg, Next(cfg, s, steps[0]), steps[1..])
  }

  const INITIAL := State(0, None, map[], false, 0)

  // ---------------------------------------------------------------- invariant

  /** Strictly before, when the interval is shorter than the TTL; else not after. */
  predicate Before(cfg: Config, a: Time, b: Time) {
    if cfg.interval < cfg.ttl then a < b else a <= b
  }

  /** A lease this process was granted lasts at least until this time plus the TTL. */
  function Stamp(cfg: Config, p: Process): Time
    requires Active(p)
  {
    if p.stage.Acquired? then p.stage.start
    else if p.renewal.Answered? && p.renewal.effective then p.renewal.since
    else p.lastOK - cfg.maxDelay
  }

  /** The loop is on time, as long as nobody has cancelled it. */
  predicate OnTime(cfg: Config, p: Process, now: Time) {
    && (p.stage.Acquiring? || p.stage.Acquired? ==> p.stage.start <= now <= p.stage.start + cfg.maxDelay && p.renewal.Quiet?)
    && (LoopRuns(p) ==> p.lastOK <= now)
    && (LoopRuns(p) && p.renewal.Quiet? && !p.cancelled ==> now <= p.nextTick && Before(cfg, p.nextTick, p.lastOK + cfg.ttl))
    && (LoopRuns(p) && !p.renewal.Quiet? ==>
          && p.lastOK <= p.renewal.since <= now <= p.renewal.since + cfg.maxDelay
          && (!p.cancelled ==> Before(cfg, p.renewal.since, p.lastOK + cfg.ttl))
          && p.nextTick == p.renewal.since + cfg.interval)
    && (p.renewal.Answered? && p.renewal.verdict.Renewed? ==> p.renewal.effective)
  }

  /** An active process owns the row until well past its stamp, or that moment is over. */
  predicate Covered(cfg: Config, s: State, pid: Pid)
    requires pid in s.processes
  {
    Active(s.processes[pid]) ==>
      || (s.lease.Some? && s.lease.value.owner == pid && s.lease.value.expiresAt >= Stamp(cfg, s.processes[pid]) + cfg.ttl)
      || s.now > Stamp(cfg, s.processes[pid]) + cfg.ttl
  }

  ghost predicate Inv(cfg: Config, s: State) {
    forall pid | pid in s.processes :: OnTime(cfg, s.processes[pid], s.now) && Covered(cfg, s, pid)
  }

  lemma WaitKeepsProcess(cfg: Config, s: State, amount: Time, pid: Pid)
    requires Sensible(cfg) && Inv(cfg, s) && pid in s.processes
    ensures var t := Next(cfg, s, Wait(amount));
            t.processes == s.processes && OnTime(cfg, t.processes[pid], t.now) && Covered(cfg, t, pid)
  {
    assert OnTime(cfg, s.processes[pid], s.now) && Covered(cfg, s, pid);
    assert MayWaitUntil(cfg, s.processes[pid], Next(cfg, s, Wait(amount)).now) || Next(cfg, s, Wait(amount)) == s;
  }

  predicate TouchesLease(step: Step) {
    step.AcquireTakesEffect? || step.RenewTakesEffect? || step.Release?
  }

  lemma OthersStay(cfg: Config, s: State, step: Step, pid: Pid)
    requires pid in s.processes && !step.Wait? && step.pid != pid
    ensures var t := Next(cfg, s, step);
            pid in t.processes && t.processes[pid] == s.processes[pid] && t.now == s.now
  {
  }

  /** A lease step of another process frees or takes this one's row only when that is over. */
  lemma OtherLeaseStepKeepsRow(cfg: Config, s: State, step: Step, pid: Pid)
    requires Sensible(cfg) && Inv(cfg, s) && s.lease.Some? && s.lease.value.owner == pid
    requires !step.Wait? && step.pid != pid
    ensures Next(cfg, s, step).lease == s.lease || s.lease.value.expiresAt < s.now
  {
    if step.pid in s.processes {
      assert OnTime(cfg, s.processes[step.pid], s.now);
    }
  }

  lemma OtherLeaseStepKeepsProcess(cfg: Config, s: State, step: Step, pid: Pid)
    requires Sensible(cfg) && Inv(cfg, s) && pid in s.processes
    requires !step.Wait? && step.pid != pid && TouchesLease(step)
    ensures var t := Next(cfg, s, step);
            pid in t.processes && OnTime(cfg, t.processes[pid], t.now) && Covered(cfg, t, pid)
  {
    assert OnTime(cfg, s.processes[pid], s.now) && Covered(cfg, s, pid);
    OthersStay(cfg, s, step, pid);
    if s.lease.Some? && s.lease.value.owner == pid {
      OtherLeaseStepKeepsRow(cfg, s, step, pid);
    }
  }

  /** A step of one process does not hurt another: the row is only taken over once it has expired. */
  lemma OtherStepKeepsProcess(cfg: Config, s: State, step: Step, pid: Pid)
    requires Sensible(cfg) && Inv(cfg, s) && pid in s.processes
    requires !step.Wait? && step.pid != pid
    ensures var t := Next(cfg, s, step);
            pid in t.processes && OnTime(cfg, t.processes[pid], t.now) && Covered(cfg, t, pid)
  {
    assert OnTime(cfg, s.processes[pid], s.now) && Covered(cfg, s, pid);
    if TouchesLease(step) {
      OtherLeaseStepKeepsProcess(cfg, s, step, pid);
    } else {
      assert Next(cfg, s, step).lease == s.lease;
    }
  }

  lemma AcquiringStepKeepsProcess(cfg: Config, s: State, step: Step)
    requires Sensible(cfg) && cfg.interval <= cfg.ttl && Inv(cfg, s)
    requires step.Begin? || step.AcquireTakesEffect? || step.StartLoop? || step.Tick? || step.Timeout? || step.Crash?
    requires step.pid in Next(cfg, s, step).processes
    ensures var t := Next(cfg, s, step);
            OnTime(cfg, t.processes[step.pid], t.now) && Covered(cfg, t, step.pid)
  {
    if step.pid in s.processes {
      assert OnTime(cfg, s.processes[step.pid], s.now) && Covered(cfg, s, step.pid);
    }
  }

  lemma RenewEffectKeepsProcess(cfg: Config, s: State, step: Step)
    requires Sensible(cfg) && cfg.interval <= cfg.ttl && Inv(cfg, s) && step.RenewTakesEffect?
    requires step.pid in Next(cfg, s, step).processes
    ensures var t := Next(cfg, s, step);
            OnTime(cfg, t.processes[step.pid], t.now) && Covered(cfg, t, step.pid)
  {
    if step.pid in s.processes {
      assert OnTime(cfg, s.processes[step.pid], s.now) && Covered(cfg, s, step.pid);
    }
  }

  lemma RenewReturnKeepsProcess(cfg: Config, s: State, step: Step)
    requires Sensible(cfg) && cfg.interval <= cfg.ttl && Inv(cfg, s) && step.RenewReturns?
    requires step.pid in Next(cfg, s, step).processes
    ensures var t := Next(cfg, s, step);
            OnTime(cfg, t.processes[step.pid], t.now) && Covered(cfg, t, step.pid)
  {
    if step.pid in s.processes {
      assert OnTime(cfg, s.processes[step.pid], s.now) && Covered(cfg, s, step.pid);
    }
  }

  lemma RecheckKeepsProcess(cfg: Config, s: State, step: Step)
    requires Sensible(cfg) && cfg.interval <= cfg.ttl && Inv(cfg, s) && step.Recheck?
    requires step.pid in Next(cfg, s, step).processes
    ensures var t := Next(cfg, s, step);
            OnTime(cfg, t.processes[step.pid], t.now) && Covered(cfg, t, step.pid)
  {
    if step.pid in s.processes {
      assert OnTime(cfg, s.processes[step.pid], s.now) && Covered(cfg, s, step.pid);
    }
  }

  lemma InstallStepKeepsProcess(cfg: Config, s: State, step: Step)
    requires Sensible(cfg) && cfg.interval <= cfg.ttl && Inv(cfg, s)
    requires step.InstallEnds? || step.Release?
    requires step.pid in Next(cfg, s, step).processes
    ensures var t := Next(cfg, s, step);
            OnTime(cfg, t.processes[step.pid], t.now) && Covered(cfg, t, step.pid)
  {
    if step.pid in s.processes {
      assert OnTime(cfg, s.processes[step.pid], s.now) && Covered(cfg, s, step.pid);
    }
  }

  lemma NextKeepsInv(cfg: Config, s: State, step: Step)
    requires Sensible(cfg) && cfg.interval <= cfg.ttl && Inv(cfg, s)
    ensures Inv(cfg, Next(cfg, s, step))
  {
    var t := Next(cfg, s, step);
    forall pid | pid in t.processes
      ensures OnTime(cfg, t.processes[pid], t.now) && Covered(cfg, t, pid)
    {
      if step.Wait? {
        WaitKeepsProcess(cfg, s, step.amount, pid);
      } else if step.pid == pid {
        if step.RenewTakesEffect? {
          RenewEffectKeepsProcess(cfg, s, step);
        } else if step.RenewReturns? {
          RenewReturnKeepsProcess(cfg, s, step);
        } else if step.Recheck? {
          RecheckKeepsProcess(cfg, s, step);
        } else if step.InstallEnds? || step.Release? {
          InstallStepKeepsProcess(cfg, s, step);
        } else {
          AcquiringStepKeepsProcess(cfg, s, step);
        }
      } else {
        OtherStepKeepsProcess(cfg, s, step, pid);
      }
    }
  }

  lemma {:induction false} RunKeepsInv(cfg: Config, s: State, steps: seq<Step>)
    requires Sensible(cfg) && cfg.interval <= cfg.ttl && Inv(cfg, s)
    ensures Inv(cfg, Run(cfg, s, steps))
    decreases |steps|
  {
    if steps != [] {
      NextKeepsInv(cfg, s, steps[0]);
      RunKeepsInv(cfg, Next(cfg, s, steps[0]), steps[1..]);
    }
  }

  // ---------------------------------------------------------------- the timing results

  /**
   However its renews fail, a process is cancelled strictly before the TTL has passed
   since its last successful renew, give or take one locker call.
   */
  lemma CancelledBeforeExpiry(cfg: Config, steps: seq<Step>, pid: Pid)
    requires Sensible(cfg) && cfg.interval < cfg.ttl
    requires var s := Run(cfg, INITIAL, steps);
             pid in s.processes && LoopRuns(s.processes[pid]) && !s.processes[pid].cancelled
    ensures var s := Run(cfg, INITIAL, steps);
            s.now < s.processes[pid].lastOK + cfg.ttl + cfg.maxDelay
  {
    RunKeepsInv(cfg, INITIAL, steps);
    assert OnTime(cfg, Run(cfg, INITIAL, steps).processes[pid], Run(cfg, INITIAL, steps).now);
  }

  /**
   An active process that nobody has cancelled still owns the row, or its lease ended
   less than two locker calls ago.
   */
  lemma UncancelledOwnsOrIsJustLate(cfg: Config, steps: seq<Step>, pid: Pid)
    requires Sensible(cfg) && cfg.interval < cfg.ttl
    requires var s := Run(cfg, INITIAL, steps);
             pid in s.processes && Active(s.processes[pid]) && !s.processes[pid].cancelled
    ensures var s := Run(cfg, INITIAL, steps);
            var end := Stamp(cfg, s.processes[pid]) + cfg.ttl;
            && s.now < end + 2 * cfg.maxDelay
            && ((s.lease.Some? && s.lease.value.owner == pid && s.lease.value.expiresAt >= end) || end < s.now)
  {
    RunKeepsInv(cfg, INITIAL, steps);
    var s := Run(cfg, INITIAL, steps);
    assert OnTime(cfg, s.processes[pid], s.now) && Covered(cfg, s, pid);
  }

  // ---------------------------------------------------------------- who is cancelled

  /** The moves that cancel an install: its deadline, and a renew that may not be retried. */
  predicate Cancels(cfg: Config, s: State, step: Step, pid: Pid)
    requires pid in s.processes
  {
    var p := s.processes[pid];
    || step == Timeout(pid)
    || (&& step == RenewReturns(pid) && LoopRuns(p) && p.renewal.Answered?
        && match p.renewal.verdict
           case Renewed => false
           case NotOwner => true
           case Transient => s.now - p.lastOK >= cfg.ttl - cfg.interval)
  }

  lemma CancelledExactlyThen(cfg: Config, s: State, step: Step, pid: Pid)
    requires Sensible(cfg) && cfg.interval <= cfg.ttl && Inv(cfg, s) && pid in s.processes && !s.processes[pid].cancelled
    ensures var t := Next(cfg, s, step);
            pid in t.processes && (t.processes[pid].cancelled <==> Cancels(cfg, s, step, pid))
  {
    assert OnTime(cfg, s.processes[pid], s.now);
  }

  predicate NeverCancels(cfg: Config, s: State, steps: seq<Step>, pid: Pid)
    decreases |steps|
  {
    steps != [] ==>
      && (pid in s.processes ==> !Cancels(cfg, s, steps[0], pid))
      && NeverCancels(cfg, Next(cfg, s, steps[0]), steps[1..], pid)
  }

  lemma StepLeavesAloneIff(cfg: Config, s: State, step: Step, pid: Pid)
    requires Sensible(cfg) && cfg.interval <= cfg.ttl && Inv(cfg, s)
    requires pid in s.processes ==> !s.processes[pid].cancelled
    ensures var t := Next(cfg, s, step);
            (pid in t.processes ==> !t.processes[pid].cancelled) <==> (pid in s.processes ==> !Cancels(cfg, s, step, pid))
  {
    if pid in s.processes {
      CancelledExactlyThen(cfg, s, step, pid);
    }
  }

  lemma {:induction false} CancelledStays(cfg: Config, s: State, steps: seq<Step>, pid: Pid)
    requires pid in s.processes && s.processes[pid].cancelled
    ensures pid in Run(cfg, s, steps).processes && Run(cfg, s, steps).processes[pid].cancelled
    decreases |steps|
  {
    if steps != [] {
      CancelledStays(cfg, Next(cfg, s, steps[0]), steps[1..], pid);
    }
  }

  /**
   An install is left alone exactly as long as its deadline has not passed and each of its
   renews succeeded, or failed transiently less than TTL minus interval after the last
   success.
   */
  lemma {:induction false} LeftAloneIffNeverCancels(cfg: Config, s: State, steps: seq<Step>, pid: Pid)
    requires Sensible(cfg) && cfg.interval <= cfg.ttl && Inv(cfg, s)
    requires pid in s.processes ==> !s.processes[pid].cancelled
    ensures var t := Run(cfg, s, steps);
            (pid in t.processes ==> !t.processes[pid].cancelled) <==> NeverCancels(cfg, s, steps, pid)
    decreases |steps|
  {
    if steps != [] {
      var t := Next(cfg, s, steps[0]);
      NextKeepsInv(cfg, s, steps[0]);
      StepLeavesAloneIff(cfg, s, steps[0], pid);
      if pid in t.processes && t.processes[pid].cancelled {
        CancelledStays(cfg, t, steps[1..], pid);
      } else {
        LeftAloneIffNeverCancels(cfg, t, steps[1..], pid);
      }
    }
  }

  // ---------------------------------------------------------------- what the other moves do

  /** A provisioned workspace needs no install; otherwise the lease is asked for. */
  lemma BeginChecksWorkspace(cfg: Config, s: State, pid: Pid)
    requires pid !in s.processes
    ensures var t := Next(cfg, s, Begin(pid));
            && pid in t.processes && t.lease == s.lease
            && t.processes[pid].stage == if s.provisioned then Finished else Acquiring(s.now)
  {
  }

  /** The second check lets the install go on in an empty workspace alone. */
  lemma RecheckDecides(cfg: Config, s: State, pid: Pid)
    requires pid in s.processes && s.processes[pid].stage == Holding
    ensures var t := Next(cfg, s, Recheck(pid));
            pid in t.processes && t.processes[pid].stage == if s.provisioned then Releasing else Installing
  {
  }

  /** A release that reaches the row frees it for the next process if it is the owner's, and touches no other. */
  lemma ReleaseFreesOwnLease(cfg: Config, s: State, pid: Pid, answer: Answer)
    requires pid in s.processes && s.processes[pid].stage == Releasing
    ensures var t := Next(cfg, s, Release(pid, answer));
            && pid in t.processes && t.processes[pid].stage == Finished
            && t.lease == if answer != Refused && s.lease.Some? && s.lease.value.owner == pid then None else s.lease
  {
  }

  /** A renew that reaches the owner's row extends it, and one that does not leaves it alone. */
  lemma RenewExtendsOwnLease(cfg: Config, s: State, pid: Pid, since: Time, answer: Answer)
    requires pid in s.processes && LoopRuns(s.processes[pid]) && s.processes[pid].renewal == Calling(since)
    ensures var t := Next(cfg, s, RenewTakesEffect(pid, answer));
            var owns := s.lease.Some? && s.lease.value.owner == pid;
            && t.lease == (if owns && answer != Refused then Some(Lease(pid, since + cfg.ttl)) else s.lease)
            && pid in t.processes && t.processes[pid].renewal.Answered?
            && (t.processes[pid].renewal.verdict == Renewed <==> owns && answer == Accepted)
            && (t.processes[pid].renewal.verdict == NotOwner <==> !owns && answer == Accepted)
  {
  }

  /** A tick asks for a renew and starts the next interval. */
  lemma TickRenews(cfg: Config, s: State, pid: Pid)
    requires pid in s.processes && LoopRuns(s.processes[pid]) && s.processes[pid].renewal == Quiet
    requires !s.processes[pid].lost && s.now == s.processes[pid].nextTick
    ensures Next(cfg, s, Tick(pid))
         == Set(s, pid, s.processes[pid].(renewal := Calling(s.now), nextTick := s.now + cfg.interval))
  {
  }

  /** A row that another call holds turns the caller away; one that is free or over is taken from the call's start on. */
  lemma RowIsTakenIffFree(cfg: Config, s: State, pid: Pid, start: Time)
    requires pid in s.processes && s.processes[pid].stage == Acquiring(start)
    ensures var t := Next(cfg, s, AcquireTakesEffect(pid, Accepted));
            pid in t.processes
            && if s.lease.Some? && s.lease.value.owner != pid && s.lease.value.expiresAt >= start then
                 t.processes[pid].stage == Finished && t.lease == s.lease
               else
                 t.processes[pid].stage == Acquired(start) && t.lease == Some(Lease(pid, start + cfg.ttl))
  {
  }

  /** An install that succeeds provisions the workspace in any case, and is reported unless the lease was lost. */
  lemma SuccessIsReportedUnlessLost(cfg: Config, s: State, pid: Pid, ok: bool)
    requires pid in s.processes && s.processes[pid].stage == Installing
    ensures var t := Next(cfg, s, InstallEnds(pid, ok));
            && t.provisioned == (s.provisioned || ok)
            && t.installs == (if ok && !s.processes[pid].lost then s.installs + 1 else s.installs)
            && pid in t.processes && t.processes[pid].stage == Releasing && t.lease == s.lease
  {
  }

  /** The first answer of the renew loop lets the install begin, or ends the call; later ones leave the stage alone. */
  lemma ProbeDecides(cfg: Config, s: State, pid: Pid)
    requires pid in s.processes && s.processes[pid].renewal.Answered? && LoopRuns(s.processes[pid])
    requires !s.processes[pid].cancelled && !s.processes[pid].lost && cfg.interval < cfg.ttl
    ensures var p := s.processes[pid];
            var t := Next(cfg, s, RenewReturns(pid));
            pid in t.processes
            && var q := t.processes[pid];
               && q.renewal == Quiet
               && q.lastOK == (if p.renewal.verdict == Renewed then s.now else p.lastOK)
               && (q.lost <==> Cancels(cfg, s, RenewReturns(pid), pid))
               && q.stage == if p.stage != Probing then p.stage else if q.lost then Releasing else Holding
  {
  }

  function LoneCall(pid: Pid, ok: bool): seq<Step> {
    [Begin(pid), AcquireTakesEffect(pid, Accepted), StartLoop(pid), RenewTakesEffect(pid, Accepted), RenewReturns(pid),
     Recheck(pid), InstallEnds(pid, ok), Release(pid, Accepted)]
  }

  /** Call `pid` stands at `p`, and the row is `lease`. */
  function Stands(s: State, pid: Pid, lease: Option<Lease>, p: Process): State {
    s.(lease := lease, processes := s.processes[pid := p])
  }

  lemma StandsNext(s: State, pid: Pid, lease: Option<Lease>, p: Process, lease': Option<Lease>, p': Process)
    ensures Stands(Stands(s, pid, lease, p), pid, lease', p') == Stands(s, pid, lease', p')
  {
    assert s.processes[pid := p][pid := p'] == s.processes[pid := p'];
  }

  lemma FourMoves(cfg: Config, s: State, e: seq<Step>)
    requires |e| >= 4
    ensures Run(cfg, s, e)
         == Run(cfg, Next(cfg, Next(cfg, Next(cfg, Next(cfg, s, e[0]), e[1]), e[2]), e[3]), e[4..])
  {
    var s1 := Next(cfg, s, e[0]);
    var s2 := Next(cfg, s1, e[1]);
    var s3 := Next(cfg, s2, e[2]);
    assert Run(cfg, s, e) == Run(cfg, s1, e[1..]);
    assert e[1..][1..] == e[2..] && e[2..][1..] == e[3..] && e[3..][1..] == e[4..];
    assert Run(cfg, s1, e[1..]) == Run(cfg, s2, e[2..]);
    assert Run(cfg, s2, e[2..]) == Run(cfg, s3, e[3..]);
  }

  lemma LoneCallGetsLease(cfg: Config, s: State, pid: Pid)
    requires pid !in s.processes && !s.provisioned
    requires s.lease.Some? ==> s.lease.value.expiresAt < s.now
    ensures var lease := Some(Lease(pid, s.now + cfg.ttl));
            var probed := Process(Probing, false, false, s.now, s.now + cfg.interval, Answered(s.now, true, Renewed));
            Next(cfg, Next(cfg, Next(cfg, Next(cfg, s, Begin(pid)), AcquireTakesEffect(pid, Accepted)), StartLoop(pid)),
                 RenewTakesEffect(pid, Accepted))
              == Stands(s, pid, lease, probed)
  {
    var lease := Some(Lease(pid, s.now + cfg.ttl));
    var p1 := Process(Acquiring(s.now), false, false, s.now, s.now, Quiet);
    var p2 := p1.(stage := Acquired(s.now));
    var p3 := Process(Probing, false, false, s.now, s.now + cfg.interval, Calling(s.now));
    var p4 := p3.(renewal := Answered(s.now, true, Renewed));
    assert Next(cfg, s, Begin(pid)) == Stands(s, pid, s.lease, p1);
    StandsNext(s, pid, s.lease, p1, lease, p2);
    StandsNext(s, pid, lease, p2, lease, p3);
    StandsNext(s, pid, lease, p3, lease, p4);
  }

  lemma LoneCallInstalls(cfg: Config, s: State, pid: Pid, lease: Option<Lease>, p: Process, ok: bool)
    requires !s.provisioned && lease.Some? && lease.value.owner == pid
    requires p.stage == Probing && !p.cancelled && !p.lost && p.renewal.Answered? && p.renewal.verdict == Renewed
    ensures var q := Process(Finished, false, false, s.now, p.nextTick, Quiet);
            Next(cfg, Next(cfg, Next(cfg, Next(cfg, Stands(s, pid, lease, p), RenewReturns(pid)), Recheck(pid)),
                           InstallEnds(pid, ok)), Release(pid, Accepted))
              == Stands(s.(provisioned := ok, installs := s.installs + if ok then 1 else 0), pid, None, q)
  {
    var p5 := p.(stage := Holding, renewal := Quiet, lastOK := s.now);
    var p6 := p5.(stage := Installing);
    var p7 := p5.(stage := Releasing);
    var done := s.(provisioned := ok, installs := s.installs + if ok then 1 else 0);
    StandsNext(s, pid, lease, p, lease, p5);
    StandsNext(s, pid, lease, p5, lease, p6);
    StandsNext(done, pid, lease, p6, lease, p7);
    assert Next(cfg, Stands(s, pid, lease, p6), InstallEnds(pid, ok)) == Stands(done, pid, lease, p7);
    StandsNext(done, pid, lease, p7, None, p7.(stage := Finished));
  }

  /**
   A call that nobody disturbs, over a row that is free or over: it installs once, reports
   that, and leaves the row free and the workspace as the install left it.
   */
  lemma LoneCallProvisions(cfg: Config, s: State, pid: Pid, ok: bool)
    requires pid !in s.processes && !s.provisioned
    requires s.lease.Some? ==> s.lease.value.expiresAt < s.now
    ensures var t := Run(cfg, s, LoneCall(pid, ok));
            && t.lease == None && t.provisioned == ok && t.installs == s.installs + (if ok then 1 else 0)
            && pid in t.processes && t.processes[pid].stage == Finished && !t.processes[pid].cancelled
  {
    var e := LoneCall(pid, ok);
    var lease := Some(Lease(pid, s.now + cfg.ttl));
    var probed := Process(Probing, false, false, s.now, s.now + cfg.interval, Answered(s.now, true, Renewed));
    FourMoves(cfg, s, e);
    LoneCallGetsLease(cfg, s, pid);
    FourMoves(cfg, Stands(s, pid, lease, probed), e[4..]);
    LoneCallInstalls(cfg, s, pid, lease, probed, ok);
    assert e[4..][4..] == [];
  }

  // ---------------------------------------------------------------- mutual exclusion and the single install

  predicate InstallsUncancelled(s: State, pid: Pid) {
    pid in s.processes && s.processes[pid].stage.Installing? && !s.processes[pid].cancelled
  }

  /** No two processes install with an uncancelled context. */
  ghost predicate Safe(s: State) {
    forall p, q :: InstallsUncancelled(s, p) && InstallsUncancelled(s, q) ==> p == q
  }

  /** With instantaneous locker calls, an uncancelled active process owns the row. */
  lemma UncancelledOwns(cfg: Config, s: State, pid: Pid)
    requires Sensible(cfg) && cfg.interval <= cfg.ttl && cfg.maxDelay == 0 && Inv(cfg, s)
    requires pid in s.processes && Active(s.processes[pid]) && !s.processes[pid].cancelled
    ensures s.lease.Some? && s.lease.value.owner == pid
  {
    assert OnTime(cfg, s.processes[pid], s.now) && Covered(cfg, s, pid);
  }

  /** With instantaneous locker calls, an interval within the TTL keeps uncancelled installs apart. */
  lemma InvIsSafe(cfg: Config, s: State)
    requires Sensible(cfg) && cfg.interval <= cfg.ttl && cfg.maxDelay == 0 && Inv(cfg, s)
    ensures Safe(s)
  {
    forall p, q | InstallsUncancelled(s, p) && InstallsUncancelled(s, q)
      ensures p == q
    {
      UncancelledOwns(cfg, s, p);
      UncancelledOwns(cfg, s, q);
    }
  }

  /**
   InstallModule comes back with success although its context was cancelled, and not by
   the renew loop: the deadline passed, or a caller gave up.
   */
  predicate IgnoresCancel(s: State, step: Step) {
    && step.InstallEnds? && step.ok && step.pid in s.processes
    && var p := s.processes[step.pid];
       p.stage.Installing? && p.cancelled && !p.lost
  }

  /** Only the installs of these processes ignore such a cancellation. */
  predicate OnlyIgnoring(cfg: Config, s: State, steps: seq<Step>, stubborn: set<Pid>)
    decreases |steps|
  {
    steps != [] ==>
      && (IgnoresCancel(s, steps[0]) ==> steps[0].pid in stubborn)
      && OnlyIgnoring(cfg, Next(cfg, s, steps[0]), steps[1..], stubborn)
  }

  /** One install at most was reported, and after it the workspace is provisioned and nobody installs uncancelled. */
  ghost predicate InstallInv(s: State) {
    && s.installs <= 1
    && (s.installs == 1 ==> s.provisioned && forall pid :: !InstallsUncancelled(s, pid))
  }

  lemma InstallStarts(cfg: Config, s: State, step: Step, pid: Pid)
    requires InstallsUncancelled(Next(cfg, s, step), pid) && !InstallsUncancelled(s, pid)
    ensures !s.provisioned && Next(cfg, s, step).installs == s.installs
  {
  }

  lemma InstallIsReported(cfg: Config, s: State, step: Step)
    requires Next(cfg, s, step).installs != s.installs && !IgnoresCancel(s, step) && LostIsCancelled(s)
    ensures var t := Next(cfg, s, step);
            && step.InstallEnds? && InstallsUncancelled(s, step.pid) && !InstallsUncancelled(t, step.pid)
            && t.installs == s.installs + 1 && t.provisioned
  {
  }

  lemma NextKeepsInstallInv(cfg: Config, s: State, step: Step)
    requires Sensible(cfg) && cfg.interval <= cfg.ttl && cfg.maxDelay == 0
    requires Inv(cfg, s) && InstallInv(s) && !IgnoresCancel(s, step)
    requires LostIsCancelled(s)
    ensures InstallInv(Next(cfg, s, step))
  {
    var t := Next(cfg, s, step);
    InvIsSafe(cfg, s);
    if t.installs != s.installs {
      InstallIsReported(cfg, s, step);
    }
    forall pid | InstallsUncancelled(t, pid)
      ensures t.installs == 0
    {
      if !InstallsUncancelled(s, pid) {
        InstallStarts(cfg, s, step, pid);
      }
    }
  }

  /** A signalled renew failure has cancelled the install. */
  predicate LostIsCancelled(s: State) {
    forall pid | pid in s.processes :: s.processes[pid].lost ==> s.processes[pid].cancelled
  }

  lemma NextKeepsLostCancelled(cfg: Config, s: State, step: Step)
    requires LostIsCancelled(s)
    ensures LostIsCancelled(Next(cfg, s, step))
  {
  }

  lemma {:induction false} RunKeepsInstallInv(cfg: Config, s: State, steps: seq<Step>)
    requires Sensible(cfg) && cfg.interval <= cfg.ttl && cfg.maxDelay == 0
    requires Inv(cfg, s) && InstallInv(s) && LostIsCancelled(s) && OnlyIgnoring(cfg, s, steps, {})
    ensures InstallInv(Run(cfg, s, steps))
    decreases |steps|
  {
    if steps != [] {
      NextKeepsInv(cfg, s, steps[0]);
      NextKeepsInstallInv(cfg, s, steps[0]);
      NextKeepsLostCancelled(cfg, s, steps[0]);
      RunKeepsInstallInv(cfg, Next(cfg, s, steps[0]), steps[1..]);
    }
  }

  lemma {:induction false} RunConcat(cfg: Config, s: State, a: seq<Step>, b: seq<Step>)
    ensures Run(cfg, s, a + b) == Run(cfg, Run(cfg, s, a), b)
    decreases |a|
  {
    if a == [] {
      assert a + b == b;
    } else {
      assert (a + b)[0] == a[0] && (a + b)[1..] == a[1..] + b;
      RunConcat(cfg, Next(cfg, s, a[0]), a[1..], b);
    }
  }

  /** Everything from the first check to the start of the install, without delay. */
  function Enter(pid: Pid): seq<Step> {
    [Begin(pid), AcquireTakesEffect(pid, Accepted), StartLoop(pid),
     RenewTakesEffect(pid, Accepted), RenewReturns(pid), Recheck(pid)]
  }

  lemma EnterInstalls(cfg: Config, s: State, pid: Pid)
    requires pid !in s.processes && !s.provisioned && (s.lease.Some? ==> s.lease.value.expiresAt < s.now)
    ensures Run(cfg, s, Enter(pid))
            == s.(lease := Some(Lease(pid, s.now + cfg.ttl)),
                  processes := s.processes[pid := Entered(cfg, s.now, false)])
  {
    var e := Enter(pid);
    var s1 := Next(cfg, s, e[0]);
    var s2 := Next(cfg, s1, e[1]);
    var s3 := Next(cfg, s2, e[2]);
    var s4 := Next(cfg, s3, e[3]);
    var s5 := Next(cfg, s4, e[4]);
    var s6 := Next(cfg, s5, e[5]);
    assert e[1..][1..] == e[2..] && e[2..][1..] == e[3..] && e[3..][1..] == e[4..];
    assert e[4..][1..] == e[5..] && e[5..][1..] == [];
    assert Run(cfg, s5, e[5..]) == s6;
    assert Run(cfg, s4, e[4..]) == s6;
    assert Run(cfg, s3, e[3..]) == s6;
    assert Run(cfg, s2, e[2..]) == s6;
    assert Run(cfg, s1, e[1..]) == s6;
    assert s6.processes == s.processes[pid := Entered(cfg, s.now, false)];
  }

  /** A run that breaks safety when a tick comes later than the lease expires. */
  function LateTick(cfg: Config): seq<Step> {
    Enter(0) + ([Wait(cfg.ttl + 1)] + Enter(1))
  }

  lemma LateTickIsUnsafe(cfg: Config)
    requires 0 < cfg.ttl < cfg.interval
    ensures !Safe(Run(cfg, INITIAL, LateTick(cfg)))
  {
    EnterInstalls(cfg, INITIAL, 0);
    var s := Run(cfg, INITIAL, Enter(0));
    var w := Next(cfg, s, Wait(cfg.ttl + 1));
    assert w == s.(now := cfg.ttl + 1);
    EnterInstalls(cfg, w, 1);
    RunConcat(cfg, INITIAL, Enter(0), [Wait(cfg.ttl + 1)] + Enter(1));
    assert ([Wait(cfg.ttl + 1)] + Enter(1))[1..] == Enter(1);
    var t := Run(cfg, INITIAL, LateTick(cfg));
    assert t == Run(cfg, w, Enter(1));
    assert InstallsUncancelled(t, 0) && InstallsUncancelled(t, 1);
  }

  /**
   With instantaneous locker calls no run has two uncancelled installs exactly when the
   renew interval does not exceed the TTL.
   */
  lemma SafeIffIntervalWithinTtl(cfg: Config)
    requires Sensible(cfg) && cfg.maxDelay == 0
    ensures cfg.interval <= cfg.ttl <==> forall steps :: Safe(Run(cfg, INITIAL, steps))
  {
    if cfg.interval <= cfg.ttl {
      forall steps
        ensures Safe(Run(cfg, INITIAL, steps))
      {
        RunKeepsInv(cfg, INITIAL, steps);
        InvIsSafe(cfg, Run(cfg, INITIAL, steps));
      }
    } else {
      LateTickIsUnsafe(cfg);
    }
  }

  // ---------------------------------------------------------------- two installs past a deadline

  /** One process runs into its deadline, its lease expires, another enters, and both installs end with success. */
  function PastDeadline(cfg: Config, p: Pid, q: Pid): seq<Step> {
    Enter(p) + ([Timeout(p), Wait(cfg.ttl + 1)] + (Enter(q) + BothEnd(p, q)))
  }

  function BothEnd(p: Pid, q: Pid): seq<Step> {
    [InstallEnds(p, true), InstallEnds(q, true)]
  }

  lemma BothComeBack(cfg: Config, s: State, p: Pid, q: Pid, stubborn: set<Pid>)
    requires p in s.processes && s.processes[p].stage.Installing? && !s.processes[p].lost
    requires q in s.processes && s.processes[q].stage.Installing? && !s.processes[q].lost
    requires p != q && p in stubborn && !s.processes[q].cancelled
    ensures Run(cfg, s, BothEnd(p, q)).installs == s.installs + 2
    ensures OnlyIgnoring(cfg, s, BothEnd(p, q), stubborn)
  {
    var ends := BothEnd(p, q);
    var one := Next(cfg, s, ends[0]);
    var two := Next(cfg, one, ends[1]);
    assert one.processes[q] == s.processes[q];
    assert ends[1..][1..] == [] && ends[1..][0] == ends[1];
    assert Run(cfg, one, ends[1..]) == two;
    assert OnlyIgnoring(cfg, one, ends[1..], stubborn);
  }

  lemma TimesOutAndExpires(cfg: Config, s: State, p: Pid, rest: seq<Step>)
    requires Sensible(cfg) && s.processes.Keys == {p}
    requires s.processes[p].stage.Installing? && s.processes[p].renewal.Quiet?
    ensures var t := s.(now := s.now + cfg.ttl + 1, processes := s.processes[p := s.processes[p].(cancelled := true)]);
            Run(cfg, s, [Timeout(p), Wait(cfg.ttl + 1)] + rest) == Run(cfg, t, rest)
  {
    var steps := [Timeout(p), Wait(cfg.ttl + 1)] + rest;
    var late := Next(cfg, s, steps[0]);
    var expired := Next(cfg, late, steps[1]);
    assert expired == late.(now := s.now + cfg.ttl + 1);
    assert steps[1..][1..] == rest && steps[1..][0] == steps[1];
    assert Run(cfg, late, steps[1..]) == Run(cfg, expired, rest);
  }

  /** A process on its own in `Installing`, entered at `now`. */
  function Entered(cfg: Config, now: Time, cancelled: bool): Process {
    Process(Installing, cancelled, false, now, now + cfg.interval, Quiet)
  }

  lemma EntersAndGoesOn(cfg: Config, s: State, pid: Pid, rest: seq<Step>)
    requires pid !in s.processes && !s.provisioned && (s.lease.Some? ==> s.lease.value.expiresAt < s.now)
    ensures var t := s.(lease := Some(Lease(pid, s.now + cfg.ttl)),
                        processes := s.processes[pid := Entered(cfg, s.now, false)]);
            Run(cfg, s, Enter(pid) + rest) == Run(cfg, t, rest)
  {
    EnterInstalls(cfg, s, pid);
    RunConcat(cfg, s, Enter(pid), rest);
  }

  /** Where the first process installs past its deadline and its lease has expired. */
  function OneExpired(cfg: Config, p: Pid): State {
    State(cfg.ttl + 1, Some(Lease(p, cfg.ttl)), map[p := Entered(cfg, 0, true)], false, 0)
  }

  lemma ReachesOneExpired(cfg: Config, p: Pid, rest: seq<Step>)
    requires Sensible(cfg)
    ensures Run(cfg, INITIAL, Enter(p) + ([Timeout(p), Wait(cfg.ttl + 1)] + rest)) == Run(cfg, OneExpired(cfg, p), rest)
  {
    var s := State(0, Some(Lease(p, cfg.ttl)), map[p := Entered(cfg, 0, false)], false, 0);
    EntersAndGoesOn(cfg, INITIAL, p, [Timeout(p), Wait(cfg.ttl + 1)] + rest);
    TimesOutAndExpires(cfg, s, p, rest);
    assert OneExpired(cfg, p).processes == s.processes[p := s.processes[p].(cancelled := true)];
  }

  /** Where a second process has entered and both install. */
  function BothInstalling(cfg: Config, p: Pid, q: Pid): State {
    var late := cfg.ttl + 1;
    State(late, Some(Lease(q, late + cfg.ttl)), map[p := Entered(cfg, 0, true), q := Entered(cfg, late, false)], false, 0)
  }

  lemma ReachesBothInstalling(cfg: Config, p: Pid, q: Pid, ends: seq<Step>)
    requires Sensible(cfg) && p != q
    ensures Run(cfg, INITIAL, Enter(p) + ([Timeout(p), Wait(cfg.ttl + 1)] + (Enter(q) + ends)))
         == Run(cfg, BothInstalling(cfg, p, q), ends)
  {
    var expired := OneExpired(cfg, p);
    ReachesOneExpired(cfg, p, Enter(q) + ends);
    EntersAndGoesOn(cfg, expired, q, ends);
    assert BothInstalling(cfg, p, q).processes == expired.processes[q := Entered(cfg, cfg.ttl + 1, false)];
  }

  lemma {:induction false} OnlyIgnoringConcat(cfg: Config, s: State, a: seq<Step>, b: seq<Step>, stubborn: set<Pid>)
    requires forall step <- a :: !step.InstallEnds?
    requires OnlyIgnoring(cfg, Run(cfg, s, a), b, stubborn)
    ensures OnlyIgnoring(cfg, s, a + b, stubborn)
    decreases |a|
  {
    if a == [] {
      assert a + b == b;
    } else {
      assert (a + b)[0] == a[0] && (a + b)[1..] == a[1..] + b;
      assert a[0] in a;
      OnlyIgnoringConcat(cfg, Next(cfg, s, a[0]), a[1..], b, stubborn);
    }
  }

  /** A process whose install may ignore its deadline is enough for two reported installs. */
  lemma DeadlineAllowsTwoInstalls(cfg: Config, p: Pid, q: Pid)
    requires Sensible(cfg) && p != q
    ensures Run(cfg, INITIAL, PastDeadline(cfg, p, q)).installs == 2
    ensures OnlyIgnoring(cfg, INITIAL, PastDeadline(cfg, p, q), {p})
  {
    var both := BothInstalling(cfg, p, q);
    var before := Enter(p) + ([Timeout(p), Wait(cfg.ttl + 1)] + (Enter(q) + []));
    ReachesBothInstalling(cfg, p, q, BothEnd(p, q));
    ReachesBothInstalling(cfg, p, q, []);
    BothComeBack(cfg, both, p, q, {p});
    assert Run(cfg, INITIAL, before) == both;
    assert before + BothEnd(p, q) == PastDeadline(cfg, p, q);
    OnlyIgnoringConcat(cfg, INITIAL, before, BothEnd(p, q), {p});
  }

  lemma {:induction false} OnlyIgnoringGrows(cfg: Config, s: State, steps: seq<Step>, few: set<Pid>, many: set<Pid>)
    requires OnlyIgnoring(cfg, s, steps, few) && few <= many
    ensures OnlyIgnoring(cfg, s, steps, many)
    decreases |steps|
  {
    if steps != [] {
      OnlyIgnoringGrows(cfg, Next(cfg, s, steps[0]), steps[1..], few, many);
    }
  }

  /**
   Whatever set of processes has installs that may ignore an unsignalled cancellation: at
   most one install is reported in every run exactly when there is no such process.
   */
  lemma OneInstallIffNobodyStubborn(cfg: Config, stubborn: set<Pid>)
    requires Sensible(cfg) && cfg.interval <= cfg.ttl && cfg.maxDelay == 0
    ensures stubborn == {} <==>
            forall steps | OnlyIgnoring(cfg, INITIAL, steps, stubborn) :: Run(cfg, INITIAL, steps).installs <= 1
  {
    if stubborn == {} {
      forall steps | OnlyIgnoring(cfg, INITIAL, steps, stubborn)
        ensures Run(cfg, INITIAL, steps).installs <= 1
      {
        RunKeepsInstallInv(cfg, INITIAL, steps);
      }
    } else {
      var p :| p in stubborn;
      DeadlineAllowsTwoInstalls(cfg, p, p + 1);
      OnlyIgnoringGrows(cfg, INITIAL, PastDeadline(cfg, p, p + 1), {p}, stubborn);
    }
  }

  // ---------------------------------------------------------------- the provisioning call

  /** The locker and its one row. */
  class Locker {
    var lease: Option<Lease>

    method Acquire(owner: Pid, start: Time, ttl: Time, answer: Answer) returns (ok: bool)
      modifies this
      ensures ok <==> answer.Accepted?
                      && (old(lease).Some? ==> old(lease).value.owner == owner || old(lease).value.expiresAt < start)
      ensures lease == if !answer.Refused? && MayAcquire(old(lease), owner, start)
                       then Some(Lease(owner, start + ttl)) else old(lease)
    {
      ok := false;
      if answer.Refused? {
        return;
      }
      if lease.Some? && (lease.value.expiresAt < start || lease.value.owner == owner) {
        lease := Some(Lease(owner, start + ttl));
      } else if lease.None? {
        lease := Some(Lease(owner, start + ttl));
      } else {
        return;
      }
      ok := answer.Accepted?;
    }

    method Renew(owner: Pid, start: Time, ttl: Time, answer: Answer) returns (effective: bool, verdict: Verdict)
      modifies this
      ensures effective <==> !answer.Refused? && old(lease).Some? && old(lease).value.owner == owner
      ensures lease == if effective then Some(Lease(owner, start + ttl)) else old(lease)
      ensures verdict == if !answer.Accepted? then Transient else if effective then Renewed else NotOwner
    {
      effective, verdict := false, Transient;
      if answer.Refused? {
        return;
      }
      if lease.Some? && lease.value.owner == owner {
        lease := Some(Lease(owner, start + ttl));
        effective := true;
      }
      if answer.Accepted? {
        verdict := if effective then Renewed else NotOwner;
      }
    }

    method Free(owner: Pid, answer: Answer)
      modifies this
      ensures lease == if !answer.Refused? && old(lease).Some? && old(lease).value.owner == owner then None else old(lease)
    {
      if !answer.Refused? && lease.Some? && lease.value.owner == owner {
        lease := None;
      }
    }
  }

  class Workspace {
    var provisioned: bool
    var installs: nat
  }

  /** One ProvisionMinimal call with its lease handle and renew loop. */
  class Provisioner {
    const cfg: Config
    const pid: Pid
    const locker: Locker
    const workspace: Workspace
    var stage: Stage
    var cancelled: bool
    var lost: bool
    var lastOK: Time
    var nextTick: Time
    var renewal: Renewal

    ghost function Value(): Process
      reads this
    {
      Process(stage, cancelled, lost, lastOK, nextTick, renewal)
    }

    /** The objects show what the global state `s` says about this process. */
    ghost predicate Shows(s: State)
      reads this, locker, workspace
    {
      && pid in s.processes && s.processes[pid] == Value()
      && s.lease == locker.lease
      && s.provisioned == workspace.provisioned && s.installs == workspace.installs
    }

    constructor (cfg: Config, pid: Pid, locker: Locker, workspace: Workspace, now: Time, ghost s: State)
      requires pid !in s.processes && s.now == now && s.lease == locker.lease
      requires s.provisioned == workspace.provisioned && s.installs == workspace.installs
      ensures this.cfg == cfg && this.pid == pid && this.locker == locker && this.workspace == workspace
      ensures Shows(Next(cfg, s, Begin(pid)))
    {
      this.cfg, this.pid, this.locker, this.workspace := cfg, pid, locker, workspace;
      stage := if workspace.provisioned then Finished else Acquiring(now);
      cancelled, lost, lastOK, nextTick, renewal := false, false, now, now, Quiet;
    }

    /** acquireProvisionLease, up to the grant of the row. */
    method Acquire(answer: Answer, ghost s: State)
      requires Shows(s) && stage.Acquiring?
      modifies this, locker
      ensures Shows(Next(cfg, s, AcquireTakesEffect(pid, answer)))
    {
      var start := stage.start;
      var ok := locker.Acquire(pid, start, cfg.ttl, answer);
      stage := if ok then Acquired(start) else Finished;
    }

    /** The renew goroutine starts: ticker, lastOK, and an immediate probe. */
    method Launch(now: Time, ghost s: State)
      requires Shows(s) && s.now == now && stage.Acquired?
      modifies this
      ensures Shows(Next(cfg, s, StartLoop(pid)))
    {
      stage := Probing;
      nextTick := now + cfg.interval;
      lastOK := now;
      renewal := Calling(now);
    }

    method OnTick(now: Time, ghost s: State)
      requires Shows(s) && s.now == now && MayTick(Value(), now)
      modifies this
      ensures Shows(Next(cfg, s, Tick(pid)))
    {
      nextTick := now + cfg.interval;
      renewal := Calling(now);
    }

    method RenewAtLocker(answer: Answer, ghost s: State)
      requires Shows(s) && LoopRuns(Value()) && renewal.Calling?
      modifies this, locker
      ensures Shows(Next(cfg, s, RenewTakesEffect(pid, answer)))
    {
      var effective, verdict := locker.Renew(pid, renewal.since, cfg.ttl, answer);
      renewal := Answered(renewal.since, effective, verdict);
    }

    /** renewOnce after its Renew call: record success, retry inside the window, or cancel the install. */
    method AfterRenew(now: Time, ghost s: State) returns (stop: bool)
      requires Shows(s) && s.now == now && LoopRuns(Value()) && renewal.Answered?
      modifies this
      ensures Shows(Next(cfg, s, RenewReturns(pid)))
      ensures stop ==> cancelled && lost
    {
      var verdict := renewal.verdict;
      var probing := stage.Probing?;
      renewal := Quiet;
      if probing {
        stage := Holding;
      }
      if verdict.Renewed? {
        lastOK := now;
        return false;
      }
      var retryWindow := cfg.ttl - cfg.interval;
      if verdict.Transient? && !cancelled && retryWindow > 0 && now - lastOK < retryWindow {
        return false;
      }
      lost := true;
      cancelled := true;
      if probing {
        stage := Releasing;
      }
      return true;
    }

    /** The second Resolve, under the lease. */
    method CheckAgain(ghost s: State)
      requires Shows(s) && stage.Holding?
      modifies this
      ensures Shows(Next(cfg, s, Recheck(pid)))
    {
      if workspace.provisioned {
        stage, renewal := Releasing, Quiet;
      } else {
        stage := Installing;
      }
    }

    /** InstallModule returns; a success is reported unless the renew loop has signalled a failure. */
    method AfterInstall(ok: bool, ghost s: State)
      requires Shows(s) && stage.Installing?
      modifies this, workspace
      ensures Shows(Next(cfg, s, InstallEnds(pid, ok)))
    {
      if ok {
        workspace.provisioned := true;
        if !lost {
          workspace.installs := workspace.installs + 1;
        }
      }
      stage, renewal := Releasing, Quiet;
    }

    method ReleaseLease(answer: Answer, ghost s: State)
      requires Shows(s) && stage.Releasing?
      modifies this, locker
      ensures Shows(Next(cfg, s, Release(pid, answer)))
    {
      locker.Free(pid, answer);
      stage := Finished;
    }

    method Cancel(ghost s: State)
      requires Shows(s)
      modifies this
      ensures Shows(Next(cfg, s, Timeout(pid)))
    {
      cancelled := true;
    }
  }
}
