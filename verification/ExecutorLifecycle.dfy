/**
 The start, stop and reload lifecycle of the JavaScript executor
 (internal/defaultjsexecutor/executor.go).

 Start, Stop and Reload calls run in any number of goroutines.  Each stretch under
 `controlMu` is one step; between two stretches a call is inside the thread pool or
 parked on the `stopDone` channel.
 */
module ExecutorLifecycle {
  import opened Wrappers

  type CallId = nat
  type Channel = nat

  datatype Phase = New | Starting | Running | Reloading | Stopping | Stopped

  datatype Operation = Start | Stop | Reload

  /** Where a call stands between two stretches under the lock. */
  datatype Pc =
    | Entering(op: Operation)
    | InPoolStart
    | InPoolReload
    | InPoolStop
    | Parked(on: Channel)
    | Returned

  /**
   `closed` lists the channels that have been closed; `panicked` records a close of a
   closed channel; `holder` is history: the call that is inside the pool.
   */
  datatype State = State(phase: Phase, stopRequested: bool, stopDone: Option<Channel>, nextChannel: Channel,
                         closed: set<Channel>, panicked: bool, calls: map<CallId, Pc>, holder: Option<CallId>)

  const FRESH := State(New, false, None, 0, {}, false, map[], None)

  datatype Step = Spawn(call: CallId, op: Operation) | Advance(call: CallId, poolOk: bool)

  // ---------------------------------------------------------------- one step

  function Go(s: State, c: CallId, pc: Pc): State {
    s.(calls := s.calls[c := pc])
  }

  function EnsureStopDone(s: State): State {
    if s.stopDone.None? then s.(stopDone := Some(s.nextChannel), nextChannel := s.nextChannel + 1) else s
  }

  function CompleteStop(s: State): State {
    var t := s.(stopRequested := false, phase := Stopped, holder := None);
    if s.stopDone.Some? then
      t.(closed := s.closed + {s.stopDone.value}, panicked := s.panicked || s.stopDone.value in s.closed, stopDone := None)
    else t
  }

  function EnterStart(s: State, c: CallId): State {
    if s.phase == New then Go(s.(stopRequested := false, phase := Starting, holder := Some(c)), c, InPoolStart)
    else Go(s, c, Returned)
  }

  function EnterStop(s: State, c: CallId): State {
    match s.phase
    case New => Go(s.(stopRequested := false, phase := Stopped), c, Returned)
    case Starting | Reloading =>
      var t := EnsureStopDone(s);
      Go(t.(stopRequested := true), c, Parked(t.stopDone.value))
    case Running => Go(EnsureStopDone(s).(stopRequested := true, phase := Stopping, holder := Some(c)), c, InPoolStop)
    case Stopping =>
      var t := EnsureStopDone(s);
      Go(t, c, Parked(t.stopDone.value))
    case Stopped => Go(s, c, Returned)
  }

  function EnterReload(s: State, c: CallId): State {
    if s.phase == Running && !s.stopRequested then Go(s.(phase := Reloading, holder := Some(c)), c, InPoolReload)
    else Go(s, c, Returned)
  }

  /** Back from the pool: honour a stop that was requested meanwhile. */
  function LeavePool(s: State, c: CallId): State {
    if s.stopRequested then Go(EnsureStopDone(s).(phase := Stopping), c, InPoolStop)
    else Go(s.(phase := Running, holder := None), c, Returned)
  }

  function Next(s: State, step: Step): State {
    var c := step.call;
    match step
    case Spawn(_, op) => if c in s.calls then s else Go(s, c, Entering(op))
    case Advance(_, poolOk) =>
      if c !in s.calls then s
      else
        match s.calls[c]
        case Entering(op) =>
          (match op
           case Start => EnterStart(s, c)
           case Stop => EnterStop(s, c)
           case Reload => EnterReload(s, c))
        case InPoolStart =>
          if poolOk then LeavePool(s, c) else Go(s.(phase := New, holder := None), c, Returned)
        case InPoolReload => LeavePool(s, c)
        case InPoolStop => Go(CompleteStop(s), c, Returned)
        case Parked(on) => if on in s.closed then Go(s, c, Returned) else s
        case Returned => s
  }

  function Run(s: State, steps: seq<Step>): State
    decreases |steps|
  {
    if steps == [] then s else Run(Next(s, steps[0]), steps[1..])
  }

  // ---------------------------------------------------------------- invariant

  predicate InPool(pc: Pc) {
    pc.InPoolStart? || pc.InPoolReload? || pc.InPoolStop?
  }

  predicate Transient(p: Phase) {
    p == Starting || p == Reloading || p == Stopping
  }

  predicate Matches(pc: Pc, p: Phase) {
    match p
    case Starting => pc.InPoolStart?
    case Reloading => pc.InPoolReload?
    case Stopping => pc.InPoolStop?
    case _ => false
  }

  predicate CallOk(s: State, c: CallId)
    requires c in s.calls
  {
    && (InPool(s.calls[c]) ==> s.holder == Some(c))
    && (s.calls[c].Parked? ==> s.calls[c].on in s.closed || s.stopDone == Some(s.calls[c].on))
  }

  /** What the lock protects, in every run, failed starts included. */
  predicate LockedOk(s: State) {
    && (s.phase == Running ==> !s.stopRequested)
    && (s.phase == Stopping ==> s.stopDone.Some?)
    && (s.stopDone.Some? ==> s.stopDone.value !in s.closed && s.stopDone.value < s.nextChannel)
    && (forall ch | ch in s.closed :: ch < s.nextChannel)
    && !s.panicked
    && (s.holder.Some? <==> Transient(s.phase))
    && (s.holder.Some? ==> s.holder.value in s.calls && Matches(s.calls[s.holder.value], s.phase))
  }

  ghost predicate Inv(s: State) {
    LockedOk(s) && forall c | c in s.calls :: CallOk(s, c)
  }

  lemma NextKeepsInv(s: State, step: Step)
    requires Inv(s)
    ensures Inv(Next(s, step))
  {
    NextKeepsLocked(s, step);
    forall c | c in Next(s, step).calls
      ensures CallOk(Next(s, step), c)
    {
      if c == step.call {
        NextKeepsOwnCall(s, step);
      } else {
        NextKeepsOtherCall(s, step, c);
      }
    }
  }

  lemma NextKeepsLocked(s: State, step: Step)
    requires LockedOk(s) && (step.call in s.calls ==> CallOk(s, step.call))
    ensures LockedOk(Next(s, step))
  {
    if step.Advance? && step.call in s.calls && s.calls[step.call].Entering? {
      EnteringKeepsLocked(s, step);
    }
  }

  lemma EnteringKeepsLocked(s: State, step: Step)
    requires LockedOk(s) && step.Advance? && step.call in s.calls && CallOk(s, step.call)
    requires s.calls[step.call].Entering?
    ensures LockedOk(Next(s, step))
  {
  }

  lemma NextKeepsOwnCall(s: State, step: Step)
    requires LockedOk(s) && (step.call in s.calls ==> CallOk(s, step.call))
    requires step.call in Next(s, step).calls
    ensures CallOk(Next(s, step), step.call)
  {
  }

  lemma NextKeepsOtherCall(s: State, step: Step, c: CallId)
    requires LockedOk(s) && (step.call in s.calls ==> CallOk(s, step.call))
    requires c in s.calls && CallOk(s, c) && c != step.call
    ensures c in Next(s, step).calls && CallOk(Next(s, step), c)
  {
  }

  // ---------------------------------------------------------------- what each call does

  /** Everything but the call's own place is as it was. */
  predicate OnlyMoved(s: State, t: State, c: CallId, pc: Pc) {
    t == s.(calls := s.calls[c := pc])
  }

  /** A Start takes the pool from New, and returns at once from any other phase. */
  lemma StartEnters(s: State, c: CallId, poolOk: bool)
    requires Inv(s) && c in s.calls && s.calls[c] == Entering(Start)
    ensures var t := Next(s, Advance(c, poolOk));
            if s.phase == New then
              && t.phase == Starting && t.holder == Some(c) && t.calls == s.calls[c := InPoolStart]
              && !t.stopRequested && t.stopDone == s.stopDone && t.closed == s.closed
            else OnlyMoved(s, t, c, Returned)
  {
  }

  /** A Reload takes the pool from Running, and returns at once from any other phase. */
  lemma ReloadEnters(s: State, c: CallId, poolOk: bool)
    requires Inv(s) && c in s.calls && s.calls[c] == Entering(Reload)
    ensures var t := Next(s, Advance(c, poolOk));
            if s.phase == Running then
              t == s.(phase := Reloading, holder := Some(c), calls := s.calls[c := InPoolReload])
            else OnlyMoved(s, t, c, Returned)
  {
  }

  /**
   A Stop takes the pool from Running; it waits for the call in the pool, which it asks to
   stop, or for the Stop already there; and it has nothing to do in New, which becomes
   Stopped, and in Stopped.
   */
  lemma StopEnters(s: State, c: CallId, poolOk: bool)
    requires Inv(s) && c in s.calls && s.calls[c] == Entering(Stop)
    ensures var t := Next(s, Advance(c, poolOk));
            && t.closed == s.closed
            && match s.phase
               case New => t == s.(phase := Stopped, stopRequested := false, calls := s.calls[c := Returned])
               case Starting | Reloading =>
                 && t.phase == s.phase && t.holder == s.holder && t.stopRequested && t.stopDone.Some?
                 && (s.stopDone.Some? ==> t.stopDone == s.stopDone)
                 && t.calls == s.calls[c := Parked(t.stopDone.value)]
               case Running =>
                 && t.phase == Stopping && t.holder == Some(c) && t.stopRequested && t.stopDone.Some?
                 && t.calls == s.calls[c := InPoolStop]
               case Stopping =>
                 t == s.(calls := s.calls[c := Parked(s.stopDone.value)])
               case Stopped => OnlyMoved(s, t, c, Returned)
  {
  }

  /** Back from a pool start or reload, the call leaves the executor Running, or goes on to stop the pool if asked to. */
  lemma PoolCallComesBack(s: State, c: CallId, poolOk: bool)
    requires Inv(s) && c in s.calls && (s.calls[c].InPoolStart? || s.calls[c].InPoolReload?)
    ensures var t := Next(s, Advance(c, poolOk));
            if s.calls[c].InPoolStart? && !poolOk then
              t == s.(phase := New, holder := None, calls := s.calls[c := Returned])
            else if s.stopRequested then
              && t.phase == Stopping && t.holder == Some(c) && t.calls == s.calls[c := InPoolStop]
              && t.stopDone.Some? && (s.stopDone.Some? ==> t.stopDone == s.stopDone) && t.closed == s.closed
            else
              t == s.(phase := Running, holder := None, calls := s.calls[c := Returned])
  {
    assert CallOk(s, c);
  }

  /** Back from the pool's stop, the call closes the channel; a parked call then returns, and not before. */
  lemma StopComesBack(s: State, c: CallId, poolOk: bool)
    requires Inv(s) && c in s.calls
    ensures var t := Next(s, Advance(c, poolOk));
            && (s.calls[c].InPoolStop? ==>
                  && t.phase == Stopped && !t.stopRequested && t.stopDone == None && t.holder == None
                  && s.stopDone.Some? && t.closed == s.closed + {s.stopDone.value}
                  && t.calls == s.calls[c := Returned])
            && (s.calls[c].Parked? ==> if s.calls[c].on in s.closed then OnlyMoved(s, t, c, Returned) else t == s)
            && (s.calls[c].Returned? ==> t == s)
  {
    assert CallOk(s, c);
  }

  /** A Start, a Reload and a Stop, one after the other, take the executor through its life. */
  lemma UndisturbedLife(s: State, c: CallId)
    requires s == FRESH
    ensures var start := [Spawn(c, Start), Advance(c, true), Advance(c, true)];
            var reload := [Spawn(c + 1, Reload), Advance(c + 1, true)];
            var back := [Advance(c + 1, true)];
            var stop := [Spawn(c + 2, Stop), Advance(c + 2, true), Advance(c + 2, true)];
            && Run(s, start).phase == Running
            && Run(Run(s, start), reload).phase == Reloading
            && Run(Run(Run(s, start), reload), back).phase == Running
            && Run(Run(Run(Run(s, start), reload), back), stop).phase == Stopped
  {
    var start := [Spawn(c, Start), Advance(c, true), Advance(c, true)];
    var reload := [Spawn(c + 1, Reload), Advance(c + 1, true)];
    var back := [Advance(c + 1, true)];
    var stop := [Spawn(c + 2, Stop), Advance(c + 2, true), Advance(c + 2, true)];
    RunThree(s, start[0], start[1], start[2]);
    var s1 := Run(s, start);
    assert reload[1..] == [reload[1]] && reload[1..][1..] == [];
    assert Run(s1, reload) == Run(Next(s1, reload[0]), [reload[1]]);
    var s2 := Next(Next(s1, reload[0]), reload[1]);
    assert Run(Next(s1, reload[0]), [reload[1]]) == Run(s2, []);
    var s3 := Next(s2, back[0]);
    assert Run(s2, back) == Run(s3, []);
    RunThree(s3, stop[0], stop[1], stop[2]);
  }

  lemma RunThree(s: State, a: Step, b: Step, c: Step)
    ensures Run(s, [a, b, c]) == Next(Next(Next(s, a), b), c)
  {
    var steps := [a, b, c];
    assert steps[1..] == [b, c] && steps[1..][1..] == [c] && steps[1..][1..][1..] == [];
    assert Run(Next(s, a), [b, c]) == Run(Next(Next(s, a), b), [c]);
    assert Run(Next(Next(s, a), b), [c]) == Run(Next(Next(Next(s, a), b), c), []);
  }

  /**
   In all interleavings, failed starts included: Running implies that no stop is
   pending, so the stop check of Reload never fires; Stopping implies a live
   stopDone; no channel is closed twice; and exactly one call is inside the pool while
   the phase is transient.
   */
  lemma {:induction false} RunKeepsInv(s: State, steps: seq<Step>)
    requires Inv(s)
    ensures Inv(Run(s, steps))
    decreases |steps|
  {
    if steps != [] {
      NextKeepsInv(s, steps[0]);
      RunKeepsInv(Next(s, steps[0]), steps[1..]);
    }
  }

  /** Stopped is absorbing, and nothing is closed any more. */
  lemma {:induction false} StoppedIsAbsorbing(s: State, steps: seq<Step>)
    requires Inv(s) && s.phase == Stopped
    ensures var t := Run(s, steps);
            t.phase == Stopped && t.stopDone == s.stopDone && t.closed == s.closed
    decreases |steps|
  {
    if steps != [] {
      NextKeepsInv(s, steps[0]);
      StoppedIsAbsorbing(Next(s, steps[0]), steps[1..]);
    }
  }

  // ---------------------------------------------------------------- parked stops

  /** A live stopDone, on which a Stop may be parked, belongs to a stop that somebody will complete. */
  predicate Healthy(s: State) {
    && (s.stopDone.Some? ==> s.phase == Stopping || ((s.phase == Starting || s.phase == Reloading) && s.stopRequested))
    && (s.stopRequested ==> s.stopDone.Some?)
  }

  /** pool.start fails although a stop has been requested meanwhile. */
  predicate StartFailsUnderStop(s: State, step: Step) {
    step.Advance? && !step.poolOk && step.call in s.calls && s.calls[step.call].InPoolStart? && s.stopRequested
  }

  /** The one way in which a live channel falls out of the charge of a pending stop. */
  lemma HealthIsLostExactlyByFailedStart(s: State, step: Step)
    requires Inv(s) && Healthy(s)
    ensures Healthy(Next(s, step)) <==> !StartFailsUnderStop(s, step)
  {
  }

  predicate NoFailedStartUnderStop(s: State, steps: seq<Step>)
    decreases |steps|
  {
    steps != [] ==> !StartFailsUnderStop(s, steps[0]) && NoFailedStartUnderStop(Next(s, steps[0]), steps[1..])
  }

  predicate StaysHealthy(s: State, steps: seq<Step>)
    decreases |steps|
  {
    Healthy(s) && (steps != [] ==> StaysHealthy(Next(s, steps[0]), steps[1..]))
  }

  /** A run keeps every parked Stop in good hands exactly when no pool start fails under a requested stop. */
  lemma {:induction false} HealthyIffNoFailedStartUnderStop(s: State, steps: seq<Step>)
    requires Inv(s) && Healthy(s)
    ensures StaysHealthy(s, steps) <==> NoFailedStartUnderStop(s, steps)
    decreases |steps|
  {
    if steps != [] {
      NextKeepsInv(s, steps[0]);
      HealthIsLostExactlyByFailedStart(s, steps[0]);
      if Healthy(Next(s, steps[0])) {
        HealthyIffNoFailedStartUnderStop(Next(s, steps[0]), steps[1..]);
      }
    }
  }

  /** In a healthy run, every Stop parked when the executor is Stopped has been released. */
  lemma {:induction false} StoppedReleasesEveryParkedStop(s: State, steps: seq<Step>)
    requires Inv(s) && Healthy(s) && NoFailedStartUnderStop(s, steps)
    ensures var t := Run(s, steps);
            t.phase == Stopped ==> forall c | c in t.calls && t.calls[c].Parked? :: t.calls[c].on in t.closed
    decreases |steps|
  {
    if steps == [] {
      assert forall c | c in s.calls :: CallOk(s, c);
    } else {
      NextKeepsInv(s, steps[0]);
      HealthIsLostExactlyByFailedStart(s, steps[0]);
      StoppedReleasesEveryParkedStop(Next(s, steps[0]), steps[1..]);
    }
  }

  // ---------------------------------------------------------------- which runs release every parked Stop

  predicate IsParked(s: State, c: CallId, ch: Channel) {
    c in s.calls && s.calls[c] == Parked(ch)
  }

  /** Outside Stopping, a live channel exists only because some Stop is parked on it. */
  ghost predicate LiveMeansParked(s: State) {
    s.stopDone.Some? && s.phase != Stopping ==> exists c :: IsParked(s, c, s.stopDone.value)
  }

  /** A Stop finds the phase New, where it has nothing to stop, and leaves a live channel behind. */
  predicate AbandonsStop(s: State, step: Step) {
    step.Advance? && step.call in s.calls && s.calls[step.call] == Entering(Stop) && s.phase == New && s.stopDone.Some?
  }

  predicate NeverAbandons(s: State, steps: seq<Step>)
    decreases |steps|
  {
    steps != [] ==> !AbandonsStop(s, steps[0]) && NeverAbandons(Next(s, steps[0]), steps[1..])
  }

  ghost predicate AllReleased(s: State) {
    forall c | c in s.calls && s.calls[c].Parked? :: s.calls[c].on in s.closed
  }

  /** A parked call moves on only after its channel was closed. */
  lemma ParkedStays(s: State, step: Step, c: CallId, ch: Channel)
    requires IsParked(s, c, ch) && ch !in s.closed
    ensures IsParked(Next(s, step), c, ch)
  {
  }

  lemma NextKeepsLive(s: State, step: Step)
    requires Inv(s) && LiveMeansParked(s)
    ensures LiveMeansParked(Next(s, step))
  {
    var t := Next(s, step);
    assert step.call in s.calls ==> CallOk(s, step.call);
    if t.stopDone.Some? && t.phase != Stopping {
      if t.stopDone == s.stopDone {
        var c :| IsParked(s, c, s.stopDone.value);
        ParkedStays(s, step, c, s.stopDone.value);
      } else {
        assert IsParked(t, step.call, t.stopDone.value);
      }
    }
  }

  /** A Stopped executor with a live channel leaves the Stop that is parked on it for ever. */
  lemma {:induction false} StoppedKeepsParked(s: State, steps: seq<Step>, c: CallId, ch: Channel)
    requires Inv(s) && s.phase == Stopped && IsParked(s, c, ch) && ch !in s.closed
    ensures IsParked(Run(s, steps), c, ch) && ch !in Run(s, steps).closed
    decreases |steps|
  {
    if steps != [] {
      NextKeepsInv(s, steps[0]);
      StoppedIsAbsorbing(s, [steps[0]]);
      assert Run(Next(s, steps[0]), [steps[0]][1..]) == Next(s, steps[0]);
      ParkedStays(s, steps[0], c, ch);
      StoppedKeepsParked(Next(s, steps[0]), steps[1..], c, ch);
    }
  }

  /** Only a Stop that abandons another reaches Stopped with a live channel. */
  lemma StoppedLosesChannel(s: State, step: Step)
    requires Inv(s) && (s.phase == Stopped ==> s.stopDone.None?)
    ensures var t := Next(s, step); t.phase == Stopped ==> (t.stopDone.None? <==> !AbandonsStop(s, step))
  {
  }

  /**
   A run that ends in Stopped has released every parked Stop exactly when no Stop on the
   way found the phase New with a live channel.
   */
  lemma {:induction false} StoppedReleasesAllIffNeverAbandons(s: State, steps: seq<Step>)
    requires Inv(s) && LiveMeansParked(s) && (s.phase == Stopped ==> s.stopDone.None?)
    requires Run(s, steps).phase == Stopped
    ensures AllReleased(Run(s, steps)) <==> NeverAbandons(s, steps)
    decreases |steps|
  {
    if steps == [] {
      assert forall c | c in s.calls :: CallOk(s, c);
    } else {
      var t := Next(s, steps[0]);
      NextKeepsInv(s, steps[0]);
      NextKeepsLive(s, steps[0]);
      StoppedLosesChannel(s, steps[0]);
      if AbandonsStop(s, steps[0]) {
        var c :| IsParked(t, c, t.stopDone.value);
        StoppedKeepsParked(t, steps[1..], c, t.stopDone.value);
      } else {
        StoppedReleasesAllIffNeverAbandons(t, steps[1..]);
      }
    }
  }

  /** The same for the runs of a new executor. */
  lemma StoppedReleasesAllFromFresh(steps: seq<Step>)
    requires Run(FRESH, steps).phase == Stopped
    ensures AllReleased(Run(FRESH, steps)) <==> NeverAbandons(FRESH, steps)
  {
    StoppedReleasesAllIffNeverAbandons(FRESH, steps);
  }

  /** Pool operations that have to finish before a parked Stop is released. */
  function Left(s: State): nat {
    match s.phase
    case Starting | Reloading => 2
    case Stopping => 1
    case _ => 0
  }

  function CountAdvances(steps: seq<Step>, call: CallId): nat
    decreases |steps|
  {
    if steps == [] then 0
    else (if steps[0].Advance? && steps[0].call == call then 1 else 0) + CountAdvances(steps[1..], call)
  }

  /** Other calls leave the parked channel and the work to do alone; the call in the pool brings the release nearer. */
  lemma HolderStepBringsRelease(s: State, step: Step)
    requires Inv(s) && Healthy(s) && s.stopDone.Some? && !StartFailsUnderStop(s, step)
    ensures var t := Next(s, step);
            if step.Advance? && s.holder == Some(step.call) then
              && Left(t) == Left(s) - 1
              && (if Left(t) == 0 then s.stopDone.value in t.closed else t.stopDone == s.stopDone && t.holder == s.holder)
            else Left(t) == Left(s) && t.stopDone == s.stopDone && t.holder == s.holder
  {
    assert step.call in s.calls ==> CallOk(s, step.call);
  }

  lemma {:induction false} ClosedStaysClosed(s: State, steps: seq<Step>)
    ensures s.closed <= Run(s, steps).closed
    decreases |steps|
  {
    if steps != [] {
      ClosedStaysClosed(Next(s, steps[0]), steps[1..]);
    }
  }

  /**
   A parked Stop is released as soon as the call inside the pool has come back from
   it, at most twice, whatever all other calls do in between.
   */
  lemma {:induction false} ParkedStopIsReleased(s: State, steps: seq<Step>)
    requires Inv(s) && Healthy(s) && s.stopDone.Some? && NoFailedStartUnderStop(s, steps)
    ensures s.holder.Some? && 1 <= Left(s) <= 2
    ensures CountAdvances(steps, s.holder.value) >= Left(s) ==> s.stopDone.value in Run(s, steps).closed
    decreases |steps|
  {
    if steps != [] {
      var t := Next(s, steps[0]);
      HolderStepBringsRelease(s, steps[0]);
      if Left(t) == 0 {
        ClosedStaysClosed(t, steps[1..]);
      } else {
        NextKeepsInv(s, steps[0]);
        HealthIsLostExactlyByFailedStart(s, steps[0]);
        ParkedStopIsReleased(t, steps[1..]);
      }
    }
  }

  /** A Stop during Starting, a failing pool start, and a second Stop: the first Stop is parked for ever. */
  const STRANDING: seq<Step> :=
    [Spawn(0, Start), Advance(0, true), Spawn(1, Stop), Advance(1, true), Advance(0, false),
     Spawn(2, Stop), Advance(2, true)]

  lemma FailedStartStrandsParkedStop(steps: seq<Step>)
    ensures var s := Run(FRESH, STRANDING);
            var t := Run(s, steps);
            && s.phase == Stopped && 1 in s.calls && s.calls[1] == Parked(0)
            && t.phase == Stopped && 0 !in t.closed
  {
    var e := STRANDING;
    var s1 := Next(FRESH, e[0]);
    var s2 := Next(s1, e[1]);
    var s3 := Next(s2, e[2]);
    var s4 := Next(s3, e[3]);
    var s5 := Next(s4, e[4]);
    var s6 := Next(s5, e[5]);
    var s7 := Next(s6, e[6]);
    RunUnrolls(FRESH, e);
    RunUnrolls(s1, e[1..]);
    RunUnrolls(s2, e[2..]);
    RunUnrolls(s3, e[3..]);
    RunUnrolls(s4, e[4..]);
    RunUnrolls(s5, e[5..]);
    RunUnrolls(s6, e[6..]);
    assert Run(FRESH, e) == s7;
    RunKeepsInv(FRESH, e);
    StoppedIsAbsorbing(s7, steps);
  }

  lemma RunUnrolls(s: State, steps: seq<Step>)
    requires steps != []
    ensures Run(s, steps) == Run(Next(s, steps[0]), steps[1..])
    ensures |steps| == 1 ==> Run(s, steps) == Next(s, steps[0])
    ensures |steps| > 1 ==> steps[1..][0] == steps[1]
  {
  }

  // ---------------------------------------------------------------- the executor

  class JsExecutor {
    var phase: Phase
    var stopRequested: bool
    var stopDone: Option<Channel>
    var nextChannel: Channel
    var closed: set<Channel>
    ghost var panicked: bool
    var calls: map<CallId, Pc>
    ghost var holder: Option<CallId>

    ghost function View(): State
      reads this
    {
      State(phase, stopRequested, stopDone, nextChannel, closed, panicked, calls, holder)
    }

    constructor ()
      ensures View() == FRESH
    {
      phase, stopRequested, stopDone, nextChannel, closed, panicked := New, false, None, 0, {}, false;
      calls, holder := map[], None;
    }

    method EnsureStopDoneLocked() returns (done: Channel)
      modifies this`stopDone, this`nextChannel
      ensures View() == EnsureStopDone(old(View())) && stopDone == Some(done)
    {
      if stopDone.None? {
        stopDone, nextChannel := Some(nextChannel), nextChannel + 1;
      }
      done := stopDone.value;
    }

    method CompleteStopLocked()
      modifies this
      ensures View() == CompleteStop(old(View()))
    {
      stopRequested := false;
      phase := Stopped;
      holder := None;
      if stopDone.Some? {
        panicked := panicked || stopDone.value in closed;
        closed := closed + {stopDone.value};
        stopDone := None;
      }
    }

    /** Start, up to the call of pool.start. */
    method BeginStart(c: CallId)
      modifies this
      ensures View() == EnterStart(old(View()), c)
    {
      match phase {
        case New =>
          stopRequested := false;
          phase := Starting;
          holder := Some(c);
          calls := calls[c := InPoolStart];
        case _ =>
          calls := calls[c := Returned];
      }
    }

    /** Stop, up to the call of pool.stop or the wait for stopDone. */
    method BeginStop(c: CallId)
      modifies this
      ensures View() == EnterStop(old(View()), c)
    {
      match phase {
        case New =>
          stopRequested := false;
          phase := Stopped;
          calls := calls[c := Returned];
        case Starting | Reloading =>
          var done := EnsureStopDoneLocked();
          stopRequested := true;
          calls := calls[c := Parked(done)];
        case Running =>
          stopRequested := true;
          var _ := EnsureStopDoneLocked();
          phase := Stopping;
          holder := Some(c);
          calls := calls[c := InPoolStop];
        case Stopping =>
          var done := EnsureStopDoneLocked();
          calls := calls[c := Parked(done)];
        case Stopped =>
          calls := calls[c := Returned];
      }
    }

    /** Reload, up to the call of pool.reload. */
    method BeginReload(c: CallId)
      modifies this
      ensures View() == EnterReload(old(View()), c)
    {
      if phase == Running {
        if stopRequested {
          calls := calls[c := Returned];
        } else {
          phase := Reloading;
          holder := Some(c);
          calls := calls[c := InPoolReload];
        }
      } else {
        calls := calls[c := Returned];
      }
    }

    /** Start and Reload, back from the pool. */
    method AfterPool(c: CallId)
      modifies this
      ensures View() == LeavePool(old(View()), c)
    {
      if stopRequested {
        var _ := EnsureStopDoneLocked();
        phase := Stopping;
        calls := calls[c := InPoolStop];
      } else {
        phase := Running;
        holder := None;
        calls := calls[c := Returned];
      }
    }

    /** Lets one call take its next stretch under the lock. */
    method Continue(c: CallId, poolOk: bool)
      requires c in calls && Inv(View())
      modifies this
      ensures View() == Next(old(View()), Advance(c, poolOk)) && Inv(View())
    {
      NextKeepsInv(View(), Advance(c, poolOk));
      match calls[c] {
        case Entering(Start) => BeginStart(c);
        case Entering(Stop) => BeginStop(c);
        case Entering(Reload) => BeginReload(c);
        case InPoolStart =>
          if poolOk {
            AfterPool(c);
          } else {
            phase := New;
            holder := None;
            calls := calls[c := Returned];
          }
        case InPoolReload => AfterPool(c);
        case InPoolStop =>
          CompleteStopLocked();
          calls := calls[c := Returned];
        case Parked(on) =>
          if on in closed {
            calls := calls[c := Returned];
          }
        case Returned =>
      }
    }
  }
}
