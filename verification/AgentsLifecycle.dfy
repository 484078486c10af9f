/**
 The persistent-agents feature's lifecycle (main/src/persistentAgentsComposition.ts):
 start, stop and config events in any order over the inbound pump, the outbox, the
 connector wiring and the two retention timers. The pump arms its interval only after
 boot recovery, through callbacks that may run after later starts and stops.
 */
module AgentsLifecycle {
  import opened Options

  datatype Action =
    | Requeue | Snapshot
    | StartPump | StartOutbox | StartWiring
    | StopPump | StopOutbox | StopWiring
    | DisposeAll | EmitStatus

  predicate IsServiceStart(a: Action) {
    a.StartPump? || a.StartOutbox? || a.StartWiring?
  }

  /** The boot requeue's promise: the services wait for it. */
  datatype Recovery = NotBegun | InFlight | Settled

  type TimerId = int

  /** `arms`: the epochs of the arm callbacks still waiting for recovery, oldest first. */
  datatype Pump = Pump(started: bool, epoch: nat, arms: seq<nat>, timer: Option<TimerId>, live: set<TimerId>, created: TimerId)

  /** Handles as the composition holds them, and whether the runtime still has the timers. */
  datatype Retention = Retention(firstHandle: bool, intervalHandle: bool, firstPending: bool, intervalLive: bool, armings: nat)

  /** What happened, for the statements below: no step reads it. */
  datatype History = History(sample: Option<bool>, everStopped: bool, stoppedSinceBoot: bool, firstFired: bool)

  datatype Core = Core(
    started: bool,
    booted: bool,
    paused: bool,
    listeners: nat,
    pump: Pump,
    outboxOpen: bool,
    hasWiring: bool,
    wiringOn: bool,
    retention: Retention,
    recovery: Recovery,
    log: seq<Action>,
    history: History)

  /** A new composition. The outbox worker is constructed open. */
  function New(hasWiring: bool): Core {
    Core(false, false, false, 0, Pump(false, 0, [], None, {}, 0), true, hasWiring, false,
         Retention(false, false, false, false, 0), NotBegun, [], History(None, false, false, false))
  }

  // ----- the pump -----

  function PumpStarted(p: Pump): Pump {
    if p.started then p
    else p.(started := true, epoch := p.epoch + 1, arms := p.arms + [p.epoch + 1])
  }

  function PumpStopped(p: Pump): Pump {
    p.(epoch := p.epoch + 1, started := false,
       live := if p.timer.Some? then p.live - {p.timer.value} else p.live, timer := None)
  }

  /** The oldest arm callback runs. */
  function PumpArmed(p: Pump): Pump
    requires p.arms != []
  {
    var rest := p.(arms := p.arms[1..]);
    if !p.started || p.arms[0] != p.epoch then rest
    else rest.(timer := Some(p.created), live := p.live + {p.created}, created := p.created + 1)
  }

  // ----- the lifecycle -----

  function ServicesStarted(c: Core): Core {
    c.(pump := PumpStarted(c.pump), outboxOpen := true, wiringOn := c.hasWiring,
       log := c.log + [StartPump, StartOutbox] + (if c.hasWiring then [StartWiring] else []))
  }

  function ServicesStopped(c: Core): Core {
    c.(pump := PumpStopped(c.pump), outboxOpen := false, wiringOn := false,
       log := c.log + [StopPump, StopOutbox] + (if c.hasWiring then [StopWiring] else []))
  }

  function Booted(c: Core): Core {
    var recovering := c.(booted := true, paused := false, recovery := InFlight, log := c.log + [Requeue, Snapshot]);
    ServicesStarted(recovering).(
      retention := Retention(true, true, true, true, c.retention.armings + 1))
  }

  function Paused(c: Core): Core {
    if !c.booted || c.paused then c else ServicesStopped(c.(paused := true))
  }

  function Resumed(c: Core): Core {
    if !c.booted || !c.paused then c else ServicesStarted(c.(paused := false))
  }

  function Wake(c: Core): Core {
    if !c.booted then Booted(c) else Resumed(c)
  }

  function Emitted(c: Core, running: bool): Core {
    c.(log := c.log + [EmitStatus], history := c.history.(sample := Some(running)))
  }

  function ConfigHandled(c: Core, running: bool): Core {
    Emitted(if running then Wake(c) else Paused(c), running)
  }

  /** One call per registered listener. */
  function ConfigDelivered(c: Core, running: bool, times: nat): Core {
    if times == 0 then c else ConfigHandled(ConfigDelivered(c, running, times - 1), running)
  }

  function Started(c: Core, running: bool): Core {
    if c.started then c
    else
      var listening := c.(started := true, listeners := c.listeners + 1);
      Emitted(if running then Wake(listening) else listening, running)
  }

  function Detached(c: Core): Core {
    c.(listeners := if c.listeners > 0 then c.listeners - 1 else 0, started := false, paused := c.paused || c.booted)
  }

  function TimersCleared(c: Core): Core {
    var r := c.retention;
    c.(retention := Retention(false, false, r.firstPending && !r.firstHandle, r.intervalLive && !r.intervalHandle, r.armings),
       history := c.history.(everStopped := true, stoppedSinceBoot := c.booted))
  }

  function Disposed(c: Core): Core {
    c.(log := c.log + [DisposeAll])
  }

  function Stopped(c: Core): Core {
    TimersCleared(Disposed(ServicesStopped(Detached(c))))
  }

  datatype Event =
    | Start(running: bool)       // with what running() answers at that moment
    | Stop
    | ConfigUpdated(running: bool)
    | RecoverySettles            // the boot requeue resolves
    | ArmRuns                    // one waiting arm callback runs
    | FirstSweepFires            // the one-shot retention timer fires

  predicate Possible(c: Core, e: Event) {
    match e
    case RecoverySettles => c.recovery == InFlight
    case ArmRuns => c.recovery == Settled && c.pump.arms != []
    case FirstSweepFires => c.retention.firstPending
    case _ => true
  }

  function After(c: Core, e: Event): Core
    requires Possible(c, e)
  {
    match e
    case Start(running) => Started(c, running)
    case Stop => Stopped(c)
    case ConfigUpdated(running) => ConfigDelivered(c, running, c.listeners)
    case RecoverySettles => c.(recovery := Settled)
    case ArmRuns => c.(pump := PumpArmed(c.pump))
    case FirstSweepFires =>
      c.(retention := c.retention.(firstPending := false), history := c.history.(firstFired := true))
  }

  function Run(c: Core, events: seq<Event>): Core {
    if events == [] then c
    else
      var before, e := Run(c, events[..|events| - 1]), events[|events| - 1];
      if Possible(before, e) then After(before, e) else before
  }

  // ----- what every run keeps -----

  predicate Active(c: Core) {
    c.booted && !c.paused
  }

  predicate ServicesInStep(c: Core) {
    && (c.pump.started <==> Active(c))
    && (c.wiringOn <==> c.hasWiring && Active(c))
    && (c.outboxOpen <==> Active(c) || (!c.booted && !c.history.everStopped))
  }

  predicate FollowsConfig(c: Core) {
    && c.listeners == (if c.started then 1 else 0)
    && (c.started ==> c.history.sample == Some(Active(c)))
    && (!c.started ==> !Active(c))
  }

  /** The boot's requeue and snapshot are entries `k` and `k + 1`, and no service started before. */
  predicate BootAt(log: seq<Action>, k: nat) {
    && k + 1 < |log| && log[k] == Requeue && log[k + 1] == Snapshot
    && (forall i | 0 <= i < |log| :: (log[i] == Requeue ==> i == k) && (log[i] == Snapshot ==> i == k + 1))
    && (forall i | 0 <= i < k :: !IsServiceStart(log[i]))
  }

  predicate NoBoot(log: seq<Action>) {
    forall i | 0 <= i < |log| :: log[i] != Requeue && log[i] != Snapshot && !IsServiceStart(log[i])
  }

  predicate BootsOnceAndFirst(c: Core) {
    if c.booted then exists k: nat | k < |c.log| :: BootAt(c.log, k) else NoBoot(c.log)
  }

  predicate RetentionInStep(c: Core) {
    && (c.retention.intervalLive <==> c.booted && !c.history.stoppedSinceBoot)
    && (c.retention.firstPending <==> c.booted && !c.history.stoppedSinceBoot && !c.history.firstFired)
    && (c.retention.intervalHandle <==> c.retention.intervalLive)
    && (c.retention.firstHandle <==> c.retention.intervalLive)
    && c.retention.armings == (if c.booted then 1 else 0)
    && (!c.booted ==> !c.history.stoppedSinceBoot && !c.history.firstFired)
  }

  function Current(arms: seq<nat>, epoch: nat): nat {
    if arms == [] then 0 else (if arms[0] == epoch then 1 else 0) + Current(arms[1..], epoch)
  }

  /** At most one interval is alive, and a started pump has it or one callback that will create it. */
  predicate PumpConsistent(p: Pump, recovery: Recovery) {
    && p.live == (if p.timer.Some? then {p.timer.value} else {})
    && (forall i | 0 <= i < |p.arms| :: p.arms[i] <= p.epoch)
    && Current(p.arms, p.epoch) == (if p.started && p.timer.None? then 1 else 0)
    && (p.timer.Some? ==> p.started && recovery == Settled)
  }

  predicate PumpInStep(c: Core) {
    PumpConsistent(c.pump, c.recovery) && (c.booted <==> c.recovery != NotBegun)
  }

  predicate RunInvariant(c: Core) {
    && ServicesInStep(c)
    && FollowsConfig(c)
    && BootsOnceAndFirst(c)
    && RetentionInStep(c)
    && PumpInStep(c)
  }

  // ----- the pump's callbacks -----

  lemma {:induction false} CurrentAppend(arms: seq<nat>, e: nat, epoch: nat)
    ensures Current(arms + [e], epoch) == Current(arms, epoch) + (if e == epoch then 1 else 0)
  {
    if arms != [] {
      CurrentAppend(arms[1..], e, epoch);
      assert (arms + [e])[1..] == arms[1..] + [e];
    } else {
      assert (arms + [e])[1..] == [];
    }
  }

  lemma {:induction false} NoneCurrent(arms: seq<nat>, epoch: nat)
    requires forall i | 0 <= i < |arms| :: arms[i] < epoch
    ensures Current(arms, epoch) == 0
  {
    if arms != [] {
      NoneCurrent(arms[1..], epoch);
    }
  }

  lemma PumpStartKeeps(c: Core, d: Core)
    requires PumpInStep(c)
    requires d.pump == PumpStarted(c.pump) && (d.booted <==> d.recovery != NotBegun)
    requires c.pump.started ==> d.recovery == c.recovery
    ensures PumpInStep(d)
  {
    if !c.pump.started {
      NoneCurrent(c.pump.arms, c.pump.epoch + 1);
      CurrentAppend(c.pump.arms, c.pump.epoch + 1, c.pump.epoch + 1);
    }
  }

  lemma PumpStopKeeps(c: Core, d: Core)
    requires PumpInStep(c)
    requires d.pump == PumpStopped(c.pump) && d.recovery == c.recovery && d.booted == c.booted
    ensures PumpInStep(d)
  {
    NoneCurrent(c.pump.arms, c.pump.epoch + 1);
  }

  // ----- the log -----

  lemma LogGrowsWithoutBoot(c: Core, d: Core, more: seq<Action>)
    requires BootsOnceAndFirst(c) && d.log == c.log + more && d.booted == c.booted
    requires forall i | 0 <= i < |more| :: more[i] != Requeue && more[i] != Snapshot
    requires !c.booted ==> forall i | 0 <= i < |more| :: !IsServiceStart(more[i])
    ensures BootsOnceAndFirst(d)
  {
    if c.booted {
      var k: nat :| k < |c.log| && BootAt(c.log, k);
      assert BootAt(d.log, k);
    }
  }

  lemma BootStartsTheLog(c: Core)
    requires BootsOnceAndFirst(c) && !c.booted
    ensures BootsOnceAndFirst(Booted(c))
  {
    var d := Booted(c);
    var k := |c.log|;
    assert d.log[..k] == c.log;
    assert BootAt(d.log, k);
  }

  // ----- each event -----

  /** What waking, pausing and stopping keep, before the composition records the event. */
  predicate Consistent(c: Core) {
    ServicesInStep(c) && BootsOnceAndFirst(c) && RetentionInStep(c) && PumpInStep(c)
  }

  lemma WakeKeeps(c: Core)
    requires Consistent(c)
    ensures Consistent(Wake(c)) && Active(Wake(c))
  {
    var d := Wake(c);
    if !c.booted {
      BootStartsTheLog(c);
      PumpStartKeeps(c, d);
    } else if c.paused {
      var more := [StartPump, StartOutbox] + (if c.hasWiring then [StartWiring] else []);
      assert d.log == c.log + more;
      LogGrowsWithoutBoot(c, d, more);
      PumpStartKeeps(c, d);
    }
  }

  lemma PauseKeeps(c: Core)
    requires Consistent(c)
    ensures Consistent(Paused(c)) && !Active(Paused(c))
  {
    var d := Paused(c);
    if Active(c) {
      var more := [StopPump, StopOutbox] + (if c.hasWiring then [StopWiring] else []);
      assert d.log == c.log + more;
      LogGrowsWithoutBoot(c, d, more);
      PumpStopKeeps(c, d);
    }
  }

  lemma EmitKeeps(c: Core, running: bool)
    requires Consistent(c)
    ensures Consistent(Emitted(c, running))
  {
    LogGrowsWithoutBoot(c, Emitted(c, running), [EmitStatus]);
  }

  lemma ConfigKeeps(c: Core, running: bool)
    requires RunInvariant(c)
    ensures RunInvariant(After(c, ConfigUpdated(running)))
    ensures After(c, ConfigUpdated(running)).hasWiring == c.hasWiring
  {
    if c.listeners == 1 {
      assert ConfigDelivered(c, running, 1) == ConfigHandled(ConfigDelivered(c, running, 0), running);
      if running {
        WakeKeeps(c);
        EmitKeeps(Wake(c), running);
      } else {
        PauseKeeps(c);
        EmitKeeps(Paused(c), running);
      }
    }
  }

  lemma StartKeeps(c: Core, running: bool)
    requires RunInvariant(c)
    ensures RunInvariant(After(c, Start(running)))
  {
    if !c.started {
      var listening := c.(started := true, listeners := c.listeners + 1);
      assert Consistent(listening);
      if running {
        WakeKeeps(listening);
        EmitKeeps(Wake(listening), running);
      } else {
        EmitKeeps(listening, running);
      }
    }
  }

  lemma StopKeeps(c: Core)
    requires RunInvariant(c)
    ensures RunInvariant(After(c, Stop))
  {
    var d := Stopped(c);
    var more := [StopPump, StopOutbox] + (if c.hasWiring then [StopWiring] else []) + [DisposeAll];
    assert d.log == c.log + more;
    LogGrowsWithoutBoot(c, d, more);
    PumpStopKeeps(c, d);
  }

  lemma QuietKeeps(c: Core, e: Event)
    requires RunInvariant(c) && Possible(c, e) && (e.RecoverySettles? || e.ArmRuns? || e.FirstSweepFires?)
    ensures RunInvariant(After(c, e)) && After(c, e).hasWiring == c.hasWiring
  {
    LogGrowsWithoutBoot(c, After(c, e), []);
  }

  lemma StepKeeps(c: Core, e: Event)
    requires RunInvariant(c) && Possible(c, e)
    ensures RunInvariant(After(c, e)) && After(c, e).hasWiring == c.hasWiring
  {
    match e
    case Start(running) => StartKeeps(c, running);
    case Stop => StopKeeps(c);
    case ConfigUpdated(running) => ConfigKeeps(c, running);
    case _ => QuietKeeps(c, e);
  }

  lemma {:induction false} EveryRunKeepsInvariant(hasWiring: bool, events: seq<Event>)
    ensures RunInvariant(Run(New(hasWiring), events))
    ensures Run(New(hasWiring), events).hasWiring == hasWiring
  {
    if events != [] {
      EveryRunKeepsInvariant(hasWiring, events[..|events| - 1]);
      var c, e := Run(New(hasWiring), events[..|events| - 1]), events[|events| - 1];
      if Possible(c, e) {
        StepKeeps(c, e);
      }
    }
  }

  // ----- the theorems -----

  /** The pump and the wiring run exactly while the feature is booted and not paused. */
  lemma ServicesFollowLifecycle(hasWiring: bool, events: seq<Event>)
    ensures var c := Run(New(hasWiring), events);
            && (c.pump.started <==> c.booted && !c.paused)
            && (c.wiringOn <==> hasWiring && c.booted && !c.paused)
            && (c.started ==> c.history.sample == Some(c.booted && !c.paused))
            && (!c.started ==> !c.pump.started && !c.wiringOn && c.listeners == 0)
            && (c.started ==> c.listeners == 1)
  {
    EveryRunKeepsInvariant(hasWiring, events);
  }

  /**
   The outbox is not that strict: it is constructed open, so until the first boot or the
   first stop it is open although nothing has started it.
   */
  lemma OutboxFollowsLifecycleIff(hasWiring: bool, events: seq<Event>)
    ensures var c := Run(New(hasWiring), events);
            (c.outboxOpen <==> c.booted && !c.paused) <==> c.booted || c.history.everStopped
    ensures New(hasWiring).outboxOpen && !Active(New(hasWiring))
  {
    EveryRunKeepsInvariant(hasWiring, events);
  }

  /** Boot runs at most once, and requeues and takes its snapshot before any service start. */
  lemma BootIsFirstAndOnce(hasWiring: bool, events: seq<Event>, i: nat)
    requires i < |Run(New(hasWiring), events).log|
    ensures var log := Run(New(hasWiring), events).log;
            && (log[i] == Requeue ==> forall j | 0 <= j < |log| && j != i :: log[j] != Requeue)
            && (IsServiceStart(log[i]) ==> exists k: nat | k + 1 < i :: BootAt(log, k))
  {
    EveryRunKeepsInvariant(hasWiring, events);
    var c := Run(New(hasWiring), events);
    if c.booted {
      var k: nat :| k < |c.log| && BootAt(c.log, k);
    }
  }

  /** The retention timers live from boot to the next stop, through every pause, and are never armed again. */
  lemma RetentionLivesUntilStop(hasWiring: bool, events: seq<Event>)
    ensures var c := Run(New(hasWiring), events);
            && (c.retention.intervalLive <==> c.booted && !c.history.stoppedSinceBoot)
            && (c.retention.firstPending <==> c.retention.intervalLive && !c.history.firstFired)
            && c.retention.armings <= 1
  {
    EveryRunKeepsInvariant(hasWiring, events);
  }

  lemma {:induction false} StoppedStaysRecorded(c: Core, events: seq<Event>)
    requires c.booted && c.history.stoppedSinceBoot
    ensures Run(c, events).booted && Run(c, events).history.stoppedSinceBoot
  {
    if events != [] {
      StoppedStaysRecorded(c, events[..|events| - 1]);
      var before, e := Run(c, events[..|events| - 1]), events[|events| - 1];
      if e.ConfigUpdated? {
        DeliveryKeepsHistory(before, e.running, before.listeners);
      }
    }
  }

  lemma {:induction false} DeliveryKeepsHistory(c: Core, running: bool, times: nat)
    requires c.booted
    ensures ConfigDelivered(c, running, times).booted
    ensures ConfigDelivered(c, running, times).history.stoppedSinceBoot == c.history.stoppedSinceBoot
  {
    if times > 0 {
      DeliveryKeepsHistory(c, running, times - 1);
    }
  }

  lemma {:induction false} RunSplits(c: Core, a: seq<Event>, b: seq<Event>)
    ensures Run(c, a + b) == Run(Run(c, a), b)
  {
    if b == [] {
      assert a + b == a;
    } else {
      RunSplits(c, a, b[..|b| - 1]);
      assert (a + b)[..|a + b| - 1] == a + b[..|b| - 1];
    }
  }

  /** Once a booted feature has been stopped, no later event brings the retention timers back. */
  lemma NoRetentionAfterStop(hasWiring: bool, before: seq<Event>, later: seq<Event>)
    requires Run(New(hasWiring), before).booted
    ensures var c := Run(New(hasWiring), before + [Stop] + later);
            !c.retention.intervalLive && !c.retention.firstPending
  {
    var stopped := Run(New(hasWiring), before + [Stop]);
    assert (before + [Stop])[..|before|] == before;
    assert stopped == Stopped(Run(New(hasWiring), before));
    StoppedStaysRecorded(stopped, later);
    RunSplits(New(hasWiring), before + [Stop], later);
    EveryRunKeepsInvariant(hasWiring, before + [Stop] + later);
  }

  /**
   However starts, stops and late arm callbacks interleave, at most one pump interval is
   alive, only while the pump runs and after recovery; and once recovery has settled and the
   callbacks have run, a running pump has exactly one.
   */
  lemma PumpHasOneInterval(hasWiring: bool, events: seq<Event>)
    ensures var c := Run(New(hasWiring), events);
            && |c.pump.live| <= 1
            && (c.pump.live != {} ==> c.pump.started && c.recovery == Settled)
            && (c.pump.arms == [] && c.pump.started ==> |c.pump.live| == 1)
  {
    EveryRunKeepsInvariant(hasWiring, events);
  }

  lemma RunOneMore(hasWiring: bool, events: seq<Event>, e: Event)
    ensures var c := Run(New(hasWiring), events);
            Run(New(hasWiring), events + [e]) == if Possible(c, e) then After(c, e) else c
  {
    assert (events + [e])[..|events|] == events;
  }

  lemma {:induction false} ArmsRunDry(hasWiring: bool, events: seq<Event>) returns (more: seq<Event>)
    requires Run(New(hasWiring), events).pump.started && Run(New(hasWiring), events).recovery == Settled
    ensures forall e | e in more :: e == ArmRuns
    ensures var c := Run(New(hasWiring), events + more); c.pump.started && c.pump.arms == []
    decreases |Run(New(hasWiring), events).pump.arms|
  {
    if Run(New(hasWiring), events).pump.arms == [] {
      assert events + [] == events;
      return [];
    }
    RunOneMore(hasWiring, events, ArmRuns);
    var rest := ArmsRunDry(hasWiring, events + [ArmRuns]);
    more := [ArmRuns] + rest;
    assert events + more == events + [ArmRuns] + rest;
  }

  /** A running pump is never left without its interval: once recovery settles and the waiting callbacks run, it has exactly one. */
  lemma RunningPumpGetsItsInterval(hasWiring: bool, events: seq<Event>) returns (more: seq<Event>)
    requires Run(New(hasWiring), events).pump.started
    ensures forall e | e in more :: e == RecoverySettles || e == ArmRuns
    ensures var c := Run(New(hasWiring), events + more); c.pump.started && |c.pump.live| == 1
  {
    EveryRunKeepsInvariant(hasWiring, events);
    var settled := events;
    if Run(New(hasWiring), events).recovery == InFlight {
      RunOneMore(hasWiring, events, RecoverySettles);
      settled := events + [RecoverySettles];
    }
    var rest := ArmsRunDry(hasWiring, settled);
    more := settled[|events|..] + rest;
    assert events + more == settled + rest;
    PumpHasOneInterval(hasWiring, settled + rest);
  }

  // ----- the same, read off the events alone -----

  /** Started, and not stopped since. */
  predicate On(events: seq<Event>) {
    if events == [] then false
    else
      match events[|events| - 1]
      case Start(_) => true
      case Stop => false
      case _ => On(events[..|events| - 1])
  }

  /** The last event asks whether the feature runs: a start that is the first, or a config change while started. */
  predicate Asks(events: seq<Event>) {
    events != [] &&
    var before, e := events[..|events| - 1], events[|events| - 1];
    (e.Start? && !On(before)) || (e.ConfigUpdated? && On(before))
  }

  /** The latest answer. */
  function LastSample(events: seq<Event>): Option<bool> {
    if events == [] then None
    else if Asks(events) then Some(events[|events| - 1].running)
    else LastSample(events[..|events| - 1])
  }

  predicate EverRan(events: seq<Event>) {
    events != [] && (EverRan(events[..|events| - 1]) || (Asks(events) && events[|events| - 1].running))
  }

  /** Stopped after it first ran. */
  predicate StoppedAfter(events: seq<Event>) {
    events != [] && (StoppedAfter(events[..|events| - 1]) || (events[|events| - 1].Stop? && EverRan(events[..|events| - 1])))
  }

  predicate Swept(events: seq<Event>) {
    events != [] &&
    var before := events[..|events| - 1];
    Swept(before) || (events[|events| - 1].FirstSweepFires? && EverRan(before) && !StoppedAfter(before))
  }

  function Samples(events: seq<Event>): nat {
    if events == [] then 0 else Samples(events[..|events| - 1]) + if Asks(events) then 1 else 0
  }

  function Stops(events: seq<Event>): nat {
    if events == [] then 0 else Stops(events[..|events| - 1]) + if events[|events| - 1].Stop? then 1 else 0
  }

  function Count(log: seq<Action>, a: Action): nat {
    if log == [] then 0 else Count(log[..|log| - 1], a) + if log[|log| - 1] == a then 1 else 0
  }

  lemma {:induction false} CountSplits(log: seq<Action>, more: seq<Action>, a: Action)
    ensures Count(log + more, a) == Count(log, a) + Count(more, a)
  {
    if more == [] {
      assert log + more == log;
    } else {
      CountSplits(log, more[..|more| - 1], a);
      assert (log + more)[..|log + more| - 1] == log + more[..|more| - 1];
    }
  }

  predicate Runs(events: seq<Event>) {
    On(events) && LastSample(events) == Some(true)
  }

  predicate Agrees(c: Core, events: seq<Event>) {
    && (c.started <==> On(events))
    && (c.booted <==> EverRan(events))
    && (c.paused <==> EverRan(events) && !Runs(events))
    && c.history.sample == LastSample(events)
    && (c.history.everStopped <==> Stop in events)
    && (c.history.stoppedSinceBoot <==> StoppedAfter(events))
    && (c.history.firstFired <==> Swept(events))
  }

  predicate Counts(c: Core, events: seq<Event>) {
    Count(c.log, EmitStatus) == Samples(events) && Count(c.log, DisposeAll) == Stops(events)
  }

  /** What one more event adds to the reading of the events. */
  lemma ReadOneMore(events: seq<Event>, e: Event)
    ensures var more, asks := events + [e], (e.Start? && !On(events)) || (e.ConfigUpdated? && On(events));
            && On(more) == (if e.Start? then true else if e.Stop? then false else On(events))
            && Asks(more) == asks
            && LastSample(more) == (if asks then Some(e.running) else LastSample(events))
            && EverRan(more) == (EverRan(events) || (asks && e.running))
            && StoppedAfter(more) == (StoppedAfter(events) || (e.Stop? && EverRan(events)))
            && Swept(more) == (Swept(events) || (e.FirstSweepFires? && EverRan(events) && !StoppedAfter(events)))
            && Samples(more) == Samples(events) + (if asks then 1 else 0)
            && Stops(more) == Stops(events) + (if e.Stop? then 1 else 0)
            && (Stop in more <==> Stop in events || e == Stop)
  {
    assert (events + [e])[..|events|] == events;
  }

  lemma OneDelivery(c: Core, running: bool)
    ensures ConfigDelivered(c, running, 1) == ConfigHandled(c, running)
  {
    assert ConfigDelivered(c, running, 1) == ConfigHandled(ConfigDelivered(c, running, 0), running);
  }

  lemma AgreesStep(c: Core, events: seq<Event>, e: Event)
    requires RunInvariant(c) && Agrees(c, events)
    ensures Agrees(if Possible(c, e) then After(c, e) else c, events + [e])
  {
    ReadOneMore(events, e);
    if e.ConfigUpdated? && c.started {
      OneDelivery(c, e.running);
    }
  }

  /** The steps' entries of the log that are no status and no disposal. */
  lemma QuietEntries(c: Core)
    ensures Count(Wake(c).log, EmitStatus) == Count(c.log, EmitStatus) && Count(Wake(c).log, DisposeAll) == Count(c.log, DisposeAll)
    ensures Count(Paused(c).log, EmitStatus) == Count(c.log, EmitStatus) && Count(Paused(c).log, DisposeAll) == Count(c.log, DisposeAll)
    ensures Count(ServicesStopped(c).log, EmitStatus) == Count(c.log, EmitStatus)
    ensures Count(ServicesStopped(c).log, DisposeAll) == Count(c.log, DisposeAll)
  {
    QuietStarts(c, EmitStatus);
    QuietStarts(c, DisposeAll);
    QuietStops(c, EmitStatus);
    QuietStops(c, DisposeAll);
  }

  lemma {:induction false} NoneOf(more: seq<Action>, a: Action)
    requires a !in more
    ensures Count(more, a) == 0
  {
    if more != [] {
      assert more[|more| - 1] in more;
      NoneOf(more[..|more| - 1], a);
    }
  }

  lemma QuietStarts(c: Core, a: Action)
    requires a == EmitStatus || a == DisposeAll
    ensures Count(Wake(c).log, a) == Count(c.log, a)
  {
    var services := [StartPump, StartOutbox] + if c.hasWiring then [StartWiring] else [];
    NoneOf(services, a);
    NoneOf([Requeue, Snapshot], a);
    CountSplits(c.log, [Requeue, Snapshot], a);
    CountSplits(c.log + [Requeue, Snapshot], services, a);
    CountSplits(c.log, services, a);
    assert c.log + [Requeue, Snapshot] + [StartPump, StartOutbox] + (if c.hasWiring then [StartWiring] else [])
        == c.log + [Requeue, Snapshot] + services;
    assert c.log + [StartPump, StartOutbox] + (if c.hasWiring then [StartWiring] else []) == c.log + services;
  }

  lemma QuietStops(c: Core, a: Action)
    requires a == EmitStatus || a == DisposeAll
    ensures Count(ServicesStopped(c).log, a) == Count(c.log, a) && Count(Paused(c).log, a) == Count(c.log, a)
  {
    var services := [StopPump, StopOutbox] + if c.hasWiring then [StopWiring] else [];
    NoneOf(services, a);
    CountSplits(c.log, services, a);
    assert c.log + [StopPump, StopOutbox] + (if c.hasWiring then [StopWiring] else []) == c.log + services;
  }

  lemma CountOne(log: seq<Action>, b: Action, a: Action)
    ensures Count(log + [b], a) == Count(log, a) + if a == b then 1 else 0
  {
    assert (log + [b])[..|log|] == log;
  }

  lemma EmittedCounts(c: Core, running: bool)
    ensures Count(Emitted(c, running).log, EmitStatus) == Count(c.log, EmitStatus) + 1
    ensures Count(Emitted(c, running).log, DisposeAll) == Count(c.log, DisposeAll)
  {
    CountOne(c.log, EmitStatus, EmitStatus);
    CountOne(c.log, EmitStatus, DisposeAll);
  }

  lemma AnswerCounts(c: Core, running: bool)
    ensures Count(ConfigHandled(c, running).log, EmitStatus) == Count(c.log, EmitStatus) + 1
    ensures Count(ConfigHandled(c, running).log, DisposeAll) == Count(c.log, DisposeAll)
  {
    QuietEntries(c);
    EmittedCounts(if running then Wake(c) else Paused(c), running);
  }

  lemma StartCounts(c: Core, running: bool)
    requires !c.started
    ensures Count(Started(c, running).log, EmitStatus) == Count(c.log, EmitStatus) + 1
    ensures Count(Started(c, running).log, DisposeAll) == Count(c.log, DisposeAll)
  {
    var listening := c.(started := true, listeners := c.listeners + 1);
    QuietEntries(listening);
    EmittedCounts(if running then Wake(listening) else listening, running);
  }

  lemma StopCounts(c: Core)
    ensures Count(Stopped(c).log, EmitStatus) == Count(c.log, EmitStatus)
    ensures Count(Stopped(c).log, DisposeAll) == Count(c.log, DisposeAll) + 1
  {
    var stopped := ServicesStopped(Detached(c));
    QuietEntries(Detached(c));
    CountOne(stopped.log, DisposeAll, EmitStatus);
    CountOne(stopped.log, DisposeAll, DisposeAll);
    assert Stopped(c).log == stopped.log + [DisposeAll];
  }

  /** What one event adds to the two counts. */
  lemma EventCounts(c: Core, e: Event)
    requires Possible(c, e) && c.listeners == (if c.started then 1 else 0)
    ensures Count(After(c, e).log, EmitStatus)
         == Count(c.log, EmitStatus) + if (e.Start? && !c.started) || (e.ConfigUpdated? && c.started) then 1 else 0
    ensures Count(After(c, e).log, DisposeAll) == Count(c.log, DisposeAll) + if e.Stop? then 1 else 0
  {
    if e.Start? && !c.started {
      StartCounts(c, e.running);
    } else if e.ConfigUpdated? && c.started {
      OneDelivery(c, e.running);
      AnswerCounts(c, e.running);
    } else if e.Stop? {
      StopCounts(c);
    }
  }

  lemma CountsStep(c: Core, events: seq<Event>, e: Event)
    requires RunInvariant(c) && Agrees(c, events) && Counts(c, events)
    ensures Counts(if Possible(c, e) then After(c, e) else c, events + [e])
  {
    ReadOneMore(events, e);
    if Possible(c, e) {
      EventCounts(c, e);
    }
  }

  lemma {:induction false} EveryRunAgrees(hasWiring: bool, events: seq<Event>)
    ensures Agrees(Run(New(hasWiring), events), events) && Counts(Run(New(hasWiring), events), events)
  {
    if events != [] {
      var before, e := events[..|events| - 1], events[|events| - 1];
      EveryRunAgrees(hasWiring, before);
      EveryRunKeepsInvariant(hasWiring, before);
      AgreesStep(Run(New(hasWiring), before), before, e);
      CountsStep(Run(New(hasWiring), before), before, e);
      assert events == before + [e];
    }
  }

  /**
   The whole feature by its events: pump and wiring run exactly while it is started and the latest answer was yes; the
   retention interval lives from the first yes to the next stop; every answer is announced once and every stop disposes once.
   */
  lemma LifecycleByEvents(hasWiring: bool, events: seq<Event>)
    ensures var c := Run(New(hasWiring), events);
            && (c.pump.started <==> Runs(events))
            && (c.wiringOn <==> hasWiring && Runs(events))
            && (c.outboxOpen <==> Runs(events) || (!EverRan(events) && Stop !in events))
            && c.listeners == (if On(events) then 1 else 0)
            && (c.retention.intervalLive <==> EverRan(events) && !StoppedAfter(events))
            && (c.retention.firstPending <==> EverRan(events) && !StoppedAfter(events) && !Swept(events))
            && c.retention.armings == (if EverRan(events) then 1 else 0)
            && Count(c.log, EmitStatus) == Samples(events)
            && Count(c.log, DisposeAll) == Stops(events)
  {
    EveryRunAgrees(hasWiring, events);
    EveryRunKeepsInvariant(hasWiring, events);
  }

  // ----- what the services were told -----

  /** The last of the two in the log: `true` for `on`. */
  function LastOf(log: seq<Action>, on: Action, off: Action): Option<bool> {
    if log == [] then None
    else if log[|log| - 1] == on then Some(true)
    else if log[|log| - 1] == off then Some(false)
    else LastOf(log[..|log| - 1], on, off)
  }

  lemma {:induction false} LastAfter(log: seq<Action>, more: seq<Action>, on: Action, off: Action)
    ensures LastOf(log + more, on, off) == if LastOf(more, on, off).Some? then LastOf(more, on, off) else LastOf(log, on, off)
  {
    if more == [] {
      assert log + more == log;
    } else {
      LastAfter(log, more[..|more| - 1], on, off);
      assert (log + more)[..|log + more| - 1] == log + more[..|more| - 1];
    }
  }

  lemma LastOfOne(a: Action, on: Action, off: Action)
    ensures LastOf([a], on, off) == if a == on then Some(true) else if a == off then Some(false) else None
  {
    assert [a][..0] == [];
  }

  lemma LastOfThree(a: Action, b: Action, third: Option<Action>, on: Action, off: Action)
    ensures LastOf([a, b] + (if third.Some? then [third.value] else []), on, off)
         == if third == Some(on) then Some(true) else if third == Some(off) then Some(false)
            else if b == on then Some(true) else if b == off then Some(false)
            else if a == on then Some(true) else if a == off then Some(false) else None
  {
    LastOfOne(a, on, off);
    LastOfOne(b, on, off);
    LastAfter([a], [b], on, off);
    assert [a] + [b] == [a, b];
    if third.Some? {
      LastOfOne(third.value, on, off);
      LastAfter([a, b], [third.value], on, off);
    } else {
      assert [a, b] + [] == [a, b];
    }
  }

  /** Each service is as it was last told; the outbox open until told otherwise. */
  predicate AsTold(c: Core) {
    && (c.pump.started <==> LastOf(c.log, StartPump, StopPump) == Some(true))
    && (c.outboxOpen <==> LastOf(c.log, StartOutbox, StopOutbox) != Some(false))
    && (c.wiringOn <==> LastOf(c.log, StartWiring, StopWiring) == Some(true))
  }

  lemma ToldStarted(c: Core)
    requires AsTold(c) && (c.wiringOn ==> c.hasWiring)
    ensures AsTold(ServicesStarted(c))
  {
    var third := if c.hasWiring then Some(StartWiring) else None;
    var more := [StartPump, StartOutbox] + if third.Some? then [third.value] else [];
    assert ServicesStarted(c).log == c.log + more;
    LastOfThree(StartPump, StartOutbox, third, StartPump, StopPump);
    LastOfThree(StartPump, StartOutbox, third, StartOutbox, StopOutbox);
    LastOfThree(StartPump, StartOutbox, third, StartWiring, StopWiring);
    LastAfter(c.log, more, StartPump, StopPump);
    LastAfter(c.log, more, StartOutbox, StopOutbox);
    LastAfter(c.log, more, StartWiring, StopWiring);
  }

  lemma ToldStopped(c: Core)
    requires AsTold(c) && (c.wiringOn ==> c.hasWiring)
    ensures AsTold(ServicesStopped(c))
  {
    var third := if c.hasWiring then Some(StopWiring) else None;
    var more := [StopPump, StopOutbox] + if third.Some? then [third.value] else [];
    assert ServicesStopped(c).log == c.log + more;
    LastOfThree(StopPump, StopOutbox, third, StartPump, StopPump);
    LastOfThree(StopPump, StopOutbox, third, StartOutbox, StopOutbox);
    LastOfThree(StopPump, StopOutbox, third, StartWiring, StopWiring);
    LastAfter(c.log, more, StartPump, StopPump);
    LastAfter(c.log, more, StartOutbox, StopOutbox);
    LastAfter(c.log, more, StartWiring, StopWiring);
  }

  /** Other entries tell the services nothing. */
  lemma ToldNothing(c: Core, d: Core, a: Action)
    requires AsTold(c) && a in {Requeue, Snapshot, DisposeAll, EmitStatus} && d.log == c.log + [a]
    requires d.pump.started == c.pump.started && d.outboxOpen == c.outboxOpen && d.wiringOn == c.wiringOn
    ensures AsTold(d)
  {
    assert d.log[..|c.log|] == c.log;
  }

  lemma ToldWake(c: Core)
    requires AsTold(c) && RunInvariant(c)
    ensures AsTold(Wake(c))
  {
    if !c.booted {
      var one := c.(log := c.log + [Requeue]);
      ToldNothing(c, one, Requeue);
      ToldNothing(one, one.(log := one.log + [Snapshot]), Snapshot);
      var recovering := c.(booted := true, paused := false, recovery := InFlight, log := c.log + [Requeue, Snapshot]);
      assert recovering.log == one.log + [Snapshot];
      ToldStarted(recovering);
    } else if c.paused {
      ToldStarted(c.(paused := false));
    }
  }

  lemma ToldStep(c: Core, e: Event)
    requires AsTold(c) && RunInvariant(c) && Possible(c, e)
    ensures AsTold(After(c, e))
  {
    match e
    case Start(running) =>
      if !c.started {
        var listening := c.(started := true, listeners := c.listeners + 1);
        ToldListening(c, listening);
        var woken := if running then Wake(listening) else listening;
        ToldNothing(woken, Emitted(woken, running), EmitStatus);
      }
    case ConfigUpdated(running) =>
      if c.started {
        OneDelivery(c, running);
        ToldWake(c);
        ToldStopped(c.(paused := true));
        var handled := if running then Wake(c) else Paused(c);
        ToldNothing(handled, Emitted(handled, running), EmitStatus);
      }
    case Stop =>
      ToldStopped(Detached(c));
      var stopped := ServicesStopped(Detached(c));
      ToldNothing(stopped, Disposed(stopped), DisposeAll);
    case _ =>
  }

  lemma ToldListening(c: Core, listening: Core)
    requires AsTold(c) && RunInvariant(c) && !c.started && listening == c.(started := true, listeners := c.listeners + 1)
    ensures AsTold(listening) && AsTold(Wake(listening))
  {
    ToldWake(c);
    assert Wake(listening) == Wake(c).(started := true, listeners := c.listeners + 1);
  }

  /** In every run each service is as the log last told it. */
  lemma {:induction false} ServicesAreAsTold(hasWiring: bool, events: seq<Event>)
    ensures AsTold(Run(New(hasWiring), events))
  {
    if events != [] {
      var before, e := events[..|events| - 1], events[|events| - 1];
      ServicesAreAsTold(hasWiring, before);
      EveryRunKeepsInvariant(hasWiring, before);
      if Possible(Run(New(hasWiring), before), e) {
        ToldStep(Run(New(hasWiring), before), e);
      }
    }
  }

  // ----- the composition in the source's own form -----

  class Composition {
    var started: bool
    var booted: bool
    var paused: bool
    var listeners: nat
    var pump: Pump
    var outboxOpen: bool
    const hasWiring: bool
    var wiringOn: bool
    var retention: Retention
    var recovery: Recovery
    var log: seq<Action>
    ghost var history: History

    ghost function View(): Core
      reads this
    {
      Core(started, booted, paused, listeners, pump, outboxOpen, hasWiring, wiringOn, retention, recovery, log, history)
    }

    constructor (hasWiring: bool)
      ensures View() == New(hasWiring)
    {
      started, booted, paused := false, false, false;
      listeners := 0;
      pump := Pump(false, 0, [], None, {}, 0);
      outboxOpen := true;
      this.hasWiring := hasWiring;
      wiringOn := false;
      retention := Retention(false, false, false, false, 0);
      recovery := NotBegun;
      log := [];
      history := History(None, false, false, false);
    }

    method StartServices()
      modifies this
      ensures View() == ServicesStarted(old(View()))
    {
      if !pump.started {
        pump := pump.(started := true, epoch := pump.epoch + 1, arms := pump.arms + [pump.epoch + 1]);
      }
      log := log + [StartPump];
      outboxOpen := true;
      log := log + [StartOutbox];
      if hasWiring {
        wiringOn := true;
        log := log + [StartWiring];
      } else {
        wiringOn := false;
      }
      assert log == old(log) + [StartPump, StartOutbox] + (if hasWiring then [StartWiring] else []);
    }

    method StopServices()
      modifies this
      ensures View() == ServicesStopped(old(View()))
    {
      if pump.timer.Some? {
        pump := pump.(live := pump.live - {pump.timer.value}, timer := None);
      }
      pump := pump.(epoch := pump.epoch + 1, started := false);
      log := log + [StopPump];
      outboxOpen := false;
      log := log + [StopOutbox];
      wiringOn := false;
      if hasWiring {
        log := log + [StopWiring];
      }
      assert log == old(log) + [StopPump, StopOutbox] + (if hasWiring then [StopWiring] else []);
    }

    method Boot()
      modifies this
      ensures View() == Booted(old(View()))
    {
      booted := true;
      paused := false;
      recovery := InFlight;
      log := log + [Requeue];
      log := log + [Snapshot];
      assert log == old(log) + [Requeue, Snapshot];
      StartServices();
      retention := Retention(true, true, true, true, retention.armings + 1);
    }

    method PauseAll()
      modifies this
      ensures View() == Paused(old(View()))
    {
      if !booted || paused {
        return;
      }
      paused := true;
      StopServices();
    }

    method ResumeAll()
      modifies this
      ensures View() == Resumed(old(View()))
    {
      if !booted || !paused {
        return;
      }
      paused := false;
      StartServices();
    }

    method OnConfig(running: bool)
      modifies this
      ensures View() == ConfigHandled(old(View()), running)
    {
      if running {
        if !booted {
          Boot();
        } else {
          ResumeAll();
        }
      } else {
        PauseAll();
      }
      log := log + [EmitStatus];
      history := history.(sample := Some(running));
    }

    method Start(running: bool)
      modifies this
      ensures View() == Started(old(View()), running)
    {
      if started {
        return;
      }
      started := true;
      listeners := listeners + 1;
      if running {
        if !booted {
          Boot();
        } else {
          ResumeAll();
        }
      }
      log := log + [EmitStatus];
      history := history.(sample := Some(running));
    }

    method ClearTimers()
      modifies this
      ensures View() == TimersCleared(old(View()))
    {
      if retention.firstHandle {
        retention := retention.(firstPending := false);
      }
      if retention.intervalHandle {
        retention := retention.(intervalLive := false);
      }
      retention := retention.(firstHandle := false, intervalHandle := false);
      history := history.(everStopped := true, stoppedSinceBoot := booted);
    }

    method Detach()
      modifies this
      ensures View() == Detached(old(View()))
    {
      if listeners > 0 {
        listeners := listeners - 1;
      }
      started := false;
      if booted {
        paused := true;
      }
    }

    method Stop()
      modifies this
      ensures View() == Stopped(old(View()))
    {
      Detach();
      StopServices();
      log := log + [DisposeAll];
      ClearTimers();
    }
  }
}
