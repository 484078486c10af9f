/**
 The two-pass quit (main/src/index.ts, main/src/services/quitDrain.ts and
 main/src/utils/relaunchIntent.ts): quit requests, archive-dialog answers, the race of the
 teardown against its deadline, the exit watchdog and graceful restarts, in any order.
 */
module QuitProtocol {
  import opened Options

  datatype Phase = Idle | Draining | Drained

  datatype Answer = Wait | QuitAnyway

  /** What the outside sees, in order. `Held` is preventDefault, `Passed` a quit let through. */
  datatype Effect =
    | UsageFlushed | SignInDisposed
    | DialogShown | QuitChosen | WaitChosen
    | Held | Passed
    | DrainStarted | Reissued
    | RestartAsked | RestartDropped | RestartArmed
    | ForcedExit

  /** One call of runQuitDrain. */
  datatype Race = Race(drainSettled: bool, deadlinePassed: bool, finished: bool)

  datatype Core = Core(phase: Phase, races: seq<Race>, watchdogs: nat, restart: bool, exited: bool, log: seq<Effect>)

  const NEW := Core(Idle, [], 0, false, false, [])

  /** `archiving`: the dialog's answer when archive tasks are active, else nothing. */
  datatype Event =
    | Quit(archiving: Option<Answer>)
    | GracefulRestart(archiving: Option<Answer>)
    | DrainSettles(race: nat)
    | DeadlinePasses(race: nat)
    | WatchdogFires

  function Logged(c: Core, more: seq<Effect>): Core {
    c.(log := c.log + more)
  }

  function Armed(c: Core): Core {
    if c.restart then Logged(c.(restart := false), [RestartArmed]) else c
  }

  function Exited(c: Core): Core {
    Logged(Armed(c).(exited := true), [ForcedExit])
  }

  /** The before-quit listener. */
  function BeforeQuit(c: Core, archiving: Option<Answer>): Core {
    match c.phase
    case Drained => Logged(c, [Passed])
    case Draining => Logged(c, [Held])
    case Idle =>
      var flushed := Logged(c, [UsageFlushed, SignInDisposed]);
      match archiving
      case Some(QuitAnyway) => Exited(Logged(flushed, [Held, DialogShown, QuitChosen]))
      case Some(Wait) => Logged(flushed.(restart := false), [Held, DialogShown, WaitChosen, RestartDropped])
      case None => Logged(flushed.(phase := Draining, races := c.races + [Race(false, false, false)]), [Held, DrainStarted])
  }

  /** `finish`, with the quit it re-issues, then the watchdog. */
  function Finished(c: Core, race: nat): Core
    requires race < |c.races|
  {
    var done := Armed(c.(phase := Drained, races := c.races[race := c.races[race].(finished := true)]));
    BeforeQuit(Logged(done, [Reissued]), None).(watchdogs := c.watchdogs + 1)
  }

  function Step(c: Core, e: Event): Core {
    if c.exited then c
    else match e
      case Quit(archiving) => BeforeQuit(c, archiving)
      case GracefulRestart(archiving) => BeforeQuit(Logged(c.(restart := true), [RestartAsked]), archiving)
      case DrainSettles(r) =>
        if r >= |c.races| || c.races[r].drainSettled then c
        else
          var settled := c.(races := c.races[r := c.races[r].(drainSettled := true)]);
          if c.races[r].finished then settled else Finished(settled, r)
      case DeadlinePasses(r) =>
        // the timer is cleared when the race is over
        if r >= |c.races| || c.races[r].deadlinePassed || c.races[r].finished then c
        else Finished(c.(races := c.races[r := c.races[r].(deadlinePassed := true)]), r)
      case WatchdogFires =>
        if c.watchdogs == 0 then c else Exited(c.(watchdogs := c.watchdogs - 1))
  }

  function Run(c: Core, events: seq<Event>): Core {
    if events == [] then c else Step(Run(c, events[..|events| - 1]), events[|events| - 1])
  }

  // ----- what a log can say -----

  /** A restart has been asked for and neither dropped nor armed since. */
  predicate Pending(log: seq<Effect>) {
    if log == [] then false
    else
      match log[|log| - 1]
      case RestartAsked => true
      case RestartDropped => false
      case RestartArmed => false
      case _ => Pending(log[..|log| - 1])
  }

  /** A restart has been asked for after the quit was re-issued. */
  predicate AskedAfterReissue(log: seq<Effect>) {
    if log == [] then false
    else AskedAfterReissue(log[..|log| - 1]) || (log[|log| - 1].RestartAsked? && Reissued in log[..|log| - 1])
  }

  /** What an entry needs to have before it. */
  predicate Justified(past: seq<Effect>, e: Effect) {
    && ForcedExit !in past
    && match e
       case DrainStarted => DrainStarted !in past
       case Reissued => DrainStarted in past && Reissued !in past && !Pending(past)
       case Passed => Reissued in past
       case UsageFlushed => DrainStarted !in past
       case SignInDisposed => DrainStarted !in past
       case DialogShown => DrainStarted !in past
       case QuitChosen => DrainStarted !in past
       case WaitChosen => DrainStarted !in past
       case RestartArmed => Pending(past)
       case RestartDropped => past != [] && past[|past| - 1] == WaitChosen
       case ForcedExit => !Pending(past) && (Reissued in past || (DrainStarted !in past && QuitChosen in past))
       case _ => true
  }

  predicate WellLogged(log: seq<Effect>) {
    if log == [] then true
    else WellLogged(log[..|log| - 1]) && Justified(log[..|log| - 1], log[|log| - 1])
  }

  /** The facts about a log that its next entry depends on. */
  datatype Facts = Facts(good: bool, pending: bool, late: bool, drain: bool, reissued: bool, passed: bool, chosen: bool, exited: bool, afterWait: bool)

  const NO_FACTS := Facts(true, false, false, false, false, false, false, false, false)

  function FactsOf(log: seq<Effect>): Facts {
    if log == [] then NO_FACTS else Next(FactsOf(log[..|log| - 1]), log[|log| - 1])
  }

  function Next(f: Facts, e: Effect): Facts {
    var ok := !f.exited && match e
      case DrainStarted => !f.drain
      case Reissued => f.drain && !f.reissued && !f.pending
      case Passed => f.reissued
      case UsageFlushed => !f.drain
      case SignInDisposed => !f.drain
      case DialogShown => !f.drain
      case QuitChosen => !f.drain
      case WaitChosen => !f.drain
      case RestartArmed => f.pending
      case RestartDropped => f.afterWait
      case ForcedExit => !f.pending && (f.reissued || (!f.drain && f.chosen))
      case _ => true;
    Facts(f.good && ok,
          if e.RestartAsked? then true else if e.RestartDropped? || e.RestartArmed? then false else f.pending,
          f.late || (e.RestartAsked? && f.reissued),
          f.drain || e.DrainStarted?, f.reissued || e.Reissued?, f.passed || e.Passed?, f.chosen || e.QuitChosen?,
          f.exited || e.ForcedExit?, e.WaitChosen?)
  }

  lemma FactsAfter(log: seq<Effect>, e: Effect)
    ensures FactsOf(log + [e]) == Next(FactsOf(log), e)
  {
    assert (log + [e])[..|log|] == log;
  }

  lemma FactsAfterTwo(log: seq<Effect>, a: Effect, b: Effect)
    ensures FactsOf(log + [a, b]) == Next(Next(FactsOf(log), a), b)
  {
    FactsAfter(log, a);
    FactsAfter(log + [a], b);
    assert log + [a] + [b] == log + [a, b];
  }

  /** The part of the invariant that relates the state to what has been seen. */
  predicate InStep(phase: Phase, races: seq<Race>, watchdogs: nat, restart: bool, exited: bool, f: Facts) {
    && f.good
    && restart == f.pending
    && exited == f.exited
    && phase.Idle? == (races == [])
    && phase.Idle? == !f.drain
    && |races| <= 1
    && phase.Draining? == (races != [] && !races[0].finished)
    && (phase.Draining? ==> !races[0].drainSettled && !races[0].deadlinePassed)
    && phase.Drained? == f.reissued
    && phase.Drained? == f.passed
    && watchdogs == (if phase.Drained? && !exited then 1 else 0)
    && (!f.reissued ==> !f.late)
    && (f.reissued && !exited ==> restart == f.late)
  }

  predicate RunInvariant(c: Core) {
    InStep(c.phase, c.races, c.watchdogs, c.restart, c.exited, FactsOf(c.log))
  }

  predicate Describes(f: Facts, log: seq<Effect>) {
    f == Facts(WellLogged(log), Pending(log), AskedAfterReissue(log), DrainStarted in log,
               Reissued in log, Passed in log, QuitChosen in log, ForcedExit in log,
               log != [] && log[|log| - 1] == WaitChosen)
  }

  lemma DescribesNext(f: Facts, past: seq<Effect>, e: Effect)
    requires Describes(f, past)
    ensures Describes(Next(f, e), past + [e])
  {
    assert (past + [e])[..|past|] == past;
  }

  lemma {:induction false} FactsMean(log: seq<Effect>)
    ensures Describes(FactsOf(log), log)
  {
    if log != [] {
      var past := log[..|log| - 1];
      FactsMean(past);
      DescribesNext(FactsOf(past), past, log[|log| - 1]);
      assert log == past + [log[|log| - 1]];
    }
  }

  lemma {:induction false} JustifiedAt(log: seq<Effect>, k: nat)
    requires WellLogged(log) && k < |log|
    ensures Justified(log[..k], log[k])
  {
    var past := log[..|log| - 1];
    if k < |log| - 1 {
      JustifiedAt(past, k);
      assert past[..k] == log[..k];
    }
  }

  // ----- every step keeps the invariant -----

  lemma ExitKeeps(c: Core)
    requires RunInvariant(c) && !c.exited && c.phase.Drained?
    ensures RunInvariant(Exited(c.(watchdogs := 0)))
  {
    ExitFacts(c);
  }

  lemma FlushedFacts(log: seq<Effect>)
    requires FactsOf(log).good && !FactsOf(log).exited && !FactsOf(log).drain
    ensures FactsOf(log + [UsageFlushed, SignInDisposed]) == FactsOf(log).(afterWait := false)
  {
    FactsAfterTwo(log, UsageFlushed, SignInDisposed);
  }

  lemma AskedFacts(log: seq<Effect>)
    requires FactsOf(log).good && !FactsOf(log).exited && !FactsOf(log).drain
    ensures FactsOf(log + [Held, DialogShown]) == FactsOf(log).(afterWait := false)
  {
    FactsAfterTwo(log, Held, DialogShown);
  }

  lemma FlushFacts(log: seq<Effect>)
    requires FactsOf(log).good && !FactsOf(log).exited && !FactsOf(log).drain
    ensures FactsOf(log + [UsageFlushed, SignInDisposed]) == FactsOf(log).(afterWait := false)
    ensures FactsOf(log + [UsageFlushed, SignInDisposed] + [Held, DialogShown]) == FactsOf(log).(afterWait := false)
  {
    FlushedFacts(log);
    AskedFacts(log + [UsageFlushed, SignInDisposed]);
  }

  lemma ExitFacts(c: Core)
    requires FactsOf(c.log).good && !FactsOf(c.log).exited && c.restart == FactsOf(c.log).pending
    requires FactsOf(c.log).reissued || (!FactsOf(c.log).drain && FactsOf(c.log).chosen)
    ensures FactsOf(Exited(c).log) == FactsOf(c.log).(pending := false, exited := true, afterWait := false)
  {
    FactsAfter(c.log, RestartArmed);
    FactsAfter(Armed(c).log, ForcedExit);
  }

  lemma QuitAnywayFacts(c: Core)
    requires !c.exited && c.phase.Idle? && FactsOf(c.log).good && !FactsOf(c.log).exited && !FactsOf(c.log).drain
    requires c.restart == FactsOf(c.log).pending
    ensures FactsOf(BeforeQuit(c, Some(QuitAnyway)).log) == FactsOf(c.log).(chosen := true, pending := false, exited := true, afterWait := false)
  {
    var asked := c.log + [UsageFlushed, SignInDisposed] + [Held, DialogShown];
    FlushFacts(c.log);
    FactsAfter(asked, QuitChosen);
    assert c.log + [UsageFlushed, SignInDisposed] + [Held, DialogShown, QuitChosen] == asked + [QuitChosen];
    ExitFacts(c.(log := asked + [QuitChosen]));
  }

  lemma WaitFacts(c: Core)
    requires !c.exited && c.phase.Idle? && FactsOf(c.log).good && !FactsOf(c.log).exited && !FactsOf(c.log).drain
    ensures FactsOf(BeforeQuit(c, Some(Wait)).log) == FactsOf(c.log).(pending := false, afterWait := false)
  {
    var asked := c.log + [UsageFlushed, SignInDisposed] + [Held, DialogShown];
    FlushFacts(c.log);
    FactsAfterTwo(asked, WaitChosen, RestartDropped);
    assert c.log + [UsageFlushed, SignInDisposed] + [Held, DialogShown, WaitChosen, RestartDropped]
        == asked + [WaitChosen, RestartDropped];
  }

  lemma FirstQuitKeeps(c: Core, archiving: Option<Answer>)
    requires RunInvariant(c) && !c.exited && c.phase.Idle?
    ensures RunInvariant(BeforeQuit(c, archiving))
  {
    match archiving
    case Some(QuitAnyway) => QuitAnywayFacts(c);
    case Some(Wait) => WaitFacts(c);
    case None =>
      FlushFacts(c.log);
      FactsAfterTwo(c.log + [UsageFlushed, SignInDisposed], Held, DrainStarted);
  }

  lemma QuitKeeps(c: Core, archiving: Option<Answer>)
    requires RunInvariant(c) && !c.exited
    ensures RunInvariant(BeforeQuit(c, archiving))
  {
    if c.phase.Idle? {
      FirstQuitKeeps(c, archiving);
    } else {
      FactsAfter(c.log, if c.phase.Drained? then Passed else Held);
    }
  }

  lemma ReissueFacts(log: seq<Effect>)
    requires !FactsOf(log).pending && FactsOf(log).good && !FactsOf(log).exited && FactsOf(log).drain && !FactsOf(log).reissued
    ensures FactsOf(log + [Reissued] + [Passed]) == FactsOf(log).(reissued := true, passed := true, afterWait := false)
  {
    FactsAfter(log, Reissued);
    FactsAfter(log + [Reissued], Passed);
  }

  lemma FinishFacts(c: Core)
    requires c.races != [] && FactsOf(c.log).good && !FactsOf(c.log).exited && FactsOf(c.log).drain && !FactsOf(c.log).reissued
    requires c.restart == FactsOf(c.log).pending
    ensures FactsOf(Finished(c, 0).log) == FactsOf(c.log).(pending := false, reissued := true, passed := true, afterWait := false)
  {
    FactsAfter(c.log, RestartArmed);
    ReissueFacts(Armed(c).log);
    assert Finished(c, 0).log == Armed(c).log + [Reissued] + [Passed];
  }

  /** The end of the teardown re-issues the quit and lets it through. */
  lemma FinishKeeps(c: Core, settled: Race)
    requires RunInvariant(c) && !c.exited && c.phase.Draining? && !settled.finished
    ensures RunInvariant(Finished(c.(races := c.races[0 := settled]), 0))
  {
    FinishFacts(c.(races := c.races[0 := settled]));
  }

  lemma AskKeeps(c: Core)
    requires RunInvariant(c) && !c.exited
    ensures RunInvariant(Logged(c.(restart := true), [RestartAsked]))
  {
    FactsAfter(c.log, RestartAsked);
  }

  lemma StepKeeps(c: Core, e: Event)
    requires RunInvariant(c)
    ensures RunInvariant(Step(c, e))
  {
    if !c.exited {
      match e
      case Quit(archiving) => QuitKeeps(c, archiving);
      case GracefulRestart(archiving) =>
        AskKeeps(c);
        QuitKeeps(Logged(c.(restart := true), [RestartAsked]), archiving);
      case DrainSettles(r) =>
        if r < |c.races| && !c.races[r].drainSettled && !c.races[r].finished {
          FinishKeeps(c, c.races[0].(drainSettled := true));
        }
      case DeadlinePasses(r) =>
        if r < |c.races| && !c.races[r].deadlinePassed && !c.races[r].finished {
          FinishKeeps(c, c.races[0].(deadlinePassed := true));
        }
      case WatchdogFires =>
        if c.watchdogs != 0 {
          ExitKeeps(c);
        }
    }
  }

  lemma {:induction false} EveryRunKeepsInvariant(events: seq<Event>)
    ensures RunInvariant(Run(NEW, events))
  {
    if events != [] {
      EveryRunKeepsInvariant(events[..|events| - 1]);
      StepKeeps(Run(NEW, events[..|events| - 1]), events[|events| - 1]);
    }
  }

  // ----- what holds in every run -----

  predicate AtMostOnce(log: seq<Effect>, e: Effect) {
    forall i, j :: 0 <= i < j < |log| ==> !(log[i] == e && log[j] == e)
  }

  lemma OnceByJustification(log: seq<Effect>, e: Effect)
    requires WellLogged(log) && (e.DrainStarted? || e.Reissued?)
    ensures AtMostOnce(log, e)
  {
    forall i, j | 0 <= i < j < |log| ensures !(log[i] == e && log[j] == e) {
      JustifiedAt(log, j);
      assert log[..j][i] == log[i];
    }
  }

  /** The teardown starts at most once and ends in at most one re-issued quit. */
  lemma DrainAndFinishOnce(events: seq<Event>)
    ensures AtMostOnce(Run(NEW, events).log, DrainStarted) && AtMostOnce(Run(NEW, events).log, Reissued)
    ensures |Run(NEW, events).races| <= 1
  {
    EveryRunKeepsInvariant(events);
    FactsMean(Run(NEW, events).log);
    OnceByJustification(Run(NEW, events).log, DrainStarted);
    OnceByJustification(Run(NEW, events).log, Reissued);
  }

  /** A quit goes through only after a teardown that was started and then over. */
  lemma PassesOnlyAfterDrain(events: seq<Event>, k: nat) returns (started: nat, reissued: nat)
    requires k < |Run(NEW, events).log| && Run(NEW, events).log[k] == Passed
    ensures var log := Run(NEW, events).log;
            started < reissued < k && log[started] == DrainStarted && log[reissued] == Reissued
  {
    EveryRunKeepsInvariant(events);
    FactsMean(Run(NEW, events).log);
    var log := Run(NEW, events).log;
    JustifiedAt(log, k);
    reissued :| 0 <= reissued < k && log[..k][reissued] == Reissued;
    JustifiedAt(log, reissued);
    started :| 0 <= started < reissued && log[..reissued][started] == DrainStarted;
  }

  /** Once the teardown has started, no request flushes, disposes or asks again. */
  lemma NothingRepeatsAfterDrain(events: seq<Event>, i: nat, j: nat)
    requires i < j < |Run(NEW, events).log| && Run(NEW, events).log[i] == DrainStarted
    ensures Run(NEW, events).log[j] !in {UsageFlushed, SignInDisposed, DialogShown, QuitChosen, WaitChosen, DrainStarted}
  {
    EveryRunKeepsInvariant(events);
    FactsMean(Run(NEW, events).log);
    var log := Run(NEW, events).log;
    JustifiedAt(log, j);
    assert log[..j][i] == DrainStarted;
  }

  lemma ExitIsLast(log: seq<Effect>)
    requires WellLogged(log)
    ensures forall k :: 0 <= k < |log| - 1 ==> log[k] != ForcedExit
  {
    forall k | 0 <= k < |log| - 1 ensures log[k] != ForcedExit {
      assert log[..|log| - 1][k] == log[k];
    }
  }

  /** The process ends either after a re-issued quit, or undrained because the user chose so in the dialog. */
  lemma ExitIsEarned(events: seq<Event>)
    requires Run(NEW, events).exited
    ensures var log := Run(NEW, events).log;
            Reissued in log || (DrainStarted !in log && QuitChosen in log)
  {
    EveryRunKeepsInvariant(events);
    var log := Run(NEW, events).log;
    FactsMean(log);
    var k :| 0 <= k < |log| && log[k] == ForcedExit;
    ExitIsLast(log);
    JustifiedAt(log, k);
    assert log == log[..k] + [ForcedExit];
  }

  function Progress(c: Core): nat {
    if c.exited then 3 else match c.phase case Idle => 0 case Draining => 1 case Drained => 2
  }

  lemma StepNeverRegresses(c: Core, e: Event)
    requires RunInvariant(c)
    ensures Progress(Step(c, e)) >= Progress(c)
  {
  }

  lemma {:induction false} RunNeverRegresses(a: seq<Event>, b: seq<Event>)
    ensures Progress(Run(NEW, a + b)) >= Progress(Run(NEW, a))
  {
    if b == [] {
      assert a + b == a;
    } else {
      var front := b[..|b| - 1];
      RunNeverRegresses(a, front);
      assert (a + b)[..|a + b| - 1] == a + front;
      EveryRunKeepsInvariant(a + front);
      StepNeverRegresses(Run(NEW, a + front), b[|b| - 1]);
    }
  }

  predicate Asks(e: Event) {
    (e.Quit? || e.GracefulRestart?) && e.archiving == None
  }

  lemma RunOneMore(events: seq<Event>, e: Event)
    ensures Run(NEW, events + [e]) == Step(Run(NEW, events), e)
  {
    assert (events + [e])[..|events|] == events;
  }

  /** Whatever came before (dialogs answered Wait, say): a request with no archive task is held and drains. */
  lemma RequestDrains(a: seq<Event>, request: Event)
    requires Asks(request)
    ensures Progress(Run(NEW, a + [request])) >= 1
  {
    EveryRunKeepsInvariant(a);
    RunOneMore(a, request);
  }

  lemma DeadlineLetsThrough(events: seq<Event>)
    requires Progress(Run(NEW, events)) >= 1
    ensures Progress(Run(NEW, events + [DeadlinePasses(0)])) >= 2
  {
    EveryRunKeepsInvariant(events);
    RunOneMore(events, DeadlinePasses(0));
  }

  lemma WatchdogEnds(events: seq<Event>)
    requires Progress(Run(NEW, events)) >= 2
    ensures Run(NEW, events + [WatchdogFires]).exited
  {
    EveryRunKeepsInvariant(events);
    RunOneMore(events, WatchdogFires);
  }

  lemma DrainedHasPassed(events: seq<Event>)
    requires Progress(Run(NEW, events)) >= 2
    ensures Passed in Run(NEW, events).log || Run(NEW, events).exited
  {
    EveryRunKeepsInvariant(events);
    FactsMean(Run(NEW, events).log);
  }

  /**
   Quitting cannot be prevented for good: after a request made with no archive task active, the
   deadline lets a quit through and the watchdog ends the process, whatever happens in between
   and whether or not the teardown ever settles.
   */
  lemma QuitIsInevitable(a: seq<Event>, request: Event, b: seq<Event>, c: seq<Event>)
    requires Asks(request)
    ensures var deadline := Run(NEW, a + [request] + b + [DeadlinePasses(0)]);
            Passed in deadline.log || deadline.exited
    ensures Run(NEW, a + [request] + b + [DeadlinePasses(0)] + c + [WatchdogFires]).exited
  {
    RequestDrains(a, request);
    RunNeverRegresses(a + [request], b);
    DeadlineLetsThrough(a + [request] + b);
    var two := a + [request] + b + [DeadlinePasses(0)];
    DrainedHasPassed(two);
    RunNeverRegresses(two, c);
    WatchdogEnds(two + c);
  }

  // ----- graceful restarts -----

  lemma {:induction false} PendingSince(log: seq<Effect>) returns (asked: nat)
    requires Pending(log)
    ensures asked < |log| && log[asked] == RestartAsked
    ensures forall j :: asked < j < |log| ==> log[j] !in {RestartDropped, RestartArmed}
  {
    if log[|log| - 1].RestartAsked? {
      asked := |log| - 1;
    } else {
      asked := PendingSince(log[..|log| - 1]);
    }
  }

  /** Each armed relaunch answers its own request, which no Wait has dropped since. */
  lemma ArmingAnswersRequest(events: seq<Event>, k: nat) returns (asked: nat)
    requires k < |Run(NEW, events).log| && Run(NEW, events).log[k] == RestartArmed
    ensures var log := Run(NEW, events).log;
            && asked < k && log[asked] == RestartAsked
            && forall j :: asked < j < k ==> log[j] !in {RestartDropped, RestartArmed}
  {
    EveryRunKeepsInvariant(events);
    FactsMean(Run(NEW, events).log);
    var log := Run(NEW, events).log;
    JustifiedAt(log, k);
    asked := PendingSince(log[..k]);
    forall j | asked < j < k ensures log[j] !in {RestartDropped, RestartArmed} {
      assert log[..k][j] == log[j];
    }
  }

  lemma DropFollowsWait(log: seq<Effect>, k: nat)
    requires WellLogged(log) && k < |log| && log[k] == RestartDropped
    ensures k > 0 && log[k - 1] == WaitChosen
  {
    JustifiedAt(log, k);
    assert log[..k][|log[..k]| - 1] == log[k - 1];
  }

  /** Only the answer Wait drops a requested restart. */
  lemma OnlyWaitDropsRestart(events: seq<Event>, k: nat)
    requires k < |Run(NEW, events).log| && Run(NEW, events).log[k] == RestartDropped
    ensures k > 0 && Run(NEW, events).log[k - 1] == WaitChosen
  {
    var log := Run(NEW, events).log;
    EveryRunKeepsInvariant(events);
    FactsMean(log);
    DropFollowsWait(log, k);
  }

  lemma {:induction false} NotPendingAfter(log: seq<Effect>, a: nat) returns (j: nat)
    requires a < |log| && log[a] == RestartAsked && !Pending(log)
    ensures a < j < |log| && log[j] in {RestartDropped, RestartArmed}
  {
    if log[|log| - 1] in {RestartDropped, RestartArmed} {
      j := |log| - 1;
    } else {
      j := NotPendingAfter(log[..|log| - 1], a);
    }
  }

  /** Between a requested restart that no Wait has dropped and the end, the relaunch is armed: before the quit is re-issued, or the process ended. */
  lemma RequestedRestartIsArmed(events: seq<Event>, a: nat, k: nat) returns (armed: nat)
    requires a < k < |Run(NEW, events).log|
    requires var log := Run(NEW, events).log;
             && log[a] == RestartAsked && log[k] in {Reissued, ForcedExit}
             && forall j :: a < j < k ==> log[j] != RestartDropped
    ensures a < armed < k && Run(NEW, events).log[armed] == RestartArmed
  {
    EveryRunKeepsInvariant(events);
    var log := Run(NEW, events).log;
    FactsMean(log);
    JustifiedAt(log, k);
    armed := NotPendingAfter(log[..k], a);
  }

  /**
   When the quit has been let through, a requested restart is still unarmed exactly if it was
   requested after the quit was re-issued; a forced exit leaves none.
   */
  lemma RestartForgottenIffLate(events: seq<Event>)
    requires Passed in Run(NEW, events).log
    ensures var c := Run(NEW, events);
            Pending(c.log) <==> !c.exited && AskedAfterReissue(c.log)
  {
    EveryRunKeepsInvariant(events);
    var log := Run(NEW, events).log;
    FactsMean(log);
    if Run(NEW, events).exited {
      ExitLeavesNoRestart(events);
    }
  }

  lemma {:induction false} ExitLeavesNoRestart(events: seq<Event>)
    ensures Run(NEW, events).exited ==> !Pending(Run(NEW, events).log)
  {
    if events != [] {
      var front := events[..|events| - 1];
      ExitLeavesNoRestart(front);
      EveryRunKeepsInvariant(front);
      EveryRunKeepsInvariant(events);
      FactsMean(Run(NEW, front).log);
      FactsMean(Run(NEW, events).log);
      assert Run(NEW, events).exited && !Run(NEW, front).exited ==> !Run(NEW, events).restart;
    }
  }

  /** The button is pressed between the re-issued quit and the end of the process. */
  lemma RestartCanBeForgotten()
    ensures Run(NEW, [Quit(None), DrainSettles(0), GracefulRestart(None)]).log
         == [UsageFlushed, SignInDisposed, Held, DrainStarted, Reissued, Passed, RestartAsked, Passed]
  {
    var one, two := [Quit(None)], [Quit(None), DrainSettles(0)];
    assert one == [] + one && two == one + [DrainSettles(0)];
    RunOneMore([], Quit(None));
    assert Run(NEW, one) == Core(Draining, [Race(false, false, false)], 0, false, false,
                                 [UsageFlushed, SignInDisposed, Held, DrainStarted]);
    RunOneMore(one, DrainSettles(0));
    assert Run(NEW, two).log == [UsageFlushed, SignInDisposed, Held, DrainStarted, Reissued, Passed];
    assert [Quit(None), DrainSettles(0), GracefulRestart(None)] == two + [GracefulRestart(None)];
    RunOneMore(two, GracefulRestart(None));
  }

  // ----- the whole protocol, read off the log -----

  function ArmedIf(pending: bool): seq<Effect> {
    if pending then [RestartArmed] else []
  }

  /** The answer to a request, by what has been seen so far. */
  function RequestAnswer(log: seq<Effect>, archiving: Option<Answer>): seq<Effect> {
    if Reissued in log then [Passed]
    else if DrainStarted in log then [Held]
    else
      match archiving
      case None => [UsageFlushed, SignInDisposed, Held, DrainStarted]
      case Some(Wait) => [UsageFlushed, SignInDisposed, Held, DialogShown, WaitChosen, RestartDropped]
      case Some(QuitAnyway) =>
        [UsageFlushed, SignInDisposed, Held, DialogShown, QuitChosen] + ArmedIf(Pending(log)) + [ForcedExit]
  }

  /** What an event adds to the log, by the log alone. */
  function Visible(log: seq<Effect>, e: Event): seq<Effect> {
    if ForcedExit in log then []
    else
      match e
      case Quit(archiving) => RequestAnswer(log, archiving)
      case GracefulRestart(archiving) => [RestartAsked] + RequestAnswer(log + [RestartAsked], archiving)
      case WatchdogFires => if Reissued in log then ArmedIf(Pending(log)) + [ForcedExit] else []
      case _ =>
        // the teardown or its deadline, whichever comes first
        if e.race == 0 && DrainStarted in log && Reissued !in log then ArmedIf(Pending(log)) + [Reissued, Passed] else []
  }

  lemma RequestShows(c: Core, archiving: Option<Answer>)
    requires RunInvariant(c) && !c.exited
    ensures BeforeQuit(c, archiving).log == c.log + RequestAnswer(c.log, archiving)
  {
    FactsMean(c.log);
  }

  lemma StepShows(c: Core, e: Event)
    requires RunInvariant(c)
    ensures Step(c, e).log == c.log + Visible(c.log, e)
  {
    FactsMean(c.log);
    if !c.exited {
      match e
      case Quit(archiving) => RequestShows(c, archiving);
      case GracefulRestart(archiving) =>
        AskKeeps(c);
        RequestShows(Logged(c.(restart := true), [RestartAsked]), archiving);
      case _ =>
    }
  }

  /** The log of every run is what these answers, each decided by the log before it, add up to: the states and races show nowhere else. */
  function Transcript(events: seq<Event>): seq<Effect> {
    if events == [] then []
    else
      var past := Transcript(events[..|events| - 1]);
      past + Visible(past, events[|events| - 1])
  }

  lemma {:induction false} EveryRunIsItsTranscript(events: seq<Event>)
    ensures Run(NEW, events).log == Transcript(events)
  {
    if events != [] {
      EveryRunIsItsTranscript(events[..|events| - 1]);
      EveryRunKeepsInvariant(events[..|events| - 1]);
      StepShows(Run(NEW, events[..|events| - 1]), events[|events| - 1]);
    }
  }

  // ----- the listener and its callbacks -----

  /** `quitDrainState`, the restart flag of relaunchIntent.ts, and what Electron and runQuitDrain hold. */
  class Application {
    var quitDrainState: Phase
    var requested: bool
    var races: seq<Race>
    var watchdogs: nat
    var gone: bool
    var log: seq<Effect>

    function Value(): Core
      reads this
    {
      Core(quitDrainState, races, watchdogs, requested, gone, log)
    }

    constructor ()
      ensures Value() == NEW
    {
      quitDrainState, requested, races, watchdogs, gone, log := Idle, false, [], 0, false, [];
    }

    method RequestRelaunchOnQuit()
      modifies this
      ensures Value() == Logged(old(Value()).(restart := true), [RestartAsked])
    {
      requested := true;
      log := log + [RestartAsked];
    }

    method ArmRelaunchIfRequested()
      modifies this
      ensures Value() == Armed(old(Value()))
    {
      if requested {
        requested := false;
        log := log + [RestartArmed];
      }
    }

    /** The answer is looked at only when archive tasks are active. Returns whether the quit is held. */
    method OnBeforeQuit(activeTasks: bool, answer: Answer) returns (held: bool)
      requires !gone
      modifies this
      ensures Value() == BeforeQuit(old(Value()), if activeTasks then Some(answer) else None)
      ensures held <==> !old(quitDrainState).Drained?
    {
      if quitDrainState.Drained? {
        log := log + [Passed];
        return false;
      }
      held := true;
      if quitDrainState.Draining? {
        log := log + [Held];
        return;
      }
      log := log + [UsageFlushed, SignInDisposed];
      if activeTasks {
        if answer.QuitAnyway? {
          log := log + [Held, DialogShown, QuitChosen];
          ArmRelaunchIfRequested();
          gone := true;
          log := log + [ForcedExit];
        } else {
          requested := false;
          log := log + [Held, DialogShown, WaitChosen, RestartDropped];
        }
        return;
      }
      quitDrainState := Draining;
      races := races + [Race(false, false, false)];
      log := log + [Held, DrainStarted];
    }

    method Finish(race: nat)
      requires !gone && race < |races|
      modifies this
      ensures Value() == Finished(old(Value()), race)
    {
      quitDrainState := Drained;
      races := races[race := races[race].(finished := true)];
      ArmRelaunchIfRequested();
      log := log + [Reissued];
      var held := OnBeforeQuit(false, Wait);
      watchdogs := watchdogs + 1;
    }

    method ForceExit()
      requires !gone && watchdogs > 0
      modifies this
      ensures Value() == Step(old(Value()), WatchdogFires)
    {
      watchdogs := watchdogs - 1;
      ArmRelaunchIfRequested();
      gone := true;
      log := log + [ForcedExit];
    }

    method OnDrainSettled(race: nat)
      requires !gone && race < |races| && !races[race].drainSettled
      modifies this
      ensures Value() == Step(old(Value()), DrainSettles(race))
    {
      races := races[race := races[race].(drainSettled := true)];
      if !races[race].finished {
        Finish(race);
      }
    }

    method OnDeadline(race: nat)
      requires !gone && race < |races| && !races[race].deadlinePassed && !races[race].finished
      modifies this
      ensures Value() == Step(old(Value()), DeadlinePasses(race))
    {
      races := races[race := races[race].(deadlinePassed := true)];
      Finish(race);
    }
  }
}
