/**
 The spawn, prompt, exit and error handlers that keep a session's stored status in
 step with its panels (main/src/events.ts). Each handler writes its panel, waits, and
 later writes its session; other handlers run in between.
 */
module SessionStatus {
  import opened Options
  import opened Panels

  type SessionId = string
  type HandlerId = nat

  /** The status column of the sessions table. */
  datatype Stored = Pending | Active | Halted | Completed | Broken

  /** What the handlers pass to updateSession, and what it stores (mapSessionStatusToDbStatus). */
  datatype Requested = AsRunning | AsWaiting | AsStopped | AsError

  function StoredFor(r: Requested): Stored {
    match r
    case AsRunning => Active
    case AsWaiting => Active
    case AsStopped => Halted
    case AsError => Broken
  }

  datatype Entry = Entry(session: SessionId, panel: Panel)

  type PanelTable = map<PanelId, Entry>
  type Sessions = map<SessionId, Stored>

  predicate Live(e: Entry) {
    && e.panel.kind == Claude
    && e.panel.custom.Some?
    && (e.panel.custom.value.panelStatus == Some(Running) || e.panel.custom.value.panelStatus == Some(Waiting))
  }

  predicate HasLivePanel(panels: PanelTable, s: SessionId) {
    exists p | p in panels :: panels[p].session == s && Live(panels[p])
  }

  predicate Settled(status: Stored) {
    status == Completed || status == Halted
  }

  datatype Notice =
    | Spawned(panel: Option<PanelId>, session: SessionId)
    | Prompt(panel: Option<PanelId>, session: SessionId)
    | Exit(panel: Option<PanelId>, session: SessionId, code: Option<int>)
    | Error(panel: Option<PanelId>, session: SessionId)
    | FleetSpawned(panel: Option<PanelId>, session: SessionId)
    | FleetExit(panel: Option<PanelId>, session: SessionId, code: Option<int>)
    | FleetError(panel: Option<PanelId>, session: SessionId)

  predicate FromFleet(n: Notice) {
    n.FleetSpawned? || n.FleetExit? || n.FleetError?
  }

  /**
   The session exists, and the panel, when there is one, exists and is that session's. The fleet's handlers do
   not check; the fleet manager always names a panel, with the session it was spawned for.
   */
  predicate Admits(panels: PanelTable, sessions: Sessions, n: Notice) {
    if FromFleet(n) then n.panel.Some? && (n.panel.value in panels ==> panels[n.panel.value].session == n.session)
    else
      && n.session in sessions
      && (n.panel.Some? ==> n.panel.value in panels && panels[n.panel.value].session == n.session)
  }

  /** The handlers that write a panel running or waiting. */
  predicate MakesLive(n: Notice) {
    n.Spawned? || n.Prompt? || n.FleetSpawned?
  }

  /** isPanelActive, which exit reads before its first await. */
  function ActiveNow(panels: PanelTable, n: Notice): bool {
    n.panel.Some? && n.panel.value in panels && panels[n.panel.value].panel.isActive
  }

  // ----- the two writes of each handler -----

  function PanelUpdateFor(n: Notice, wasActive: bool, now: string): Update {
    match n
    case Spawned(_, _) => StatusWrite(Running, None, now)
    case FleetSpawned(_, _) => StatusWrite(Running, None, now)
    case Prompt(_, _) => StatusWrite(Waiting, None, now)
    case Error(_, _) => StatusWrite(Failed, None, now)
    case FleetError(_, _) => StatusWrite(Failed, None, now)
    case _ =>
      var unseen := n.code == Some(0) && !wasActive;
      StatusWrite(if unseen then CompletedUnviewed else Stopped, Some(unseen), now)
  }

  function WithUpdate(panels: PanelTable, p: PanelId, u: Update): PanelTable {
    if p !in panels || !Accepts(panels[p].panel.kind, u) then panels
    else
      var e := panels[p];
      panels[p := e.(panel := e.panel.(custom := Some(Computed(e.panel.custom, u))))]
  }

  function AfterPanelWrite(panels: PanelTable, n: Notice, wasActive: bool, now: string): PanelTable {
    if n.panel.None? then panels else WithUpdate(panels, n.panel.value, PanelUpdateFor(n, wasActive, now))
  }

  /** The block of the exit handler that looks at all panels of the session. */
  function ExitDecision(panels: PanelTable, sessions: Sessions, s: SessionId, code: Option<int>): Sessions {
    if s !in sessions then sessions
    else if !HasLivePanel(panels, s) then
      if code == Some(0) && sessions[s] == Active then sessions[s := Completed]
      else if sessions[s] != Completed then sessions[s := StoredFor(AsStopped)]
      else sessions
    else if sessions[s] != Active then sessions[s := StoredFor(AsRunning)]
    else sessions
  }

  function AfterSessionWrite(panels: PanelTable, sessions: Sessions, n: Notice): Sessions {
    if n.session !in sessions then sessions
    else
      match n
      case Spawned(_, s) => sessions[s := StoredFor(AsRunning)]
      case Prompt(_, s) => sessions[s := StoredFor(AsWaiting)]
      case Exit(_, s, code) => ExitDecision(panels, sessions, s, code)
      case Error(_, s) => sessions[s := StoredFor(AsError)]
      case FleetSpawned(_, s) => sessions[s := StoredFor(AsRunning)]
      case FleetExit(_, s, code) =>
        // looks at no panel
        if sessions[s] == Active then sessions[s := if code == Some(0) then Completed else Halted] else sessions
      case FleetError(_, _) => sessions
  }

  /** A panel-less result output completes a running session without looking at panels (sessionManager.ts). */
  function AfterResult(sessions: Sessions, s: SessionId): Sessions {
    if s in sessions && sessions[s] == Active then sessions[s := Completed] else sessions
  }

  /**
   Helper: right after an exit's decision, whatever ran since the exit arrived: the session is
   running if and only if one of its Claude panels is running or waiting, and it is
   completed or stopped otherwise. Other sessions are untouched.
   */
  lemma ExitDecidesByLivePanels(panels: PanelTable, sessions: Sessions, s: SessionId, code: Option<int>)
    requires s in sessions
    ensures var after := ExitDecision(panels, sessions, s, code);
            && after.Keys == sessions.Keys
            && (after[s] == Active <==> HasLivePanel(panels, s))
            && (!HasLivePanel(panels, s) ==>
                  after[s] == if sessions[s] == Completed || (code == Some(0) && sessions[s] == Active) then Completed else Halted)
            && forall r | r in sessions && r != s :: after[r] == sessions[r]
  {
  }

  /** Helper: what each notice leaves on its Claude panel. */
  lemma PanelAfterNotice(panels: PanelTable, n: Notice, wasActive: bool, now: string)
    requires n.panel.Some? && n.panel.value in panels && panels[n.panel.value].panel.kind == Claude
    ensures var after := AfterPanelWrite(panels, n, wasActive, now);
            var p := n.panel.value;
            && after.Keys == panels.Keys && after[p].session == panels[p].session
            && (Live(after[p]) <==> MakesLive(n))
            && after[p].panel.custom.Some?
            && var custom := after[p].panel.custom.value;
               && (if n.Exit? || n.FleetExit?
                   then && (custom.panelStatus == Some(CompletedUnviewed) <==> n.code == Some(0) && !wasActive)
                        && custom.hasUnviewedContent == Some(custom.panelStatus == Some(CompletedUnviewed))
                   else custom.hasUnviewedContent == panels[p].panel.custom.GetOr(EMPTY).hasUnviewedContent)
               && custom.contextUsage == panels[p].panel.custom.GetOr(EMPTY).contextUsage
               && forall q | q in panels && q != p :: after[q] == panels[q]
  {
  }

  // ----- the handlers, interleaved -----

  datatype Progress = Arrived | PanelWritten

  datatype Handler = Handler(notice: Notice, wasActive: bool, progress: Progress)

  datatype State = State(panels: PanelTable, sessions: Sessions, handlers: map<HandlerId, Handler>)

  datatype Step =
    | Arrive(h: HandlerId, notice: Notice)
    | WritePanel(h: HandlerId, now: string)
    | GiveUp(h: HandlerId)              // the panel lock timed out: the handler rejects
    | WriteSession(h: HandlerId)
    | AddPanel(p: PanelId, entry: Entry)
    | RemovePanel(p: PanelId)
    | Result(s: SessionId)              // a result output without a panel

  ghost predicate Enabled(st: State, step: Step) {
    match step
    case Arrive(h, _) => h !in st.handlers
    case WritePanel(h, _) => h in st.handlers && st.handlers[h].progress == Arrived
    case GiveUp(h) => h in st.handlers && st.handlers[h].progress == Arrived
    case WriteSession(h) => h in st.handlers && st.handlers[h].progress == PanelWritten
    case AddPanel(p, entry) =>
      // a new panel has a fresh identity and no status
      && p !in st.panels && !Live(entry)
      && forall h | h in st.handlers :: st.handlers[h].notice.panel != Some(p)
    case RemovePanel(_) => true
    case Result(_) => true
  }

  ghost function Next(st: State, step: Step): State
    requires Enabled(st, step)
  {
    match step
    case Arrive(h, n) =>
      if !Admits(st.panels, st.sessions, n) then st
      else st.(handlers := st.handlers[h := Handler(n, ActiveNow(st.panels, n), Arrived)])
    case WritePanel(h, now) =>
      var handler := st.handlers[h];
      st.(panels := AfterPanelWrite(st.panels, handler.notice, handler.wasActive, now),
          handlers := st.handlers[h := handler.(progress := PanelWritten)])
    case GiveUp(h) => st.(handlers := st.handlers - {h})
    case WriteSession(h) =>
      st.(sessions := AfterSessionWrite(st.panels, st.sessions, st.handlers[h].notice), handlers := st.handlers - {h})
    case AddPanel(p, entry) => st.(panels := st.panels[p := entry])
    case RemovePanel(p) => st.(panels := st.panels - {p})
    case Result(s) => st.(sessions := AfterResult(st.sessions, s))
  }

  ghost function Exec(st: State, steps: seq<Step>): State {
    if steps == [] then st
    else
      var before, step := Exec(st, steps[..|steps| - 1]), steps[|steps| - 1];
      if Enabled(before, step) then Next(before, step) else before
  }

  /** A spawn or prompt of session `s` has written its panel and still owes the session write. */
  ghost predicate Owed(st: State, s: SessionId) {
    exists h | h in st.handlers :: Owes(st.handlers[h], s)
  }

  predicate Owes(h: Handler, s: SessionId) {
    h.progress == PanelWritten && h.notice.session == s && MakesLive(h.notice)
  }

  /** Handlers name panels of their session, and all but the fleet's name an existing session. */
  ghost predicate WellFormed(st: State) {
    && (forall h | h in st.handlers && st.handlers[h].notice.panel.Some? ::
          var p := st.handlers[h].notice.panel.value;
          p in st.panels ==> st.panels[p].session == st.handlers[h].notice.session)
    && (forall h | h in st.handlers && !FromFleet(st.handlers[h].notice) :: st.handlers[h].notice.session in st.sessions)
  }

  ghost predicate RunInvariant(st: State) {
    && WellFormed(st)
    && forall s | s in st.sessions && Settled(st.sessions[s]) && HasLivePanel(st.panels, s) :: Owed(st, s)
  }

  /** Nothing in flight, and no settled session has a live panel. */
  ghost predicate Initial(st: State) {
    && st.handlers == map[]
    && forall s | s in st.sessions && Settled(st.sessions[s]) :: !HasLivePanel(st.panels, s)
  }

  lemma StillOwed(st: State, step: Step, s: SessionId)
    requires Enabled(st, step) && Owed(st, s)
    requires !(step.WriteSession? && st.handlers[step.h].notice.session == s)
    ensures Owed(Next(st, step), s)
  {
    var h :| h in st.handlers && Owes(st.handlers[h], s);
    assert h in Next(st, step).handlers && Owes(Next(st, step).handlers[h], s);
  }

  lemma WritePanelKeeps(st: State, h: HandlerId, now: string)
    requires RunInvariant(st) && Enabled(st, WritePanel(h, now))
    ensures RunInvariant(Next(st, WritePanel(h, now)))
  {
    var next := Next(st, WritePanel(h, now));
    var n := st.handlers[h].notice;
    forall s | s in next.sessions && Settled(next.sessions[s]) && HasLivePanel(next.panels, s) ensures Owed(next, s) {
      var p :| p in next.panels && next.panels[p].session == s && Live(next.panels[p]);
      if n.panel == Some(p) && next.panels != st.panels {
        assert Owes(next.handlers[h], s);
      } else {
        assert HasLivePanel(st.panels, s);
        StillOwed(st, WritePanel(h, now), s);
      }
    }
  }

  lemma WriteSessionKeeps(st: State, h: HandlerId)
    requires RunInvariant(st) && Enabled(st, WriteSession(h)) && !st.handlers[h].notice.FleetExit? && !st.handlers[h].notice.FleetError?
    ensures RunInvariant(Next(st, WriteSession(h)))
  {
    var next := Next(st, WriteSession(h));
    var r := st.handlers[h].notice.session;
    if st.handlers[h].notice.Exit? {
      ExitDecidesByLivePanels(st.panels, st.sessions, r, st.handlers[h].notice.code);
    }
    forall s | s in next.sessions && Settled(next.sessions[s]) && HasLivePanel(next.panels, s) ensures Owed(next, s) {
      assert s != r;
      StillOwed(st, WriteSession(h), s);
    }
  }

  lemma OtherStepsKeep(st: State, step: Step)
    requires RunInvariant(st) && Enabled(st, step) && !step.WritePanel? && !step.WriteSession? && !step.Result?
    ensures RunInvariant(Next(st, step))
  {
    var next := Next(st, step);
    forall s | s in next.sessions && Settled(next.sessions[s]) && HasLivePanel(next.panels, s) ensures Owed(next, s) {
      var p :| p in next.panels && next.panels[p].session == s && Live(next.panels[p]);
      assert p in st.panels && st.panels[p] == next.panels[p];
      StillOwed(st, step, s);
    }
  }

  // ----- the two writers that look at no panel -----

  /** Settling the session now would leave it settled over a live panel, with nobody to write it running. */
  ghost predicate RunsUnowed(st: State, s: SessionId) {
    s in st.sessions && st.sessions[s] == Active && HasLivePanel(st.panels, s) && !Owed(st, s)
  }

  /** A fleet exit or a panel-less result settles a running session that has a live panel. */
  ghost predicate Disturbs(st: State, step: Step) {
    match step
    case WriteSession(h) => h in st.handlers && st.handlers[h].notice.FleetExit? && RunsUnowed(st, st.handlers[h].notice.session)
    case Result(s) => RunsUnowed(st, s)
    case _ => false
  }

  /** The step writes session `s` at most, settling it if it was running, and panels not at all. */
  ghost predicate Settles(st: State, next: State, s: SessionId) {
    && next.panels == st.panels
    && next.sessions.Keys == st.sessions.Keys
    && (forall r | r in st.sessions && r != s :: next.sessions[r] == st.sessions[r])
    && (s in st.sessions ==>
          if st.sessions[s] == Active then Settled(next.sessions[s]) else next.sessions[s] == st.sessions[s])
    && (forall r :: Owed(next, r) <==> Owed(st, r))
  }

  lemma OwedAlike(st: State, step: Step)
    requires Enabled(st, step)
    requires step.Result? || (step.WriteSession? && !MakesLive(st.handlers[step.h].notice))
    ensures forall r :: Owed(Next(st, step), r) <==> Owed(st, r)
  {
    var next := Next(st, step);
    forall r | Owed(st, r) ensures Owed(next, r) {
      var h :| h in st.handlers && Owes(st.handlers[h], r);
      assert h in next.handlers && Owes(next.handlers[h], r);
    }
    forall r | Owed(next, r) ensures Owed(st, r) {
      var h :| h in next.handlers && Owes(next.handlers[h], r);
      assert h in st.handlers && Owes(st.handlers[h], r);
    }
  }

  lemma SettlingSurvivesIff(st: State, next: State, s: SessionId)
    requires RunInvariant(st) && WellFormed(next) && Settles(st, next, s)
    ensures RunInvariant(next) <==> !RunsUnowed(st, s)
  {
    if !RunsUnowed(st, s) {
      forall r | r in next.sessions && Settled(next.sessions[r]) && HasLivePanel(next.panels, r) ensures Owed(next, r) {
        assert Owed(st, r);
      }
    }
  }

  /** The invariant survives a step if and only if it is no blind write over a live panel. */
  lemma SurvivesIffUndisturbed(st: State, step: Step)
    requires RunInvariant(st) && Enabled(st, step)
    ensures RunInvariant(Next(st, step)) <==> !Disturbs(st, step)
  {
    match step
    case WritePanel(h, now) => WritePanelKeeps(st, h, now);
    case Result(s) =>
      OwedAlike(st, step);
      SettlingSurvivesIff(st, Next(st, step), s);
    case WriteSession(h) =>
      if st.handlers[h].notice.FleetExit? {
        OwedAlike(st, step);
        SettlingSurvivesIff(st, Next(st, step), st.handlers[h].notice.session);
      } else if st.handlers[h].notice.FleetError? {
        OwedAlike(st, step);
        forall s | s in st.sessions && Settled(st.sessions[s]) && HasLivePanel(st.panels, s) ensures Owed(Next(st, step), s) {
          assert Owed(st, s);
        }
      } else {
        WriteSessionKeeps(st, h);
      }
    case _ => OtherStepsKeep(st, step);
  }

  /** No step of the run is such a write. */
  ghost predicate Undisturbed(st: State, steps: seq<Step>) {
    steps == [] ||
    (var before, step := steps[..|steps| - 1], steps[|steps| - 1];
     Undisturbed(st, before) && (Enabled(Exec(st, before), step) ==> !Disturbs(Exec(st, before), step)))
  }

  ghost predicate AlwaysInStep(st: State, steps: seq<Step>) {
    RunInvariant(Exec(st, steps)) && (steps == [] || AlwaysInStep(st, steps[..|steps| - 1]))
  }

  /** The invariant holds all along a run if and only if no fleet exit and no panel-less result disturbs it. */
  lemma {:induction false} EveryRunKeepsInvariantIff(st: State, steps: seq<Step>)
    requires Initial(st)
    ensures AlwaysInStep(st, steps) <==> Undisturbed(st, steps)
  {
    if steps != [] {
      var before, step := steps[..|steps| - 1], steps[|steps| - 1];
      EveryRunKeepsInvariantIff(st, before);
      if AlwaysInStep(st, before) && Enabled(Exec(st, before), step) {
        SurvivesIffUndisturbed(Exec(st, before), step);
      }
    }
  }

  lemma WellFormedStep(st: State, step: Step)
    requires WellFormed(st) && Enabled(st, step)
    ensures WellFormed(Next(st, step))
  {
    match step
    case Arrive(h, n) => assert forall k | k in Next(st, step).handlers && k != h :: k in st.handlers && Next(st, step).handlers[k] == st.handlers[k];
    case WritePanel(h, now) =>
      assert forall p | p in Next(st, step).panels :: p in st.panels && Next(st, step).panels[p].session == st.panels[p].session;
    case _ =>
  }

  lemma {:induction false} AlwaysWellFormed(st: State, steps: seq<Step>)
    requires Initial(st)
    ensures WellFormed(Exec(st, steps))
  {
    if steps != [] {
      var before, step := steps[..|steps| - 1], steps[|steps| - 1];
      AlwaysWellFormed(st, before);
      if Enabled(Exec(st, before), step) {
        WellFormedStep(Exec(st, before), step);
      }
    }
  }

  /**
   In every undisturbed run, a session that reads completed or stopped although a panel of
   its is live is about to be written running: a spawn or prompt handler still owes the write.
   */
  lemma SettledSessionHasNoLivePanel(st: State, steps: seq<Step>, s: SessionId)
    requires Initial(st) && Undisturbed(st, steps)
    requires var end := Exec(st, steps); s in end.sessions && Settled(end.sessions[s]) && !Owed(end, s)
    ensures !HasLivePanel(Exec(st, steps).panels, s)
  {
    EveryRunKeepsInvariantIff(st, steps);
  }

  /** An exit that finishes anywhere in a run decides by the live panels at that moment. */
  lemma ExitInAnyRun(st: State, steps: seq<Step>, h: HandlerId)
    requires Initial(st)
    requires var mid := Exec(st, steps); h in mid.handlers && mid.handlers[h].progress == PanelWritten && mid.handlers[h].notice.Exit?
    ensures var s := Exec(st, steps).handlers[h].notice.session;
            var end := Exec(st, steps + [WriteSession(h)]);
            && s in end.sessions
            && (end.sessions[s] == Active <==> RunsOrWaits(end.panels, s))
            && (end.sessions[s] != Active ==> end.sessions[s] in {Completed, Halted})
  {
    AlwaysWellFormed(st, steps);
    var mid := Exec(st, steps);
    assert (steps + [WriteSession(h)])[..|steps|] == steps;
    ExitDecidesByLivePanels(mid.panels, mid.sessions, mid.handlers[h].notice.session, mid.handlers[h].notice.code);
    assert forall s :: HasLivePanel(mid.panels, s) <==> RunsOrWaits(mid.panels, s);
  }

  lemma ExecOneMore(st: State, steps: seq<Step>, step: Step)
    requires Enabled(Exec(st, steps), step)
    ensures Exec(st, steps + [step]) == Next(Exec(st, steps), step)
  {
    assert (steps + [step])[..|steps|] == steps;
  }

  // ----- what each handler stores, spelled out -----

  /** A Claude panel of the session is running or waiting. */
  ghost predicate RunsOrWaits(panels: PanelTable, s: SessionId) {
    exists p | p in panels :: panels[p].session == s && panels[p].panel.kind == Claude && panels[p].panel.custom.Some?
                              && panels[p].panel.custom.value.panelStatus in {Some(Running), Some(Waiting)}
  }

  /** The named panel, if it is there and a Claude panel, gets the status, the flag when one is given, and the time; nothing else changes. */
  ghost predicate PanelGets(before: PanelTable, after: PanelTable, named: Option<PanelId>, status: PanelStatus, unviewed: Option<bool>, now: string) {
    if named.None? || named.value !in before || before[named.value].panel.kind != Claude then after == before
    else
      var p := named.value;
      && after.Keys == before.Keys
      && (forall q | q in before && q != p :: after[q] == before[q])
      && after[p].session == before[p].session && after[p].panel.kind == Claude
      && after[p].panel.isActive == before[p].panel.isActive && after[p].panel.custom.Some?
      && var was, got := before[p].panel.custom.GetOr(EMPTY), after[p].panel.custom.value;
         && got.panelStatus == Some(status) && got.lastActivityTime == Some(now)
         && got.hasUnviewedContent == (if unviewed.Some? then unviewed else was.hasUnviewedContent)
         && got.contextUsage == was.contextUsage && got.other == was.other
  }

  /** What the notice's panel write stores; `wasActive` is read when an exit arrives. */
  ghost predicate PanelOutcome(before: PanelTable, after: PanelTable, n: Notice, wasActive: bool, now: string) {
    match n
    case Spawned(p, _) => PanelGets(before, after, p, Running, None, now)
    case FleetSpawned(p, _) => PanelGets(before, after, p, Running, None, now)
    case Prompt(p, _) => PanelGets(before, after, p, Waiting, None, now)
    case Error(p, _) => PanelGets(before, after, p, Failed, None, now)
    case FleetError(p, _) => PanelGets(before, after, p, Failed, None, now)
    case _ =>
      if n.code == Some(0) && !wasActive then PanelGets(before, after, n.panel, CompletedUnviewed, Some(true), now)
      else PanelGets(before, after, n.panel, Stopped, Some(false), now)
  }

  /** The session, if it exists, gets the status; nothing else changes. */
  ghost predicate SessionGets(before: Sessions, after: Sessions, s: SessionId, status: Stored) {
    after == if s in before then before[s := status] else before
  }

  /** What the notice's session write stores, given the panels at that moment. */
  ghost predicate SessionOutcome(panels: PanelTable, before: Sessions, after: Sessions, n: Notice) {
    match n
    case Spawned(_, s) => SessionGets(before, after, s, Active)
    case FleetSpawned(_, s) => SessionGets(before, after, s, Active)
    case Prompt(_, s) => SessionGets(before, after, s, Active)
    case Error(_, s) => SessionGets(before, after, s, Broken)
    case FleetError(_, _) => after == before
    case FleetExit(_, s, code) =>
      if s !in before || before[s] != Active then after == before
      else SessionGets(before, after, s, if code == Some(0) then Completed else Halted)
    case Exit(_, s, code) =>
      if s !in before then after == before
      else if RunsOrWaits(panels, s) then SessionGets(before, after, s, Active)
      else if before[s] == Completed || (before[s] == Active && code == Some(0)) then SessionGets(before, after, s, Completed)
      else SessionGets(before, after, s, Halted)
  }

  lemma PanelWriteComesOut(panels: PanelTable, n: Notice, wasActive: bool, now: string)
    ensures PanelOutcome(panels, AfterPanelWrite(panels, n, wasActive, now), n, wasActive, now)
  {
  }

  lemma LiveMeansRunsOrWaits(panels: PanelTable, s: SessionId)
    ensures HasLivePanel(panels, s) <==> RunsOrWaits(panels, s)
  {
  }

  lemma SessionWriteComesOut(panels: PanelTable, sessions: Sessions, n: Notice)
    ensures SessionOutcome(panels, sessions, AfterSessionWrite(panels, sessions, n), n)
  {
    LiveMeansRunsOrWaits(panels, n.session);
    if n.session in sessions {
      assert sessions[n.session := sessions[n.session]] == sessions;
    }
  }

  lemma WritesComeOut(panels: PanelTable, sessions: Sessions, n: Notice, wasActive: bool, now: string)
    ensures PanelOutcome(panels, AfterPanelWrite(panels, n, wasActive, now), n, wasActive, now)
    ensures SessionOutcome(panels, sessions, AfterSessionWrite(panels, sessions, n), n)
  {
    PanelWriteComesOut(panels, n, wasActive, now);
    SessionWriteComesOut(panels, sessions, n);
  }

  /**
   In every run: an event is taken up exactly when it names an existing session and, if any, a panel of that session
   (the fleet's are not checked); an exit remembers whether its panel was active.
   */
  lemma ArrivalIsJudged(st: State, steps: seq<Step>, h: HandlerId, n: Notice)
    requires h !in Exec(st, steps).handlers
    ensures var mid, end := Exec(st, steps), Exec(st, steps + [Arrive(h, n)]);
            var foreign := n.panel.Some? && n.panel.value in mid.panels && mid.panels[n.panel.value].session != n.session;
            && end.panels == mid.panels && end.sessions == mid.sessions
            && (h in end.handlers <==>
                  if n.FleetSpawned? || n.FleetExit? || n.FleetError? then n.panel.Some? && !foreign
                  else n.session in mid.sessions && (n.panel.Some? ==> n.panel.value in mid.panels) && !foreign)
            && (h in end.handlers ==>
                  end.handlers[h].notice == n && end.handlers[h].progress == Arrived
                  && (end.handlers[h].wasActive <==> n.panel.Some? && n.panel.value in mid.panels && mid.panels[n.panel.value].panel.isActive))
  {
    ExecOneMore(st, steps, Arrive(h, n));
  }

  /** In every run: what a handler's two writes store. */
  lemma HandlerStores(st: State, steps: seq<Step>, h: HandlerId, now: string)
    requires h in Exec(st, steps).handlers
    ensures var mid := Exec(st, steps);
            var handler := mid.handlers[h];
            if handler.progress == Arrived then
              var end := Exec(st, steps + [WritePanel(h, now)]);
              && PanelOutcome(mid.panels, end.panels, handler.notice, handler.wasActive, now)
              && end.sessions == mid.sessions
              && end.handlers == mid.handlers[h := handler.(progress := PanelWritten)]
            else
              var end := Exec(st, steps + [WriteSession(h)]);
              && end.panels == mid.panels
              && SessionOutcome(mid.panels, mid.sessions, end.sessions, handler.notice)
              && end.handlers == mid.handlers - {h}
  {
    var mid := Exec(st, steps);
    var handler := mid.handlers[h];
    ExecOneMore(st, steps, if handler.progress == Arrived then WritePanel(h, now) else WriteSession(h));
    WritesComeOut(mid.panels, mid.sessions, handler.notice, handler.wasActive, now);
  }

  /** A panel-less result completes a running session, live panels or not. */
  lemma ResultStores(st: State, steps: seq<Step>, s: SessionId)
    ensures var mid, end := Exec(st, steps), Exec(st, steps + [Result(s)]);
            && end.panels == mid.panels && end.handlers == mid.handlers
            && end.sessions == if s in mid.sessions && mid.sessions[s] == Active then mid.sessions[s := Completed] else mid.sessions
  {
    ExecOneMore(st, steps, Result(s));
  }

  // ----- a spawn or prompt may write a session running after its panel has ended -----

  /** The last panel write of `p` among the steps, if any, was a spawn's or a prompt's. */
  ghost predicate LastWriteLive(st: State, steps: seq<Step>, p: PanelId) {
    steps == [] ||
    (var before, step := steps[..|steps| - 1], steps[|steps| - 1];
     var mid := Exec(st, before);
     if step.WritePanel? && Enabled(mid, step) && mid.handlers[step.h].notice.panel == Some(p)
     then MakesLive(mid.handlers[step.h].notice)
     else LastWriteLive(st, before, p))
  }

  /** No step removes panel `p`, and the last to write it leaves it live. */
  ghost predicate StillLive(st: State, steps: seq<Step>, p: PanelId) {
    RemovePanel(p) !in steps && LastWriteLive(st, steps, p)
  }

  lemma {:induction false} HandlerStays(st: State, steps: seq<Step>, h: HandlerId)
    requires h in st.handlers && st.handlers[h].progress == PanelWritten && WriteSession(h) !in steps
    ensures var end := Exec(st, steps); h in end.handlers && end.handlers[h] == st.handlers[h]
  {
    if steps != [] {
      var before, step := steps[..|steps| - 1], steps[|steps| - 1];
      assert step in steps && WriteSession(h) !in before;
      HandlerStays(st, before, h);
    }
  }

  /** What has become of panel `p` of session `s`. */
  ghost predicate Fate(st: State, p: PanelId, s: SessionId, removed: bool, live: bool) {
    if removed then p !in st.panels
    else p in st.panels && st.panels[p].session == s && st.panels[p].panel.kind == Claude && (Live(st.panels[p]) <==> live)
  }

  lemma FateOfWrite(st: State, h: HandlerId, now: string, p: PanelId, s: SessionId, removed: bool, live: bool)
    requires Enabled(st, WritePanel(h, now)) && Fate(st, p, s, removed, live)
    ensures Fate(Next(st, WritePanel(h, now)), p, s, removed,
                 if st.handlers[h].notice.panel == Some(p) then MakesLive(st.handlers[h].notice) else live)
  {
  }

  lemma FateOfOther(st: State, step: Step, h: HandlerId, p: PanelId, s: SessionId, removed: bool, live: bool)
    requires Enabled(st, step) && !step.WritePanel? && Fate(st, p, s, removed, live)
    requires h in st.handlers && st.handlers[h].notice.panel == Some(p)
    ensures Fate(Next(st, step), p, s, removed || step == RemovePanel(p), live)
  {
  }

  lemma {:induction false} PanelFate(st: State, steps: seq<Step>, h: HandlerId, p: PanelId, s: SessionId)
    requires h in st.handlers && st.handlers[h].progress == PanelWritten && WriteSession(h) !in steps
    requires st.handlers[h].notice.panel == Some(p) && Fate(st, p, s, false, true)
    ensures Fate(Exec(st, steps), p, s, RemovePanel(p) in steps, LastWriteLive(st, steps, p))
  {
    if steps != [] {
      var before, step := steps[..|steps| - 1], steps[|steps| - 1];
      assert steps == before + [step];
      assert WriteSession(h) !in before;
      PanelFate(st, before, h, p, s);
      HandlerStays(st, before, h);
      var mid := Exec(st, before);
      var removed, live := RemovePanel(p) in before, LastWriteLive(st, before, p);
      if Enabled(mid, step) {
        if step.WritePanel? {
          FateOfWrite(mid, step.h, step.now, p, s, removed, live);
        } else {
          FateOfOther(mid, step, h, p, s, removed, live);
        }
      }
    }
  }

  ghost predicate OtherLivePanel(panels: PanelTable, s: SessionId, p: PanelId) {
    exists q | q in panels :: q != p && panels[q].session == s && Live(panels[q])
  }

  /** The same from any state in which the handler has written its panel. */
  lemma LateWriteOutlivesIff(mid: State, h: HandlerId, p: PanelId, between: seq<Step>)
    requires WellFormed(mid) && h in mid.handlers && mid.handlers[h].progress == PanelWritten
    requires MakesLive(mid.handlers[h].notice) && mid.handlers[h].notice.panel == Some(p)
    requires p in mid.panels && Live(mid.panels[p]) && WriteSession(h) !in between
    ensures var s := mid.handlers[h].notice.session;
            var end := Exec(mid, between + [WriteSession(h)]);
            && (s in Exec(mid, between).sessions ==> s in end.sessions && end.sessions[s] == Active)
            && (HasLivePanel(end.panels, s) <==> StillLive(mid, between, p) || OtherLivePanel(end.panels, s, p))
  {
    var s := mid.handlers[h].notice.session;
    HandlerStays(mid, between, h);
    PanelFate(mid, between, h, p, s);
    var last := Exec(mid, between);
    ExecOneMore(mid, between, WriteSession(h));
    var end := Next(last, WriteSession(h));
    assert end.panels == last.panels;
    if HasLivePanel(end.panels, s) {
      var q :| q in end.panels && end.panels[q].session == s && Live(end.panels[q]);
      assert q == p || OtherLivePanel(end.panels, s, p);
    }
  }

  /**
   The session write of a spawn or prompt, at any distance after its panel write and whatever runs in
   between, leaves the session running. It is left running without a live panel if and only if
   no other panel of the session is live and its own was removed or last written by an exit or an error.
   */
  lemma SpawnOutlivesPanelIff(first: State, prior: seq<Step>, h: HandlerId, now: string, p: PanelId, between: seq<Step>)
    requires Initial(first)
    requires var st := Exec(first, prior);
             && h in st.handlers && st.handlers[h].progress == Arrived
             && MakesLive(st.handlers[h].notice) && st.handlers[h].notice.panel == Some(p)
             && p in st.panels && st.panels[p].panel.kind == Claude
    requires WriteSession(h) !in between
    ensures var mid := Exec(first, prior + [WritePanel(h, now)]);
            var end := Exec(mid, between + [WriteSession(h)]);
            var s := Exec(first, prior).handlers[h].notice.session;
            && (s in first.sessions ==> s in end.sessions && end.sessions[s] == Active)
            && (!HasLivePanel(end.panels, s) <==> !StillLive(mid, between, p) && !OtherLivePanel(end.panels, s, p))
  {
    var st := Exec(first, prior);
    ExecOneMore(first, prior, WritePanel(h, now));
    AlwaysWellFormed(first, prior + [WritePanel(h, now)]);
    var mid := Next(st, WritePanel(h, now));
    PanelAfterNotice(st.panels, st.handlers[h].notice, st.handlers[h].wasActive, now);
    LateWriteOutlivesIff(mid, h, p, between);
    SessionsStay(first, prior);
    SessionsStay(mid, between);
  }

  lemma {:induction false} SessionsStay(st: State, steps: seq<Step>)
    ensures Exec(st, steps).sessions.Keys >= st.sessions.Keys
  {
    if steps != [] {
      SessionsStay(st, steps[..|steps| - 1]);
    }
  }

  /** A spawn's panel, in the first two steps. */
  lemma SpawnWrites(st: State, p: PanelId, s: SessionId, now: string)
    requires st.handlers == map[] && p in st.panels && st.panels[p] == Entry(s, Panel(Claude, true, None)) && s in st.sessions
    ensures var one := Exec(st, [Arrive(0, Spawned(Some(p), s))]);
            one == st.(handlers := map[0 := Handler(Spawned(Some(p), s), true, Arrived)])
  {
    assert [] + [Arrive(0, Spawned(Some(p), s))] == [Arrive(0, Spawned(Some(p), s))];
    ExecOneMore(st, [], Arrive(0, Spawned(Some(p), s)));
  }

  lemma ExitBetween(mid: State, p: PanelId, s: SessionId, now: string)
    requires p in mid.panels && mid.panels[p].session == s && s in mid.sessions && 1 !in mid.handlers
    ensures var exit := [Arrive(1, Exit(Some(p), s, Some(0)))] + [WritePanel(1, now)];
            !LastWriteLive(mid, exit, p) && !LastWriteLive(mid, exit + [WriteSession(1)], p)
  {
    var arrive := Arrive(1, Exit(Some(p), s, Some(0)));
    assert [] + [arrive] == [arrive];
    ExecOneMore(mid, [], arrive);
    var exit := [arrive] + [WritePanel(1, now)];
    assert exit[..1] == [arrive];
    assert (exit + [WriteSession(1)])[..2] == exit;
  }

  /** Handlers are not atomic: an exit inside a spawn's 100 ms wait leaves a running session with no live panel. */
  lemma SpawnCanOutliveItsPanel(now: string)
    ensures var st := State(map["p" := Entry("s", Panel(Claude, true, None))], map["s" := Pending], map[]);
            var mid := Exec(st, [Arrive(0, Spawned(Some("p"), "s"))] + [WritePanel(0, now)]);
            var exit := [Arrive(1, Exit(Some("p"), "s", Some(0)))] + [WritePanel(1, now)] + [WriteSession(1)];
            var end := Exec(mid, exit + [WriteSession(0)]);
            && Initial(st)
            && "s" in end.sessions && end.sessions["s"] == Active
            && !HasLivePanel(end.panels, "s")
  {
    var st := State(map["p" := Entry("s", Panel(Claude, true, None))], map["s" := Pending], map[]);
    var spawn := [Arrive(0, Spawned(Some("p"), "s"))];
    SpawnWrites(st, "p", "s", now);
    ExecOneMore(st, spawn, WritePanel(0, now));
    var mid := Exec(st, spawn + [WritePanel(0, now)]);
    ExitBetween(mid, "p", "s", now);
    var exit := [Arrive(1, Exit(Some("p"), "s", Some(0)))] + [WritePanel(1, now)] + [WriteSession(1)];
    SpawnOutlivesPanelIff(st, spawn, 0, now, "p", exit);
    NoPanelIsAdded(mid, exit + [WriteSession(0)]);
  }

  lemma {:induction false} NoPanelIsAdded(st: State, steps: seq<Step>)
    requires forall step | step in steps :: !step.AddPanel?
    ensures Exec(st, steps).panels.Keys <= st.panels.Keys
  {
    if steps != [] {
      assert steps[|steps| - 1] in steps;
      NoPanelIsAdded(st, steps[..|steps| - 1]);
    }
  }

  // ----- the fleet's exit handler, run atomically -----

  /** It leaves a session it settles with a live panel exactly when some other Claude panel of the session is live. */
  lemma FleetExitSettlesOverLivePanel(panels: PanelTable, sessions: Sessions, p: PanelId, s: SessionId, code: Option<int>, wasActive: bool, now: string)
    requires p in panels && panels[p].session == s && s in sessions && sessions[s] == Active
    ensures var n := FleetExit(Some(p), s, code);
            var after := AfterPanelWrite(panels, n, wasActive, now);
            var stored := AfterSessionWrite(after, sessions, n);
            && s in stored
            && (Settled(stored[s]) && HasLivePanel(after, s) <==> OtherLivePanel(panels, s, p))
  {
    var after := AfterPanelWrite(panels, FleetExit(Some(p), s, code), wasActive, now);
    assert !Live(after[p]);
    if q :| q in panels && q != p && panels[q].session == s && Live(panels[q]) {
      assert after[q] == panels[q];
    }
  }

  // ----- the handlers in the source's own form -----

  /** The session exists, and the panel, when one is named, exists and is the session's. */
  ghost predicate Accepted(panels: PanelTable, sessions: Sessions, panel: Option<PanelId>, session: SessionId) {
    session in sessions && (panel.Some? ==> panel.value in panels && panels[panel.value].session == session)
  }

  ghost predicate WasActive(panels: PanelTable, panel: Option<PanelId>) {
    panel.Some? && panel.value in panels && panels[panel.value].panel.isActive
  }

  class Board {
    var panels: PanelTable
    var sessions: Sessions

    constructor (panels: PanelTable, sessions: Sessions)
      ensures this.panels == panels && this.sessions == sessions
    {
      this.panels := panels;
      this.sessions := sessions;
    }

    method UpdateAIPanelStatus(p: PanelId, status: PanelStatus, unviewed: Option<bool>, now: string)
      modifies this
      ensures PanelGets(old(panels), panels, Some(p), status, unviewed, now)
      ensures panels == WithUpdate(old(panels), p, StatusWrite(status, unviewed, now))
      ensures sessions == old(sessions)
    {
      if p !in panels {
        return;
      }
      if panels[p].panel.kind != Claude {
        return;
      }
      var custom := panels[p].panel.custom.GetOr(EMPTY);
      custom := custom.(panelStatus := Some(status), lastActivityTime := Some(now));
      if unviewed.Some? {
        custom := custom.(hasUnviewedContent := unviewed);
      }
      panels := panels[p := panels[p].(panel := panels[p].panel.(custom := Some(custom)))];
    }

    method UpdateSession(s: SessionId, r: Requested)
      modifies this
      ensures panels == old(panels)
      ensures sessions == if s in old(sessions) then old(sessions)[s := StoredFor(r)] else old(sessions)
    {
      if s in sessions {
        sessions := sessions[s := StoredFor(r)];
      }
    }

    method OnSpawned(panel: Option<PanelId>, session: SessionId, now: string)
      modifies this
      ensures var n := Spawned(panel, session);
              if !Accepted(old(panels), old(sessions), panel, session) then panels == old(panels) && sessions == old(sessions)
              else PanelOutcome(old(panels), panels, n, false, now) && SessionOutcome(panels, old(sessions), sessions, n)
      ensures Admits(old(panels), old(sessions), Spawned(panel, session)) ==>
                && panels == AfterPanelWrite(old(panels), Spawned(panel, session), ActiveNow(old(panels), Spawned(panel, session)), now)
                && sessions == AfterSessionWrite(panels, old(sessions), Spawned(panel, session))
    {
      if Admits(panels, sessions, Spawned(panel, session)) {
        if panel.Some? {
          UpdateAIPanelStatus(panel.value, Running, None, now);
        }
        UpdateSession(session, AsRunning);
      }
    }

    method OnPrompt(panel: Option<PanelId>, session: SessionId, now: string)
      modifies this
      ensures var n := Prompt(panel, session);
              if !Accepted(old(panels), old(sessions), panel, session) then panels == old(panels) && sessions == old(sessions)
              else PanelOutcome(old(panels), panels, n, false, now) && SessionOutcome(panels, old(sessions), sessions, n)
      ensures Admits(old(panels), old(sessions), Prompt(panel, session)) ==>
                && panels == AfterPanelWrite(old(panels), Prompt(panel, session), ActiveNow(old(panels), Prompt(panel, session)), now)
                && sessions == AfterSessionWrite(panels, old(sessions), Prompt(panel, session))
    {
      if Admits(panels, sessions, Prompt(panel, session)) {
        if panel.Some? {
          UpdateAIPanelStatus(panel.value, Waiting, None, now);
        }
        UpdateSession(session, AsWaiting);
      }
    }

    method OnError(panel: Option<PanelId>, session: SessionId, now: string)
      modifies this
      ensures var n := Error(panel, session);
              if !Accepted(old(panels), old(sessions), panel, session) then panels == old(panels) && sessions == old(sessions)
              else PanelOutcome(old(panels), panels, n, false, now) && SessionOutcome(panels, old(sessions), sessions, n)
      ensures Admits(old(panels), old(sessions), Error(panel, session)) ==>
                && panels == AfterPanelWrite(old(panels), Error(panel, session), ActiveNow(old(panels), Error(panel, session)), now)
                && sessions == AfterSessionWrite(panels, old(sessions), Error(panel, session))
    {
      if Admits(panels, sessions, Error(panel, session)) {
        if panel.Some? {
          UpdateAIPanelStatus(panel.value, Failed, None, now);
        }
        UpdateSession(session, AsError);
      }
    }

    method OnExit(panel: Option<PanelId>, session: SessionId, code: Option<int>, now: string)
      modifies this
      ensures var n := Exit(panel, session, code);
              if !Accepted(old(panels), old(sessions), panel, session) then panels == old(panels) && sessions == old(sessions)
              else && PanelOutcome(old(panels), panels, n, WasActive(old(panels), panel), now)
                   && SessionOutcome(panels, old(sessions), sessions, n)
      ensures Admits(old(panels), old(sessions), Exit(panel, session, code)) ==>
                && panels == AfterPanelWrite(old(panels), Exit(panel, session, code), ActiveNow(old(panels), Exit(panel, session, code)), now)
                && sessions == AfterSessionWrite(panels, old(sessions), Exit(panel, session, code))
      ensures Accepted(old(panels), old(sessions), panel, session) ==>
                && session in sessions
                && (sessions[session] == Active <==> RunsOrWaits(panels, session))
                && (sessions[session] != Active ==> sessions[session] in {Completed, Halted})
    {
      if !Admits(panels, sessions, Exit(panel, session, code)) {
        return;
      }
      if panel.Some? {
        var isActive := panel.value in panels && panels[panel.value].panel.isActive;
        var panelStatusOnExit := if code == Some(0) && !isActive then CompletedUnviewed else Stopped;
        UpdateAIPanelStatus(panel.value, panelStatusOnExit, Some(code == Some(0) && !isActive), now);
      }
      var status := sessions[session];
      var hasRunningPanels := HasLivePanel(panels, session);
      if !hasRunningPanels {
        if code == Some(0) && status == Active {
          sessions := sessions[session := Completed];
        } else if status != Completed {
          UpdateSession(session, AsStopped);
        }
      } else if status != Active {
        UpdateSession(session, AsRunning);
      }
    }

    /** The fleet's exit handler. */
    method OnFleetExit(panel: PanelId, session: SessionId, code: Option<int>, now: string)
      modifies this
      ensures var n := FleetExit(Some(panel), session, code);
              && PanelOutcome(old(panels), panels, n, WasActive(old(panels), Some(panel)), now)
              && SessionOutcome(panels, old(sessions), sessions, n)
      ensures var n := FleetExit(Some(panel), session, code);
              && panels == AfterPanelWrite(old(panels), n, ActiveNow(old(panels), n), now)
              && sessions == AfterSessionWrite(panels, old(sessions), n)
    {
      var isActive := panel in panels && panels[panel].panel.isActive;
      var panelStatusOnExit := if code == Some(0) && !isActive then CompletedUnviewed else Stopped;
      UpdateAIPanelStatus(panel, panelStatusOnExit, Some(code == Some(0) && !isActive), now);
      if session in sessions && sessions[session] == Active {
        sessions := sessions[session := if code == Some(0) then Completed else Halted];
      }
    }
  }
}
