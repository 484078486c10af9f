/**
 The two read-modify-write updaters of a panel's custom state (main/src/events.ts),
 run by any number of concurrent event handlers. A handler is split at its awaits:
 it waits for the panel's lock, reads and computes, writes, and releases. Other
 handlers may run between any two of these steps. So may the operations that do not
 take that lock: activating a panel, deleting it, and the edits of
 main/src/ipc/panels.ts, which read, wait and write the same state.
 */
module PanelUpdates {
  import opened Options
  import opened Panels
  import opened Sequences

  type TaskId = nat
  type EditId = nat

  datatype Job = Job(panel: PanelId, update: Update)

  // ----- the interleaved machine -----

  datatype Phase =
    | AwaitingLock
    | Locked
    | Read(next: Panel)      // the state to write is a snapshot with the new custom state
    | Leaving
    | Done

  /** An unlocked edit between its read and its write. */
  datatype Pending = Pending(panel: PanelId, edit: Edit, next: Panel)

  datatype State = State(
    panels: map<PanelId, Panel>,
    holder: map<PanelId, TaskId>,
    phase: map<TaskId, Phase>,
    edits: map<EditId, Pending>,
    history: History)

  /** What happened, for the statements below: no step reads it. */
  datatype History = History(
    lockOrder: map<PanelId, seq<TaskId>>,  // who got each panel's lock, first to last
    failed: set<TaskId>)                   // whose database write threw

  datatype Event =
    | Acquire(t: TaskId)
    | TimeOut(t: TaskId)      // waiting for the lock may give up with an error
    | Compute(t: TaskId)
    | Write(t: TaskId)
    | WriteFails(t: TaskId)   // the database write throws; nothing is stored
    | Release(t: TaskId)
    | SetActive(p: PanelId, active: bool)
    | Delete(p: PanelId)
    | ReadUnlocked(w: EditId, p: PanelId, edit: Edit)
    | WriteUnlocked(w: EditId, p: PanelId, edit: Edit)

  /** The task can take this step now. */
  predicate Enabled(jobs: map<TaskId, Job>, st: State, e: Event) {
    match e
    case SetActive(_, _) => true
    case Delete(_) => true
    case ReadUnlocked(w, _, _) => w !in st.edits
    case WriteUnlocked(w, p, edit) => w in st.edits && st.edits[w].panel == p && st.edits[w].edit == edit
    case Acquire(t) => t in jobs && t in st.phase && st.phase[t].AwaitingLock? && jobs[t].panel !in st.holder
    case TimeOut(t) => t in jobs && t in st.phase && st.phase[t].AwaitingLock?
    case Compute(t) => t in jobs && t in st.phase && st.phase[t].Locked?
    case Write(t) => t in jobs && t in st.phase && st.phase[t].Read?
    case WriteFails(t) => t in jobs && t in st.phase && st.phase[t].Read?
    case Release(t) => t in jobs && t in st.phase && st.phase[t].Leaving?
  }

  function LockOrder(st: State, p: PanelId): seq<TaskId> {
    if p in st.history.lockOrder then st.history.lockOrder[p] else []
  }

  function Next(jobs: map<TaskId, Job>, st: State, e: Event): State
    requires Enabled(jobs, st, e)
  {
    match e
    case Acquire(t) =>
      var p := jobs[t].panel;
      st.(holder := st.holder[p := t], phase := st.phase[t := Locked],
          history := st.history.(lockOrder := st.history.lockOrder[p := LockOrder(st, p) + [t]]))
    case TimeOut(t) => st.(phase := st.phase[t := Done])
    case Compute(t) =>
      var p := jobs[t].panel;
      if p !in st.panels || !Accepts(st.panels[p].kind, jobs[t].update) then st.(phase := st.phase[t := Leaving])
      else
        var panel := st.panels[p];
        st.(phase := st.phase[t := Read(panel.(custom := Some(Computed(panel.custom, jobs[t].update))))])
    case Write(t) =>
      var p := jobs[t].panel;
      var panels := if p in st.panels then st.panels[p := st.phase[t].next] else st.panels;
      st.(panels := panels, phase := st.phase[t := Leaving])
    case WriteFails(t) =>
      st.(phase := st.phase[t := Leaving], history := st.history.(failed := st.history.failed + {t}))
    case Release(t) => st.(holder := st.holder - {jobs[t].panel}, phase := st.phase[t := Done])
    case SetActive(p, active) =>
      if p in st.panels then st.(panels := st.panels[p := st.panels[p].(isActive := active)]) else st
    case Delete(p) => st.(panels := st.panels - {p})
    case ReadUnlocked(w, p, edit) =>
      if p !in st.panels || !Edits(st.panels[p].kind, edit) then st
      else st.(edits := st.edits[w := Pending(p, edit, Edited(st.panels[p], edit))])
    case WriteUnlocked(w, p, _) =>
      var panels := if p in st.panels then st.panels[p := st.edits[w].next] else st.panels;
      st.(panels := panels, edits := st.edits - {w})
  }

  function Start(panels: map<PanelId, Panel>, jobs: map<TaskId, Job>): State {
    State(panels, map[], map t | t in jobs :: AwaitingLock, map[], History(map[], {}))
  }

  /** Run a schedule; a step its task cannot take yet is not taken. */
  function Exec(jobs: map<TaskId, Job>, st: State, schedule: seq<Event>): State {
    if schedule == [] then st
    else
      var before := Exec(jobs, st, schedule[..|schedule| - 1]);
      var e := schedule[|schedule| - 1];
      if Enabled(jobs, before, e) then Next(jobs, before, e) else before
  }

  // ----- the serial reference -----

  /** Apply the updates one whole update at a time. */
  ghost function Serial(jobs: map<TaskId, Job>, kind: PanelKind, custom: Option<Custom>,
                        order: seq<TaskId>, failed: set<TaskId>): Option<Custom>
  {
    if order == [] then custom
    else
      var before := Serial(jobs, kind, custom, order[..|order| - 1], failed);
      var t := order[|order| - 1];
      if t in failed || t !in jobs || !Accepts(kind, jobs[t].update) then before
      else Some(Computed(before, jobs[t].update))
  }

  lemma {:induction false} SerialIgnoresOthersFailing(jobs: map<TaskId, Job>, kind: PanelKind, custom: Option<Custom>,
                                   order: seq<TaskId>, failed: set<TaskId>, t: TaskId)
    requires t !in order
    ensures Serial(jobs, kind, custom, order, failed + {t}) == Serial(jobs, kind, custom, order, failed)
  {
    if order != [] {
      assert order[|order| - 1] in order;
      SerialIgnoresOthersFailing(jobs, kind, custom, order[..|order| - 1], failed, t);
    }
  }

  // ----- the invariant of every run -----

  /** One panel's custom state, given where the current lock holder stands. */
  ghost predicate PanelInvariant(jobs: map<TaskId, Job>, first: Panel, st: State, p: PanelId)
    requires p in st.panels
  {
    var panel, order, failed := st.panels[p], LockOrder(st, p), st.history.failed;
    && panel.kind == first.kind
    && (p !in st.holder ==> panel.custom == Serial(jobs, first.kind, first.custom, order, failed))
    && (p in st.holder ==>
          var t := st.holder[p];
          && order != [] && order[|order| - 1] == t && t in jobs && t in st.phase
          && var done := Serial(jobs, first.kind, first.custom, order[..|order| - 1], failed);
             match st.phase[t]
             case Locked => panel.custom == done && t !in failed
             case Read(next) =>
               && panel.custom == done
               && t !in failed
               && Accepts(first.kind, jobs[t].update)
               && next.kind == first.kind
               && next.custom == Some(Computed(done, jobs[t].update))
             case _ => panel.custom == Serial(jobs, first.kind, first.custom, order, failed))
  }

  /** Locks are exclusive, and only a lock holder is past waiting. */
  ghost predicate LockInvariant(jobs: map<TaskId, Job>, st: State) {
    && st.phase.Keys == jobs.Keys
    && (forall p | p in st.holder :: st.holder[p] in jobs && jobs[st.holder[p]].panel == p && Inside(st.phase[st.holder[p]]))
    && (forall t | t in jobs && Inside(st.phase[t]) ::
          jobs[t].panel in st.holder && st.holder[jobs[t].panel] == t)
  }

  predicate Inside(phase: Phase) {
    phase.Locked? || phase.Read? || phase.Leaving?
  }

  /** Each task gets its own panel's lock at most once, and not before it is recorded. */
  ghost predicate HistoryInvariant(jobs: map<TaskId, Job>, st: State)
    requires st.phase.Keys == jobs.Keys
  {
    && (forall p, t | t in LockOrder(st, p) :: t in jobs && jobs[t].panel == p && !st.phase[t].AwaitingLock?)
    && (forall p :: Distinct(LockOrder(st, p)))
    && (forall t | t in st.history.failed :: t in jobs && (st.phase[t].Leaving? || st.phase[t].Done?))
  }

  /** What a run keeps of panel `p` while no edit of it is written. */
  ghost predicate RunInvariant(jobs: map<TaskId, Job>, panels: map<PanelId, Panel>, st: State, p: PanelId) {
    && LockInvariant(jobs, st)
    && HistoryInvariant(jobs, st)
    && (p in st.panels ==> p in panels && PanelInvariant(jobs, panels[p], st, p))
  }

  /** No edit of panel `p` is written. */
  predicate OnlyLocked(schedule: seq<Event>, p: PanelId) {
    forall e | e in schedule :: !(e.WriteUnlocked? && e.p == p)
  }

  lemma LocksKept(jobs: map<TaskId, Job>, st: State, e: Event)
    requires LockInvariant(jobs, st) && Enabled(jobs, st, e)
    ensures LockInvariant(jobs, Next(jobs, st, e))
  {
  }

  lemma OrderAfterAcquire(jobs: map<TaskId, Job>, st: State, t: TaskId, q: PanelId)
    requires Enabled(jobs, st, Acquire(t))
    ensures LockOrder(Next(jobs, st, Acquire(t)), q) == LockOrder(st, q) + (if q == jobs[t].panel then [t] else [])
  {
  }

  lemma HistoryKeptByAcquire(jobs: map<TaskId, Job>, st: State, t: TaskId)
    requires LockInvariant(jobs, st) && HistoryInvariant(jobs, st) && Enabled(jobs, st, Acquire(t))
    ensures Next(jobs, st, Acquire(t)).phase.Keys == jobs.Keys
    ensures HistoryInvariant(jobs, Next(jobs, st, Acquire(t)))
  {
    var next, p := Next(jobs, st, Acquire(t)), jobs[t].panel;
    assert t !in LockOrder(st, p) && t !in st.history.failed;
    assert next.phase == st.phase[t := Locked] && next.history.failed == st.history.failed;
    forall q, u | u in LockOrder(next, q) ensures u in jobs && jobs[u].panel == q && !next.phase[u].AwaitingLock? {
      OrderAfterAcquire(jobs, st, t, q);
      assert u in LockOrder(st, q) || (q == p && u == t);
    }
    forall q ensures Distinct(LockOrder(next, q)) {
      OrderAfterAcquire(jobs, st, t, q);
      assert Distinct(LockOrder(st, q));
    }
  }

  lemma OrderKept(jobs: map<TaskId, Job>, st: State, e: Event)
    requires Enabled(jobs, st, e) && !e.Acquire?
    ensures forall q :: LockOrder(Next(jobs, st, e), q) == LockOrder(st, q)
  {
  }

  lemma PhasesProgress(jobs: map<TaskId, Job>, st: State, e: Event)
    requires LockInvariant(jobs, st) && Enabled(jobs, st, e) && !e.Acquire?
    ensures Next(jobs, st, e).phase.Keys == jobs.Keys
    ensures forall t | t in jobs :: !st.phase[t].AwaitingLock? ==> !Next(jobs, st, e).phase[t].AwaitingLock?
    ensures forall t | t in jobs :: st.phase[t].Leaving? || st.phase[t].Done? ==>
              Next(jobs, st, e).phase[t].Leaving? || Next(jobs, st, e).phase[t].Done?
  {
  }

  lemma HistoryKept(jobs: map<TaskId, Job>, st: State, e: Event)
    requires LockInvariant(jobs, st) && HistoryInvariant(jobs, st) && Enabled(jobs, st, e) && !e.Acquire?
    ensures Next(jobs, st, e).phase.Keys == jobs.Keys
    ensures HistoryInvariant(jobs, Next(jobs, st, e))
  {
    var next := Next(jobs, st, e);
    OrderKept(jobs, st, e);
    PhasesProgress(jobs, st, e);
    forall q ensures Distinct(LockOrder(next, q)) {
      assert Distinct(LockOrder(st, q));
    }
    assert forall t | t in next.history.failed :: t in st.history.failed || e == WriteFails(t);
  }

  /** A failing write changes nothing that the panel's invariant speaks of. */
  lemma PanelKeptByFailure(jobs: map<TaskId, Job>, panels: map<PanelId, Panel>, st: State, t: TaskId, p: PanelId)
    requires RunInvariant(jobs, panels, st, p) && Enabled(jobs, st, WriteFails(t)) && p in st.panels
    ensures PanelInvariant(jobs, panels[p], Next(jobs, st, WriteFails(t)), p)
  {
    var order, failed, first := LockOrder(st, p), st.history.failed, panels[p];
    assert PanelInvariant(jobs, first, st, p);
    assert LockOrder(Next(jobs, st, WriteFails(t)), p) == order;
    if jobs[t].panel == p {
      assert st.holder[p] == t;
      SerialIgnoresOthersFailing(jobs, first.kind, first.custom, order[..|order| - 1], failed, t);
    } else {
      SerialIgnoresOthersFailing(jobs, first.kind, first.custom, order, failed, t);
      if p in st.holder {
        SerialIgnoresOthersFailing(jobs, first.kind, first.custom, order[..|order| - 1], failed, t);
      }
    }
  }

  lemma PanelKeptByWrite(jobs: map<TaskId, Job>, panels: map<PanelId, Panel>, st: State, t: TaskId, p: PanelId)
    requires RunInvariant(jobs, panels, st, p) && Enabled(jobs, st, Write(t)) && p in st.panels
    ensures PanelInvariant(jobs, panels[p], Next(jobs, st, Write(t)), p)
  {
    assert PanelInvariant(jobs, panels[p], st, p);
    assert LockOrder(Next(jobs, st, Write(t)), p) == LockOrder(st, p);
  }

  lemma PanelKeptByCompute(jobs: map<TaskId, Job>, panels: map<PanelId, Panel>, st: State, t: TaskId, p: PanelId)
    requires RunInvariant(jobs, panels, st, p) && Enabled(jobs, st, Compute(t)) && p in st.panels
    ensures PanelInvariant(jobs, panels[p], Next(jobs, st, Compute(t)), p)
  {
    assert PanelInvariant(jobs, panels[p], st, p);
    assert LockOrder(Next(jobs, st, Compute(t)), p) == LockOrder(st, p);
  }

  lemma PanelKeptByAcquire(jobs: map<TaskId, Job>, panels: map<PanelId, Panel>, st: State, t: TaskId, p: PanelId)
    requires RunInvariant(jobs, panels, st, p) && Enabled(jobs, st, Acquire(t)) && p in st.panels
    ensures PanelInvariant(jobs, panels[p], Next(jobs, st, Acquire(t)), p)
  {
    assert PanelInvariant(jobs, panels[p], st, p);
    var order := LockOrder(st, p);
    if jobs[t].panel == p {
      assert LockOrder(Next(jobs, st, Acquire(t)), p)[..|order|] == order;
    } else {
      assert LockOrder(Next(jobs, st, Acquire(t)), p) == order;
    }
  }

  lemma PanelKept(jobs: map<TaskId, Job>, panels: map<PanelId, Panel>, st: State, e: Event, p: PanelId)
    requires RunInvariant(jobs, panels, st, p) && Enabled(jobs, st, e)
    requires p in Next(jobs, st, e).panels && !(e.WriteUnlocked? && e.p == p)
    ensures p in st.panels
    ensures PanelInvariant(jobs, panels[p], Next(jobs, st, e), p)
  {
    assert PanelInvariant(jobs, panels[p], st, p);
    match e
    case WriteFails(t) => PanelKeptByFailure(jobs, panels, st, t, p);
    case Write(t) => PanelKeptByWrite(jobs, panels, st, t, p);
    case Acquire(t) => PanelKeptByAcquire(jobs, panels, st, t, p);
    case Compute(t) => PanelKeptByCompute(jobs, panels, st, t, p);
    case _ => assert LockOrder(Next(jobs, st, e), p) == LockOrder(st, p);
  }

  lemma LocksAndHistoryKept(jobs: map<TaskId, Job>, st: State, e: Event)
    requires LockInvariant(jobs, st) && HistoryInvariant(jobs, st) && Enabled(jobs, st, e)
    ensures LockInvariant(jobs, Next(jobs, st, e)) && HistoryInvariant(jobs, Next(jobs, st, e))
  {
    LocksKept(jobs, st, e);
    if e.Acquire? {
      HistoryKeptByAcquire(jobs, st, e.t);
    } else {
      HistoryKept(jobs, st, e);
    }
  }

  lemma {:induction false} LocksAlwaysKept(jobs: map<TaskId, Job>, panels: map<PanelId, Panel>, schedule: seq<Event>)
    ensures var st := Exec(jobs, Start(panels, jobs), schedule);
            LockInvariant(jobs, st) && HistoryInvariant(jobs, st) && st.panels.Keys <= panels.Keys
  {
    if schedule != [] {
      var before, e := schedule[..|schedule| - 1], schedule[|schedule| - 1];
      LocksAlwaysKept(jobs, panels, before);
      var st := Exec(jobs, Start(panels, jobs), before);
      if Enabled(jobs, st, e) {
        LocksAndHistoryKept(jobs, st, e);
      }
    }
  }

  lemma {:induction false} EveryRunKeepsInvariant(jobs: map<TaskId, Job>, panels: map<PanelId, Panel>, schedule: seq<Event>, p: PanelId)
    requires OnlyLocked(schedule, p)
    ensures RunInvariant(jobs, panels, Exec(jobs, Start(panels, jobs), schedule), p)
  {
    LocksAlwaysKept(jobs, panels, schedule);
    if schedule != [] {
      var before, e := schedule[..|schedule| - 1], schedule[|schedule| - 1];
      assert e in schedule;
      EveryRunKeepsInvariant(jobs, panels, before, p);
      var st := Exec(jobs, Start(panels, jobs), before);
      if Enabled(jobs, st, e) && p in Next(jobs, st, e).panels {
        PanelKept(jobs, panels, st, e, p);
      }
    }
  }

  /**
   Linearizability: however the handlers interleave, once nobody holds a panel's lock
   its custom state is what the updates give one at a time, in the order the lock was taken.
   The edits that bypass the lock are the business of the last part of this module.
   */
  lemma Linearizable(jobs: map<TaskId, Job>, panels: map<PanelId, Panel>, schedule: seq<Event>, p: PanelId)
    requires OnlyLocked(schedule, p)
    requires var st := Exec(jobs, Start(panels, jobs), schedule); p in st.panels && p !in st.holder
    ensures p in panels
    ensures var st := Exec(jobs, Start(panels, jobs), schedule);
            st.panels[p].custom == Serial(jobs, panels[p].kind, panels[p].custom, LockOrder(st, p), st.history.failed)
  {
    EveryRunKeepsInvariant(jobs, panels, schedule, p);
  }

  // ----- no update is lost -----

  datatype Field = StatusField | UnviewedField | MeterField

  /** A mutator that writes the context meter and leaves every other field alone. */
  ghost predicate WritesMeter(mutator: Custom -> Custom, usage: string) {
    forall c :: mutator(c) == c.(contextUsage := Some(Some(usage)))
  }

  /** Every mutation of the order writes the meter, with the string `usage` gives. */
  ghost predicate MeterMutations(jobs: map<TaskId, Job>, order: seq<TaskId>, usage: TaskId -> string) {
    forall t | t in order ::
      t in jobs && (jobs[t].update.Mutation? ==> WritesMeter(jobs[t].update.mutator, usage(t)))
  }

  predicate Writes(u: Update, field: Field) {
    match field
    case StatusField => u.StatusWrite?
    case UnviewedField => u.StatusWrite? && u.unviewed.Some?
    case MeterField => u.Mutation?
  }

  /** The last task of the order that wrote the field. */
  ghost function LastWriter(jobs: map<TaskId, Job>, kind: PanelKind, order: seq<TaskId>, failed: set<TaskId>,
                            field: Field): (w: Option<TaskId>)
    ensures w.Some? ==> w.value in order && w.value in jobs && Writes(jobs[w.value].update, field)
  {
    if order == [] then None
    else
      var t := order[|order| - 1];
      if t in jobs && t !in failed && Accepts(kind, jobs[t].update) && Writes(jobs[t].update, field) then Some(t)
      else LastWriter(jobs, kind, order[..|order| - 1], failed, field)
  }

  /** The field holds what its writer put there, or what it held at the start. */
  ghost predicate HoldsLast(jobs: map<TaskId, Job>, field: Field, first: Custom, end: Custom, usage: TaskId -> string,
                            writer: Option<TaskId>)
    requires writer.Some? ==> writer.value in jobs && Writes(jobs[writer.value].update, field)
  {
    match field
    case StatusField =>
      if writer.None? then end.panelStatus == first.panelStatus && end.lastActivityTime == first.lastActivityTime
      else
        && end.panelStatus == Some(jobs[writer.value].update.status)
        && end.lastActivityTime == Some(jobs[writer.value].update.now)
    case UnviewedField =>
      end.hasUnviewedContent
      == if writer.None? then first.hasUnviewedContent else jobs[writer.value].update.unviewed
    case MeterField =>
      end.contextUsage == if writer.None? then first.contextUsage else Some(Some(usage(writer.value)))
  }

  lemma {:induction false} SerialKeepsFields(jobs: map<TaskId, Job>, kind: PanelKind, custom: Option<Custom>,
                                             order: seq<TaskId>, failed: set<TaskId>, usage: TaskId -> string, field: Field)
    requires MeterMutations(jobs, order, usage)
    ensures HoldsLast(jobs, field, custom.GetOr(EMPTY), Serial(jobs, kind, custom, order, failed).GetOr(EMPTY), usage,
                      LastWriter(jobs, kind, order, failed, field))
    ensures Serial(jobs, kind, custom, order, failed).GetOr(EMPTY).other == custom.GetOr(EMPTY).other
  {
    if order != [] {
      var t := order[|order| - 1];
      assert t in order;
      SerialKeepsFields(jobs, kind, custom, order[..|order| - 1], failed, usage, field);
    }
  }

  /**
   In every interleaving: status writes keep the meter, meter writes keep the status. Each field ends
   with the write of the last updater, by lock order, that wrote it and did not fail.
   */
  lemma NoUpdateLost(jobs: map<TaskId, Job>, panels: map<PanelId, Panel>, schedule: seq<Event>, p: PanelId,
                     usage: TaskId -> string, field: Field)
    requires OnlyLocked(schedule, p)
    requires var st := Exec(jobs, Start(panels, jobs), schedule);
             p in st.panels && p !in st.holder && MeterMutations(jobs, LockOrder(st, p), usage)
    ensures p in panels
    ensures var st := Exec(jobs, Start(panels, jobs), schedule);
            var first, end := panels[p].custom.GetOr(EMPTY), st.panels[p].custom.GetOr(EMPTY);
            && HoldsLast(jobs, field, first, end, usage,
                         LastWriter(jobs, panels[p].kind, LockOrder(st, p), st.history.failed, field))
            && end.other == first.other
  {
    Linearizable(jobs, panels, schedule, p);
    var st := Exec(jobs, Start(panels, jobs), schedule);
    SerialKeepsFields(jobs, panels[p].kind, panels[p].custom, LockOrder(st, p), st.history.failed, usage, field);
  }

  // ----- what the panel-state lock does not protect -----

  /** The updater that has read panel `p` while its active flag was not `active`, and has still to write. */
  function StaleReader(st: State, p: PanelId, active: bool): Option<TaskId> {
    if p in st.holder && st.holder[p] in st.phase && st.phase[st.holder[p]].Read?
       && st.phase[st.holder[p]].next.isActive != active
    then Some(st.holder[p]) else None
  }

  /** No activation, deletion or written edit of panel `p`. */
  predicate LeavesActivation(schedule: seq<Event>, p: PanelId) {
    forall e | e in schedule :: !((e.SetActive? || e.Delete? || e.WriteUnlocked?) && e.p == p)
  }

  /** The schedule gets that task to store its panel state. */
  ghost predicate Stores(jobs: map<TaskId, Job>, st: State, schedule: seq<Event>, t: Option<TaskId>) {
    t.Some? && schedule != [] &&
    var before, e := schedule[..|schedule| - 1], schedule[|schedule| - 1];
    Stores(jobs, st, before, t) || (e == Write(t.value) && Enabled(jobs, Exec(jobs, st, before), e))
  }

  /** What a later state says of an activation, `lost` or not, given who was stale when it happened. */
  ghost predicate Fate(jobs: map<TaskId, Job>, st: State, p: PanelId, active: bool, stale: Option<TaskId>, lost: bool) {
    && LockInvariant(jobs, st)
    && p in st.panels
    && st.panels[p].isActive == (active != lost)
    && (forall t | t in st.phase && st.phase[t].Read? && jobs[t].panel == p && stale != Some(t) ::
          st.phase[t].next.isActive == (active != lost))
    && (stale.Some? ==>
        && stale.value in jobs && jobs[stale.value].panel == p
        && match st.phase[stale.value]
           case Read(next) => !lost && next.isActive != active
           case Leaving => true
           case Done => true
           case _ => false)
  }

  lemma FateOfWrite(jobs: map<TaskId, Job>, st: State, p: PanelId, active: bool, stale: Option<TaskId>, lost: bool, t: TaskId)
    requires Fate(jobs, st, p, active, stale, lost) && Enabled(jobs, st, Write(t))
    requires LockInvariant(jobs, Next(jobs, st, Write(t)))
    ensures Fate(jobs, Next(jobs, st, Write(t)), p, active, stale, lost || stale == Some(t))
  {
    if jobs[t].panel == p {
      assert st.holder[p] == t;
    }
  }

  lemma FateOfCompute(jobs: map<TaskId, Job>, st: State, p: PanelId, active: bool, stale: Option<TaskId>, lost: bool, t: TaskId)
    requires Fate(jobs, st, p, active, stale, lost) && Enabled(jobs, st, Compute(t))
    requires LockInvariant(jobs, Next(jobs, st, Compute(t)))
    ensures Fate(jobs, Next(jobs, st, Compute(t)), p, active, stale, lost)
  {
  }

  lemma FateOfOther(jobs: map<TaskId, Job>, st: State, p: PanelId, active: bool, stale: Option<TaskId>, lost: bool, e: Event)
    requires Fate(jobs, st, p, active, stale, lost) && Enabled(jobs, st, e) && !e.Write? && !e.Compute?
    requires !((e.SetActive? || e.Delete? || e.WriteUnlocked?) && e.p == p)
    requires LockInvariant(jobs, Next(jobs, st, e))
    ensures Fate(jobs, Next(jobs, st, e), p, active, stale, lost)
  {
  }

  lemma FateStep(jobs: map<TaskId, Job>, st: State, p: PanelId, active: bool, stale: Option<TaskId>, lost: bool, e: Event)
    requires Fate(jobs, st, p, active, stale, lost) && Enabled(jobs, st, e)
    requires !((e.SetActive? || e.Delete? || e.WriteUnlocked?) && e.p == p)
    ensures Fate(jobs, Next(jobs, st, e), p, active, stale, lost || (stale.Some? && e == Write(stale.value)))
  {
    LocksKept(jobs, st, e);
    match e
    case Write(t) => FateOfWrite(jobs, st, p, active, stale, lost, t);
    case Compute(t) => FateOfCompute(jobs, st, p, active, stale, lost, t);
    case _ => FateOfOther(jobs, st, p, active, stale, lost, e);
  }

  lemma {:induction false} ActivationFate(jobs: map<TaskId, Job>, st: State, p: PanelId, active: bool, stale: Option<TaskId>,
                                          schedule: seq<Event>)
    requires Fate(jobs, st, p, active, stale, false)
    requires LeavesActivation(schedule, p)
    ensures Fate(jobs, Exec(jobs, st, schedule), p, active, stale, Stores(jobs, st, schedule, stale))
  {
    if schedule != [] {
      var before, e := schedule[..|schedule| - 1], schedule[|schedule| - 1];
      assert e in schedule;
      ActivationFate(jobs, st, p, active, stale, before);
      var mid := Exec(jobs, st, before);
      if Enabled(jobs, mid, e) {
        FateStep(jobs, mid, p, active, stale, Stores(jobs, st, before, stale), e);
      }
    }
  }

  /**
   The activation of a panel takes no panel-state lock, so an updater that read the panel
   before it and writes after it takes it back; nothing else does.
   */
  lemma ActivationLostIffStaleWriter(jobs: map<TaskId, Job>, panels: map<PanelId, Panel>, prior: seq<Event>,
                                     p: PanelId, active: bool, later: seq<Event>)
    requires p in Exec(jobs, Start(panels, jobs), prior).panels
    requires LeavesActivation(later, p)
    ensures var st := Next(jobs, Exec(jobs, Start(panels, jobs), prior), SetActive(p, active));
            var end := Exec(jobs, st, later);
            && p in end.panels
            && (end.panels[p].isActive == active <==> !Stores(jobs, st, later, StaleReader(st, p, active)))
  {
    var prev := Exec(jobs, Start(panels, jobs), prior);
    LocksAlwaysKept(jobs, panels, prior);
    LocksKept(jobs, prev, SetActive(p, active));
    var st := Next(jobs, prev, SetActive(p, active));
    ActivationFate(jobs, st, p, active, StaleReader(st, p, active), later);
  }

  lemma ExecOneMore(jobs: map<TaskId, Job>, st: State, schedule: seq<Event>, e: Event)
    requires Enabled(jobs, Exec(jobs, st, schedule), e)
    ensures Exec(jobs, st, schedule + [e]) == Next(jobs, Exec(jobs, st, schedule), e)
  {
    assert (schedule + [e])[..|schedule|] == schedule;
  }

  /** A run in which a status write takes an activation back. */
  lemma ActivationCanBeLost(now: string)
    ensures var jobs := map[0 := Job("chat", StatusWrite(Running, None, now))];
            var start := Start(map["chat" := Panel(Claude, false, None)], jobs);
            var end := Exec(jobs, start, [Acquire(0)] + [Compute(0)] + [SetActive("chat", true)] + [Write(0)]);
            "chat" in end.panels && !end.panels["chat"].isActive
  {
    var jobs := map[0 := Job("chat", StatusWrite(Running, None, now))];
    var start := Start(map["chat" := Panel(Claude, false, None)], jobs);
    ExecOneMore(jobs, start, [], Acquire(0));
    assert [] + [Acquire(0)] == [Acquire(0)];
    ExecOneMore(jobs, start, [Acquire(0)], Compute(0));
    ExecOneMore(jobs, start, [Acquire(0)] + [Compute(0)], SetActive("chat", true));
    ExecOneMore(jobs, start, [Acquire(0)] + [Compute(0)] + [SetActive("chat", true)], Write(0));
  }
}
