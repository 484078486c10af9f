/**
 What one undisturbed updater or edit of PanelUpdates stores, field by field, after any run; and that
 the lock of a panel can always be given back.
 */
module PanelOutcomes {
  import opened Options
  import opened Panels
  import opened PanelUpdates

  /** The custom state before, an absent one read as empty. */
  function Was(panel: Panel): Custom {
    panel.custom.GetOr(EMPTY)
  }

  /** A status write gives a Claude panel the status, the time and the flag if there is one, and nothing else; other panels nothing. */
  ghost predicate StatusStored(before: Panel, after: Panel, status: PanelStatus, unviewed: Option<bool>, now: string) {
    if before.kind != Claude then after == before
    else
      && after.kind == Claude && after.isActive == before.isActive && after.custom.Some?
      && var was, got := Was(before), after.custom.value;
         && got.panelStatus == Some(status) && got.lastActivityTime == Some(now)
         && got.hasUnviewedContent == (if unviewed.Some? then unviewed else was.hasUnviewedContent)
         && got.contextUsage == was.contextUsage && got.other == was.other
  }

  /** A mutator gets a copy in which the context meter is at least null, and its result is stored. */
  ghost predicate MutationStored(before: Panel, after: Panel, mutator: Custom -> Custom) {
    && after.kind == before.kind && after.isActive == before.isActive
    && var was := Was(before);
       after.custom == Some(mutator(Custom(was.panelStatus, was.hasUnviewedContent, was.lastActivityTime,
                                           if was.contextUsage.None? then Some(None) else was.contextUsage, was.other)))
  }

  /** Clearing takes the flag off a Claude panel, and the status "completed, unviewed" with it. */
  ghost predicate ClearStored(before: Panel, after: Panel, now: string) {
    if before.kind != Claude then after == before
    else
      && after.kind == Claude && after.isActive == before.isActive && after.custom.Some?
      && var was, got := Was(before), after.custom.value;
         && got.hasUnviewedContent == Some(false) && got.lastActivityTime == Some(now)
         && got.panelStatus == (if was.panelStatus == Some(CompletedUnviewed) then Some(Stopped) else was.panelStatus)
         && got.contextUsage == was.contextUsage && got.other == was.other
  }


  lemma ThreeMore(jobs: map<TaskId, Job>, start: State, schedule: seq<Event>, a: Event, b: Event, c: Event)
    requires Enabled(jobs, Exec(jobs, start, schedule), a)
    requires Enabled(jobs, Next(jobs, Exec(jobs, start, schedule), a), b)
    requires Enabled(jobs, Next(jobs, Next(jobs, Exec(jobs, start, schedule), a), b), c)
    ensures Exec(jobs, start, schedule + [a] + [b] + [c]) == Next(jobs, Next(jobs, Next(jobs, Exec(jobs, start, schedule), a), b), c)
  {
    ExecOneMore(jobs, start, schedule, a);
    ExecOneMore(jobs, start, schedule + [a], b);
    ExecOneMore(jobs, start, schedule + [a] + [b], c);
  }

  /** What the updater stores is what its panel then holds, and the lock is free again. */
  ghost predicate Stored(before: State, after: State, p: PanelId, update: Update) {
    && after.panels.Keys == before.panels.Keys && p !in after.holder
    && (forall q | q in before.panels && q != p :: after.panels[q] == before.panels[q])
    && (p in before.panels ==>
          match update
          case StatusWrite(status, unviewed, now) => StatusStored(before.panels[p], after.panels[p], status, unviewed, now)
          case Mutation(mutator) => MutationStored(before.panels[p], after.panels[p], mutator))
  }

  /** After any run, an updater that finds its panel's lock free and is not interrupted. */
  lemma UpdaterStores(jobs: map<TaskId, Job>, panels: map<PanelId, Panel>, schedule: seq<Event>, t: TaskId)
    requires t in jobs
    requires var st := Exec(jobs, Start(panels, jobs), schedule);
             t in st.phase && st.phase[t].AwaitingLock? && jobs[t].panel !in st.holder
    ensures var st := Exec(jobs, Start(panels, jobs), schedule);
            var p := jobs[t].panel;
            var writes := p in st.panels && (jobs[t].update.Mutation? || st.panels[p].kind == Claude);
            var end := if writes then Exec(jobs, Start(panels, jobs), schedule + [Acquire(t)] + [Compute(t)] + [Write(t)] + [Release(t)])
                       else Exec(jobs, Start(panels, jobs), schedule + [Acquire(t)] + [Compute(t)] + [Release(t)]);
            && end.phase == st.phase[t := Done] && Stored(st, end, p, jobs[t].update)
  {
    var start := Start(panels, jobs);
    var st, p := Exec(jobs, start, schedule), jobs[t].panel;
    if p in st.panels && (jobs[t].update.Mutation? || st.panels[p].kind == Claude) {
      ThreeMore(jobs, start, schedule, Acquire(t), Compute(t), Write(t));
      ExecOneMore(jobs, start, schedule + [Acquire(t)] + [Compute(t)] + [Write(t)], Release(t));
    } else {
      ThreeMore(jobs, start, schedule, Acquire(t), Compute(t), Release(t));
    }
  }

  ghost predicate EditStored(before: Panel, after: Panel, edit: Edit) {
    match edit
    case ClearUnviewed(now) => ClearStored(before, after, now)
    case Replace(isActive, custom) => after == Panel(before.kind, isActive, custom)
  }

  lemma EditComesOut(panel: Panel, edit: Edit)
    ensures EditStored(panel, if Edits(panel.kind, edit) then Edited(panel, edit) else panel, edit)
  {
  }

  lemma EditRuns(jobs: map<TaskId, Job>, st: State, w: EditId, p: PanelId, edit: Edit)
    requires w !in st.edits && p in st.panels
    ensures var read := Next(jobs, st, ReadUnlocked(w, p, edit));
            if Edits(st.panels[p].kind, edit) then
              && Enabled(jobs, read, WriteUnlocked(w, p, edit))
              && Next(jobs, read, WriteUnlocked(w, p, edit)) == st.(panels := st.panels[p := Edited(st.panels[p], edit)])
            else read == st && !Enabled(jobs, st, WriteUnlocked(w, p, edit))
  {
    if Edits(st.panels[p].kind, edit) {
      var read := Next(jobs, st, ReadUnlocked(w, p, edit));
      assert read.edits - {w} == st.edits;
    }
  }

  /** After any run, an edit that is not interrupted between its read and its write. */
  lemma EditStores(jobs: map<TaskId, Job>, panels: map<PanelId, Panel>, schedule: seq<Event>, w: EditId, p: PanelId, edit: Edit)
    requires var st := Exec(jobs, Start(panels, jobs), schedule); w !in st.edits && p in st.panels
    ensures var st := Exec(jobs, Start(panels, jobs), schedule);
            var end := Exec(jobs, Start(panels, jobs), schedule + [ReadUnlocked(w, p, edit)] + [WriteUnlocked(w, p, edit)]);
            && p in end.panels && end == st.(panels := st.panels[p := end.panels[p]])
            && EditStored(st.panels[p], end.panels[p], edit)
  {
    var start := Start(panels, jobs);
    var st := Exec(jobs, start, schedule);
    ExecOneMore(jobs, start, schedule, ReadUnlocked(w, p, edit));
    EditRuns(jobs, st, w, p, edit);
    EditComesOut(st.panels[p], edit);
    var both := schedule + [ReadUnlocked(w, p, edit)] + [WriteUnlocked(w, p, edit)];
    assert both[..|both| - 1] == schedule + [ReadUnlocked(w, p, edit)];
    assert st.panels[p := st.panels[p]] == st.panels;
  }

  /** Failures, after any run: a wait that times out ends the task, a failing write only its turn. */
  lemma FailuresStoreNothing(jobs: map<TaskId, Job>, panels: map<PanelId, Panel>, schedule: seq<Event>, t: TaskId)
    requires var st := Exec(jobs, Start(panels, jobs), schedule);
             t in jobs && t in st.phase && (st.phase[t].AwaitingLock? || st.phase[t].Read?)
    ensures var st := Exec(jobs, Start(panels, jobs), schedule);
            var end := Exec(jobs, Start(panels, jobs), schedule + [if st.phase[t].Read? then WriteFails(t) else TimeOut(t)]);
            && end.panels == st.panels && end.holder == st.holder && end.edits == st.edits
            && end.phase == st.phase[t := if st.phase[t].Read? then Leaving else Done]
  {
    var st := Exec(jobs, Start(panels, jobs), schedule);
    ExecOneMore(jobs, Start(panels, jobs), schedule, if st.phase[t].Read? then WriteFails(t) else TimeOut(t));
  }

  /** Activation and deletion, after any run. */
  lemma ActivationStores(jobs: map<TaskId, Job>, panels: map<PanelId, Panel>, schedule: seq<Event>, p: PanelId, active: bool)
    ensures var st := Exec(jobs, Start(panels, jobs), schedule);
            var activated, deleted := Exec(jobs, Start(panels, jobs), schedule + [SetActive(p, active)]).panels,
                                      Exec(jobs, Start(panels, jobs), schedule + [Delete(p)]).panels;
            && activated == (if p in st.panels then st.panels[p := Panel(st.panels[p].kind, active, st.panels[p].custom)] else st.panels)
            && deleted == st.panels - {p}
  {
    ExecOneMore(jobs, Start(panels, jobs), schedule, SetActive(p, active));
    ExecOneMore(jobs, Start(panels, jobs), schedule, Delete(p));
  }

  /** A deleted panel stays deleted, whatever snapshots of it are still to be written. */
  lemma {:induction false} DeletedStaysDeleted(jobs: map<TaskId, Job>, panels: map<PanelId, Panel>, schedule: seq<Event>, later: seq<Event>, p: PanelId)
    ensures p !in Exec(jobs, Start(panels, jobs), schedule + [Delete(p)] + later).panels
  {
    var start := Start(panels, jobs);
    if later == [] {
      ActivationStores(jobs, panels, schedule, p, true);
      assert schedule + [Delete(p)] + later == schedule + [Delete(p)];
    } else {
      var front := later[..|later| - 1];
      DeletedStaysDeleted(jobs, panels, schedule, front, p);
      var all := schedule + [Delete(p)] + later;
      assert all[..|all| - 1] == schedule + [Delete(p)] + front;
    }
  }

  /** No lock is ever stuck: from every reachable state its holder alone can give it back, in at most three steps. */
  lemma LockCanBeReleased(jobs: map<TaskId, Job>, panels: map<PanelId, Panel>, schedule: seq<Event>, p: PanelId) returns (more: seq<Event>)
    requires p in Exec(jobs, Start(panels, jobs), schedule).holder
    ensures |more| <= 3
    ensures p !in Exec(jobs, Start(panels, jobs), schedule + more).holder
  {
    var start := Start(panels, jobs);
    LocksAlwaysKept(jobs, panels, schedule);
    var st := Exec(jobs, start, schedule);
    var t := st.holder[p];
    if st.phase[t].Leaving? {
      more := [Release(t)];
      ExecOneMore(jobs, start, schedule, Release(t));
    } else if st.phase[t].Read? {
      more := [Write(t)] + [Release(t)];
      ExecOneMore(jobs, start, schedule, Write(t));
      ExecOneMore(jobs, start, schedule + [Write(t)], Release(t));
      assert schedule + more == schedule + [Write(t)] + [Release(t)];
    } else {
      var read := Next(jobs, st, Compute(t));
      if read.phase[t].Leaving? {
        more := [Compute(t)] + [Release(t)];
        ExecOneMore(jobs, start, schedule, Compute(t));
        ExecOneMore(jobs, start, schedule + [Compute(t)], Release(t));
        assert schedule + more == schedule + [Compute(t)] + [Release(t)];
      } else {
        more := [Compute(t)] + [Write(t)] + [Release(t)];
        ThreeMore(jobs, start, schedule, Compute(t), Write(t), Release(t));
        assert schedule + more == schedule + [Compute(t)] + [Write(t)] + [Release(t)];
      }
    }
  }
}
