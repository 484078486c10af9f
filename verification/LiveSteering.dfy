/**
 Steering a step of a run (main/src/monitorActionsComposition.ts): which running agents
 the operator's guidance is pushed to, whether it is stored for later spawns, and whether
 the answer the operator gets is true.
 */
module LiveSteering {
  import opened Options
  import opened Sequences

  type RunId = string
  type StepId = string
  type TaskId = string
  type SpawnKey = string

  // ----- the rows -----

  datatype Step = Step(id: StepId, fanOut: Option<seq<StepId>>)

  /** The run's frozen workflow: phases of steps. */
  type Definition = seq<seq<Step>>

  datatype RunRow = RunRow(
    programmatic: bool,
    definition: Option<Definition>,
    currentStep: Option<StepId>,
    batch: Option<string>,
    project: Option<int>)

  datatype LaneRow = LaneRow(batch: string, task: TaskId, running: bool, currentStep: Option<StepId>)

  datatype TaskRow = TaskRow(id: TaskId, project: Option<int>, ref: Option<string>)

  datatype Database = Database(runs: map<RunId, RunRow>, lanes: seq<LaneRow>, tasks: seq<TaskRow>)

  /** UNIQUE (batch_id, task_id) */
  predicate UniqueLanes(db: Database) {
    forall i, j :: 0 <= i < j < |db.lanes| ==> db.lanes[i].batch != db.lanes[j].batch || db.lanes[i].task != db.lanes[j].task
  }

  // ----- validation -----

  datatype Validation = Valid | RunNotFound | NotProgrammatic | NoDefinition | UnknownStep

  predicate StepMatches(s: Step, id: StepId) {
    s.id == id || (s.fanOut.Some? && id in s.fanOut.value)
  }

  predicate InDefinition(def: Definition, id: StepId) {
    exists p | 0 <= p < |def| :: exists s | 0 <= s < |def[p]| :: StepMatches(def[p][s], id)
  }

  function ValidateRunStep(db: Database, run: RunId, step: StepId): Validation {
    if run !in db.runs then RunNotFound
    else if !db.runs[run].programmatic then NotProgrammatic
    else if db.runs[run].definition.None? then NoDefinition
    else if !InDefinition(db.runs[run].definition.value, step) then UnknownStep
    else Valid
  }

  predicate IsOuterFanOutStep(db: Database, run: RunId, step: StepId) {
    && run in db.runs && db.runs[run].definition.Some?
    && var def := db.runs[run].definition.value;
       exists p | 0 <= p < |def| :: exists s | 0 <= s < |def[p]| :: def[p][s].id == step && def[p][s].fanOut.Some?
  }

  // ----- target selection -----

  function LaneKey(run: RunId, task: TaskId): SpawnKey {
    run + ":" + task
  }

  predicate LaneSelected(lane: LaneRow, batch: string, step: StepId, broadcast: bool) {
    lane.batch == batch && lane.running && (broadcast || lane.currentStep == Some(step))
  }

  function SelectLanes(lanes: seq<LaneRow>, batch: string, step: StepId, broadcast: bool): seq<LaneRow> {
    if lanes == [] then []
    else
      var rest, last := SelectLanes(lanes[..|lanes| - 1], batch, step, broadcast), lanes[|lanes| - 1];
      if LaneSelected(last, batch, step, broadcast) then rest + [last] else rest
  }

  /** The first task with this id, or with this display ref in the run's project. */
  function ResolveTask(tasks: seq<TaskRow>, project: Option<int>, ref: string): Option<TaskId> {
    if tasks == [] then None
    else if tasks[0].id == ref || (project.Some? && tasks[0].project == project && tasks[0].ref == Some(ref)) then Some(tasks[0].id)
    else ResolveTask(tasks[1..], project, ref)
  }

  function OnlyTask(lanes: seq<LaneRow>, task: Option<TaskId>): seq<LaneRow> {
    if lanes == [] then []
    else
      var rest, last := OnlyTask(lanes[..|lanes| - 1], task), lanes[|lanes| - 1];
      if task == Some(last.task) then rest + [last] else rest
  }

  function LaneKeys(run: RunId, lanes: seq<LaneRow>): seq<SpawnKey> {
    seq(|lanes|, i requires 0 <= i < |lanes| => LaneKey(run, lanes[i].task))
  }

  /** The lanes whose agents a call may reach. */
  function ChosenLanes(db: Database, run: RunId, step: StepId, taskRef: Option<string>, broadcast: bool): seq<LaneRow>
    requires run in db.runs
  {
    var row := db.runs[run];
    if row.batch.None? || row.batch.value == "" then []
    else
      var selected := SelectLanes(db.lanes, row.batch.value, step, broadcast);
      if taskRef.Some? then OnlyTask(selected, ResolveTask(db.tasks, row.project, taskRef.value)) else selected
  }

  function Targets(db: Database, run: RunId, step: StepId, taskRef: Option<string>, broadcast: bool): seq<SpawnKey>
    requires run in db.runs
  {
    LaneKeys(run, ChosenLanes(db, run, step, taskRef, broadcast))
    + (if taskRef.None? && db.runs[run].currentStep == Some(step) then [run] else [])
  }

  // ----- pushing -----

  datatype Push = Accepted | Refused | Threw

  /** The targets that are live, in order. */
  function LiveOnes(targets: seq<SpawnKey>, live: set<SpawnKey>): seq<SpawnKey> {
    if targets == [] then []
    else (if targets[0] in live then [targets[0]] else []) + LiveOnes(targets[1..], live)
  }

  /** Pushes go out in order until one throws. */
  function Attempted(keys: seq<SpawnKey>, push: SpawnKey -> Push): seq<SpawnKey> {
    if keys == [] then []
    else if push(keys[0]) == Threw then [keys[0]]
    else [keys[0]] + Attempted(keys[1..], push)
  }

  function CountAccepted(keys: seq<SpawnKey>, push: SpawnKey -> Push): nat {
    if keys == [] then 0
    else (if push(keys[0]) == Accepted then 1 else 0) + CountAccepted(keys[1..], push)
  }

  predicate SomeThrow(keys: seq<SpawnKey>, push: SpawnKey -> Push) {
    exists i | 0 <= i < |keys| :: push(keys[i]) == Threw
  }

  /** What the environment answers during one call. */
  datatype World = World(live: set<SpawnKey>, push: SpawnKey -> Push, readsThrow: bool)

  /** The keys pushed to. */
  function Pushes(db: Database, w: World, run: RunId, step: StepId, taskRef: Option<string>, broadcast: bool): seq<SpawnKey> {
    if w.readsThrow || w.live == {} || run !in db.runs then []
    else Attempted(LiveOnes(Targets(db, run, step, taskRef, broadcast), w.live), w.push)
  }

  function DeliveredCount(pushes: seq<SpawnKey>, w: World): nat {
    if SomeThrow(pushes, w.push) then 0 else CountAccepted(pushes, w.push)
  }

  // ----- steering -----

  datatype Answer =
    | Invalid(why: Validation)
    | BroadcastLive(agents: nat)
    | NothingToBroadcastTo
    | LaneSteered(agents: nat)
    | LaneNotOnStep
    | StoredGuidance(agents: nat)

  predicate Ok(a: Answer) {
    a.BroadcastLive? || a.LaneSteered? || a.StoredGuidance?
  }

  /** Guidance that is never stored: for an outer fan-out step, and for a single lane. */
  predicate LiveOnly(db: Database, run: RunId, step: StepId, taskRef: Option<string>) {
    IsOuterFanOutStep(db, run, step) || taskRef.Some?
  }

  class Steering {
    const db: Database
    var stored: map<(RunId, StepId), string>
    /** Every call of injectSteering, with the guidance it carried. */
    var pushed: seq<(SpawnKey, string)>

    constructor (db: Database)
      ensures this.db == db && stored == map[] && pushed == []
    {
      this.db := db;
      stored := map[];
      pushed := [];
    }

    method DeliverLiveGuidance(w: World, run: RunId, step: StepId, guidance: string, taskRef: Option<string>, broadcast: bool)
      returns (delivered: nat)
      modifies this`pushed
      ensures pushed == old(pushed) + WithText(Pushes(db, w, run, step, taskRef, broadcast), guidance)
      ensures delivered == DeliveredCount(Pushes(db, w, run, step, taskRef, broadcast), w)
    {
      delivered := 0;
      if w.readsThrow {
        return;
      }
      if w.live == {} {
        return;
      }
      if run !in db.runs {
        return;
      }
      delivered := PushAll(w, Targets(db, run, step, taskRef, broadcast), guidance);
    }

    method PushAll(w: World, targets: seq<SpawnKey>, guidance: string) returns (delivered: nat)
      modifies this`pushed
      ensures var pushes := Attempted(LiveOnes(targets, w.live), w.push);
              && pushed == old(pushed) + WithText(pushes, guidance)
              && delivered == DeliveredCount(pushes, w)
    {
      delivered := 0;
      ghost var all := Attempted(LiveOnes(targets, w.live), w.push);
      ghost var sent: seq<SpawnKey> := [];
      var i := 0;
      while i < |targets|
        invariant 0 <= i <= |targets|
        invariant pushed == old(pushed) + WithText(sent, guidance)
        invariant !SomeThrow(sent, w.push)
        invariant delivered == CountAccepted(sent, w.push)
        invariant all == sent + Attempted(LiveOnes(targets[i..], w.live), w.push)
      {
        var spawnKey := targets[i];
        NextTarget(targets, i, w, sent);
        if spawnKey in w.live {
          CountOneMore(sent, spawnKey, w.push);
          sent := sent + [spawnKey];
          pushed := pushed + [(spawnKey, guidance)];
          if w.push(spawnKey) == Threw {
            assert w.push(sent[|sent| - 1]) == Threw;
            delivered := 0;
            return;
          }
          if w.push(spawnKey) == Accepted {
            delivered := delivered + 1;
          }
        }
        i := i + 1;
      }
      assert sent + [] == sent;
    }

    method SteerStep(w: World, run: RunId, step: StepId, guidance: string, taskRef: Option<string>) returns (a: Answer)
      modifies this
      ensures var outer := IsOuterFanOutStep(db, run, step);
              var pushes := if ValidateRunStep(db, run, step) != Valid then []
                            else Pushes(db, w, run, step, taskRef, outer);
              && pushed == old(pushed) + WithText(pushes, guidance)
              && a == SteerAnswer(db, w, run, step, taskRef)
              && stored == if ValidateRunStep(db, run, step) == Valid && !IsFanOut(db, run, step) && taskRef.None?
                           then old(stored)[(run, step) := guidance] else old(stored)
      ensures forall i | |old(pushed)| <= i < |pushed| :: pushed[i].1 == guidance
    {
      OuterFanOutIsExact(db, run, step);
      var v := ValidateRunStep(db, run, step);
      if v != Valid {
        return Invalid(v);
      }
      if IsOuterFanOutStep(db, run, step) {
        var delivered := DeliverLiveGuidance(w, run, step, guidance, taskRef, true);
        return if delivered > 0 then BroadcastLive(delivered) else NothingToBroadcastTo;
      }
      if taskRef.Some? {
        var delivered := DeliverLiveGuidance(w, run, step, guidance, taskRef, false);
        return if delivered > 0 then LaneSteered(delivered) else LaneNotOnStep;
      }
      stored := stored[(run, step) := guidance];
      var delivered := DeliverLiveGuidance(w, run, step, guidance, None, false);
      return StoredGuidance(delivered);
    }
  }

  /** What is left to push after one more target. */
  lemma NextTarget(targets: seq<SpawnKey>, i: nat, w: World, sent: seq<SpawnKey>)
    requires i < |targets|
    ensures var now := Attempted(LiveOnes(targets[i..], w.live), w.push);
            var later := Attempted(LiveOnes(targets[i + 1..], w.live), w.push);
            var k := targets[i];
            if k !in w.live then now == later
            else if w.push(k) == Threw then sent + now == sent + [k]
            else sent + now == (sent + [k]) + later
  {
    var rest := LiveOnes(targets[i + 1..], w.live);
    assert targets[i..][1..] == targets[i + 1..];
    assert [] + rest == rest;
    assert ([targets[i]] + rest)[1..] == rest;
  }

  function WithText(keys: seq<SpawnKey>, guidance: string): seq<(SpawnKey, string)> {
    seq(|keys|, i requires 0 <= i < |keys| => (keys[i], guidance))
  }

  function SteerAnswer(db: Database, w: World, run: RunId, step: StepId, taskRef: Option<string>): Answer {
    var outer := IsOuterFanOutStep(db, run, step);
    var delivered := DeliveredCount(Pushes(db, w, run, step, taskRef, outer), w);
    if ValidateRunStep(db, run, step) != Valid then Invalid(ValidateRunStep(db, run, step))
    else if outer then (if delivered > 0 then BroadcastLive(delivered) else NothingToBroadcastTo)
    else if taskRef.Some? then (if delivered > 0 then LaneSteered(delivered) else LaneNotOnStep)
    else StoredGuidance(delivered)
  }

  lemma {:induction false} CountOneMore(keys: seq<SpawnKey>, k: SpawnKey, push: SpawnKey -> Push)
    ensures CountAccepted(keys + [k], push) == CountAccepted(keys, push) + (if push(k) == Accepted then 1 else 0)
  {
    if keys != [] {
      CountOneMore(keys[1..], k, push);
      assert (keys + [k])[1..] == keys[1..] + [k];
    } else {
      assert (keys + [k])[1..] == [];
    }
  }

  // ----- who is pushed to -----

  // what the rows say, without the members that compute it

  ghost predicate HasStep(def: Definition, s: Step) {
    exists p | 0 <= p < |def| :: s in def[p]
  }

  /** Every answer of the validation, over the run's row and its workflow's steps. */
  lemma ValidationIsExact(db: Database, run: RunId, step: StepId)
    ensures var v := ValidateRunStep(db, run, step);
            && (v == RunNotFound <==> run !in db.runs)
            && (v == NotProgrammatic <==> run in db.runs && !db.runs[run].programmatic)
            && (v == NoDefinition <==> run in db.runs && db.runs[run].programmatic && db.runs[run].definition.None?)
            && (v == Valid <==> run in db.runs && db.runs[run].programmatic && db.runs[run].definition.Some?
                                && exists s :: HasStep(db.runs[run].definition.value, s)
                                               && (s.id == step || (s.fanOut.Some? && step in s.fanOut.value)))
  {
    if run in db.runs && db.runs[run].definition.Some? {
      DefinitionHas(db.runs[run].definition.value, step);
    }
  }

  lemma DefinitionHas(def: Definition, step: StepId)
    ensures InDefinition(def, step)
            <==> exists s :: HasStep(def, s) && (s.id == step || (s.fanOut.Some? && step in s.fanOut.value))
  {
    if p, k :| 0 <= p < |def| && 0 <= k < |def[p]| && StepMatches(def[p][k], step) {
      assert HasStep(def, def[p][k]);
    }
    if s :| HasStep(def, s) && (s.id == step || (s.fanOut.Some? && step in s.fanOut.value)) {
      var p :| 0 <= p < |def| && s in def[p];
      var k :| 0 <= k < |def[p]| && def[p][k] == s;
      assert StepMatches(def[p][k], step);
    }
  }

  /** A step of the workflow has that id and fans out. */
  ghost predicate IsFanOut(db: Database, run: RunId, step: StepId) {
    && run in db.runs && db.runs[run].definition.Some?
    && exists s :: HasStep(db.runs[run].definition.value, s) && s.id == step && s.fanOut.Some?
  }

  lemma OuterFanOutIsExact(db: Database, run: RunId, step: StepId)
    ensures IsOuterFanOutStep(db, run, step) <==> IsFanOut(db, run, step)
  {
    if run in db.runs && db.runs[run].definition.Some? {
      var def: Definition := db.runs[run].definition.value;
      if p: int, k: int :| 0 <= p < |def| && 0 <= k < |def[p]| && def[p][k].id == step && def[p][k].fanOut.Some? {
        assert HasStep(def, def[p][k]);
      }
      if s :| HasStep(def, s) && s.id == step && s.fanOut.Some? {
        var p :| 0 <= p < |def| && s in def[p];
        var k :| 0 <= k < |def[p]| && def[p][k] == s;
        assert def[p][k].id == step;
      }
    }
  }

  /** The row's own id, or its display ref within the project. */
  ghost predicate Names(t: TaskRow, project: Option<int>, ref: string) {
    t.id == ref || (project.Some? && t.project == project && t.ref == Some(ref))
  }

  /** `id` is the first task the reference names. */
  ghost predicate ResolvesTo(tasks: seq<TaskRow>, project: Option<int>, ref: string, id: TaskId) {
    exists i :: FirstNamed(tasks, project, ref, i) && tasks[i].id == id
  }

  ghost predicate FirstNamed(tasks: seq<TaskRow>, project: Option<int>, ref: string, i: int) {
    0 <= i < |tasks| && Names(tasks[i], project, ref) && forall j :: 0 <= j < i ==> !Names(tasks[j], project, ref)
  }

  lemma {:induction false} ResolutionIsExact(tasks: seq<TaskRow>, project: Option<int>, ref: string, id: TaskId)
    ensures ResolveTask(tasks, project, ref) == Some(id) <==> ResolvesTo(tasks, project, ref, id)
  {
    if tasks != [] {
      var rest := tasks[1..];
      if Names(tasks[0], project, ref) {
        assert FirstNamed(tasks, project, ref, 0);
      } else {
        ResolutionIsExact(rest, project, ref, id);
        forall i | 0 <= i < |rest| ensures FirstNamed(rest, project, ref, i) <==> FirstNamed(tasks, project, ref, i + 1) {
          FirstIsLater(tasks, project, ref, i);
        }
        if i :| FirstNamed(tasks, project, ref, i) && tasks[i].id == id {
          assert FirstNamed(rest, project, ref, i - 1);
        }
      }
    }
  }

  lemma FirstIsLater(tasks: seq<TaskRow>, project: Option<int>, ref: string, i: nat)
    requires i + 1 < |tasks| && !Names(tasks[0], project, ref)
    ensures FirstNamed(tasks[1..], project, ref, i) <==> FirstNamed(tasks, project, ref, i + 1)
  {
    var rest := tasks[1..];
    assert forall j :: 0 <= j < |rest| ==> rest[j] == tasks[j + 1];
    if FirstNamed(rest, project, ref, i) {
      forall j | 0 <= j < i + 1 ensures !Names(tasks[j], project, ref) {
        assert j > 0 ==> tasks[j] == rest[j - 1];
      }
    }
    if FirstNamed(tasks, project, ref, i + 1) {
      forall j | 0 <= j < i ensures !Names(rest[j], project, ref) {
        assert rest[j] == tasks[j + 1];
      }
    }
  }

  /** A lane this call may reach: a running lane of the run's batch, on the step unless broadcasting, the one the reference names if there is one. */
  ghost predicate LaneWanted(db: Database, run: RunId, step: StepId, taskRef: Option<string>, broadcast: bool, lane: LaneRow)
    requires run in db.runs
  {
    var row := db.runs[run];
    && row.batch.Some? && row.batch.value != ""
    && lane.batch == row.batch.value && lane.running && (broadcast || lane.currentStep == Some(step))
    && (taskRef.Some? ==> ResolvesTo(db.tasks, row.project, taskRef.value, lane.task))
  }

  ghost predicate IsTarget(db: Database, run: RunId, step: StepId, taskRef: Option<string>, broadcast: bool, k: SpawnKey)
    requires run in db.runs
  {
    || (k == run && taskRef.None? && db.runs[run].currentStep == Some(step))
    || exists lane | lane in db.lanes :: LaneWanted(db, run, step, taskRef, broadcast, lane) && k == run + ":" + lane.task
  }

  lemma {:induction false} SelectedLanes(lanes: seq<LaneRow>, batch: string, step: StepId, broadcast: bool)
    ensures forall lane :: lane in SelectLanes(lanes, batch, step, broadcast)
                           <==> lane in lanes && LaneSelected(lane, batch, step, broadcast)
  {
    if lanes != [] {
      SelectedLanes(lanes[..|lanes| - 1], batch, step, broadcast);
      assert lanes == lanes[..|lanes| - 1] + [lanes[|lanes| - 1]];
    }
  }

  lemma {:induction false} LanesOfTask(lanes: seq<LaneRow>, task: Option<TaskId>)
    ensures forall lane :: lane in OnlyTask(lanes, task) <==> lane in lanes && task == Some(lane.task)
  {
    if lanes != [] {
      LanesOfTask(lanes[..|lanes| - 1], task);
      assert lanes == lanes[..|lanes| - 1] + [lanes[|lanes| - 1]];
    }
  }

  lemma ChosenAreWanted(db: Database, run: RunId, step: StepId, taskRef: Option<string>, broadcast: bool)
    requires run in db.runs
    ensures forall lane :: lane in ChosenLanes(db, run, step, taskRef, broadcast)
                           <==> lane in db.lanes && LaneWanted(db, run, step, taskRef, broadcast, lane)
  {
    var row := db.runs[run];
    if row.batch.Some? && row.batch.value != "" {
      SelectedLanes(db.lanes, row.batch.value, step, broadcast);
      if taskRef.Some? {
        LanesOfTask(SelectLanes(db.lanes, row.batch.value, step, broadcast), ResolveTask(db.tasks, row.project, taskRef.value));
        forall lane | lane in db.lanes
          ensures ResolveTask(db.tasks, row.project, taskRef.value) == Some(lane.task)
                  <==> ResolvesTo(db.tasks, row.project, taskRef.value, lane.task)
        {
          ResolutionIsExact(db.tasks, row.project, taskRef.value, lane.task);
        }
      }
    }
  }

  lemma TargetsAreExact(db: Database, run: RunId, step: StepId, taskRef: Option<string>, broadcast: bool, k: SpawnKey)
    requires run in db.runs
    ensures k in Targets(db, run, step, taskRef, broadcast) <==> IsTarget(db, run, step, taskRef, broadcast, k)
  {
    var lanes := ChosenLanes(db, run, step, taskRef, broadcast);
    ChosenAreWanted(db, run, step, taskRef, broadcast);
    var keys := LaneKeys(run, lanes);
    if k in keys {
      var i :| 0 <= i < |keys| && keys[i] == k;
      assert lanes[i] in lanes;
    }
    if lane :| lane in db.lanes && LaneWanted(db, run, step, taskRef, broadcast, lane) && k == LaneKey(run, lane.task) {
      var i :| 0 <= i < |lanes| && lanes[i] == lane;
      assert keys[i] == k;
    }
  }

  // ----- at most once -----

  predicate DistinctTasks(lanes: seq<LaneRow>) {
    forall i, j :: 0 <= i < j < |lanes| ==> lanes[i].task != lanes[j].task
  }

  lemma {:induction false} SelectedTasksDistinct(lanes: seq<LaneRow>, batch: string, step: StepId, broadcast: bool)
    requires forall i, j :: 0 <= i < j < |lanes| ==> lanes[i].batch != lanes[j].batch || lanes[i].task != lanes[j].task
    ensures DistinctTasks(SelectLanes(lanes, batch, step, broadcast))
  {
    if lanes != [] {
      var front, last := lanes[..|lanes| - 1], lanes[|lanes| - 1];
      SelectedTasksDistinct(front, batch, step, broadcast);
      SelectedLanes(front, batch, step, broadcast);
      var rest := SelectLanes(front, batch, step, broadcast);
      if LaneSelected(last, batch, step, broadcast) {
        forall i | 0 <= i < |rest| ensures rest[i].task != last.task {
          assert rest[i] in rest && rest[i] in front;
          var k :| 0 <= k < |front| && front[k] == rest[i];
          assert lanes[k] == rest[i];
        }
      }
    }
  }

  lemma {:induction false} OnlyTaskKeepsDistinct(lanes: seq<LaneRow>, task: Option<TaskId>)
    requires DistinctTasks(lanes)
    ensures DistinctTasks(OnlyTask(lanes, task)) && |OnlyTask(lanes, task)| <= 1
  {
    if lanes != [] {
      var front, last := lanes[..|lanes| - 1], lanes[|lanes| - 1];
      OnlyTaskKeepsDistinct(front, task);
      if task == Some(last.task) {
        NoLaneOfTask(front, last.task);
      }
    }
  }

  lemma {:induction false} NoLaneOfTask(lanes: seq<LaneRow>, task: TaskId)
    requires forall i :: 0 <= i < |lanes| ==> lanes[i].task != task
    ensures OnlyTask(lanes, Some(task)) == []
  {
    if lanes != [] {
      NoLaneOfTask(lanes[..|lanes| - 1], task);
    }
  }

  lemma LaneKeyInjective(run: RunId, a: TaskId, b: TaskId)
    ensures LaneKey(run, a) == LaneKey(run, b) <==> a == b
    ensures LaneKey(run, a) != run
  {
    if LaneKey(run, a) == LaneKey(run, b) {
      assert LaneKey(run, a)[|run| + 1..] == a;
      assert LaneKey(run, b)[|run| + 1..] == b;
    }
    assert |LaneKey(run, a)| > |run|;
  }

  /** No key is targeted twice; with a task reference at most one lane is, and never the run agent. */
  lemma TargetsAreDistinct(db: Database, run: RunId, step: StepId, taskRef: Option<string>, broadcast: bool)
    requires run in db.runs && UniqueLanes(db)
    ensures Distinct(Targets(db, run, step, taskRef, broadcast))
    ensures taskRef.Some? ==> |Targets(db, run, step, taskRef, broadcast)| <= 1
                              && run !in Targets(db, run, step, taskRef, broadcast)
  {
    var row := db.runs[run];
    var lanes := ChosenLanes(db, run, step, taskRef, broadcast);
    var targets := Targets(db, run, step, taskRef, broadcast);
    if row.batch.Some? && row.batch.value != "" {
      SelectedTasksDistinct(db.lanes, row.batch.value, step, broadcast);
      if taskRef.Some? {
        OnlyTaskKeepsDistinct(SelectLanes(db.lanes, row.batch.value, step, broadcast),
                              ResolveTask(db.tasks, row.project, taskRef.value));
      }
    }
    assert DistinctTasks(lanes);
    assert targets == LaneKeys(run, lanes) + (if taskRef.None? && row.currentStep == Some(step) then [run] else []);
    forall i, j | 0 <= i < j < |targets| ensures targets[i] != targets[j] {
      LaneKeyInjective(run, lanes[i].task, if j < |lanes| then lanes[j].task else "");
    }
    forall i | 0 <= i < |lanes| ensures LaneKeys(run, lanes)[i] != run {
      LaneKeyInjective(run, lanes[i].task, "");
    }
  }

  lemma {:induction false} LiveOnesAre(targets: seq<SpawnKey>, live: set<SpawnKey>)
    ensures forall k :: k in LiveOnes(targets, live) <==> k in targets && k in live
    ensures Distinct(targets) ==> Distinct(LiveOnes(targets, live))
    ensures |LiveOnes(targets, live)| <= |targets|
  {
    if targets != [] {
      LiveOnesAre(targets[1..], live);
      assert targets == [targets[0]] + targets[1..];
      if Distinct(targets) {
        assert Distinct(targets[1..]);
        assert targets[0] !in targets[1..];
      }
    }
  }

  lemma {:induction false} AttemptedIsPrefix(keys: seq<SpawnKey>, push: SpawnKey -> Push)
    ensures Attempted(keys, push) <= keys
    ensures !SomeThrow(keys, push) ==> Attempted(keys, push) == keys
    ensures SomeThrow(keys, push) <==> SomeThrow(Attempted(keys, push), push)
  {
    if keys != [] {
      AttemptedIsPrefix(keys[1..], push);
      assert keys == [keys[0]] + keys[1..];
      if i :| 0 <= i < |keys| && push(keys[i]) == Threw {
        if i > 0 && push(keys[0]) != Threw {
          assert push(keys[1..][i - 1]) == Threw;
          assert SomeThrow(keys[1..], push);
          var rest := Attempted(keys[1..], push);
          var k :| 0 <= k < |rest| && push(rest[k]) == Threw;
          assert Attempted(keys, push)[k + 1] == rest[k];
        } else {
          assert push(Attempted(keys, push)[0]) == Threw;
        }
      }
    }
  }

  ghost function Accepting(keys: seq<SpawnKey>, push: SpawnKey -> Push): set<SpawnKey> {
    set k | k in keys && push(k) == Accepted
  }

  lemma OneMoreAccepting(first: SpawnKey, rest: seq<SpawnKey>, push: SpawnKey -> Push)
    requires first !in rest
    ensures |Accepting([first] + rest, push)| == (if push(first) == Accepted then 1 else 0) + |Accepting(rest, push)|
  {
    var later := Accepting(rest, push);
    assert first !in later;
    assert Accepting([first] + rest, push) == if push(first) == Accepted then later + {first} else later;
  }

  lemma {:induction false} CountDistinct(keys: seq<SpawnKey>, push: SpawnKey -> Push)
    requires Distinct(keys)
    ensures CountAccepted(keys, push) == |Accepting(keys, push)|
  {
    if keys != [] {
      var first, rest := keys[0], keys[1..];
      assert keys == [first] + rest;
      assert Distinct(rest) && first !in rest;
      CountDistinct(rest, push);
      OneMoreAccepting(first, rest, push);
    }
  }

  /** How many live targets accept, over the rows. */
  ghost function Reached(db: Database, w: World, run: RunId, step: StepId, taskRef: Option<string>, broadcast: bool): nat
    requires run in db.runs
  {
    |set k | k in w.live && IsTarget(db, run, step, taskRef, broadcast, k) && w.push(k) == Accepted|
  }

  lemma ReachedIsCounted(db: Database, w: World, run: RunId, step: StepId, taskRef: Option<string>, broadcast: bool, keys: seq<SpawnKey>)
    requires run in db.runs && Distinct(keys)
    requires forall k :: k in keys <==> k in w.live && IsTarget(db, run, step, taskRef, broadcast, k)
    ensures CountAccepted(keys, w.push) == Reached(db, w, run, step, taskRef, broadcast)
  {
    CountDistinct(keys, w.push);
    assert Accepting(keys, w.push)
        == (set k | k in w.live && IsTarget(db, run, step, taskRef, broadcast, k) && w.push(k) == Accepted);
  }

  /**
   A push goes only to a live key that is a target of this call, to each at most once; with
   no throwing push it goes to every one of them, and the count returned is of those accepted.
   */
  lemma DeliveryIsExact(db: Database, w: World, run: RunId, step: StepId, taskRef: Option<string>, broadcast: bool)
    requires UniqueLanes(db)
    ensures var pushes := Pushes(db, w, run, step, taskRef, broadcast);
            && Distinct(pushes)
            && (forall k | k in pushes :: k in w.live && run in db.runs && IsTarget(db, run, step, taskRef, broadcast, k))
            && (!SomeThrow(pushes, w.push) && !w.readsThrow && run in db.runs ==>
                  && DeliveredCount(pushes, w) == Reached(db, w, run, step, taskRef, broadcast)
                  && forall k | k in w.live && IsTarget(db, run, step, taskRef, broadcast, k) :: k in pushes)
            && (taskRef.Some? ==> |pushes| <= 1 && run !in pushes)
  {
    if run in db.runs {
      var keys := LiveTargets(db, w, run, step, taskRef, broadcast);
      AttemptedIsPrefix(keys, w.push);
      ReachedIsCounted(db, w, run, step, taskRef, broadcast, keys);
      if w.live == {} {
        NoneLive(Targets(db, run, step, taskRef, broadcast), w.live);
      }
    }
  }

  lemma LiveTargets(db: Database, w: World, run: RunId, step: StepId, taskRef: Option<string>, broadcast: bool) returns (keys: seq<SpawnKey>)
    requires UniqueLanes(db) && run in db.runs
    ensures keys == LiveOnes(Targets(db, run, step, taskRef, broadcast), w.live) && Distinct(keys)
    ensures forall k :: k in keys <==> k in w.live && IsTarget(db, run, step, taskRef, broadcast, k)
    ensures taskRef.Some? ==> |keys| <= 1 && run !in keys
  {
    var targets := Targets(db, run, step, taskRef, broadcast);
    keys := LiveOnes(targets, w.live);
    forall k ensures k in targets <==> IsTarget(db, run, step, taskRef, broadcast, k) {
      TargetsAreExact(db, run, step, taskRef, broadcast, k);
    }
    TargetsAreDistinct(db, run, step, taskRef, broadcast);
    LiveOnesAre(targets, w.live);
  }

  // ----- honesty -----

  /** The pushes this steer makes. */
  function SteerPushes(db: Database, w: World, run: RunId, step: StepId, taskRef: Option<string>): seq<SpawnKey> {
    if ValidateRunStep(db, run, step) != Valid then []
    else Pushes(db, w, run, step, taskRef, IsOuterFanOutStep(db, run, step))
  }

  predicate Stores(db: Database, run: RunId, step: StepId, taskRef: Option<string>) {
    ValidateRunStep(db, run, step) == Valid && !LiveOnly(db, run, step, taskRef)
  }

  /** In order: some key accepts before any throws, and a later one throws. */
  predicate AcceptThenThrow(keys: seq<SpawnKey>, push: SpawnKey -> Push) {
    if keys == [] then false
    else match push(keys[0])
      case Threw => false
      case Accepted => SomeThrow(keys[1..], push)
      case Refused => AcceptThenThrow(keys[1..], push)
  }

  lemma ThrowIsLater(first: SpawnKey, rest: seq<SpawnKey>, push: SpawnKey -> Push)
    requires push(first) != Threw
    ensures SomeThrow([first] + rest, push) <==> SomeThrow(rest, push)
  {
    if SomeThrow(rest, push) {
      var k :| 0 <= k < |rest| && push(rest[k]) == Threw;
      assert ([first] + rest)[k + 1] == rest[k];
    }
  }

  lemma {:induction false} AttemptedBreaks(keys: seq<SpawnKey>, push: SpawnKey -> Push)
    ensures AcceptThenThrow(keys, push)
            <==> SomeThrow(Attempted(keys, push), push) && CountAccepted(Attempted(keys, push), push) > 0
  {
    if keys != [] {
      var first, rest := keys[0], keys[1..];
      var tail := Attempted(rest, push);
      if push(first) == Threw {
        assert [first][1..] == [];
        assert CountAccepted(Attempted(keys, push), push) == 0;
      } else {
        AttemptedBreaks(rest, push);
        AttemptedIsPrefix(rest, push);
        ThrowIsLater(first, tail, push);
        assert ([first] + tail)[1..] == tail;
        assert CountAccepted([first] + tail, push) == (if push(first) == Accepted then 1 else 0) + CountAccepted(tail, push);
      }
    }
  }

  /** A broadcast to all lanes in which one of the running agents accepts and a later one's push throws. */
  predicate BrokenBroadcast(db: Database, w: World, run: RunId, step: StepId, taskRef: Option<string>) {
    && ValidateRunStep(db, run, step) == Valid && IsOuterFanOutStep(db, run, step) && taskRef.None?
    && !w.readsThrow && run in db.runs
    && AcceptThenThrow(LiveOnes(Targets(db, run, step, None, true), w.live), w.push)
  }

  lemma OneTargetNeverBreaks(keys: seq<SpawnKey>, push: SpawnKey -> Push)
    requires |keys| <= 1
    ensures !AcceptThenThrow(keys, push)
  {
  }

  lemma {:induction false} NoneLive(targets: seq<SpawnKey>, live: set<SpawnKey>)
    requires live == {}
    ensures LiveOnes(targets, live) == []
  {
    if targets != [] {
      NoneLive(targets[1..], live);
    }
  }

  /** What was delivered is less than what was accepted exactly when a push throws after an accepted one. */
  lemma CountIsLostIff(db: Database, w: World, run: RunId, step: StepId, taskRef: Option<string>, broadcast: bool)
    ensures var pushes := Pushes(db, w, run, step, taskRef, broadcast);
            (DeliveredCount(pushes, w) > 0 <==> CountAccepted(pushes, w.push) > 0)
            <==> !(!w.readsThrow && run in db.runs
                   && AcceptThenThrow(LiveOnes(Targets(db, run, step, taskRef, broadcast), w.live), w.push))
  {
    if !w.readsThrow && run in db.runs {
      var targets := Targets(db, run, step, taskRef, broadcast);
      if w.live == {} {
        NoneLive(targets, w.live);
      } else {
        AttemptedBreaks(LiveOnes(targets, w.live), w.push);
      }
    }
  }

  /**
   The answer is honest, that is ok exactly when guidance was stored or an agent accepted it, except
   for a broadcast in which a push throws after an accepted one. Narrowed to a task it always is.
   */
  lemma SteerIsHonestIff(db: Database, w: World, run: RunId, step: StepId, taskRef: Option<string>)
    requires UniqueLanes(db)
    ensures (Ok(SteerAnswer(db, w, run, step, taskRef))
             <==> Stores(db, run, step, taskRef) || CountAccepted(SteerPushes(db, w, run, step, taskRef), w.push) > 0)
            <==> !BrokenBroadcast(db, w, run, step, taskRef)
  {
    var outer := IsOuterFanOutStep(db, run, step);
    CountIsLostIff(db, w, run, step, taskRef, outer);
    if taskRef.Some? && run in db.runs {
      var targets := Targets(db, run, step, taskRef, outer);
      TargetsAreDistinct(db, run, step, taskRef, outer);
      LiveOnesAre(targets, w.live);
      OneTargetNeverBreaks(LiveOnes(targets, w.live), w.push);
    }
  }

  /** Every answer, while nothing throws: by validation, by whether the step fans out, by the task reference, by who accepts. */
  lemma SteerAnswerIsExact(db: Database, w: World, run: RunId, step: StepId, taskRef: Option<string>)
    requires UniqueLanes(db) && !w.readsThrow && forall k :: w.push(k) != Threw
    ensures var a, v := SteerAnswer(db, w, run, step, taskRef), ValidateRunStep(db, run, step);
            if v != Valid then a == Invalid(v)
            else
              && run in db.runs
              && var n := Reached(db, w, run, step, taskRef, IsFanOut(db, run, step));
                 if IsFanOut(db, run, step) then a == if n > 0 then BroadcastLive(n) else NothingToBroadcastTo
                 else if taskRef.Some? then a == if n > 0 then LaneSteered(n) else LaneNotOnStep
                 else a == StoredGuidance(n)
  {
    OuterFanOutIsExact(db, run, step);
    DeliveryIsExact(db, w, run, step, taskRef, IsFanOut(db, run, step));
  }

  /** When pushes never throw, a refusal has stored nothing and reached nobody. */
  lemma RefusalLeavesNothing(db: Database, w: World, run: RunId, step: StepId, taskRef: Option<string>)
    requires forall k :: w.push(k) != Threw
    requires !Ok(SteerAnswer(db, w, run, step, taskRef))
    ensures !Stores(db, run, step, taskRef)
    ensures forall k | k in SteerPushes(db, w, run, step, taskRef) :: w.push(k) == Refused
  {
    var pushes := SteerPushes(db, w, run, step, taskRef);
    NoneAccepted(pushes, w.push);
  }

  lemma {:induction false} NoneAccepted(keys: seq<SpawnKey>, push: SpawnKey -> Push)
    ensures CountAccepted(keys, push) == 0 <==> forall k | k in keys :: push(k) != Accepted
  {
    if keys != [] {
      NoneAccepted(keys[1..], push);
      assert keys == [keys[0]] + keys[1..];
    }
  }

  /** A throw after an accepted push makes the steer report that nobody was reached. */
  lemma DishonestWhenPushThrows(db: Database)
    requires db == Database(
               map["r" := RunRow(true, Some([[Step("sprint", Some(["implement"]))]]), None, Some("b"), None)],
               [LaneRow("b", "t1", true, None), LaneRow("b", "t2", true, None)], [])
    ensures var w := World({LaneKey("r", "t1"), LaneKey("r", "t2")},
                           (k: SpawnKey) => if k == LaneKey("r", "t1") then Accepted else Threw, false);
            && SteerAnswer(db, w, "r", "sprint", None) == NothingToBroadcastTo
            && CountAccepted(SteerPushes(db, w, "r", "sprint", None), w.push) == 1
  {
    var w := World({LaneKey("r", "t1"), LaneKey("r", "t2")},
                   (k: SpawnKey) => if k == LaneKey("r", "t1") then Accepted else Threw, false);
    var def: Definition := db.runs["r"].definition.value;
    assert def[0][0].id == "sprint" && StepMatches(def[0][0], "sprint");
    assert IsOuterFanOutStep(db, "r", "sprint");
    var k1, k2 := LaneKey("r", "t1"), LaneKey("r", "t2");
    LaneKeyInjective("r", "t1", "t2");
    assert "t1"[1] != "t2"[1];
    TwoLanes(db.lanes, "b", "sprint");
    assert Targets(db, "r", "sprint", None, true) == [k1, k2];
    TwoLive(k1, k2, w);
  }

  lemma TwoLanes(lanes: seq<LaneRow>, batch: string, step: StepId)
    requires |lanes| == 2 && lanes[0].batch == lanes[1].batch == batch && lanes[0].running && lanes[1].running
    ensures SelectLanes(lanes, batch, step, true) == lanes
  {
    assert lanes[..1] == [lanes[0]] && [lanes[0]][..0] == [];
    assert SelectLanes([lanes[0]], batch, step, true) == [lanes[0]];
  }

  lemma TwoLive(k1: SpawnKey, k2: SpawnKey, w: World)
    requires k1 in w.live && k2 in w.live && w.push(k1) == Accepted && w.push(k2) == Threw
    ensures var pushes := Attempted(LiveOnes([k1, k2], w.live), w.push);
            pushes == [k1, k2] && SomeThrow(pushes, w.push) && CountAccepted(pushes, w.push) == 1
  {
    assert [k1, k2][1..] == [k2] && [k2][1..] == [];
    assert LiveOnes([k2], w.live) == [k2] + LiveOnes([], w.live);
    assert LiveOnes([k1, k2], w.live) == [k1, k2];
    assert Attempted([k1, k2], w.push) == [k1, k2];
    assert w.push([k1, k2][1]) == Threw;
    assert CountAccepted([k2], w.push) == 0;
  }
}
