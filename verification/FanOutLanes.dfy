/**
 The item, dependency and file lists of the host-driven fan-out driver
 (main/src/programmaticRunnerComposition.ts), and their agreement with the lane count
 the rewind path reads before it re-queues lanes (main/src/monitorActionsComposition.ts).
 */
module FanOutLanes {
  import opened Options

  type TaskId = string

  datatype LaneStatus = Queued | Running | Integrated | Failed | Blocked

  datatype Lane = Lane(taskId: TaskId, status: LaneStatus, currentStep: Option<string>)

  /** UNIQUE (batch_id, task_id) of the lane table. */
  predicate DistinctTasks(lanes: seq<Lane>) {
    forall i, j :: 0 <= i < j < |lanes| ==> lanes[i].taskId != lanes[j].taskId
  }

  predicate Dispatchable(status: LaneStatus) {
    !status.Integrated? && !status.Failed? && !status.Blocked?
  }

  predicate Stuck(status: LaneStatus) {
    status.Failed? || status.Blocked?
  }

  function TaskIds(lanes: seq<Lane>): seq<TaskId> {
    seq(|lanes|, i requires 0 <= i < |lanes| => lanes[i].taskId)
  }

  /** `lanes.filter(keep)` */
  function Filter(lanes: seq<Lane>, keep: LaneStatus -> bool): seq<Lane> {
    if lanes == [] then []
    else
      var rest, last := Filter(lanes[..|lanes| - 1], keep), lanes[|lanes| - 1];
      if keep(last.status) then rest + [last] else rest
  }

  function ResolveItems(lanes: seq<Lane>, over: string): seq<TaskId> {
    if over == "tasks" then TaskIds(Filter(lanes, Dispatchable)) else []
  }

  function CountRedispatchableLanes(lanes: seq<Lane>): nat {
    |Filter(lanes, (s: LaneStatus) => s != Integrated)|
  }

  /** What resetFailedLanes leaves of the batch when it re-queues the lanes of `ids`. */
  function Requeue(lanes: seq<Lane>, ids: seq<TaskId>): seq<Lane> {
    seq(|lanes|, i requires 0 <= i < |lanes| =>
      if lanes[i].taskId in ids then Lane(lanes[i].taskId, Queued, None) else lanes[i])
  }

  function StuckIds(lanes: seq<Lane>): seq<TaskId> {
    TaskIds(Filter(lanes, Stuck))
  }

  /** Every lane is as before, or was failed or blocked and is queued from the start. */
  ghost predicate OnlyStuckRequeued(before: seq<Lane>, after: seq<Lane>) {
    |after| == |before| && forall i :: 0 <= i < |before| ==>
      || after[i] == before[i]
      || (before[i].status in {Failed, Blocked} && after[i] == Lane(before[i].taskId, Queued, None))
  }

  /** Every failed or blocked lane is queued from the start, every other as before. */
  ghost predicate AllStuckRequeued(before: seq<Lane>, after: seq<Lane>) {
    |after| == |before| && forall i :: 0 <= i < |before| ==>
      after[i] == if before[i].status in {Failed, Blocked} then Lane(before[i].taskId, Queued, None) else before[i]
  }

  /** Re-queuing some of the stuck tasks touches no other lane, and re-queuing all leaves none stuck. */
  lemma RequeueIsExact(lanes: seq<Lane>)
    requires DistinctTasks(lanes)
    ensures AllStuckRequeued(lanes, Requeue(lanes, StuckIds(lanes)))
    ensures forall k | 0 <= k <= |StuckIds(lanes)| :: OnlyStuckRequeued(lanes, Requeue(lanes, StuckIds(lanes)[..k]))
  {
    forall i | 0 <= i < |lanes| ensures lanes[i].taskId in StuckIds(lanes) <==> lanes[i].status in {Failed, Blocked} {
      StuckIdsAreStuck(lanes, i);
    }
    forall k | 0 <= k <= |StuckIds(lanes)| ensures OnlyStuckRequeued(lanes, Requeue(lanes, StuckIds(lanes)[..k])) {
      assert forall t | t in StuckIds(lanes)[..k] :: t in StuckIds(lanes);
    }
    assert StuckIds(lanes)[..|StuckIds(lanes)|] == StuckIds(lanes);
  }

  class LaneStore {
    var lanes: seq<Lane>
    /** Whether some run owns the batch. */
    var owned: bool

    constructor (lanes: seq<Lane>, owned: bool)
      ensures this.lanes == lanes && this.owned == owned
    {
      this.lanes := lanes;
      this.owned := owned;
    }

    /** `failing` is the position of the lane write that throws, if one does. */
    method ResetFailedLanes(failing: Option<nat>) returns (count: nat)
      modifies this`lanes
      ensures var ids := StuckIds(old(lanes));
              if !owned then lanes == old(lanes) && count == 0
              else if failing.Some? && failing.value < |ids|
              then lanes == Requeue(old(lanes), ids[..failing.value]) && count == 0
              else lanes == Requeue(old(lanes), ids) && count == |ids|
      ensures DistinctTasks(old(lanes)) ==> OnlyStuckRequeued(old(lanes), lanes)
      ensures DistinctTasks(old(lanes)) && owned && failing.None? ==> AllStuckRequeued(old(lanes), lanes)
    {
      if DistinctTasks(lanes) {
        RequeueIsExact(lanes);
      }
      var ids := StuckIds(lanes);
      count := 0;
      if |ids| == 0 {
        return;
      }
      if !owned {
        return;
      }
      var reset := 0;
      while reset < |ids|
        invariant 0 <= reset <= |ids|
        invariant failing.Some? ==> reset <= failing.value
        invariant lanes == Requeue(old(lanes), ids[..reset])
      {
        if failing == Some(reset) {
          return;
        }
        ghost var before := lanes;
        lanes := seq(|lanes|, i requires 0 <= i < |lanes| reads this =>
          if lanes[i].taskId == ids[reset] then Lane(lanes[i].taskId, Queued, None) else lanes[i]);
        assert ids[..reset + 1] == ids[..reset] + [ids[reset]];
        reset := reset + 1;
      }
      assert ids[..|ids|] == ids;
      count := reset;
    }
  }

  // ----- filters, element by element -----

  lemma {:induction false} FilterKeeps(lanes: seq<Lane>, keep: LaneStatus -> bool)
    ensures forall lane :: lane in Filter(lanes, keep) <==> lane in lanes && keep(lane.status)
  {
    if lanes != [] {
      FilterKeeps(lanes[..|lanes| - 1], keep);
      assert lanes == lanes[..|lanes| - 1] + [lanes[|lanes| - 1]];
    }
  }

  /** Two lane lists that agree on which positions are kept, and on their tasks, filter to the same tasks. */
  lemma {:induction false} SameKept(a: seq<Lane>, keepA: LaneStatus -> bool, b: seq<Lane>, keepB: LaneStatus -> bool)
    requires |a| == |b|
    requires forall i :: 0 <= i < |a| ==> a[i].taskId == b[i].taskId && keepA(a[i].status) == keepB(b[i].status)
    ensures TaskIds(Filter(a, keepA)) == TaskIds(Filter(b, keepB))
  {
    if a != [] {
      var ra, rb := Filter(a[..|a| - 1], keepA), Filter(b[..|b| - 1], keepB);
      SameKept(a[..|a| - 1], keepA, b[..|b| - 1], keepB);
      TaskIdsOneMore(ra, a[|a| - 1]);
      TaskIdsOneMore(rb, b[|b| - 1]);
    }
  }

  lemma TaskIdsOneMore(lanes: seq<Lane>, lane: Lane)
    ensures TaskIds(lanes + [lane]) == TaskIds(lanes) + [lane.taskId]
  {
  }

  lemma InTaskIds(lanes: seq<Lane>, t: TaskId)
    ensures t in TaskIds(lanes) <==> exists i :: 0 <= i < |lanes| && lanes[i].taskId == t
  {
    if t in TaskIds(lanes) {
      var i :| 0 <= i < |lanes| && TaskIds(lanes)[i] == t;
      assert lanes[i].taskId == t;
    }
    if i :| 0 <= i < |lanes| && lanes[i].taskId == t {
      assert TaskIds(lanes)[i] == t;
    }
  }

  /** With distinct tasks a lane is stuck exactly when its task is among the stuck ones. */
  lemma StuckIdsAreStuck(lanes: seq<Lane>, i: nat)
    requires DistinctTasks(lanes) && i < |lanes|
    ensures lanes[i].taskId in StuckIds(lanes) <==> Stuck(lanes[i].status)
  {
    FilterKeeps(lanes, Stuck);
    var stuck := Filter(lanes, Stuck);
    InTaskIds(stuck, lanes[i].taskId);
    if lanes[i].taskId in StuckIds(lanes) {
      var k :| 0 <= k < |stuck| && stuck[k].taskId == lanes[i].taskId;
      assert stuck[k] in lanes && Stuck(stuck[k].status);
    }
    if Stuck(lanes[i].status) {
      assert lanes[i] in stuck;
      var k :| 0 <= k < |stuck| && stuck[k] == lanes[i];
    }
  }

  /** The driver dispatches only queued and running lanes, each of them, in lane order. */
  lemma ResolveItemsIsExact(lanes: seq<Lane>, t: TaskId)
    ensures forall over :: over != "tasks" ==> ResolveItems(lanes, over) == []
    ensures t in ResolveItems(lanes, "tasks") <==> exists i :: 0 <= i < |lanes| && lanes[i].taskId == t
                                                          && (lanes[i].status.Queued? || lanes[i].status.Running?)
  {
    FilterKeeps(lanes, Dispatchable);
    var kept := Filter(lanes, Dispatchable);
    InTaskIds(kept, t);
    if t in TaskIds(kept) {
      var k :| 0 <= k < |kept| && kept[k].taskId == t;
      assert kept[k] in lanes;
    }
    if i :| 0 <= i < |lanes| && lanes[i].taskId == t && (lanes[i].status.Queued? || lanes[i].status.Running?) {
      assert lanes[i] in kept;
    }
  }

  lemma {:induction false} ResolveItemsKeepsOrder(lanes: seq<Lane>, a: nat, b: nat) returns (i: nat, j: nat)
    requires a < b < |ResolveItems(lanes, "tasks")|
    ensures i < j < |lanes|
    ensures lanes[i].taskId == ResolveItems(lanes, "tasks")[a] && lanes[j].taskId == ResolveItems(lanes, "tasks")[b]
    ensures lanes[i].status in {Queued, Running} && lanes[j].status in {Queued, Running}
  {
    var front := lanes[..|lanes| - 1];
    var kept := ResolveItems(front, "tasks");
    if b < |kept| {
      i, j := ResolveItemsKeepsOrder(front, a, b);
    } else {
      j := |lanes| - 1;
      i := KeptPosition(front, a);
    }
  }

  lemma {:induction false} KeptPosition(lanes: seq<Lane>, a: nat) returns (i: nat)
    requires a < |ResolveItems(lanes, "tasks")|
    ensures i < |lanes| && lanes[i].taskId == ResolveItems(lanes, "tasks")[a] && lanes[i].status in {Queued, Running}
  {
    var front := lanes[..|lanes| - 1];
    if a < |ResolveItems(front, "tasks")| {
      i := KeptPosition(front, a);
    } else {
      i := |lanes| - 1;
    }
  }

  // ----- the rewind's count and the driver's items agree -----

  /** After a full reset the driver dispatches exactly the lanes that were not integrated, in lane order. */
  lemma ResetThenResolve(lanes: seq<Lane>)
    requires DistinctTasks(lanes)
    ensures ResolveItems(Requeue(lanes, StuckIds(lanes)), "tasks")
         == TaskIds(Filter(lanes, (s: LaneStatus) => s != Integrated))
    ensures |ResolveItems(Requeue(lanes, StuckIds(lanes)), "tasks")| == CountRedispatchableLanes(lanes)
    ensures AllStuckRequeued(lanes, Requeue(lanes, StuckIds(lanes)))
  {
    RequeueIsExact(lanes);
    var after := Requeue(lanes, StuckIds(lanes));
    var notIntegrated := (s: LaneStatus) => s != Integrated;
    forall i | 0 <= i < |lanes|
      ensures after[i].taskId == lanes[i].taskId && Dispatchable(after[i].status) == notIntegrated(lanes[i].status)
    {
      StuckIdsAreStuck(lanes, i);
    }
    SameKept(after, Dispatchable, lanes, notIntegrated);
  }

  /**
   A reset that covers only some stuck lanes, for want of an owning run or because a lane
   write threw, breaks the agreement exactly when it leaves a stuck lane behind.
   */
  lemma CountAgreesIffNothingStuckRemains(lanes: seq<Lane>, ids: seq<TaskId>)
    requires DistinctTasks(lanes)
    requires forall t | t in ids :: t in StuckIds(lanes)
    ensures |ResolveItems(Requeue(lanes, ids), "tasks")| == CountRedispatchableLanes(lanes)
            <==> forall t | t in StuckIds(lanes) :: t in ids
  {
    var after := Requeue(lanes, ids);
    var notIntegrated := (s: LaneStatus) => s != Integrated;
    forall i | 0 <= i < |lanes|
      ensures after[i].taskId == lanes[i].taskId
      ensures notIntegrated(lanes[i].status) == (Dispatchable(after[i].status) || Stuck(after[i].status))
      ensures Stuck(after[i].status) <==> lanes[i].taskId in StuckIds(lanes) && lanes[i].taskId !in ids
    {
      StuckIdsAreStuck(lanes, i);
    }
    SameKept(after, (s: LaneStatus) => Dispatchable(s) || Stuck(s), lanes, notIntegrated);
    FilterSplits(after);
    if t :| t in StuckIds(lanes) && t !in ids {
      InTaskIds(Filter(lanes, Stuck), t);
      FilterKeeps(lanes, Stuck);
      var stuck := Filter(lanes, Stuck);
      var k :| 0 <= k < |stuck| && stuck[k].taskId == t;
      assert stuck[k] in lanes;
      var i :| 0 <= i < |lanes| && lanes[i] == stuck[k];
      FilterKeeps(after, Stuck);
      assert after[i] in after && after[i] in Filter(after, Stuck);
    } else {
      NoneKept(after, Stuck);
    }
  }

  lemma {:induction false} NoneKept(lanes: seq<Lane>, keep: LaneStatus -> bool)
    requires forall i :: 0 <= i < |lanes| ==> !keep(lanes[i].status)
    ensures Filter(lanes, keep) == []
  {
    if lanes != [] {
      NoneKept(lanes[..|lanes| - 1], keep);
    }
  }

  lemma {:induction false} FilterSplits(lanes: seq<Lane>)
    ensures |Filter(lanes, (s: LaneStatus) => Dispatchable(s) || Stuck(s))|
         == |Filter(lanes, Dispatchable)| + |Filter(lanes, Stuck)|
  {
    if lanes != [] {
      FilterSplits(lanes[..|lanes| - 1]);
    }
  }

  // ----- dependencies and expected files -----

  /** A row of task_dependencies (value: the prerequisite) or of task_files (value: the path). */
  datatype Row = Row(task: TaskId, value: string, blocking: bool)

  /** The rows the query returns, in the order it returns them. */
  function Select(table: seq<Row>, ids: seq<TaskId>, blockingOnly: bool): seq<Row> {
    if table == [] then []
    else
      var rest, last := Select(table[..|table| - 1], ids, blockingOnly), table[|table| - 1];
      if last.task in ids && (blockingOnly ==> last.blocking) then rest + [last] else rest
  }

  /** One task's values, in row order. */
  function ValuesOf(rows: seq<Row>, t: TaskId): seq<string> {
    if rows == [] then []
    else
      var rest, last := ValuesOf(rows[..|rows| - 1], t), rows[|rows| - 1];
      if last.task == t then rest + [last.value] else rest
  }

  method GroupByTask(over: string, lanes: seq<Lane>, table: seq<Row>, blockingOnly: bool) returns (m: map<TaskId, seq<string>>)
    ensures over != "tasks" ==> m == map[]
    ensures over == "tasks" ==> Groups(m, Select(table, TaskIds(lanes), blockingOnly))
  {
    m := map[];
    if over != "tasks" {
      return;
    }
    var taskIds := TaskIds(lanes);
    if |taskIds| == 0 {
      NothingSelected(table, blockingOnly);
      return;
    }
    var rows := Select(table, taskIds, blockingOnly);
    for k := 0 to |rows|
      invariant Groups(m, rows[..k])
    {
      assert rows[..k + 1][..k] == rows[..k];
      var values := if rows[k].task in m then m[rows[k].task] else [];
      m := m[rows[k].task := values + [rows[k].value]];
    }
    assert rows[..|rows|] == rows;
  }

  /** Each key has its rows' values, in row order, and a task without rows has no key. */
  ghost predicate Groups(m: map<TaskId, seq<string>>, rows: seq<Row>) {
    && (forall t :: t in m <==> ValuesOf(rows, t) != [])
    && (forall t | t in m :: m[t] == ValuesOf(rows, t))
  }

  lemma {:induction false} NothingSelected(table: seq<Row>, blockingOnly: bool)
    ensures Select(table, [], blockingOnly) == []
  {
    if table != [] {
      NothingSelected(table[..|table| - 1], blockingOnly);
    }
  }

  /** taskId -> its blocking prerequisites. */
  method Dependencies(over: string, lanes: seq<Lane>, table: seq<Row>) returns (m: map<TaskId, seq<string>>)
    requires DistinctTasks(lanes)
    ensures over != "tasks" ==> m == map[]
    ensures over == "tasks" ==> RefinesRows(m, lanes, table, true)
  {
    m := GroupByTask(over, lanes, table, true);
    if over == "tasks" {
      GroupingRefinesRows(m, lanes, table, true);
    }
  }

  /** taskId -> the files its task names. */
  method ExpectedFiles(over: string, lanes: seq<Lane>, table: seq<Row>) returns (m: map<TaskId, seq<string>>)
    requires DistinctTasks(lanes)
    ensures over != "tasks" ==> m == map[]
    ensures over == "tasks" ==> RefinesRows(m, lanes, table, false)
  {
    m := GroupByTask(over, lanes, table, false);
    if over == "tasks" {
      GroupingRefinesRows(m, lanes, table, false);
    }
  }

  // ----- what the grouped map means, in terms of the table alone -----

  predicate Wanted(row: Row, t: TaskId, blockingOnly: bool) {
    row.task == t && (blockingOnly ==> row.blocking)
  }

  function TableValues(table: seq<Row>, t: TaskId, blockingOnly: bool): seq<string> {
    if table == [] then []
    else
      var rest, last := TableValues(table[..|table| - 1], t, blockingOnly), table[|table| - 1];
      if Wanted(last, t, blockingOnly) then rest + [last.value] else rest
  }

  function TotalLength(m: map<TaskId, seq<string>>, ids: seq<TaskId>): nat {
    if ids == [] then 0
    else
      var t := ids[|ids| - 1];
      TotalLength(m, ids[..|ids| - 1]) + (if t in m then |m[t]| else 0)
  }

  /** Keys: the batch's tasks that have a row. Values: those rows, in order. Nothing lost, nothing doubled. */
  ghost predicate RefinesRows(m: map<TaskId, seq<string>>, lanes: seq<Lane>, table: seq<Row>, blockingOnly: bool) {
    && (forall t :: t in m <==> t in TaskIds(lanes) && TableValues(table, t, blockingOnly) != [])
    && (forall t | t in m :: m[t] == TableValues(table, t, blockingOnly))
    && TotalLength(m, TaskIds(lanes)) == |Select(table, TaskIds(lanes), blockingOnly)|
  }

  lemma {:induction false} SelectedValues(table: seq<Row>, ids: seq<TaskId>, blockingOnly: bool, t: TaskId)
    ensures ValuesOf(Select(table, ids, blockingOnly), t) == if t in ids then TableValues(table, t, blockingOnly) else []
  {
    if table != [] {
      SelectedValues(table[..|table| - 1], ids, blockingOnly, t);
      var rest, last := Select(table[..|table| - 1], ids, blockingOnly), table[|table| - 1];
      if last.task in ids && (blockingOnly ==> last.blocking) {
        ValuesOfOneMore(rest, last, t);
      }
    }
  }

  lemma ValuesOfOneMore(rows: seq<Row>, row: Row, t: TaskId)
    ensures ValuesOf(rows + [row], t) == ValuesOf(rows, t) + (if row.task == t then [row.value] else [])
  {
    assert (rows + [row])[..|rows|] == rows;
  }

  lemma {:induction false} LengthsAddUp(m: map<TaskId, seq<string>>, ids: seq<TaskId>, rows: seq<Row>)
    requires forall i, j :: 0 <= i < j < |ids| ==> ids[i] != ids[j]
    requires forall t | t in ids :: (if t in m then m[t] else []) == ValuesOf(rows, t)
    ensures TotalLength(m, ids) == |RowsOf(rows, ids)|
  {
    if ids == [] {
      NoRowsOf(rows);
    } else {
      var t, front := ids[|ids| - 1], ids[..|ids| - 1];
      LengthsAddUp(m, front, rows);
      OneTaskMore(rows, front, t);
      assert ids == front + [t] && t in ids;
    }
  }

  function RowsOf(rows: seq<Row>, ids: seq<TaskId>): seq<Row> {
    if rows == [] then []
    else
      var rest, last := RowsOf(rows[..|rows| - 1], ids), rows[|rows| - 1];
      if last.task in ids then rest + [last] else rest
  }

  lemma {:induction false} NoRowsOf(rows: seq<Row>)
    ensures RowsOf(rows, []) == []
  {
    if rows != [] {
      NoRowsOf(rows[..|rows| - 1]);
    }
  }

  lemma {:induction false} OneTaskMore(rows: seq<Row>, ids: seq<TaskId>, t: TaskId)
    requires t !in ids
    ensures |RowsOf(rows, ids + [t])| == |RowsOf(rows, ids)| + |ValuesOf(rows, t)|
  {
    if rows != [] {
      OneTaskMore(rows[..|rows| - 1], ids, t);
    }
  }

  lemma {:induction false} SelectedRowsAreOfBatch(table: seq<Row>, ids: seq<TaskId>, blockingOnly: bool)
    ensures RowsOf(Select(table, ids, blockingOnly), ids) == Select(table, ids, blockingOnly)
  {
    if table != [] {
      SelectedRowsAreOfBatch(table[..|table| - 1], ids, blockingOnly);
      var rest, last := Select(table[..|table| - 1], ids, blockingOnly), table[|table| - 1];
      assert (rest + [last])[..|rest|] == rest;
    }
  }

  lemma GroupingRefinesRows(m: map<TaskId, seq<string>>, lanes: seq<Lane>, table: seq<Row>, blockingOnly: bool)
    requires DistinctTasks(lanes)
    requires Groups(m, Select(table, TaskIds(lanes), blockingOnly))
    ensures RefinesRows(m, lanes, table, blockingOnly)
  {
    var ids := TaskIds(lanes);
    var rows := Select(table, ids, blockingOnly);
    forall t ensures ValuesOf(rows, t) == if t in ids then TableValues(table, t, blockingOnly) else [] {
      SelectedValues(table, ids, blockingOnly, t);
    }
    LengthsAddUp(m, ids, rows);
    SelectedRowsAreOfBatch(table, ids, blockingOnly);
  }
}
