/**
 Where a panel's stored state comes from in any run of PanelUpdates, the unlocked edits of
 main/src/ipc/panels.ts included. Every store writes a whole panel state computed from the
 one its writer read, so it keeps what that state derived from and drops whatever was
 stored in between.
 */
module PanelHistory {
  import opened Options
  import opened Panels
  import opened PanelUpdates

  /** The two parts of a panel that are written: an activation writes only the flag. */
  datatype Part = CustomState | ActiveFlag

  datatype Writer = Task(t: TaskId) | Editor(w: EditId)

  /** The step stores that part of panel `p`. */
  predicate StoresPart(jobs: map<TaskId, Job>, e: Event, p: PanelId, part: Part) {
    || (e.Write? && e.t in jobs && jobs[e.t].panel == p)
    || (e.WriteUnlocked? && e.p == p)
    || (e.SetActive? && e.p == p && part == ActiveFlag)
  }

  /** The step is the writer's read. */
  predicate Reads(e: Event, writer: Writer) {
    match writer
    case Task(t) => e == Compute(t)
    case Editor(w) => e.ReadUnlocked? && e.w == w
  }

  function WriterOf(e: Event): Writer
    requires e.Write? || e.WriteUnlocked?
  {
    if e.Write? then Task(e.t) else Editor(e.w)
  }

  /** The last step of the schedule was taken. */
  ghost predicate Taken(jobs: map<TaskId, Job>, start: State, schedule: seq<Event>)
    requires schedule != []
  {
    Enabled(jobs, Exec(jobs, start, schedule[..|schedule| - 1]), schedule[|schedule| - 1])
  }

  /** The positions of all stores of the part, in order. */
  ghost function Stored(jobs: map<TaskId, Job>, start: State, schedule: seq<Event>, p: PanelId, part: Part): seq<nat> {
    if schedule == [] then []
    else
      var before := schedule[..|schedule| - 1];
      Stored(jobs, start, before, p, part)
      + if Taken(jobs, start, schedule) && StoresPart(jobs, schedule[|schedule| - 1], p, part) then [|before|] else []
  }

  /** The positions of the stores that the stored part derives from. */
  ghost function Chain(jobs: map<TaskId, Job>, start: State, schedule: seq<Event>, p: PanelId, part: Part): seq<nat>
    decreases |schedule|
  {
    if schedule == [] then []
    else
      var before, e := schedule[..|schedule| - 1], schedule[|schedule| - 1];
      if !Taken(jobs, start, schedule) || !StoresPart(jobs, e, p, part) then Chain(jobs, start, before, p, part)
      else if e.SetActive? then Chain(jobs, start, before, p, part) + [|before|]
      else ReadChain(jobs, start, before, p, part, WriterOf(e)) + [|before|]
  }

  /** The positions of the stores that the state last read by the writer derives from. */
  ghost function ReadChain(jobs: map<TaskId, Job>, start: State, schedule: seq<Event>, p: PanelId, part: Part, writer: Writer): seq<nat>
    decreases |schedule|
  {
    if schedule == [] then []
    else
      var before, e := schedule[..|schedule| - 1], schedule[|schedule| - 1];
      if Taken(jobs, start, schedule) && Reads(e, writer) then Chain(jobs, start, before, p, part)
      else ReadChain(jobs, start, before, p, part, writer)
  }

  // ----- the stored state is what its chain gives -----

  /** One operation on a panel. */
  function Applied(jobs: map<TaskId, Job>, panel: Panel, e: Event): Panel {
    match e
    case Write(t) => if t in jobs then panel.(custom := Some(Computed(panel.custom, jobs[t].update))) else panel
    case WriteUnlocked(_, _, edit) => Edited(panel, edit)
    case SetActive(_, active) => panel.(isActive := active)
    case _ => panel
  }

  /** The operations at these positions, one whole operation at a time. */
  ghost function Replay(jobs: map<TaskId, Job>, first: Panel, schedule: seq<Event>, positions: seq<nat>): Panel {
    if positions == [] then first
    else
      var before, k := Replay(jobs, first, schedule, positions[..|positions| - 1]), positions[|positions| - 1];
      if k < |schedule| then Applied(jobs, before, schedule[k]) else before
  }

  ghost predicate SamePart(a: Panel, b: Panel, part: Part) {
    if part == CustomState then a.custom == b.custom else a.isActive == b.isActive
  }

  lemma {:induction false} ReplayLonger(jobs: map<TaskId, Job>, first: Panel, schedule: seq<Event>, e: Event, positions: seq<nat>)
    requires forall k | k in positions :: k < |schedule|
    ensures Replay(jobs, first, schedule + [e], positions) == Replay(jobs, first, schedule, positions)
  {
    if positions != [] {
      var front := positions[..|positions| - 1];
      assert forall k | k in front :: k in positions;
      ReplayLonger(jobs, first, schedule, e, front);
      assert positions[|positions| - 1] in positions;
    }
  }

  lemma {:induction false} ChainInRange(jobs: map<TaskId, Job>, start: State, schedule: seq<Event>, p: PanelId, part: Part)
    ensures forall k | k in Chain(jobs, start, schedule, p, part) :: k < |schedule|
    decreases |schedule|
  {
    if schedule != [] {
      var before, e := schedule[..|schedule| - 1], schedule[|schedule| - 1];
      ChainInRange(jobs, start, before, p, part);
      if e.Write? || e.WriteUnlocked? {
        ReadChainInRange(jobs, start, before, p, part, WriterOf(e));
      }
    }
  }

  lemma {:induction false} ReadChainInRange(jobs: map<TaskId, Job>, start: State, schedule: seq<Event>, p: PanelId, part: Part, writer: Writer)
    ensures forall k | k in ReadChain(jobs, start, schedule, p, part, writer) :: k < |schedule|
    decreases |schedule|
  {
    if schedule != [] {
      var before := schedule[..|schedule| - 1];
      ChainInRange(jobs, start, before, p, part);
      ReadChainInRange(jobs, start, before, p, part, writer);
    }
  }

  /** The state the writer is about to store, if it is to store one in panel `p`. */
  ghost function Snapshot(jobs: map<TaskId, Job>, st: State, p: PanelId, writer: Writer): Option<Panel> {
    match writer
    case Task(t) =>
      if t in jobs && jobs[t].panel == p && t in st.phase && st.phase[t].Read? then Some(st.phase[t].next) else None
    case Editor(w) => if w in st.edits && st.edits[w].panel == p then Some(st.edits[w].next) else None
  }

  /** What the writer computes from what it reads. */
  ghost function FromRead(jobs: map<TaskId, Job>, st: State, writer: Writer, read: Panel): Panel {
    match writer
    case Task(t) => if t in jobs then read.(custom := Some(Computed(read.custom, jobs[t].update))) else read
    case Editor(w) => if w in st.edits then Edited(read, st.edits[w].edit) else read
  }

  lemma PanelsOnlyGo(jobs: map<TaskId, Job>, st: State, e: Event)
    requires Enabled(jobs, st, e)
    ensures Next(jobs, st, e).panels.Keys <= st.panels.Keys
  {
  }

  /** A writer's snapshot was computed at its read and is kept until its write. */
  lemma SnapshotStep(jobs: map<TaskId, Job>, st: State, e: Event, p: PanelId, writer: Writer)
    requires Enabled(jobs, st, e) && Snapshot(jobs, Next(jobs, st, e), p, writer).Some?
    ensures Reads(e, writer) ==> p in st.panels
    ensures var next := Next(jobs, st, e);
            if Reads(e, writer) then Snapshot(jobs, next, p, writer).value == FromRead(jobs, next, writer, st.panels[p])
            else && Snapshot(jobs, st, p, writer) == Snapshot(jobs, next, p, writer)
                 && (writer.Editor? ==> st.edits[writer.w] == next.edits[writer.w])
  {
  }

  ghost predicate ReadDerives(jobs: map<TaskId, Job>, st: State, p: PanelId, part: Part, writer: Writer, read: Panel) {
    Snapshot(jobs, st, p, writer).Some? ==> SamePart(Snapshot(jobs, st, p, writer).value, FromRead(jobs, st, writer, read), part)
  }

  lemma {:induction false} SnapshotDerives(jobs: map<TaskId, Job>, panels: map<PanelId, Panel>, schedule: seq<Event>, p: PanelId, part: Part, writer: Writer)
    requires p in panels
    ensures var start := Start(panels, jobs);
            ReadDerives(jobs, Exec(jobs, start, schedule), p, part, writer,
                        Replay(jobs, panels[p], schedule, ReadChain(jobs, start, schedule, p, part, writer)))
    decreases |schedule|
  {
    var start := Start(panels, jobs);
    if schedule != [] && Snapshot(jobs, Exec(jobs, start, schedule), p, writer).Some? {
      var before, e := schedule[..|schedule| - 1], schedule[|schedule| - 1];
      assert schedule == before + [e];
      if Taken(jobs, start, schedule) {
        SnapshotStep(jobs, Exec(jobs, start, before), e, p, writer);
      }
      if Taken(jobs, start, schedule) && Reads(e, writer) {
        PanelDerives(jobs, panels, before, p, part);
        ChainInRange(jobs, start, before, p, part);
        ReplayLonger(jobs, panels[p], before, e, Chain(jobs, start, before, p, part));
      } else {
        SnapshotDerives(jobs, panels, before, p, part, writer);
        ReadChainInRange(jobs, start, before, p, part, writer);
        ReplayLonger(jobs, panels[p], before, e, ReadChain(jobs, start, before, p, part, writer));
      }
    }
  }

  /** The operation at the end of a longer chain. */
  lemma ReplayOneMore(jobs: map<TaskId, Job>, first: Panel, before: seq<Event>, e: Event, chain: seq<nat>)
    requires forall k | k in chain :: k < |before|
    ensures Replay(jobs, first, before + [e], chain + [|before|]) == Applied(jobs, Replay(jobs, first, before, chain), e)
  {
    assert (chain + [|before|])[..|chain|] == chain;
    ReplayLonger(jobs, first, before, e, chain);
  }

  /**
   In every run, whoever wrote and whether or not under the lock: what is stored of a panel is what the
   operations on its chain give one at a time. The other stores have left no trace.
   */
  lemma {:induction false} PanelDerives(jobs: map<TaskId, Job>, panels: map<PanelId, Panel>, schedule: seq<Event>, p: PanelId, part: Part)
    requires p in panels
    ensures var start := Start(panels, jobs);
            var st := Exec(jobs, start, schedule);
            p in st.panels ==>
              SamePart(st.panels[p], Replay(jobs, panels[p], schedule, Chain(jobs, start, schedule, p, part)), part)
    decreases |schedule|
  {
    var start := Start(panels, jobs);
    if schedule != [] && p in Exec(jobs, start, schedule).panels {
      var before, e := schedule[..|schedule| - 1], schedule[|schedule| - 1];
      var st := Exec(jobs, start, before);
      assert schedule == before + [e];
      PanelDerives(jobs, panels, before, p, part);
      ChainInRange(jobs, start, before, p, part);
      if Taken(jobs, start, schedule) {
        PanelsOnlyGo(jobs, st, e);
        if StoresPart(jobs, e, p, part) && !e.SetActive? {
          SnapshotDerives(jobs, panels, before, p, part, WriterOf(e));
          ReadChainInRange(jobs, start, before, p, part, WriterOf(e));
          ReplayOneMore(jobs, panels[p], before, e, ReadChain(jobs, start, before, p, part, WriterOf(e)));
          WriteStores(jobs, st, e, p);
        } else if StoresPart(jobs, e, p, part) {
          ReplayOneMore(jobs, panels[p], before, e, Chain(jobs, start, before, p, part));
        } else {
          ReplayLonger(jobs, panels[p], before, e, Chain(jobs, start, before, p, part));
          OthersLeavePart(jobs, st, e, p, part);
        }
      } else {
        ReplayLonger(jobs, panels[p], before, e, Chain(jobs, start, before, p, part));
      }
    }
  }

  lemma WriteStores(jobs: map<TaskId, Job>, st: State, e: Event, p: PanelId)
    requires Enabled(jobs, st, e) && p in st.panels && StoresPart(jobs, e, p, CustomState)
    ensures Snapshot(jobs, st, p, WriterOf(e)) == Some(Next(jobs, st, e).panels[p])
    ensures forall read :: FromRead(jobs, st, WriterOf(e), read) == Applied(jobs, read, e)
  {
  }

  lemma OthersLeavePart(jobs: map<TaskId, Job>, st: State, e: Event, p: PanelId, part: Part)
    requires Enabled(jobs, st, e) && p in Next(jobs, st, e).panels && p in st.panels && !StoresPart(jobs, e, p, part)
    ensures SamePart(Next(jobs, st, e).panels[p], st.panels[p], part)
  {
  }

  // ----- when nothing is lost -----

  /** No store of the part since the writer's last read. */
  ghost predicate NoStoreSinceRead(jobs: map<TaskId, Job>, start: State, schedule: seq<Event>, p: PanelId, part: Part, writer: Writer) {
    schedule == [] ||
    var before, e := schedule[..|schedule| - 1], schedule[|schedule| - 1];
    if Taken(jobs, start, schedule) && Reads(e, writer) then true
    else if Taken(jobs, start, schedule) && StoresPart(jobs, e, p, part) then false
    else NoStoreSinceRead(jobs, start, before, p, part, writer)
  }

  /** Every writer stored before anyone else had since its read. */
  ghost predicate AllFresh(jobs: map<TaskId, Job>, start: State, schedule: seq<Event>, p: PanelId, part: Part) {
    schedule == [] ||
    var before, e := schedule[..|schedule| - 1], schedule[|schedule| - 1];
    && AllFresh(jobs, start, before, p, part)
    && (Taken(jobs, start, schedule) && StoresPart(jobs, e, p, part) && !e.SetActive? ==>
          NoStoreSinceRead(jobs, start, before, p, part, WriterOf(e)))
  }

  lemma {:induction false} ReadChainFull(jobs: map<TaskId, Job>, start: State, schedule: seq<Event>, p: PanelId, part: Part, writer: Writer)
    ensures var read, all := ReadChain(jobs, start, schedule, p, part, writer), Stored(jobs, start, schedule, p, part);
            && |read| <= |all|
            && (read == all <==> AllFresh(jobs, start, schedule, p, part) && NoStoreSinceRead(jobs, start, schedule, p, part, writer))
    decreases |schedule|
  {
    if schedule != [] {
      var before, e := schedule[..|schedule| - 1], schedule[|schedule| - 1];
      NothingLostIffFresh(jobs, start, before, p, part);
      ReadChainFull(jobs, start, before, p, part, writer);
    }
  }

  lemma SameLast(a: seq<nat>, b: seq<nat>, k: nat)
    ensures a + [k] == b + [k] <==> a == b
  {
    if a + [k] == b + [k] {
      assert (a + [k])[..|a|] == a && (b + [k])[..|b|] == b;
    }
  }

  /** Every store is on the chain, in order, if and only if no writer stored over a store it had not read. */
  lemma {:induction false} NothingLostIffFresh(jobs: map<TaskId, Job>, start: State, schedule: seq<Event>, p: PanelId, part: Part)
    ensures |Chain(jobs, start, schedule, p, part)| <= |Stored(jobs, start, schedule, p, part)|
    ensures Chain(jobs, start, schedule, p, part) == Stored(jobs, start, schedule, p, part)
            <==> AllFresh(jobs, start, schedule, p, part)
    decreases |schedule|
  {
    if schedule != [] {
      var before, e := schedule[..|schedule| - 1], schedule[|schedule| - 1];
      NothingLostIffFresh(jobs, start, before, p, part);
      if Taken(jobs, start, schedule) && StoresPart(jobs, e, p, part) {
        var all := Stored(jobs, start, before, p, part);
        if e.SetActive? {
          SameLast(Chain(jobs, start, before, p, part), all, |before|);
        } else {
          ReadChainFull(jobs, start, before, p, part, WriterOf(e));
          SameLast(ReadChain(jobs, start, before, p, part, WriterOf(e)), all, |before|);
        }
      }
    }
  }

  // ----- the lock keeps the custom state fresh -----

  lemma {:induction false} ReaderIsUndisturbed(jobs: map<TaskId, Job>, panels: map<PanelId, Panel>, schedule: seq<Event>, p: PanelId, t: TaskId)
    requires OnlyLocked(schedule, p)
    requires Snapshot(jobs, Exec(jobs, Start(panels, jobs), schedule), p, Task(t)).Some?
    ensures NoStoreSinceRead(jobs, Start(panels, jobs), schedule, p, CustomState, Task(t))
  {
    if schedule != [] {
      var before, e := schedule[..|schedule| - 1], schedule[|schedule| - 1];
      var start := Start(panels, jobs);
      assert e in schedule;
      LocksAlwaysKept(jobs, panels, before);
      if Taken(jobs, start, schedule) {
        SnapshotStep(jobs, Exec(jobs, start, before), e, p, Task(t));
        if !Reads(e, Task(t)) {
          ReaderIsUndisturbed(jobs, panels, before, p, t);
        }
      } else {
        ReaderIsUndisturbed(jobs, panels, before, p, t);
      }
    }
  }

  /** While no edit bypasses the lock, no store of the custom state is ever lost. */
  lemma {:induction false} LockKeepsFresh(jobs: map<TaskId, Job>, panels: map<PanelId, Panel>, schedule: seq<Event>, p: PanelId)
    requires OnlyLocked(schedule, p)
    ensures AllFresh(jobs, Start(panels, jobs), schedule, p, CustomState)
  {
    if schedule != [] {
      var before, e := schedule[..|schedule| - 1], schedule[|schedule| - 1];
      assert e in schedule;
      LockKeepsFresh(jobs, panels, before, p);
      if Taken(jobs, Start(panels, jobs), schedule) && StoresPart(jobs, e, p, CustomState) {
        ReaderIsUndisturbed(jobs, panels, before, p, e.t);
      }
    }
  }

  /** An updater and a clearing have both read panel "chat" and neither has written. */
  function BothRead(now: string): seq<Event> {
    [Acquire(0)] + [Compute(0)] + [ReadUnlocked(0, "chat", ClearUnviewed(now))]
  }

  function Chat(now: string): map<TaskId, Job> {
    map[0 := Job("chat", StatusWrite(Running, None, now))]
  }

  function ChatStart(now: string): State {
    Start(map["chat" := Panel(Claude, true, None)], Chat(now))
  }

  lemma BothAreReading(now: string)
    ensures var jobs, start := Chat(now), ChatStart(now);
            var st := Exec(jobs, start, BothRead(now));
            && Enabled(jobs, st, Write(0)) && Enabled(jobs, st, WriteUnlocked(0, "chat", ClearUnviewed(now)))
            && Enabled(jobs, Next(jobs, st, Write(0)), WriteUnlocked(0, "chat", ClearUnviewed(now)))
            && Enabled(jobs, Next(jobs, st, WriteUnlocked(0, "chat", ClearUnviewed(now))), Write(0))
            && ReadChain(jobs, start, BothRead(now), "chat", CustomState, Task(0)) == []
            && ReadChain(jobs, start, BothRead(now), "chat", CustomState, Editor(0)) == []
  {
    var jobs, start := Chat(now), ChatStart(now);
    var a, c, r := Acquire(0), Compute(0), ReadUnlocked(0, "chat", ClearUnviewed(now));
    assert [] + [a] == [a];
    ExecOneMore(jobs, start, [], a);
    ExecOneMore(jobs, start, [a], c);
    ExecOneMore(jobs, start, [a] + [c], r);
    NoStoreNoChain(jobs, start, [a], "chat");
    NoStoreNoChain(jobs, start, [a] + [c], "chat");
    ReadOneMore(jobs, start, [a], c, "chat", Task(0));
    ReadOneMore(jobs, start, [a] + [c], r, "chat", Task(0));
    ReadOneMore(jobs, start, [a] + [c], r, "chat", Editor(0));
  }

  /** Whichever of the two writes first is lost: the chain holds only the other's store. */
  lemma ClearAndUpdateLoseEachOther(now: string)
    ensures var clear := WriteUnlocked(0, "chat", ClearUnviewed(now));
            && Chain(Chat(now), ChatStart(now), BothRead(now) + [clear] + [Write(0)], "chat", CustomState) == [4]
            && Chain(Chat(now), ChatStart(now), BothRead(now) + [Write(0)] + [clear], "chat", CustomState) == [4]
  {
    var jobs, start, both := Chat(now), ChatStart(now), BothRead(now);
    var clear := WriteUnlocked(0, "chat", ClearUnviewed(now));
    BothAreReading(now);
    ExecOneMore(jobs, start, both, clear);
    ExecOneMore(jobs, start, both, Write(0));
    ChainOneMore(jobs, start, both + [clear], Write(0), "chat");
    ChainOneMore(jobs, start, both + [Write(0)], clear, "chat");
    ReadOneMore(jobs, start, both, clear, "chat", Task(0));
    ReadOneMore(jobs, start, both, Write(0), "chat", Editor(0));
  }

  lemma ChainOneMore(jobs: map<TaskId, Job>, start: State, before: seq<Event>, e: Event, p: PanelId)
    requires Enabled(jobs, Exec(jobs, start, before), e) && StoresPart(jobs, e, p, CustomState)
    ensures Chain(jobs, start, before + [e], p, CustomState)
         == ReadChain(jobs, start, before, p, CustomState, WriterOf(e)) + [|before|]
  {
    assert (before + [e])[..|before|] == before;
  }

  lemma ReadOneMore(jobs: map<TaskId, Job>, start: State, before: seq<Event>, e: Event, p: PanelId, writer: Writer)
    requires Enabled(jobs, Exec(jobs, start, before), e)
    ensures ReadChain(jobs, start, before + [e], p, CustomState, writer)
         == if Reads(e, writer) then Chain(jobs, start, before, p, CustomState)
            else ReadChain(jobs, start, before, p, CustomState, writer)
  {
    assert (before + [e])[..|before|] == before;
  }

  lemma {:induction false} NoStoreNoChain(jobs: map<TaskId, Job>, start: State, schedule: seq<Event>, p: PanelId)
    requires forall e | e in schedule :: !StoresPart(jobs, e, p, CustomState)
    ensures Chain(jobs, start, schedule, p, CustomState) == []
  {
    if schedule != [] {
      assert schedule[|schedule| - 1] in schedule;
      NoStoreNoChain(jobs, start, schedule[..|schedule| - 1], p);
    }
  }
}
