/**
 The commit-integrity probe of a fan-out lane (main/src/programmaticRunnerComposition.ts).
 Lanes and runbook bootstraps commit into one shared worktree, whose history only grows.
 A lane's probe reads HEAD when the lane starts, reads it again when the lane ends, and
 decides from the shas in between and the bootstrap stamps whether real work landed.
 */
module CommitProbe {
  import opened Options

  type Sha = string
  type ProbeId = nat

  const FULL_LENGTH := 40

  datatype Author = Lane(lane: nat) | Bootstrap | Before

  datatype Commit = Commit(sha: Sha, author: Author)

  predicate Related(a: Sha, b: Sha) {
    a <= b || b <= a
  }

  predicate RelatedToSome(sha: Sha, stamps: seq<Sha>) {
    exists i | 0 <= i < |stamps| :: Related(sha, stamps[i])
  }

  /** between.some((sha) => !stamps.some(related)) */
  predicate SomeUnrelated(between: seq<Sha>, stamps: seq<Sha>) {
    exists i | 0 <= i < |between| :: !RelatedToSome(between[i], stamps)
  }

  // ----- git -----

  function Shas(commits: seq<Commit>): seq<Sha> {
    seq(|commits|, i requires 0 <= i < |commits| => commits[i].sha)
  }

  predicate Mentions(history: seq<Commit>, sha: Sha) {
    exists i | 0 <= i < |history| :: history[i].sha == sha
  }

  /** A stamp records a bootstrap's sha, in full or abbreviated. */
  predicate IsStampIn(history: seq<Commit>, stamp: Sha) {
    stamp != "" && exists i | 0 <= i < |history| :: history[i].author.Bootstrap? && stamp <= history[i].sha
  }

  function Head(history: seq<Commit>): Sha
    requires history != []
  {
    history[|history| - 1].sha
  }

  /** `git rev-list from..to` on a linear history: newest first, `to` included, `from` not. */
  function RevList(history: seq<Commit>, from: Sha, to: Sha): seq<Sha> {
    if history == [] then []
    else if Head(history) == to then BackTo(history, from)
    else RevList(history[..|history| - 1], from, to)
  }

  function BackTo(history: seq<Commit>, from: Sha): seq<Sha> {
    if history == [] || Head(history) == from then []
    else [Head(history)] + BackTo(history[..|history| - 1], from)
  }

  // ----- the probe -----

  /** Whether the committed tree carries lane build output. */
  datatype BuildSlots = Clean | Leak | Unknown

  datatype Reading = Reading(
    headAdvanced: bool,
    dirty: bool,
    dirtyPaths: seq<string>,
    newDirtyPaths: Option<seq<string>>,
    buildSlots: BuildSlots)

  /** Whether HEAD moved for a reason that is not a bootstrap. `between` is None when rev-list threw. */
  function HeadAdvanced(startHead: Sha, endHead: Sha, stamps: seq<Sha>, between: Option<seq<Sha>>): bool {
    && endHead != startHead
    && (stamps == [] || between.None? || SomeUnrelated(between.value, stamps))
  }

  function Without<T(==)>(all: seq<T>, drop: set<T>): seq<T> {
    if all == [] then []
    else Without(all[..|all| - 1], drop) + (if all[|all| - 1] in drop then [] else [all[|all| - 1]])
  }

  /** Some sha neither begins with a stamp nor is the beginning of one. */
  ghost predicate HasUnmatched(between: seq<Sha>, stamps: seq<Sha>) {
    exists i :: 0 <= i < |between| && Unmatched(between[i], stamps)
  }

  ghost predicate Unmatched(sha: Sha, stamps: seq<Sha>) {
    forall j :: 0 <= j < |stamps| ==> !(stamps[j] <= sha) && !(sha <= stamps[j])
  }

  lemma UnmatchedIsExact(between: seq<Sha>, stamps: seq<Sha>)
    ensures SomeUnrelated(between, stamps) <==> HasUnmatched(between, stamps)
  {
    forall i | 0 <= i < |between| ensures Unmatched(between[i], stamps) <==> !RelatedToSome(between[i], stamps) {
      if j :| 0 <= j < |stamps| && (stamps[j] <= between[i] || between[i] <= stamps[j]) {
        assert Related(between[i], stamps[j]);
      }
    }
    if i :| 0 <= i < |between| && Unmatched(between[i], stamps) {
      assert !RelatedToSome(between[i], stamps);
    }
  }

  /** The closure beginCommitProbe returns, given what its reads answered. */
  method EndProbe(startHead: Sha, startDirty: Option<set<string>>, endHead: Sha, dirtyPaths: seq<string>,
                  stamps: seq<Sha>, revList: Option<seq<Sha>>, buildSlots: BuildSlots) returns (r: Reading)
    ensures r.headAdvanced == HeadAdvanced(startHead, endHead, stamps, revList)
    ensures r.headAdvanced <==> endHead != startHead && (stamps != [] && revList.Some? ==> HasUnmatched(revList.value, stamps))
    ensures r.dirtyPaths == dirtyPaths && (r.dirty <==> dirtyPaths != []) && r.buildSlots == buildSlots
    ensures r.newDirtyPaths == if startDirty.None? then None else Some(Without(dirtyPaths, startDirty.value))
  {
    var headAdvanced := endHead != startHead;
    if headAdvanced {
      if |stamps| > 0 && revList.Some? {
        headAdvanced := SomeUnrelated(revList.value, stamps);
      }
    }
    UnmatchedIsExact(if revList.Some? then revList.value else [], stamps);
    var newDirty := if startDirty.Some? then Some(Without(dirtyPaths, startDirty.value)) else None;
    r := Reading(headAdvanced, |dirtyPaths| > 0, dirtyPaths, newDirty, buildSlots);
  }

  /** The other elements, each as often as before. */
  lemma {:induction false} WithoutMeans<T>(all: seq<T>, drop: set<T>, x: T)
    ensures multiset(Without(all, drop))[x] == if x in drop then 0 else multiset(all)[x]
  {
    if all != [] {
      var front, last := all[..|all| - 1], all[|all| - 1];
      WithoutMeans(front, drop, x);
      assert all == front + [last];
      var rest := Without(front, drop);
      assert Without(all, drop) == if last in drop then rest else rest + [last];
      assert multiset(rest + [last])[x] == multiset(rest)[x] + multiset([last])[x];
    }
  }

  /** And in their order: what remains of two parts, one after the other. */
  lemma {:induction false} WithoutKeepsOrder<T>(a: seq<T>, b: seq<T>, drop: set<T>)
    ensures Without(a + b, drop) == Without(a, drop) + Without(b, drop)
  {
    if b == [] {
      assert a + b == a;
    } else {
      var front, last := b[..|b| - 1], b[|b| - 1];
      WithoutKeepsOrder(a, front, drop);
      assert (a + b)[..|a + b| - 1] == a + front;
      var more := if last in drop then [] else [last];
      assert Without(a + b, drop) == Without(a, drop) + Without(front, drop) + more;
      assert Without(b, drop) == Without(front, drop) + more;
    }
  }

  // ----- the controller at a lane's end (workflowController.ts) -----

  datatype ProbeResult = NoProbe | ProbeThrew | Answered(reading: Reading)

  /** The monitor's judgement, when it is asked. */
  datatype Verdict = Rescue | Systemic | Accept | GiveUp | Unconsulted

  datatype LaneEnd = Integrate | Redrive | Park | Fail

  /** The reading for which the monitor decides. */
  predicate SentToTriage(r: Reading) {
    r.buildSlots.Clean? && !r.headAdvanced && r.dirty && r.newDirtyPaths != Some([])
  }

  function CheckCommitIntegrity(result: ProbeResult, verdict: Verdict, sharedWorktree: bool): LaneEnd {
    if !result.Answered? then Integrate
    else
      var r := result.reading;
      if !r.buildSlots.Clean? then (match verdict case Rescue => Redrive case Systemic => Park case _ => Fail)
      else if !SentToTriage(r) then Integrate
      else
        match verdict
        case Rescue => Redrive
        case Systemic => Park
        case Accept => Integrate
        case Unconsulted => if sharedWorktree then Integrate else Fail
        case GiveUp => Fail
  }

  /** The monitor is asked: build output is or may be committed, or nothing was committed over dirt that is new or may be. */
  ghost predicate MonitorAsked(result: ProbeResult) {
    && result.Answered?
    && var r := result.reading;
       || r.buildSlots == Leak || r.buildSlots == Unknown
       || (!r.headAdvanced && r.dirty && (r.newDirtyPaths.None? || |r.newDirtyPaths.value| > 0))
  }

  /**
   How every lane ends: integrated without a question unless the monitor is asked; re-driven on its rescue, parked
   when the environment failed it; accepted or unattributable dirt integrates, but never committed build output.
   */
  lemma LaneEndIsExact(result: ProbeResult, verdict: Verdict, sharedWorktree: bool)
    ensures var end := CheckCommitIntegrity(result, verdict, sharedWorktree);
            var clean := result.Answered? && result.reading.buildSlots == Clean;
            && (!MonitorAsked(result) ==> end == Integrate)
            && (end == Redrive <==> MonitorAsked(result) && verdict == Rescue)
            && (end == Park <==> MonitorAsked(result) && verdict == Systemic)
            && (end == Fail <==> MonitorAsked(result)
                                 && match verdict
                                    case GiveUp => true
                                    case Accept => !clean
                                    case Unconsulted => !clean || !sharedWorktree
                                    case _ => false)
  {
  }

  // ----- lanes, bootstraps and probes, interleaved -----

  /** `landed` records what landed between the two HEAD reads; the code never sees it. */
  datatype Probe = Probe(startHead: Sha, endHead: Option<Sha>, landed: seq<Commit>)

  datatype State = State(history: seq<Commit>, stamps: seq<Sha>, probes: map<ProbeId, Probe>)

  datatype Event =
    | Land(commit: Commit)
    | Stamp(stamp: Sha)       // the bootstrap records its commit, some time after making it
    | Begin(probe: ProbeId)
    | ReadEnd(probe: ProbeId)

  predicate Enabled(st: State, e: Event) {
    match e
    case Land(c) => |c.sha| == FULL_LENGTH && !Mentions(st.history, c.sha) && !c.author.Before?
    case Stamp(stamp) => IsStampIn(st.history, stamp)
    case Begin(probe) => probe !in st.probes
    case ReadEnd(probe) => probe in st.probes && st.probes[probe].endHead.None?
  }

  function Next(st: State, e: Event): State
    requires st.history != [] && Enabled(st, e)
  {
    match e
    case Land(c) =>
      State(st.history + [c], st.stamps,
            map p | p in st.probes ::
              if st.probes[p].endHead.Some? then st.probes[p]
              else st.probes[p].(landed := st.probes[p].landed + [c]))
    case Stamp(stamp) => st.(stamps := st.stamps + [stamp])
    case Begin(p) => st.(probes := st.probes[p := Probe(Head(st.history), None, [])])
    case ReadEnd(p) => st.(probes := st.probes[p := st.probes[p].(endHead := Some(Head(st.history)))])
  }

  function Exec(st: State, events: seq<Event>): (r: State)
    requires st.history != []
    ensures r.history != []
  {
    if events == [] then st
    else
      var before, e := Exec(st, events[..|events| - 1]), events[|events| - 1];
      if Enabled(before, e) then Next(before, e) else before
  }

  predicate Initial(st: State) {
    && |st.history| == 1 && |st.history[0].sha| == FULL_LENGTH && st.history[0].author.Before?
    && st.stamps == [] && st.probes == map[]
  }

  // ----- what every run keeps -----

  predicate DistinctShas(history: seq<Commit>) {
    forall i, j :: 0 <= i < j < |history| ==> history[i].sha != history[j].sha
  }

  /** The history splits into what the probe started from, what landed, and the rest. */
  ghost predicate ProbeSplits(history: seq<Commit>, probe: Probe, base: seq<Commit>, rest: seq<Commit>) {
    && history == base + probe.landed + rest
    && base != [] && Head(base) == probe.startHead
    && (if probe.endHead.None? then rest == [] else probe.endHead.value == Head(base + probe.landed))
  }

  ghost predicate ProbeInvariant(history: seq<Commit>, probe: Probe) {
    exists base, rest :: ProbeSplits(history, probe, base, rest)
  }

  ghost predicate RunInvariant(st: State) {
    && st.history != []
    && DistinctShas(st.history)
    && (forall i | 0 <= i < |st.history| :: |st.history[i].sha| == FULL_LENGTH)
    && (forall stamp | stamp in st.stamps :: IsStampIn(st.history, stamp))
    && (forall p | p in st.probes :: ProbeInvariant(st.history, st.probes[p]))
  }

  lemma ProbeKeptByLand(st: State, c: Commit, p: ProbeId)
    requires RunInvariant(st) && Enabled(st, Land(c)) && p in st.probes
    ensures ProbeInvariant(Next(st, Land(c)).history, Next(st, Land(c)).probes[p])
  {
    var next, probe := Next(st, Land(c)), st.probes[p];
    assert ProbeInvariant(st.history, probe);
    var base, rest :| ProbeSplits(st.history, probe, base, rest);
    if probe.endHead.Some? {
      assert (base + probe.landed + rest) + [c] == base + probe.landed + (rest + [c]);
      assert ProbeSplits(next.history, next.probes[p], base, rest + [c]);
    } else {
      assert (base + probe.landed + []) + [c] == base + (probe.landed + [c]) + [];
      assert ProbeSplits(next.history, next.probes[p], base, []);
    }
  }

  lemma ProbesKept(st: State, e: Event, p: ProbeId)
    requires RunInvariant(st) && Enabled(st, e) && p in Next(st, e).probes
    ensures ProbeInvariant(Next(st, e).history, Next(st, e).probes[p])
  {
    var next := Next(st, e);
    if p !in st.probes {
      assert st.history + [] + [] == st.history;
      assert ProbeSplits(next.history, next.probes[p], st.history, []);
    } else if e.Land? {
      ProbeKeptByLand(st, e.commit, p);
    } else {
      assert ProbeInvariant(st.history, st.probes[p]);
      var base, rest :| ProbeSplits(st.history, st.probes[p], base, rest);
      if e == ReadEnd(p) {
        assert base + st.probes[p].landed + [] == base + st.probes[p].landed;
      }
      assert ProbeSplits(next.history, next.probes[p], base, rest);
    }
  }

  lemma StampsKept(st: State, e: Event, stamp: Sha)
    requires RunInvariant(st) && Enabled(st, e) && stamp in Next(st, e).stamps
    ensures IsStampIn(Next(st, e).history, stamp)
  {
    assert IsStampIn(st.history, stamp);
    var i :| 0 <= i < |st.history| && st.history[i].author.Bootstrap? && stamp <= st.history[i].sha;
    assert Next(st, e).history[i] == st.history[i];
  }

  lemma {:induction false} EveryRunKeepsInvariant(st: State, events: seq<Event>)
    requires Initial(st)
    ensures RunInvariant(Exec(st, events))
  {
    if events != [] {
      EveryRunKeepsInvariant(st, events[..|events| - 1]);
      var before, e := Exec(st, events[..|events| - 1]), events[|events| - 1];
      if Enabled(before, e) {
        forall stamp | stamp in Next(before, e).stamps ensures IsStampIn(Next(before, e).history, stamp) {
          StampsKept(before, e, stamp);
        }
        forall p | p in Next(before, e).probes
          ensures ProbeInvariant(Next(before, e).history, Next(before, e).probes[p])
        {
          ProbesKept(before, e, p);
        }
      }
    }
  }

  // ----- rev-list finds exactly what landed -----

  function Newest(commits: seq<Commit>): seq<Sha> {
    if commits == [] then [] else [Head(commits)] + Newest(commits[..|commits| - 1])
  }

  lemma {:induction false} BackToBase(base: seq<Commit>, landed: seq<Commit>)
    requires base != [] && DistinctShas(base + landed)
    ensures BackTo(base + landed, Head(base)) == Newest(landed)
  {
    if landed == [] {
      assert base + landed == base;
    } else {
      var all := base + landed;
      assert all[..|all| - 1] == base + landed[..|landed| - 1];
      assert all[|base| - 1].sha != all[|all| - 1].sha;
      BackToBase(base, landed[..|landed| - 1]);
    }
  }

  lemma {:induction false} RevListFindsLanded(base: seq<Commit>, landed: seq<Commit>, rest: seq<Commit>)
    requires base != [] && DistinctShas(base + landed + rest)
    ensures RevList(base + landed + rest, Head(base), Head(base + landed)) == Newest(landed)
  {
    var upTo, all := base + landed, base + landed + rest;
    if rest == [] {
      assert all == upTo;
      BackToBase(base, landed);
    } else {
      assert all[..|all| - 1] == base + landed + rest[..|rest| - 1];
      assert all[|upTo| - 1].sha != all[|all| - 1].sha;
      RevListFindsLanded(base, landed, rest[..|rest| - 1]);
    }
  }

  lemma {:induction false} NewestIsReverse(commits: seq<Commit>)
    ensures |Newest(commits)| == |commits|
    ensures forall i :: 0 <= i < |commits| ==> Newest(commits)[i] == commits[|commits| - 1 - i].sha
  {
    if commits != [] {
      NewestIsReverse(commits[..|commits| - 1]);
    }
  }

  // ----- the theorems -----

  /** The reading of a finished probe, with the rev-list that really ran, or with one that threw. */
  function Reported(st: State, probe: Probe, revListWorks: bool): bool
    requires probe.endHead.Some?
  {
    HeadAdvanced(probe.startHead, probe.endHead.value, st.stamps,
                 if revListWorks then Some(RevList(st.history, probe.startHead, probe.endHead.value)) else None)
  }

  /** A stamp is the sha or an abbreviation of it. */
  predicate Stamped(sha: Sha, stamps: seq<Sha>) {
    exists i | 0 <= i < |stamps| :: stamps[i] <= sha
  }

  /** Some commit of the probe's window has no stamp. */
  predicate WorkLanded(st: State, probe: Probe) {
    exists i | 0 <= i < |probe.landed| :: !Stamped(probe.landed[i].sha, st.stamps)
  }

  /** Every bootstrap commit of the window is stamped. */
  predicate StampsComplete(st: State, probe: Probe) {
    forall i | 0 <= i < |probe.landed| :: probe.landed[i].author.Bootstrap? ==> Stamped(probe.landed[i].sha, st.stamps)
  }

  /** No stamp abbreviates another commit of the window. */
  predicate StampsUnambiguous(st: State, probe: Probe) {
    forall i | 0 <= i < |probe.landed| :: Stamped(probe.landed[i].sha, st.stamps) ==> probe.landed[i].author.Bootstrap?
  }

  /** No sha is shorter than a stamp, so the comparison in both directions is the one direction. */
  lemma RelatedMeansStamped(st: State, k: nat)
    requires RunInvariant(st) && k < |st.history|
    ensures RelatedToSome(st.history[k].sha, st.stamps) <==> Stamped(st.history[k].sha, st.stamps)
  {
    var sha := st.history[k].sha;
    if RelatedToSome(sha, st.stamps) {
      var i :| 0 <= i < |st.stamps| && Related(sha, st.stamps[i]);
      assert st.stamps[i] in st.stamps;
      var j :| 0 <= j < |st.history| && st.stamps[i] <= st.history[j].sha;
      assert st.stamps[i] <= sha;
    }
    if i :| 0 <= i < |st.stamps| && st.stamps[i] <= sha {
      assert Related(sha, st.stamps[i]);
    }
  }

  /** Stamps recorded in full, as the bootstrap records them, are unambiguous. */
  lemma FullStampsAreUnambiguous(first: State, events: seq<Event>, p: ProbeId)
    requires Initial(first) && p in Exec(first, events).probes
    requires forall stamp | stamp in Exec(first, events).stamps :: |stamp| == FULL_LENGTH
    ensures StampsUnambiguous(Exec(first, events), Exec(first, events).probes[p])
  {
    EveryRunKeepsInvariant(first, events);
    var st := Exec(first, events);
    var landed := st.probes[p].landed;
    forall i | 0 <= i < |landed| && Stamped(landed[i].sha, st.stamps) ensures landed[i].author.Bootstrap? {
      var k := LandedInHistory(st, st.probes[p], i);
      FullStampIsTheSha(st, k);
    }
  }

  lemma LandedInHistory(st: State, probe: Probe, i: nat) returns (k: nat)
    requires ProbeInvariant(st.history, probe) && i < |probe.landed|
    ensures k < |st.history| && st.history[k] == probe.landed[i]
  {
    var base, rest :| ProbeSplits(st.history, probe, base, rest);
    k := |base| + i;
  }

  lemma FullStampIsTheSha(st: State, k: nat)
    requires RunInvariant(st) && k < |st.history| && Stamped(st.history[k].sha, st.stamps)
    requires forall stamp | stamp in st.stamps :: |stamp| == FULL_LENGTH
    ensures st.history[k].author.Bootstrap?
  {
    var i :| 0 <= i < |st.stamps| && st.stamps[i] <= st.history[k].sha;
    assert st.stamps[i] in st.stamps;
    var j :| 0 <= j < |st.history| && st.history[j].author.Bootstrap? && st.stamps[i] <= st.history[j].sha;
    assert st.history[j].sha == st.history[k].sha;
  }

  lemma HeadMovedIffLanded(st: State, probe: Probe, base: seq<Commit>, rest: seq<Commit>)
    requires RunInvariant(st) && probe.endHead.Some? && ProbeSplits(st.history, probe, base, rest)
    ensures probe.endHead.value != probe.startHead <==> probe.landed != []
  {
    if probe.landed != [] {
      assert st.history[|base| - 1].sha == probe.startHead;
      assert st.history[|base + probe.landed| - 1].sha == probe.endHead.value;
    } else {
      assert base + probe.landed == base;
    }
  }

  lemma RevListRelation(st: State, probe: Probe, base: seq<Commit>, rest: seq<Commit>)
    requires RunInvariant(st) && probe.endHead.Some? && ProbeSplits(st.history, probe, base, rest)
    ensures var between := RevList(st.history, probe.startHead, probe.endHead.value);
            SomeUnrelated(between, st.stamps) <==> WorkLanded(st, probe)
  {
    var landed := probe.landed;
    RevListFindsLanded(base, landed, rest);
    NewestIsReverse(landed);
    var between := Newest(landed);
    forall i | 0 <= i < |landed|
      ensures RelatedToSome(landed[i].sha, st.stamps) <==> Stamped(landed[i].sha, st.stamps)
    {
      assert st.history[|base| + i] == landed[i];
      RelatedMeansStamped(st, |base| + i);
    }
    if i :| 0 <= i < |between| && !RelatedToSome(between[i], st.stamps) {
      assert between[i] == landed[|landed| - 1 - i].sha;
    }
    if i :| 0 <= i < |landed| && !Stamped(landed[i].sha, st.stamps) {
      assert between[|landed| - 1 - i] == landed[i].sha;
    }
  }

  lemma ReportedMeansWork(st: State, probe: Probe)
    requires RunInvariant(st) && ProbeInvariant(st.history, probe) && probe.endHead.Some?
    ensures Reported(st, probe, true) <==> WorkLanded(st, probe)
    ensures Reported(st, probe, false) <==> probe.landed != []
  {
    var base, rest :| ProbeSplits(st.history, probe, base, rest);
    HeadMovedIffLanded(st, probe, base, rest);
    if st.stamps == [] {
      if probe.landed != [] {
        assert !Stamped(probe.landed[0].sha, st.stamps);
        assert WorkLanded(st, probe);
      }
    } else {
      RevListRelation(st, probe, base, rest);
    }
  }

  /**
   What a finished probe reports in any run, whatever the stamps: an advance exactly when some
   commit of its window has no stamp as a prefix; any commit at all when rev-list throws.
   */
  lemma ProbeReportsWork(first: State, events: seq<Event>, p: ProbeId)
    requires Initial(first)
    requires var st := Exec(first, events); p in st.probes && st.probes[p].endHead.Some?
    ensures var st := Exec(first, events);
            && (Reported(st, st.probes[p], true) <==> WorkLanded(st, st.probes[p]))
            && (Reported(st, st.probes[p], false) <==> st.probes[p].landed != [])
  {
    EveryRunKeepsInvariant(first, events);
    ReportedMeansWork(Exec(first, events), Exec(first, events).probes[p]);
  }

  ghost predicate LaneWorkLanded(probe: Probe) {
    exists i | 0 <= i < |probe.landed| :: !probe.landed[i].author.Bootstrap?
  }

  /**
   With the window's bootstraps stamped and no stamp abbreviating anything else, the probe reports
   an advance exactly when some commit other than a bootstrap's landed in its window.
   */
  lemma ProbeIsExact(first: State, events: seq<Event>, p: ProbeId)
    requires Initial(first)
    requires var st := Exec(first, events);
             && p in st.probes && st.probes[p].endHead.Some?
             && StampsComplete(st, st.probes[p]) && StampsUnambiguous(st, st.probes[p])
    ensures var st := Exec(first, events);
            Reported(st, st.probes[p], true) <==> LaneWorkLanded(st.probes[p])
  {
    ProbeReportsWork(first, events, p);
  }

  // ----- what becomes of the lane -----

  /** The lane left dirt that was not there when it started. */
  predicate NewDirt(r: Reading) {
    r.dirty && (r.newDirtyPaths.None? || |r.newDirtyPaths.value| > 0)
  }

  ghost predicate Committed(probe: Probe, lane: nat) {
    exists i | 0 <= i < |probe.landed| :: probe.landed[i].author == Lane(lane)
  }

  ghost predicate IntegratesWhatever(r: Reading) {
    forall verdict, shared :: CheckCommitIntegrity(Answered(r), verdict, shared) == Integrate
  }

  lemma IntegratesUnlessTriaged(r: Reading)
    ensures IntegratesWhatever(r) <==> r.buildSlots.Clean? && !SentToTriage(r)
  {
    if !r.buildSlots.Clean? || SentToTriage(r) {
      assert CheckCommitIntegrity(Answered(r), GiveUp, false) == Fail;
    }
  }

  /**
   A lane that committed in its window is integrated, whatever the monitor would say, exactly if its build slots are
   clean, unless rev-list answered, every commit of the window has a stamp as a prefix, and the lane left new dirt.
   */
  lemma CommittedLaneIntegratesIff(first: State, events: seq<Event>, p: ProbeId, lane: nat, revListWorks: bool, r: Reading)
    requires Initial(first)
    requires var st := Exec(first, events);
             && p in st.probes && st.probes[p].endHead.Some? && Committed(st.probes[p], lane)
             && r.headAdvanced == Reported(st, st.probes[p], revListWorks)
    ensures var st := Exec(first, events);
            IntegratesWhatever(r)
            <==> r.buildSlots.Clean? && !(revListWorks && NewDirt(r) && !WorkLanded(st, st.probes[p]))
  {
    ProbeReportsWork(first, events, p);
    IntegratesUnlessTriaged(r);
  }

  /** So a lane that committed is never held up for its dirt while no stamp abbreviates a lane's commit, as full stamps cannot. */
  lemma CommittedLaneIntegrates(first: State, events: seq<Event>, p: ProbeId, lane: nat, revListWorks: bool, r: Reading)
    requires Initial(first)
    requires var st := Exec(first, events);
             && p in st.probes && st.probes[p].endHead.Some? && Committed(st.probes[p], lane)
             && r.headAdvanced == Reported(st, st.probes[p], revListWorks)
             && ((forall stamp | stamp in st.stamps :: |stamp| == FULL_LENGTH) || StampsUnambiguous(st, st.probes[p]))
    ensures IntegratesWhatever(r) <==> r.buildSlots.Clean?
  {
    var st := Exec(first, events);
    if forall stamp | stamp in st.stamps :: |stamp| == FULL_LENGTH {
      FullStampsAreUnambiguous(first, events, p);
    }
    CommittedLaneIntegratesIff(first, events, p, lane, revListWorks, r);
    var landed := st.probes[p].landed;
    var i :| 0 <= i < |landed| && landed[i].author == Lane(lane);
    assert !Stamped(landed[i].sha, st.stamps);
  }

  /**
   A window in which only stamped bootstraps landed does not cover new dirt: the lane is integrated exactly when its
   build slots are clean and the monitor accepts it, or was not asked and the worktree was shared.
   */
  lemma BootstrapDoesNotCoverDirt(first: State, events: seq<Event>, p: ProbeId, r: Reading, verdict: Verdict, shared: bool)
    requires Initial(first)
    requires var st := Exec(first, events);
             && p in st.probes && st.probes[p].endHead.Some? && StampsComplete(st, st.probes[p])
             && !LaneWorkLanded(st.probes[p])
             && r.headAdvanced == Reported(st, st.probes[p], true)
    requires NewDirt(r)
    ensures CheckCommitIntegrity(Answered(r), verdict, shared) == Integrate
            <==> r.buildSlots.Clean? && (verdict.Accept? || (verdict.Unconsulted? && shared))
  {
    ProbeReportsWork(first, events, p);
  }

  /** In every interleaving, how a lane that committed ends when rev-list answered and full stamps were recorded. */
  lemma CommittedLaneEnds(first: State, events: seq<Event>, p: ProbeId, lane: nat, r: Reading, verdict: Verdict, shared: bool)
    requires Initial(first)
    requires var st := Exec(first, events);
             && p in st.probes && st.probes[p].endHead.Some? && Committed(st.probes[p], lane)
             && r.headAdvanced == Reported(st, st.probes[p], true)
             && forall stamp | stamp in st.stamps :: |stamp| == FULL_LENGTH
    ensures CheckCommitIntegrity(Answered(r), verdict, shared)
         == if r.buildSlots == Clean then Integrate
            else if verdict == Rescue then Redrive
            else if verdict == Systemic then Park
            else Fail
  {
    CommittedLaneIntegrates(first, events, p, lane, true, r);
    assert r.buildSlots == Clean ==> IntegratesWhatever(r);
    LaneEndIsExact(Answered(r), verdict, shared);
  }

  // ----- two runs in which the probe is wrong -----

  lemma ExecOneMore(st: State, events: seq<Event>, e: Event)
    requires st.history != [] && Enabled(Exec(st, events), e)
    ensures Exec(st, events + [e]) == Next(Exec(st, events), e)
  {
    assert (events + [e])[..|events|] == events;
  }

  /** An unstamped bootstrap counts as work: the window between its commit and its stamp is open. */
  lemma LateStampCountsAsWork(first: State, sha: Sha)
    requires Initial(first) && |sha| == FULL_LENGTH && sha != first.history[0].sha
    ensures var st := Exec(first, [Begin(0)] + [Land(Commit(sha, Bootstrap))] + [ReadEnd(0)]);
            0 in st.probes && st.probes[0].endHead.Some? && Reported(st, st.probes[0], true)
  {
    var e0, e1, e2 := Begin(0), Land(Commit(sha, Bootstrap)), ReadEnd(0);
    assert [] + [e0] == [e0];
    ExecOneMore(first, [], e0);
    var begun := Exec(first, [e0]);
    assert begun == first.(probes := map[0 := Probe(first.history[0].sha, None, [])]);
    assert !Mentions(begun.history, sha);
    ExecOneMore(first, [e0], e1);
    var landed := Exec(first, [e0] + [e1]);
    assert landed.probes[0] == Probe(first.history[0].sha, None, [Commit(sha, Bootstrap)]) && landed.stamps == [];
    ExecOneMore(first, [e0] + [e1], e2);
  }

  /** A stamp abbreviated to what a lane's commit also begins with hides that commit. */
  lemma AbbreviatedStampHidesWork(first: State, boot: Sha, work: Sha, stamp: Sha, lane: nat)
    requires Initial(first) && |boot| == |work| == FULL_LENGTH && boot != work
    requires first.history[0].sha != boot && first.history[0].sha != work
    requires stamp != "" && stamp <= boot && stamp <= work
    ensures var st := Exec(first, [Land(Commit(boot, Bootstrap))] + [Stamp(stamp)] + [Begin(0)] + [Land(Commit(work, Lane(lane)))] + [ReadEnd(0)]);
            0 in st.probes && st.probes[0].endHead.Some? && Committed(st.probes[0], lane) && !Reported(st, st.probes[0], true)
  {
    var s1 := [Land(Commit(boot, Bootstrap))];
    var s2 := s1 + [Stamp(stamp)];
    var s3 := s2 + [Begin(0)];
    var s4 := s3 + [Land(Commit(work, Lane(lane)))];
    assert [] + s1 == s1;
    ExecOneMore(first, [], s1[0]);
    var boots := Exec(first, s1);
    assert boots.history[1] == Commit(boot, Bootstrap);
    assert IsStampIn(boots.history, stamp);
    ExecOneMore(first, s1, Stamp(stamp));
    ExecOneMore(first, s2, Begin(0));
    ExecOneMore(first, s3, Land(Commit(work, Lane(lane))));
    ExecOneMore(first, s4, ReadEnd(0));
    var st := Exec(first, s4 + [ReadEnd(0)]);
    assert st.probes[0].landed == [Commit(work, Lane(lane))];
    assert st.probes[0].landed[0].author == Lane(lane);
    assert st.stamps[0] <= work;
    ProbeReportsWork(first, s4 + [ReadEnd(0)], 0);
  }
}
