/**
 The explicit-stack walk that collects candidate strings from an arbitrary output
 payload (main/src/events.ts). Payloads are finite reference graphs: objects are
 remembered in a visited set, arrays are not.
 */
module CandidateStrings {

  type Ref = nat

  datatype Value =
    | Absent                    // undefined or null
    | Text(text: string)
    | Scalar(printed: string)   // a number or boolean, with its String(...) form
    | Arr(id: Ref)
    | Obj(id: Ref)
    | Opaque                    // a function, symbol or bigint: no branch takes it

  /** The elements of every array and the Object.values of every object. */
  datatype Graph = Graph(arrays: map<Ref, seq<Value>>, objects: map<Ref, seq<Value>>)

  predicate InGraph(g: Graph, v: Value) {
    && (v.Arr? ==> v.id in g.arrays)
    && (v.Obj? ==> v.id in g.objects)
  }

  predicate AllInGraph(g: Graph, vs: seq<Value>) {
    forall v | v in vs :: InGraph(g, v)
  }

  /** No reference dangles. */
  ghost predicate Closed(g: Graph) {
    && (forall a | a in g.arrays :: AllInGraph(g, g.arrays[a]))
    && (forall o | o in g.objects :: AllInGraph(g, g.objects[o]))
  }

  function Children(g: Graph, v: Value): seq<Value>
    requires InGraph(g, v)
  {
    match v
    case Arr(id) => g.arrays[id]
    case Obj(id) => g.objects[id]
    case _ => []
  }

  predicate Prints(v: Value, s: string) {
    (v.Text? && v.text == s) || (v.Scalar? && v.printed == s)
  }

  // ----- reachability -----

  ghost predicate Path(g: Graph, p: seq<Value>) {
    && p != []
    && AllInGraph(g, p)
    && forall i :: 0 <= i < |p| - 1 ==> p[i + 1] in Children(g, p[i])
  }

  ghost predicate Reaches(g: Graph, from: Value, to: Value) {
    exists p :: Path(g, p) && p[0] == from && p[|p| - 1] == to
  }

  /** Some primitive reachable from the payload prints as `s`. */
  ghost predicate ReachableLeaf(g: Graph, payload: Value, s: string) {
    exists v :: Reaches(g, payload, v) && Prints(v, s)
  }

  /** A path that visits arrays only. */
  ghost predicate ArrayPath(g: Graph, p: seq<Ref>) {
    && p != []
    && (forall i :: 0 <= i < |p| ==> p[i] in g.arrays)
    && forall i :: 0 <= i < |p| - 1 ==> Arr(p[i + 1]) in g.arrays[p[i]]
  }

  /** A cycle that passes through no object. */
  ghost predicate ArrayCycle(g: Graph, p: seq<Ref>) {
    ArrayPath(g, p) && |p| >= 2 && p[0] == p[|p| - 1]
  }

  ghost predicate EveryCycleHasObject(g: Graph) {
    forall p :: !ArrayCycle(g, p)
  }

  /** `g` is the graph of `payload`: everything in it can be reached. */
  ghost predicate GraphOf(g: Graph, payload: Value) {
    && Closed(g)
    && InGraph(g, payload)
    && forall a | a in g.arrays :: Reaches(g, payload, Arr(a))
  }

  // ----- the termination measure -----

  ghost function ArrayReach(g: Graph, a: Ref): set<Ref> {
    set b | b in g.arrays && exists p :: ArrayPath(g, p) && p[0] == a && p[|p| - 1] == b
  }

  lemma ClosingCycle(g: Graph, a: Ref, p: seq<Ref>)
    requires a in g.arrays && ArrayPath(g, p) && Arr(p[0]) in g.arrays[a] && p[|p| - 1] == a
    ensures ArrayCycle(g, [a] + p)
  {
  }

  lemma ChildReachesLess(g: Graph, a: Ref, c: Ref)
    requires EveryCycleHasObject(g) && a in g.arrays && c in g.arrays && Arr(c) in g.arrays[a]
    ensures |ArrayReach(g, c)| < |ArrayReach(g, a)|
  {
    forall b | b in ArrayReach(g, c) ensures b in ArrayReach(g, a) {
      var p :| ArrayPath(g, p) && p[0] == c && p[|p| - 1] == b;
      assert ArrayPath(g, [a] + p) && ([a] + p)[|p|] == b;
    }
    forall p | ArrayPath(g, p) && p[0] == c ensures p[|p| - 1] != a {
      if p[|p| - 1] == a {
        ClosingCycle(g, a, p);
      }
    }
    assert a !in ArrayReach(g, c);
    assert ArrayPath(g, [a]) && [a][0] == a && [a][|[a]| - 1] == a;
    assert a in ArrayReach(g, a);
    ProperSubsetSmaller(ArrayReach(g, c), ArrayReach(g, a));
  }

  lemma ProperSubsetSmaller<T>(a: set<T>, b: set<T>)
    requires a < b
    ensures |a| < |b|
  {
    assert |b| == |a| + |b - a| by { assert b == a + (b - a); }
    var x :| x in b - a;
    assert |b - a| == |b - a - {x}| + 1;
  }

  /** Pops this value costs, counting an array's expansion but no object's. */
  ghost function Weight(g: Graph, v: Value): (w: nat)
    requires Closed(g) && EveryCycleHasObject(g) && InGraph(g, v)
    ensures w >= 1
    decreases if v.Arr? then |ArrayReach(g, v.id)| + 1 else 0, 0, 0
  {
    if v.Arr? then 1 + Weights(g, g.arrays[v.id], v.id) else 1
  }

  /** The weight of elements of array `a`. */
  ghost function Weights(g: Graph, vs: seq<Value>, a: Ref): nat
    requires Closed(g) && EveryCycleHasObject(g) && a in g.arrays
    requires forall v | v in vs :: v in g.arrays[a]
    decreases |ArrayReach(g, a)|, 1, |vs|
  {
    if vs == [] then 0
    else
      var v := vs[|vs| - 1];
      assert v in vs;
      if v.Arr? then
        ChildReachesLess(g, a, v.id);
        Weight(g, v) + Weights(g, vs[..|vs| - 1], a)
      else
        1 + Weights(g, vs[..|vs| - 1], a)
  }

  ghost function StackWeight(g: Graph, stack: seq<Value>): nat
    requires Closed(g) && EveryCycleHasObject(g) && AllInGraph(g, stack)
  {
    if stack == [] then 0
    else Weight(g, stack[|stack| - 1]) + StackWeight(g, stack[..|stack| - 1])
  }

  lemma {:induction false} WeightsAreStackWeight(g: Graph, vs: seq<Value>, a: Ref)
    requires Closed(g) && EveryCycleHasObject(g) && a in g.arrays
    requires forall v | v in vs :: v in g.arrays[a]
    ensures AllInGraph(g, vs) && Weights(g, vs, a) == StackWeight(g, vs)
  {
    if vs != [] {
      WeightsAreStackWeight(g, vs[..|vs| - 1], a);
      assert vs[|vs| - 1] in g.arrays[a];
    }
  }

  lemma {:induction false} StackWeightAppend(g: Graph, a: seq<Value>, b: seq<Value>)
    requires Closed(g) && EveryCycleHasObject(g) && AllInGraph(g, a) && AllInGraph(g, b)
    ensures AllInGraph(g, a + b)
    ensures StackWeight(g, a + b) == StackWeight(g, a) + StackWeight(g, b)
  {
    if b == [] {
      assert a + b == a;
    } else {
      StackWeightAppend(g, a, b[..|b| - 1]);
      assert (a + b)[..|a + b| - 1] == a + b[..|b| - 1];
    }
  }

  // ----- the recursive specification: a right-to-left flatten -----

  datatype Flat = Flat(out: seq<string>, visited: set<Ref>)

  ghost function Flatten(g: Graph, v: Value, visited: set<Ref>): (r: Flat)
    requires Closed(g) && EveryCycleHasObject(g) && InGraph(g, v)
    ensures visited <= r.visited
    decreases |g.objects.Keys - visited|, Weight(g, v), 0
  {
    match v
    case Absent => Flat([], visited)
    case Opaque => Flat([], visited)
    case Text(s) => Flat([s], visited)
    case Scalar(s) => Flat([s], visited)
    case Arr(id) =>
      WeightsAreStackWeight(g, g.arrays[id], id);
      FlattenAll(g, g.arrays[id], visited)
    case Obj(id) =>
      if id in visited then Flat([], visited)
      else
        ProperSubsetSmaller(g.objects.Keys - (visited + {id}), g.objects.Keys - visited);
        FlattenAll(g, g.objects[id], visited + {id})
  }

  /** Last value first, threading the visited set. */
  ghost function FlattenAll(g: Graph, vs: seq<Value>, visited: set<Ref>): (r: Flat)
    requires Closed(g) && EveryCycleHasObject(g) && AllInGraph(g, vs)
    ensures visited <= r.visited
    decreases |g.objects.Keys - visited|, StackWeight(g, vs), 1
  {
    if vs == [] then Flat([], visited)
    else
      var last := Flatten(g, vs[|vs| - 1], visited);
      UnvisitedShrinks(g, visited, last.visited);
      var rest := FlattenAll(g, vs[..|vs| - 1], last.visited);
      Flat(last.out + rest.out, rest.visited)
  }

  lemma UnvisitedShrinks(g: Graph, before: set<Ref>, after: set<Ref>)
    requires before <= after
    ensures |g.objects.Keys - after| <= |g.objects.Keys - before|
  {
    var small, big := g.objects.Keys - after, g.objects.Keys - before;
    assert small <= big;
    if small != big {
      ProperSubsetSmaller(small, big);
    }
  }

  lemma {:induction false} FlattenAppend(g: Graph, a: seq<Value>, b: seq<Value>, visited: set<Ref>)
    requires Closed(g) && EveryCycleHasObject(g) && AllInGraph(g, a) && AllInGraph(g, b)
    ensures AllInGraph(g, a + b)
    ensures var rb := FlattenAll(g, b, visited); var ra := FlattenAll(g, a, rb.visited);
            FlattenAll(g, a + b, visited) == Flat(rb.out + ra.out, ra.visited)
    decreases |b|
  {
    if b == [] {
      assert a + b == a;
      assert [] + FlattenAll(g, a, visited).out == FlattenAll(g, a, visited).out;
    } else {
      var front := b[..|b| - 1];
      var last := Flatten(g, b[|b| - 1], visited);
      assert (a + b)[..|a + b| - 1] == a + front;
      FlattenAppend(g, a, front, last.visited);
      var rf := FlattenAll(g, front, last.visited);
      var ra := FlattenAll(g, a, rf.visited);
      assert last.out + (rf.out + ra.out) == (last.out + rf.out) + ra.out;
    }
  }

  // ----- one turn of the loop, as a step of a machine that may never halt -----

  datatype State = State(stack: seq<Value>, visited: set<Ref>, out: seq<string>)

  ghost predicate ValidState(g: Graph, st: State) {
    AllInGraph(g, st.stack)
  }

  function Step(g: Graph, st: State): State
    requires AllInGraph(g, st.stack)
  {
    if st.stack == [] then st
    else
      var current, rest := st.stack[|st.stack| - 1], st.stack[..|st.stack| - 1];
      assert current in st.stack;
      match current
      case Absent => st.(stack := rest)
      case Opaque => st.(stack := rest)
      case Text(s) => st.(stack := rest, out := st.out + [s])
      case Scalar(s) => st.(stack := rest, out := st.out + [s])
      case Arr(id) => st.(stack := rest + g.arrays[id])
      case Obj(id) =>
        if id in st.visited then st.(stack := rest)
        else st.(stack := rest + g.objects[id], visited := st.visited + {id})
  }

  lemma StepStaysValid(g: Graph, st: State)
    requires Closed(g) && ValidState(g, st)
    ensures ValidState(g, Step(g, st))
  {
    if st.stack != [] {
      var current, rest := st.stack[|st.stack| - 1], st.stack[..|st.stack| - 1];
      assert current in st.stack && AllInGraph(g, rest);
      assert AllInGraph(g, rest + Children(g, current));
    }
  }

  ghost function Run(g: Graph, st: State, n: nat): (r: State)
    requires Closed(g) && ValidState(g, st)
    ensures ValidState(g, r)
  {
    if n == 0 then st
    else
      StepStaysValid(g, Run(g, st, n - 1));
      Step(g, Run(g, st, n - 1))
  }

  ghost predicate HaltsFrom(g: Graph, st: State)
    requires Closed(g) && ValidState(g, st)
  {
    exists n: nat :: Run(g, st, n).stack == []
  }

  ghost predicate Halts(g: Graph, payload: Value)
    requires Closed(g) && InGraph(g, payload)
  {
    HaltsFrom(g, State([payload], {}, []))
  }

  // ----- the loop itself -----

  /** Every value is on the stack, accounted for in the output, or already expanded. */
  ghost predicate Covered(v: Value, stack: seq<Value>, visited: set<Ref>, expanded: set<Ref>, out: seq<string>) {
    || v in stack
    || (match v
        case Absent => true
        case Opaque => true
        case Text(s) => s in out
        case Scalar(s) => s in out
        case Arr(id) => id in expanded
        case Obj(id) => id in visited)
  }

  ghost predicate AllCovered(vs: seq<Value>, stack: seq<Value>, visited: set<Ref>, expanded: set<Ref>, out: seq<string>) {
    forall v | v in vs :: Covered(v, stack, visited, expanded, out)
  }

  /** What has been expanded has only covered children. */
  ghost predicate Frontier(g: Graph, stack: seq<Value>, visited: set<Ref>, expanded: set<Ref>, out: seq<string>) {
    && visited <= g.objects.Keys
    && expanded <= g.arrays.Keys
    && (forall a | a in expanded :: AllCovered(g.arrays[a], stack, visited, expanded, out))
    && (forall o | o in visited :: AllCovered(g.objects[o], stack, visited, expanded, out))
  }

  ghost predicate Sound(g: Graph, payload: Value, stack: seq<Value>, out: seq<string>) {
    && (forall v | v in stack :: Reaches(g, payload, v))
    && (forall s | s in out :: ReachableLeaf(g, payload, s))
  }

  lemma ReachesChild(g: Graph, from: Value, v: Value, c: Value)
    requires Closed(g) && Reaches(g, from, v) && InGraph(g, v) && c in Children(g, v)
    ensures Reaches(g, from, c)
  {
    var p :| Path(g, p) && p[0] == from && p[|p| - 1] == v;
    assert Path(g, p + [c]);
    assert (p + [c])[|p + [c]| - 1] == c;
  }

  lemma {:induction false} CoveredAlongPath(g: Graph, p: seq<Value>, visited: set<Ref>, expanded: set<Ref>, out: seq<string>)
    requires Closed(g) && Path(g, p)
    requires Covered(p[0], [], visited, expanded, out) && Frontier(g, [], visited, expanded, out)
    ensures Covered(p[|p| - 1], [], visited, expanded, out)
    decreases |p|
  {
    if |p| > 1 {
      assert p[1] in Children(g, p[0]);
      assert Path(g, p[1..]) by {
        forall i | 0 <= i < |p[1..]| - 1 ensures p[1..][i + 1] in Children(g, p[1..][i]) {
          assert p[i + 2] in Children(g, p[i + 1]);
        }
      }
      CoveredAlongPath(g, p[1..], visited, expanded, out);
    }
  }

  lemma StepKeepsSound(g: Graph, payload: Value, st: State)
    requires Closed(g) && ValidState(g, st) && st.stack != []
    requires Sound(g, payload, st.stack, st.out)
    ensures Sound(g, payload, Step(g, st).stack, Step(g, st).out)
  {
    var current := st.stack[|st.stack| - 1];
    var rest := st.stack[..|st.stack| - 1];
    assert current in st.stack;
    forall v | v in Step(g, st).stack ensures Reaches(g, payload, v) {
      if v in rest {
        assert v in st.stack;
      } else {
        ReachesChild(g, payload, current, v);
      }
    }
    forall s | s in Step(g, st).out ensures ReachableLeaf(g, payload, s) {
      if s !in st.out {
        assert Prints(current, s);
      }
    }
  }

  ghost function Expand(st: State, expanded: set<Ref>): set<Ref>
    requires st.stack != []
  {
    var current := st.stack[|st.stack| - 1];
    if current.Arr? then expanded + {current.id} else expanded
  }

  lemma StepKeepsCovered(g: Graph, st: State, expanded: set<Ref>, v: Value)
    requires Closed(g) && ValidState(g, st) && st.stack != []
    requires Covered(v, st.stack, st.visited, expanded, st.out)
    ensures Covered(v, Step(g, st).stack, Step(g, st).visited, Expand(st, expanded), Step(g, st).out)
  {
    var current, rest := st.stack[|st.stack| - 1], st.stack[..|st.stack| - 1];
    assert st.stack == rest + [current];
    assert current in st.stack;
    if v in rest {
      assert v in Step(g, st).stack;
    }
  }

  lemma StepKeepsFrontier(g: Graph, st: State, expanded: set<Ref>)
    requires Closed(g) && ValidState(g, st) && st.stack != []
    requires Frontier(g, st.stack, st.visited, expanded, st.out)
    ensures Frontier(g, Step(g, st).stack, Step(g, st).visited, Expand(st, expanded), Step(g, st).out)
  {
    var current := st.stack[|st.stack| - 1];
    var next, expanded' := Step(g, st), Expand(st, expanded);
    assert current in st.stack;
    forall v | Covered(v, st.stack, st.visited, expanded, st.out)
      ensures Covered(v, next.stack, next.visited, expanded', next.out)
    {
      StepKeepsCovered(g, st, expanded, v);
    }
    forall a | a in expanded' ensures AllCovered(g.arrays[a], next.stack, next.visited, expanded', next.out) {
      if a in expanded {
        assert AllCovered(g.arrays[a], st.stack, st.visited, expanded, st.out);
      }
    }
    forall o | o in next.visited ensures AllCovered(g.objects[o], next.stack, next.visited, expanded', next.out) {
      if o in st.visited {
        assert AllCovered(g.objects[o], st.stack, st.visited, expanded, st.out);
      }
    }
  }

  /** One turn of the loop keeps the eventual result. */
  lemma StepKeepsFlatten(g: Graph, st: State)
    requires Closed(g) && EveryCycleHasObject(g) && ValidState(g, st) && st.stack != []
    ensures ValidState(g, Step(g, st))
    ensures st.out + FlattenAll(g, st.stack, st.visited).out
         == Step(g, st).out + FlattenAll(g, Step(g, st).stack, Step(g, st).visited).out
  {
    var current := st.stack[|st.stack| - 1];
    var rest := st.stack[..|st.stack| - 1];
    assert current in st.stack;
    StepStaysValid(g, st);
    var here := Flatten(g, current, st.visited);
    var later := FlattenAll(g, rest, here.visited);
    assert st.out + (here.out + later.out) == (st.out + here.out) + later.out;
    if current.Arr? {
      FlattenAppend(g, rest, g.arrays[current.id], st.visited);
    } else if current.Obj? && current.id !in st.visited {
      FlattenAppend(g, rest, g.objects[current.id], st.visited + {current.id});
    }
  }

  lemma ArrayWeighsMore(g: Graph, rest: seq<Value>, a: Ref)
    requires Closed(g) && EveryCycleHasObject(g) && AllInGraph(g, rest) && a in g.arrays
    ensures AllInGraph(g, g.arrays[a]) && AllInGraph(g, rest + g.arrays[a]) && AllInGraph(g, rest + [Arr(a)])
    ensures StackWeight(g, rest + g.arrays[a]) < StackWeight(g, rest + [Arr(a)])
  {
    StackWeightAppend(g, rest, g.arrays[a]);
    WeightsAreStackWeight(g, g.arrays[a], a);
    assert (rest + [Arr(a)])[..|rest|] == rest;
  }

  lemma ArrayStepDecreases(g: Graph, st: State, a: Ref)
    requires Closed(g) && EveryCycleHasObject(g) && ValidState(g, st) && st.stack != []
    requires st.stack[|st.stack| - 1] == Arr(a) && a in g.arrays
    ensures var next := Step(g, st);
            && AllInGraph(g, next.stack) && next.visited == st.visited
            && StackWeight(g, next.stack) < StackWeight(g, st.stack)
  {
    var rest := st.stack[..|st.stack| - 1];
    assert AllInGraph(g, rest);
    ArrayWeighsMore(g, rest, a);
    assert st.stack == rest + [Arr(a)];
  }

  lemma TopWeighs(g: Graph, stack: seq<Value>)
    requires Closed(g) && EveryCycleHasObject(g) && AllInGraph(g, stack) && stack != []
    ensures AllInGraph(g, stack[..|stack| - 1])
    ensures StackWeight(g, stack[..|stack| - 1]) < StackWeight(g, stack)
  {
    assert stack[|stack| - 1] in stack;
  }

  /** The measure: objects not yet visited, then the weight of the stack. */
  lemma StepDecreases(g: Graph, st: State)
    requires Closed(g) && EveryCycleHasObject(g) && ValidState(g, st) && st.stack != []
    ensures ValidState(g, Step(g, st))
    ensures var next := Step(g, st);
            var before, after := |g.objects.Keys - st.visited|, |g.objects.Keys - next.visited|;
            after < before || (next.visited == st.visited && StackWeight(g, next.stack) < StackWeight(g, st.stack))
  {
    var current := st.stack[|st.stack| - 1];
    assert current in st.stack;
    StepStaysValid(g, st);
    if current.Arr? {
      ArrayStepDecreases(g, st, current.id);
    } else if current.Obj? && current.id !in st.visited {
      ProperSubsetSmaller(g.objects.Keys - (st.visited + {current.id}), g.objects.Keys - st.visited);
    } else {
      TopWeighs(g, st.stack);
    }
  }

  /** What the loop keeps, turn after turn. */
  ghost predicate LoopInvariant(g: Graph, payload: Value, st: State, expanded: set<Ref>)
    requires Closed(g) && EveryCycleHasObject(g) && InGraph(g, payload)
  {
    && ValidState(g, st)
    && Sound(g, payload, st.stack, st.out)
    && Frontier(g, st.stack, st.visited, expanded, st.out)
    && Covered(payload, st.stack, st.visited, expanded, st.out)
    && st.out + FlattenAll(g, st.stack, st.visited).out == Flatten(g, payload, {}).out
  }

  lemma LoopInvariantKept(g: Graph, payload: Value, st: State, expanded: set<Ref>)
    requires Closed(g) && EveryCycleHasObject(g) && InGraph(g, payload)
    requires LoopInvariant(g, payload, st, expanded) && st.stack != []
    ensures LoopInvariant(g, payload, Step(g, st), Expand(st, expanded))
  {
    StepKeepsSound(g, payload, st);
    StepKeepsFrontier(g, st, expanded);
    StepKeepsCovered(g, st, expanded, payload);
    StepKeepsFlatten(g, st);
  }

  lemma LoopInvariantStarts(g: Graph, payload: Value)
    requires Closed(g) && EveryCycleHasObject(g) && InGraph(g, payload)
    ensures LoopInvariant(g, payload, State([payload], {}, []), {})
  {
    assert Path(g, [payload]);
    assert [payload][..0] == [];
    assert FlattenAll(g, [], Flatten(g, payload, {}).visited).out == [];
  }

  lemma LoopInvariantEnds(g: Graph, payload: Value, st: State, expanded: set<Ref>)
    requires Closed(g) && EveryCycleHasObject(g) && InGraph(g, payload)
    requires LoopInvariant(g, payload, st, expanded) && st.stack == []
    ensures forall s :: s in st.out <==> ReachableLeaf(g, payload, s)
    ensures st.out == Flatten(g, payload, {}).out
  {
    forall s | ReachableLeaf(g, payload, s) ensures s in st.out {
      var v :| Reaches(g, payload, v) && Prints(v, s);
      var p :| Path(g, p) && p[0] == payload && p[|p| - 1] == v;
      CoveredAlongPath(g, p, st.visited, expanded, st.out);
    }
  }

  method ExtractCandidateStrings(g: Graph, payload: Value) returns (strings: seq<string>)
    requires Closed(g) && InGraph(g, payload)
    requires EveryCycleHasObject(g)
    ensures forall s :: s in strings <==> ReachableLeaf(g, payload, s)
    ensures strings == Flatten(g, payload, {}).out
    ensures Halts(g, payload)
  {
    strings := [];
    var stack := [payload];
    var visited: set<Ref> := {};
    ghost var expanded: set<Ref> := {};
    ghost var turns: nat := 0;
    ghost var start := State([payload], {}, []);
    LoopInvariantStarts(g, payload);
    while stack != []
      invariant LoopInvariant(g, payload, State(stack, visited, strings), expanded)
      invariant Run(g, start, turns) == State(stack, visited, strings)
      decreases |g.objects.Keys - visited|, StackWeight(g, stack)
    {
      ghost var st := State(stack, visited, strings);
      LoopInvariantKept(g, payload, st, expanded);
      StepDecreases(g, st);

      var current := stack[|stack| - 1];
      assert current in stack;
      stack := stack[..|stack| - 1];
      if current.Text? {
        strings := strings + [current.text];
      } else if current.Scalar? {
        strings := strings + [current.printed];
      } else if current.Arr? {
        stack := stack + g.arrays[current.id];
      } else if current.Obj? && current.id !in visited {
        visited := visited + {current.id};
        stack := stack + g.objects[current.id];
      }
      assert State(stack, visited, strings) == Step(g, st);
      expanded := Expand(st, expanded);
      turns := turns + 1;
    }
    assert Run(g, start, turns).stack == [];
    LoopInvariantEnds(g, payload, State(stack, visited, strings), expanded);
  }

  // ----- exactly when the walk halts -----

  /** From some stacked value a path of unvisited nodes leads to array `a`. */
  ghost predicate Doomed(g: Graph, st: State, a: Ref) {
    exists p :: DoomedBy(g, st, a, p)
  }

  ghost predicate DoomedBy(g: Graph, st: State, a: Ref, p: seq<Value>) {
    && Path(g, p)
    && p[0] in st.stack
    && p[|p| - 1] == Arr(a)
    && forall i :: 0 <= i < |p| && p[i].Obj? ==> p[i].id !in st.visited
  }

  /** The array part of a cycle, read as a path of values. */
  lemma CycleTail(g: Graph, cycle: seq<Ref>) returns (p: seq<Value>)
    requires Closed(g) && ArrayCycle(g, cycle)
    ensures Path(g, p) && p[0] in g.arrays[cycle[0]] && p[|p| - 1] == Arr(cycle[0])
    ensures forall i :: 0 <= i < |p| ==> p[i].Arr?
  {
    p := seq(|cycle| - 1, i requires 0 <= i < |cycle| - 1 => Arr(cycle[i + 1]));
    forall i | 0 <= i < |p| - 1 ensures p[i + 1] in Children(g, p[i]) {
      assert Arr(cycle[i + 2]) in g.arrays[cycle[i + 1]];
    }
  }

  lemma LastOccurrence(p: seq<Value>, v: Value) returns (i: nat)
    requires v in p
    ensures i < |p| && p[i] == v && v !in p[i + 1..]
  {
    i := |p| - 1;
    while p[i] != v
      invariant i < |p| && v !in p[i + 1..]
      invariant v in p[..i + 1]
      decreases i
    {
      assert p[i..] == [p[i]] + p[i + 1..];
      assert p[..i + 1] == p[..i] + [p[i]];
      i := i - 1;
    }
  }

  lemma StaysDoomed(g: Graph, st: State, cycle: seq<Ref>)
    requires Closed(g) && ValidState(g, st) && ArrayCycle(g, cycle) && Doomed(g, st, cycle[0])
    ensures Doomed(g, Step(g, st), cycle[0])
  {
    var p :| DoomedBy(g, st, cycle[0], p);
    var current := st.stack[|st.stack| - 1];
    var next := Step(g, st);
    assert st.stack == st.stack[..|st.stack| - 1] + [current];
    if current !in p {
      assert p[0] in p && p[0] in next.stack;
      assert DoomedBy(g, next, cycle[0], p);
    } else {
      var i := LastOccurrence(p, current);
      if i == |p| - 1 {
        var q := CycleTail(g, cycle);
        assert DoomedBy(g, next, cycle[0], q);
      } else {
        var q := p[i + 1..];
        assert q[0] in Children(g, current);
        assert Path(g, q) by {
          forall j | 0 <= j < |q| - 1 ensures q[j + 1] in Children(g, q[j]) {
            assert p[i + 1 + j + 1] in Children(g, p[i + 1 + j]);
          }
        }
        forall j | 0 <= j < |q| && q[j].Obj? ensures q[j].id !in next.visited {
          assert q[j] in q && q[j] == p[i + 1 + j];
        }
        assert DoomedBy(g, next, cycle[0], q);
      }
    }
  }

  lemma {:induction false} DoomedForever(g: Graph, st: State, cycle: seq<Ref>, n: nat)
    requires Closed(g) && ValidState(g, st) && ArrayCycle(g, cycle) && Doomed(g, st, cycle[0])
    ensures Doomed(g, Run(g, st, n), cycle[0])
  {
    if n > 0 {
      DoomedForever(g, st, cycle, n - 1);
      StaysDoomed(g, Run(g, st, n - 1), cycle);
    }
  }

  lemma HaltsOneTurnLater(g: Graph, st: State)
    requires Closed(g) && ValidState(g, st) && ValidState(g, Step(g, st))
    requires HaltsFrom(g, Step(g, st))
    ensures HaltsFrom(g, st)
  {
    var n: nat :| Run(g, Step(g, st), n).stack == [];
    RunAfterStep(g, st, n);
  }

  /** Without array-only cycles the machine reaches an empty stack. */
  lemma {:induction false} RunsDry(g: Graph, st: State, unvisited: nat, weight: nat)
    requires Closed(g) && EveryCycleHasObject(g) && ValidState(g, st)
    requires unvisited == |g.objects.Keys - st.visited| && weight == StackWeight(g, st.stack)
    ensures HaltsFrom(g, st)
    decreases unvisited, weight
  {
    if st.stack == [] {
      assert Run(g, st, 0).stack == [];
    } else {
      StepDecreases(g, st);
      var next := Step(g, st);
      RunsDry(g, next, |g.objects.Keys - next.visited|, StackWeight(g, next.stack));
      HaltsOneTurnLater(g, st);
    }
  }

  lemma {:induction false} RunAfterStep(g: Graph, st: State, n: nat)
    requires Closed(g) && ValidState(g, st)
    ensures ValidState(g, Step(g, st))
    ensures Run(g, st, n + 1) == Run(g, Step(g, st), n)
  {
    assert Run(g, st, 1) == Step(g, Run(g, st, 0));
    if n > 0 {
      RunAfterStep(g, st, n - 1);
    }
  }

  /** The walk over a payload's graph halts exactly when every cycle passes through an object. */
  lemma HaltsIffEveryCycleHasObject(g: Graph, payload: Value)
    requires GraphOf(g, payload)
    ensures Halts(g, payload) <==> EveryCycleHasObject(g)
  {
    var start := State([payload], {}, []);
    if EveryCycleHasObject(g) {
      assert g.objects.Keys - {} == g.objects.Keys;
      RunsDry(g, start, |g.objects.Keys|, StackWeight(g, [payload]));
    } else {
      var cycle :| ArrayCycle(g, cycle);
      var p :| Path(g, p) && p[0] == payload && p[|p| - 1] == Arr(cycle[0]);
      assert DoomedBy(g, start, cycle[0], p);
      forall n: nat ensures Run(g, start, n).stack != [] {
        DoomedForever(g, start, cycle, n);
      }
    }
  }

  // ----- tree-shaped payloads -----

  /** A JSON tree; each object carries the identity of the node it unfolds. */
  datatype Json =
    | Nothing
    | Leaf(printed: string)
    | List(items: seq<Json>)
    | Dict(id: Ref, values: seq<Json>)

  ghost predicate Unfolds(g: Graph, v: Value, j: Json)
    requires Closed(g) && InGraph(g, v)
    decreases j, 1
  {
    match j
    case Nothing => v.Absent? || v.Opaque?
    case Leaf(s) => Prints(v, s)
    case List(items) => v.Arr? && UnfoldsAll(g, g.arrays[v.id], items)
    case Dict(id, values) => v == Obj(id) && UnfoldsAll(g, g.objects[id], values)
  }

  ghost predicate UnfoldsAll(g: Graph, vs: seq<Value>, js: seq<Json>)
    requires Closed(g) && AllInGraph(g, vs)
    decreases js, 0
  {
    |vs| == |js| && forall i :: 0 <= i < |js| ==> Unfolds(g, vs[i], js[i])
  }

  /** Document order. */
  ghost function Leaves(j: Json): seq<string>
    decreases j, 1
  {
    match j
    case Nothing => []
    case Leaf(s) => [s]
    case List(items) => AllLeaves(items)
    case Dict(_, values) => AllLeaves(values)
  }

  ghost function AllLeaves(js: seq<Json>): seq<string>
    decreases js, 0
  {
    if js == [] then [] else AllLeaves(js[..|js| - 1]) + Leaves(js[|js| - 1])
  }

  ghost function Ids(j: Json): set<Ref>
    decreases j, 1
  {
    match j
    case Dict(id, values) => {id} + AllIds(values)
    case List(items) => AllIds(items)
    case _ => {}
  }

  ghost function AllIds(js: seq<Json>): set<Ref>
    decreases js, 0
  {
    if js == [] then {} else AllIds(js[..|js| - 1]) + Ids(js[|js| - 1])
  }

  /** No object occurs twice, so the payload is a tree and not a graph. */
  ghost predicate NoSharing(j: Json)
    decreases j, 1
  {
    match j
    case Dict(id, values) => id !in AllIds(values) && NoSharingAll(values)
    case List(items) => NoSharingAll(items)
    case _ => true
  }

  ghost predicate NoSharingAll(js: seq<Json>)
    decreases js, 0
  {
    js == [] || (var front, last := js[..|js| - 1], js[|js| - 1];
                 NoSharingAll(front) && NoSharing(last) && AllIds(front) !! Ids(last))
  }

  ghost function Reversed<T>(s: seq<T>): seq<T> {
    if s == [] then [] else [s[|s| - 1]] + Reversed(s[..|s| - 1])
  }

  lemma {:induction false} ReversedAppend<T>(a: seq<T>, b: seq<T>)
    ensures Reversed(a + b) == Reversed(b) + Reversed(a)
  {
    if b == [] {
      assert a + b == a;
    } else {
      ReversedAppend(a, b[..|b| - 1]);
      assert (a + b)[..|a + b| - 1] == a + b[..|b| - 1];
    }
  }

  lemma {:induction false} FlattenTree(g: Graph, v: Value, j: Json, visited: set<Ref>)
    requires Closed(g) && EveryCycleHasObject(g) && InGraph(g, v)
    requires Unfolds(g, v, j) && NoSharing(j) && Ids(j) !! visited
    ensures Flatten(g, v, visited) == Flat(Reversed(Leaves(j)), visited + Ids(j))
    decreases j, 1
  {
    match j
    case Nothing =>
    case Leaf(s) =>
    case List(items) => FlattenForest(g, g.arrays[v.id], items, visited);
    case Dict(id, values) =>
      FlattenForest(g, g.objects[id], values, visited + {id});
      assert visited + {id} + AllIds(values) == visited + Ids(j);
  }

  lemma ForestSplits(g: Graph, vs: seq<Value>, js: seq<Json>)
    requires Closed(g) && AllInGraph(g, vs) && js != []
    requires UnfoldsAll(g, vs, js)
    ensures |vs| == |js| && AllInGraph(g, vs[..|vs| - 1]) && InGraph(g, vs[|vs| - 1])
    ensures Unfolds(g, vs[|vs| - 1], js[|js| - 1])
    ensures UnfoldsAll(g, vs[..|vs| - 1], js[..|js| - 1])
  {
  }

  lemma FlattenOneMore(g: Graph, vs: seq<Value>, visited: set<Ref>, last: Flat, rest: Flat)
    requires Closed(g) && EveryCycleHasObject(g) && AllInGraph(g, vs) && vs != []
    requires InGraph(g, vs[|vs| - 1]) && AllInGraph(g, vs[..|vs| - 1])
    requires last == Flatten(g, vs[|vs| - 1], visited) && rest == FlattenAll(g, vs[..|vs| - 1], last.visited)
    ensures FlattenAll(g, vs, visited) == Flat(last.out + rest.out, rest.visited)
  {
  }

  lemma ForestParts(js: seq<Json>, visited: set<Ref>)
    requires js != [] && NoSharingAll(js) && AllIds(js) !! visited
    ensures var front, last := js[..|js| - 1], js[|js| - 1];
            && NoSharingAll(front) && NoSharing(last) && Ids(last) !! visited
            && AllIds(front) !! visited + Ids(last)
            && visited + Ids(last) + AllIds(front) == visited + AllIds(js)
            && AllLeaves(js) == AllLeaves(front) + Leaves(last)
  {
  }

  lemma {:induction false} FlattenForest(g: Graph, vs: seq<Value>, js: seq<Json>, visited: set<Ref>)
    requires Closed(g) && EveryCycleHasObject(g) && AllInGraph(g, vs)
    requires UnfoldsAll(g, vs, js) && NoSharingAll(js) && AllIds(js) !! visited
    ensures FlattenAll(g, vs, visited) == Flat(Reversed(AllLeaves(js)), visited + AllIds(js))
    decreases js, 0
  {
    if js != [] {
      ForestSplits(g, vs, js);
      ForestParts(js, visited);
      var front, last := js[..|js| - 1], js[|js| - 1];
      var seen := visited + Ids(last);
      FlattenTree(g, vs[|vs| - 1], last, visited);
      FlattenForest(g, vs[..|vs| - 1], front, seen);
      FlattenOneMore(g, vs, visited, Flat(Reversed(Leaves(last)), seen), Flat(Reversed(AllLeaves(front)), seen + AllIds(front)));
      ReversedAppend(AllLeaves(front), Leaves(last));
    }
  }

  /** On tree-shaped JSON the walk returns the printed leaves in reverse document order. */
  lemma TreeGivesReversedLeaves(g: Graph, payload: Value, j: Json)
    requires Closed(g) && EveryCycleHasObject(g) && InGraph(g, payload)
    requires Unfolds(g, payload, j) && NoSharing(j)
    ensures Flatten(g, payload, {}).out == Reversed(Leaves(j))
  {
    FlattenTree(g, payload, j, {});
  }
}
