/**
 The re-entrant console.error of main/src/mainConsoleForwarding.ts. Whatever it calls (the
 formatter, the logger, the debug log, the renderer) may call console.error again, may
 catch what that throws, and may throw itself; the saved original console.error may throw too.
 */
module ConsoleForwarding {
  import opened Options

  /** What a collaborator does: calls of console.error, going on by how each ends. */
  datatype Script = Return | Throw | Call(msg: string, onReturn: Script, onThrow: Script)

  /** Where an error is forwarded to, in this order. */
  datatype Target = Logger | DebugLog | Renderer

  /** `call`: the log position at which the console.error call began. */
  datatype Event =
    | Begun(msg: string)
    | Forwarded(call: nat, target: Target, msg: string)
    | Original(call: nat, msg: string, threw: bool)

  type Log = seq<Event>

  /** The collaborators, free to behave by all that happened before. */
  datatype Env = Env(
    format: (Log, string) -> Script,
    hasLogger: Log -> bool,
    logger: (Log, string) -> Script,
    development: bool,
    debugLog: (Log, string) -> Script,
    hasWindow: Log -> bool,
    send: (Log, string) -> Script,
    originalThrows: (Log, string) -> bool)

  datatype State = State(handling: bool, log: Log)

  datatype Outcome = Outcome(state: State, threw: bool)

  const FAILED_TO_SEND := "[Main] Failed to send error to renderer:"

  function Begin(s: State, msg: string): State {
    s.(log := s.log + [Begun(msg)])
  }

  function Enter(s: State, call: nat, target: Target, msg: string): State {
    s.(log := s.log + [Forwarded(call, target, msg)])
  }

  function Print(env: Env, s: State, call: nat, msg: string): Outcome {
    var threw := env.originalThrows(s.log, msg);
    Outcome(s.(log := s.log + [Original(call, msg, threw)]), threw)
  }

  /** console.error: it terminates because a call made while one is handled goes straight to the original. */
  function ConsoleError(env: Env, s: State, msg: string): (o: Outcome)
    ensures o.state.handling == s.handling
    decreases if s.handling then 0 else 4
  {
    var call, begun := |s.log|, Begin(s, msg);
    if s.handling then Print(env, begun, call, msg)
    else
      var body := Body(env, begun.(handling := true), call, msg);
      var o := if body.threw then Print(env, body.state, call, msg) else body;
      Outcome(o.state.(handling := false), o.threw)
  }

  /** The try block. */
  function Body(env: Env, s: State, call: nat, msg: string): (o: Outcome)
    requires s.handling
    ensures o.state.handling
    decreases 3
  {
    if !env.hasLogger(s.log) then Print(env, s, call, msg)
    else
      var formatted := Play(env, s, env.format(s.log, msg));
      if formatted.threw then formatted else Forward(env, formatted.state, call, msg)
  }

  function Forward(env: Env, s: State, call: nat, msg: string): (o: Outcome)
    requires s.handling
    ensures o.state.handling
    decreases 2
  {
    var logged := Play(env, Enter(s, call, Logger, msg), env.logger(s.log, msg));
    if logged.threw || !env.development then logged
    else
      var debugged := Play(env, Enter(logged.state, call, DebugLog, msg), env.debugLog(logged.state.log, msg));
      if debugged.threw || !env.hasWindow(debugged.state.log) then debugged
      else
        var sent := Play(env, Enter(debugged.state, call, Renderer, msg), env.send(debugged.state.log, msg));
        if sent.threw then Print(env, sent.state, call, FAILED_TO_SEND) else sent
  }

  /** A collaborator runs while the call is handled. */
  function Play(env: Env, s: State, script: Script): (o: Outcome)
    requires s.handling
    ensures o.state.handling
    decreases 1, script
  {
    match script
    case Return => Outcome(s, false)
    case Throw => Outcome(s, true)
    case Call(msg, onReturn, onThrow) =>
      var nested := ConsoleError(env, s, msg);
      Play(env, nested.state, if nested.threw then onThrow else onReturn)
  }

  // ----- what every call leaves behind -----

  /** The call begun at `k` is the nested kind: nothing comes between it and the original console. */
  predicate Nested(log: Log, k: nat)
    requires k < |log|
  {
    log[k].Begun? ==> k + 1 < |log| && log[k + 1].Original? && log[k + 1].call == k && log[k + 1].msg == log[k].msg
  }

  /** From `past` to `log`, every call begun is a nested one. */
  predicate Tidy(past: Log, log: Log) {
    past <= log && forall k :: |past| <= k < |log| ==> Nested(log, k)
  }

  /** What has been forwarded, in order. */
  function Forwards(log: Log): seq<Event> {
    if log == [] then []
    else Forwards(log[..|log| - 1]) + if log[|log| - 1].Forwarded? then [log[|log| - 1]] else []
  }

  lemma ForwardsOneMore(log: Log, e: Event)
    ensures Forwards(log + [e]) == Forwards(log) + if e.Forwarded? then [e] else []
  {
    assert (log + [e])[..|log|] == log;
  }

  lemma Follows(a: Log, b: Log, c: Log)
    requires Tidy(a, b) && Tidy(b, c)
    ensures Tidy(a, c)
  {
    forall k | |a| <= k < |c| ensures Nested(c, k) {
      if k < |b| {
        assert c[k] == b[k] && Nested(b, k);
      }
    }
  }

  /** A nested call goes to the original console and forwards nothing. */
  lemma NestedPrints(env: Env, s: State, msg: string)
    requires s.handling
    ensures var log := ConsoleError(env, s, msg).state.log;
            Tidy(s.log, log) && Forwards(log) == Forwards(s.log)
  {
    var threw := env.originalThrows(s.log + [Begun(msg)], msg);
    var log := ConsoleError(env, s, msg).state.log;
    ForwardsOneMore(s.log, Begun(msg));
    ForwardsOneMore(s.log + [Begun(msg)], Original(|s.log|, msg, threw));
    assert log == s.log + [Begun(msg)] + [Original(|s.log|, msg, threw)];
  }

  /** Whatever a collaborator does while a call is handled, every call it makes is a nested one and nothing is forwarded. */
  lemma {:induction false} PlayOnlyNests(env: Env, s: State, script: Script)
    requires s.handling
    ensures var log := Play(env, s, script).state.log;
            Tidy(s.log, log) && Forwards(log) == Forwards(s.log)
    decreases script
  {
    if script.Call? {
      var nested := ConsoleError(env, s, script.msg);
      NestedPrints(env, s, script.msg);
      PlayOnlyNests(env, nested.state, if nested.threw then script.onThrow else script.onReturn);
      Follows(s.log, nested.state.log, Play(env, s, script).state.log);
    }
  }

  lemma PrintIsTidy(env: Env, s: State, call: nat, msg: string)
    ensures var log := Print(env, s, call, msg).state.log;
            Tidy(s.log, log) && Forwards(log) == Forwards(s.log)
  {
    ForwardsOneMore(s.log, Original(call, msg, env.originalThrows(s.log, msg)));
  }

  lemma EnterIsTidy(s: State, call: nat, target: Target, msg: string)
    ensures Tidy(s.log, Enter(s, call, target, msg).log)
    ensures Forwards(Enter(s, call, target, msg).log) == Forwards(s.log) + [Forwarded(call, target, msg)]
  {
    ForwardsOneMore(s.log, Forwarded(call, target, msg));
  }

  /** One target: it is entered, then runs. */
  lemma OneTarget(env: Env, s: State, call: nat, target: Target, msg: string, script: Script)
    requires s.handling
    ensures var log := Play(env, Enter(s, call, target, msg), script).state.log;
            Tidy(s.log, log) && Forwards(log) == Forwards(s.log) + [Forwarded(call, target, msg)]
  {
    var entered := Enter(s, call, target, msg);
    EnterIsTidy(s, call, target, msg);
    PlayOnlyNests(env, entered, script);
    Follows(s.log, entered.log, Play(env, entered, script).state.log);
  }

  function Position(target: Target): nat {
    match target case Logger => 0 case DebugLog => 1 case Renderer => 2
  }

  function TargetAt(i: nat): Target {
    if i == 0 then Logger else if i == 1 then DebugLog else Renderer
  }

  /** The message forwarded to the first `n` targets. */
  function Route(call: nat, msg: string, n: nat): seq<Event> {
    if n == 0 then [] else Route(call, msg, n - 1) + [Forwarded(call, TargetAt(n - 1), msg)]
  }

  /** How far forwarding goes when nothing throws: to the logger; in development also to the debug log, and to the renderer if there is a window. */
  predicate WentThrough(env: Env, log: Log, n: nat) {
    if !env.development then n == 1 else n == 3 || (n == 2 && !env.hasWindow(log))
  }

  /** What has been done of a call when it has gone to `n` targets. */
  predicate Routed(past: Log, log: Log, call: nat, msg: string, n: nat) {
    Tidy(past, log) && n <= 3 && Forwards(log) == Forwards(past) + Route(call, msg, n)
  }

  lemma RouteOn(env: Env, past: Log, s: State, call: nat, msg: string, n: nat, script: Script)
    requires s.handling && n < 3 && Routed(past, s.log, call, msg, n)
    ensures Routed(past, Play(env, Enter(s, call, TargetAt(n), msg), script).state.log, call, msg, n + 1)
  {
    var log := Play(env, Enter(s, call, TargetAt(n), msg), script).state.log;
    OneTarget(env, s, call, TargetAt(n), msg, script);
    Follows(past, s.log, log);
    assert Forwards(past) + Route(call, msg, n) + [Forwarded(call, TargetAt(n), msg)]
        == Forwards(past) + (Route(call, msg, n) + [Forwarded(call, TargetAt(n), msg)]);
  }

  lemma PrintStaysRouted(env: Env, past: Log, s: State, call: nat, msg: string, n: nat, printed: string)
    requires Routed(past, s.log, call, msg, n)
    ensures Routed(past, Print(env, s, call, printed).state.log, call, msg, n)
  {
    PrintIsTidy(env, s, call, printed);
    Follows(past, s.log, Print(env, s, call, printed).state.log);
  }

  lemma ForwardRoutes(env: Env, past: Log, s: State, call: nat, msg: string) returns (n: nat)
    requires s.handling && Routed(past, s.log, call, msg, 0)
    ensures var o := Forward(env, s, call, msg);
            && Routed(past, o.state.log, call, msg, n) && n >= 1
            && (!o.threw ==> WentThrough(env, o.state.log, n))
            && (o.threw && n == 3 ==> PrintedLast(o.state.log, call, FAILED_TO_SEND))
  {
    var logged := Play(env, Enter(s, call, Logger, msg), env.logger(s.log, msg));
    RouteOn(env, past, s, call, msg, 0, env.logger(s.log, msg));
    n := 1;
    if !logged.threw && env.development {
      var debugged := Play(env, Enter(logged.state, call, DebugLog, msg), env.debugLog(logged.state.log, msg));
      RouteOn(env, past, logged.state, call, msg, 1, env.debugLog(logged.state.log, msg));
      n := 2;
      if !debugged.threw && env.hasWindow(debugged.state.log) {
        var sent := Play(env, Enter(debugged.state, call, Renderer, msg), env.send(debugged.state.log, msg));
        RouteOn(env, past, debugged.state, call, msg, 2, env.send(debugged.state.log, msg));
        n := 3;
        if sent.threw {
          PrintStaysRouted(env, past, sent.state, call, msg, 3, FAILED_TO_SEND);
        }
      }
    }
  }

  /** The try block: without a logger only the original console; else the formatter, then the targets. */
  lemma BodyRoutes(env: Env, s: State, call: nat, msg: string) returns (n: nat)
    requires s.handling
    ensures var o := Body(env, s, call, msg);
            && Routed(s.log, o.state.log, call, msg, n)
            && (!env.hasLogger(s.log) ==> n == 0 && o == Print(env, s, call, msg))
            && (env.hasLogger(s.log) && !o.threw ==> WentThrough(env, o.state.log, n))
  {
    assert Forwards(s.log) + Route(call, msg, 0) == Forwards(s.log);
    if !env.hasLogger(s.log) {
      PrintStaysRouted(env, s.log, s, call, msg, 0, msg);
      return 0;
    }
    var formatted := Play(env, s, env.format(s.log, msg));
    PlayOnlyNests(env, s, env.format(s.log, msg));
    n := 0;
    if !formatted.threw {
      n := ForwardRoutes(env, s.log, formatted.state, call, msg);
    }
  }

  /** The message of the call begun at `k` got to the logger or to the original console. */
  ghost predicate Reached(log: Log, k: nat)
    requires k < |log|
  {
    log[k].Begun? ==> exists j: nat :: Reaches(log, k, j)
  }

  predicate Reaches(log: Log, k: nat, j: nat)
    requires k < |log| && log[k].Begun?
  {
    k < j < |log| && (log[j] == Forwarded(k, Logger, log[k].msg) || (log[j].Original? && log[j].call == k && log[j].msg == log[k].msg))
  }

  predicate PrintedLast(log: Log, call: nat, msg: string) {
    log != [] && log[|log| - 1].Original? && log[|log| - 1].call == call && log[|log| - 1].msg == msg
  }

  /** What an outermost call leaves; it has forwarded to the first `n` targets. */
  ghost predicate Leaves(env: Env, s: State, msg: string, n: nat) {
    var o := ConsoleError(env, s, msg);
    var log, begun := o.state.log, s.log + [Begun(msg)];
    && n <= 3
    && begun <= log && Tidy(begun, log)
    && Forwards(log) == Forwards(s.log) + Route(|s.log|, msg, n)
    && (!env.hasLogger(begun) ==> n == 0 && PrintedLast(log, |s.log|, msg))
    && (PrintedLast(log, |s.log|, msg) || (!o.threw && WentThrough(env, log, n)))
    && (o.threw ==> log[|log| - 1] == Original(|s.log|, msg, true))
  }

  lemma CallLeaves(env: Env, s: State, msg: string) returns (n: nat)
    requires !s.handling
    ensures Leaves(env, s, msg, n)
  {
    var call, begun := |s.log|, Begin(s, msg).(handling := true);
    var body := Body(env, begun, call, msg);
    n := BodyRoutes(env, begun, call, msg);
    ForwardsOneMore(s.log, Begun(msg));
    if body.threw {
      PrintStaysRouted(env, begun.log, body.state, call, msg, n, msg);
    }
  }

  /** The logger's entry is in the part of the log that forwarded. */
  lemma {:induction false} LoggerPosition(past: Log, log: Log, call: nat, msg: string, n: nat) returns (j: nat)
    requires past < log && 1 <= n <= 3 && Forwards(log) == Forwards(past) + Route(call, msg, n)
    ensures |past| <= j < |log| && log[j] == Forwarded(call, Logger, msg)
  {
    var front, last := log[..|log| - 1], log[|log| - 1];
    if last.Forwarded? && n == 1 {
      assert Forwards(log)[|Forwards(log)| - 1] == last;
      j := |log| - 1;
    } else {
      var m := if last.Forwarded? then n - 1 else n;
      if last.Forwarded? {
        assert Forwards(front) == Forwards(log)[..|Forwards(log)| - 1];
        assert Forwards(past) + Route(call, msg, n) == (Forwards(past) + Route(call, msg, n - 1)) + [Forwarded(call, TargetAt(n - 1), msg)];
      }
      assert Forwards(front) == Forwards(past) + Route(call, msg, m);
      assert front != past by {
        assert |Forwards(front)| > |Forwards(past)|;
      }
      j := LoggerPosition(past, front, call, msg, m);
    }
  }

  lemma EveryCallReaches(env: Env, s: State, msg: string, n: nat, k: nat)
    requires Leaves(env, s, msg, n)
    requires |s.log| <= k < |ConsoleError(env, s, msg).state.log|
    ensures Reached(ConsoleError(env, s, msg).state.log, k)
  {
    var log, begun := ConsoleError(env, s, msg).state.log, s.log + [Begun(msg)];
    if k > |s.log| {
      assert Nested(log, k);
      if log[k].Begun? {
        assert Reaches(log, k, k + 1);
      }
    } else {
      assert log[k] == begun[k];
      if PrintedLast(log, |s.log|, msg) {
        assert Reaches(log, k, |log| - 1);
      } else {
        ForwardsOneMore(s.log, Begun(msg));
        assert Forwards(begun) == Forwards(s.log);
        assert n >= 1 && |Route(|s.log|, msg, n)| >= 1;
        assert |Forwards(log)| > |Forwards(begun)|;
        assert begun != log;
        var j := LoggerPosition(begun, log, |s.log|, msg, n);
        assert Reaches(log, k, j);
      }
    }
  }

  /**
   One outermost call, whatever the collaborators do. The flag is down at the end. The message is forwarded to the first
   `n` targets in their order, each at most once, however many errors they log themselves: to all that apply, unless
   there is no logger or something threw, when the original console gets it last. Every call made meanwhile
   goes straight to the original console. An exception comes out only if that threw on this message, last.
   */
  lemma OutermostCall(env: Env, s: State, msg: string) returns (n: nat)
    requires !s.handling
    ensures var o := ConsoleError(env, s, msg);
            && !o.state.handling
            && s.log + [Begun(msg)] <= o.state.log
            && n <= 3 && Forwards(o.state.log) == Forwards(s.log) + Route(|s.log|, msg, n)
            && (!env.hasLogger(s.log + [Begun(msg)]) ==> n == 0)
            && (PrintedLast(o.state.log, |s.log|, msg) || (!o.threw && WentThrough(env, o.state.log, n)))
            && (forall k :: |s.log| <= k < |o.state.log| ==> Reached(o.state.log, k))
            && (forall k :: |s.log| < k < |o.state.log| ==> Nested(o.state.log, k))
            && (o.threw ==> o.state.log[|o.state.log| - 1] == Original(|s.log|, msg, true))
  {
    n := CallLeaves(env, s, msg);
    var log := ConsoleError(env, s, msg).state.log;
    forall k | |s.log| <= k < |log| ensures Reached(log, k) {
      EveryCallReaches(env, s, msg, n, k);
    }
  }

  // ----- when nothing throws -----

  predicate NeverThrows(script: Script) {
    match script
    case Return => true
    case Throw => false
    case Call(_, onReturn, onThrow) => NeverThrows(onReturn) && NeverThrows(onThrow)
  }

  /** No collaborator lets an exception out, though it may call console.error and catch what that throws. */
  ghost predicate Calm(env: Env) {
    && (forall log, m :: NeverThrows(env.format(log, m)))
    && (forall log, m :: NeverThrows(env.logger(log, m)))
    && (forall log, m :: NeverThrows(env.debugLog(log, m)))
    && (forall log, m :: NeverThrows(env.send(log, m)))
  }

  /** From `past` to `log` the original console is called only for calls begun there. */
  predicate PrintsOnlyNew(past: Log, log: Log) {
    past <= log && forall k :: |past| <= k < |log| && log[k].Original? ==> log[k].call >= |past|
  }

  lemma {:induction false} CalmPlay(env: Env, s: State, script: Script)
    requires s.handling && NeverThrows(script)
    ensures !Play(env, s, script).threw && PrintsOnlyNew(s.log, Play(env, s, script).state.log)
    decreases script
  {
    if script.Call? {
      var nested := ConsoleError(env, s, script.msg);
      var threw := env.originalThrows(s.log + [Begun(script.msg)], script.msg);
      assert nested.state.log == s.log + [Begun(script.msg)] + [Original(|s.log|, script.msg, threw)];
      CalmPlay(env, nested.state, if nested.threw then script.onThrow else script.onReturn);
      OnlyNewFollows(s.log, nested.state.log, Play(env, s, script).state.log);
    }
  }

  lemma OnlyNewFollows(a: Log, b: Log, c: Log)
    requires PrintsOnlyNew(a, b) && PrintsOnlyNew(b, c)
    ensures PrintsOnlyNew(a, c)
  {
    forall k | |a| <= k < |c| && c[k].Original? ensures c[k].call >= |a| {
      if k < |b| {
        assert c[k] == b[k];
      }
    }
  }

  lemma CalmTarget(env: Env, past: Log, s: State, call: nat, target: Target, msg: string, script: Script)
    requires s.handling && NeverThrows(script) && PrintsOnlyNew(past, s.log)
    ensures var o := Play(env, Enter(s, call, target, msg), script);
            !o.threw && PrintsOnlyNew(past, o.state.log)
  {
    var entered := Enter(s, call, target, msg);
    CalmPlay(env, entered, script);
    assert PrintsOnlyNew(s.log, entered.log);
    OnlyNewFollows(s.log, entered.log, Play(env, entered, script).state.log);
    OnlyNewFollows(past, s.log, Play(env, entered, script).state.log);
  }

  lemma CalmForward(env: Env, past: Log, s: State, call: nat, msg: string)
    requires s.handling && Calm(env) && PrintsOnlyNew(past, s.log)
    ensures !Forward(env, s, call, msg).threw && PrintsOnlyNew(past, Forward(env, s, call, msg).state.log)
  {
    var logged := Play(env, Enter(s, call, Logger, msg), env.logger(s.log, msg));
    CalmTarget(env, past, s, call, Logger, msg, env.logger(s.log, msg));
    if env.development {
      var debugged := Play(env, Enter(logged.state, call, DebugLog, msg), env.debugLog(logged.state.log, msg));
      CalmTarget(env, past, logged.state, call, DebugLog, msg, env.debugLog(logged.state.log, msg));
      if env.hasWindow(debugged.state.log) {
        CalmTarget(env, past, debugged.state, call, Renderer, msg, env.send(debugged.state.log, msg));
      }
    }
  }

  /** With a logger and calm collaborators an outermost call goes to every target that applies, and the original console is not used for it. */
  lemma CalmCallGoesThrough(env: Env, s: State, msg: string) returns (n: nat)
    requires !s.handling && Calm(env) && env.hasLogger(s.log + [Begun(msg)])
    ensures var o := ConsoleError(env, s, msg);
            && !o.threw && n <= 3
            && Forwards(o.state.log) == Forwards(s.log) + Route(|s.log|, msg, n) && WentThrough(env, o.state.log, n)
            && forall k :: |s.log| < k < |o.state.log| && o.state.log[k].Original? ==> o.state.log[k].call > |s.log|
  {
    var call, begun := |s.log|, Begin(s, msg).(handling := true);
    n := BodyRoutes(env, begun, call, msg);
    ForwardsOneMore(s.log, Begun(msg));
    var formatted := Play(env, begun, env.format(begun.log, msg));
    CalmPlay(env, begun, env.format(begun.log, msg));
    CalmForward(env, begun.log, formatted.state, call, msg);
  }

  // ----- any number of outermost calls -----

  function Calls(env: Env, s: State, msgs: seq<string>): State {
    if msgs == [] then s else ConsoleError(env, Calls(env, s, msgs[..|msgs| - 1]), msgs[|msgs| - 1]).state
  }

  /** How often the target was entered. */
  function Entries(forwards: seq<Event>, target: Target): nat {
    if forwards == [] then 0
    else
      var last := forwards[|forwards| - 1];
      Entries(forwards[..|forwards| - 1], target) + if last.Forwarded? && last.target == target then 1 else 0
  }

  lemma EntriesOneMore(forwards: seq<Event>, e: Event, target: Target)
    ensures Entries(forwards + [e], target) == Entries(forwards, target) + if e.Forwarded? && e.target == target then 1 else 0
  {
    assert (forwards + [e])[..|forwards|] == forwards;
  }

  lemma {:induction false} RouteEntersOnce(forwards: seq<Event>, call: nat, msg: string, n: nat, target: Target)
    requires n <= 3
    ensures Entries(forwards + Route(call, msg, n), target) == Entries(forwards, target) + if Position(target) < n then 1 else 0
  {
    if n == 0 {
      assert forwards + Route(call, msg, 0) == forwards;
    } else {
      RouteEntersOnce(forwards, call, msg, n - 1, target);
      var e := Forwarded(call, TargetAt(n - 1), msg);
      assert forwards + Route(call, msg, n) == (forwards + Route(call, msg, n - 1)) + [e];
      EntriesOneMore(forwards + Route(call, msg, n - 1), e, target);
    }
  }

  /** Over a whole session of calls: the flag is down after each, no target is entered more often than there are calls, every message arrives. */
  lemma {:induction false} EverySession(env: Env, msgs: seq<string>, target: Target)
    ensures var s := Calls(env, State(false, []), msgs);
            && !s.handling && Entries(Forwards(s.log), target) <= |msgs|
            && forall k :: 0 <= k < |s.log| ==> Reached(s.log, k)
  {
    if msgs != [] {
      var front, msg := msgs[..|msgs| - 1], msgs[|msgs| - 1];
      EverySession(env, front, target);
      var was := Calls(env, State(false, []), front);
      var s := Calls(env, State(false, []), msgs);
      var n := OutermostCall(env, was, msg);
      RouteEntersOnce(Forwards(was.log), |was.log|, msg, n, target);
      forall k | 0 <= k < |s.log| ensures Reached(s.log, k) {
        if k < |was.log| {
          StillReached(was.log, s.log, k);
        }
      }
    }
  }

  lemma StillReached(was: Log, log: Log, k: nat)
    requires was <= log && k < |was| && Reached(was, k)
    ensures Reached(log, k)
  {
    if was[k].Begun? {
      var j: nat :| Reaches(was, k, j);
      assert log[k] == was[k] && log[j] == was[j];
      assert Reaches(log, k, j);
    }
  }

  // ----- the override -----

  /** The function object carrying `__isHandlingError`. */
  class Console {
    const env: Env
    var isHandlingError: bool
    var log: Log

    function Value(): State
      reads this
    {
      State(isHandlingError, log)
    }

    constructor (env: Env)
      ensures this.env == env && Value() == State(false, [])
    {
      this.env, isHandlingError, log := env, false, [];
    }

    method CallOriginal(call: nat, msg: string) returns (threw: bool)
      modifies this
      ensures Outcome(Value(), threw) == Print(env, old(Value()), call, msg)
    {
      threw := env.originalThrows(log, msg);
      log := log + [Original(call, msg, threw)];
    }

    method Error(msg: string) returns (threw: bool)
      modifies this
      ensures Outcome(Value(), threw) == ConsoleError(env, old(Value()), msg)
      decreases if isHandlingError then 0 else 4
    {
      var call := |log|;
      log := log + [Begun(msg)];
      if isHandlingError {
        threw := CallOriginal(call, msg);
        return;
      }
      isHandlingError := true;
      threw := Try(call, msg);
      if threw {
        threw := CallOriginal(call, msg);
      }
      isHandlingError := false;
    }

    method Try(call: nat, msg: string) returns (threw: bool)
      requires isHandlingError
      modifies this
      ensures Outcome(Value(), threw) == Body(env, old(Value()), call, msg)
      decreases 3
    {
      if !env.hasLogger(log) {
        threw := CallOriginal(call, msg);
        return;
      }
      threw := Perform(env.format(log, msg));
      if threw {
        return;
      }
      threw := ForwardTo(call, Logger, msg, env.logger(log, msg));
      if threw || !env.development {
        return;
      }
      threw := ForwardTo(call, DebugLog, msg, env.debugLog(log, msg));
      if threw || !env.hasWindow(log) {
        return;
      }
      threw := ForwardTo(call, Renderer, msg, env.send(log, msg));
      if threw {
        threw := CallOriginal(call, FAILED_TO_SEND);
      }
    }

    method ForwardTo(call: nat, target: Target, msg: string, script: Script) returns (threw: bool)
      requires isHandlingError
      modifies this
      ensures Outcome(Value(), threw) == Play(env, Enter(old(Value()), call, target, msg), script)
      decreases 2
    {
      log := log + [Forwarded(call, target, msg)];
      threw := Perform(script);
    }

    method Perform(script: Script) returns (threw: bool)
      requires isHandlingError
      modifies this
      ensures Outcome(Value(), threw) == Play(env, old(Value()), script)
      decreases 1, script
    {
      match script
      case Return => threw := false;
      case Throw => threw := true;
      case Call(msg, onReturn, onThrow) =>
        threw := Error(msg);
        threw := Perform(if threw then onThrow else onReturn);
    }
  }
}
