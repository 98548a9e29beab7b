/** The recurring heartbeat over the registry's clients: per client, re-test
    auth when it is allowed, drain the dead-letter queue and restart a
    stopped monitoring loop; then sum the restarts and collect the errors.
    The pool of concurrency one is a sequential loop in list order. */
module Heartbeat {
  import opened Common
  import opened Destination
  import opened Registry

  /** What one client's destination answers during one heartbeat. */
  datatype StepEnv = StepEnv(auth: AuthResponse, drain: DrainResponse)

  /** The answers for the client at each position of the list. */
  datatype HeartbeatNet = HeartbeatNet(client: nat -> StepEnv)

  /** One client's step: its state afterwards, the operations invoked on it,
      and what the callback settles with: a value (`None` is `undefined`) or
      an exception. */
  datatype Step = Step(post: ClientState, calls: seq<Call>, result: Result<Option<nat>>)

  /** `client.initialized && client.authGated() && client.canTryAuth()`. */
  predicate CanAuth(s: ClientState) {
    s.initialized && AuthGated(s) && CanTryAuth(s)
  }

  /** Drain the dead letters, then restart monitoring if it has stopped. */
  function DrainAndRestart(s: ClientState, drain: DrainResponse): Step {
    match drain
    case DrainThrows(e) => Step(s, [DrainCall], Err(e))
    case Redeliver(_) =>
      var s' := Drained(s, drain);
      if !s'.scrobbling then Step(s'.(scrobbling := true), [DrainCall, MonitorCall], Ok(Some(1)))
      else Step(s', [DrainCall], Ok(Some(0)))
  }

  /** The per-client callback. A client neither ready nor allowed to auth
      falls off the end of the callback: its result is `undefined`. */
  function HeartbeatStep(s: ClientState, env: StepEnv): Step {
    var ready := Ready(s);
    var canAuth := CanAuth(s);
    if ready || canAuth then
      if !ready && canAuth then
        match env.auth
        case AuthThrows(e) => Step(s, [TestAuthCall], Err(e))
        case AuthAnswer(_, _) =>
          var s' := AfterAuth(s, env.auth);
          if !s'.authed then Step(s', [TestAuthCall], Ok(Some(0)))
          else if !Ready(s') then Step(s', [TestAuthCall], Ok(Some(0)))
          else
            var d := DrainAndRestart(s', env.drain);
            Step(d.post, [TestAuthCall] + d.calls, d.result)
      else DrainAndRestart(s, env.drain)
    else Step(s, [], Ok(None))
  }

  /** The client reaches the dead-letter queue: ready at once, or allowed to
      auth and ready after a successful auth test. */
  predicate PassesChecks(s: ClientState, env: StepEnv) {
    Ready(s) || (CanAuth(s) && env.auth.AuthAnswer? && Ready(AfterAuth(s, env.auth)))
  }

  /** The gates of one step: a client neither ready nor allowed to auth is
      left alone with an `undefined` result; auth is tested exactly when the
      client is not ready but may auth; a client that is still not authed or
      not ready afterwards stops with 0 before the queue and monitoring. */
  lemma StepGates(s: ClientState, env: StepEnv)
    ensures var st := HeartbeatStep(s, env);
      && (!Ready(s) && !CanAuth(s) <==> st.result == Ok(None))
      && (!Ready(s) && !CanAuth(s) ==> st.post == s && st.calls == [])
      && (TestAuthCall in st.calls <==> !Ready(s) && CanAuth(s))
      && (TestAuthCall in st.calls ==> st.calls[0] == TestAuthCall)
      && (!Ready(s) && CanAuth(s) && env.auth.AuthAnswer? && !PassesChecks(s, env) ==>
            st.result == Ok(Some(0)) && st.calls == [TestAuthCall])
      && (!Ready(s) && CanAuth(s) && env.auth.AuthThrows? ==>
            st.result == Err(env.auth.error) && st.calls == [TestAuthCall])
      && (st.result.Err? <==>
            (!Ready(s) && CanAuth(s) && env.auth.AuthThrows?) || (PassesChecks(s, env) && env.drain.DrainThrows?))
  {
  }

  /** Past the gates, the queue is drained exactly once and before any
      restart; monitoring is restarted exactly when it had stopped and the
      drain did not throw, and that is exactly when the step yields 1. No
      step yields more than 1. */
  lemma {:induction false} StepDrainAndRestart(s: ClientState, env: StepEnv)
    ensures var st := HeartbeatStep(s, env);
      && (DrainCall in st.calls <==> PassesChecks(s, env))
      && (DrainCall in st.calls ==> multiset(st.calls)[DrainCall] == 1)
      && (MonitorCall in st.calls ==>
            |st.calls| >= 2 && st.calls[|st.calls| - 2] == DrainCall && st.calls[|st.calls| - 1] == MonitorCall)
      && (MonitorCall in st.calls <==> PassesChecks(s, env) && env.drain.Redeliver? && !s.scrobbling)
      && (st.result == Ok(Some(1)) <==> MonitorCall in st.calls)
      && (st.result.Ok? && st.result.value.Some? ==> st.result.value.value <= 1)
      && (PassesChecks(s, env) && env.drain.Redeliver? ==> st.post.scrobbling)
  {
    var st := HeartbeatStep(s, env);
    if PassesChecks(s, env) {
      var s' := if Ready(s) then s else AfterAuth(s, env.auth);
      assert s'.scrobbling == s.scrobbling;
      var d := DrainAndRestart(s', env.drain);
      var restarts := env.drain.Redeliver? && !s.scrobbling;
      assert d.calls == if restarts then [DrainCall, MonitorCall] else [DrainCall];
      assert d.result == Ok(Some(1)) <==> restarts;
      if Ready(s) {
        assert st == d;
      } else {
        assert st == Step(d.post, [TestAuthCall] + d.calls, d.result);
      }
    } else {
      assert st.calls == [] || st.calls == [TestAuthCall];
    }
  }

  /** The steps of every client, each computed from that client alone. */
  function Steps(states: seq<ClientState>, net: HeartbeatNet): (r: seq<Step>)
    ensures |r| == |states|
  {
    if states == [] then []
    else
      var n := |states| - 1;
      Steps(states[..n], net) + [HeartbeatStep(states[n], net.client(n))]
  }

  /** The step at position `k` is that client's own step. */
  lemma {:induction false} StepAt(states: seq<ClientState>, net: HeartbeatNet, k: nat)
    requires k < |states|
    ensures Steps(states, net)[k] == HeartbeatStep(states[k], net.client(k))
    decreases |states|
  {
    var n := |states| - 1;
    if k < n {
      StepAt(states[..n], net, k);
    }
  }

  /** Past the gates, a client whose monitoring is running yields 0, and a
      drain that throws settles the client with that error before any
      restart. */
  lemma StepDrainOutcome(s: ClientState, env: StepEnv)
    requires PassesChecks(s, env)
    ensures var st := HeartbeatStep(s, env);
      && (env.drain.Redeliver? && s.scrobbling ==> st.result == Ok(Some(0)) && MonitorCall !in st.calls)
      && (env.drain.DrainThrows? ==> st.result == Err(env.drain.error) && MonitorCall !in st.calls)
  {
    var s' := if Ready(s) then s else AfterAuth(s, env.auth);
    assert s'.scrobbling == s.scrobbling;
  }

  /** A step yields 1 exactly when it restarts monitoring, and never more. */
  lemma StepYield(s: ClientState, env: StepEnv)
    ensures YieldsRestarts(HeartbeatStep(s, env))
  {
    StepDrainAndRestart(s, env);
  }

  /** The pool's `results`: the values of the steps that settled, in order. */
  function Results(steps: seq<Step>): seq<Option<nat>> {
    if steps == [] then []
    else
      var last := steps[|steps| - 1];
      Results(steps[..|steps| - 1]) + (if last.result.Ok? then [last.result.value] else [])
  }

  /** The pool's `errors`: the exceptions of the steps that threw, in order. */
  function Errors(steps: seq<Step>): seq<string> {
    if steps == [] then []
    else
      var last := steps[|steps| - 1];
      Errors(steps[..|steps| - 1]) + (if last.result.Err? then [last.result.error] else [])
  }

  /** The number of clients whose monitoring was restarted. */
  function RestartCount(steps: seq<Step>): nat {
    if steps == [] then 0
    else RestartCount(steps[..|steps| - 1]) + (if MonitorCall in steps[|steps| - 1].calls then 1 else 0)
  }

  /** The restart sum, reading an `undefined` result as 0. */
  function Restarted(results: seq<Option<nat>>): nat {
    if results == [] then 0
    else
      var last := results[|results| - 1];
      Restarted(results[..|results| - 1]) + (if last.Some? then last.value else 0)
  }

  /** What the `.then` callback reports: the client count, the number of
      clients restarted, the sum `reduce` computes, whether the restart
      message is logged, and the collected errors. */
  datatype Summary = Summary(checked: nat, restarted: nat, reduced: JsNumber, restartLogged: bool, errors: seq<string>)

  /** The callback as written: the message is logged iff the written sum is
      positive. It is never logged without a restart, and it is logged for
      every restart unless some client was skipped. */
  function Summarize(clientCount: nat, results: seq<Option<nat>>, errors: seq<string>): (s: Summary)
    ensures s.restartLogged ==> s.restarted > 0
    ensures (forall k :: 0 <= k < |results| ==> results[k].Some?) ==> (s.restartLogged <==> s.restarted > 0)
  {
    AsWrittenMatchesUnlessSkipped(results);
    var reduced := RestartedAsWritten(results);
    Summary(clientCount, Restarted(results), reduced, PositiveAsWritten(reduced), errors)
  }

  /** Every client settles exactly once, with a value or with an error; the
      restart total counts the clients restarted, so it never exceeds the
      number of clients. */
  lemma TickTotals(steps: seq<Step>, states: seq<ClientState>, net: HeartbeatNet)
    requires steps == Steps(states, net)
    ensures |Results(steps)| + |Errors(steps)| == |steps|
    ensures Restarted(Results(steps)) == RestartCount(steps) <= |steps|
  {
    forall k | 0 <= k < |steps|
      ensures YieldsRestarts(steps[k])
    {
      StepAt(states, net, k);
      StepYield(states[k], net.client(k));
    }
    SettledTotals(steps);
  }

  /** A step that yields 1 exactly when it restarts monitoring, and never more. */
  predicate YieldsRestarts(st: Step) {
    && (st.result == Ok(Some(1)) <==> MonitorCall in st.calls)
    && (st.result.Ok? && st.result.value.Some? ==> st.result.value.value <= 1)
  }

  lemma {:induction false} SettledTotals(steps: seq<Step>)
    requires forall k :: 0 <= k < |steps| ==> YieldsRestarts(steps[k])
    ensures |Results(steps)| + |Errors(steps)| == |steps|
    ensures Restarted(Results(steps)) == RestartCount(steps) <= |steps|
  {
    if steps != [] {
      var n := |steps| - 1;
      var prefix, last := steps[..n], steps[n];
      assert forall k :: 0 <= k < n ==> prefix[k] == steps[k];
      SettledTotals(prefix);
      var settled := if last.result.Ok? then [last.result.value] else [];
      assert Results(steps) == Results(prefix) + settled;
      assert |Errors(steps)| == |Errors(prefix)| + (if last.result.Err? then 1 else 0);
      assert RestartCount(steps) == RestartCount(prefix) + (if MonitorCall in last.calls then 1 else 0);
      assert YieldsRestarts(last);
      RestartedAppend(Results(prefix), settled);
      RestartedSettled(last);
    }
  }

  /** What one settled step adds to the restart sum. */
  lemma RestartedSettled(st: Step)
    requires YieldsRestarts(st)
    ensures Restarted(if st.result.Ok? then [st.result.value] else []) == if MonitorCall in st.calls then 1 else 0
  {
    if st.result.Ok? {
      assert [st.result.value][..0] == [];
    }
  }

  lemma RestartedAppend(a: seq<Option<nat>>, b: seq<Option<nat>>)
    requires |b| <= 1
    ensures Restarted(a + b) == Restarted(a) + Restarted(b)
  {
    if |b| == 1 {
      assert (a + b)[..|a + b| - 1] == a;
      assert b[..0] == [];
    } else {
      assert a + b == a;
    }
  }

  // ---------------------------------------------------------------------
  // The restart sum as written

  /** A JavaScript number as far as `reduce` can take it here. */
  datatype JsNumber = Finite(n: int) | NaN

  /** `acc += curr`: `undefined` turns the sum into NaN, and NaN stays NaN. */
  function AddAsWritten(acc: JsNumber, curr: Option<nat>): JsNumber {
    if acc.NaN? || curr.None? then NaN else Finite(acc.n + curr.value)
  }

  /** `results.reduce((acc, curr) => acc += curr, 0)`. */
  function RestartedAsWritten(results: seq<Option<nat>>): JsNumber {
    if results == [] then Finite(0)
    else AddAsWritten(RestartedAsWritten(results[..|results| - 1]), results[|results| - 1])
  }

  /** `restarted > 0`; false for NaN. */
  predicate PositiveAsWritten(x: JsNumber) {
    x.Finite? && x.n > 0
  }

  /** The written sum equals the corrected one exactly when no client was
      skipped; a single skipped client makes it NaN. */
  lemma {:induction false} AsWrittenMatchesUnlessSkipped(results: seq<Option<nat>>)
    ensures (forall k :: 0 <= k < |results| ==> results[k].Some?) <==>
      RestartedAsWritten(results) == Finite(Restarted(results))
    ensures (exists k :: 0 <= k < |results| && results[k].None?) <==> RestartedAsWritten(results).NaN?
  {
    if results != [] {
      var n := |results| - 1;
      AsWrittenMatchesUnlessSkipped(results[..n]);
      assert forall k :: 0 <= k < n ==> results[..n][k] == results[k];
    }
  }

  /** Two clients: the first skipped (not initialized), the second ready with
      its monitoring stopped. The second is restarted, yet the written sum is
      NaN and the restart message is not logged. */
  lemma SkippedClientHidesRestart(pr: Profile, env: StepEnv)
    requires !pr.gated && env.drain.Redeliver?
    ensures var skipped := ClientState(pr, false, false, false, false, false, 0, [], []);
      var stopped := ClientState(pr, true, false, false, true, false, 0, [], []);
      var steps := Steps([skipped, stopped], HeartbeatNet(k => env));
      && MonitorCall in steps[1].calls
      && RestartedAsWritten(Results(steps)) == NaN
      && !PositiveAsWritten(RestartedAsWritten(Results(steps)))
      && Restarted(Results(steps)) == 1
      && Summarize(2, Results(steps), Errors(steps)).restarted == 1
      && !Summarize(2, Results(steps), Errors(steps)).restartLogged
  {
    var skipped := ClientState(pr, false, false, false, false, false, 0, [], []);
    var stopped := ClientState(pr, true, false, false, true, false, 0, [], []);
    var steps := Steps([skipped, stopped], HeartbeatNet(k => env));
    StepAt([skipped, stopped], HeartbeatNet(k => env), 0);
    StepAt([skipped, stopped], HeartbeatNet(k => env), 1);
    assert steps[0].result == Ok(None);
    assert steps[1].result == Ok(Some(1));
    SettleAt(steps, 0, Ok(None));
    SettleAt(steps, 1, Ok(Some(1)));
    assert steps[..0] == [] && steps[..2] == steps;
    SkippedThenRestartedSums();
  }

  /** The sums over an `undefined` result followed by one restart. */
  lemma SkippedThenRestartedSums()
    ensures RestartedAsWritten([None, Some(1)]) == NaN
    ensures Restarted([None, Some(1)]) == 1
  {
    var rs: seq<Option<nat>> := [None, Some(1)];
    assert rs[..1] == [None];
    assert rs[..1][..0] == [];
  }

  // ---------------------------------------------------------------------
  // The task

  /** Settling the step at position `i` extends the results or the errors
      gathered over the steps before it. */
  lemma SettleAt(steps: seq<Step>, i: nat, r: Result<Option<nat>>)
    requires i < |steps| && steps[i].result == r
    ensures Results(steps[..i + 1]) == Results(steps[..i]) + (if r.Ok? then [r.value] else [])
    ensures Errors(steps[..i + 1]) == Errors(steps[..i]) + (if r.Err? then [r.error] else [])
  {
    assert steps[..i + 1][..i] == steps[..i];
  }

  /** Client `c` has taken step `st`, starting from the call log `before`. */
  ghost predicate Stepped(c: Client, st: Step, before: seq<Call>)
    reads c
  {
    c.State() == st.post && c.calls == before + st.calls
  }

  /** The per-client callback of the pool. */
  method HeartbeatClient(c: Client, env: StepEnv, ghost step: Step) returns (r: Result<Option<nat>>)
    requires step == HeartbeatStep(c.State(), env)
    modifies c
    ensures r == step.result && c.State() == step.post && c.calls == old(c.calls) + step.calls
  {
    var ready := c.IsReady();
    var canAuth := c.initialized && c.IsAuthGated() && c.IsAuthRetryAllowed();
    if ready || canAuth {
      if !ready && canAuth {
        var o := c.TestAuth(env.auth);
        if o.Fail? {
          return Err(o.error);
        }
        if !c.authed {
          return Ok(Some(0));
        }
        if !c.IsReady() {
          return Ok(Some(0));
        }
      }
      var d := c.ProcessDeadLetterQueue(env.drain);
      if d.Fail? {
        return Err(d.error);
      }
      if !c.scrobbling {
        c.InitScrobbleMonitoring();
        return Ok(Some(1));
      }
      return Ok(Some(0));
    }
    r := Ok(None);
  }

  /** The first `i` clients have taken their steps; the rest are as they were. */
  ghost predicate SteppedUpTo(cs: seq<Client>, i: nat, steps: seq<Step>, olds: seq<ClientState>, logs: seq<seq<Call>>)
    reads cs
  {
    && i <= |cs| == |steps| == |olds| == |logs|
    && (forall k {:trigger Stepped(cs[k], steps[k], logs[k])} :: 0 <= k < i ==> Stepped(cs[k], steps[k], logs[k]))
    && (forall k {:trigger Untouched(cs[k], olds[k], logs[k])} :: i <= k < |cs| ==> Untouched(cs[k], olds[k], logs[k]))
  }

  /** The step of the client at position `i`, the others left alone. */
  method HeartbeatNext(cs: seq<Client>, i: nat, net: HeartbeatNet,
                       ghost steps: seq<Step>, ghost olds: seq<ClientState>, ghost logs: seq<seq<Call>>)
    returns (r: Result<Option<nat>>)
    requires i < |cs| && SteppedUpTo(cs, i, steps, olds, logs)
    requires forall k :: 0 <= k < |cs| && k != i ==> cs[k] != cs[i]
    requires steps[i] == HeartbeatStep(olds[i], net.client(i))
    modifies cs[i]
    ensures SteppedUpTo(cs, i + 1, steps, olds, logs) && r == steps[i].result
  {
    assert Untouched(cs[i], olds[i], logs[i]);
    r := HeartbeatClient(cs[i], net.client(i), steps[i]);
    assert Stepped(cs[i], steps[i], logs[i]);
    forall k | 0 <= k < i
      ensures Stepped(cs[k], steps[k], logs[k])
    {
      assert old(Stepped(cs[k], steps[k], logs[k]));
    }
    forall k | i < k < |cs|
      ensures Untouched(cs[k], olds[k], logs[k])
    {
      assert old(Untouched(cs[k], olds[k], logs[k]));
    }
  }

  /** After the last step, every client has taken its step. */
  lemma AllStepped(cs: seq<Client>, steps: seq<Step>, olds: seq<ClientState>, logs: seq<seq<Call>>)
    requires SteppedUpTo(cs, |cs|, steps, olds, logs)
    ensures forall k :: 0 <= k < |cs| ==> cs[k].State() == steps[k].post && cs[k].calls == logs[k] + steps[k].calls
  {
    assert forall k :: 0 <= k < |cs| ==> Stepped(cs[k], steps[k], logs[k]);
  }

  /** Before the first step, every client is as recorded. */
  lemma NoneSteppedYet(cs: seq<Client>, steps: seq<Step>)
    requires |steps| == |cs|
    ensures SteppedUpTo(cs, 0, steps, States(cs), CallLogs(cs))
  {
    assert forall k :: 0 <= k < |cs| ==> Untouched(cs[k], States(cs)[k], CallLogs(cs)[k]);
  }

  /** One heartbeat: every client of the registry in list order, one at a
      time; an exception is collected and the next client still runs. */
  method Tick(registry: ScrobbleClients, net: HeartbeatNet) returns (summary: Summary)
    requires registry.Valid()
    modifies registry.clients
    ensures var steps := Steps(old(States(registry.clients)), net);
      && summary == Summarize(|registry.clients|, Results(steps), Errors(steps))
      && forall k :: 0 <= k < |registry.clients| ==>
           registry.clients[k].State() == steps[k].post &&
           registry.clients[k].calls == old(registry.clients[k].calls) + steps[k].calls
  {
    var clients := registry.clients;
    ghost var olds := States(clients);
    ghost var steps := Steps(olds, net);
    ghost var oldCalls := CallLogs(clients);
    NoneSteppedYet(clients, steps);
    var results: seq<Option<nat>> := [];
    var errors: seq<string> := [];
    var i := 0;
    while i < |clients|
      invariant 0 <= i <= |clients|
      invariant results == Results(steps[..i]) && errors == Errors(steps[..i])
      invariant SteppedUpTo(clients, i, steps, olds, oldCalls)
      invariant registry.clients == clients
    {
      DistinctAt(clients, i);
      StepAt(olds, net, i);
      var r := HeartbeatNext(clients, i, net, steps, olds, oldCalls);
      SettleAt(steps, i, r);
      results := results + (if r.Ok? then [r.value] else []);
      errors := errors + (if r.Err? then [r.error] else []);
      i := i + 1;
    }
    assert steps[..|clients|] == steps;
    AllStepped(clients, steps, olds, oldCalls);
    var reduced := RestartedAsWritten(results);
    summary := Summary(|clients|, Restarted(results), reduced, PositiveAsWritten(reduced), errors);
  }
}
