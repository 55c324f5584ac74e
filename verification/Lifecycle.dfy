/** The timers of `src/ti.c` that start and stop a node, tick by tick, under any environment. */
module Lifecycle {
  import opened Bytes

  // ---- shutdown ----

  /** What a tick finds: the number of nodes, of child processes still running, and whether away mode is working. */
  datatype Scene = Scene(nodes: nat, processes: nat, awayWorking: bool)

  datatype Deed = GoOffline | StopNode

  /** The counter, what was done so far, and whether the timer still runs. */
  datatype Down = Down(counter: int, deeds: seq<Deed>, running: bool)

  /** `ti__shutdown_cb` */
  function DownTick(d: Down, e: Scene): Down {
    if !d.running then d
    else
      var c := if d.counter > 0 && e.nodes <= 1 then 0 else d.counter;
      var now := c - 1;
      if c > 0 then d.(counter := now)
      else
        var deeds := if now == -1 then d.deeds + [GoOffline] else d.deeds;
        if (now > -120 && e.processes > 0) || (now > -300 && e.awayWorking) then Down(now, deeds, true)
        else Down(now, deeds + [StopNode], false)
  }

  function DownRun(d: Down, es: seq<Scene>): Down {
    if es == [] then d else DownTick(DownRun(d, es[..|es| - 1]), es[|es| - 1])
  }

  /** After `t` ticks of a shutdown with period `period`. */
  predicate DownInv(d: Down, period: nat, t: nat) {
    && d.counter <= period - t
    && d.deeds == (if d.running then if d.counter >= 0 then [] else [GoOffline] else [GoOffline, StopNode])
    && (!d.running ==> d.counter < 0)
    && (d.running ==> d.counter > -300)
  }

  lemma DownKeeps(d: Down, e: Scene, period: nat, t: nat)
    requires d.running && DownInv(d, period, t)
    ensures DownInv(DownTick(d, e), period, t + 1)
  {
  }

  /**
    * Whatever happens meanwhile, a node goes off-line exactly once, before it stops, and it stops no later than
    * 300 ticks after its period.
    */
  lemma {:induction false} ShutdownBound(period: nat, es: seq<Scene>)
    ensures
      var d := DownRun(Down(period, [], true), es);
      && d.deeds == (if d.running then if d.counter >= 0 then [] else [GoOffline] else [GoOffline, StopNode])
      && (|es| >= period + 300 ==> !d.running)
      && (d.running ==> DownInv(d, period, |es|))
    decreases |es|
  {
    if es != [] {
      ShutdownBound(period, es[..|es| - 1]);
      var d := DownRun(Down(period, [], true), es[..|es| - 1]);
      if d.running { DownKeeps(d, es[|es| - 1], period, |es| - 1); }
    }
  }

  /** While there are other nodes, they get the whole period before this one goes off-line; alone, it does not wait. */
  lemma {:induction false} PeriodIsKept(period: nat, es: seq<Scene>)
    requires forall e | e in es :: e.nodes > 1
    ensures |es| <= period ==> DownRun(Down(period, [], true), es) == Down(period - |es|, [], true)
    decreases |es|
  {
    if es != [] && |es| <= period {
      assert es[|es| - 1] in es;
      assert forall e | e in es[..|es| - 1] :: e in es;
      PeriodIsKept(period, es[..|es| - 1]);
    }
  }

  /** The shutdown timer. */
  class Shutdown {
    var counter: int
    var deeds: seq<Deed>
    var running: bool

    constructor (period: nat)
      ensures Abs() == Down(period, [], true)
    {
      counter, deeds, running := period, [], true;
    }

    function Abs(): Down
      reads this
    {
      Down(counter, deeds, running)
    }

    /** `ti__shutdown_cb` */
    method Tick(e: Scene)
      requires running
      modifies this
      ensures Abs() == DownTick(old(Abs()), e)
    {
      if counter > 0 && e.nodes <= 1 { counter := 0; }
      var before := counter;
      counter := counter - 1;
      if before > 0 { return; }
      if counter == -1 { deeds := deeds + [GoOffline]; }
      if counter > -120 && e.processes != 0 { return; }
      if counter > -300 && e.awayWorking { return; }
      running := false;
      deeds := deeds + [StopNode];
    }
  }

  // ---- startup ----

  datatype Step =
    | CollectGarbage | LoadModules | Wait | StartTasks | StartAway | StartConnect | Ready | StartSync
    | ListenNodes | ListenClients | InitApi | InitWs | Started | Stopped

  /**
    * What a tick finds: the result of `ti_changes_trigger_loop`, whether the modules are ready, the number of
    * nodes, and the step that fails, if one does.
    */
  datatype Morning = Morning(changes: int, modulesReady: bool, nodes: nat, fails: Option<Step>)

  /** `node`: this node exists already.  `wait`: the configuration asks to wait for modules. */
  datatype Plan = Plan(node: bool, wait: bool)

  datatype Up = Up(waiting: bool, timeout: nat, log: seq<Step>, running: bool)

  /** Setting the status and being done cannot fail. */
  predicate Fails(e: Option<Step>, s: Step) { e == Some(s) && !s.Ready? && !s.Started? }

  /** Steps in turn, up to the first that fails, which stops the node. */
  function Through(steps: seq<Step>, fails: Option<Step>): (r: seq<Step>)
    ensures steps != [] ==> r != []
  {
    if steps == [] then []
    else if Fails(fails, steps[0]) then [steps[0], Stopped]
    else [steps[0]] + Through(steps[1..], fails)
  }

  /** The steps from tasks to web sockets. */
  function Remaining(p: Plan, e: Morning): seq<Step> {
    if p.node then
      [StartTasks, StartAway, StartConnect, if e.nodes == 1 then Ready else StartSync, ListenNodes, ListenClients,
       InitApi, InitWs, Started]
    else [ListenNodes, Started]
  }

  /** `ti__delayed_start_cb` */
  function UpTick(p: Plan, u: Up, e: Morning): Up {
    if !u.running || e.changes > 0 then u
    else if e.changes < 0 then u.(log := u.log + [Stopped], running := false)
    else
      var load := p.node && !u.waiting;
      var log := if load then u.log + [CollectGarbage, LoadModules] else u.log;
      var waiting := if load then p.wait else u.waiting;
      if p.node && waiting && u.timeout > 0 && !e.modulesReady then Up(waiting, u.timeout - 1, log + [Wait], true)
      else Up(waiting, u.timeout, log + Through(Remaining(p, e), e.fails), false)
  }

  function UpRun(p: Plan, u: Up, es: seq<Morning>): Up {
    if es == [] then u else UpTick(p, UpRun(p, u, es[..|es| - 1]), es[|es| - 1])
  }

  function CountOf(log: seq<Step>, s: Step): nat {
    if log == [] then 0 else CountOf(log[..|log| - 1], s) + if log[|log| - 1] == s then 1 else 0
  }

  lemma {:induction false} CountConcat(a: seq<Step>, b: seq<Step>, s: Step)
    ensures CountOf(a + b, s) == CountOf(a, s) + CountOf(b, s)
    decreases |b|
  {
    if b == [] {
      assert a + b == a;
    } else {
      assert (a + b)[..|a + b| - 1] == a + b[..|b| - 1];
      CountConcat(a, b[..|b| - 1], s);
    }
  }

  const TIMEOUT: nat := 120

  /** While the start goes on: the modules are loaded once, and every wait takes one off the timeout. */
  predicate UpInv(p: Plan, u: Up) {
    && u.timeout <= TIMEOUT
    && CountOf(u.log, Wait) == TIMEOUT - u.timeout
    && CountOf(u.log, LoadModules) <= 1
    && (u.running ==> CountOf(u.log, LoadModules) == (if u.waiting then 1 else 0) && CountOf(u.log, ListenClients) == 0)
    && CountOf(u.log, ListenClients) <= 1
    && (CountOf(u.log, ListenClients) == 1 ==> CountOf(u.log, LoadModules) == 1)
  }

  lemma {:induction false} ThroughCounts(steps: seq<Step>, fails: Option<Step>, s: Step)
    requires s != Stopped
    ensures CountOf(Through(steps, fails), s) <= CountOf(steps, s)
    decreases |steps|
  {
    if steps != [] {
      CountConcat([steps[0]], steps[1..], s);
      assert [steps[0]] + steps[1..] == steps;
      if Fails(fails, steps[0]) {
        CountConcat([steps[0]], [Stopped], s);
        assert [steps[0]] + [Stopped] == [steps[0], Stopped];
        assert CountOf([Stopped], s) == 0 by { assert [Stopped][..0] == []; }
      } else {
        ThroughCounts(steps[1..], fails, s);
        CountConcat([steps[0]], Through(steps[1..], fails), s);
      }
    }
  }

  lemma RemainingCounts(p: Plan, e: Morning)
    ensures var steps := Remaining(p, e);
      CountOf(steps, Wait) == 0 && CountOf(steps, LoadModules) == 0
        && CountOf(steps, ListenClients) == (if p.node then 1 else 0)
  {
    var steps := Remaining(p, e);
    forall s | s in {Wait, LoadModules, ListenClients}
      ensures CountOf(steps, s) == (if s == ListenClients && p.node then 1 else 0)
    {
      if p.node {
        var a, b := steps[..5], steps[6..];
        assert steps == a + [ListenClients] + b;
        CountConcat(a + [ListenClients], b, s);
        CountConcat(a, [ListenClients], s);
        CountNone(a, s);
        CountNone(b, s);
        assert [ListenClients][..0] == [];
      } else {
        CountNone(steps, s);
      }
    }
  }

  lemma {:induction false} CountNone(log: seq<Step>, s: Step)
    requires s !in log
    ensures CountOf(log, s) == 0
    decreases |log|
  {
    if log != [] { CountNone(log[..|log| - 1], s); }
  }

  /** Clients are served only once the modules have been loaded. */
  predicate LoadedFirst(log: seq<Step>) {
    forall i | 0 <= i < |log| && log[i] == ListenClients :: LoadModules in log[..i]
  }

  /** The log of a tick before it waits, goes on or stops. */
  function LogOf(p: Plan, u: Up, e: Morning): seq<Step> {
    if p.node && !u.waiting && e.changes == 0 then u.log + [CollectGarbage, LoadModules] else u.log
  }

  lemma UpKeepsCounts(p: Plan, u: Up, e: Morning)
    requires u.running && UpInv(p, u)
    ensures UpInv(p, UpTick(p, u, e))
    ensures CountOf(UpTick(p, u, e).log, ListenClients) > 0 ==> CountOf(LogOf(p, u, e), LoadModules) > 0
  {
    hide CountOf, Through, Remaining;
    var log, steps := LogOf(p, u, e), Remaining(p, e);
    AddedCounts(u.log, [CollectGarbage, LoadModules]);
    AddedCounts(u.log, [Stopped]);
    AddedCounts(log, [Wait]);
    AddedCounts(log, Through(steps, e.fails));
    RemainingCounts(p, e);
    ThroughCounts(steps, e.fails, Wait);
    ThroughCounts(steps, e.fails, LoadModules);
    ThroughCounts(steps, e.fails, ListenClients);
    SmallCounts();
  }

  lemma UpKeeps(p: Plan, u: Up, e: Morning)
    requires u.running && UpInv(p, u)
    ensures UpInv(p, UpTick(p, u, e)) && LoadedFirst(UpTick(p, u, e).log)
  {
    hide CountOf, LoadedFirst, Through, Remaining;
    UpKeepsCounts(p, u, e);
    var r, log := UpTick(p, u, e), LogOf(p, u, e);
    assert log <= r.log;
    NoClients(u.log);
    assert ListenClients !in log;
    LoadedBefore(log, r.log);
  }

  lemma LoadedBefore(log: seq<Step>, all: seq<Step>)
    requires log <= all && ListenClients !in log
    requires CountOf(all, ListenClients) > 0 ==> CountOf(log, LoadModules) > 0
    ensures LoadedFirst(all)
  {
    hide CountOf;
    forall i | 0 <= i < |all| && all[i] == ListenClients ensures LoadModules in all[..i] {
      SomeAt(all, i);
      SomeCounted(log, LoadModules);
      var j :| 0 <= j < |log| && log[j] == LoadModules;
      assert all[..i][j] == LoadModules;
    }
  }

  lemma AddedCounts(log: seq<Step>, more: seq<Step>)
    ensures forall s | s in {Wait, LoadModules, ListenClients} ::
              CountOf(log + more, s) == CountOf(log, s) + CountOf(more, s)
  {
    CountConcat(log, more, Wait);
    CountConcat(log, more, LoadModules);
    CountConcat(log, more, ListenClients);
  }

  lemma SmallCounts()
    ensures CountOf([Wait], Wait) == 1 && CountOf([Wait], LoadModules) == 0 && CountOf([Wait], ListenClients) == 0
    ensures CountOf([Stopped], Wait) == 0 && CountOf([Stopped], LoadModules) == 0
        && CountOf([Stopped], ListenClients) == 0
    ensures
      var l := [CollectGarbage, LoadModules];
      CountOf(l, Wait) == 0 && CountOf(l, LoadModules) == 1 && CountOf(l, ListenClients) == 0
  {
    assert [Wait][..0] == [] && [Stopped][..0] == [];
    var l := [CollectGarbage, LoadModules];
    assert l[..1] == [CollectGarbage] && [CollectGarbage][..0] == [];
  }

  lemma NoClients(log: seq<Step>)
    ensures CountOf(log, ListenClients) == 0 ==> ListenClients !in log
  {
    if ListenClients in log {
      var i :| 0 <= i < |log| && log[i] == ListenClients;
      SomeAt(log, i);
    }
  }

  lemma {:induction false} SomeAt(log: seq<Step>, i: nat)
    requires i < |log|
    ensures CountOf(log, log[i]) > 0
    decreases |log|
  {
    if i < |log| - 1 { SomeAt(log[..|log| - 1], i); }
  }

  lemma {:induction false} SomeCounted(log: seq<Step>, s: Step)
    requires CountOf(log, s) > 0
    ensures s in log
    decreases |log|
  {
    if log[|log| - 1] != s { SomeCounted(log[..|log| - 1], s); }
  }

  function Beginning(): Up { Up(false, TIMEOUT, [], true) }

  /**
    * In every run, modules are loaded at most once, clients are served at most once and only after that, and there
    * are at most 120 waits.
    */
  lemma {:induction false} StartupOrder(p: Plan, es: seq<Morning>)
    ensures var u := UpRun(p, Beginning(), es); UpInv(p, u) && LoadedFirst(u.log)
    decreases |es|
  {
    if es != [] {
      StartupOrder(p, es[..|es| - 1]);
      var u := UpRun(p, Beginning(), es[..|es| - 1]);
      if u.running { UpKeeps(p, u, es[|es| - 1]); }
    }
  }

  /**
    * The tick that lets clients in found no change waiting, and the modules ready or the patience of 120 ticks
    * used up.
    */
  lemma ClientsWait(p: Plan, es: seq<Morning>, e: Morning)
    requires
      var u := UpRun(p, Beginning(), es);
      CountOf(UpTick(p, u, e).log, ListenClients) > CountOf(u.log, ListenClients)
    ensures
      var u := UpRun(p, Beginning(), es);
      && p.node && e.changes == 0 && CountOf(UpTick(p, u, e).log, LoadModules) == 1
      && (e.modulesReady || !p.wait || CountOf(u.log, Wait) == TIMEOUT)
  {
    var u := UpRun(p, Beginning(), es);
    StartupOrder(p, es);
    StartupOrder(p, es + [e]);
    assert (es + [e])[..|es|] == es;
    AddedCounts(u.log, [Stopped]);
    SmallCounts();
    var log := if p.node && !u.waiting then u.log + [CollectGarbage, LoadModules] else u.log;
    AddedCounts(u.log, [CollectGarbage, LoadModules]);
    AddedCounts(log, Through(Remaining(p, e), e.fails));
    AddedCounts(log, [Wait]);
    RemainingCounts(p, e);
    ThroughCounts(Remaining(p, e), e.fails, ListenClients);
  }

  /** With no change waiting, the start is over after 121 ticks. */
  lemma {:induction false} StartupEnds(p: Plan, es: seq<Morning>)
    requires forall e | e in es :: e.changes == 0
    ensures var u := UpRun(p, Beginning(), es); u.running ==> u.timeout + |es| == TIMEOUT
    ensures |es| > TIMEOUT ==> !UpRun(p, Beginning(), es).running
    decreases |es|
  {
    if es != [] {
      assert es[|es| - 1] in es && forall e | e in es[..|es| - 1] :: e in es;
      StartupEnds(p, es[..|es| - 1]);
    }
  }

  /** The timer of the delayed start. */
  class Startup {
    const plan: Plan
    var waiting: bool
    var timeout: nat
    var log: seq<Step>
    var running: bool

    constructor (plan: Plan)
      ensures this.plan == plan && Abs() == Beginning()
    {
      this.plan := plan;
      waiting, timeout, log, running := false, TIMEOUT, [], true;
    }

    function Abs(): Up
      reads this
    {
      Up(waiting, timeout, log, running)
    }

    /** `ti__delayed_start_cb` */
    method Tick(e: Morning)
      requires running
      modifies this
      ensures Abs() == UpTick(plan, old(Abs()), e)
    {
      if e.changes > 0 { return; }
      if e.changes < 0 {
        log, running := log + [Stopped], false;
        return;
      }
      if plan.node {
        if !waiting {
          log := log + [CollectGarbage, LoadModules];
          waiting := plan.wait;
        }
        if waiting && timeout != 0 && !e.modulesReady {
          timeout := timeout - 1;
          log := log + [Wait];
          return;
        }
      }
      var steps := Remaining(plan, e);
      ghost var before := log;
      running := false;
      for i := 0 to |steps|
        invariant before + Through(steps, e.fails) == log + Through(steps[i..], e.fails)
        invariant !running && waiting == UpTick(plan, old(Abs()), e).waiting && timeout == old(timeout)
      {
        ghost var rest := Through(steps[i + 1..], e.fails);
        assert steps[i..][1..] == steps[i + 1..];
        if Fails(e.fails, steps[i]) {
          log := log + [steps[i], Stopped];
          return;
        }
        assert log + ([steps[i]] + rest) == log + [steps[i]] + rest;
        log := log + [steps[i]];
      }
    }
  }
}
