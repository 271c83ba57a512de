/** Behavior arbitration for one agent.

    The manager keeps its behaviors in registration order and a current
    behavior. At most once per second it asks every behavior whether it can
    execute, picks the highest priority among those that can (the earliest
    registered on a tie) and switches to it by stopping the old one and then
    starting the new one. Between arbitrations it only updates the current
    behavior. Its invariant: exactly the current behavior is active. */
module Arbitration {
  import opened Materials
  import opened Lifecycle

  /** What one call of canExecute produced. */
  datatype Probe = Executable | NotExecutable | Throws

  /** The lifecycle calls the manager makes, in order (ghost bookkeeping). */
  datatype Event = Stopped(b: BaseBehavior) | StartCalled(b: BaseBehavior)

  /** Arbitration runs only when this many milliseconds have passed. */
  const CheckInterval: int := 1000

  /** Which behaviors are enabled and their priorities. */
  datatype Config = Config(
    survivalEnabled: bool, survivalPriority: int,
    resourceEnabled: bool, resourcePriority: int,
    explorationEnabled: bool, explorationPriority: int,
    buildingEnabled: bool, buildingPriority: int)

  /** The shipped defaults: everything enabled, priorities 100, 80, 60, 70. */
  const DefaultConfig: Config := Config(true, 100, true, 80, true, 60, true, 70)

  /** The (kind, priority) pairs registered, in registration order. */
  function Registrations(cfg: Config): seq<(Kind, int)> {
    (if cfg.survivalEnabled then [(Survival, cfg.survivalPriority)] else [])
    + (if cfg.resourceEnabled then [(ResourceGathering, cfg.resourcePriority)] else [])
    + (if cfg.explorationEnabled then [(Exploration, cfg.explorationPriority)] else [])
    + (if cfg.buildingEnabled then [(Building, cfg.buildingPriority)] else [])
  }

  /** The head of the executable behaviors after a stable sort by descending
      priority: the first registered among those of maximal priority. */
  function Winner(prios: seq<int>, exec: seq<bool>): (r: Option<nat>)
    requires |prios| == |exec|
    ensures r.None? <==> forall i :: 0 <= i < |exec| ==> !exec[i]
    ensures r.Some? ==>
      && r.value < |exec| && exec[r.value]
      && (forall i :: 0 <= i < |exec| && exec[i] ==> prios[i] <= prios[r.value])
      && (forall i :: 0 <= i < r.value && exec[i] ==> prios[i] < prios[r.value])
  {
    if |prios| == 0 then None
    else
      var rest := Winner(prios[1..], exec[1..]);
      if !exec[0] then
        (if rest.None? then None else Some(rest.value + 1))
      else if rest.None? || prios[rest.value + 1] <= prios[0] then Some(0)
      else Some(rest.value + 1)
  }

  /** The winner is unique: any executable index that beats or ties every
      executable one and beats every earlier one is the winner. */
  lemma WinnerUnique(prios: seq<int>, exec: seq<bool>, k: nat)
    requires |prios| == |exec| && k < |exec| && exec[k]
    requires forall i :: 0 <= i < |exec| && exec[i] ==> prios[i] <= prios[k]
    requires forall i :: 0 <= i < k && exec[i] ==> prios[i] < prios[k]
    ensures Winner(prios, exec) == Some(k)
  {
    var r := Winner(prios, exec);
    assert r.Some?;
    assert prios[r.value] <= prios[k] && prios[k] <= prios[r.value];
  }

  /** With the shipped defaults, an executable survival behavior is always
      chosen over the others. */
  lemma SurvivalWinsByDefault(exec: seq<bool>)
    requires |exec| == 4 && exec[0]
    ensures var regs := Registrations(DefaultConfig);
            Winner(seq(4, i requires 0 <= i < 4 => regs[i].1), exec) == Some(0)
  {
    var regs := Registrations(DefaultConfig);
    var prios := seq(4, i requires 0 <= i < 4 => regs[i].1);
    assert prios == [100, 80, 60, 70];
    WinnerUnique(prios, exec, 0);
  }

  function Priorities(bs: seq<BaseBehavior>): (ps: seq<int>)
    ensures |ps| == |bs| && forall i :: 0 <= i < |bs| ==> ps[i] == bs[i].priority
  {
    seq(|bs|, i requires 0 <= i < |bs| => bs[i].priority)
  }

  function Executables(bs: seq<BaseBehavior>, probe: BaseBehavior -> Probe): (ex: seq<bool>)
    ensures |ex| == |bs| && forall i :: 0 <= i < |bs| ==> (ex[i] <==> probe(bs[i]) == Executable)
  {
    seq(|bs|, i requires 0 <= i < |bs| => probe(bs[i]) == Executable)
  }

  /** A canExecute call that throws aborts the whole arbitration. */
  predicate AnyThrows(bs: seq<BaseBehavior>, probe: BaseBehavior -> Probe) {
    exists i :: 0 <= i < |bs| && probe(bs[i]) == Throws
  }

  /** The stop event for the old current behavior, when there was one. */
  function StopOf(b: BaseBehavior?): seq<Event> {
    if b == null then [] else [Stopped(b)]
  }

  class BehaviorManager {
    var behaviors: seq<BaseBehavior>
    var current: BaseBehavior?
    var lastCheck: int
    ghost var trace: seq<Event>

    /** The registered behaviors are distinct objects, the current one is
        registered, and a behavior is active exactly when it is current. */
    ghost predicate Valid()
      reads this, behaviors
    {
      && (current != null ==> current in behaviors)
      && (forall i, j :: 0 <= i < j < |behaviors| ==> behaviors[i] != behaviors[j])
      && (forall i :: 0 <= i < |behaviors| ==> (behaviors[i].isActive <==> behaviors[i] == current))
    }

    constructor (now: int)
      ensures Valid() && behaviors == [] && current == null && lastCheck == now && trace == []
    {
      behaviors := [];
      current := null;
      lastCheck := now;
      trace := [];
    }

    /** Registers the enabled behaviors in the fixed order survival, resource
        gathering, exploration, building, then initializes every registered
        behavior, logging and skipping those whose initialization throws. */
    method Initialize(cfg: Config, initFails: Kind -> bool)
      requires Valid()
      modifies this, behaviors
      ensures Valid()
      ensures |behaviors| == |old(behaviors)| + |Registrations(cfg)|
      ensures behaviors[..|old(behaviors)|] == old(behaviors)
      ensures forall i :: |old(behaviors)| <= i < |behaviors| ==>
        var reg := Registrations(cfg)[i - |old(behaviors)|];
        && fresh(behaviors[i])
        && behaviors[i].kind == reg.0 && behaviors[i].priority == reg.1
        && behaviors[i].isInitialized == !initFails(reg.0)
      ensures forall i :: 0 <= i < |old(behaviors)| ==>
        behaviors[i].isInitialized == (old(behaviors[i].isInitialized) || !initFails(behaviors[i].kind))
      ensures current == old(current) && lastCheck == old(lastCheck) && trace == old(trace)
    {
      Register(cfg);
      InitializeAll(initFails);
    }

    /** Appends one fresh, uninitialized behavior. */
    method Append(kind: Kind, priority: int)
      requires Valid()
      modifies this
      ensures Valid()
      ensures |behaviors| == |old(behaviors)| + 1 && behaviors[..|old(behaviors)|] == old(behaviors)
      ensures var b := behaviors[|old(behaviors)|];
        fresh(b) && !b.isActive && !b.isInitialized && b.kind == kind && b.priority == priority
      ensures current == old(current) && lastCheck == old(lastCheck) && trace == old(trace)
    {
      var b := new BaseBehavior(kind, priority);
      behaviors := behaviors + [b];
    }

    /** Appends one fresh, uninitialized behavior per enabled kind. */
    method Register(cfg: Config)
      requires Valid()
      modifies this
      ensures Valid()
      ensures |behaviors| == |old(behaviors)| + |Registrations(cfg)|
      ensures behaviors[..|old(behaviors)|] == old(behaviors)
      ensures forall i :: |old(behaviors)| <= i < |behaviors| ==>
        && fresh(behaviors[i]) && !behaviors[i].isActive && !behaviors[i].isInitialized
        && behaviors[i].kind == Registrations(cfg)[i - |old(behaviors)|].0
        && behaviors[i].priority == Registrations(cfg)[i - |old(behaviors)|].1
      ensures current == old(current) && lastCheck == old(lastCheck) && trace == old(trace)
    {
      var regs := Registrations(cfg);
      var k := 0;
      while k < |regs|
        invariant 0 <= k <= |regs|
        invariant |behaviors| == |old(behaviors)| + k
        invariant behaviors[..|old(behaviors)|] == old(behaviors)
        invariant forall i :: |old(behaviors)| <= i < |behaviors| ==>
          && fresh(behaviors[i]) && !behaviors[i].isActive && !behaviors[i].isInitialized
          && behaviors[i].kind == regs[i - |old(behaviors)|].0
          && behaviors[i].priority == regs[i - |old(behaviors)|].1
        invariant current == old(current) && lastCheck == old(lastCheck) && trace == old(trace)
        invariant Valid()
      {
        Append(regs[k].0, regs[k].1);
        k := k + 1;
      }
    }

    /** Initializes every registered behavior in order; a throwing
        initialization is logged and the loop goes on. */
    method InitializeAll(initFails: Kind -> bool)
      requires Valid()
      modifies behaviors
      ensures Valid()
      ensures forall i :: 0 <= i < |behaviors| ==>
        && behaviors[i].isInitialized == (old(behaviors[i].isInitialized) || !initFails(behaviors[i].kind))
        && behaviors[i].isActive == old(behaviors[i].isActive)
    {
      var i := 0;
      while i < |behaviors|
        invariant 0 <= i <= |behaviors|
        invariant forall j :: 0 <= j < |behaviors| ==> behaviors[j].isActive == old(behaviors[j].isActive)
        invariant forall j :: 0 <= j < |behaviors| ==>
          behaviors[j].isInitialized == if j < i then old(behaviors[j].isInitialized) || !initFails(behaviors[j].kind)
                                        else old(behaviors[j].isInitialized)
      {
        var _ := behaviors[i].Initialize(initFails(behaviors[i].kind));
        i := i + 1;
      }
    }

    /** Stops the current behavior, if any; `current` is cleared even when
        onStop throws. */
    method StopCurrentBehavior(stopFails: bool)
      requires Valid()
      modifies this, behaviors
      ensures Valid() && current == null
      ensures behaviors == old(behaviors) && lastCheck == old(lastCheck)
      ensures trace == old(trace) + StopOf(old(current))
      ensures forall b :: b in behaviors ==> !b.isActive && b.isInitialized == old(b.isInitialized)
    {
      if current != null {
        current.Stop(stopFails);
        trace := trace + [Stopped(current)];
        current := null;
      }
    }

    /** Stops the old behavior, then starts the new one; the new one becomes
        current only when its start succeeds. */
    method SwitchBehavior(b: BaseBehavior, now: int, startFails: bool)
      requires Valid() && b in behaviors
      modifies this, behaviors
      ensures Valid()
      ensures behaviors == old(behaviors) && lastCheck == old(lastCheck)
      ensures current == (if old(b.isInitialized) && !startFails then b else null)
      ensures trace == old(trace) + StopOf(old(current)) + [StartCalled(b)]
      ensures forall c :: c in behaviors ==> c.isInitialized == old(c.isInitialized)
    {
      StopCurrentBehavior(false);
      var ok := b.Start(now, startFails);
      trace := trace + [StartCalled(b)];
      if ok {
        current := b;
      } else {
        current := null;
      }
    }

    /** One scheduler tick at time `now`. `probe` gives each behavior's
        canExecute answer for the arbitration, `recheck` the answer of the
        second canExecute made inside the current behavior's update. */
    method Update(now: int, probe: BaseBehavior -> Probe, recheck: BaseBehavior -> bool, startFails: bool)
      requires Valid()
      modifies this, behaviors
      ensures Valid()
      ensures behaviors == old(behaviors)
      ensures forall c :: c in behaviors ==> c.isInitialized == old(c.isInitialized)
      // throttled: only the current behavior is updated
      ensures now - old(lastCheck) < CheckInterval ==>
        lastCheck == old(lastCheck) && current == old(current) && trace == old(trace)
      ensures now - old(lastCheck) >= CheckInterval ==> lastCheck == now
      // a throwing canExecute aborts this arbitration
      ensures now - old(lastCheck) >= CheckInterval && AnyThrows(old(behaviors), probe) ==>
        current == old(current) && trace == old(trace)
      // nothing executable: the current behavior is stopped
      ensures now - old(lastCheck) >= CheckInterval && !AnyThrows(old(behaviors), probe)
              && Winner(Priorities(old(behaviors)), Executables(old(behaviors), probe)).None? ==>
        current == null && trace == old(trace) + StopOf(old(current))
      // a winner: switch only when it differs from the current behavior
      ensures now - old(lastCheck) >= CheckInterval && !AnyThrows(old(behaviors), probe)
              && Winner(Priorities(old(behaviors)), Executables(old(behaviors), probe)).Some? ==>
        var w := old(behaviors)[Winner(Priorities(old(behaviors)), Executables(old(behaviors), probe)).value];
        if w == old(current) then current == old(current) && trace == old(trace)
        else
          && current == (if old(w.isInitialized) && !startFails then w else null)
          && trace == old(trace) + StopOf(old(current)) + [StartCalled(w)]
    {
      if now - lastCheck < CheckInterval {
        if current != null && current.isActive {
          var _ := current.Update(now, recheck(current));
        }
        return;
      }
      lastCheck := now;
      Arbitrate(now, probe, recheck, startFails);
    }

    /** The arbitration step of a tick: probe, select, switch if needed,
        update the current behavior. */
    method Arbitrate(now: int, probe: BaseBehavior -> Probe, recheck: BaseBehavior -> bool, startFails: bool)
      requires Valid()
      modifies this, behaviors
      ensures Valid()
      ensures behaviors == old(behaviors) && lastCheck == old(lastCheck)
      ensures forall c :: c in behaviors ==> c.isInitialized == old(c.isInitialized)
      ensures AnyThrows(old(behaviors), probe) ==> current == old(current) && trace == old(trace)
      ensures !AnyThrows(old(behaviors), probe)
              && Winner(Priorities(old(behaviors)), Executables(old(behaviors), probe)).None? ==>
        current == null && trace == old(trace) + StopOf(old(current))
      ensures !AnyThrows(old(behaviors), probe)
              && Winner(Priorities(old(behaviors)), Executables(old(behaviors), probe)).Some? ==>
        var w := old(behaviors)[Winner(Priorities(old(behaviors)), Executables(old(behaviors), probe)).value];
        if w == old(current) then current == old(current) && trace == old(trace)
        else
          && current == (if old(w.isInitialized) && !startFails then w else null)
          && trace == old(trace) + StopOf(old(current)) + [StartCalled(w)]
    {
      var i := 0;
      while i < |behaviors|
        invariant 0 <= i <= |behaviors|
        invariant forall j :: 0 <= j < i ==> probe(behaviors[j]) != Throws
      {
        if probe(behaviors[i]) == Throws {
          return;
        }
        i := i + 1;
      }

      var winner := Winner(Priorities(behaviors), Executables(behaviors, probe));
      if winner.None? {
        if current != null {
          StopCurrentBehavior(false);
        }
        return;
      }
      var selected := behaviors[winner.value];
      if current != selected {
        SwitchBehavior(selected, now, startFails);
      }
      if current != null && current.isActive {
        var _ := current.Update(now, recheck(current));
      }
    }

    /** Switches to the first registered behavior of the given kind,
        bypassing arbitration; nothing changes when there is none. */
    method ForceBehavior(kind: Kind, now: int, startFails: bool)
      requires Valid()
      modifies this, behaviors
      ensures Valid()
      ensures behaviors == old(behaviors) && lastCheck == old(lastCheck)
      ensures (forall i :: 0 <= i < |behaviors| ==> behaviors[i].kind != kind) ==>
        current == old(current) && trace == old(trace)
        && forall c :: c in behaviors ==> unchanged(c)
      ensures forall k :: 0 <= k < |behaviors| && behaviors[k].kind == kind
                          && (forall i :: 0 <= i < k ==> behaviors[i].kind != kind) ==>
        && current == (if old(behaviors[k].isInitialized) && !startFails then behaviors[k] else null)
        && trace == old(trace) + StopOf(old(current)) + [StartCalled(behaviors[k])]
    {
      var i := 0;
      while i < |behaviors|
        invariant 0 <= i <= |behaviors|
        invariant forall j :: 0 <= j < i ==> behaviors[j].kind != kind
      {
        if behaviors[i].kind == kind {
          SwitchBehavior(behaviors[i], now, startFails);
          return;
        }
        i := i + 1;
      }
    }

    /** Stops the current behavior, shuts every behavior down and forgets
        them all. */
    method Shutdown(shutdownFails: BaseBehavior -> bool)
      requires Valid()
      modifies this, behaviors
      ensures Valid()
      ensures current == null && behaviors == []
      ensures forall b :: b in old(behaviors) ==>
        !b.isActive && b.isInitialized == (old(b.isInitialized) && shutdownFails(b))
      ensures lastCheck == old(lastCheck) && trace == old(trace) + StopOf(old(current))
    {
      StopCurrentBehavior(false);
      var bs := behaviors;
      var i := 0;
      while i < |bs|
        invariant 0 <= i <= |bs|
        invariant bs == old(behaviors) && behaviors == bs && current == null
        invariant forall j, k :: 0 <= j < k < |bs| ==> bs[j] != bs[k]
        invariant forall j :: 0 <= j < |bs| ==> !bs[j].isActive
        invariant forall j :: 0 <= j < i ==> bs[j].isInitialized == (old(bs[j].isInitialized) && shutdownFails(bs[j]))
        invariant forall j :: i <= j < |bs| ==> bs[j].isInitialized == old(bs[j].isInitialized)
        invariant lastCheck == old(lastCheck) && trace == old(trace) + StopOf(old(current))
      {
        bs[i].Shutdown(false, shutdownFails(bs[i]));
        i := i + 1;
      }
      behaviors := [];
    }
  }
}
