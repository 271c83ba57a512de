/** The lifecycle every behavior shares: two flags, `isInitialized` and
    `isActive`, flipped by initialize, start, update, stop and shutdown.

    The subclass hooks (onInitialize, onStart, onUpdate, onStop,
    onShutdown) are opaque; whether a hook throws is a parameter. A method
    that propagates an exception to its caller returns `ok == false`. */
module Lifecycle {

  /** The four behavior kinds, in the order they are registered. */
  datatype Kind = Survival | ResourceGathering | Exploration | Building

  class BaseBehavior {
    const kind: Kind
    const priority: int
    var isActive: bool
    var isInitialized: bool
    var startTime: int
    var lastUpdate: int

    constructor (kind: Kind, priority: int)
      ensures this.kind == kind && this.priority == priority
      ensures !isActive && !isInitialized
    {
      this.kind := kind;
      this.priority := priority;
      isActive := false;
      isInitialized := false;
    }

    /** Idempotent; a throwing hook leaves the behavior uninitialized and
        the exception propagates. */
    method Initialize(hookFails: bool) returns (ok: bool)
      modifies this
      ensures old(isInitialized) ==> ok && unchanged(this)
      ensures !old(isInitialized) ==> ok == !hookFails && isInitialized == ok
      ensures isActive == old(isActive) && startTime == old(startTime) && lastUpdate == old(lastUpdate)
    {
      if isInitialized {
        return true;
      }
      if hookFails {
        return false;
      }
      isInitialized := true;
      ok := true;
    }

    /** Fails when not initialized, does nothing when already active, and
        otherwise activates; a throwing onStart reverts the activation. */
    method Start(now: int, hookFails: bool) returns (ok: bool)
      modifies this
      ensures !old(isInitialized) ==> !ok && unchanged(this)
      ensures old(isInitialized) && old(isActive) ==> ok && unchanged(this)
      ensures old(isInitialized) && !old(isActive) ==>
        && ok == !hookFails && isActive == ok
        && startTime == now && lastUpdate == now
      ensures isInitialized == old(isInitialized)
    {
      if !isInitialized {
        return false;
      }
      if isActive {
        return true;
      }
      isActive := true;
      startTime := now;
      lastUpdate := startTime;
      if hookFails {
        isActive := false;
        return false;
      }
      ok := true;
    }

    /** Runs onUpdate only when active and still executable. Exceptions of
        onUpdate are swallowed, so the flags never change here. */
    method Update(now: int, canExecute: bool) returns (ran: bool)
      modifies this
      ensures ran <==> old(isActive) && canExecute
      ensures isActive == old(isActive) && isInitialized == old(isInitialized)
      ensures startTime == old(startTime)
      ensures lastUpdate == if ran then now else old(lastUpdate)
    {
      if !isActive || !canExecute {
        return false;
      }
      lastUpdate := now;
      ran := true;
    }

    /** A no-op when inactive; otherwise the behavior is inactive afterwards,
        whether or not onStop throws (its exception is swallowed). */
    method Stop(hookFails: bool)
      modifies this
      ensures !isActive
      ensures !old(isActive) ==> unchanged(this)
      ensures isInitialized == old(isInitialized)
      ensures startTime == old(startTime) && lastUpdate == old(lastUpdate)
    {
      if !isActive {
        return;
      }
      isActive := false;
    }

    /** Stops first when active; clears `isInitialized` only when onShutdown
        does not throw. */
    method Shutdown(stopHookFails: bool, hookFails: bool)
      modifies this
      ensures !isActive
      ensures isInitialized == (old(isInitialized) && hookFails)
      ensures startTime == old(startTime) && lastUpdate == old(lastUpdate)
    {
      if isActive {
        Stop(stopHookFails);
      }
      if !hookFails {
        isInitialized := false;
      }
    }

    /** Milliseconds since the last start while active, otherwise 0. */
    function RunningTime(now: int): (t: int)
      reads this
      ensures !isActive ==> t == 0
      ensures isActive && now >= startTime ==> t >= 0
    {
      if isActive then now - startTime else 0
    }
  }
}
