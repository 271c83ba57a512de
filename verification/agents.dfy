/** One agent: the search for a safe spawn point around its home and the
    lifecycle flags `isActive` and `state`.

    Spawning the entity, the status display, the behavior manager and the
    repeating main task are external; whether bringing them up throws is a
    parameter of the methods that do so. */
module Agents {
  import opened Materials

  /** A column offers a place to stand at `y`: solid ground with feet and
      head blocks that are air or not solid. */
  predicate Standable(w: World, x: int, y: int, z: int) {
    && w.solid(w.At(x, y, z))
    && (IsAir(w.At(x, y + 1, z)) || !w.solid(w.At(x, y + 1, z)))
    && (IsAir(w.At(x, y + 2, z)) || !w.solid(w.At(x, y + 2, z)))
  }

  /** Where the downward search in a column starts: five above the highest
      block, but below the top of the world. */
  function TopY(w: World, x: int, z: int): (t: int)
    ensures t <= w.maxHeight - 1 && t <= w.highest(x, z) + 5
    ensures t == w.maxHeight - 1 || t == w.highest(x, z) + 5
  {
    if w.highest(x, z) + 5 < w.maxHeight - 1 then w.highest(x, z) + 5 else w.maxHeight - 1
  }

  /** The highest standable `y` in `(minHeight, top]` of column `(x, z)`. */
  function HighestStandable(w: World, x: int, z: int, top: int): (r: Option<int>)
    decreases top - w.minHeight
    ensures r.Some? ==> w.minHeight < r.value <= top && Standable(w, x, r.value, z)
    ensures r.Some? ==> forall u :: r.value < u <= top ==> !Standable(w, x, u, z)
    ensures r.None? ==> forall u :: w.minHeight < u <= top ==> !Standable(w, x, u, z)
  {
    if top <= w.minHeight then None
    else if Standable(w, x, top, z) then Some(top)
    else HighestStandable(w, x, z, top - 1)
  }

  /** The spawn point a column offers: the centre of the block above its
      highest standable ground, when there is one. */
  function SpotAt(w: World, x: int, z: int): Option<Location> {
    match HighestStandable(w, x, z, TopY(w, x, z))
    case None => None
    case Some(y) => Some(Location(x as real + 0.5, (y + 1) as real, z as real + 0.5))
  }

  /** A column with a spawn point has a standable block just below that
      point, with nothing standable higher up within the searched range. */
  lemma SpotAtIsHighestStandable(w: World, x: int, z: int)
    requires SpotAt(w, x, z).Some?
    ensures var loc := SpotAt(w, x, z).value;
      exists y :: w.minHeight < y <= TopY(w, x, z) && Standable(w, x, y, z)
                  && loc == Location(x as real + 0.5, (y + 1) as real, z as real + 0.5)
                  && forall u :: y < u <= TopY(w, x, z) ==> !Standable(w, x, u, z)
  {
    var y := HighestStandable(w, x, z, TopY(w, x, z)).value;
    assert Standable(w, x, y, z);
  }

  /** The downward scan of one column for a spawn point. */
  method SafeLocationAt(w: World, x: int, z: int) returns (r: Option<Location>)
    ensures r == SpotAt(w, x, z)
  {
    var top := TopY(w, x, z);
    var y := top;
    while y > w.minHeight
      invariant y <= top
      invariant HighestStandable(w, x, z, top) == HighestStandable(w, x, z, y)
    {
      if Standable(w, x, y, z) {
        return Some(Location(x as real + 0.5, (y + 1) as real, z as real + 0.5));
      }
      y := y - 1;
    }
    return None;
  }

  function Abs(n: int): nat {
    if n < 0 then -n else n
  }

  /** The ring a column offset lies on: its Chebyshev distance from the base. */
  function Ring(dx: int, dz: int): nat {
    if Abs(dx) < Abs(dz) then Abs(dz) else Abs(dx)
  }

  /** The order in which the spawn search visits column offsets: by ring,
      then by x offset, then by z offset. */
  predicate VisitedBefore(dx: int, dz: int, ex: int, ez: int) {
    || Ring(dx, dz) < Ring(ex, ez)
    || (Ring(dx, dz) == Ring(ex, ez) && (dx < ex || (dx == ex && dz < ez)))
  }

  /** The ring condition of the search loops picks exactly the columns on
      ring `r` of the square of half-width `r`. */
  lemma OnRingIffRing(dx: int, dz: int, r: int)
    requires -r <= dx <= r && -r <= dz <= r
    ensures (Abs(dx) == r || Abs(dz) == r || r == 0) <==> Ring(dx, dz) == r
  {
  }

  /** The widest ring the spawn search tries. */
  const MaxSpawnRadius: int := 10

  /** Column `x` of ring `r`: the z offsets in increasing order, skipping
      those inside the ring. Returns the first column with a spawn point. */
  method SearchRingColumn(w: World, bx: int, bz: int, r: int, x: int) returns (hit: Option<(int, int)>)
    requires 0 <= r && -r <= x <= r
    ensures hit.Some? ==> var (cx, cz) := hit.value;
      && cx == bx + x && Ring(cx - bx, cz - bz) == r
      && SpotAt(w, cx, cz).Some?
      && forall ex, ez :: ex == cx && ez < cz && Ring(x, ez - bz) == r ==> SpotAt(w, ex, ez).None?
    ensures hit.None? ==>
      forall ex, ez :: ex == bx + x && Ring(x, ez - bz) == r ==> SpotAt(w, ex, ez).None?
  {
    var cx := bx + x;
    var z := -r;
    while z <= r
      invariant -r <= z <= r + 1
      invariant forall ex, ez :: ex == cx && ez < bz + z && Ring(x, ez - bz) == r ==> SpotAt(w, ex, ez).None?
    {
      OnRingIffRing(x, z, r);
      if Abs(x) == r || Abs(z) == r || r == 0 {
        var spot := SafeLocationAt(w, cx, bz + z);
        if spot.Some? {
          return Some((cx, bz + z));
        }
      }
      z := z + 1;
    }
    hit := None;
  }

  /** Ring `r`, column by column in increasing x offset. */
  method SearchRing(w: World, bx: int, bz: int, r: int) returns (hit: Option<(int, int)>)
    requires 0 <= r
    ensures hit.Some? ==> var (cx, cz) := hit.value;
      && Ring(cx - bx, cz - bz) == r
      && SpotAt(w, cx, cz).Some?
      && forall ex, ez :: Ring(ex - bx, ez - bz) == r && VisitedBefore(ex - bx, ez - bz, cx - bx, cz - bz)
                          ==> SpotAt(w, ex, ez).None?
    ensures hit.None? ==>
      forall ex, ez :: Ring(ex - bx, ez - bz) == r ==> SpotAt(w, ex, ez).None?
  {
    var x := -r;
    while x <= r
      invariant -r <= x <= r + 1
      invariant forall ex, ez :: bx - r <= ex < bx + x && Ring(ex - bx, ez - bz) == r ==> SpotAt(w, ex, ez).None?
    {
      hit := SearchRingColumn(w, bx, bz, r, x);
      if hit.Some? {
        return;
      }
      x := x + 1;
    }
    hit := None;
  }

  /** All rings from the base column outwards. */
  method SearchRings(w: World, bx: int, bz: int) returns (hit: Option<(int, int)>)
    ensures hit.Some? ==> var (cx, cz) := hit.value;
      && Ring(cx - bx, cz - bz) <= MaxSpawnRadius
      && SpotAt(w, cx, cz).Some?
      && forall ex, ez :: VisitedBefore(ex - bx, ez - bz, cx - bx, cz - bz) ==> SpotAt(w, ex, ez).None?
    ensures hit.None? ==>
      forall ex, ez :: Ring(ex - bx, ez - bz) <= MaxSpawnRadius ==> SpotAt(w, ex, ez).None?
  {
    var r := 0;
    while r <= MaxSpawnRadius
      invariant 0 <= r <= MaxSpawnRadius + 1
      invariant forall ex, ez :: Ring(ex - bx, ez - bz) < r ==> SpotAt(w, ex, ez).None?
    {
      hit := SearchRing(w, bx, bz, r);
      if hit.Some? {
        return;
      }
      r := r + 1;
    }
    hit := None;
  }

  /** The spawn point nearest to `original` in the search order, or a point
      high above the original column when no column within ten blocks
      offers one. */
  method FindSafeSpawnLocation(w: World, original: Location) returns (loc: Location)
    ensures var b := original.Block();
      (exists cx, cz :: Ring(cx - b.x, cz - b.z) <= MaxSpawnRadius && SpotAt(w, cx, cz).Some?) ==>
      exists cx, cz ::
        && Ring(cx - b.x, cz - b.z) <= MaxSpawnRadius
        && SpotAt(w, cx, cz) == Some(loc)
        && forall ex, ez :: VisitedBefore(ex - b.x, ez - b.z, cx - b.x, cz - b.z) ==> SpotAt(w, ex, ez).None?
    ensures var b := original.Block();
      (forall cx, cz :: Ring(cx - b.x, cz - b.z) <= MaxSpawnRadius ==> SpotAt(w, cx, cz).None?) ==>
      loc == Location(b.x as real, if original.y < 80.0 then 80.0 else original.y, b.z as real)
  {
    var b := original.Block();
    var hit := SearchRings(w, b.x, b.z);
    if hit.Some? {
      var (cx, cz) := hit.value;
      var spot := SafeLocationAt(w, cx, cz);
      loc := spot.value;
      assert Ring(cx - b.x, cz - b.z) <= MaxSpawnRadius && SpotAt(w, cx, cz) == Some(loc);
      return;
    }
    assert !exists cx, cz :: Ring(cx - b.x, cz - b.z) <= MaxSpawnRadius && SpotAt(w, cx, cz).Some?;
    loc := Location(b.x as real, if original.y < 80.0 then 80.0 else original.y, b.z as real);
  }

  datatype AgentState = Spawning | Active | Idle | Dead | Disabled

  /** An agent's lifecycle flags. The entity, the behavior manager, the
      status display and the main task it owns are external. */
  class MinecraftAgent {
    const name: string
    const home: Location
    var isActive: bool
    var state: AgentState

    /** An inactive agent is either fresh or disabled. */
    ghost predicate Valid()
      reads this
    {
      !isActive ==> state == Spawning || state == Disabled
    }

    constructor (name: string, home: Location)
      ensures this.name == name && this.home == home
      ensures !isActive && state == Spawning && Valid()
    {
      this.name := name;
      this.home := home;
      isActive := false;
      state := Spawning;
    }

    /** A no-op when already active. Otherwise spawns the entity and brings
        up the subsystems; when any of that throws the agent is disabled
        and stays inactive. */
    method Start(startFails: bool)
      requires Valid()
      modifies this
      ensures Valid()
      ensures old(isActive) ==> isActive && state == old(state)
      ensures !old(isActive) && !startFails ==> isActive && state == Active
      ensures !old(isActive) && startFails ==> !isActive && state == Disabled
    {
      if isActive {
        return;
      }
      if startFails {
        state := Disabled;
        return;
      }
      isActive := true;
      state := Active;
    }

    /** A no-op when inactive; otherwise the agent is inactive and disabled. */
    method Stop()
      requires Valid()
      modifies this
      ensures Valid()
      ensures !old(isActive) ==> isActive == old(isActive) && state == old(state)
      ensures old(isActive) ==> !isActive && state == Disabled
    {
      if !isActive {
        return;
      }
      isActive := false;
      state := Disabled;
    }

    /** Marks the agent dead and schedules one respawn, but only on the
        first call while not already dead. */
    method HandleDeath() returns (respawnScheduled: bool)
      requires Valid() && isActive
      modifies this
      ensures Valid() && isActive && state == Dead
      ensures respawnScheduled <==> old(state) != Dead
    {
      if state != Dead {
        state := Dead;
        return true;
      }
      return false;
    }

    /** One run of the main task, which exists only while the agent is
        active: a missing or dead entity is handled as a death. */
    method Tick(entityAlive: bool) returns (respawnScheduled: bool)
      requires Valid() && isActive
      modifies this
      ensures Valid() && isActive
      ensures entityAlive ==> !respawnScheduled && state == old(state)
      ensures !entityAlive ==> state == Dead && (respawnScheduled <==> old(state) != Dead)
    {
      if !entityAlive {
        respawnScheduled := HandleDeath();
      } else {
        respawnScheduled := false;
      }
    }

    /** The scheduled respawn: it happens only if the agent is still
        active; a failing spawn disables the agent, which stays active, so
        the next run of the main task treats it as dead again. */
    method RespawnTimerFired(spawnFails: bool)
      requires Valid()
      modifies this
      ensures Valid() && isActive == old(isActive)
      ensures !old(isActive) ==> state == old(state)
      ensures old(isActive) ==> state == (if spawnFails then Disabled else Active)
    {
      if isActive {
        if spawnFails {
          state := Disabled;
        } else {
          state := Active;
        }
      }
    }
  }
}
