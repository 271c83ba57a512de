/** The integer block scans of the movement helpers: which blocks can be
    walked through, which columns offer a place to stand, and the vertical
    search for a standing height. The vector arithmetic of walking is not
    part of this model. */
module Movement {
  import opened Materials

  /** Blocks an entity can walk through: air and a few plants, water and snow. */
  predicate IsPassable(m: Material) {
    || IsAir(m)
    || m == Water || m == TallGrass || m == Grass || m == Fern || m == LargeFern
    || m == DeadBush || m == Dandelion || m == Poppy || m == Snow
  }

  /** Solid, non-lava ground at `y` with room for feet and head above it. */
  predicate IsSafeSpot(w: World, x: int, y: int, z: int) {
    && w.solid(w.At(x, y, z))
    && w.At(x, y, z) != Lava
    && (IsAir(w.At(x, y + 1, z)) || IsPassable(w.At(x, y + 1, z)))
    && (IsAir(w.At(x, y + 2, z)) || IsPassable(w.At(x, y + 2, z)))
  }

  /** The feet block of a location and the block above it can be walked
      through; the ground below is not looked at. */
  predicate IsSafeToMoveTo(w: World, loc: Location) {
    HasRoom(w, loc.Block())
  }

  /** The block `p` and the block above it can be walked through. */
  predicate HasRoom(w: World, p: Pos) {
    && (IsAir(w.At(p.x, p.y, p.z)) || IsPassable(w.At(p.x, p.y, p.z)))
    && (IsAir(w.At(p.x, p.y + 1, p.z)) || IsPassable(w.At(p.x, p.y + 1, p.z)))
  }

  /** Room at a block depends on that block and the one above only. */
  lemma RoomReadsTwoBlocks(w1: World, w2: World, p: Pos)
    requires w1.At(p.x, p.y, p.z) == w2.At(p.x, p.y, p.z) && w1.At(p.x, p.y + 1, p.z) == w2.At(p.x, p.y + 1, p.z)
    ensures HasRoom(w1, p) <==> HasRoom(w2, p)
  {
  }

  /** Standing on a safe spot is safe to move to, while the converse fails:
      a location above lava or above a hole passes the move test. */
  lemma {:induction false} SafeSpotIsSafeToMoveTo(w: World, x: int, y: int, z: int, fx: real, fz: real)
    requires IsSafeSpot(w, x, y, z)
    requires 0.0 <= fx < 1.0 && 0.0 <= fz < 1.0
    ensures IsSafeToMoveTo(w, Location(x as real + fx, (y + 1) as real, z as real + fz))
  {
    var loc := Location(x as real + fx, (y + 1) as real, z as real + fz);
    var p := loc.Block();
    assert p.x == x && p.y == y + 1 && p.z == z;
  }

  /** The move test reads the feet and head blocks and nothing else: two
      worlds that agree on those two blocks agree on the test, whatever
      lies below, above or around. */
  lemma MoveTestReadsFeetAndHead(w1: World, w2: World, loc: Location)
    requires var p := loc.Block();
      w1.At(p.x, p.y, p.z) == w2.At(p.x, p.y, p.z) && w1.At(p.x, p.y + 1, p.z) == w2.At(p.x, p.y + 1, p.z)
    ensures IsSafeToMoveTo(w1, loc) <==> IsSafeToMoveTo(w2, loc)
  {
    RoomReadsTwoBlocks(w1, w2, loc.Block());
  }

  /** A world of air above a floor of lava at height -1 and below. */
  function LavaFloor(): World {
    World((p: Pos) => if p.y < 0 then Lava else Air, (m: Material) => m == Lava, -64, 320, (x: int, z: int) => -1)
  }

  /** An instance of the above: a location just above the lava floor
      passes the move test although the lava is no safe spot. */
  lemma MoveTestIgnoresGround()
    ensures IsSafeToMoveTo(LavaFloor(), Location(0.5, 0.0, 0.5))
    ensures !IsSafeSpot(LavaFloor(), 0, -1, 0)
  {
    assert Location(0.5, 0.0, 0.5).Block() == Pos(0, 0, 0);
  }

  /** The search for a standing height at a location: downward from the
      location's block to just above the bottom of the world, returning
      one above the first safe spot; failing that, upward from one above
      the location's block to below the top of the world; failing that,
      the location's own height. */
  method FindSafeY(w: World, loc: Location) returns (y: real)
    ensures var b := loc.Block();
      forall v :: w.minHeight < v <= b.y && IsSafeSpot(w, b.x, v, b.z)
                  && (forall u :: v < u <= b.y ==> !IsSafeSpot(w, b.x, u, b.z)) ==>
        y == v as real + 1.0
    ensures var b := loc.Block();
      (forall u :: w.minHeight < u <= b.y ==> !IsSafeSpot(w, b.x, u, b.z)) ==>
      forall v :: b.y < v < w.maxHeight - 1 && IsSafeSpot(w, b.x, v, b.z)
                  && (forall u :: b.y < u < v ==> !IsSafeSpot(w, b.x, u, b.z)) ==>
        y == v as real + 1.0
    ensures var b := loc.Block();
      (forall u :: w.minHeight < u <= b.y ==> !IsSafeSpot(w, b.x, u, b.z))
      && (forall u :: b.y < u < w.maxHeight - 1 ==> !IsSafeSpot(w, b.x, u, b.z)) ==>
        y == loc.y
  {
    var b := loc.Block();
    var v := b.y;
    while v > w.minHeight
      invariant v <= b.y
      invariant forall u :: v < u <= b.y ==> !IsSafeSpot(w, b.x, u, b.z)
    {
      if IsSafeSpot(w, b.x, v, b.z) {
        return v as real + 1.0;
      }
      v := v - 1;
    }
    assert forall u :: w.minHeight < u <= b.y ==> !IsSafeSpot(w, b.x, u, b.z);
    v := b.y + 1;
    while v < w.maxHeight - 1
      invariant b.y < v
      invariant forall u :: b.y < u < v ==> !IsSafeSpot(w, b.x, u, b.z)
    {
      if IsSafeSpot(w, b.x, v, b.z) {
        return v as real + 1.0;
      }
      v := v + 1;
    }
    return loc.y;
  }
}
