/** Block and item kinds, block positions, and the world seen as a value.
    The game world is external: it is reduced to a block lookup, the
    engine's solidity test and the height bounds the agents consult. */
module Materials {

  datatype Option<T> = None | Some(value: T)

  /** The materials the agent logic names, plus any other material. */
  datatype Material =
    | Air | CaveAir | VoidAir
    | Water | Lava | Bedrock
    | Stone | Cobblestone | Dirt | Sand | Gravel | Obsidian
    | OakLog | BirchLog | OakPlanks | Stick
    | CraftingTable | Furnace | Chest | EnchantingTable
    | DiamondOre | IronOre | GoldOre | CoalOre
    | Diamond | RawIron | RawGold | Coal
    | TallGrass | Grass | Fern | LargeFern | DeadBush | Dandelion | Poppy | Snow
    | Brick | StoneBricks
    | Other(id: nat)

  /** The engine's notion of air: plain, cave and void air. */
  predicate IsAir(m: Material) {
    m == Air || m == CaveAir || m == VoidAir
  }

  /** A block coordinate. */
  datatype Pos = Pos(x: int, y: int, z: int) {
    function Add(dx: int, dy: int, dz: int): (p: Pos)
      ensures p.x - x == dx && p.y - y == dy && p.z - z == dz
    {
      Pos(x + dx, y + dy, z + dz)
    }
  }

  /** An entity position in continuous coordinates. The block it lies in is
      found by flooring each coordinate. */
  datatype Location = Location(x: real, y: real, z: real) {
    function Block(): (p: Pos)
      ensures p.x as real <= x < p.x as real + 1.0
      ensures p.y as real <= y < p.y as real + 1.0
      ensures p.z as real <= z < p.z as real + 1.0
    {
      Pos(x.Floor, y.Floor, z.Floor)
    }

    /** The square of the Euclidean distance; comparing it with the square
        of a bound decides a distance comparison without a square root. */
    function DistSq(o: Location): (d: real)
      ensures d >= 0.0
    {
      (x - o.x) * (x - o.x) + (y - o.y) * (y - o.y) + (z - o.z) * (z - o.z)
    }
  }

  /** A snapshot of one world: the block at every position, the engine's
      solidity table, the build height bounds and each column's top block
      as the engine reported it when the snapshot was taken. */
  datatype World = World(
    blocks: Pos -> Material,
    solid: Material -> bool,
    minHeight: int,
    maxHeight: int,
    highest: (int, int) -> int)
  {
    function At(x: int, y: int, z: int): Material {
      blocks(Pos(x, y, z))
    }

    /** The same world with the block at `p` replaced by `m`; the column
        tops stay as they were reported. */
    function SetBlock(p: Pos, m: Material): (w: World)
      ensures w.blocks(p) == m
      ensures forall q :: q != p ==> w.blocks(q) == blocks(q)
      ensures w.solid == solid && w.minHeight == minHeight && w.maxHeight == maxHeight
      ensures w.highest == highest
    {
      this.(blocks := q => if q == p then m else blocks(q))
    }
  }

  /** A subset is no larger than its superset, and one of the same size is
      the superset itself. */
  lemma {:induction false} SubsetCard<T>(a: set<T>, b: set<T>)
    requires a <= b
    ensures |a| <= |b|
    ensures |a| == |b| ==> a == b
  {
    if a != {} {
      var x :| x in a;
      SubsetCard(a - {x}, b - {x});
    } else if |b| == 0 {
      assert b == {};
    }
  }
}
