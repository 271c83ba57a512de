/** Block rules and the agents' virtual inventories.

    Each agent owns a material -> count map, kept in a store keyed by the
    agent id. The map operations are pure functions over one inventory; the
    store methods apply them in place. Mining and placing also change one
    block of the world, which is passed in and returned as a value. */
module Blocks {
  import opened Materials

  type Inventory = map<Material, int>

  /** The stored count, 0 when the material has no entry. */
  function Count(inv: Inventory, m: Material): int {
    if m in inv then inv[m] else 0
  }

  /** The store's invariant: no entry holds a zero or negative count. */
  ghost predicate Positive(inv: Inventory) {
    forall m :: m in inv ==> inv[m] > 0
  }

  // ----- add, check, remove -----------------------------------------------

  /** Merge `n` of `m` into the inventory by summing. */
  function Added(inv: Inventory, m: Material, n: int): (r: Inventory)
    ensures Count(r, m) == Count(inv, m) + n
    ensures forall k :: k != m ==> Count(r, k) == Count(inv, k)
    ensures r.Keys == inv.Keys + {m}
  {
    inv[m := Count(inv, m) + n]
  }

  /** True when at least `n` of `m` are held. */
  predicate Has(inv: Inventory, m: Material, n: int) {
    Count(inv, m) >= n
  }

  /** Check-then-remove: fails without change when fewer than `n` are held;
      otherwise subtracts `n` and drops an entry that reaches zero. */
  function Removed(inv: Inventory, m: Material, n: int): (r: (bool, Inventory))
    ensures r.0 <==> Count(inv, m) >= n
    ensures !r.0 ==> r.1 == inv
    ensures r.0 ==> Count(r.1, m) == Count(inv, m) - n
    ensures r.0 ==> forall k :: k != m ==> Count(r.1, k) == Count(inv, k)
    ensures r.0 && Count(inv, m) == n ==> m !in r.1
    ensures Positive(inv) ==> Positive(r.1)
  {
    var current := Count(inv, m);
    if current < n then (false, inv)
    else if current - n == 0 then (true, inv - {m})
    else (true, inv[m := current - n])
  }

  /** Removal succeeds exactly when the holding check passes. */
  lemma RemoveSucceedsIffHas(inv: Inventory, m: Material, n: int)
    ensures Removed(inv, m, n).0 <==> Has(inv, m, n)
  {
  }

  /** Adding `n` of a material and removing `n` again gives back the
      original inventory. */
  lemma {:induction false} AddThenRemove(inv: Inventory, m: Material, n: int)
    requires Positive(inv)
    ensures Removed(Added(inv, m, n), m, n) == (true, inv)
  {
    var r := Removed(Added(inv, m, n), m, n);
    assert r.0;
    if m in inv {
      var a := Added(inv, m, n);
      assert a == inv[m := inv[m] + n];
      assert r.1 == a[m := inv[m]];
      assert r.1 == inv;
    } else {
      assert r.1 == Added(inv, m, n) - {m};
      assert r.1.Keys == inv.Keys;
      assert forall k :: k in inv ==> r.1[k] == inv[k];
      assert r.1 == inv;
    }
  }

  /** Adding a positive amount keeps every stored count positive. */
  lemma AddKeepsPositive(inv: Inventory, m: Material, n: int)
    requires Positive(inv) && n > 0
    ensures Positive(Added(inv, m, n))
  {
  }

  // ----- crafting ----------------------------------------------------------

  /** One fixed recipe: `inputCount` of `input` yield `outputCount` of the target. */
  datatype Recipe = Recipe(input: Material, inputCount: nat, outputCount: nat)

  /** The four known recipes; any other target has none. */
  function RecipeFor(target: Material): (r: Option<Recipe>)
    ensures r.Some? ==> r.value.input != target && r.value.inputCount > 0 && r.value.outputCount > 0
  {
    match target
    case OakPlanks => Some(Recipe(OakLog, 1, 4))
    case Stick => Some(Recipe(OakPlanks, 2, 4))
    case CraftingTable => Some(Recipe(OakPlanks, 4, 1))
    case Furnace => Some(Recipe(Cobblestone, 8, 1))
    case _ => None
  }

  /** Crafting is all or nothing: the inputs are removed and the output
      added, or nothing changes. */
  function Crafted(inv: Inventory, target: Material): (r: (bool, Inventory))
    ensures !r.0 ==> r.1 == inv
    ensures r.0 <==> RecipeFor(target).Some? && Count(inv, RecipeFor(target).value.input) >= RecipeFor(target).value.inputCount
    ensures r.0 ==>
      var rc := RecipeFor(target).value;
      && Count(r.1, rc.input) == Count(inv, rc.input) - rc.inputCount
      && Count(r.1, target) == Count(inv, target) + rc.outputCount
      && forall k :: k != rc.input && k != target ==> Count(r.1, k) == Count(inv, k)
    ensures Positive(inv) ==> Positive(r.1)
  {
    match RecipeFor(target)
    case None => (false, inv)
    case Some(rc) =>
      var taken := Removed(inv, rc.input, rc.inputCount);
      if taken.0 then (true, Added(taken.1, target, rc.outputCount)) else (false, inv)
  }

  /** The targets whose inputs are present, in the order the recipes are checked. */
  function Craftable(inv: Inventory): seq<Material> {
    (if Count(inv, OakLog) >= 1 then [OakPlanks] else [])
    + (if Count(inv, OakPlanks) >= 2 then [Stick] else [])
    + (if Count(inv, Cobblestone) >= 8 then [Furnace] else [])
    + (if Count(inv, OakPlanks) >= 4 then [CraftingTable] else [])
  }

  /** A target is listed as craftable exactly when crafting it would succeed. */
  lemma CraftableIffCraftSucceeds(inv: Inventory, target: Material)
    ensures target in Craftable(inv) <==> Crafted(inv, target).0
  {
  }

  // ----- block tables -----------------------------------------------------------

  /** The item a mined block yields (always one of it). */
  function Drop(m: Material): (d: Material)
    ensures d != m ==> m in {DiamondOre, IronOre, GoldOre, CoalOre, Stone}
  {
    match m
    case DiamondOre => Diamond
    case IronOre => RawIron
    case GoldOre => RawGold
    case CoalOre => Coal
    case Stone => Cobblestone
    case _ => m
  }

  const DropAmount: int := 1

  /** Every drop drops itself: mining a placed drop gives the same item back. */
  lemma DropIsFixedPoint(m: Material)
    ensures Drop(Drop(m)) == Drop(m)
  {
  }

  /** Seconds needed to mine a block, by hardness class. */
  function MiningTime(m: Material): (t: real)
    ensures 0.5 <= t <= 10.0
    ensures t == 1.0 <==> m !in {Stone, Cobblestone, IronOre, GoldOre, DiamondOre, Obsidian, Dirt, Sand, Gravel, OakLog, BirchLog}
  {
    match m
    case Stone => 2.0
    case Cobblestone => 2.0
    case IronOre => 3.0
    case GoldOre => 3.0
    case DiamondOre => 4.0
    case Obsidian => 10.0
    case Dirt => 0.5
    case Sand => 0.5
    case Gravel => 0.5
    case OakLog => 1.5
    case BirchLog => 1.5
    case _ => 1.0
  }

  /** Air, bedrock, liquids and the furniture blocks may not be mined. */
  predicate CanMine(m: Material) {
    && !IsAir(m) && m != Bedrock && m != Water && m != Lava
    && m != Chest && m != Furnace && m != CraftingTable && m != EnchantingTable
  }

  /** A block can be placed into air, water or lava. */
  predicate CanPlace(w: World, p: Pos) {
    var m := w.blocks(p);
    IsAir(m) || m == Water || m == Lava
  }

  // ----- mining and placing ----------------------------------------------------

  /** Mining an allowed block adds its drop and turns the block to air;
      anything else fails and changes nothing. */
  function Mined(inv: Inventory, w: World, p: Pos): (r: (bool, Inventory, World))
    ensures r.0 <==> CanMine(w.blocks(p))
    ensures !r.0 ==> r.1 == inv && r.2 == w
    ensures r.0 ==> r.2.blocks(p) == Air && Count(r.1, Drop(w.blocks(p))) == Count(inv, Drop(w.blocks(p))) + DropAmount
    ensures r.0 ==> forall k :: k != Drop(w.blocks(p)) ==> Count(r.1, k) == Count(inv, k)
    ensures forall q :: q != p ==> r.2.blocks(q) == w.blocks(q)
  {
    var m := w.blocks(p);
    if !CanMine(m) then (false, inv, w)
    else (true, Added(inv, Drop(m), DropAmount), w.SetBlock(p, Air))
  }

  /** Placing needs a free target and one unit of the material; on success
      exactly one unit is consumed and the block takes the material. */
  function Placed(inv: Inventory, w: World, p: Pos, m: Material): (r: (bool, Inventory, World))
    ensures r.0 <==> CanPlace(w, p) && Count(inv, m) >= 1
    ensures !r.0 ==> r.1 == inv && r.2 == w
    ensures r.0 ==> r.2.blocks(p) == m && Count(r.1, m) == Count(inv, m) - 1
    ensures r.0 ==> forall k :: k != m ==> Count(r.1, k) == Count(inv, k)
    ensures forall q :: q != p ==> r.2.blocks(q) == w.blocks(q)
    ensures Positive(inv) ==> Positive(r.1)
  {
    if !CanPlace(w, p) then (false, inv, w)
    else
      var taken := Removed(inv, m, 1);
      if !taken.0 then (false, inv, w)
      else (true, taken.1, w.SetBlock(p, m))
  }

  /** Placing a minable block that drops itself and then mining it again
      gives the inventory back and leaves air behind. */
  lemma {:induction false} PlaceThenMine(inv: Inventory, w: World, p: Pos, m: Material)
    requires Positive(inv)
    requires Placed(inv, w, p, m).0
    requires CanMine(m) && Drop(m) == m
    ensures var placed := Placed(inv, w, p, m);
            var mined := Mined(placed.1, placed.2, p);
            mined.0 && mined.1 == inv && mined.2.blocks(p) == Air
  {
    var placed := Placed(inv, w, p, m);
    var taken := Removed(inv, m, 1);
    assert placed.1 == taken.1;
    var mined := Mined(placed.1, placed.2, p);
    assert mined.1 == Added(taken.1, m, 1);
    if m in inv && inv[m] > 1 {
      assert mined.1 == inv;
    } else {
      assert inv[m] == 1;
      assert mined.1.Keys == inv.Keys;
      assert mined.1 == inv;
    }
  }

  // ----- the store -----------------------------------------------------------

  /** All agents' inventories, keyed by agent id. An agent's entry is
      created on first use of add, remove or craft. */
  class InventoryStore {
    var inventories: map<string, Inventory>

    ghost predicate Valid()
      reads this
    {
      forall id :: id in inventories ==> Positive(inventories[id])
    }

    function Of(id: string): Inventory
      reads this
    {
      if id in inventories then inventories[id] else map[]
    }

    constructor ()
      ensures inventories == map[] && Valid()
    {
      inventories := map[];
    }

    method AddItem(id: string, m: Material, n: int) returns (ok: bool)
      modifies this
      ensures ok
      ensures inventories == old(inventories)[id := Added(old(Of(id)), m, n)]
      ensures old(Valid()) && n > 0 ==> Valid()
    {
      inventories := inventories[id := Added(Of(id), m, n)];
      ok := true;
    }

    method RemoveItem(id: string, m: Material, n: int) returns (ok: bool)
      modifies this
      ensures ok == Removed(old(Of(id)), m, n).0
      ensures inventories == old(inventories)[id := Removed(old(Of(id)), m, n).1]
      ensures old(Valid()) ==> Valid()
    {
      var r := Removed(Of(id), m, n);
      inventories := inventories[id := r.1];
      ok := r.0;
    }

    function HasBlock(id: string, m: Material, n: int): bool
      reads this
    {
      Has(Of(id), m, n)
    }

    /** The requested amount is not consulted: one batch is crafted. */
    method CraftItem(id: string, target: Material, amount: int) returns (ok: bool)
      modifies this
      ensures ok == Crafted(old(Of(id)), target).0
      ensures inventories == old(inventories)[id := Crafted(old(Of(id)), target).1]
      ensures old(Valid()) ==> Valid()
    {
      var r := Crafted(Of(id), target);
      inventories := inventories[id := r.1];
      ok := r.0;
    }

    function CraftableItems(id: string): seq<Material>
      reads this
    {
      Craftable(Of(id))
    }

    /** A refused block is rejected before the inventory is touched. */
    method MineBlock(id: string, w: World, p: Pos) returns (ok: bool, w': World)
      modifies this
      ensures var r := Mined(old(Of(id)), w, p); ok == r.0 && w' == r.2
      ensures ok ==> inventories == old(inventories)[id := Mined(old(Of(id)), w, p).1]
      ensures !ok ==> inventories == old(inventories)
      ensures old(Valid()) ==> Valid()
    {
      var r := Mined(Of(id), w, p);
      ok, w' := r.0, r.2;
      if ok {
        inventories := inventories[id := r.1];
      }
    }

    /** A block that is not free is rejected before the inventory is touched. */
    method PlaceBlock(id: string, w: World, p: Pos, m: Material) returns (ok: bool, w': World)
      modifies this
      ensures var r := Placed(old(Of(id)), w, p, m); ok == r.0 && w' == r.2
      ensures CanPlace(w, p) ==> inventories == old(inventories)[id := Placed(old(Of(id)), w, p, m).1]
      ensures !CanPlace(w, p) ==> inventories == old(inventories)
      ensures old(Valid()) ==> Valid()
    {
      var r := Placed(Of(id), w, p, m);
      ok, w' := r.0, r.2;
      if CanPlace(w, p) {
        inventories := inventories[id := r.1];
      }
    }

    method ClearInventory(id: string)
      modifies this
      ensures inventories == old(inventories) - {id}
      ensures old(Valid()) ==> Valid()
    {
      inventories := inventories - {id};
    }
  }

  // ----- scanning a cube ----------------------------------------------------------

  /** One copy of `p` for every entry of `mats` equal to the block at `p`. */
  function Hits(w: World, p: Pos, mats: seq<Material>): seq<Pos>
  {
    seq(multiset(mats)[w.blocks(p)], _ => p)
  }

  /** Scan results of one z-row, for z offsets in [-r, zEnd). */
  function Row(w: World, c: Pos, r: int, mats: seq<Material>, dx: int, dy: int, zEnd: int): seq<Pos>
    decreases zEnd + r
  {
    if zEnd <= -r then []
    else Row(w, c, r, mats, dx, dy, zEnd - 1) + Hits(w, c.Add(dx, dy, zEnd - 1), mats)
  }

  /** Scan results of one x-slice, for y offsets in [-r, yEnd). */
  function Slice(w: World, c: Pos, r: int, mats: seq<Material>, dx: int, yEnd: int): seq<Pos>
    decreases yEnd + r
  {
    if yEnd <= -r then []
    else Slice(w, c, r, mats, dx, yEnd - 1) + Row(w, c, r, mats, dx, yEnd - 1, r + 1)
  }

  /** Scan results for x offsets in [-r, xEnd). */
  function Cube(w: World, c: Pos, r: int, mats: seq<Material>, xEnd: int): seq<Pos>
    decreases xEnd + r
  {
    if xEnd <= -r then []
    else Cube(w, c, r, mats, xEnd - 1) + Slice(w, c, r, mats, xEnd - 1, r + 1)
  }

  /** The inner loop of the scan: one copy of `p` per matching material. */
  method MatchingCopies(w: World, p: Pos, mats: seq<Material>) returns (hits: seq<Pos>)
    ensures hits == Hits(w, p, mats)
  {
    hits := [];
    var i := 0;
    while i < |mats|
      invariant 0 <= i <= |mats|
      invariant hits == Hits(w, p, mats[..i])
    {
      assert mats[..i + 1] == mats[..i] + [mats[i]];
      if w.blocks(p) == mats[i] {
        hits := hits + [p];
      }
      i := i + 1;
    }
    assert mats[..|mats|] == mats;
  }

  /** The z loop of the scan for one (x, y) offset. */
  method ScanRow(w: World, c: Pos, radius: int, mats: seq<Material>, x: int, y: int) returns (found: seq<Pos>)
    requires radius >= 0
    ensures found == Row(w, c, radius, mats, x, y, radius + 1)
  {
    found := [];
    var z := -radius;
    while z <= radius
      invariant -radius <= z <= radius + 1
      invariant found == Row(w, c, radius, mats, x, y, z)
    {
      assert Row(w, c, radius, mats, x, y, z + 1) == found + Hits(w, c.Add(x, y, z), mats);
      var hits := MatchingCopies(w, c.Add(x, y, z), mats);
      found := found + hits;
      z := z + 1;
    }
  }

  /** The y loop of the scan for one x offset. */
  method ScanSlice(w: World, c: Pos, radius: int, mats: seq<Material>, x: int) returns (found: seq<Pos>)
    requires radius >= 0
    ensures found == Slice(w, c, radius, mats, x, radius + 1)
  {
    found := [];
    var y := -radius;
    while y <= radius
      invariant -radius <= y <= radius + 1
      invariant found == Slice(w, c, radius, mats, x, y)
    {
      assert Slice(w, c, radius, mats, x, y + 1) == found + Row(w, c, radius, mats, x, y, radius + 1);
      var row := ScanRow(w, c, radius, mats, x, y);
      found := found + row;
      y := y + 1;
    }
  }

  /** The scan visits x, then y, then z offsets from -radius to radius and
      reports a block once per requested material it matches. */
  method FindNearbyBlocks(w: World, c: Pos, radius: int, mats: seq<Material>) returns (found: seq<Pos>)
    ensures found == Cube(w, c, radius, mats, radius + 1)
  {
    found := [];
    if radius < 0 {
      return;
    }
    var x := -radius;
    while x <= radius
      invariant -radius <= x <= radius + 1
      invariant found == Cube(w, c, radius, mats, x)
    {
      assert Cube(w, c, radius, mats, x + 1) == found + Slice(w, c, radius, mats, x, radius + 1);
      var slice := ScanSlice(w, c, radius, mats, x);
      found := found + slice;
      x := x + 1;
    }
  }

  /** Inside the scanned cube, with a requested material. */
  ghost predicate Wanted(w: World, c: Pos, r: int, mats: seq<Material>, q: Pos) {
    && -r <= q.x - c.x <= r && -r <= q.y - c.y <= r && -r <= q.z - c.z <= r
    && w.blocks(q) in mats
  }

  lemma HitsMember(w: World, p: Pos, mats: seq<Material>, q: Pos)
    ensures q in Hits(w, p, mats) <==> q == p && w.blocks(p) in mats
  {
    if w.blocks(p) in mats {
      assert w.blocks(p) in multiset(mats);
      assert Hits(w, p, mats)[0] == p;
    }
  }

  lemma {:induction false} RowMember(w: World, c: Pos, r: int, mats: seq<Material>, dx: int, dy: int, zEnd: int, q: Pos)
    ensures q in Row(w, c, r, mats, dx, dy, zEnd) <==>
      q.x - c.x == dx && q.y - c.y == dy && -r <= q.z - c.z < zEnd && w.blocks(q) in mats
    decreases zEnd + r
  {
    if zEnd > -r {
      var rest := Row(w, c, r, mats, dx, dy, zEnd - 1);
      var last := Hits(w, c.Add(dx, dy, zEnd - 1), mats);
      RowMember(w, c, r, mats, dx, dy, zEnd - 1, q);
      HitsMember(w, c.Add(dx, dy, zEnd - 1), mats, q);
      assert q in rest + last <==> q in rest || q in last;
    }
  }

  lemma {:induction false} SliceMember(w: World, c: Pos, r: int, mats: seq<Material>, dx: int, yEnd: int, q: Pos)
    ensures q in Slice(w, c, r, mats, dx, yEnd) <==>
      q.x - c.x == dx && -r <= q.y - c.y < yEnd && -r <= q.z - c.z <= r && w.blocks(q) in mats
    decreases yEnd + r
  {
    if yEnd > -r {
      var rest := Slice(w, c, r, mats, dx, yEnd - 1);
      var last := Row(w, c, r, mats, dx, yEnd - 1, r + 1);
      assert Slice(w, c, r, mats, dx, yEnd) == rest + last;
      SliceMember(w, c, r, mats, dx, yEnd - 1, q);
      RowMember(w, c, r, mats, dx, yEnd - 1, r + 1, q);
      assert q in rest + last <==> q in rest || q in last;
    }
  }

  lemma {:induction false} CubeMember(w: World, c: Pos, r: int, mats: seq<Material>, xEnd: int, q: Pos)
    ensures q in Cube(w, c, r, mats, xEnd) <==>
      -r <= q.x - c.x < xEnd && -r <= q.y - c.y <= r && -r <= q.z - c.z <= r && w.blocks(q) in mats
    decreases xEnd + r
  {
    if xEnd > -r {
      var rest := Cube(w, c, r, mats, xEnd - 1);
      var last := Slice(w, c, r, mats, xEnd - 1, r + 1);
      assert Cube(w, c, r, mats, xEnd) == rest + last;
      CubeMember(w, c, r, mats, xEnd - 1, q);
      SliceMember(w, c, r, mats, xEnd - 1, r + 1, q);
      assert q in rest + last <==> q in rest || q in last;
    }
  }

  /** A position is reported exactly when it lies within `radius` of the
      centre on every axis and holds one of the requested materials. */
  lemma NearbyBlocksExact(w: World, c: Pos, radius: int, mats: seq<Material>, q: Pos)
    ensures q in Cube(w, c, radius, mats, radius + 1) <==> Wanted(w, c, radius, mats, q)
  {
    CubeMember(w, c, radius, mats, radius + 1, q);
  }
}
