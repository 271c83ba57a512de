/** The building behavior: four block plans given as integer offsets from a
    base location, a project that places its plan block by block, material
    selection, and the once-per-second update that plans, gathers or
    builds.

    Plans are stored as offsets rather than absolute locations. Two planned
    locations `base + o1` and `base + o2` are equal exactly when `o1 == o2`,
    and flooring `base + o` gives `floor(base) + o` for integer offsets, so
    nothing the project decides depends on the difference. */
module Building {
  import opened Materials
  import opened Blocks

  /** Lexicographic order on integer triples. */
  predicate Lex(a: (int, int, int), b: (int, int, int)) {
    a.0 < b.0 || (a.0 == b.0 && (a.1 < b.1 || (a.1 == b.1 && a.2 < b.2)))
  }

  // ---------------------------------------------------------------------
  // Simple house: loops x, z, y over 5 x 5 x 3; the outer shell without the
  // door cell (2, 1, 0).

  predicate InHouse(p: Pos) {
    && 0 <= p.x < 5 && 0 <= p.z < 5 && 0 <= p.y < 3
    && (p.x == 0 || p.x == 4 || p.z == 0 || p.z == 4 || p.y == 0 || p.y == 2)
    && !(p.x == 2 && p.z == 0 && p.y == 1)
  }

  /** The order the house loops visit cells in. */
  function HouseKey(p: Pos): (int, int, int) {
    (p.x, p.z, p.y)
  }

  /** The house cells with x offset below `x`, with x offset `x` and z
      offset below `z`, and with offsets `x`, `z` and y offset below `y`. */
  function HouseCount(x: int, z: int, y: int): int {
    var below := if x <= 0 then 0 else if x == 1 then 15 else if x == 2 then 27 else if x == 3 then 38 else if x == 4 then 50 else 65;
    var shell := x == 0 || x == 4;
    var rowBefore := if shell then 3 * z
                     else if z <= 0 then 0 else 3 + 2 * (if z <= 4 then z - 1 else 3) + (if z == 5 then 3 else 0) - (if x == 2 then 1 else 0);
    var column := if !(shell || z == 0 || z == 4) then (if y >= 1 then 1 else 0) + (if y >= 3 then 1 else 0)
                  else if x == 2 && z == 0 then (if y >= 1 then 1 else 0) + (if y >= 3 then 1 else 0)
                  else y;
    below + rowBefore + column
  }

  method HouseColumn(plan: seq<Pos>, x: int, z: int) returns (plan': seq<Pos>)
    requires 0 <= x < 5 && 0 <= z < 5
    requires forall p :: p in plan <==> InHouse(p) && Lex(HouseKey(p), (x, z, 0))
    requires forall i, j :: 0 <= i < j < |plan| ==> Lex(HouseKey(plan[i]), HouseKey(plan[j]))
    requires |plan| == HouseCount(x, z, 0)
    ensures forall p :: p in plan' <==> InHouse(p) && Lex(HouseKey(p), (x, z, 3))
    ensures forall i, j :: 0 <= i < j < |plan'| ==> Lex(HouseKey(plan'[i]), HouseKey(plan'[j]))
    ensures |plan'| == HouseCount(x, z, 3)
  {
    plan' := plan;
    var y := 0;
    while y < 3
      invariant 0 <= y <= 3
      invariant forall p :: p in plan' <==> InHouse(p) && Lex(HouseKey(p), (x, z, y))
      invariant forall i, j :: 0 <= i < j < |plan'| ==> Lex(HouseKey(plan'[i]), HouseKey(plan'[j]))
      invariant |plan'| == HouseCount(x, z, y)
    {
      if x == 0 || x == 4 || z == 0 || z == 4 || y == 0 || y == 2 {
        if !(x == 2 && z == 0 && y == 1) {
          plan' := plan' + [Pos(x, y, z)];
        }
      }
      y := y + 1;
    }
  }

  method HouseRow(plan: seq<Pos>, x: int) returns (plan': seq<Pos>)
    requires 0 <= x < 5
    requires forall p :: p in plan <==> InHouse(p) && Lex(HouseKey(p), (x, 0, 0))
    requires forall i, j :: 0 <= i < j < |plan| ==> Lex(HouseKey(plan[i]), HouseKey(plan[j]))
    requires |plan| == HouseCount(x, 0, 0)
    ensures forall p :: p in plan' <==> InHouse(p) && Lex(HouseKey(p), (x + 1, 0, 0))
    ensures forall i, j :: 0 <= i < j < |plan'| ==> Lex(HouseKey(plan'[i]), HouseKey(plan'[j]))
    ensures |plan'| == HouseCount(x + 1, 0, 0)
  {
    plan' := plan;
    var z := 0;
    while z < 5
      invariant 0 <= z <= 5
      invariant forall p :: p in plan' <==> InHouse(p) && Lex(HouseKey(p), (x, z, 0))
      invariant forall i, j :: 0 <= i < j < |plan'| ==> Lex(HouseKey(plan'[i]), HouseKey(plan'[j]))
      invariant |plan'| == HouseCount(x, z, 0)
    {
      plan' := HouseColumn(plan', x, z);
      z := z + 1;
    }
  }

  /** The simple house plan: exactly the 65 house cells, each once, in the
      order the generator's loops visit them. */
  method SimpleHousePlan() returns (plan: seq<Pos>)
    ensures forall p :: p in plan <==> InHouse(p)
    ensures forall i, j :: 0 <= i < j < |plan| ==> Lex(HouseKey(plan[i]), HouseKey(plan[j]))
    ensures |plan| == 65
  {
    plan := [];
    var x := 0;
    while x < 5
      invariant 0 <= x <= 5
      invariant forall p :: p in plan <==> InHouse(p) && Lex(HouseKey(p), (x, 0, 0))
      invariant forall i, j :: 0 <= i < j < |plan| ==> Lex(HouseKey(plan[i]), HouseKey(plan[j]))
      invariant |plan| == HouseCount(x, 0, 0)
    {
      plan := HouseRow(plan, x);
      x := x + 1;
    }
  }

  // ---------------------------------------------------------------------
  // Tower: loops y, x, z over 8 x 3 x 3; the perimeter of each 3 x 3 layer.

  predicate InTower(p: Pos) {
    && 0 <= p.y < 8 && 0 <= p.x < 3 && 0 <= p.z < 3
    && (p.x == 0 || p.x == 2 || p.z == 0 || p.z == 2)
  }

  function TowerKey(p: Pos): (int, int, int) {
    (p.y, p.x, p.z)
  }

  function TowerCount(y: int, x: int, z: int): int {
    var below := 8 * y;
    var layerBefore := if x <= 0 then 0 else if x == 1 then 3 else if x == 2 then 5 else 8;
    var column := if x != 1 then z else (if z >= 1 then 1 else 0) + (if z >= 3 then 1 else 0);
    below + layerBefore + column
  }

  method TowerColumn(plan: seq<Pos>, y: int, x: int) returns (plan': seq<Pos>)
    requires 0 <= y < 8 && 0 <= x < 3
    requires forall p :: p in plan <==> InTower(p) && Lex(TowerKey(p), (y, x, 0))
    requires forall i, j :: 0 <= i < j < |plan| ==> Lex(TowerKey(plan[i]), TowerKey(plan[j]))
    requires |plan| == TowerCount(y, x, 0)
    ensures forall p :: p in plan' <==> InTower(p) && Lex(TowerKey(p), (y, x, 3))
    ensures forall i, j :: 0 <= i < j < |plan'| ==> Lex(TowerKey(plan'[i]), TowerKey(plan'[j]))
    ensures |plan'| == TowerCount(y, x, 3)
  {
    plan' := plan;
    var z := 0;
    while z < 3
      invariant 0 <= z <= 3
      invariant forall p :: p in plan' <==> InTower(p) && Lex(TowerKey(p), (y, x, z))
      invariant forall i, j :: 0 <= i < j < |plan'| ==> Lex(TowerKey(plan'[i]), TowerKey(plan'[j]))
      invariant |plan'| == TowerCount(y, x, z)
    {
      if x == 0 || x == 2 || z == 0 || z == 2 {
        plan' := plan' + [Pos(x, y, z)];
      }
      z := z + 1;
    }
  }

  method TowerLayer(plan: seq<Pos>, y: int) returns (plan': seq<Pos>)
    requires 0 <= y < 8
    requires forall p :: p in plan <==> InTower(p) && Lex(TowerKey(p), (y, 0, 0))
    requires forall i, j :: 0 <= i < j < |plan| ==> Lex(TowerKey(plan[i]), TowerKey(plan[j]))
    requires |plan| == TowerCount(y, 0, 0)
    ensures forall p :: p in plan' <==> InTower(p) && Lex(TowerKey(p), (y + 1, 0, 0))
    ensures forall i, j :: 0 <= i < j < |plan'| ==> Lex(TowerKey(plan'[i]), TowerKey(plan'[j]))
    ensures |plan'| == TowerCount(y + 1, 0, 0)
  {
    plan' := plan;
    var x := 0;
    while x < 3
      invariant 0 <= x <= 3
      invariant forall p :: p in plan' <==> InTower(p) && Lex(TowerKey(p), (y, x, 0))
      invariant forall i, j :: 0 <= i < j < |plan'| ==> Lex(TowerKey(plan'[i]), TowerKey(plan'[j]))
      invariant |plan'| == TowerCount(y, x, 0)
    {
      plan' := TowerColumn(plan', y, x);
      x := x + 1;
    }
  }

  /** The tower plan: exactly the 64 perimeter cells of eight 3 x 3
      layers, each once, layer by layer. */
  method TowerPlan() returns (plan: seq<Pos>)
    ensures forall p :: p in plan <==> InTower(p)
    ensures forall i, j :: 0 <= i < j < |plan| ==> Lex(TowerKey(plan[i]), TowerKey(plan[j]))
    ensures |plan| == 64
  {
    plan := [];
    var y := 0;
    while y < 8
      invariant 0 <= y <= 8
      invariant forall p :: p in plan <==> InTower(p) && Lex(TowerKey(p), (y, 0, 0))
      invariant forall i, j :: 0 <= i < j < |plan| ==> Lex(TowerKey(plan[i]), TowerKey(plan[j]))
      invariant |plan| == TowerCount(y, 0, 0)
    {
      plan := TowerLayer(plan, y);
      y := y + 1;
    }
  }

  // ---------------------------------------------------------------------
  // Bridge: ten deck pairs at z = 0 and z = 2, with railings at z = -1 and
  // z = 3 one block up on every even x.

  predicate InBridge(p: Pos) {
    && 0 <= p.x < 10
    && ((p.y == 0 && (p.z == 0 || p.z == 2)) || (p.y == 1 && p.x % 2 == 0 && (p.z == -1 || p.z == 3)))
  }

  function BridgeKey(p: Pos): (int, int, int) {
    (p.x, p.y, p.z)
  }

  /** The bridge cells with x offset below `x`. */
  function BridgeCount(x: int): int {
    3 * x + x % 2
  }

  /** The cells one x step of the bridge loop adds: the deck pair, and the
      railings on even x. */
  function BridgeCells(x: int): seq<Pos> {
    if x % 2 == 0 then [Pos(x, 0, 0), Pos(x, 0, 2), Pos(x, 1, -1), Pos(x, 1, 3)]
    else [Pos(x, 0, 0), Pos(x, 0, 2)]
  }

  lemma BridgeCellsCount(x: int)
    ensures |BridgeCells(x)| == BridgeCount(x + 1) - BridgeCount(x)
  {
    if x % 2 == 0 {
      assert (x + 1) % 2 == 1;
    } else {
      assert (x + 1) % 2 == 0;
    }
  }

  lemma BridgeCellsExact(x: int)
    requires 0 <= x < 10
    ensures forall p :: p in BridgeCells(x) <==> InBridge(p) && p.x == x
    ensures forall i, j :: 0 <= i < j < |BridgeCells(x)| ==> Lex(BridgeKey(BridgeCells(x)[i]), BridgeKey(BridgeCells(x)[j]))
  {
    forall p | InBridge(p) && p.x == x
      ensures p in BridgeCells(x)
    {
      if p.y == 0 {
        assert p == BridgeCells(x)[0] || p == BridgeCells(x)[1];
      } else {
        assert p == BridgeCells(x)[2] || p == BridgeCells(x)[3];
      }
    }
  }

  method BridgeSection(plan: seq<Pos>, x: int) returns (plan': seq<Pos>)
    requires 0 <= x < 10
    requires forall p :: p in plan <==> InBridge(p) && p.x < x
    requires forall i, j :: 0 <= i < j < |plan| ==> Lex(BridgeKey(plan[i]), BridgeKey(plan[j]))
    requires |plan| == BridgeCount(x)
    ensures forall p :: p in plan' <==> InBridge(p) && p.x < x + 1
    ensures forall i, j :: 0 <= i < j < |plan'| ==> Lex(BridgeKey(plan'[i]), BridgeKey(plan'[j]))
    ensures |plan'| == BridgeCount(x + 1)
  {
    var section := BridgeCells(x);
    BridgeCellsExact(x);
    BridgeCellsCount(x);
    plan' := plan + section;
    assert forall i :: 0 <= i < |plan| ==> plan'[i] == plan[i] && plan[i].x < x;
    assert forall j :: |plan| <= j < |plan'| ==> plan'[j] == section[j - |plan|] && plan'[j].x == x;
  }

  /** The bridge plan: exactly its 30 cells, each once, x by x. */
  method BridgePlan() returns (plan: seq<Pos>)
    ensures forall p :: p in plan <==> InBridge(p)
    ensures forall i, j :: 0 <= i < j < |plan| ==> Lex(BridgeKey(plan[i]), BridgeKey(plan[j]))
    ensures |plan| == 30
  {
    plan := [];
    var x := 0;
    while x < 10
      invariant 0 <= x <= 10
      invariant forall p :: p in plan <==> InBridge(p) && p.x < x
      invariant forall i, j :: 0 <= i < j < |plan| ==> Lex(BridgeKey(plan[i]), BridgeKey(plan[j]))
      invariant |plan| == BridgeCount(x)
    {
      plan := BridgeSection(plan, x);
      x := x + 1;
    }
  }

  // ---------------------------------------------------------------------
  // Wall: 15 columns of 4 blocks at z = 0.

  predicate InWall(p: Pos) {
    0 <= p.x < 15 && 0 <= p.y < 4 && p.z == 0
  }

  function WallKey(p: Pos): (int, int, int) {
    (p.x, p.y, p.z)
  }

  method WallColumn(plan: seq<Pos>, x: int) returns (plan': seq<Pos>)
    requires 0 <= x < 15
    requires forall p :: p in plan <==> InWall(p) && p.x < x
    requires forall i, j :: 0 <= i < j < |plan| ==> Lex(WallKey(plan[i]), WallKey(plan[j]))
    requires |plan| == 4 * x
    ensures forall p :: p in plan' <==> InWall(p) && p.x < x + 1
    ensures forall i, j :: 0 <= i < j < |plan'| ==> Lex(WallKey(plan'[i]), WallKey(plan'[j]))
    ensures |plan'| == 4 * (x + 1)
  {
    plan' := plan;
    var y := 0;
    while y < 4
      invariant 0 <= y <= 4
      invariant forall p :: p in plan' <==> InWall(p) && Lex(WallKey(p), (x, y, 0))
      invariant forall i, j :: 0 <= i < j < |plan'| ==> Lex(WallKey(plan'[i]), WallKey(plan'[j]))
      invariant |plan'| == 4 * x + y
    {
      plan' := plan' + [Pos(x, y, 0)];
      y := y + 1;
    }
  }

  /** The wall plan: exactly its 60 cells, each once, column by column. */
  method WallPlan() returns (plan: seq<Pos>)
    ensures forall p :: p in plan <==> InWall(p)
    ensures forall i, j :: 0 <= i < j < |plan| ==> Lex(WallKey(plan[i]), WallKey(plan[j]))
    ensures |plan| == 60
  {
    plan := [];
    var x := 0;
    while x < 15
      invariant 0 <= x <= 15
      invariant forall p :: p in plan <==> InWall(p) && p.x < x
      invariant forall i, j :: 0 <= i < j < |plan| ==> Lex(WallKey(plan[i]), WallKey(plan[j]))
      invariant |plan| == 4 * x
    {
      plan := WallColumn(plan, x);
      x := x + 1;
    }
  }

  // ---------------------------------------------------------------------
  // Projects

  datatype BuildingType = SimpleHouse | Tower | Bridge | Wall

  /** The cells of a plan, as offsets from its base. */
  predicate InPlan(kind: BuildingType, p: Pos) {
    match kind
    case SimpleHouse => InHouse(p)
    case Tower => InTower(p)
    case Bridge => InBridge(p)
    case Wall => InWall(p)
  }

  /** The order each plan's loops visit its cells in. */
  function PlanKey(kind: BuildingType, p: Pos): (int, int, int) {
    match kind
    case SimpleHouse => HouseKey(p)
    case Tower => TowerKey(p)
    case Bridge => BridgeKey(p)
    case Wall => WallKey(p)
  }

  /** The number of blocks each plan places. */
  function PlanSize(kind: BuildingType): nat {
    match kind
    case SimpleHouse => 65
    case Tower => 64
    case Bridge => 30
    case Wall => 60
  }

  /** No element occurs twice. */
  predicate Distinct(s: seq<Pos>) {
    forall i, j :: 0 <= i < j < |s| ==> s[i] != s[j]
  }

  /** The first planned offset that has not been placed yet. */
  function FirstUnplaced(planned: seq<Pos>, placed: seq<Pos>): (r: Option<Pos>)
    ensures r.None? <==> forall p :: p in planned ==> p in placed
    ensures r.Some? ==> r.value !in placed && exists i :: 0 <= i < |planned| && planned[i] == r.value
                                                 && forall j :: 0 <= j < i ==> planned[j] in placed
  {
    if |planned| == 0 then None
    else if planned[0] !in placed then Some(planned[0])
    else
      var r := FirstUnplaced(planned[1..], placed);
      assert forall p :: p in planned ==> p == planned[0] || p in planned[1..];
      if r.Some? then
        var i :| 0 <= i < |planned[1..]| && planned[1..][i] == r.value
                 && forall j :: 0 <= j < i ==> planned[1..][j] in placed;
        assert planned[i + 1] == r.value;
        assert forall j :: 1 <= j < i + 1 ==> planned[j] == planned[1..][j - 1];
        r
      else r
  }

  /** Placing the first unplaced block of a distinct plan keeps the placed
      blocks distinct and within the plan. */
  lemma PlacingNextKeepsDistinct(planned: seq<Pos>, placed: seq<Pos>)
    requires Distinct(placed) && (forall p :: p in placed ==> p in planned)
    requires FirstUnplaced(planned, placed).Some?
    ensures var next := FirstUnplaced(planned, placed).value;
      Distinct(placed + [next]) && forall p :: p in placed + [next] ==> p in planned
  {
  }

  lemma {:induction false} DistinctCard(s: seq<Pos>)
    requires Distinct(s)
    ensures |set p | p in s| == |s|
  {
    if |s| > 0 {
      var last := s[|s| - 1];
      var init := s[..|s| - 1];
      assert Distinct(init);
      DistinctCard(init);
      assert (set p | p in s) == (set p | p in init) + {last};
      assert last !in (set p | p in init);
    }
  }

  /** For a distinct plan whose placed blocks are distinct planned blocks,
      the size test of completion agrees with "every planned block is
      placed", so a project that is not complete always has a next block. */
  lemma {:induction false} CompletedIffAllPlaced(planned: seq<Pos>, placed: seq<Pos>)
    requires Distinct(planned) && Distinct(placed)
    requires forall p :: p in placed ==> p in planned
    ensures |placed| >= |planned| <==> FirstUnplaced(planned, placed).None?
  {
    var A := set p | p in placed;
    var B := set p | p in planned;
    DistinctCard(placed);
    DistinctCard(planned);
    SubsetCard(A, B);
    if |placed| >= |planned| {
      assert A == B;
      assert forall p :: p in planned ==> p in B;
    }
    if FirstUnplaced(planned, placed).None? {
      assert B <= A;
      SubsetCard(B, A);
    }
  }

  class BuildingProject {
    const kind: BuildingType
    const base: Location
    const planned: seq<Pos>
    var placed: seq<Pos>

    /** The plan is distinct and only planned blocks are recorded as
        placed, each once. */
    ghost predicate Valid()
      reads this
    {
      && Distinct(planned) && Distinct(placed)
      && forall p :: p in placed ==> p in planned
    }

    constructor (kind: BuildingType, base: Location)
      ensures this.kind == kind && this.base == base && placed == []
      ensures forall p :: p in planned <==> InPlan(kind, p)
      ensures |planned| == PlanSize(kind)
      ensures forall i, j :: 0 <= i < j < |planned| ==> Lex(PlanKey(kind, planned[i]), PlanKey(kind, planned[j]))
      ensures Valid()
    {
      var plan: seq<Pos>;
      match kind {
        case SimpleHouse =>
          plan := SimpleHousePlan();
          assert forall i, j :: 0 <= i < j < |plan| ==> Lex(HouseKey(plan[i]), HouseKey(plan[j]));
        case Tower =>
          plan := TowerPlan();
          assert forall i, j :: 0 <= i < j < |plan| ==> Lex(TowerKey(plan[i]), TowerKey(plan[j]));
        case Bridge =>
          plan := BridgePlan();
          assert forall i, j :: 0 <= i < j < |plan| ==> Lex(BridgeKey(plan[i]), BridgeKey(plan[j]));
        case Wall =>
          plan := WallPlan();
          assert forall i, j :: 0 <= i < j < |plan| ==> Lex(WallKey(plan[i]), WallKey(plan[j]));
      }
      this.kind := kind;
      this.base := base;
      planned := plan;
      placed := [];
    }

    /** Where a planned offset lies in the world, as a location and as a block. */
    function LocationOf(o: Pos): Location
      reads this
    {
      Location(base.x + o.x as real, base.y + o.y as real, base.z + o.z as real)
    }

    function BlockOf(o: Pos): (p: Pos)
      reads this
      ensures p == LocationOf(o).Block()
    {
      var b := base.Block();
      var p := b.Add(o.x, o.y, o.z);
      assert LocationOf(o).x.Floor == p.x && LocationOf(o).y.Floor == p.y && LocationOf(o).z.Floor == p.z;
      p
    }

    /** The scan of the plan for its first unplaced block. */
    method NextBlockLocation() returns (next: Option<Pos>)
      ensures next == FirstUnplaced(planned, placed)
    {
      var i := 0;
      while i < |planned|
        invariant 0 <= i <= |planned|
        invariant FirstUnplaced(planned[i..], placed) == FirstUnplaced(planned, placed)
      {
        if planned[i] !in placed {
          return Some(planned[i]);
        }
        assert planned[i..][1..] == planned[i + 1..];
        i := i + 1;
      }
      return None;
    }

    method MarkBlockPlaced(o: Pos)
      modifies this
      ensures placed == old(placed) + [o]
      ensures old(Valid()) && o in planned && o !in old(placed) ==> Valid()
    {
      placed := placed + [o];
    }

    /** Completion compares counts only. */
    predicate IsCompleted()
      reads this
    {
      |placed| >= |planned|
    }
  }

  /** A valid project is complete exactly when it has no next block. */
  lemma CompletedIff(pr: BuildingProject)
    requires pr.Valid()
    ensures pr.IsCompleted() <==> FirstUnplaced(pr.planned, pr.placed).None?
  {
    CompletedIffAllPlaced(pr.planned, pr.placed);
  }

  // ---------------------------------------------------------------------
  // Materials

  /** The materials the builder places, in order of preference. */
  const BuildingMaterials: seq<Material> := [Cobblestone, Stone, OakPlanks, Dirt]

  /** The first of `ms` the inventory holds at least one of. */
  function FirstHeld(inv: Inventory, ms: seq<Material>): (r: Option<Material>)
    ensures r.None? <==> forall i :: 0 <= i < |ms| ==> !Has(inv, ms[i], 1)
    ensures r.Some? ==> exists i :: 0 <= i < |ms| && ms[i] == r.value && Has(inv, r.value, 1)
                                    && forall j :: 0 <= j < i ==> !Has(inv, ms[j], 1)
  {
    if |ms| == 0 then None
    else if Has(inv, ms[0], 1) then Some(ms[0])
    else
      var r := FirstHeld(inv, ms[1..]);
      if r.Some? then
        var i :| 0 <= i < |ms[1..]| && ms[1..][i] == r.value && Has(inv, r.value, 1)
                 && forall j :: 0 <= j < i ==> !Has(inv, ms[1..][j], 1);
        assert ms[i + 1] == r.value;
        r
      else r
  }

  function SelectBuildingMaterial(inv: Inventory): Option<Material> {
    FirstHeld(inv, BuildingMaterials)
  }

  /** Enough for building: ten of cobblestone, stone, dirt or planks. */
  predicate HasBuildingMaterials(inv: Inventory) {
    Has(inv, Cobblestone, 10) || Has(inv, Stone, 10) || Has(inv, Dirt, 10) || Has(inv, OakPlanks, 10)
  }

  /** While there are materials to build with, a material is always
      selected, so the build step never stalls for want of one. */
  lemma {:induction false} MaterialsGiveSelection(inv: Inventory)
    requires HasBuildingMaterials(inv)
    ensures SelectBuildingMaterial(inv).Some?
  {
    var i := if Has(inv, Cobblestone, 10) then 0 else if Has(inv, Stone, 10) then 1
             else if Has(inv, OakPlanks, 10) then 2 else 3;
    assert Has(inv, BuildingMaterials[i], 1);
  }

  /** The materials gathered when the builder runs short. */
  const GatherMaterials: seq<Material> := [Stone, Dirt, OakLog, Cobblestone]
  const GatherRadius: int := 8

  /** The materials whose presence nearby makes gathering worthwhile. */
  const ScoutMaterials: seq<Material> := [Stone, Dirt, OakLog]
  const ScoutRadius: int := 10

  // ---------------------------------------------------------------------
  // Sites

  /** The `width` x `depth` area from `(x, y, z)` is all air at height `y`. */
  predicate Flat(w: World, x: int, y: int, z: int, width: int, depth: int) {
    forall bx, bz :: x <= bx < x + width && z <= bz < z + depth ==> IsAir(w.At(bx, y, bz))
  }

  method IsFlatRow(w: World, x: int, y: int, z: int, depth: int) returns (flat: bool)
    ensures flat <==> forall bz :: z <= bz < z + depth ==> IsAir(w.At(x, y, bz))
  {
    var dz := 0;
    while dz < depth
      invariant 0 <= dz && (depth >= 0 ==> dz <= depth)
      invariant forall bz :: z <= bz < z + dz ==> IsAir(w.At(x, y, bz))
    {
      if !IsAir(w.At(x, y, z + dz)) {
        return false;
      }
      dz := dz + 1;
    }
    return true;
  }

  /** Whether the area at the block of `center` is flat. Only the blocks at
      the centre's own height are read, so the source's height-difference
      test can never fail and the area counts as flat when it is all air. */
  method IsFlatArea(w: World, center: Location, width: int, depth: int) returns (flat: bool)
    ensures var b := center.Block(); flat <==> Flat(w, b.x, b.y, b.z, width, depth)
  {
    var b := center.Block();
    var dx := 0;
    while dx < width
      invariant 0 <= dx && (width >= 0 ==> dx <= width)
      invariant forall bx, bz :: b.x <= bx < b.x + dx && b.z <= bz < b.z + depth ==> IsAir(w.At(bx, b.y, bz))
    {
      var row := IsFlatRow(w, b.x + dx, b.y, b.z, depth);
      if !row {
        return false;
      }
      dx := dx + 1;
    }
    return true;
  }

  const FlatAreaAttempts: int := 20

  /** The candidate site for a random offset: the offset block column at
      the centre's height. */
  function Candidate(center: Location, offset: (int, int)): Location {
    var b := center.Block();
    Location((b.x + offset.0) as real, center.y, (b.z + offset.1) as real)
  }

  /** The five by five area at a candidate site is flat. */
  predicate FlatCandidate(w: World, center: Location, offset: (int, int)) {
    var c := Candidate(center, offset).Block();
    Flat(w, c.x, c.y, c.z, 5, 5)
  }

  /** `site` is the first flat candidate, or the centre when none is flat. */
  predicate ChosenSite(w: World, center: Location, offsets: seq<(int, int)>, site: Location) {
    && ((exists i :: 0 <= i < |offsets| && FlatCandidate(w, center, offsets[i])) ==>
          exists i :: 0 <= i < |offsets| && FlatCandidate(w, center, offsets[i])
                      && (forall j :: 0 <= j < i ==> !FlatCandidate(w, center, offsets[j]))
                      && site == Candidate(center, offsets[i]))
    && ((forall i :: 0 <= i < |offsets| ==> !FlatCandidate(w, center, offsets[i])) ==> site == center)
  }

  /** Tries the candidate sites for the given random offsets in order and
      returns the first flat one, or the centre itself. */
  method FindFlatArea(w: World, center: Location, offsets: seq<(int, int)>) returns (site: Location)
    requires |offsets| == FlatAreaAttempts
    ensures ChosenSite(w, center, offsets, site)
  {
    var i := 0;
    while i < FlatAreaAttempts
      invariant 0 <= i <= FlatAreaAttempts
      invariant forall j :: 0 <= j < i ==> !FlatCandidate(w, center, offsets[j])
    {
      var test := Candidate(center, offsets[i]);
      var flat := IsFlatArea(w, test, 5, 5);
      if flat {
        assert FlatCandidate(w, center, offsets[i]);
        return test;
      }
      i := i + 1;
    }
    return center;
  }

  // ---------------------------------------------------------------------
  // The behavior

  /** What one update of the builder did. */
  datatype BuildAction =
    | Waiting
    | NewProject(kind: BuildingType, site: Location)
    | NothingNearby
    | MoveTowards(target: Location)
    | MinedBlock(at: Pos, material: Material)
    | PlacedBlock(at: Pos, material: Material)
    | NoMaterial
    | ProjectFinished

  /** Building actions are at least this many milliseconds apart. */
  const BuildInterval: int := 1000

  /** The block the builder gathers from: the first hit of the scan for
      gatherable materials within `radius` of the agent's block `c`. */
  function GatherTarget(w: World, c: Pos, radius: int): (t: Option<Pos>)
    ensures t.Some? ==> Wanted(w, c, radius, GatherMaterials, t.value)
  {
    var found := Cube(w, c, radius, GatherMaterials, radius + 1);
    if found == [] then None
    else
      NearbyBlocksExact(w, c, radius, GatherMaterials, found[0]);
      Some(found[0])
  }

  /** The block location of a scanned block, at its lower corner. */
  function CornerOf(p: Pos): Location {
    Location(p.x as real, p.y as real, p.z as real)
  }

  /** What one round of gathering did, from the state before to now:
      with nothing nearby, or a target more than two blocks away, the world
      and the inventories are as they were; otherwise the target became
      air and one of that block went to the agent's inventory. */
  twostate predicate Gathered(w: World, at: Location, radius: int, store: InventoryStore, id: string,
                              w': World, act: BuildAction)
    reads store
  {
    match GatherTarget(w, at.Block(), radius)
    case None => w' == w && store.inventories == old(store.inventories) && act == NothingNearby
    case Some(t) =>
      if at.DistSq(CornerOf(t)) > 4.0 then
        w' == w && store.inventories == old(store.inventories) && act == MoveTowards(CornerOf(t))
      else
        && w' == w.SetBlock(t, Air)
        && store.inventories == old(store.inventories)[id := Added(old(store.Of(id)), w.blocks(t), 1)]
        && act == MinedBlock(t, w.blocks(t))
  }

  /** What one building step did on an incomplete project, from the state
      before to now: with the next planned block more than three blocks
      away, or no building material held, nothing changed; otherwise the
      preferred material was placed there, one was consumed and the block
      was recorded as placed. */
  twostate predicate Built(pr: BuildingProject, at: Location, w: World, store: InventoryStore, id: string,
                           w': World, act: BuildAction)
    reads pr, store
  {
    FirstUnplaced(pr.planned, old(pr.placed)).Some? &&
    var next := FirstUnplaced(pr.planned, old(pr.placed)).value;
    var target := pr.LocationOf(next);
    && (at.DistSq(target) > 9.0 ==>
          w' == w && store.inventories == old(store.inventories) && pr.placed == old(pr.placed)
          && act == MoveTowards(target))
    && (at.DistSq(target) <= 9.0 && SelectBuildingMaterial(old(store.Of(id))).None? ==>
          w' == w && store.inventories == old(store.inventories) && pr.placed == old(pr.placed)
          && act == NoMaterial)
    && (at.DistSq(target) <= 9.0 && SelectBuildingMaterial(old(store.Of(id))).Some? ==>
          var m := SelectBuildingMaterial(old(store.Of(id))).value;
          && w' == w.SetBlock(pr.BlockOf(next), m)
          && store.inventories == old(store.inventories)[id := Removed(old(store.Of(id)), m, 1).1]
          && pr.placed == old(pr.placed) + [next]
          && act == PlacedBlock(pr.BlockOf(next), m))
  }

  /** A newly planned project: the drawn kind at the chosen site, holding
      exactly the shape's cells in the order of the shape's loops, with
      nothing placed yet. */
  ghost predicate NewPlan(pr: BuildingProject, kind: BuildingType, w: World, at: Location, offsets: seq<(int, int)>)
    reads pr
  {
    && pr.kind == kind && pr.placed == [] && |pr.planned| == PlanSize(kind)
    && (forall p :: p in pr.planned <==> InPlan(kind, p))
    && (forall i, j :: 0 <= i < j < |pr.planned| ==> Lex(PlanKey(kind, pr.planned[i]), PlanKey(kind, pr.planned[j])))
    && ChosenSite(w, at, offsets, pr.base)
  }

  class BuildingBehavior {
    var project: BuildingProject?
    var lastBuildAction: int
    /** The gathering and scouting radii, fixed when the behavior is made. */
    const gatherRadius: int
    const scoutRadius: int

    ghost predicate Valid()
      reads this, project
    {
      project != null ==> project.Valid()
    }

    constructor ()
      ensures project == null && lastBuildAction == 0 && Valid()
      ensures gatherRadius == GatherRadius && scoutRadius == ScoutRadius
    {
      project := null;
      lastBuildAction := 0;
      gatherRadius := GatherRadius;
      scoutRadius := ScoutRadius;
    }

    /** The builder can run for a valid agent that holds building materials
        or sees stone, dirt or logs within the scouting radius. */
    method CanExecute(agentValid: bool, at: Location, w: World, store: InventoryStore, id: string) returns (r: bool)
      ensures r <==> agentValid && (HasBuildingMaterials(store.Of(id))
                                    || Cube(w, at.Block(), scoutRadius, ScoutMaterials, scoutRadius + 1) != [])
    {
      if !agentValid {
        return false;
      }
      if HasBuildingMaterials(store.Of(id)) {
        return true;
      }
      var nearby := FindNearbyBlocks(w, at.Block(), scoutRadius, ScoutMaterials);
      return |nearby| > 0;
    }

    /** A new project of the drawn kind at the first flat site among the
        drawn offsets around the agent. */
    method GenerateProject(at: Location, w: World, kind: BuildingType, offsets: seq<(int, int)>)
      requires |offsets| == FlatAreaAttempts
      modifies this
      ensures project != null && fresh(project) && Valid()
      ensures NewPlan(project, kind, w, at, offsets)
      ensures lastBuildAction == old(lastBuildAction)
    {
      var site := FindFlatArea(w, at, offsets);
      project := new BuildingProject(kind, site);
    }

    /** Starting plans a project unless one is already under way. */
    method OnStart(at: Location, w: World, kind: BuildingType, offsets: seq<(int, int)>)
      requires Valid() && |offsets| == FlatAreaAttempts
      modifies this
      ensures Valid() && lastBuildAction == old(lastBuildAction)
      ensures old(project) != null ==> project == old(project)
      ensures old(project) == null ==> project != null && fresh(project) && NewPlan(project, kind, w, at, offsets)
    {
      if project == null {
        GenerateProject(at, w, kind, offsets);
      }
    }

    /** Walks to the first gatherable block within the gathering radius, or mines
        it when it is within two blocks: the block becomes air and one of
        the block itself, not its drop, goes to the inventory. */
    method Gather(at: Location, w: World, store: InventoryStore, id: string) returns (w': World, act: BuildAction)
      modifies store
      ensures Gathered(w, at, gatherRadius, store, id, w', act)
      ensures old(store.Valid()) ==> store.Valid()
    {
      var found := FindNearbyBlocks(w, at.Block(), gatherRadius, GatherMaterials);
      if found == [] {
        return w, NothingNearby;
      }
      var target := found[0];
      if at.DistSq(CornerOf(target)) > 4.0 {
        return w, MoveTowards(CornerOf(target));
      }
      var m := w.blocks(target);
      w' := w.SetBlock(target, Air);
      var _ := store.AddItem(id, m, 1);
      act := MinedBlock(target, m);
    }

    /** One building step: discard a complete project; otherwise walk
        towards the next planned block while it is more than three blocks
        away, or else place the preferred material there, whatever block
        is in the way, and record the block as placed. */
    method Execute(at: Location, w: World, store: InventoryStore, id: string) returns (w': World, act: BuildAction)
      requires Valid() && project != null
      modifies this, project, store
      ensures Valid() && lastBuildAction == old(lastBuildAction)
      ensures old(project.IsCompleted()) ==>
        project == null && w' == w && store.inventories == old(store.inventories) && act == ProjectFinished
      ensures !old(project.IsCompleted()) ==> project == old(project) && Built(project, at, w, store, id, w', act)
      ensures old(store.Valid()) ==> store.Valid()
    {
      if project.IsCompleted() {
        project := null;
        return w, ProjectFinished;
      }
      CompletedIff(project);
      var next := project.NextBlockLocation();
      if next.None? {
        // the source discards the project here; a valid project that is
        // not complete always has a next block
        assert false;
      }
      var o := next.value;
      var target := project.LocationOf(o);
      if at.DistSq(target) > 9.0 {
        return w, MoveTowards(target);
      }
      var material := SelectBuildingMaterial(store.Of(id));
      if material.None? {
        return w, NoMaterial;
      }
      var m := material.value;
      var pos := project.BlockOf(o);
      var removed := store.RemoveItem(id, m, 1);
      w' := w;
      if removed {
        w' := w.SetBlock(pos, m);
      }
      PlacingNextKeepsDistinct(project.planned, project.placed);
      project.MarkBlockPlaced(o);
      act := PlacedBlock(pos, m);
    }

    /** One update at time `now`, with the agent's location when it has an
        entity. At most one action per second: plan a project when there is
        none, gather when materials run short, build otherwise. The kind
        and site offsets a new project would use are drawn by the caller. */
    method OnUpdate(now: int, at: Option<Location>, w: World, store: InventoryStore, id: string,
                    kind: BuildingType, offsets: seq<(int, int)>) returns (w': World, act: BuildAction)
      requires Valid() && |offsets| == FlatAreaAttempts
      modifies this, project, store
      ensures Valid()
      ensures at.None? || now - old(lastBuildAction) < BuildInterval ==>
        && lastBuildAction == old(lastBuildAction) && project == old(project)
        && (project != null ==> project.placed == old(project.placed))
        && w' == w && store.inventories == old(store.inventories) && act == Waiting
      ensures at.Some? && now - old(lastBuildAction) >= BuildInterval ==>
        && lastBuildAction == now
        && (old(project) == null ==>
              && project != null && fresh(project) && NewPlan(project, kind, w, at.value, offsets)
              && w' == w && store.inventories == old(store.inventories)
              && act == NewProject(kind, project.base))
        && (old(project) != null && !HasBuildingMaterials(old(store.Of(id))) ==>
              && project == old(project) && project.placed == old(project.placed)
              && Gathered(w, at.value, gatherRadius, store, id, w', act))
        && (old(project) != null && HasBuildingMaterials(old(store.Of(id))) && old(project.IsCompleted()) ==>
              project == null && w' == w && store.inventories == old(store.inventories) && act == ProjectFinished)
        && (old(project) != null && HasBuildingMaterials(old(store.Of(id))) && !old(project.IsCompleted()) ==>
              project == old(project) && Built(project, at.value, w, store, id, w', act))
      ensures old(store.Valid()) ==> store.Valid()
    {
      if at.None? {
        return w, Waiting;
      }
      if now - lastBuildAction < BuildInterval {
        return w, Waiting;
      }
      lastBuildAction := now;
      if project == null {
        GenerateProject(at.value, w, kind, offsets);
        return w, NewProject(kind, project.base);
      }
      if !HasBuildingMaterials(store.Of(id)) {
        w', act := Gather(at.value, w, store, id);
        return;
      }
      MaterialsGiveSelection(store.Of(id));
      w', act := Execute(at.value, w, store, id);
    }
  }
}
