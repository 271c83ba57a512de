# MinecraftAgent agent control, modelled in Dafny

This project models the decision and bookkeeping logic of the MinecraftAgent
server plugin. Each agent is an AI-driven entity in a Minecraft world. A
behavior manager chooses among four behaviors by priority:

- survival;
- resource gathering;
- exploration;
- building.

Every behavior runs the same lifecycle: initialize, start, update, stop and
shutdown. The agents share rules for mining, placing and crafting over
virtual per-agent inventories. They search for safe standing and spawn
spots, and a registry keeps them by name under a capacity limit.

The game world is a value: a block lookup, the engine's solidity table, the
build-height bounds and the top block of each column as the engine reported
it when the world was read. Changing a block does not update those tops. The clock is an
input `now`. Whatever the engine decides, such as whether a hook throws,
what a behavior's `canExecute` answers or which random project is drawn, is
passed in as a parameter.

Modules:

- `Materials`: material kinds, block positions, entity locations, the world
  value.
- `Blocks`: inventories, crafting, drop and mining tables, mining and
  placing, and the cube scan for nearby blocks.
- `Lifecycle`: the flags every behavior shares.
- `Arbitration`: the behavior manager. Its class invariant is that a
  behavior is active exactly when it is the current one.
- `Movement`: the block tests and the vertical scan for a standing height.
- `Agents`: the spawn-point search and the agent's lifecycle flags.
- `Registry`: the agent manager.
- `Building`: the four building plans, the project cursor, material
  selection, site choice and the builder's update.
- `Survival`: the survival trigger and its ordered reactions.

Each loop is a method proved against a specification: a function it computes, or quantified postconditions. The
plan generators prove three things:

- membership: the plan holds exactly the cells of the shape;
- order: the loops' lexicographic order, which makes every cell occur once;
- count: the exact block count.

A plan is held as offsets from the base location. The offsets are integers,
so equal offsets give equal locations and flooring commutes with the offset.

Four places where the code behaves otherwise than its comments suggest:

- The flat-area test reads only blocks at the base height, so its
  height-difference check never fails. An area counts as flat exactly when
  it is all air at that height (`Building.IsFlatArea`).
- The builder's own mining puts the mined block itself into the inventory,
  not the block's drop (`Building.BuildingBehavior.Gather`).
- The build step overwrites whatever block is at the target, without the
  placing test of the block helpers (air, water or lava only), and records
  the block as placed.
- Inside the survival update, the low-health branch of the threat handling
  cannot fire, because a lower health has already made the agent flee.

## Model

| member | source | states |
|---|---|---|
| Blocks.Added | src/main/java/com/minecraftagent/utils/BlockUtils.java:63-72 | the count of the added material rises by exactly the amount; every other count is unchanged; the material gains an entry |
| Blocks.AddKeepsPositive | src/main/java/com/minecraftagent/utils/BlockUtils.java:63-72 | adding a positive amount keeps every stored count positive |
| Blocks.Removed | src/main/java/com/minecraftagent/utils/BlockUtils.java:78-96 | succeeds iff at least the amount is held; on failure the inventory is unchanged; on success exactly the amount is subtracted, other counts are unchanged, an entry reaching zero is deleted, and positivity of all entries is preserved |
| Blocks.RemoveSucceedsIffHas | src/main/java/com/minecraftagent/utils/BlockUtils.java:81-84 | removal succeeds exactly when the holding check of lines 101-104 passes |
| Blocks.AddThenRemove | src/main/java/com/minecraftagent/utils/BlockUtils.java:63-96 | adding n of a material and then removing n succeeds and restores the original inventory |
| Blocks.RecipeFor | src/main/java/com/minecraftagent/utils/BlockUtils.java:226-254 | only the four targets have a recipe; each consumes a different material and has positive input and output counts |
| Blocks.Crafted | src/main/java/com/minecraftagent/utils/BlockUtils.java:223-257 | all or nothing: succeeds iff the target has a recipe and its inputs are held; then exactly the inputs are consumed and the outputs added, all else unchanged; on failure nothing changes |
| Blocks.CraftableIffCraftSucceeds | src/main/java/com/minecraftagent/utils/BlockUtils.java:191-218 | a material is listed as craftable exactly when crafting it would succeed |
| Blocks.Drop | src/main/java/com/minecraftagent/utils/BlockUtils.java:331-348 | a block drops something other than itself only for the four ores and stone |
| Blocks.DropIsFixedPoint | src/main/java/com/minecraftagent/utils/BlockUtils.java:331-348 | every drop drops itself |
| Blocks.MiningTime | src/main/java/com/minecraftagent/utils/BlockUtils.java:164-186 | times lie between 0.5 and 10 seconds, and the default of 1 second applies exactly to the blocks outside the hardness table |
| Blocks.Mined | src/main/java/com/minecraftagent/utils/BlockUtils.java:284-305 | succeeds iff the block may be mined (lines 146-159); on failure nothing changes; on success the block becomes air, exactly one drop is added and nothing else changes |
| Blocks.Placed | src/main/java/com/minecraftagent/utils/BlockUtils.java:310-326 | succeeds iff the target is air, water or lava (lines 138-141) and one unit is held; on success the block takes the material and exactly one unit is consumed; otherwise nothing changes |
| Blocks.PlaceThenMine | src/main/java/com/minecraftagent/utils/BlockUtils.java:284-326 | placing a minable block that drops itself and mining it again restores the inventory and leaves air |
| Blocks.InventoryStore.AddItem | src/main/java/com/minecraftagent/utils/BlockUtils.java:63-72 | always succeeds; only this agent's inventory changes, to the added inventory; positivity is kept for positive amounts |
| Blocks.InventoryStore.RemoveItem | src/main/java/com/minecraftagent/utils/BlockUtils.java:78-96 | the result and this agent's new inventory are those of the check-then-remove; other agents are untouched |
| Blocks.InventoryStore.CraftItem | src/main/java/com/minecraftagent/utils/BlockUtils.java:223-257 | the result and this agent's new inventory are those of the all-or-nothing craft |
| Blocks.InventoryStore.MineBlock | src/main/java/com/minecraftagent/utils/BlockUtils.java:284-305 | the result, the new world and, on success, the new inventory are those of mining; a refused block leaves the store unchanged |
| Blocks.InventoryStore.PlaceBlock | src/main/java/com/minecraftagent/utils/BlockUtils.java:310-326 | the result and the new world are those of placing; an occupied target leaves the store unchanged |
| Blocks.InventoryStore.ClearInventory | src/main/java/com/minecraftagent/utils/BlockUtils.java:353-356 | removes exactly this agent's inventory |
| Blocks.MatchingCopies | src/main/java/com/minecraftagent/utils/BlockUtils.java:48-52 | one copy of the block per requested material it matches |
| Blocks.ScanRow | src/main/java/com/minecraftagent/utils/BlockUtils.java:41-53 | the innermost z loop yields the row's matches in order |
| Blocks.ScanSlice | src/main/java/com/minecraftagent/utils/BlockUtils.java:40-54 | the y loop yields the slice's matches in order |
| Blocks.FindNearbyBlocks | src/main/java/com/minecraftagent/utils/BlockUtils.java:36-58 | the result is the scan of the cube in x, y, z order |
| Blocks.HitsMember | src/main/java/com/minecraftagent/utils/BlockUtils.java:48-52 | a position is among one block's matches iff it is that block and its material is requested |
| Blocks.RowMember | src/main/java/com/minecraftagent/utils/BlockUtils.java:41-53 | membership in a row's matches, by coordinates and material |
| Blocks.SliceMember | src/main/java/com/minecraftagent/utils/BlockUtils.java:40-54 | membership in a slice's matches, by coordinates and material |
| Blocks.CubeMember | src/main/java/com/minecraftagent/utils/BlockUtils.java:39-55 | membership in the partial cube's matches, by coordinates and material |
| Blocks.NearbyBlocksExact | src/main/java/com/minecraftagent/utils/BlockUtils.java:36-58 | a position is reported iff it is within the radius on every axis and holds a requested material |
| Lifecycle.BaseBehavior.constructor | src/main/java/com/minecraftagent/behaviors/BaseBehavior.java:20-26 | a new behavior is neither initialized nor active |
| Lifecycle.BaseBehavior.Initialize | src/main/java/com/minecraftagent/behaviors/BaseBehavior.java:31-44 | idempotent; otherwise the behavior is initialized iff the hook does not throw, and the exception propagates |
| Lifecycle.BaseBehavior.Start | src/main/java/com/minecraftagent/behaviors/BaseBehavior.java:49-70 | fails when uninitialized; a no-op when active; otherwise stamps the start and update times and is active iff the hook does not throw |
| Lifecycle.BaseBehavior.Update | src/main/java/com/minecraftagent/behaviors/BaseBehavior.java:75-86 | runs iff active and executable, stamping the update time; the flags never change |
| Lifecycle.BaseBehavior.Stop | src/main/java/com/minecraftagent/behaviors/BaseBehavior.java:91-103 | afterwards inactive even when the hook throws; a no-op when already inactive |
| Lifecycle.BaseBehavior.Shutdown | src/main/java/com/minecraftagent/behaviors/BaseBehavior.java:108-120 | afterwards inactive; initialized afterwards iff it was and the hook threw |
| Lifecycle.BaseBehavior.RunningTime | src/main/java/com/minecraftagent/behaviors/BaseBehavior.java:171-173 | zero whenever inactive, never negative while active after the start |
| Arbitration.Winner | src/main/java/com/minecraftagent/ai/BehaviorManager.java:100-122 | none iff nothing is executable; otherwise an executable behavior of maximal priority, and strictly higher than every earlier executable one, so the first registered wins a tie |
| Arbitration.WinnerUnique | src/main/java/com/minecraftagent/ai/BehaviorManager.java:100-122 | any executable behavior of maximal priority that beats all earlier ones is the winner |
| Arbitration.SurvivalWinsByDefault | src/main/java/com/minecraftagent/config/ConfigManager.java:45-115 | with the default priorities 100, 80, 60, 70, an executable survival behavior always wins |
| Arbitration.BehaviorManager.constructor | src/main/java/com/minecraftagent/ai/BehaviorManager.java:28-33 | no behaviors, no current behavior, the check time is now |
| Arbitration.BehaviorManager.Initialize | src/main/java/com/minecraftagent/ai/BehaviorManager.java:38-75 | appends fresh behaviors in the order survival, gathering, exploration, building, only the enabled ones, with their priorities; each ends initialized iff its hook does not throw; the invariant holds |
| Arbitration.BehaviorManager.Append | src/main/java/com/minecraftagent/ai/BehaviorManager.java:45 | one fresh, inactive, uninitialized behavior of the given kind and priority is added at the end, the rest unchanged |
| Arbitration.BehaviorManager.Register | src/main/java/com/minecraftagent/ai/BehaviorManager.java:43-61 | the enabled kinds are appended in registration order, fresh, inactive and uninitialized |
| Arbitration.BehaviorManager.InitializeAll | src/main/java/com/minecraftagent/ai/BehaviorManager.java:63-73 | each behavior is initialized afterwards iff it was or its hook does not throw; a throw does not stop the loop |
| Arbitration.BehaviorManager.StopCurrentBehavior | src/main/java/com/minecraftagent/ai/BehaviorManager.java:164-175 | no current behavior afterwards, all behaviors inactive, one stop recorded when there was a current one |
| Arbitration.BehaviorManager.SwitchBehavior | src/main/java/com/minecraftagent/ai/BehaviorManager.java:144-159 | the old behavior is stopped before the new one is started; the new one is current iff it was initialized and its start does not throw, else there is none |
| Arbitration.BehaviorManager.Update | src/main/java/com/minecraftagent/ai/BehaviorManager.java:81-139 | within 1000 ms only the current behavior is updated; otherwise a throwing probe changes nothing, no executable behavior stops the current one, and a winner other than the current behavior is switched to; the invariant holds throughout |
| Arbitration.BehaviorManager.Arbitrate | src/main/java/com/minecraftagent/ai/BehaviorManager.java:93-139 | the same outcome as an arbitrating tick |
| Arbitration.BehaviorManager.ForceBehavior | src/main/java/com/minecraftagent/ai/BehaviorManager.java:180-192 | switches to the first registered behavior of the kind; nothing changes when there is none |
| Arbitration.BehaviorManager.Shutdown | src/main/java/com/minecraftagent/ai/BehaviorManager.java:197-214 | stops the current behavior and shuts every behavior down; each is inactive afterwards and still initialized only if its hook threw; the list is empty |
| Movement.SafeSpotIsSafeToMoveTo | src/main/java/com/minecraftagent/utils/MovementUtils.java:93-117 | a location standing on a safe spot passes the move test |
| Movement.MoveTestReadsFeetAndHead | src/main/java/com/minecraftagent/utils/MovementUtils.java:107-117 | for all worlds and locations: two worlds that agree on the feet and head blocks agree on the move test, so the ground is never looked at |
| Movement.MoveTestIgnoresGround | src/main/java/com/minecraftagent/utils/MovementUtils.java:107-117 | an instance: a location just above a lava floor passes the move test while the lava is no safe spot |
| Movement.FindSafeY | src/main/java/com/minecraftagent/utils/MovementUtils.java:64-88 | one above the highest safe spot from the start block down to just above the bottom; failing that, one above the lowest safe spot upward below the top; failing that, the original height |
| Agents.TopY | src/main/java/com/minecraftagent/agent/MinecraftAgent.java:222 | the smaller of five above the highest block and one below the top |
| Agents.HighestStandable | src/main/java/com/minecraftagent/agent/MinecraftAgent.java:224-237 | the highest standable height in the range, with nothing standable above it; none iff none is standable |
| Agents.SpotAtIsHighestStandable | src/main/java/com/minecraftagent/agent/MinecraftAgent.java:216-238 | a column's spawn point stands on its highest standable block in the searched range |
| Agents.SafeLocationAt | src/main/java/com/minecraftagent/agent/MinecraftAgent.java:216-238 | the downward scan returns the column's spawn point |
| Agents.OnRingIffRing | src/main/java/com/minecraftagent/agent/MinecraftAgent.java:197 | the loop's ring test selects exactly the offsets at Chebyshev distance r |
| Agents.SearchRingColumn | src/main/java/com/minecraftagent/agent/MinecraftAgent.java:196-205 | the first column with a spawn point on ring r at the given x offset, in z order, or none |
| Agents.SearchRing | src/main/java/com/minecraftagent/agent/MinecraftAgent.java:195-206 | the first column with a spawn point on ring r in x, then z order, or none on the whole ring |
| Agents.SearchRings | src/main/java/com/minecraftagent/agent/MinecraftAgent.java:194-207 | the first column with a spawn point in search order within ten rings; all columns visited earlier have none |
| Agents.FindSafeSpawnLocation | src/main/java/com/minecraftagent/agent/MinecraftAgent.java:188-211 | the spawn point of the first column in ring order that has one; the fallback is the base column at height max(y, 80) |
| Agents.MinecraftAgent.constructor | src/main/java/com/minecraftagent/agent/MinecraftAgent.java:54-70 | a new agent is inactive and spawning |
| Agents.MinecraftAgent.Start | src/main/java/com/minecraftagent/agent/MinecraftAgent.java:75-103 | a no-op when active; success makes it active; failure disables it and leaves it inactive |
| Agents.MinecraftAgent.Stop | src/main/java/com/minecraftagent/agent/MinecraftAgent.java:108-114 | a no-op when inactive; otherwise inactive and disabled |
| Agents.MinecraftAgent.HandleDeath | src/main/java/com/minecraftagent/agent/MinecraftAgent.java:297-309 | the agent is dead afterwards; a respawn is scheduled iff it was not already dead |
| Agents.MinecraftAgent.Tick | src/main/java/com/minecraftagent/agent/MinecraftAgent.java:249-253 | a missing or dead entity is handled as a death; otherwise the state is unchanged |
| Agents.MinecraftAgent.RespawnTimerFired | src/main/java/com/minecraftagent/agent/MinecraftAgent.java:303-324 | only an active agent respawns; it becomes active again, or disabled when the spawn fails |
| Registry.AgentManager.constructor | src/main/java/com/minecraftagent/agent/AgentManager.java:22-27 | the registry starts empty |
| Registry.AgentManager.CreateAgent | src/main/java/com/minecraftagent/agent/AgentManager.java:42-70 | refused with no change when full or the name is taken; otherwise the name maps to a fresh agent, registered even when its start fails; the size stays within the limit |
| Registry.AgentManager.GetAgent | src/main/java/com/minecraftagent/agent/AgentManager.java:77-79 | the registered agent, or null iff the name is unknown |
| Registry.AgentManager.HasAgent | src/main/java/com/minecraftagent/agent/AgentManager.java:158-160 | true iff a lookup finds an agent |
| Registry.AgentManager.ActiveAgentCount | src/main/java/com/minecraftagent/agent/AgentManager.java:93-97 | the number of registered agents that are active, at most the registry's size |
| Registry.AgentManager.RemoveAgent | src/main/java/com/minecraftagent/agent/AgentManager.java:104-125 | an unknown name is refused with no change; otherwise the agent is stopped (inactive, disabled if it was active, its state kept if not), its name is gone and every other agent is unchanged |
| Registry.AgentManager.Shutdown | src/main/java/com/minecraftagent/agent/AgentManager.java:130-151 | every registered agent is stopped: inactive, disabled if it was active and in its old state if not; then the registry is empty |
| Building.HouseColumn | src/main/java/com/minecraftagent/behaviors/BuildingBehavior.java:363-369 | one y column adds exactly that column's house cells, in order |
| Building.HouseRow | src/main/java/com/minecraftagent/behaviors/BuildingBehavior.java:362-370 | one x row adds exactly that row's house cells, in order |
| Building.SimpleHousePlan | src/main/java/com/minecraftagent/behaviors/BuildingBehavior.java:359-373 | exactly the cells of the 5x5x3 shell without the door cell, in loop order, 65 of them |
| Building.TowerColumn | src/main/java/com/minecraftagent/behaviors/BuildingBehavior.java:378-384 | one x column adds exactly that column's perimeter cells of the layer, in order |
| Building.TowerLayer | src/main/java/com/minecraftagent/behaviors/BuildingBehavior.java:377-385 | one layer adds exactly its perimeter cells, in order |
| Building.TowerPlan | src/main/java/com/minecraftagent/behaviors/BuildingBehavior.java:375-387 | exactly the perimeters of eight 3x3 layers, in loop order, 64 of them |
| Building.BridgeCellsExact | src/main/java/com/minecraftagent/behaviors/BuildingBehavior.java:391-398 | the cells of one x step are exactly the bridge's cells at that x, in plan order |
| Building.BridgeCellsCount | src/main/java/com/minecraftagent/behaviors/BuildingBehavior.java:391-398 | one x step adds as many cells as the closed-form bridge size grows by |
| Building.BridgeSection | src/main/java/com/minecraftagent/behaviors/BuildingBehavior.java:391-398 | one x step adds exactly its deck cells and, on even x, its railings |
| Building.BridgePlan | src/main/java/com/minecraftagent/behaviors/BuildingBehavior.java:389-400 | exactly the deck and railing cells, in loop order, 30 of them |
| Building.WallColumn | src/main/java/com/minecraftagent/behaviors/BuildingBehavior.java:404-407 | one x column adds its four cells, in order |
| Building.WallPlan | src/main/java/com/minecraftagent/behaviors/BuildingBehavior.java:402-409 | exactly the 15x4 wall cells, in loop order, 60 of them |
| Building.FirstUnplaced | src/main/java/com/minecraftagent/behaviors/BuildingBehavior.java:413-420 | none iff every planned block is placed; otherwise an unplaced planned block with every earlier planned block placed |
| Building.PlacingNextKeepsDistinct | src/main/java/com/minecraftagent/behaviors/BuildingBehavior.java:413-424 | recording the next block keeps the placed blocks distinct and within the plan |
| Building.DistinctCard | src/main/java/com/minecraftagent/behaviors/BuildingBehavior.java:426-428 | a distinct sequence has as many elements as its set |
| Building.CompletedIffAllPlaced | src/main/java/com/minecraftagent/behaviors/BuildingBehavior.java:426-428 | for a distinct plan and distinct placed blocks within it, the count test agrees with every planned block being placed |
| Building.BuildingProject.constructor | src/main/java/com/minecraftagent/behaviors/BuildingBehavior.java:333-357 | the plan holds exactly the shape's cells, with the shape's size, in the order of the shape's loops, nothing placed |
| Building.BuildingProject.BlockOf | src/main/java/com/minecraftagent/behaviors/BuildingBehavior.java:367 | the block of a planned offset is the floor of its location |
| Building.BuildingProject.NextBlockLocation | src/main/java/com/minecraftagent/behaviors/BuildingBehavior.java:413-420 | the scan returns the first unplaced planned block |
| Building.BuildingProject.MarkBlockPlaced | src/main/java/com/minecraftagent/behaviors/BuildingBehavior.java:422-424 | appends the block; the project stays valid for a planned block not yet placed |
| Building.CompletedIff | src/main/java/com/minecraftagent/behaviors/BuildingBehavior.java:413-428 | a valid project is complete exactly when it has no next block |
| Building.FirstHeld | src/main/java/com/minecraftagent/behaviors/BuildingBehavior.java:258-267 | the first material held at least once, with none of the earlier ones held; none iff none is held |
| Building.MaterialsGiveSelection | src/main/java/com/minecraftagent/behaviors/BuildingBehavior.java:95-100 | holding ten of a building material guarantees that a material is selected |
| Building.IsFlatRow | src/main/java/com/minecraftagent/behaviors/BuildingBehavior.java:151-164 | true iff the row is all air at the base height |
| Building.IsFlatArea | src/main/java/com/minecraftagent/behaviors/BuildingBehavior.java:148-167 | true iff the whole area is air at the base height |
| Building.FindFlatArea | src/main/java/com/minecraftagent/behaviors/BuildingBehavior.java:131-143 | the first of twenty candidate sites that is flat, else the centre |
| Building.GatherTarget | src/main/java/com/minecraftagent/behaviors/BuildingBehavior.java:176-181 | a gather target lies within the given radius of the agent's block and holds a gatherable material |
| Building.BuildingBehavior.constructor | src/main/java/com/minecraftagent/behaviors/BuildingBehavior.java:26-30 | no project, last action at 0, gathering radius 8 and scouting radius 10 |
| Building.BuildingBehavior.CanExecute | src/main/java/com/minecraftagent/behaviors/BuildingBehavior.java:33-38 | true iff the agent is valid and holds building materials or finds stone, dirt or logs within the scouting radius |
| Building.BuildingBehavior.GenerateProject | src/main/java/com/minecraftagent/behaviors/BuildingBehavior.java:114-126 | a fresh project of the drawn kind at the first flat site among the offsets, holding exactly the shape's cells in the order of the shape's loops, nothing placed (`NewPlan`) |
| Building.BuildingBehavior.OnStart | src/main/java/com/minecraftagent/behaviors/BuildingBehavior.java:41-48 | an existing project is kept; otherwise a fresh project is planned as by `GenerateProject` (`NewPlan`: kind, site, cells, order) |
| Building.BuildingBehavior.Gather | src/main/java/com/minecraftagent/behaviors/BuildingBehavior.java:172-190 | nothing nearby changes nothing; a target more than two blocks away is walked to; otherwise it becomes air and one of that block is added (`Gathered`) |
| Building.BuildingBehavior.Execute | src/main/java/com/minecraftagent/behaviors/BuildingBehavior.java:195-227 | a complete project is discarded; otherwise walk while the next block is over three blocks away, stop without a material, or place the preferred material there, consume one and record the block (`Built`) |
| Building.BuildingBehavior.OnUpdate | src/main/java/com/minecraftagent/behaviors/BuildingBehavior.java:51-85 | without an entity or within 1000 ms nothing changes; otherwise the action time is stamped and: with no project, one is planned as by `GenerateProject` (`NewPlan`: kind, chosen flat site, cells, loop order); short of materials, exactly the gathering step happens; otherwise a complete project is dropped or exactly the building step happens |
| Survival.Nearest | src/main/java/com/minecraftagent/behaviors/SurvivalBehavior.java:131-145 | none iff no entity is a monster targeting the agent; otherwise such a threat at minimal distance, strictly nearer than every earlier threat |
| Survival.NearestThreat | src/main/java/com/minecraftagent/behaviors/SurvivalBehavior.java:131-145 | the scan keeping the closest so far finds the nearest threat |
| Survival.PoisonIsHarmful | src/main/java/com/minecraftagent/behaviors/SurvivalBehavior.java:318-337 | poison and wither are harmful effects |
| Survival.Check | src/main/java/com/minecraftagent/behaviors/SurvivalBehavior.java:118-148 | within 2000 ms of the last check nothing changes; otherwise the check time becomes now and the remembered threat is none iff no entity is a monster targeting the agent, else such a monster at least as near as any other |
| Survival.CheckTwice | src/main/java/com/minecraftagent/behaviors/SurvivalBehavior.java:118-124 | a second check at the same time changes nothing |
| Survival.Care | src/main/java/com/minecraftagent/behaviors/SurvivalBehavior.java:96-112 | no flight or fight; healing is tried iff the agent is hurt or poisoned or withered; eating iff the food check is due and a player is hungry; curing iff a harmful effect is present; going home only with healing and when a threat is seen |
| Survival.Respond | src/main/java/com/minecraftagent/behaviors/SurvivalBehavior.java:153-179 | a response needs a live threat; a live threat under 3 blocks, or health at the flee threshold, gives flight; otherwise, with auto-defend and a distance under 8, a defence always follows, and only then; an attack happens iff the threat is under 4 blocks and living (lines 232-242) |
| Survival.SurvivalBehavior.constructor | src/main/java/com/minecraftagent/behaviors/SurvivalBehavior.java:29-41 | no threat and both check times 0 |
| Survival.SurvivalBehavior.HasNearbyThreats | src/main/java/com/minecraftagent/behaviors/SurvivalBehavior.java:118-148 | the check time and the remembered threat move as `Check` says; the answer is whether a threat is remembered |
| Survival.SurvivalBehavior.CanExecute | src/main/java/com/minecraftagent/behaviors/SurvivalBehavior.java:44-75 | false for an invalid agent; true when health or a player's food is low, with no threat check; otherwise the threat check runs as `Check` says and the answer is true iff a threat is then remembered or a harmful effect is present |
| Survival.SurvivalBehavior.HandleThreats | src/main/java/com/minecraftagent/behaviors/SurvivalBehavior.java:153-179 | a missing or dead threat is forgotten; the response is that of the threat rules |
| Survival.SurvivalBehavior.NeedsFood | src/main/java/com/minecraftagent/behaviors/SurvivalBehavior.java:272-287 | false within 5000 ms; otherwise the check time is stamped and only a player with low food is hungry |
| Survival.SurvivalBehavior.Heal | src/main/java/com/minecraftagent/behaviors/SurvivalBehavior.java:248-267 | tries the healing items; the threat check runs as `Check` says, within 2000 ms or with a fresh scan; goes home exactly when a threat is then remembered |
| Survival.SurvivalBehavior.Cure | src/main/java/com/minecraftagent/behaviors/SurvivalBehavior.java:343-357 | tries milk; without poison or wither nothing else happens and the threat state is kept; with either, the threat check runs as `Check` says and healing follows, going home exactly when a threat is then remembered |
| Survival.SurvivalBehavior.Tend | src/main/java/com/minecraftagent/behaviors/SurvivalBehavior.java:96-112 | healing, eating and curing after no threat response: the threat check runs once if the agent is hurt, poisoned or withered; the food check time moves when due; the actions are those of `Care` |
| Survival.SurvivalBehavior.OnUpdate | src/main/java/com/minecraftagent/behaviors/SurvivalBehavior.java:78-113 | at or below the flee threshold only flight and nothing changes; a threat response ends the update with the threat kept; otherwise a dead threat is forgotten, the threats are checked once when healing happens, the food check time moves, and the actions are those of `Care` in the order heal, eat, cure |

## Left out

- Floating-point movement is not modelled. This covers walking, path finding, jumping, the builder's `moveTowards`, and the flee direction of the survival behavior. A walk or a flight is recorded as an action with its target.
- Bukkit scheduling, entity spawning and teleporting are outside the model. So are the status display, the logger, the chat command, the plugin bootstrap, the configuration wrapper, the database and the listeners.
- The configuration defaults are constants in the model: the priorities and the survival thresholds.
- The source draws the building kind and the twenty flat-area offsets at random. The model takes them as parameters.
- The source reads the system clock several times in one tick. The model uses one value `now` per call.
- The agent's behavior manager, display, world knowledge and main task are separate objects in the model. Starting, stopping and respawning an agent change only its flags. Whether bringing up the subsystems throws is a parameter.
- The agent's `updateStatus` health arithmetic is not modelled. Nor are the world-knowledge update, the inventory statistics, the inventory contents copy and `getBuildingMaterials`.
- The gathering and exploration behaviors are empty in the source. They appear only as registered kinds whose `canExecute` answer is an input.
- The survival item use, weapon choice and movement are stubs in the source that never succeed. The model records the attempts as actions.
- Survival.Nearest: the source starts from `Double.MAX_VALUE`, so an entity at that distance or beyond is never chosen. The model has no such bound.
- Blocks.InventoryStore.AddItem: 32-bit overflow of counts is not modelled. Counts are unbounded integers.
- Lifecycle.BaseBehavior.RunningTime: 64-bit overflow of time stamps is not modelled.
- Blocks.InventoryStore.CraftItem: the requested amount is ignored, as in the source. One batch is crafted.
- Blocks.InventoryStore.RemoveItem: the source creates an empty inventory on first lookup. The model treats a missing inventory as empty.
- Arbitration.BehaviorManager.Update: the behaviors' own `onUpdate` effects are not modelled.
- Arbitration.BehaviorManager.Update: the trace records only stops and starts. Exceptions from `update` are swallowed in the source, so they cannot change the flags.
- Materials.World.SetBlock: the column tops are a snapshot input; placing or mining a block does not update them, so the spawn search after the builder's placing or mining reads the tops as they were.
- Building.BuildingProject.constructor: plans are held as integer offsets from the base, not as locations.
- Building.BuildingBehavior.constructor: the source writes the scan radii 8 and 10 as literals at the two scan calls. The model holds them as constants of the behavior, fixed by the constructor.
- Agents.MinecraftAgent.Tick: the model covers only runs while the agent is active. Stopping the agent cancels its main task.
