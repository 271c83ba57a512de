/** The survival behavior: when it wants to run, and what one update does,
    in a fixed order: flee at very low health, deal with a threat, and
    otherwise heal, eat and cure, each on its own condition.

    The agent's entity and its surroundings during one call are a value,
    `Scene`. Item use, movement and weapon choice are stubs in the source
    that never succeed or change anything; the model records which of them
    were attempted as actions. */
module Survival {
  import opened Materials

  datatype Effect = Poison | Wither | Weakness | Slowness | MiningFatigue | Nausea | Blindness | OtherEffect(id: nat)

  /** The potion effects that count as harmful. */
  const HarmfulEffects: seq<Effect> := [Poison, Wither, Weakness, Slowness, MiningFatigue, Nausea, Blindness]

  /** A nearby entity: whether it is a monster whose target is the agent,
      and whether it is a living entity that can be damaged. */
  datatype Entity = Entity(id: nat, isMonster: bool, targetsAgent: bool, isLiving: bool)

  /** The agent and its surroundings at the time of one call: whether the
      agent is valid (active, with a live entity), its health, whether its
      entity is a player and its food level, its potion effects, the
      entities around it in the order the world lists them, and each
      entity's distance from the agent and whether it is dead. */
  datatype Scene = Scene(
    agentValid: bool,
    health: real,
    isPlayer: bool,
    food: int,
    effects: set<Effect>,
    nearby: seq<Entity>,
    distance: nat -> real,
    isDead: nat -> bool)

  datatype Config = Config(healthThreshold: int, foodThreshold: int, autoDefend: bool, fleeHealthThreshold: int)

  /** The shipped defaults. */
  const DefaultConfig: Config := Config(10, 10, true, 5)

  const ThreatCheckInterval: int := 2000
  const FoodCheckInterval: int := 5000

  /** What an update attempted. */
  datatype Action = Flee | Attack(target: nat) | Approach(target: nat) | TryHeal | GoHome | TryEat | TryCure

  predicate Harmful(s: Scene) {
    exists i :: 0 <= i < |HarmfulEffects| && HarmfulEffects[i] in s.effects
  }

  predicate IsThreat(e: Entity) {
    e.isMonster && e.targetsAgent
  }

  /** The index of the nearest threat, the first listed among equally near
      ones. */
  function Nearest(es: seq<Entity>, dist: nat -> real): (r: Option<nat>)
    ensures r.None? <==> forall i :: 0 <= i < |es| ==> !IsThreat(es[i])
    ensures r.Some? ==>
      && r.value < |es| && IsThreat(es[r.value])
      && (forall i :: 0 <= i < |es| && IsThreat(es[i]) ==> dist(es[r.value].id) <= dist(es[i].id))
      && (forall i :: 0 <= i < r.value && IsThreat(es[i]) ==> dist(es[r.value].id) < dist(es[i].id))
  {
    if |es| == 0 then None
    else
      var r := Nearest(es[..|es| - 1], dist);
      var last := |es| - 1;
      assert forall i :: 0 <= i < last ==> es[..last][i] == es[i];
      if IsThreat(es[last]) && (r.None? || dist(es[last].id) < dist(es[r.value].id)) then Some(last)
      else r
  }

  /** How a threat is dealt with: no live threat, nothing; very close, or
      at low health, flee; otherwise, with auto-defence, defend against a
      threat within eight blocks by attacking it within four blocks when it
      can be damaged and approaching it otherwise. */
  function Respond(cfg: Config, threat: Option<Entity>, s: Scene): (r: Option<Action>)
    ensures r.Some? ==> threat.Some? && !s.isDead(threat.value.id)
    ensures threat.Some? && !s.isDead(threat.value.id)
            && (s.distance(threat.value.id) < 3.0 || s.health <= cfg.fleeHealthThreshold as real) ==>
      r == Some(Flee)
    ensures r.Some? && r.value != Flee ==>
      && cfg.autoDefend && 3.0 <= s.distance(threat.value.id) < 8.0
      && s.health > cfg.fleeHealthThreshold as real
      && r.value in {Attack(threat.value.id), Approach(threat.value.id)}
    ensures threat.Some? ==>
      (r == Some(Attack(threat.value.id)) <==>
         r.Some? && r.value != Flee && s.distance(threat.value.id) < 4.0 && threat.value.isLiving)
    ensures threat.Some? && !s.isDead(threat.value.id) && s.health > cfg.fleeHealthThreshold as real
            && s.distance(threat.value.id) >= 3.0 && !(cfg.autoDefend && s.distance(threat.value.id) < 8.0) ==>
      r.None?
    ensures threat.Some? && !s.isDead(threat.value.id) && s.health > cfg.fleeHealthThreshold as real
            && cfg.autoDefend && 3.0 <= s.distance(threat.value.id) < 8.0 ==>
      r.Some? && r.value != Flee
  {
    if threat.None? || s.isDead(threat.value.id) then None
    else
      var t := threat.value;
      var d := s.distance(t.id);
      if d < 3.0 || s.health <= cfg.fleeHealthThreshold as real then Some(Flee)
      else if cfg.autoDefend && d < 8.0 then
        (if d < 4.0 && t.isLiving then Some(Attack(t.id)) else Some(Approach(t.id)))
      else None
  }

  /** The scan over the nearby entities that keeps the nearest threat so
      far, replacing it only with a strictly nearer one. */
  method NearestThreat(s: Scene) returns (best: Option<nat>)
    ensures best == Nearest(s.nearby, s.distance)
  {
    best := None;
    var closest: real := 0.0;
    var i := 0;
    while i < |s.nearby|
      invariant 0 <= i <= |s.nearby|
      invariant best == Nearest(s.nearby[..i], s.distance)
      invariant best.Some? ==> best.value < i && closest == s.distance(s.nearby[best.value].id)
    {
      var e := s.nearby[i];
      if IsThreat(e) {
        var d := s.distance(e.id);
        if best.None? || d < closest {
          best := Some(i);
          closest := d;
        }
      }
      assert s.nearby[..i + 1][..i] == s.nearby[..i];
      i := i + 1;
    }
    assert s.nearby[..i] == s.nearby;
  }

  /** Poison and wither are among the harmful effects. */
  lemma PoisonIsHarmful(s: Scene)
    ensures Poison in s.effects || Wither in s.effects ==> Harmful(s)
  {
    assert HarmfulEffects[0] == Poison && HarmfulEffects[1] == Wither;
  }

  /** When threats were last looked for, and the threat remembered. */
  datatype Watch = Watch(lastCheck: int, threat: Option<Entity>)

  /** The watch after asking for threats at time `now`: within two seconds
      of the last look nothing changes; otherwise the time is stamped and
      the nearest threat, if there is one, is remembered. */
  function Check(w: Watch, now: int, s: Scene): (r: Watch)
    ensures now - w.lastCheck < ThreatCheckInterval ==> r == w
    ensures now - w.lastCheck >= ThreatCheckInterval ==>
      && r.lastCheck == now
      && (r.threat.None? <==> forall i :: 0 <= i < |s.nearby| ==> !IsThreat(s.nearby[i]))
      && (r.threat.Some? ==>
            && r.threat.value in s.nearby && IsThreat(r.threat.value)
            && forall i :: 0 <= i < |s.nearby| && IsThreat(s.nearby[i]) ==>
                 s.distance(r.threat.value.id) <= s.distance(s.nearby[i].id))
  {
    if now - w.lastCheck < ThreatCheckInterval then w
    else match Nearest(s.nearby, s.distance)
      case None => Watch(now, None)
      case Some(i) => Watch(now, Some(s.nearby[i]))
  }

  /** Asking twice at the same time is asking once. */
  lemma CheckTwice(w: Watch, now: int, s: Scene)
    ensures Check(Check(w, now, s), now, s) == Check(w, now, s)
  {
  }

  /** What the rest of an update attempts once no threat needed an
      answer: healing when hurt, eating when the five-second food check is
      due and a player is hungry, curing under a harmful effect, with a
      second round of healing under poison or wither; each round of
      healing goes home when `home`, that is when a threat is seen. */
  function Care(cfg: Config, now: int, lastFoodCheck: int, home: bool, s: Scene): (acts: seq<Action>)
    ensures Flee !in acts
    ensures forall a :: a in acts ==> !a.Attack? && !a.Approach?
    ensures TryHeal in acts <==> s.health < cfg.healthThreshold as real || Poison in s.effects || Wither in s.effects
    ensures TryEat in acts <==>
      now - lastFoodCheck >= FoodCheckInterval && s.isPlayer && s.food < cfg.foodThreshold
    ensures TryCure in acts <==> Harmful(s)
    ensures GoHome in acts <==> home && TryHeal in acts
  {
    PoisonIsHarmful(s);
    var goHome: seq<Action> := if home then [GoHome] else [];
    (if s.health < cfg.healthThreshold as real then [TryHeal] + goHome else [])
    + (if now - lastFoodCheck >= FoodCheckInterval && s.isPlayer && s.food < cfg.foodThreshold then [TryEat] else [])
    + (if Poison in s.effects || Wither in s.effects then [TryCure, TryHeal] + goHome
       else if Harmful(s) then [TryCure] else [])
  }

  class SurvivalBehavior {
    const cfg: Config
    var lastFoodCheck: int
    var lastThreatCheck: int
    var currentThreat: Option<Entity>

    constructor (cfg: Config)
      ensures this.cfg == cfg && lastFoodCheck == 0 && lastThreatCheck == 0 && currentThreat.None?
    {
      this.cfg := cfg;
      lastFoodCheck := 0;
      lastThreatCheck := 0;
      currentThreat := None;
    }

    /** The nearest threat, looked for at most once every two seconds;
        in between, the remembered threat answers. */
    method HasNearbyThreats(now: int, s: Scene) returns (found: bool)
      modifies this
      ensures lastFoodCheck == old(lastFoodCheck)
      ensures Watch(lastThreatCheck, currentThreat) == Check(Watch(old(lastThreatCheck), old(currentThreat)), now, s)
      ensures found <==> currentThreat.Some?
    {
      if now - lastThreatCheck < ThreatCheckInterval {
        return currentThreat.Some?;
      }
      lastThreatCheck := now;
      var best := NearestThreat(s);
      currentThreat := if best.None? then None else Some(s.nearby[best.value]);
      found := currentThreat.Some?;
    }

    /** Survival wants to run for a valid agent that is hurt, hungry (when
        a player), threatened or under a harmful effect. The checks run in
        that order and stop at the first that holds, so the threat scan
        happens only when health and food are fine. */
    method CanExecute(now: int, s: Scene) returns (r: bool)
      modifies this
      ensures lastFoodCheck == old(lastFoodCheck)
      ensures !s.agentValid || s.health < cfg.healthThreshold as real || (s.isPlayer && s.food < cfg.foodThreshold) ==>
        lastThreatCheck == old(lastThreatCheck) && currentThreat == old(currentThreat)
      ensures !s.agentValid ==> !r
      ensures s.agentValid && (s.health < cfg.healthThreshold as real || (s.isPlayer && s.food < cfg.foodThreshold)) ==> r
      ensures s.agentValid && !(s.health < cfg.healthThreshold as real || (s.isPlayer && s.food < cfg.foodThreshold)) ==>
        && Watch(lastThreatCheck, currentThreat) == Check(Watch(old(lastThreatCheck), old(currentThreat)), now, s)
        && (r <==> currentThreat.Some? || Harmful(s))
    {
      if !s.agentValid {
        return false;
      }
      if s.health < cfg.healthThreshold as real {
        return true;
      }
      if s.isPlayer && s.food < cfg.foodThreshold {
        return true;
      }
      var threatened := HasNearbyThreats(now, s);
      if threatened {
        return true;
      }
      return Harmful(s);
    }

    /** Forgets a missing or dead threat; otherwise responds to it. */
    method HandleThreats(s: Scene) returns (response: Option<Action>)
      modifies this
      ensures response == Respond(cfg, old(currentThreat), s)
      ensures lastFoodCheck == old(lastFoodCheck) && lastThreatCheck == old(lastThreatCheck)
      ensures currentThreat == if old(currentThreat).None? || s.isDead(old(currentThreat).value.id) then None
                               else old(currentThreat)
    {
      if currentThreat.None? || s.isDead(currentThreat.value.id) {
        currentThreat := None;
        return None;
      }
      response := Respond(cfg, currentThreat, s);
    }

    /** Hunger is checked at most once every five seconds, and only a
        player entity can be hungry. */
    method NeedsFood(now: int, s: Scene) returns (hungry: bool)
      modifies this
      ensures lastThreatCheck == old(lastThreatCheck) && currentThreat == old(currentThreat)
      ensures now - old(lastFoodCheck) < FoodCheckInterval ==> !hungry && lastFoodCheck == old(lastFoodCheck)
      ensures now - old(lastFoodCheck) >= FoodCheckInterval ==>
        lastFoodCheck == now && (hungry <==> s.isPlayer && s.food < cfg.foodThreshold)
      ensures hungry ==> s.isPlayer
    {
      if now - lastFoodCheck < FoodCheckInterval {
        return false;
      }
      lastFoodCheck := now;
      hungry := s.isPlayer && s.food < cfg.foodThreshold;
    }

    /** Healing items never succeed, so healing goes home when the agent
        is not in a safe place, that is when asking for threats (which may
        look again) finds one. */
    method Heal(now: int, s: Scene) returns (acts: seq<Action>)
      modifies this
      ensures lastFoodCheck == old(lastFoodCheck)
      ensures Watch(lastThreatCheck, currentThreat) == Check(Watch(old(lastThreatCheck), old(currentThreat)), now, s)
      ensures acts == [TryHeal] || acts == [TryHeal, GoHome]
      ensures acts == [TryHeal, GoHome] <==> currentThreat.Some?
    {
      var threatened := HasNearbyThreats(now, s);
      acts := if threatened then [TryHeal, GoHome] else [TryHeal];
    }

    /** Milk never succeeds, so curing falls back to healing against
        poison and wither. */
    method Cure(now: int, s: Scene) returns (acts: seq<Action>)
      modifies this
      ensures lastFoodCheck == old(lastFoodCheck)
      ensures Poison !in s.effects && Wither !in s.effects ==>
        acts == [TryCure] && lastThreatCheck == old(lastThreatCheck) && currentThreat == old(currentThreat)
      ensures Poison in s.effects || Wither in s.effects ==>
        && Watch(lastThreatCheck, currentThreat) == Check(Watch(old(lastThreatCheck), old(currentThreat)), now, s)
        && acts == [TryCure, TryHeal] + (if currentThreat.Some? then [GoHome] else [])
    {
      acts := [TryCure];
      if Poison in s.effects || Wither in s.effects {
        var healing := Heal(now, s);
        acts := acts + healing;
      }
    }

    /** Steps three to five of an update: heal when hurt, eat when hungry
        and cure under a harmful effect. Healing and the healing inside
        curing ask for threats at the same time, so they see the same
        threat and the threats are looked for at most once. */
    method Tend(now: int, s: Scene) returns (acts: seq<Action>)
      modifies this
      ensures
        var w := if s.health < cfg.healthThreshold as real || Poison in s.effects || Wither in s.effects
                 then Check(Watch(old(lastThreatCheck), old(currentThreat)), now, s)
                 else Watch(old(lastThreatCheck), old(currentThreat));
        && Watch(lastThreatCheck, currentThreat) == w
        && lastFoodCheck == (if now - old(lastFoodCheck) >= FoodCheckInterval then now else old(lastFoodCheck))
        && acts == Care(cfg, now, old(lastFoodCheck), w.threat.Some?, s)
    {
      ghost var poisoned := Poison in s.effects || Wither in s.effects;
      ghost var w := if s.health < cfg.healthThreshold as real || poisoned
                     then Check(Watch(lastThreatCheck, currentThreat), now, s)
                     else Watch(lastThreatCheck, currentThreat);
      ghost var goHome: seq<Action> := if w.threat.Some? then [GoHome] else [];
      CheckTwice(Watch(lastThreatCheck, currentThreat), now, s);
      PoisonIsHarmful(s);
      var healing: seq<Action> := [];
      if s.health < cfg.healthThreshold as real {
        healing := Heal(now, s);
        assert healing == [TryHeal] + goHome;
      }
      var hungry := NeedsFood(now, s);
      var eating: seq<Action> := if hungry then [TryEat] else [];
      var curing: seq<Action> := [];
      if Harmful(s) {
        curing := Cure(now, s);
      }
      assert curing == if poisoned then [TryCure, TryHeal] + goHome else if Harmful(s) then [TryCure] else [];
      acts := healing + eating + curing;
    }

    /** One update: at or below the flee threshold, flee and nothing else;
        else a handled threat ends the update; else heal, eat and cure run
        independently, each when its own condition holds. */
    method OnUpdate(now: int, s: Scene) returns (acts: seq<Action>)
      modifies this
      ensures s.health <= cfg.fleeHealthThreshold as real ==>
        acts == [Flee] && lastFoodCheck == old(lastFoodCheck)
        && lastThreatCheck == old(lastThreatCheck) && currentThreat == old(currentThreat)
      ensures s.health > cfg.fleeHealthThreshold as real && Respond(cfg, old(currentThreat), s).Some? ==>
        acts == [Respond(cfg, old(currentThreat), s).value]
        && lastFoodCheck == old(lastFoodCheck) && lastThreatCheck == old(lastThreatCheck)
        && currentThreat == old(currentThreat)
      ensures s.health > cfg.fleeHealthThreshold as real && Respond(cfg, old(currentThreat), s).None? ==>
        var live := if old(currentThreat).None? || s.isDead(old(currentThreat).value.id) then None
                    else old(currentThreat);
        var w := if s.health < cfg.healthThreshold as real || Poison in s.effects || Wither in s.effects
                 then Check(Watch(old(lastThreatCheck), live), now, s)
                 else Watch(old(lastThreatCheck), live);
        && Watch(lastThreatCheck, currentThreat) == w
        && lastFoodCheck == (if now - old(lastFoodCheck) >= FoodCheckInterval then now else old(lastFoodCheck))
        && acts == Care(cfg, now, old(lastFoodCheck), w.threat.Some?, s)
    {
      if s.health <= cfg.fleeHealthThreshold as real {
        return [Flee];
      }
      var response := HandleThreats(s);
      if response.Some? {
        return [response.value];
      }
      acts := Tend(now, s);
    }
  }
}
