/** The registry of agents by name, with a capacity limit. */
module Registry {
  import opened Materials
  import opened Agents

  /** What stopping does to an agent: it is inactive afterwards, disabled
      when it was active and otherwise in the state it had. */
  twostate predicate Stopped(a: MinecraftAgent)
    reads a
  {
    && !a.isActive
    && (old(a.isActive) ==> a.state == Disabled)
    && (!old(a.isActive) ==> a.state == old(a.state))
  }

  class AgentManager {
    var agents: map<string, MinecraftAgent>
    const maxAgents: int

    /** Every agent is registered under its own name, and below capacity
        unless the registry is empty. */
    ghost predicate Valid()
      reads this, agents.Values
    {
      && (forall n :: n in agents ==> agents[n].name == n && agents[n].Valid())
      && (|agents| <= maxAgents || |agents| == 0)
    }

    constructor (maxAgents: int)
      ensures agents == map[] && this.maxAgents == maxAgents && Valid()
    {
      agents := map[];
      this.maxAgents := maxAgents;
    }

    /** Refuses when the registry is full or the name is taken; otherwise
        registers a new agent under the name and then starts it. The agent
        stays registered even when its start fails. */
    method CreateAgent(name: string, home: Location, startFails: bool) returns (a: MinecraftAgent?)
      requires Valid()
      modifies this
      ensures Valid()
      ensures |old(agents)| >= maxAgents ==> a == null && agents == old(agents)
      ensures |old(agents)| < maxAgents && name in old(agents) ==> a == null && agents == old(agents)
      ensures |old(agents)| < maxAgents && name !in old(agents) ==>
        && a != null && fresh(a) && agents == old(agents)[name := a]
        && a.name == name && a.home == home
        && a.isActive == !startFails
        && a.state == (if startFails then Disabled else Active)
    {
      if |agents| >= maxAgents {
        return null;
      }
      if name in agents {
        return null;
      }
      a := new MinecraftAgent(name, home);
      agents := agents[name := a];
      a.Start(startFails);
    }

    function GetAgent(name: string): (a: MinecraftAgent?)
      reads this
      ensures a != null <==> name in agents
      ensures a != null ==> a == agents[name]
    {
      if name in agents then agents[name] else null
    }

    function HasAgent(name: string): (b: bool)
      reads this
      ensures b <==> GetAgent(name) != null
    {
      name in agents
    }

    /** The number of registered agents that are active. */
    function ActiveAgentCount(): (n: nat)
      reads this, agents.Values
      ensures n <= |agents|
      ensures n == |set name | name in agents && agents[name].isActive|
    {
      var active := set name | name in agents && agents[name].isActive;
      assert active <= agents.Keys;
      SubsetCard(active, agents.Keys);
      |active|
    }

    /** Unknown names are refused; otherwise the agent is stopped and its
        name is no longer registered. */
    method RemoveAgent(name: string) returns (ok: bool)
      requires Valid()
      modifies this, agents.Values
      ensures Valid()
      ensures ok <==> name in old(agents)
      ensures !ok ==> agents == old(agents) && forall a :: a in old(agents).Values ==> unchanged(a)
      ensures ok ==> agents == old(agents) - {name}
      ensures ok ==> Stopped(old(agents)[name])
      ensures ok ==> forall b :: b in old(agents).Values && b != old(agents)[name] ==> unchanged(b)
    {
      if name !in agents {
        return false;
      }
      var a := agents[name];
      a.Stop();
      agents := agents - {name};
      ok := true;
    }

    /** Stops every registered agent, then forgets them all. */
    method Shutdown()
      requires Valid()
      modifies this, agents.Values
      ensures Valid() && agents == map[]
      ensures forall a :: a in old(agents).Values ==> Stopped(a) && a.Valid()
    {
      var pending := agents.Keys;
      while pending != {}
        invariant agents == old(agents)
        invariant pending <= agents.Keys
        invariant forall n :: n in pending ==>
          agents[n].isActive == old(agents[n].isActive) && agents[n].state == old(agents[n].state)
        invariant forall n :: n in agents && n !in pending ==> Stopped(agents[n])
        decreases |pending|
      {
        var n :| n in pending;
        agents[n].Stop();
        pending := pending - {n};
      }
      agents := map[];
    }
  }
}
