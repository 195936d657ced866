/** The agent registry (`AgentManager`): an insertion-ordered mapping from agent
    name to registration, kept as the key order plus a map. Registering is
    last-write-wins and keeps a re-registered name in its first position. */
module AgentManagement {
  import opened Wrappers

  datatype Skill = Skill(id: string, description: string, examples: seq<string>)

  /** The card that `card_class()` instantiates, with the class's defaults.
      A card class that declares no `host` or no `port` gives a card without
      that attribute, and reading it raises `AttributeError`. */
  datatype Card = Card(name: string, description: string, skills: seq<Skill>,
                       host: Option<string>, port: Option<int>)

  /** The agent instance a registration serves; opaque here. */
  datatype AgentHandle = AgentHandle(id: nat)

  const DefaultArtifactName: string := "response"

  datatype AgentRegistration = AgentRegistration(
    cardClass: Card,
    agentInstance: AgentHandle,
    statusMessage: string,
    artifactName: string)

  /** The arguments `create_server` passes to `create_agent_a2a_server`. */
  datatype ServerSpec = ServerSpec(
    agent: AgentHandle, name: string, description: string, skills: seq<Skill>,
    host: string, port: int, statusMessage: string, artifactName: string)

  datatype AttributeError = MissingAttribute(attribute: string)

  datatype KeyError = KeyError(message: string)

  /** One element of `get_agent_list()`: the card's name and port, and the
      registration whose bound `create_server` is the server factory. */
  datatype LaunchEntry = LaunchEntry(name: string, agent: AgentRegistration, port: int)

  /** `AgentRegistration.create_server`: the card's name, description, skills,
      host and port, with the registration's agent, status message and
      artifact name; a card without `host` (checked first) or `port` raises. */
  function CreateServer(registration: AgentRegistration): (r: Result<ServerSpec, AttributeError>)
    ensures r.Ok? <==> registration.cardClass.host.Some? && registration.cardClass.port.Some?
    ensures registration.cardClass.host.None? ==> r == Err(MissingAttribute("host"))
    ensures registration.cardClass.host.Some? && registration.cardClass.port.None? ==> r == Err(MissingAttribute("port"))
    ensures r.Ok? ==>
      && r.value.agent == registration.agentInstance
      && r.value.name == registration.cardClass.name
      && r.value.description == registration.cardClass.description
      && r.value.skills == registration.cardClass.skills
      && Some(r.value.host) == registration.cardClass.host
      && Some(r.value.port) == registration.cardClass.port
      && r.value.statusMessage == registration.statusMessage
      && r.value.artifactName == registration.artifactName
  {
    var card := registration.cardClass;
    if card.host.None? then Err(MissingAttribute("host"))
    else if card.port.None? then Err(MissingAttribute("port"))
    else Ok(ServerSpec(registration.agentInstance, card.name, card.description, card.skills,
                       card.host.value, card.port.value, registration.statusMessage, registration.artifactName))
  }

  // ------------------------------------------- the registry as a value

  /** The registry's contents: its names in insertion order and its entries. */
  datatype Registry = Registry(names: seq<string>, entries: map<string, AgentRegistration>)

  predicate NoDuplicates(s: seq<string>) {
    forall i, j | 0 <= i < j < |s| :: s[i] != s[j]
  }

  /** The names are exactly the keys, each once. */
  predicate WellFormed(r: Registry) {
    && NoDuplicates(r.names)
    && (forall n | n in r.entries :: n in r.names)
    && (forall n | n in r.names :: n in r.entries)
  }

  const EmptyRegistry: Registry := Registry([], map[])

  /** `self._registry[name] = registration`: the key set gains `name`, which
      now maps to `registration`, and the existing key order is kept as a
      prefix. */
  function Register(r: Registry, name: string, registration: AgentRegistration): (r': Registry)
    ensures r'.entries.Keys == r.entries.Keys + {name} && r'.entries[name] == registration
    ensures |r.names| <= |r'.names| <= |r.names| + 1 && r'.names[..|r.names|] == r.names
  {
    Registry(if name in r.entries then r.names else r.names + [name], r.entries[name := registration])
  }

  /** The first occurrence of each name, in order. */
  function FirstOccurrences(s: seq<string>): seq<string> {
    if s == [] then []
    else
      var d := FirstOccurrences(s[..|s| - 1]);
      if s[|s| - 1] in d then d else d + [s[|s| - 1]]
  }

  /** Registering `ops` one after the other, from an empty registry. */
  function RegisterAll(ops: seq<(string, AgentRegistration)>): Registry {
    if ops == [] then EmptyRegistry
    else Register(RegisterAll(ops[..|ops| - 1]), ops[|ops| - 1].0, ops[|ops| - 1].1)
  }

  function NamesOf(ops: seq<(string, AgentRegistration)>): seq<string> {
    seq(|ops|, i requires 0 <= i < |ops| => ops[i].0)
  }

  /** The registration of the last operation on `name`, if there is one. */
  function LastRegistration(ops: seq<(string, AgentRegistration)>, name: string): Option<AgentRegistration> {
    if ops == [] then None
    else if ops[|ops| - 1].0 == name then Some(ops[|ops| - 1].1)
    else LastRegistration(ops[..|ops| - 1], name)
  }

  /** Registering keeps the registry well formed. */
  lemma RegisterKeepsWellFormed(r: Registry, name: string, registration: AgentRegistration)
    requires WellFormed(r)
    ensures WellFormed(Register(r, name, registration))
  {
  }

  /** Registering stores exactly the given registration under `name`, leaves
      every other name and its registration as they were, and appends `name`
      to the key order only when it is new. */
  lemma RegisterOnlyTouchesName(r: Registry, name: string, registration: AgentRegistration)
    ensures var r' := Register(r, name, registration);
      && r'.entries[name] == registration
      && (forall n | n != name :: (n in r'.entries <==> n in r.entries))
      && (forall n | n != name && n in r.entries :: r'.entries[n] == r.entries[n])
      && r'.names == if name in r.entries then r.names else r.names + [name]
  {
  }

  /** Registering a name twice is registering it once with the second
      registration: the name keeps its place and the second one wins. */
  lemma ReRegisterLastWins(r: Registry, name: string, first: AgentRegistration, second: AgentRegistration)
    ensures Register(Register(r, name, first), name, second) == Register(r, name, second)
  {
  }

  /** After any sequence of registrations the names are the distinct
      registered names in order of first registration, and each name maps to
      its last registration. */
  lemma {:induction false} RegisterAllOrder(ops: seq<(string, AgentRegistration)>)
    ensures WellFormed(RegisterAll(ops))
    ensures RegisterAll(ops).names == FirstOccurrences(NamesOf(ops))
    ensures forall n :: n in RegisterAll(ops).entries <==> LastRegistration(ops, n).Some?
    ensures forall n | n in RegisterAll(ops).entries :: RegisterAll(ops).entries[n] == LastRegistration(ops, n).value
  {
    if ops != [] {
      var init := ops[..|ops| - 1];
      RegisterAllOrder(init);
      assert NamesOf(ops)[..|ops| - 1] == NamesOf(init);
      RegisterKeepsWellFormed(RegisterAll(init), ops[|ops| - 1].0, ops[|ops| - 1].1);
    }
  }

  // ------------------------------------------------------ the manager

  class AgentManager {
    /** The key order of `_registry`. */
    var names: seq<string>
    var registry: map<string, AgentRegistration>

    ghost predicate Valid()
      reads this
    {
      WellFormed(Contents())
    }

    function Contents(): Registry
      reads this
    {
      Registry(names, registry)
    }

    constructor ()
      ensures Valid() && Contents() == EmptyRegistry
    {
      names := [];
      registry := map[];
    }

    method RegisterAgent(name: string, cardClass: Card, agentInstance: AgentHandle, statusMessage: string,
                         artifactName: string := DefaultArtifactName)
      requires Valid()
      modifies this
      ensures Valid()
      ensures Contents() == Register(old(Contents()), name,
                                     AgentRegistration(cardClass, agentInstance, statusMessage, artifactName))
    {
      RegisterKeepsWellFormed(Contents(), name, AgentRegistration(cardClass, agentInstance, statusMessage, artifactName));
      if name !in registry {
        names := names + [name];
      }
      registry := registry[name := AgentRegistration(cardClass, agentInstance, statusMessage, artifactName)];
    }

    /** `get_agent_list()`: one entry per registration in registry order, the
        name and port read from the instantiated card; raises when a card has
        no `port`. */
    method GetAgentList() returns (r: Result<seq<LaunchEntry>, AttributeError>)
      requires Valid()
      ensures r.Ok? <==> forall i | 0 <= i < |names| :: registry[names[i]].cardClass.port.Some?
      ensures r.Err? ==> r.error == MissingAttribute("port")
      ensures r.Ok? ==> |r.value| == |names| && forall i | 0 <= i < |names| ::
        r.value[i] == LaunchEntry(registry[names[i]].cardClass.name, registry[names[i]],
                                  registry[names[i]].cardClass.port.value)
    {
      var agents: seq<LaunchEntry> := [];
      var i := 0;
      while i < |names|
        invariant 0 <= i <= |names|
        invariant |agents| == i
        invariant forall j | 0 <= j < i :: registry[names[j]].cardClass.port.Some?
        invariant forall j | 0 <= j < i ::
          agents[j] == LaunchEntry(registry[names[j]].cardClass.name, registry[names[j]],
                                   registry[names[j]].cardClass.port.value)
      {
        var registration := registry[names[i]];
        var card := registration.cardClass;
        if card.port.None? {
          return Err(MissingAttribute("port"));
        }
        agents := agents + [LaunchEntry(card.name, registration, card.port.value)];
        i := i + 1;
      }
      r := Ok(agents);
    }

    /** `get_agent_registration(name)`: the stored registration, or `KeyError`. */
    method GetAgentRegistration(name: string) returns (r: Result<AgentRegistration, KeyError>)
      ensures name in registry ==> r == Ok(registry[name])
      ensures name !in registry ==> r == Err(KeyError("Agent '" + name + "' not found in registry"))
    {
      if name !in registry {
        return Err(KeyError("Agent '" + name + "' not found in registry"));
      }
      r := Ok(registry[name]);
    }

    /** `list_registered_agents()`: every registered name exactly once, in
        insertion order. */
    method ListRegisteredAgents() returns (r: seq<string>)
      requires Valid()
      ensures r == names
      ensures NoDuplicates(r) && forall n :: n in r <==> n in registry
    {
      r := names;
    }
  }
}
