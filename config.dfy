/**
 * The voice agent's configuration: keywords that bias transcription,
 * commands (with agent allow-lists and aliases) and agents (with their
 * auto-generated trigger phrases). Python's insertion-ordered dicts are
 * sequences of records whose names are the dict keys.
 */
module Config {
  import opened Wrappers
  import opened Text

  /** A command; an empty `agents` list makes it available to every agent. */
  datatype CommandConfig = CommandConfig(name: string, agents: seq<string>, silent: bool, aliases: seq<string>)

  /** An agent: its name, the directory it works in, and the phrases that select it. */
  datatype AgentConfig = AgentConfig(name: string, path: string, triggers: seq<string>)

  datatype VoiceAgentConfig = VoiceAgentConfig(
    keywords: seq<string>,
    commands: seq<CommandConfig>,
    agents: seq<AgentConfig>)

  /** The configuration used when no configuration file exists. */
  const EmptyConfig := VoiceAgentConfig([], [], [])

  /** Dict keys are unique: no two commands and no two agents share a name. */
  predicate UniqueNames(config: VoiceAgentConfig) {
    && (forall i, j :: 0 <= i < j < |config.commands| ==> config.commands[i].name != config.commands[j].name)
    && (forall i, j :: 0 <= i < j < |config.agents| ==> config.agents[i].name != config.agents[j].name)
  }

  // ---------------------------------------------------------------- the parsed YAML file

  /** One entry under `commands:`; an absent key is `None`. */
  datatype RawCommand = RawCommand(agents: Option<seq<string>>, silent: Option<bool>, aliases: Option<seq<string>>)

  /** One entry under `agents:`; `path` is mandatory. */
  datatype RawAgent = RawAgent(path: string)

  /** The parsed YAML document; an absent top-level key is `None`. */
  datatype RawConfig = RawConfig(
    keywords: Option<seq<string>>,
    commands: Option<seq<(string, RawCommand)>>,
    agents: Option<seq<(string, RawAgent)>>)

  predicate UniqueKeys<V>(entries: seq<(string, V)>) {
    forall i, j :: 0 <= i < j < |entries| ==> entries[i].0 != entries[j].0
  }

  /** The loaded sections are dicts, so their keys are unique (a repeated YAML key keeps its last value). */
  predicate RawWellFormed(raw: RawConfig) {
    && (raw.commands.Some? ==> UniqueKeys(raw.commands.value))
    && (raw.agents.Some? ==> UniqueKeys(raw.agents.value))
  }

  /**
   * The trigger phrases of an agent: always "{name} agent", and for a
   * hyphenated name also the variant with spaces for hyphens.
   */
  function Triggers(name: string): (ts: seq<string>)
    ensures 1 <= |ts| <= 2
    ensures ts[0] == name + " agent"
    ensures |ts| == 2 <==> '-' in name
    ensures |ts| == 2 ==> ts[1] == Replace(name, '-', ' ') + " agent"
    ensures forall t :: t in ts ==> |t| >= 6 && t[|t| - 6..] == " agent"
  {
    [name + " agent"] + if '-' in name then [Replace(name, '-', ' ') + " agent"] else []
  }

  /** The two trigger phrases of a hyphenated agent are different phrases. */
  lemma TriggersDistinct(name: string)
    ensures |Triggers(name)| == 2 ==> Triggers(name)[0] != Triggers(name)[1]
  {
    var ts := Triggers(name);
    if |ts| == 2 {
      var k := IndexOf(name, '-');
      assert ts[0][k] == '-';
      assert ts[1][k] == ' ';
    }
  }

  function LoadCommand(entry: (string, RawCommand)): CommandConfig {
    CommandConfig(
      entry.0,
      entry.1.agents.GetOr([]),
      entry.1.silent.GetOr(false),
      entry.1.aliases.GetOr([]))
  }

  function LoadAgent(entry: (string, RawAgent)): AgentConfig {
    AgentConfig(entry.0, entry.1.path, Triggers(entry.0))
  }

  /**
   * `load_agents_config`: no file gives the empty configuration; otherwise
   * every entry keeps its key as its name and its position, absent fields
   * take their defaults, and every agent gets its generated triggers.
   */
  function LoadAgentsConfig(file: Option<RawConfig>): (config: VoiceAgentConfig)
    requires file.Some? ==> RawWellFormed(file.value)
    ensures file.None? ==> config == EmptyConfig
    ensures file.Some? ==> config.keywords == file.value.keywords.GetOr([])
    ensures file.Some? ==>
      var raw := file.value.commands.GetOr([]);
      && |config.commands| == |raw|
      && forall i :: 0 <= i < |raw| ==>
           && config.commands[i].name == raw[i].0
           && config.commands[i].agents == raw[i].1.agents.GetOr([])
           && config.commands[i].silent == (raw[i].1.silent == Some(true))
           && config.commands[i].aliases == raw[i].1.aliases.GetOr([])
    ensures file.Some? ==>
      var raw := file.value.agents.GetOr([]);
      && |config.agents| == |raw|
      && forall i :: 0 <= i < |raw| ==>
           && config.agents[i].name == raw[i].0
           && config.agents[i].path == raw[i].1.path
           && config.agents[i].triggers == Triggers(raw[i].0)
    ensures UniqueNames(config)
  {
    match file
    case None => EmptyConfig
    case Some(raw) =>
      var commands := raw.commands.GetOr([]);
      var agents := raw.agents.GetOr([]);
      VoiceAgentConfig(
        raw.keywords.GetOr([]),
        seq(|commands|, i requires 0 <= i < |commands| => LoadCommand(commands[i])),
        seq(|agents|, i requires 0 <= i < |agents| => LoadAgent(agents[i])))
  }
}
