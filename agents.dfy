/**
 * Keyword routing: which agent, which command and which residual message a
 * transcribed utterance carries, judged from its first `windowSize` words;
 * and the allow-list check of a command against an agent.
 */
module Agents {
  import opened Wrappers
  import opened Text
  import opened Config

  /** The word that turns an utterance into an agent request. */
  const AgentKeyword: string := "agent"

  /** The scan window the request handler uses. */
  const DefaultWindowSize: int := 5

  /**
   * The outcome of routing. `agentName == None` with `hasAgentKeyword`
   * means "the default agent"; without it, no agent request was made.
   */
  datatype ExtractionResult = ExtractionResult(
    hasAgentKeyword: bool,
    agentName: Option<string>,
    command: Option<string>,
    message: string)

  // ---------------------------------------------------------------- specification

  /** The lowercased words of the utterance. */
  function Words(text: string): seq<string> {
    Split(Lower(text))
  }

  /** The scan window: Python's `words[:window_size]`. */
  function Window(text: string, windowSize: int): seq<string> {
    PyPrefix(Words(text), windowSize)
  }

  /** The agent's name, or its name with hyphens as spaces, occurs in the window text. */
  predicate AgentMentioned(agent: AgentConfig, windowText: string) {
    Contains(windowText, agent.name) || Contains(windowText, Replace(agent.name, '-', ' '))
  }

  /**
   * The agent loop of the router, resumed with `found` recorded so far: each
   * mentioned agent is recorded, and the loop stops once the recorded name
   * is non-empty (an empty name is falsy and does not stop it).
   */
  function ScanAgents(agents: seq<AgentConfig>, windowText: string, found: Option<string>): Option<string>
    decreases |agents|
  {
    if agents == [] then found
    else
      var found' := if AgentMentioned(agents[0], windowText) then Some(agents[0].name) else found;
      if found'.Some? && found'.value != "" then found' else ScanAgents(agents[1..], windowText, found')
  }

  /** An empty allow-list admits every agent; otherwise the agent must be listed. */
  predicate CommandAllowed(cmd: CommandConfig, agent: Option<string>) {
    cmd.agents == [] || (agent.Some? && agent.value in cmd.agents)
  }

  /** The command's name or one of its aliases is a whole word of the window. */
  predicate CommandSpoken(cmd: CommandConfig, window: seq<string>) {
    cmd.name in window || exists a :: a in cmd.aliases && a in window
  }

  /** The command loop of the router, resumed with `found` recorded so far. */
  function ScanCommands(commands: seq<CommandConfig>, agent: Option<string>, window: seq<string>, found: Option<string>): Option<string>
    decreases |commands|
  {
    if commands == [] then found
    else
      var found' := if CommandAllowed(commands[0], agent) && CommandSpoken(commands[0], window)
                    then Some(commands[0].name) else found;
      if found'.Some? && found'.value != "" then found' else ScanCommands(commands[1..], agent, window, found')
  }

  /** The word is the command's name or one of its aliases. */
  predicate NamesCommand(cmd: CommandConfig, word: string) {
    word == cmd.name || word in cmd.aliases
  }

  /** A command name or alias, whatever its allow-list. */
  predicate IsCommandWord(word: string, commands: seq<CommandConfig>) {
    exists k :: 0 <= k < |commands| && NamesCommand(commands[k], word)
  }

  /** The words of an agent's name with hyphens read as spaces. */
  function AgentNameWords(name: string): seq<string> {
    Split(Replace(name, '-', ' '))
  }

  /** The word is a piece of the agent's hyphen-split name, or the whole name. */
  predicate NamesAgent(agent: AgentConfig, word: string) {
    word in AgentNameWords(agent.name) || word == agent.name
  }

  /** A piece of some agent's name, or a whole agent name. */
  predicate IsAgentNameWord(word: string, agents: seq<AgentConfig>)
    decreases |agents|
  {
    agents != [] && (NamesAgent(agents[0], word) || IsAgentNameWord(word, agents[1..]))
  }

  /** A word that counts as a keyword position for the residual message. */
  predicate IsKeyword(word: string, config: VoiceAgentConfig) {
    word == AgentKeyword || IsCommandWord(word, config.commands) || IsAgentNameWord(word, config.agents)
  }

  /** The greatest index of a keyword in the window, if there is one. */
  function LastKeyword(window: seq<string>, config: VoiceAgentConfig): (r: Option<nat>)
    ensures r.None? <==> forall j :: 0 <= j < |window| ==> !IsKeyword(window[j], config)
    ensures r.Some? ==> r.value < |window| && IsKeyword(window[r.value], config)
    ensures r.Some? ==> forall j :: r.value < j < |window| ==> !IsKeyword(window[j], config)
  {
    if window == [] then None
    else if IsKeyword(window[|window| - 1], config) then Some(|window| - 1)
    else
      var r := LastKeyword(window[..|window| - 1], config);
      assert forall j :: 0 <= j < |window| - 1 ==> window[..|window| - 1][j] == window[j];
      r
  }

  /** The positions the router records, in order and with repetitions. */
  function KeywordPositionsOf(window: seq<string>, config: VoiceAgentConfig): seq<nat>
    decreases |window|
  {
    if window == [] then []
    else
      var p := |window| - 1;
      var word := window[p];
      KeywordPositionsOf(window[..p], config)
        + (if word == AgentKeyword then [p] else [])
        + (if IsCommandWord(word, config.commands) then [p] else [])
        + (if IsAgentNameWord(word, config.agents) then [p] else [])
  }

  /**
   * The greatest recorded position is the last keyword of the window, and
   * nothing is recorded exactly when the window holds no keyword.
   */
  lemma {:induction false} MaxPositionIsLastKeyword(window: seq<string>, config: VoiceAgentConfig)
    ensures forall x :: x in KeywordPositionsOf(window, config) ==> x < |window|
    ensures KeywordPositionsOf(window, config) == [] <==> LastKeyword(window, config).None?
    ensures LastKeyword(window, config).Some? ==>
      && LastKeyword(window, config).value in KeywordPositionsOf(window, config)
      && forall x :: x in KeywordPositionsOf(window, config) ==> x <= LastKeyword(window, config).value
    decreases |window|
  {
    if window != [] {
      var p := |window| - 1;
      MaxPositionIsLastKeyword(window[..p], config);
    }
  }

  /** What `extract_keywords_from_window` returns. */
  function Extract(text: string, config: VoiceAgentConfig, windowSize: int): (r: ExtractionResult)
    ensures r.hasAgentKeyword <==> AgentKeyword in Window(text, windowSize)
    ensures !r.hasAgentKeyword ==> r.agentName.None? && r.command.None? && r.message == text
  {
    var words := Words(text);
    var window := PyPrefix(words, windowSize);
    if AgentKeyword !in window then ExtractionResult(false, None, None, text)
    else
      var agent := ScanAgents(config.agents, Join(" ", window), None);
      var command := ScanCommands(config.commands, agent, window, None);
      var message := match LastKeyword(window, config)
        case Some(k) => Join(" ", words[k + 1..])
        case None => text;
      ExtractionResult(true, agent, command, message)
  }

  // ---------------------------------------------------------------- the router

  function MaxOf(s: seq<nat>): (m: nat)
    requires s != []
    ensures m in s && forall x :: x in s ==> x <= m
  {
    if |s| == 1 then s[0]
    else
      var m := MaxOf(s[1..]);
      assert forall x :: x in s ==> x == s[0] || x in s[1..];
      if s[0] > m then s[0] else m
  }

  /** The agent loop of `extract_keywords_from_window`. */
  method FindAgentInWindow(agents: seq<AgentConfig>, windowText: string) returns (agentName: Option<string>)
    ensures agentName == ScanAgents(agents, windowText, None)
  {
    agentName := None;
    var i := 0;
    while i < |agents|
      invariant 0 <= i <= |agents|
      invariant agentName == None || agentName == Some("")
      invariant ScanAgents(agents[i..], windowText, agentName) == ScanAgents(agents, windowText, None)
    {
      var agent := agents[i];
      var variants := [agent.name, Replace(agent.name, '-', ' ')];
      ghost var before := agentName;
      for j := 0 to |variants|
        invariant agentName == before
        invariant forall k :: 0 <= k < j ==> !Contains(windowText, variants[k])
      {
        if Contains(windowText, variants[j]) {
          agentName := Some(agent.name);
          break;
        }
      }
      assert AgentMentioned(agent, windowText) <==> Contains(windowText, variants[0]) || Contains(windowText, variants[1]);
      assert agentName == if AgentMentioned(agent, windowText) then Some(agent.name) else before;
      assert agents[i..][0] == agent && agents[i..][1..] == agents[i + 1..];
      if agentName.Some? && agentName.value != "" {
        break;
      }
      i := i + 1;
    }
  }

  /** The command loop of `extract_keywords_from_window`. */
  method FindCommandInWindow(commands: seq<CommandConfig>, agentName: Option<string>, window: seq<string>)
    returns (command: Option<string>)
    ensures command == ScanCommands(commands, agentName, window, None)
  {
    command := None;
    var i := 0;
    while i < |commands|
      invariant 0 <= i <= |commands|
      invariant command == None || command == Some("")
      invariant ScanCommands(commands[i..], agentName, window, command) == ScanCommands(commands, agentName, window, None)
    {
      var cmd := commands[i];
      assert commands[i..][0] == cmd && commands[i..][1..] == commands[i + 1..];
      if cmd.agents != [] && (agentName.None? || agentName.value !in cmd.agents) {
        i := i + 1;
        continue;
      }
      var allNames := [cmd.name] + cmd.aliases;
      ghost var before := command;
      for j := 0 to |allNames|
        invariant command == before
        invariant forall k :: 0 <= k < j ==> allNames[k] !in window
      {
        if allNames[j] in window {
          command := Some(cmd.name);
          break;
        }
      }
      assert CommandSpoken(cmd, window) <==> exists k :: 0 <= k < |allNames| && allNames[k] in window by {
        assert allNames[0] == cmd.name;
        forall a | a in cmd.aliases
          ensures exists k :: 0 <= k < |allNames| && allNames[k] == a
        {
          var k :| 0 <= k < |cmd.aliases| && cmd.aliases[k] == a;
          assert allNames[k + 1] == a;
        }
        assert forall k :: 1 <= k < |allNames| ==> allNames[k] in cmd.aliases;
      }
      assert command == if CommandSpoken(cmd, window) then Some(cmd.name) else before;
      if command.Some? && command.value != "" {
        break;
      }
      i := i + 1;
    }
  }

  /** The inner command loop of the keyword-position scan: is `word` a command name or alias? */
  method MatchesCommandWord(word: string, commands: seq<CommandConfig>) returns (found: bool)
    ensures found == IsCommandWord(word, commands)
  {
    found := false;
    for c := 0 to |commands|
      invariant forall k :: 0 <= k < c ==> !NamesCommand(commands[k], word)
    {
      var cmd := commands[c];
      if word == cmd.name || word in cmd.aliases {
        assert NamesCommand(commands[c], word);
        found := true;
        break;
      }
    }
  }

  /** The inner agent loop of the keyword-position scan: is `word` part of an agent name? */
  method MatchesAgentNameWord(word: string, agents: seq<AgentConfig>) returns (found: bool)
    ensures found == IsAgentNameWord(word, agents)
  {
    found := false;
    for a := 0 to |agents|
      invariant IsAgentNameWord(word, agents) == IsAgentNameWord(word, agents[a..])
    {
      assert agents[a..][0] == agents[a] && agents[a..][1..] == agents[a + 1..];
      var agentName := agents[a].name;
      var agentWords := Split(Replace(agentName, '-', ' '));
      if word in agentWords || word == agentName {
        found := true;
        break;
      }
    }
  }

  /**
   * The keyword-position loop of `extract_keywords_from_window`: the index
   * of each word, recorded once for each of the three tests it passes.
   */
  method KeywordPositions(window: seq<string>, config: VoiceAgentConfig) returns (positions: seq<nat>)
    ensures positions == KeywordPositionsOf(window, config)
  {
    positions := [];
    for p := 0 to |window|
      invariant positions == KeywordPositionsOf(window[..p], config)
    {
      assert window[..p + 1][..p] == window[..p];
      var word := window[p];
      if word == AgentKeyword {
        positions := positions + [p];
      }
      var isCommand := MatchesCommandWord(word, config.commands);
      if isCommand {
        positions := positions + [p];
      }
      var isAgent := MatchesAgentNameWord(word, config.agents);
      if isAgent {
        positions := positions + [p];
      }
    }
    assert window[..|window|] == window;
  }

  /**
   * `extract_keywords_from_window`: a scan of the window for "agent", then
   * the agent loop, the command loop and the keyword positions.
   */
  method ExtractKeywordsFromWindow(text: string, config: VoiceAgentConfig, windowSize: int)
    returns (result: ExtractionResult)
    ensures result == Extract(text, config, windowSize)
  {
    var words := Split(Lower(text));
    var window := PyPrefix(words, windowSize);
    if AgentKeyword !in window {
      return ExtractionResult(false, None, None, text);
    }
    var windowText := Join(" ", window);
    var agentName := FindAgentInWindow(config.agents, windowText);
    var command := FindCommandInWindow(config.commands, agentName, window);
    var positions := KeywordPositions(window, config);
    MaxPositionIsLastKeyword(window, config);
    var message := text;
    if positions != [] {
      var last := MaxOf(positions);
      MaxOfPositions(window, config);
      message := Join(" ", words[last + 1..]);
    }
    result := ExtractionResult(true, agentName, command, message);
  }

  /** The largest recorded position is the last keyword. */
  lemma MaxOfPositions(window: seq<string>, config: VoiceAgentConfig)
    requires KeywordPositionsOf(window, config) != []
    ensures LastKeyword(window, config).Some?
    ensures MaxOf(KeywordPositionsOf(window, config)) == LastKeyword(window, config).value
  {
    MaxPositionIsLastKeyword(window, config);
  }

  // ---------------------------------------------------------------- allow-list

  /** The first command with the given name, as a dict lookup. */
  function FindCommand(commands: seq<CommandConfig>, name: string): (r: Option<CommandConfig>)
    ensures r.Some? ==> r.value in commands && r.value.name == name
    ensures r.None? <==> forall c :: c in commands ==> c.name != name
  {
    if commands == [] then None
    else if commands[0].name == name then Some(commands[0])
    else FindCommand(commands[1..], name)
  }

  /** `get_command_for_agent`: the command when it exists and admits the agent. */
  function GetCommandForAgent(commandName: string, agentName: Option<string>, config: VoiceAgentConfig)
    : (r: Option<CommandConfig>)
    ensures r.Some? ==> r.value in config.commands && r.value.name == commandName
    ensures r.Some? ==> r.value.agents == [] || (agentName.Some? && agentName.value in r.value.agents)
    ensures (forall c :: c in config.commands ==> c.name != commandName) ==> r.None?
    ensures UniqueNames(config) ==>
      (r.Some? <==> exists c :: c in config.commands && c.name == commandName && CommandAllowed(c, agentName))
  {
    match FindCommand(config.commands, commandName)
    case None => None
    case Some(cmd) => if CommandAllowed(cmd, agentName) then Some(cmd) else None
  }

  // ---------------------------------------------------------------- properties

  /** Without "agent" among the window words the utterance is passed through untouched. */
  lemma NoAgentKeywordPassesThrough(text: string, config: VoiceAgentConfig, windowSize: int)
    requires AgentKeyword !in Window(text, windowSize)
    ensures Extract(text, config, windowSize) == ExtractionResult(false, None, None, text)
  {
  }

  /**
   * The agent loop picks the first mentioned agent with a non-empty name; an
   * agent with an empty name is mentioned by every window and yields `Some("")`
   * only when no named agent is mentioned.
   */
  lemma {:induction false} ScanAgentsFirstMatch(agents: seq<AgentConfig>, t: string, found: Option<string>)
    requires found == None || found == Some("")
    ensures var r := ScanAgents(agents, t, found);
      && (r.None? <==> found.None? && forall a :: a in agents ==> !AgentMentioned(a, t))
      && (r.Some? && r.value != "" ==>
            exists i :: 0 <= i < |agents| && agents[i].name == r.value && AgentMentioned(agents[i], t)
              && forall j :: 0 <= j < i ==> !(AgentMentioned(agents[j], t) && agents[j].name != ""))
      && (r == Some("") ==> forall a :: a in agents && AgentMentioned(a, t) ==> a.name == "")
    decreases |agents|
  {
    if agents != [] {
      var found' := if AgentMentioned(agents[0], t) then Some(agents[0].name) else found;
      if !(found'.Some? && found'.value != "") {
        ScanAgentsFirstMatch(agents[1..], t, found');
        var r := ScanAgents(agents, t, found);
        assert r == ScanAgents(agents[1..], t, found');
        assert forall a :: a in agents ==> a == agents[0] || a in agents[1..];
        if r.Some? && r.value != "" {
          var i :| 0 <= i < |agents[1..]| && agents[1..][i].name == r.value && AgentMentioned(agents[1..][i], t)
            && forall j :: 0 <= j < i ==> !(AgentMentioned(agents[1..][j], t) && agents[1..][j].name != "");
          assert agents[i + 1] == agents[1..][i];
          forall j | 0 <= j < i + 1 ensures !(AgentMentioned(agents[j], t) && agents[j].name != "") {
            if j > 0 { assert agents[j] == agents[1..][j - 1]; }
          }
        }
      }
    }
  }

  /**
   * The command loop records the canonical name of a command that admits the
   * resolved agent and whose name or an alias is a window word; with no such
   * command it records nothing.
   */
  lemma {:induction false} ScanCommandsMatch(commands: seq<CommandConfig>, agent: Option<string>, window: seq<string>, found: Option<string>)
    requires found == None || found == Some("")
    ensures var r := ScanCommands(commands, agent, window, found);
      && (r.None? <==> found.None? && forall c :: c in commands ==> !(CommandAllowed(c, agent) && CommandSpoken(c, window)))
      && (r.Some? && r.value != "" ==>
            exists i :: 0 <= i < |commands| && FirstNamedHitAt(commands, agent, window, i, r.value))
      && (r.Some? && r.value == "" ==>
            found == Some("") || exists c :: c in commands && c.name == "" && CommandAllowed(c, agent) && CommandSpoken(c, window))
    decreases |commands|
  {
    if commands != [] {
      var c0 := commands[0];
      var found' := if CommandAllowed(c0, agent) && CommandSpoken(c0, window) then Some(c0.name) else found;
      var r := ScanCommands(commands, agent, window, found);
      assert forall c :: c in commands ==> c == c0 || c in commands[1..];
      if !(found'.Some? && found'.value != "") {
        ScanCommandsMatch(commands[1..], agent, window, found');
        assert r == ScanCommands(commands[1..], agent, window, found');
        if r.Some? && r.value != "" {
          var i :| 0 <= i < |commands[1..]| && FirstNamedHitAt(commands[1..], agent, window, i, r.value);
          FirstNamedHitShift(commands, agent, window, i, r.value);
        }
      } else {
        assert FirstNamedHitAt(commands, agent, window, 0, r.value);
      }
    }
  }

  /**
   * `commands[i]` is named `name`, allowed and spoken, and no earlier
   * command with a name is.
   */
  predicate FirstNamedHitAt(commands: seq<CommandConfig>, agent: Option<string>, window: seq<string>, i: nat, name: string)
    requires i < |commands|
  {
    && commands[i].name == name
    && CommandAllowed(commands[i], agent) && CommandSpoken(commands[i], window)
    && forall j :: 0 <= j < i ==> !(CommandAllowed(commands[j], agent) && CommandSpoken(commands[j], window) && commands[j].name != "")
  }

  /** A first named hit in the tail, behind a head that is no named hit, is one in the whole list. */
  lemma FirstNamedHitShift(commands: seq<CommandConfig>, agent: Option<string>, window: seq<string>, i: nat, name: string)
    requires i + 1 < |commands|
    requires !(CommandAllowed(commands[0], agent) && CommandSpoken(commands[0], window) && commands[0].name != "")
    requires FirstNamedHitAt(commands[1..], agent, window, i, name)
    ensures FirstNamedHitAt(commands, agent, window, i + 1, name)
  {
    assert commands[i + 1] == commands[1..][i];
    forall j | 0 <= j < i + 1
      ensures !(CommandAllowed(commands[j], agent) && CommandSpoken(commands[j], window) && commands[j].name != "")
    {
      if j > 0 { assert commands[j] == commands[1..][j - 1]; }
    }
  }

  /**
   * A recognised command is always one the handler will accept: looking its
   * canonical name up for the resolved agent finds it.
   */
  lemma ExtractedCommandIsAvailable(text: string, config: VoiceAgentConfig, windowSize: int)
    requires UniqueNames(config)
    ensures var r := Extract(text, config, windowSize);
      r.command.Some? ==> GetCommandForAgent(r.command.value, r.agentName, config).Some?
  {
    var r := Extract(text, config, windowSize);
    if r.command.Some? {
      var window := Window(text, windowSize);
      ScanCommandsMatch(config.commands, r.agentName, window, None);
      if r.command.value != "" {
        var i :| 0 <= i < |config.commands| && config.commands[i].name == r.command.value
          && CommandAllowed(config.commands[i], r.agentName) && CommandSpoken(config.commands[i], window);
        assert config.commands[i] in config.commands;
      } else {
        var c :| c in config.commands && c.name == "" && CommandAllowed(c, r.agentName) && CommandSpoken(c, window);
      }
    }
  }

  /** Words past the scan window never change the agent, the command or the "agent" flag. */
  lemma WindowBoundary(text1: string, text2: string, config: VoiceAgentConfig, windowSize: int)
    requires Window(text1, windowSize) == Window(text2, windowSize)
    ensures Extract(text1, config, windowSize).hasAgentKeyword == Extract(text2, config, windowSize).hasAgentKeyword
    ensures Extract(text1, config, windowSize).agentName == Extract(text2, config, windowSize).agentName
    ensures Extract(text1, config, windowSize).command == Extract(text2, config, windowSize).command
  {
  }

  /**
   * With the agent keyword present, the message is the lowercased words
   * strictly after the last keyword of the window, and it never includes
   * the "agent" word of the window or anything before it.
   */
  lemma MessageFollowsLastKeyword(text: string, config: VoiceAgentConfig, windowSize: int)
    requires AgentKeyword in Window(text, windowSize)
    ensures var r := Extract(text, config, windowSize);
      var words := Words(text);
      var window := Window(text, windowSize);
      exists k :: 0 <= k < |window| && IsKeyword(window[k], config)
        && (forall j :: k < j < |window| ==> !IsKeyword(window[j], config))
        && (forall j :: 0 <= j < |window| && window[j] == AgentKeyword ==> j <= k)
        && Split(r.message) == words[k + 1..]
  {
    var window := Window(text, windowSize);
    var words := Words(text);
    AgentWordIsKeyword(window, config);
    var k := LastKeyword(window, config).value;
    ResidualWords(text, config, windowSize);
    assert Split(Extract(text, config, windowSize).message) == words[k + 1..];
  }

  /** Every "agent" word of a window is a keyword, so the last keyword is at or after it. */
  lemma AgentWordIsKeyword(window: seq<string>, config: VoiceAgentConfig)
    requires AgentKeyword in window
    ensures LastKeyword(window, config).Some?
    ensures forall j :: 0 <= j < |window| && window[j] == AgentKeyword ==> j <= LastKeyword(window, config).value
  {
    var j0 :| 0 <= j0 < |window| && window[j0] == AgentKeyword;
    assert IsKeyword(window[j0], config);
    forall j | 0 <= j < |window| && window[j] == AgentKeyword
      ensures j <= LastKeyword(window, config).value
    {
      assert IsKeyword(window[j], config);
    }
  }

  /** The message splits back into the words after the last keyword. */
  lemma ResidualWords(text: string, config: VoiceAgentConfig, windowSize: int)
    requires AgentKeyword in Window(text, windowSize)
    requires LastKeyword(Window(text, windowSize), config).Some?
    ensures var k := LastKeyword(Window(text, windowSize), config).value;
      && k < |Words(text)|
      && Split(Extract(text, config, windowSize).message) == Words(text)[k + 1..]
  {
    var window := Window(text, windowSize);
    var words := Words(text);
    var k := LastKeyword(window, config).value;
    assert window == words[..|window|];
    var rest := words[k + 1..];
    assert forall w :: w in rest ==> w in words;
    assert Extract(text, config, windowSize).message == Join(" ", rest);
    SplitJoin(rest);
  }

  /** A name without spaces or hyphens is mentioned by a window whatever the order of its words. */
  lemma MentionedBySameWords(agent: AgentConfig, window1: seq<string>, window2: seq<string>)
    requires Elems(window1) == Elems(window2)
    requires ' ' !in agent.name && '-' !in agent.name
    ensures AgentMentioned(agent, Join(" ", window1)) == AgentMentioned(agent, Join(" ", window2))
  {
    assert Replace(agent.name, '-', ' ') == agent.name;
    if agent.name == [] {
      assert OccursAt(Join(" ", window1), agent.name, 0);
      assert OccursAt(Join(" ", window2), agent.name, 0);
    } else {
      ContainsInJoin(window1, agent.name);
      ContainsInJoin(window2, agent.name);
      assert forall w :: w in window1 <==> w in Elems(window1);
      assert forall w :: w in window2 <==> w in Elems(window2);
    }
  }

  lemma {:induction false} ScanAgentsSameMentions(agents: seq<AgentConfig>, t1: string, t2: string, found: Option<string>)
    requires forall a :: a in agents ==> AgentMentioned(a, t1) == AgentMentioned(a, t2)
    ensures ScanAgents(agents, t1, found) == ScanAgents(agents, t2, found)
    decreases |agents|
  {
    if agents != [] {
      assert agents[0] in agents;
      assert forall a :: a in agents[1..] ==> a in agents;
      var found' := if AgentMentioned(agents[0], t1) then Some(agents[0].name) else found;
      ScanAgentsSameMentions(agents[1..], t1, t2, found');
    }
  }

  lemma {:induction false} ScanCommandsSameWords(commands: seq<CommandConfig>, agent: Option<string>,
      window1: seq<string>, window2: seq<string>, found: Option<string>)
    requires Elems(window1) == Elems(window2)
    ensures ScanCommands(commands, agent, window1, found) == ScanCommands(commands, agent, window2, found)
    decreases |commands|
  {
    if commands != [] {
      assert forall w :: w in window1 <==> w in Elems(window1);
      assert forall w :: w in window2 <==> w in Elems(window2);
      assert CommandSpoken(commands[0], window1) == CommandSpoken(commands[0], window2);
      var found' := if CommandAllowed(commands[0], agent) && CommandSpoken(commands[0], window1)
                    then Some(commands[0].name) else found;
      ScanCommandsSameWords(commands[1..], agent, window1, window2, found');
    }
  }

  /**
   * Word order inside the window is irrelevant: two windows with the same
   * words select the same agent and the same command, provided no agent
   * name contains a space or a hyphen (a hyphenated name is matched as two
   * adjacent words, so for it order does matter).
   */
  lemma WordOrderIrrelevant(window1: seq<string>, window2: seq<string>, config: VoiceAgentConfig)
    requires Elems(window1) == Elems(window2)
    requires forall a :: a in config.agents ==> ' ' !in a.name && '-' !in a.name
    ensures ScanAgents(config.agents, Join(" ", window1), None) == ScanAgents(config.agents, Join(" ", window2), None)
    ensures var agent := ScanAgents(config.agents, Join(" ", window1), None);
      ScanCommands(config.commands, agent, window1, None) == ScanCommands(config.commands, agent, window2, None)
  {
    forall a | a in config.agents
      ensures AgentMentioned(a, Join(" ", window1)) == AgentMentioned(a, Join(" ", window2))
    {
      MentionedBySameWords(a, window1, window2);
    }
    ScanAgentsSameMentions(config.agents, Join(" ", window1), Join(" ", window2), None);
    ScanCommandsSameWords(config.commands, ScanAgents(config.agents, Join(" ", window1), None), window1, window2, None);
  }
}
