/**
 * The routing decisions of the request handler and the agent endpoints,
 * lifted out of their HTTP handlers: the research topic slug, the sticky
 * agent switch, the text forwarded after a bare agent switch, the undo
 * flow, the conversations directory, and the agent list and switch.
 */
module Routing {
  import opened Wrappers
  import opened Text
  import opened Config
  import opened Agents
  import opened Session
  import opened Commands

  // ---------------------------------------------------------------- research slug

  /** The characters a slug keeps: ASCII letters, digits and '-'. */
  predicate SlugChar(c: char) {
    IsAlnum(c) || c == '-'
  }

  /** The generator that drops every character that is not a slug character. */
  function KeepSlugChars(s: string): (r: string)
    ensures forall k :: 0 <= k < |r| ==> SlugChar(r[k])
    ensures forall c :: c in r ==> c in s
    ensures forall c :: c in s && SlugChar(c) ==> c in r
    ensures |r| <= |s|
  {
    if s == [] then []
    else (if SlugChar(s[0]) then [s[0]] else []) + KeepSlugChars(s[1..])
  }

  /** The filter keeps characters in their order: it works on each part of a concatenation. */
  lemma {:induction false} KeepSlugCharsAppend(a: string, b: string)
    ensures KeepSlugChars(a + b) == KeepSlugChars(a) + KeepSlugChars(b)
  {
    if a != [] {
      assert (a + b)[1..] == a[1..] + b;
      KeepSlugCharsAppend(a[1..], b);
    } else {
      assert a + b == b;
    }
  }

  /** The words the slug is built from: the first five of the lower-cased message. */
  function SlugWords(message: string): (words: seq<string>)
    ensures var all := Split(Lower(message));
      && |words| == (if |all| < 5 then |all| else 5)
      && words == all[..|words|]
  {
    PyPrefix(Split(Lower(message)), 5)
  }

  /**
   * The topic slug for a research request: the first five lower-cased
   * words joined by '-', reduced to slug characters, with '-' stripped
   * from both ends.
   */
  function ResearchSlug(message: string): (slug: string)
    ensures forall k :: 0 <= k < |slug| ==> SlugChar(slug[k])
    ensures slug != [] ==> slug[0] != '-' && slug[|slug| - 1] != '-'
    ensures forall c :: c in slug ==> c in Join("-", SlugWords(message))
    ensures forall c :: c in Join("-", SlugWords(message)) && IsAlnum(c) ==> c in slug
  {
    var slug := StripChar(KeepSlugChars(Join("-", SlugWords(message))), '-');
    assert forall k :: 0 <= k < |slug| ==> slug[k] in slug;
    slug
  }

  /** Words after the fifth do not change the slug. */
  lemma SlugIgnoresLaterWords(message: string, more: string)
    requires |Split(Lower(message))| >= 5
    ensures ResearchSlug(message + " " + more) == ResearchSlug(message)
  {
    LowerAppend(message, " " + more);
    LowerAppend(" ", more);
    assert message + " " + more == message + (" " + more);
    assert Lower(" ") == " ";
    assert Lower(message + " " + more) == Lower(message) + " " + Lower(more);
    SplitAppend(Lower(message), Lower(more));
    var w := Split(Lower(message));
    assert (w + Split(Lower(more)))[..5] == w[..5];
  }

  // ---------------------------------------------------------------- sticky switch and forwarding

  /**
   * The sticky agent switch: the current agent is loaded from the session;
   * an utterance with the agent keyword makes its extracted agent current
   * (`None` is the default agent), and the session is written only when
   * that changes the loaded agent.
   */
  method StickySwitch(store: SessionStore, extraction: ExtractionResult) returns (current: Option<string>)
    modifies store
    ensures extraction.hasAgentKeyword ==> current == extraction.agentName
    ensures !extraction.hasAgentKeyword ==> current == CurrentAgentOf(old(store.file))
    ensures CurrentAgentOf(store.file) == current
    ensures store.file ==
      if extraction.hasAgentKeyword && extraction.agentName != CurrentAgentOf(old(store.file))
      then WithCurrentAgent(old(store.file), extraction.agentName)
      else old(store.file)
  {
    current := store.LoadCurrentAgent();
    if extraction.hasAgentKeyword {
      if extraction.agentName != current {
        store.SaveCurrentAgent(extraction.agentName);
        current := extraction.agentName;
      }
    }
  }

  /**
   * What is sent on after an agent switch without a command: the residual
   * message, or the whole transcription when nothing followed the keywords.
   */
  function ForwardedText(transcription: string, message: string): (text: string)
    ensures message != "" ==> text == message
    ensures message == "" ==> text == transcription
    ensures transcription != "" ==> text != ""
  {
    if message != "" then message else transcription
  }

  // ---------------------------------------------------------------- undo

  /**
   * The undo command: when a last command is recorded its undo runs on the
   * workspace and the record is cleared; with none, nothing changes.
   * Either way nothing is left to undo afterwards.
   */
  method UndoFlow(store: SessionStore, workspace: Workspace, month: string)
    modifies store, workspace
    ensures LastCommandOf(old(store.file)).Some? ==>
      var last := LastCommandOf(old(store.file)).value;
      && workspace.files == UndoLastOn(old(workspace.files), last.command, last.agentPath, month).files
      && store.file == WithoutLastCommand(old(store.file))
    ensures LastCommandOf(old(store.file)).None? ==>
      workspace.files == old(workspace.files) && store.file == old(store.file)
    ensures LastCommandOf(store.file) == None
    ensures CurrentAgentOf(store.file) == CurrentAgentOf(old(store.file))
  {
    var last := store.GetLastCommand();
    if last.Some? {
      var _ := workspace.UndoLast(last.value.command, last.value.agentPath, month);
      store.ClearLastCommand();
    }
  }

  // ---------------------------------------------------------------- conversations directory

  const DefaultConversationsName: string := "voice-agent"

  /** `get_conversations_dir`: the agent's own directory under `root`, "voice-agent" for the default agent. */
  function ConversationsDir(root: string, agent: Option<string>): (dir: string)
    ensures agent.None? ==> dir == root + "/" + DefaultConversationsName
    ensures agent.Some? ==> dir == root + "/" + agent.value
  {
    root + "/" + agent.GetOr(DefaultConversationsName)
  }

  /**
   * Different agents keep different conversations, except that an agent
   * named "voice-agent" shares the default agent's directory.
   */
  lemma ConversationsDirsDistinct(root: string, a: Option<string>, b: Option<string>)
    requires a.GetOr(DefaultConversationsName) != b.GetOr(DefaultConversationsName)
    ensures ConversationsDir(root, a) != ConversationsDir(root, b)
  {
    var x, y := a.GetOr(DefaultConversationsName), b.GetOr(DefaultConversationsName);
    assert (root + "/" + x)[|root| + 1..] == x;
    assert (root + "/" + y)[|root| + 1..] == y;
  }

  // ---------------------------------------------------------------- agent list and switch

  const DefaultAgentName: string := "default"

  /** One entry of the agent list. */
  datatype AgentEntry = AgentEntry(name: string, active: bool)

  /**
   * `get_agents`: every configured agent in order, active when it is the
   * current agent, then "default", active when no agent is current.
   */
  method GetAgents(config: VoiceAgentConfig, store: SessionStore) returns (entries: seq<AgentEntry>)
    ensures |entries| == |config.agents| + 1
    ensures forall i :: 0 <= i < |config.agents| ==>
      entries[i] == AgentEntry(config.agents[i].name, Some(config.agents[i].name) == CurrentAgentOf(store.file))
    ensures entries[|config.agents|] == AgentEntry(DefaultAgentName, CurrentAgentOf(store.file).None?)
    ensures UniqueNames(config) ==>
      forall i, j :: 0 <= i < j < |entries| && entries[i].active ==> !entries[j].active
  {
    var current := store.LoadCurrentAgent();
    entries := [];
    var i := 0;
    while i < |config.agents|
      invariant 0 <= i <= |config.agents|
      invariant |entries| == i
      invariant forall k :: 0 <= k < i ==>
        entries[k] == AgentEntry(config.agents[k].name, Some(config.agents[k].name) == current)
    {
      var name := config.agents[i].name;
      entries := entries + [AgentEntry(name, Some(name) == current)];
      i := i + 1;
    }
    entries := entries + [AgentEntry(DefaultAgentName, current.None?)];
  }

  /** A name the switch endpoint accepts: "default" or a configured agent. */
  predicate KnownAgent(config: VoiceAgentConfig, name: string) {
    name == DefaultAgentName || exists i :: 0 <= i < |config.agents| && config.agents[i].name == name
  }

  /** The agent a switch to `name` makes current: "default" means no agent. */
  function SwitchTarget(name: string): (target: Option<string>)
    ensures target.None? <==> name == DefaultAgentName
    ensures target.Some? ==> target.value == name
  {
    if name == DefaultAgentName then None else Some(name)
  }

  datatype SwitchOutcome = NotFound(detail: string) | Switched(message: string)

  /**
   * `switch_agent`: an unknown name is rejected and the session is left as
   * it was; a known one is stored (as `None` for "default") and confirmed.
   */
  method SwitchAgent(config: VoiceAgentConfig, store: SessionStore, name: string) returns (outcome: SwitchOutcome)
    modifies store
    ensures outcome.Switched? <==> KnownAgent(config, name)
    ensures !KnownAgent(config, name) ==>
      store.file == old(store.file) && outcome == NotFound("Agent '" + name + "' not found")
    ensures KnownAgent(config, name) ==>
      && store.file == WithCurrentAgent(old(store.file), SwitchTarget(name))
      && CurrentAgentOf(store.file) == SwitchTarget(name)
      && outcome == Switched("Switched to agent '" + name + "'")
  {
    if name != DefaultAgentName && !(exists i :: 0 <= i < |config.agents| && config.agents[i].name == name) {
      return NotFound("Agent '" + name + "' not found");
    }
    store.SaveCurrentAgent(if name != DefaultAgentName then Some(name) else None);
    outcome := Switched("Switched to agent '" + name + "'");
  }

  /**
   * After a switch to a known name, the agent list marks exactly the
   * chosen entry active: the configured agent of that name, or "default".
   */
  lemma SwitchThenList(config: VoiceAgentConfig, file: SessionFile, name: string, i: int)
    requires KnownAgent(config, name) && UniqueNames(config)
    requires 0 <= i < |config.agents|
    ensures var current := CurrentAgentOf(WithCurrentAgent(file, SwitchTarget(name)));
      && (Some(config.agents[i].name) == current <==> config.agents[i].name == name && name != DefaultAgentName)
      && (current.None? <==> name == DefaultAgentName)
  {
  }
}
