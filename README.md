# Voice agent router — a Dafny model

This project models the decision-making core of a voice assistant that
turns a transcribed utterance into a routed request:

- **Keyword router** (`Agents`): the utterance is lowercased and split into
  words; the first `windowSize` words form the scan window. The window
  decides whether the word "agent" was spoken, which configured agent is
  named (substring match over the joined window, hyphens also tried as
  spaces), which command is named (whole-word match on the canonical name
  or an alias, skipping commands whose allow-list excludes the agent), and
  the residual message after the last keyword position. The router itself
  is an imperative method with the source's nested loops and `break`s,
  proved equal to the specification function `Extract`; the properties are
  lemmas about `Extract`.
- **Configuration** (`Config`): commands and agents as ordered sequences of
  records (Python's insertion-ordered dicts), the trigger phrases generated
  for each agent, and the loader's defaults.
- **Session record** (`Session`): the small JSON object holding the current
  agent and the last command, as a map in the `file` field of a
  `SessionStore`; every helper reads the whole record, changes one key and
  writes it back.
- **Structural undo** (`Commands`): the agent directories' files as a map in
  a `Workspace`; undo drops the last line of the month's food journal or
  cuts the last dated `## YYYY-MM-DD HH:MM` section of the notes file.
- **Hotwords** (`Hotwords`): the lowercased, deduplicated, sorted word set
  built from the keywords, the command names and aliases and the pieces of
  the agent names, and the process-wide cache that holds it.
- **Request-handler glue** (`Routing`): the research topic slug, the sticky
  agent switch, the text forwarded after a bare agent switch, the undo flow,
  the conversations directory, and the agent list and switch endpoints.
- **Conversation session** (`ClaudeSession`): today's conversation id, the
  normalised token usage stored with it, and the spoken context-usage
  summary with its four buckets.
- **Memory context** (`Memory`): agent filtering and truncation of the two
  memory-service responses, the semantic-then-temporal merge deduplicated by
  memory id, and the bullet-list rendering.

Python's string operations the core relies on (`lower`, `split`, `strip`,
`split(sep)`, `join`, `in`, slicing with negative bounds, `sorted` on
strings, `str(int)`) are defined in `Text`, with the laws the proofs need.

## Model

| member | source | states |
|---|---|---|
| Agents.Extract | src/voice_agent/agents.py:115-179 | The result's agent flag is set iff "agent" is a window word; without it there is no agent, no command, and the message is the original text. The agent, command and message are characterised by the lemmas below. |
| Agents.ScanAgents | src/voice_agent/agents.py:133-141 | Definition of the agent loop resumed with what was recorded so far; characterised by `ScanAgentsFirstMatch`. |
| Agents.ScanCommands | src/voice_agent/agents.py:144-156 | Definition of the command loop resumed with what was recorded so far; characterised by `ScanCommandsMatch`. |
| Agents.KeywordPositionsOf | src/voice_agent/agents.py:159-173 | Definition of the recorded positions; characterised by `MaxPositionIsLastKeyword`. |
| Agents.ExtractKeywordsFromWindow | src/voice_agent/agents.py:115-179 | The router's loops compute exactly `Extract`: no "agent" in the window gives the untouched text; otherwise the first matching agent, the first allowed spoken command and the words after the last keyword. |
| Agents.FindAgentInWindow | src/voice_agent/agents.py:133-141 | The agent loop, with its inner variant loop and both `break`s, yields the `ScanAgents` result. |
| Agents.FindCommandInWindow | src/voice_agent/agents.py:144-156 | The command loop, skipping commands whose allow-list excludes the agent, yields the `ScanCommands` result. |
| Agents.MatchesCommandWord | src/voice_agent/agents.py:164-167 | The inner loop finds a match exactly when the word is some command's name or alias. |
| Agents.MatchesAgentNameWord | src/voice_agent/agents.py:169-173 | The inner loop finds a match exactly when the word is a hyphen-split piece of some agent name or a whole name. |
| Agents.KeywordPositions | src/voice_agent/agents.py:159-173 | The positions list is the recorded positions of the window, once per test passed, in order. |
| Agents.LastKeyword | src/voice_agent/agents.py:175-177 | None exactly when no window word is a keyword; otherwise a keyword index with no keyword after it. |
| Agents.MaxOf | src/voice_agent/agents.py:176 | `max` returns an element of the list that no element exceeds. |
| Agents.MaxPositionIsLastKeyword | src/voice_agent/agents.py:159-177 | Positions are in the window, none are recorded exactly when no keyword is present, and their maximum is the last keyword. |
| Agents.MaxOfPositions | src/voice_agent/agents.py:175-177 | When positions were recorded, `max(keyword_positions)` is the last keyword index. |
| Agents.NoAgentKeywordPassesThrough | src/voice_agent/agents.py:115-128 | Without "agent" among the window words: no agent keyword, no agent, no command, and the original text (not lowercased) as message. |
| Agents.ScanAgentsFirstMatch | src/voice_agent/agents.py:133-141 | The agent is None iff no agent is mentioned; a non-empty result is the first mentioned agent with a non-empty name. |
| Agents.ScanCommandsMatch | src/voice_agent/agents.py:144-156 | The command is None iff no allowed command is spoken; a non-empty result is the canonical name of the first allowed spoken command with a name. |
| Agents.ExtractedCommandIsAvailable | src/voice_agent/agents.py:198-206 | A command the router recognises is always accepted by `get_command_for_agent` for the resolved agent. |
| Agents.WindowBoundary | src/voice_agent/agents.py:115-117 | Texts with the same window get the same agent flag, agent and command: words past the window never matter. |
| Agents.MessageFollowsLastKeyword | src/voice_agent/agents.py:159-177 | With "agent" present, the message splits into exactly the words after a last keyword index that is at or after every "agent" word. |
| Agents.AgentWordIsKeyword | src/voice_agent/agents.py:160-162 | An "agent" word is always a keyword, so the last keyword exists and is not before it. |
| Agents.ResidualWords | src/voice_agent/agents.py:175-177 | The message joined from the words after the last keyword splits back into those words. |
| Agents.MentionedBySameWords | src/voice_agent/agents.py:135-137 | For a name without spaces or hyphens, being mentioned depends only on the set of window words. |
| Agents.ScanAgentsSameMentions | src/voice_agent/agents.py:133-141 | Two window texts that mention the same agents select the same agent. |
| Agents.ScanCommandsSameWords | src/voice_agent/agents.py:144-156 | Two windows with the same words select the same command. |
| Agents.WordOrderIrrelevant | src/voice_agent/agents.py:133-156 | Reordering the window words changes neither the agent nor the command, for names without spaces or hyphens. |
| Agents.FindCommand | src/voice_agent/agents.py:198 | The dict lookup finds a command of that name, or None exactly when no command has it. |
| Agents.GetCommandForAgent | src/voice_agent/agents.py:198-206 | None for an unknown name; otherwise the command iff its allow-list is empty or lists the agent (None is never listed). |
| Config.Triggers | src/voice_agent/agents.py:80-83 | Always "{name} agent"; a second trigger with hyphens as spaces exactly when the name has a hyphen; every trigger ends in " agent". |
| Config.TriggersDistinct | src/voice_agent/agents.py:80-83 | The two triggers of a hyphenated name differ. |
| Config.LoadCommand | src/voice_agent/agents.py:66-72 | Definition of one loaded command: its key as name and the defaults for absent fields; characterised through `LoadAgentsConfig`. |
| Config.LoadAgent | src/voice_agent/agents.py:76-85 | Definition of one loaded agent: its key as name, its path and its generated triggers; characterised through `LoadAgentsConfig`. |
| Config.LoadAgentsConfig | src/voice_agent/agents.py:55-87 | No file gives the empty configuration; otherwise keys become names in order, absent fields take their defaults, agents get their triggers, and names are unique. |
| Session.SessionData | src/voice_agent/agents.py:235-242 | A missing or corrupt file reads as `{}`; a stored one as its object. |
| Session.CurrentAgentOf | src/voice_agent/agents.py:216-225 | None for a missing or corrupt file or an absent key; Some exactly when a name is stored. |
| Session.LastCommandOf | src/voice_agent/agents.py:257-260 | Some exactly when a last-command record is stored; None for a missing or corrupt file. |
| Session.WithCurrentAgent | src/voice_agent/agents.py:228-232 | The name reads back, the last command is untouched, and every other key keeps its value. |
| Session.WithLastCommand | src/voice_agent/agents.py:245-254 | The command reads back, the current agent is untouched, and every other key keeps its value. |
| Session.WithoutLastCommand | src/voice_agent/agents.py:263-267 | No last command afterwards, the current agent is untouched, and only `last_command` is removed. |
| Session.ClearIdempotent | src/voice_agent/agents.py:263-267 | Clearing twice is clearing once. |
| Session.SaveThenClear | src/voice_agent/agents.py:245-267 | Saving a command then clearing it equals clearing alone. |
| Session.SettersCommute | src/voice_agent/agents.py:228-254 | Setting the agent and setting the last command commute. |
| Session.SessionStore.LoadSessionData | src/voice_agent/agents.py:235-242 | Returns the stored object, or `{}`. |
| Session.SessionStore.LoadCurrentAgent | src/voice_agent/agents.py:216-225 | Returns the current agent of the file. |
| Session.SessionStore.SaveCurrentAgent | src/voice_agent/agents.py:228-232 | The file becomes the record with the new current agent. |
| Session.SessionStore.SaveLastCommand | src/voice_agent/agents.py:245-254 | The file becomes the record with the new last command. |
| Session.SessionStore.GetLastCommand | src/voice_agent/agents.py:257-260 | Returns the stored last command. |
| Session.SessionStore.ClearLastCommand | src/voice_agent/agents.py:263-267 | The file becomes the record without `last_command`. |
| Commands.JournalPath | src/voice_agent/commands.py:116-118 | Definition of the month's journal path under the agent directory. |
| Commands.NotesPath | src/voice_agent/commands.py:142 | Definition of the notes path under the agent directory. |
| Commands.DropLastLine | src/voice_agent/commands.py:124-134 | Definition of the journal rewrite; characterised by `DropLastLineCharacterised`. |
| Commands.CutLastNote | src/voice_agent/commands.py:151-158 | Definition of the notes rewrite; characterised by `CutLastNoteCharacterised`. |
| Commands.UndoFoodEntryOn | src/voice_agent/commands.py:114-137 | Definition of the journal undo on the files; characterised by `FoodUndoFailure` and `UndoLastEffect`. |
| Commands.UndoNoteOn | src/voice_agent/commands.py:140-162 | Definition of the notes undo on the files; characterised by `NoteUndoFailure` and `UndoLastEffect`. |
| Commands.UndoLastOn | src/voice_agent/commands.py:95-111 | Definition of the dispatched undo on the files; characterised by `UndoLastEffect`. |
| Commands.JournalIsNotNotes | src/voice_agent/commands.py:116-118 | An agent's journal and its notes are different files. |
| Commands.KeptLines | src/voice_agent/commands.py:130-134 | The rewritten journal is empty or ends in a newline. |
| Commands.KeptLinesThenLast | src/voice_agent/commands.py:124-134 | A text is its kept lines followed by its last line, which holds no newline. |
| Commands.DropLastLineCharacterised | src/voice_agent/commands.py:124-137 | Nothing to undo iff the stripped journal is empty; otherwise the result is a proper prefix of it, empty or newline-terminated, and what is dropped is one line. |
| Commands.SectionIsLast | src/voice_agent/commands.py:151 | No header follows a header whose tail has no '#'. |
| Commands.SearchFrom | src/voice_agent/commands.py:151-152 | The search returns the leftmost match, or None when nothing matches. |
| Commands.CutLastNoteCharacterised | src/voice_agent/commands.py:151-158 | Nothing is cut iff no header has a '#'-free tail; otherwise the result is the text before such a header, and no header follows it. |
| Commands.UndoTargetOf | src/voice_agent/commands.py:105-111 | "log" selects the journal; "listen" and "note" select the notes; anything else neither. |
| Commands.UndoLastEffect | src/voice_agent/commands.py:95-111 | A failed undo changes nothing; a successful one rewrites only its target file, which existed, as the line drop or section cut; a notes undo never touches the journal and a journal undo never touches the notes; an unsupported command always fails. |
| Commands.FoodUndoFailure | src/voice_agent/commands.py:120-127 | The journal undo fails iff the file is absent or holds only whitespace. |
| Commands.NoteUndoFailure | src/voice_agent/commands.py:144-156 | The notes undo fails iff the file is absent or has no matching section. |
| Commands.Workspace.UndoLastFoodEntry | src/voice_agent/commands.py:114-137 | Its result and the new files are those of the journal undo on the old files. |
| Commands.Workspace.UndoLastNote | src/voice_agent/commands.py:140-162 | Its result and the new files are those of the notes undo on the old files. |
| Commands.Workspace.UndoLast | src/voice_agent/commands.py:95-111 | Its result and the new files are those of the dispatched undo. |
| Hotwords.KeywordWords | src/voice_agent/transcribe.py:37-39 | Definition of the words the keyword loop adds; characterised by `KeywordWordsMembers`. |
| Hotwords.CommandWords | src/voice_agent/transcribe.py:42-45 | Definition of the words the command loop adds; characterised by `CommandWordsMembers`. |
| Hotwords.AgentWords | src/voice_agent/transcribe.py:48-50 | Definition of the words the agent loop adds; characterised by `AgentWordsMembers`. |
| Hotwords.HotwordSet | src/voice_agent/transcribe.py:34-50 | Definition of the word set; characterised by `HotwordSetMembers`. |
| Hotwords.HotwordsString | src/voice_agent/transcribe.py:52 | Definition of the returned string: the sorted set joined by single spaces; characterised by `HotwordsDistinct` and `HotwordsSplitBack`. |
| Hotwords.KeywordWordsMembers | src/voice_agent/transcribe.py:37-39 | A word comes from the keyword loop iff it is a lowercased word of some keyword. |
| Hotwords.AliasWordsMembers | src/voice_agent/transcribe.py:44-45 | A word comes from one command's aliases iff it is one of them lowercased. |
| Hotwords.CommandWordsMembers | src/voice_agent/transcribe.py:42-45 | A word comes from the command loop iff it is some command's name or alias, lowercased. |
| Hotwords.PartWordsMembers | src/voice_agent/transcribe.py:49-50 | A word comes from one agent's name iff it is one of its pieces lowercased. |
| Hotwords.AgentWordsMembers | src/voice_agent/transcribe.py:48-50 | A word comes from the agent loop iff it is a lowercased piece of some agent name, hyphens read as spaces. |
| Hotwords.HotwordSetMembers | src/voice_agent/transcribe.py:34-50 | The hotword set holds exactly the words of the three sources and nothing else. |
| Hotwords.SortedOf | src/voice_agent/transcribe.py:52 | `sorted` of a set lists exactly its elements in strictly ascending order. |
| Hotwords.SortedUnique | src/voice_agent/transcribe.py:52 | A set has only one strictly ascending listing. |
| Hotwords.Insert | src/voice_agent/transcribe.py:52 | Inserting a new word into a sorted listing keeps it sorted and adds exactly that word. |
| Hotwords.SortWords | src/voice_agent/transcribe.py:52 | The insertion sort returns `sorted` of the set. |
| Hotwords.AddKeywordWords | src/voice_agent/transcribe.py:37-39 | The keyword loop adds exactly the keyword words. |
| Hotwords.AddCommandWords | src/voice_agent/transcribe.py:42-45 | The command loop adds exactly the command names and aliases. |
| Hotwords.AddAgentWords | src/voice_agent/transcribe.py:48-50 | The agent loop adds exactly the agent-name pieces. |
| Hotwords.BuildHotwordsString | src/voice_agent/transcribe.py:28-52 | The result is the sorted hotword set joined by single spaces. |
| Hotwords.HotwordsDistinct | src/voice_agent/transcribe.py:34-52 | No word appears twice in the listing. |
| Hotwords.HotwordIsWord | src/voice_agent/transcribe.py:34-52 | With single-word command names and aliases, every hotword is one non-empty word. |
| Hotwords.HotwordsSplitBack | src/voice_agent/transcribe.py:52 | With single-word command names and aliases, splitting the string gives back the sorted set. |
| Hotwords.LowerKeepsWords | src/voice_agent/transcribe.py:39 | Lowercasing neither empties a word nor adds or removes whitespace. |
| Hotwords.HotwordsCache.SetHotwords | src/voice_agent/transcribe.py:55-59 | The cache then holds the built hotword string. |
| Hotwords.HotwordsCache.GetHotwords | src/voice_agent/transcribe.py:62-64 | Returns what the cache holds, so after a set it is that build's string. |
| Routing.KeepSlugChars | src/voice_agent/main.py:434-436 | Keeps exactly the letters, digits and '-' of the input: everything kept is such a character from the input, and every such character is kept. |
| Routing.KeepSlugCharsAppend | src/voice_agent/main.py:434-436 | The filter keeps order: filtering a concatenation is filtering each part in turn. |
| Routing.SlugWords | src/voice_agent/main.py:432 | Exactly the first five lowercased words, or all of them when there are fewer, in order. |
| Routing.ResearchSlug | src/voice_agent/main.py:432-437 | The slug has only letters, digits and '-', never starts or ends with '-', uses only characters of the first five words joined by '-', and keeps every letter and digit of them. |
| Routing.SlugIgnoresLaterWords | src/voice_agent/main.py:432 | Words after the fifth do not change the slug. |
| Routing.StickySwitch | src/voice_agent/main.py:334-344 | With the keyword, the extracted agent becomes current and the session is written only if it differs; without it, the loaded agent stays. |
| Routing.ForwardedText | src/voice_agent/main.py:495 | The residual message when non-empty, otherwise the whole transcription. |
| Routing.UndoFlow | src/voice_agent/main.py:374-380 | With a last command its undo runs and the record is cleared; without one nothing changes; no last command remains and the current agent is kept. |
| Routing.ConversationsDir | src/voice_agent/main.py:223-225 | "voice-agent" under the root for the default agent, otherwise the agent's name. |
| Routing.ConversationsDirsDistinct | src/voice_agent/main.py:223-225 | Agents with different directory names get different directories. |
| Routing.GetAgents | src/voice_agent/main.py:1070-1076 | Every configured agent in order, active iff current, then "default", active iff no agent is current; with unique names at most one is active. |
| Routing.KnownAgent | src/voice_agent/main.py:1085 | Definition of the names the switch accepts: "default" or a configured agent's name. |
| Routing.SwitchTarget | src/voice_agent/main.py:1089 | "default" is stored as None; any other name as itself. |
| Routing.SwitchAgent | src/voice_agent/main.py:1085-1091 | Switched iff the name is "default" or configured; an unknown name leaves the session unchanged with the exact error detail; a known one is stored and confirmed with the exact message. |
| Routing.SwitchThenList | src/voice_agent/main.py:1070-1089 | After a switch, the list marks exactly the chosen agent, or "default", active. |
| ClaudeSession.ConversationIdOf | src/voice_agent/claude.py:30-40 | An id only for a record dated today; none for a missing, corrupt or older record. |
| ClaudeSession.StatusFor | src/voice_agent/claude.py:97-104 | The four buckets with strict thresholds 150000, 100000 and 50000. |
| ClaudeSession.StatusText | src/voice_agent/claude.py:97-104 | Definition of the status sentence of each bucket, with the exact wording. |
| ClaudeSession.StatusMonotone | src/voice_agent/claude.py:97-104 | More input tokens never give a less severe bucket. |
| ClaudeSession.CachePercent | src/voice_agent/claude.py:107 | The floor of cache*100/input when input > 0, else 0; within 0..100 when the cache does not exceed the input. |
| ClaudeSession.Thousands | src/voice_agent/claude.py:109 | The floor of input/1000. |
| ClaudeSession.UsageLine | src/voice_agent/claude.py:108-110 | The line starts with the thousands figure and "k tokens in context, ", ends with "% cached. " and the bucket's status sentence, and holds the cached percentage in between. |
| ClaudeSession.ContextUsage | src/voice_agent/claude.py:83-113 | The exact answer for a missing file, an unreadable file, a record from another day, and today's record. |
| ClaudeSession.LatestUsage | src/voice_agent/claude.py:54-60 | Exactly the three counters, each copied from the usage or 0. |
| ClaudeSession.Saved | src/voice_agent/claude.py:54-70 | The saved record reads back as today's id, as no id on other days, and its summary uses the saved counters. |
| ClaudeSession.SavedWithoutUsage | src/voice_agent/claude.py:54-60 | Saving without usage reports "0k tokens in context, 0% cached. Plenty of room." |
| ClaudeSession.ConversationStore.SaveConversationId | src/voice_agent/claude.py:49-70 | Filling the usage field by field writes exactly the `Saved` record. |
| ClaudeSession.ConversationStore.ClearConversation | src/voice_agent/claude.py:73-77 | The file is gone afterwards, so no id is read back on any day. |
| Memory.ForAgent | src/voice_agent/memory.py:54 | Keeps, in order, exactly the results whose metadata agent is the requested one. |
| Memory.ForAgentAppend | src/voice_agent/memory.py:54 | Filtering a concatenation filters each part in order. |
| Memory.SearchMemories | src/voice_agent/memory.py:51-58 | A list body is filtered and cut to `limit`; an object body's results are returned unfiltered; a failed request gives none. |
| Memory.RecentMemories | src/voice_agent/memory.py:79-86 | Either body is filtered and cut to `limit`; a failed request gives none. |
| Memory.FirstOccurrences | src/voice_agent/memory.py:136-151 | Every kept result has a non-empty id that was not seen before. |
| Memory.FirstOccurrencesFrom | src/voice_agent/memory.py:136-151 | Every kept result comes from the input. |
| Memory.FirstOccurrencesDistinct | src/voice_agent/memory.py:132-149 | No id is kept twice. |
| Memory.FirstOccurrencesIds | src/voice_agent/memory.py:137-148 | The kept ids are exactly the non-empty ids not seen before. |
| Memory.Texts | src/voice_agent/memory.py:140-142 | The texts are exactly the non-empty memories of the results: none is empty, every non-empty memory appears, and each text is some result's memory. |
| Memory.FirstOccurrencesAppend | src/voice_agent/memory.py:135-151 | Deduplicating two lists in turn: the second sees the non-empty ids of the first. |
| Memory.SemanticFirst | src/voice_agent/memory.py:135-151 | All semantic memories precede all temporal ones, and a temporal result with a semantic id contributes nothing. |
| Memory.Suppressed | src/voice_agent/memory.py:138-151 | A result with an empty id, or an id already seen (even with an empty text), can be removed without changing the merge. |
| Memory.Merged | src/voice_agent/memory.py:131-151 | Definition of the merged texts: the texts of the first occurrences of the semantic then temporal results; characterised by `SemanticFirst`, `Suppressed`, `FirstOccurrencesDistinct` and `FirstOccurrencesIds`. |
| Memory.MergeInto | src/voice_agent/memory.py:136-142 | The loop appends the texts of the first occurrences and marks every non-empty id seen. |
| Memory.MergeMemories | src/voice_agent/memory.py:131-151 | The two loops sharing one seen set produce `Merged` of the two lists. |
| Memory.Bullets | src/voice_agent/memory.py:156 | One "- m" line per memory, in order. |
| Memory.FormatMemoryContext | src/voice_agent/memory.py:153-156 | "" iff there are no memories; otherwise the heading and the bullets joined by newlines. |
| Memory.FormatLines | src/voice_agent/memory.py:156 | When no memory spans lines, the context splits into the heading and the bullets. |
| Memory.GetMemoryContext | src/voice_agent/memory.py:111-156 | "" without an API key or on a timeout; otherwise the formatted merge of the filtered search and recent results. |

## Left out

- Reading and writing files, HTTP requests to the memory service, the thread pool and its timeout, the clock and the Claude CLI subprocess: files are map fields of `SessionStore`, `Workspace` and `ConversationStore`; each response body is a parameter; "today" and the month key are parameters; the timeout is a boolean parameter.
- Character classes (`isspace`, `isalnum`, `lower`, `\d`) are modelled on ASCII; Unicode letters, digits and whitespace are not.
- Paths are strings joined with "/"; `expanduser` and path normalisation are not modelled.
- `load_current_agent` and `get_last_command` return whatever JSON value is stored; the model stores only a name or `null` under `current_agent` and only a last-command record under `last_command`, and reads other values as None.
- Routing.UndoFlow: always uses the stored `agent_path`; the fallback to the current directory when the record lacks that key is not modelled, because the record is always written with it.
- A session file whose JSON is not an object makes the source raise; the model has no such state.
- `sorted` is modelled by an insertion sort proved to produce the unique ascending listing; the source's sort algorithm is not modelled.
- Agents.WordOrderIrrelevant: holds only for agent names without spaces or hyphens, because a hyphenated name matches as two adjacent words.
- `AgentConfig` has no voice field and the loader sets none (src/voice_agent/agents.py:31-35, 76-85), yet the request handler reads `agent_config.voice` when the current agent is a configured one (src/voice_agent/main.py:350, 501), which raises in Python; the handler's choice of working directory and voice is not modelled, so that failure is not captured.
- File contents are the text after Python's newline translation in `read_text()`: a "\r\n" on disk is already "\n" in the model, so carriage returns in journals and notes headers are not modelled.
- Malformed configurations are outside the model: an empty YAML file, a `commands` or `agents` key with a null value, and an agent without `path` all make the loader raise; `RawConfig` and `RawAgent` cannot express them.
- Memory.SearchMemories: an object body is returned unfiltered and untruncated, as in the source; `metadata: null` in a result raises in the source and is caught as a failed request, modelled only as `Failed`.
- The request handler's fall-through when a recognised command is unavailable for the agent (an error sound, or continuing) and the research subprocess are not modelled beyond the slug.
- Command execution (`execute_command`, `load_command_prompt`), transcription back-ends, text-to-speech, the proxy and the markdown log parsers are not part of this model.
