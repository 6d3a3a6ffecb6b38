/**
 * The session record: a small JSON object on disk holding the current agent
 * and the last command (for undo). Every helper reads the whole record,
 * changes one key and writes the whole record back. The file itself is a
 * field of a `SessionStore` object; a missing file and a file that does
 * not parse are distinct states.
 */
module Session {
  import opened Wrappers

  const CurrentAgentKey: string := "current_agent"
  const LastCommandKey: string := "last_command"

  /** What `save_last_command` records; `agentPath` is the path as text. */
  datatype LastCommand = LastCommand(agent: Option<string>, command: string, message: string, agentPath: string)

  /** A value stored under a key of the record. */
  datatype SessionValue = Null | Str(s: string) | Record(last: LastCommand)

  /** The session file: absent, present but unreadable or not JSON, or a stored object. */
  datatype SessionFile = Missing | Corrupt | Stored(data: map<string, SessionValue>)

  /** `_load_session_data`: the stored object, or `{}` when the file is missing or corrupt. */
  function SessionData(file: SessionFile): (data: map<string, SessionValue>)
    ensures !file.Stored? ==> data == map[]
    ensures file.Stored? ==> data == file.data
  {
    if file.Stored? then file.data else map[]
  }

  /** JSON for an optional agent name: the name, or `null`. */
  function AgentValue(name: Option<string>): SessionValue {
    match name
    case Some(n) => Str(n)
    case None => Null
  }

  /**
   * `load_current_agent`: the stored name; `None` when the file is missing
   * or corrupt, when the key is absent, or when the stored value is `null`.
   */
  function CurrentAgentOf(file: SessionFile): (agent: Option<string>)
    ensures !file.Stored? ==> agent == None
    ensures file.Stored? && CurrentAgentKey !in file.data ==> agent == None
    ensures agent.Some? <==> CurrentAgentKey in SessionData(file) && SessionData(file)[CurrentAgentKey].Str?
  {
    var data := SessionData(file);
    if CurrentAgentKey in data && data[CurrentAgentKey].Str? then Some(data[CurrentAgentKey].s) else None
  }

  /** `get_last_command`: the stored record, if there is one. */
  function LastCommandOf(file: SessionFile): (last: Option<LastCommand>)
    ensures !file.Stored? ==> last == None
    ensures last.Some? <==> LastCommandKey in SessionData(file) && SessionData(file)[LastCommandKey].Record?
  {
    var data := SessionData(file);
    if LastCommandKey in data && data[LastCommandKey].Record? then Some(data[LastCommandKey].last) else None
  }

  /**
   * The record after `save_current_agent(name)`: the name reads back, the
   * last command is untouched, and every other key keeps its value.
   */
  function WithCurrentAgent(file: SessionFile, name: Option<string>): (file': SessionFile)
    ensures file'.Stored?
    ensures CurrentAgentOf(file') == name
    ensures LastCommandOf(file') == LastCommandOf(file)
    ensures forall k :: k in SessionData(file) && k != CurrentAgentKey ==>
      k in file'.data && file'.data[k] == SessionData(file)[k]
    ensures file'.data.Keys == SessionData(file).Keys + {CurrentAgentKey}
  {
    Stored(SessionData(file)[CurrentAgentKey := AgentValue(name)])
  }

  /**
   * The record after `save_last_command(...)`: the command reads back, the
   * current agent is untouched, and every other key keeps its value.
   */
  function WithLastCommand(file: SessionFile, last: LastCommand): (file': SessionFile)
    ensures file'.Stored?
    ensures LastCommandOf(file') == Some(last)
    ensures CurrentAgentOf(file') == CurrentAgentOf(file)
    ensures forall k :: k in SessionData(file) && k != LastCommandKey ==>
      k in file'.data && file'.data[k] == SessionData(file)[k]
    ensures file'.data.Keys == SessionData(file).Keys + {LastCommandKey}
  {
    Stored(SessionData(file)[LastCommandKey := Record(last)])
  }

  /**
   * The record after `clear_last_command()`: no last command, the current
   * agent is untouched, and only the `last_command` key is gone.
   */
  function WithoutLastCommand(file: SessionFile): (file': SessionFile)
    ensures file'.Stored?
    ensures LastCommandOf(file') == None
    ensures CurrentAgentOf(file') == CurrentAgentOf(file)
    ensures file'.data.Keys == SessionData(file).Keys - {LastCommandKey}
    ensures forall k :: k in file'.data ==> file'.data[k] == SessionData(file)[k]
  {
    Stored(SessionData(file) - {LastCommandKey})
  }

  /** Clearing twice is clearing once. */
  lemma ClearIdempotent(file: SessionFile)
    ensures WithoutLastCommand(WithoutLastCommand(file)) == WithoutLastCommand(file)
  {
    var d := SessionData(file) - {LastCommandKey};
    assert d - {LastCommandKey} == d;
  }

  /** Saving a command and then clearing it leaves the record as clearing alone would. */
  lemma SaveThenClear(file: SessionFile, last: LastCommand)
    ensures WithoutLastCommand(WithLastCommand(file, last)) == WithoutLastCommand(file)
  {
    var d := SessionData(file);
    assert d[LastCommandKey := Record(last)] - {LastCommandKey} == d - {LastCommandKey};
  }

  /** The two setters touch different keys, so their order does not matter. */
  lemma SettersCommute(file: SessionFile, name: Option<string>, last: LastCommand)
    ensures WithLastCommand(WithCurrentAgent(file, name), last) == WithCurrentAgent(WithLastCommand(file, last), name)
  {
    var d := SessionData(file);
    assert d[CurrentAgentKey := AgentValue(name)][LastCommandKey := Record(last)]
        == d[LastCommandKey := Record(last)][CurrentAgentKey := AgentValue(name)];
  }

  /** The session file, read and rewritten in place by the helpers. */
  class SessionStore {
    var file: SessionFile

    constructor(file: SessionFile)
      ensures this.file == file
    {
      this.file := file;
    }

    /** `_load_session_data`. */
    method LoadSessionData() returns (data: map<string, SessionValue>)
      ensures data == SessionData(file)
    {
      match file
      case Stored(d) => data := d;
      case Missing => data := map[];
      case Corrupt => data := map[];
    }

    /** `load_current_agent`. */
    method LoadCurrentAgent() returns (agent: Option<string>)
      ensures agent == CurrentAgentOf(file)
    {
      if file.Missing? {
        return None;
      }
      if file.Corrupt? {
        return None;
      }
      var data := file.data;
      agent := None;
      if CurrentAgentKey in data {
        var v := data[CurrentAgentKey];
        if v.Str? {
          agent := Some(v.s);
        }
      }
    }

    /** `save_current_agent`: read the record, set one key, write it back. */
    method SaveCurrentAgent(name: Option<string>)
      modifies this
      ensures file == WithCurrentAgent(old(file), name)
    {
      var data := LoadSessionData();
      data := data[CurrentAgentKey := AgentValue(name)];
      file := Stored(data);
    }

    /** `save_last_command`. */
    method SaveLastCommand(agent: Option<string>, command: string, message: string, agentPath: string)
      modifies this
      ensures file == WithLastCommand(old(file), LastCommand(agent, command, message, agentPath))
    {
      var data := LoadSessionData();
      data := data[LastCommandKey := Record(LastCommand(agent, command, message, agentPath))];
      file := Stored(data);
    }

    /** `get_last_command`. */
    method GetLastCommand() returns (last: Option<LastCommand>)
      ensures last == LastCommandOf(file)
    {
      var data := LoadSessionData();
      last := None;
      if LastCommandKey in data && data[LastCommandKey].Record? {
        last := Some(data[LastCommandKey].last);
      }
    }

    /** `clear_last_command`: the key is removed if present; the record is rewritten either way. */
    method ClearLastCommand()
      modifies this
      ensures file == WithoutLastCommand(old(file))
    {
      var data := LoadSessionData();
      data := data - {LastCommandKey};
      file := Stored(data);
    }
  }
}
