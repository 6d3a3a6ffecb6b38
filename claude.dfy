/**
 * The conversation session kept beside the Claude CLI: today's
 * conversation id and the token usage of the latest call, stored as one
 * small JSON record. "Today" is a parameter (the `YYYY-MM-DD` text of the
 * current date). The record file is a field of a `ConversationStore`.
 */
module ClaudeSession {
  import opened Wrappers
  import opened Text

  const InputTokensKey: string := "input_tokens"
  const OutputTokensKey: string := "output_tokens"
  const CacheReadKey: string := "cache_read_input_tokens"

  /**
   * The stored object: `date` and `conversation_id` are `None` when the key
   * is absent; an absent `usage` key reads as the empty usage object.
   */
  datatype ConversationRecord = ConversationRecord(date: Option<string>, conversationId: Option<string>, usage: map<string, int>)

  /** The session file: absent, present but unreadable or not JSON, or a stored object. */
  datatype ConversationFile = Missing | Corrupt | Stored(record: ConversationRecord)

  /** `usage.get(key, 0)`. */
  function Counter(usage: map<string, int>, key: string): int {
    if key in usage then usage[key] else 0
  }

  // ---------------------------------------------------------------- get_conversation_id

  /**
   * `get_conversation_id`: the stored id, but only for a record written
   * today; a missing, corrupt or older record gives no id.
   */
  function ConversationIdOf(file: ConversationFile, today: string): (id: Option<string>)
    ensures id.Some? ==> file.Stored? && file.record.date == Some(today) && file.record.conversationId == id
    ensures file.Stored? && file.record.date == Some(today) ==> id == file.record.conversationId
    ensures !file.Stored? ==> id == None
  {
    match file
    case Stored(record) => if record.date == Some(today) then record.conversationId else None
    case _ => None
  }

  // ---------------------------------------------------------------- get_context_usage

  /** How full the context window is, from the input-token count. */
  datatype Status = GettingLong | PastHalfway | QuarterUsed | PlentyOfRoom

  /** The bucket for a context of `input` tokens; each threshold is strict. */
  function StatusFor(input: int): (s: Status)
    ensures s == GettingLong <==> input > 150000
    ensures s == PastHalfway <==> 100000 < input <= 150000
    ensures s == QuarterUsed <==> 50000 < input <= 100000
    ensures s == PlentyOfRoom <==> input <= 50000
  {
    if input > 150000 then GettingLong
    else if input > 100000 then PastHalfway
    else if input > 50000 then QuarterUsed
    else PlentyOfRoom
  }

  /** The buckets in order of growing context. */
  function Severity(s: Status): nat {
    match s
    case PlentyOfRoom => 0
    case QuarterUsed => 1
    case PastHalfway => 2
    case GettingLong => 3
  }

  /** A larger context never falls into a less severe bucket. */
  lemma StatusMonotone(a: int, b: int)
    requires a <= b
    ensures Severity(StatusFor(a)) <= Severity(StatusFor(b))
  {
  }

  function StatusText(s: Status): string {
    match s
    case GettingLong => "Getting long, consider starting fresh."
    case PastHalfway => "Past halfway, keep an eye on it."
    case QuarterUsed => "About a quarter used."
    case PlentyOfRoom => "Plenty of room."
  }

  /**
   * The cached share in whole percent, rounded down (`cache * 100 // input`),
   * and 0 when there is no input. Python's `//` floors, which for the
   * positive divisor here is Dafny's `/`.
   */
  function CachePercent(cache: int, input: int): (pct: int)
    ensures input <= 0 ==> pct == 0
    ensures input > 0 ==> pct * input <= cache * 100 < (pct + 1) * input
    ensures input > 0 && 0 <= cache <= input ==> 0 <= pct <= 100
  {
    if input > 0 then cache * 100 / input else 0
  }

  /** The context size in thousands of tokens, rounded down (`input // 1000`). */
  function Thousands(input: int): (k: int)
    ensures 1000 * k <= input < 1000 * (k + 1)
    ensures input >= 0 ==> k >= 0
  {
    input / 1000
  }

  /**
   * The spoken summary for today's record: the context in thousands of
   * tokens, then the cached percentage, then the bucket's status sentence.
   */
  function UsageLine(input: int, cache: int): (line: string)
    ensures var head := IntToString(Thousands(input)) + "k tokens in context, ";
      |head| <= |line| && line[..|head|] == head
    ensures var tail := "% cached. " + StatusText(StatusFor(input));
      |tail| <= |line| && line[|line| - |tail|..] == tail
    ensures var head := IntToString(Thousands(input)) + "k tokens in context, ";
      var tail := "% cached. " + StatusText(StatusFor(input));
      |head| + |tail| <= |line| && line[|head|..|line| - |tail|] == IntToString(CachePercent(cache, input))
  {
    var head := IntToString(Thousands(input)) + "k tokens in context, ";
    var pct := IntToString(CachePercent(cache, input));
    var tail := "% cached. " + StatusText(StatusFor(input));
    ThreeParts(head, pct, tail);
    head + pct + tail
  }

  /** `get_context_usage`: the answer for each state of the session file. */
  function ContextUsage(file: ConversationFile, today: string): (answer: string)
    ensures file.Missing? ==> answer == "No active conversation yet."
    ensures file.Corrupt? ==> answer == "Couldn't read context usage."
    ensures file.Stored? && file.record.date != Some(today) ==> answer == "No conversation today yet."
    ensures file.Stored? && file.record.date == Some(today) ==>
      answer == UsageLine(Counter(file.record.usage, InputTokensKey), Counter(file.record.usage, CacheReadKey))
  {
    match file
    case Missing => "No active conversation yet."
    case Corrupt => "Couldn't read context usage."
    case Stored(record) =>
      if record.date != Some(today) then "No conversation today yet."
      else UsageLine(Counter(record.usage, InputTokensKey), Counter(record.usage, CacheReadKey))
  }

  // ---------------------------------------------------------------- save_conversation_id

  /**
   * The usage object that `save_conversation_id` stores: exactly the three
   * counters, each copied from `usage` or 0 when absent, and all 0 when
   * there is no usage.
   */
  function LatestUsage(usage: Option<map<string, int>>): (latest: map<string, int>)
    ensures latest.Keys == {InputTokensKey, OutputTokensKey, CacheReadKey}
    ensures forall k :: k in latest ==> latest[k] == Counter(usage.GetOr(map[]), k)
  {
    var u := usage.GetOr(map[]);
    map[InputTokensKey := Counter(u, InputTokensKey),
        OutputTokensKey := Counter(u, OutputTokensKey),
        CacheReadKey := Counter(u, CacheReadKey)]
  }

  /**
   * The record written by `save_conversation_id(id, usage)` on `today`: it
   * reads back as today's id, and its usage summary is computed from the
   * saved counters.
   */
  function Saved(id: string, usage: Option<map<string, int>>, today: string): (file: ConversationFile)
    ensures ConversationIdOf(file, today) == Some(id)
    ensures forall other :: other != today ==> ConversationIdOf(file, other) == None
    ensures ContextUsage(file, today) ==
      UsageLine(Counter(usage.GetOr(map[]), InputTokensKey), Counter(usage.GetOr(map[]), CacheReadKey))
    ensures forall other :: other != today ==> ContextUsage(file, other) == "No conversation today yet."
  {
    Stored(ConversationRecord(Some(today), Some(id), LatestUsage(usage)))
  }

  /** Saving without usage reports an empty context. */
  lemma SavedWithoutUsage(id: string, today: string)
    ensures ContextUsage(Saved(id, None, today), today) == "0" + "k tokens in context, " + "0" + "% cached. " + "Plenty of room."
  {
    assert Thousands(0) == 0 && CachePercent(0, 0) == 0;
    assert DigitChar(0) == '0';
    assert IntToString(0) == "0";
    assert StatusText(StatusFor(0)) == "Plenty of room.";
    assert UsageLine(0, 0) == "0" + "k tokens in context, " + "0" + "% cached. " + "Plenty of room.";
  }

  /** The session file beside the conversations, rewritten in place. */
  class ConversationStore {
    var file: ConversationFile

    constructor(file: ConversationFile)
      ensures this.file == file
    {
      this.file := file;
    }

    /**
     * `save_conversation_id`: fill the usage object counter by counter
     * (all 0 when `usage` is absent or empty) and write the record dated today.
     */
    method SaveConversationId(id: string, usage: Option<map<string, int>>, today: string)
      modifies this
      ensures file == Saved(id, usage, today)
    {
      var latest := map[InputTokensKey := 0, OutputTokensKey := 0, CacheReadKey := 0];
      if usage.Some? && usage.value != map[] {
        var u := usage.value;
        latest := latest[InputTokensKey := if InputTokensKey in u then u[InputTokensKey] else 0];
        latest := latest[OutputTokensKey := if OutputTokensKey in u then u[OutputTokensKey] else 0];
        latest := latest[CacheReadKey := if CacheReadKey in u then u[CacheReadKey] else 0];
      }
      assert latest == LatestUsage(usage);
      file := Stored(ConversationRecord(Some(today), Some(id), latest));
    }

    /** `clear_conversation`: the file is deleted if it exists. */
    method ClearConversation()
      modifies this
      ensures file == Missing
      ensures forall today :: ConversationIdOf(file, today) == None
    {
      file := Missing;
    }
  }
}
