/**
 * The hotword string handed to the speech recogniser: every word of the
 * configured keywords, every command name and alias, and every piece of
 * every agent name, lowercased, deduplicated, sorted and joined by spaces;
 * and the process-wide cache that holds it.
 */
module Hotwords {
  import opened Wrappers
  import opened Text
  import opened Config

  // ---------------------------------------------------------------- the word set

  /** The words the keyword loop adds for `keywords`, one keyword after another. */
  function KeywordWords(keywords: seq<string>): set<string>
    decreases |keywords|
  {
    if keywords == [] then {}
    else
      var n := |keywords| - 1;
      KeywordWords(keywords[..n]) + Elems(Split(Lower(keywords[n])))
  }

  /** The lowercased aliases of one command. */
  function AliasWords(aliases: seq<string>): set<string>
    decreases |aliases|
  {
    if aliases == [] then {}
    else
      var n := |aliases| - 1;
      AliasWords(aliases[..n]) + {Lower(aliases[n])}
  }

  /** The words the command loop adds: each lowercased name, then its lowercased aliases. */
  function CommandWords(commands: seq<CommandConfig>): set<string>
    decreases |commands|
  {
    if commands == [] then {}
    else
      var n := |commands| - 1;
      CommandWords(commands[..n]) + {Lower(commands[n].name)} + AliasWords(commands[n].aliases)
  }

  /** The lowercased pieces of one agent name. */
  function PartWords(parts: seq<string>): set<string>
    decreases |parts|
  {
    if parts == [] then {}
    else
      var n := |parts| - 1;
      PartWords(parts[..n]) + {Lower(parts[n])}
  }

  /** The words the agent loop adds: the lowercased pieces of each name, hyphens read as spaces. */
  function AgentWords(agents: seq<AgentConfig>): set<string>
    decreases |agents|
  {
    if agents == [] then {}
    else
      var n := |agents| - 1;
      AgentWords(agents[..n]) + PartWords(Split(Replace(agents[n].name, '-', ' ')))
  }

  /** The hotword set of a configuration. */
  function HotwordSet(config: VoiceAgentConfig): set<string> {
    KeywordWords(config.keywords) + CommandWords(config.commands) + AgentWords(config.agents)
  }

  /** `w` is a lowercased word of the `k`-th keyword. */
  predicate KeywordHas(keywords: seq<string>, k: int, w: string) {
    0 <= k < |keywords| && w in Split(Lower(keywords[k]))
  }

  lemma {:induction false} KeywordWordsMembers(keywords: seq<string>, w: string)
    ensures w in KeywordWords(keywords) <==> exists k :: KeywordHas(keywords, k, w)
    decreases |keywords|
  {
    if keywords != [] {
      var n := |keywords| - 1;
      KeywordWordsMembers(keywords[..n], w);
      if w in KeywordWords(keywords[..n]) {
        var k :| KeywordHas(keywords[..n], k, w);
        assert KeywordHas(keywords, k, w);
      }
      if k :| KeywordHas(keywords, k, w) {
        if k < n {
          assert KeywordHas(keywords[..n], k, w);
        }
      }
      assert w in Elems(Split(Lower(keywords[n]))) <==> KeywordHas(keywords, n, w);
    }
  }

  lemma {:induction false} AliasWordsMembers(aliases: seq<string>, w: string)
    ensures w in AliasWords(aliases) <==> exists j :: 0 <= j < |aliases| && w == Lower(aliases[j])
    decreases |aliases|
  {
    if aliases != [] {
      var n := |aliases| - 1;
      AliasWordsMembers(aliases[..n], w);
      if w in AliasWords(aliases[..n]) {
        var j :| 0 <= j < n && w == Lower(aliases[..n][j]);
        assert w == Lower(aliases[j]);
      }
      if j :| 0 <= j < |aliases| && w == Lower(aliases[j]) {
        if j < n {
          assert w == Lower(aliases[..n][j]);
        }
      }
    }
  }

  /** `w` is the lowercased name or a lowercased alias of the `k`-th command. */
  predicate CommandHas(commands: seq<CommandConfig>, k: int, w: string) {
    0 <= k < |commands| &&
    (w == Lower(commands[k].name) || exists j :: 0 <= j < |commands[k].aliases| && w == Lower(commands[k].aliases[j]))
  }

  lemma {:induction false} CommandWordsMembers(commands: seq<CommandConfig>, w: string)
    ensures w in CommandWords(commands) <==> exists k :: CommandHas(commands, k, w)
    decreases |commands|
  {
    if commands != [] {
      var n := |commands| - 1;
      CommandWordsMembers(commands[..n], w);
      AliasWordsMembers(commands[n].aliases, w);
      assert w in {Lower(commands[n].name)} + AliasWords(commands[n].aliases) <==> CommandHas(commands, n, w);
      if w in CommandWords(commands[..n]) {
        var k :| CommandHas(commands[..n], k, w);
        assert commands[..n][k] == commands[k];
        assert CommandHas(commands, k, w);
      }
      if k :| CommandHas(commands, k, w) {
        if k < n {
          assert commands[..n][k] == commands[k];
          assert CommandHas(commands[..n], k, w);
        }
      }
    }
  }

  lemma {:induction false} PartWordsMembers(parts: seq<string>, w: string)
    ensures w in PartWords(parts) <==> exists j :: 0 <= j < |parts| && w == Lower(parts[j])
    decreases |parts|
  {
    if parts != [] {
      var n := |parts| - 1;
      PartWordsMembers(parts[..n], w);
      if w in PartWords(parts[..n]) {
        var j :| 0 <= j < n && w == Lower(parts[..n][j]);
        assert w == Lower(parts[j]);
      }
      if j :| 0 <= j < |parts| && w == Lower(parts[j]) {
        if j < n {
          assert w == Lower(parts[..n][j]);
        }
      }
    }
  }

  /** `w` is a lowercased piece of the `k`-th agent's name, hyphens read as spaces. */
  predicate AgentHas(agents: seq<AgentConfig>, k: int, w: string) {
    0 <= k < |agents| &&
    exists p :: p in Split(Replace(agents[k].name, '-', ' ')) && w == Lower(p)
  }

  lemma {:induction false} AgentWordsMembers(agents: seq<AgentConfig>, w: string)
    ensures w in AgentWords(agents) <==> exists k :: AgentHas(agents, k, w)
    decreases |agents|
  {
    if agents != [] {
      var n := |agents| - 1;
      var parts := Split(Replace(agents[n].name, '-', ' '));
      AgentWordsMembers(agents[..n], w);
      PartWordsMembers(parts, w);
      if w in PartWords(parts) {
        var j :| 0 <= j < |parts| && w == Lower(parts[j]);
        assert parts[j] in parts;
        assert AgentHas(agents, n, w);
      }
      if AgentHas(agents, n, w) {
        var p :| p in parts && w == Lower(p);
        var j :| 0 <= j < |parts| && parts[j] == p;
        assert w in PartWords(parts);
      }
      if w in AgentWords(agents[..n]) {
        var k :| AgentHas(agents[..n], k, w);
        assert agents[..n][k] == agents[k];
        assert AgentHas(agents, k, w);
      }
      if k :| AgentHas(agents, k, w) {
        if k < n {
          assert agents[..n][k] == agents[k];
          assert AgentHas(agents[..n], k, w);
        }
      }
    }
  }

  /**
   * Exactly three sources feed the hotword set: the words of the keywords,
   * the command names and aliases, and the pieces of the agent names, all
   * lowercased. Nothing else is in it.
   */
  lemma HotwordSetMembers(config: VoiceAgentConfig, w: string)
    ensures w in HotwordSet(config) <==>
      || (exists k :: KeywordHas(config.keywords, k, w))
      || (exists k :: CommandHas(config.commands, k, w))
      || (exists k :: AgentHas(config.agents, k, w))
  {
    KeywordWordsMembers(config.keywords, w);
    CommandWordsMembers(config.commands, w);
    AgentWordsMembers(config.agents, w);
  }

  // ---------------------------------------------------------------- sorting

  /** Ascending in Python's string order, with no word twice. */
  predicate StrictlySorted(s: seq<string>) {
    forall i, j :: 0 <= i < j < |s| ==> LexLess(s[i], s[j])
  }

  /** `m` comes before every other element of `s`. */
  predicate IsLeast(m: string, s: set<string>) {
    m in s && forall x :: x in s && x != m ==> LexLess(m, x)
  }

  lemma LeastExists(s: set<string>)
    requires s != {}
    ensures exists m :: IsLeast(m, s)
    decreases |s|
  {
    var y :| y in s;
    if s != {y} {
      var rest := s - {y};
      LeastExists(rest);
      var m :| IsLeast(m, rest);
      LexLessTotal(y, m);
      if LexLess(y, m) {
        forall x | x in s && x != y ensures LexLess(y, x) {
          if x != m {
            LexLessTransitive(y, m, x);
          }
        }
        assert IsLeast(y, s);
      } else {
        assert IsLeast(m, s);
      }
    } else {
      assert IsLeast(y, s);
    }
  }

  /** `sorted(s)` for a set of strings: its elements in ascending order. */
  ghost function SortedOf(s: set<string>): (r: seq<string>)
    ensures StrictlySorted(r) && Elems(r) == s
    decreases |s|
  {
    if s == {} then []
    else
      LeastExists(s);
      var m :| IsLeast(m, s);
      var rest := SortedOf(s - {m});
      LeastHeads(m, s, rest);
      [m] + rest
  }

  /** The least element followed by a sorted listing of the others lists the whole set. */
  lemma LeastHeads(m: string, s: set<string>, rest: seq<string>)
    requires IsLeast(m, s)
    requires StrictlySorted(rest) && Elems(rest) == s - {m}
    ensures StrictlySorted([m] + rest) && Elems([m] + rest) == s
  {
    forall x | x in rest ensures LexLess(m, x) {
      assert x in Elems(rest);
    }
    ConsSorted(m, rest);
  }

  /** A word before every element of a sorted listing can head it. */
  lemma ConsSorted(h: string, t: seq<string>)
    requires StrictlySorted(t)
    requires forall x :: x in t ==> LexLess(h, x)
    ensures StrictlySorted([h] + t)
    ensures Elems([h] + t) == {h} + Elems(t)
  {
    var r := [h] + t;
    forall i, j | 0 <= i < j < |r| ensures LexLess(r[i], r[j]) {
      assert r[j] == t[j - 1];
      if i > 0 {
        assert r[i] == t[i - 1];
      }
    }
    assert forall x :: x in r <==> x == h || x in t;
  }

  /** A set has only one strictly sorted listing. */
  lemma {:induction false} SortedUnique(a: seq<string>, b: seq<string>)
    requires StrictlySorted(a) && StrictlySorted(b) && Elems(a) == Elems(b)
    ensures a == b
    decreases |a|
  {
    assert b != [] ==> b[0] in Elems(b);
    if a != [] {
      assert a[0] in Elems(b);
      assert b[0] in Elems(a);
      if a[0] != b[0] {
        var i :| 0 <= i < |a| && a[i] == b[0];
        var j :| 0 <= j < |b| && b[j] == a[0];
        assert LexLess(a[0], b[0]);
        assert LexLess(b[0], a[0]);
        LexLessTransitive(a[0], b[0], a[0]);
        LexLessIrreflexive(a[0]);
      }
      forall x | x in a[1..] ensures x != a[0] {
        var i :| 0 <= i < |a[1..]| && a[1..][i] == x;
        assert LexLess(a[0], a[i + 1]);
        LexLessIrreflexive(a[0]);
      }
      forall x | x in b[1..] ensures x != b[0] {
        var i :| 0 <= i < |b[1..]| && b[1..][i] == x;
        assert LexLess(b[0], b[i + 1]);
        LexLessIrreflexive(b[0]);
      }
      assert forall x :: x in a <==> x == a[0] || x in a[1..];
      assert forall x :: x in b <==> x == b[0] || x in b[1..];
      forall x ensures x in Elems(a[1..]) <==> x in Elems(b[1..]) {
        assert x in Elems(a) <==> x in a;
        assert x in Elems(b) <==> x in b;
      }
      assert Elems(a[1..]) == Elems(b[1..]);
      SortedUnique(a[1..], b[1..]);
      assert a == [a[0]] + a[1..];
      assert b == [b[0]] + b[1..];
    }
  }

  /** `w` inserted into a sorted listing that lacks it. */
  function Insert(w: string, s: seq<string>): (r: seq<string>)
    requires StrictlySorted(s) && w !in s
    ensures StrictlySorted(r) && Elems(r) == Elems(s) + {w}
    decreases |s|
  {
    if s == [] then [w]
    else
      LexLessTotal(w, s[0]);
      if LexLess(w, s[0]) then
        assert forall j :: 0 <= j < |s| ==> LexLess(w, s[j]) by {
          forall j | 0 <= j < |s| ensures LexLess(w, s[j]) {
            if j > 0 { LexLessTransitive(w, s[0], s[j]); }
          }
        }
        ConsSorted(w, s);
        [w] + s
      else
        var rest := Insert(w, s[1..]);
        assert forall x :: x in rest ==> LexLess(s[0], x) by {
          forall x | x in rest ensures LexLess(s[0], x) {
            assert x in Elems(rest);
            if x != w {
              var j :| 0 <= j < |s[1..]| && s[1..][j] == x;
              assert s[j + 1] == x;
            }
          }
        }
        assert s == [s[0]] + s[1..];
        ConsSorted(s[0], rest);
        [s[0]] + rest
  }

  /** Python's `sorted` on the word set. */
  method SortWords(words: set<string>) returns (sorted: seq<string>)
    ensures sorted == SortedOf(words)
  {
    sorted := [];
    var rest := words;
    while rest != {}
      invariant StrictlySorted(sorted)
      invariant Elems(sorted) + rest == words
      invariant Elems(sorted) !! rest
      decreases |rest|
    {
      var w :| w in rest;
      sorted := Insert(w, sorted);
      rest := rest - {w};
    }
    SortedUnique(sorted, SortedOf(words));
  }

  // ---------------------------------------------------------------- the string

  /** What `build_hotwords_string` returns. */
  ghost function HotwordsString(config: VoiceAgentConfig): string {
    Join(" ", SortedOf(HotwordSet(config)))
  }

  /** The keyword loop of `build_hotwords_string`: `words.update(kw.lower().split())`. */
  method AddKeywordWords(words: set<string>, keywords: seq<string>) returns (words': set<string>)
    ensures words' == words + KeywordWords(keywords)
  {
    words' := words;
    for i := 0 to |keywords|
      invariant words' == words + KeywordWords(keywords[..i])
    {
      assert keywords[..i + 1][..i] == keywords[..i];
      words' := words' + Elems(Split(Lower(keywords[i])));
    }
    assert keywords[..|keywords|] == keywords;
  }

  /** The command loop of `build_hotwords_string`: each name, then each alias, lowercased. */
  method AddCommandWords(words: set<string>, commands: seq<CommandConfig>) returns (words': set<string>)
    ensures words' == words + CommandWords(commands)
  {
    words' := words;
    for i := 0 to |commands|
      invariant words' == words + CommandWords(commands[..i])
    {
      assert commands[..i + 1][..i] == commands[..i];
      var cmd := commands[i];
      words' := words' + {Lower(cmd.name)};
      for j := 0 to |cmd.aliases|
        invariant words' == words + CommandWords(commands[..i]) + {Lower(cmd.name)} + AliasWords(cmd.aliases[..j])
      {
        assert cmd.aliases[..j + 1][..j] == cmd.aliases[..j];
        words' := words' + {Lower(cmd.aliases[j])};
      }
      assert cmd.aliases[..|cmd.aliases|] == cmd.aliases;
    }
    assert commands[..|commands|] == commands;
  }

  /** The agent loop of `build_hotwords_string`: each piece of each hyphen-split name, lowercased. */
  method AddAgentWords(words: set<string>, agents: seq<AgentConfig>) returns (words': set<string>)
    ensures words' == words + AgentWords(agents)
  {
    words' := words;
    for i := 0 to |agents|
      invariant words' == words + AgentWords(agents[..i])
    {
      assert agents[..i + 1][..i] == agents[..i];
      var parts := Split(Replace(agents[i].name, '-', ' '));
      for j := 0 to |parts|
        invariant words' == words + AgentWords(agents[..i]) + PartWords(parts[..j])
      {
        assert parts[..j + 1][..j] == parts[..j];
        words' := words' + {Lower(parts[j])};
      }
      assert parts[..|parts|] == parts;
    }
    assert agents[..|agents|] == agents;
  }

  /** `build_hotwords_string`: three loops accumulate the word set, which is then sorted and joined. */
  method BuildHotwordsString(config: VoiceAgentConfig) returns (hotwords: string)
    ensures hotwords == HotwordsString(config)
  {
    var words: set<string> := {};
    words := AddKeywordWords(words, config.keywords);
    assert words == KeywordWords(config.keywords);
    words := AddCommandWords(words, config.commands);
    words := AddAgentWords(words, config.agents);
    assert words == HotwordSet(config);
    var sorted := SortWords(words);
    hotwords := Join(" ", sorted);
  }

  /** No word appears twice in the hotword listing. */
  lemma HotwordsDistinct(config: VoiceAgentConfig)
    ensures var ws := SortedOf(HotwordSet(config));
      forall i, j :: 0 <= i < j < |ws| ==> ws[i] != ws[j]
  {
    var ws := SortedOf(HotwordSet(config));
    forall i, j | 0 <= i < j < |ws| ensures ws[i] != ws[j] {
      if ws[i] == ws[j] {
        LexLessIrreflexive(ws[i]);
      }
    }
  }

  /** Every command name and alias is a single non-empty word. */
  predicate SingleWordCommands(config: VoiceAgentConfig) {
    forall k :: 0 <= k < |config.commands| ==>
      && config.commands[k].name != "" && NoSpace(config.commands[k].name)
      && forall j :: 0 <= j < |config.commands[k].aliases| ==>
           config.commands[k].aliases[j] != "" && NoSpace(config.commands[k].aliases[j])
  }

  /** Under single-word command names and aliases, every hotword is a single non-empty word. */
  lemma HotwordIsWord(config: VoiceAgentConfig, w: string)
    requires SingleWordCommands(config)
    requires w in HotwordSet(config)
    ensures w != [] && NoSpace(w)
  {
    HotwordSetMembers(config, w);
    if k :| CommandHas(config.commands, k, w) {
      var c := config.commands[k];
      if w == Lower(c.name) {
        LowerKeepsWords(c.name);
      } else {
        var j :| 0 <= j < |c.aliases| && w == Lower(c.aliases[j]);
        LowerKeepsWords(c.aliases[j]);
      }
    } else if k :| AgentHas(config.agents, k, w) {
      var p :| p in Split(Replace(config.agents[k].name, '-', ' ')) && w == Lower(p);
      LowerKeepsWords(p);
    }
  }

  /**
   * When every command name and alias is a single non-empty word, splitting
   * the hotword string on whitespace gives back exactly the sorted word set.
   */
  lemma HotwordsSplitBack(config: VoiceAgentConfig)
    requires SingleWordCommands(config)
    ensures Split(HotwordsString(config)) == SortedOf(HotwordSet(config))
  {
    var ws := SortedOf(HotwordSet(config));
    forall w | w in ws ensures w != [] && NoSpace(w) {
      assert w in Elems(ws);
      HotwordIsWord(config, w);
    }
    SplitJoin(ws);
  }

  /** Lowercasing keeps a word a word: the ASCII case change never makes or removes whitespace. */
  lemma LowerKeepsWords(s: string)
    ensures Lower(s) != [] <==> s != []
    ensures NoSpace(Lower(s)) <==> NoSpace(s)
  {
  }

  // ---------------------------------------------------------------- the cache

  /** The module-level hotword cache. */
  class HotwordsCache {
    var hotwords: Option<string>

    /** The cache before `set_hotwords` runs. */
    constructor()
      ensures hotwords == None
    {
      hotwords := None;
    }

    /** `set_hotwords`. */
    method SetHotwords(config: VoiceAgentConfig)
      modifies this
      ensures hotwords == Some(HotwordsString(config))
    {
      var s := BuildHotwordsString(config);
      hotwords := Some(s);
    }

    /** `get_hotwords`. */
    method GetHotwords() returns (h: Option<string>)
      ensures h == hotwords
    {
      h := hotwords;
    }
  }
}
