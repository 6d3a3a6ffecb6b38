/**
 * The memory context prepended to a prompt: two result lists fetched from
 * the memory service (a semantic search and the most recent memories) are
 * filtered to the current agent, merged with duplicates removed by memory
 * id, and rendered as a bullet list. The HTTP requests are parameters: each
 * is a failed request or the decoded response body.
 */
module Memory {
  import opened Wrappers
  import opened Text

  /**
   * One result from the service: a missing `id` or `memory` reads as "",
   * and `agent` is the `metadata.agent` field, `None` when absent.
   */
  datatype MemoryResult = MemoryResult(id: string, memory: string, agent: Option<string>)

  /**
   * A response body: a list of results, or an object whose `results`
   * key holds them (the empty list when the key is absent). `Failed`
   * covers every request that raised.
   */
  datatype ApiResponse = Failed | ListBody(items: seq<MemoryResult>) | DictBody(results: seq<MemoryResult>)

  // ---------------------------------------------------------------- fetching

  /** The comprehension keeping the results whose metadata names `agent`, in order. */
  function ForAgent(results: seq<MemoryResult>, agent: string): (kept: seq<MemoryResult>)
    ensures |kept| <= |results|
    ensures forall r :: r in kept <==> r in results && r.agent == Some(agent)
  {
    if results == [] then []
    else (if results[0].agent == Some(agent) then [results[0]] else []) + ForAgent(results[1..], agent)
  }

  /** Filtering a concatenation filters each part and keeps their order. */
  lemma {:induction false} ForAgentAppend(a: seq<MemoryResult>, b: seq<MemoryResult>, agent: string)
    ensures ForAgent(a + b, agent) == ForAgent(a, agent) + ForAgent(b, agent)
  {
    if a == [] {
      assert a + b == b;
    } else {
      assert (a + b)[0] == a[0];
      assert (a + b)[1..] == a[1..] + b;
      ForAgentAppend(a[1..], b, agent);
    }
  }

  /**
   * `_search_memories`: a list body is filtered to the agent and cut to
   * `limit` (Python's `[:limit]`); an object body is returned as it is;
   * a failed request gives no results.
   */
  function SearchMemories(response: ApiResponse, agent: string, limit: int): (results: seq<MemoryResult>)
    ensures response.Failed? ==> results == []
    ensures response.ListBody? ==>
      results == PyPrefix(ForAgent(response.items, agent), limit)
      && (forall r :: r in results ==> r in response.items && r.agent == Some(agent))
      && (limit >= 0 ==> |results| <= limit)
    ensures response.DictBody? ==> results == response.results
  {
    match response
    case Failed => []
    case ListBody(items) =>
      var kept := ForAgent(items, agent);
      PrefixElements(kept, limit);
      PyPrefix(kept, limit)
    case DictBody(items) => items
  }

  /**
   * `_get_recent_memories`: either body is filtered to the agent and cut
   * to `limit`; a failed request gives no results.
   */
  function RecentMemories(response: ApiResponse, agent: string, limit: int): (results: seq<MemoryResult>)
    ensures response.Failed? ==> results == []
    ensures !response.Failed? ==>
      var body := if response.ListBody? then response.items else response.results;
      && results == PyPrefix(ForAgent(body, agent), limit)
      && (forall r :: r in results ==> r in body && r.agent == Some(agent))
      && (limit >= 0 ==> |results| <= limit)
  {
    match response
    case Failed => []
    case ListBody(items) =>
      var kept := ForAgent(items, agent);
      PrefixElements(kept, limit);
      PyPrefix(kept, limit)
    case DictBody(items) =>
      var kept := ForAgent(items, agent);
      PrefixElements(kept, limit);
      PyPrefix(kept, limit)
  }

  lemma PrefixElements<T>(s: seq<T>, n: int)
    ensures forall x :: x in PyPrefix(s, n) ==> x in s
  {
    var p := PyPrefix(s, n);
    assert p == s[..|p|];
    forall x | x in p ensures x in s {
      var k :| 0 <= k < |p| && p[k] == x;
      assert s[k] == x;
    }
  }

  // ---------------------------------------------------------------- merging

  /** The ids carried by some result (the empty id included). */
  function IdsOf(results: seq<MemoryResult>): set<string> {
    if results == [] then {} else {results[0].id} + IdsOf(results[1..])
  }

  /**
   * The results that survive deduplication, given the ids already `seen`:
   * a result with an empty id is skipped, and so is one whose id was seen;
   * otherwise its id becomes seen, whatever its text.
   */
  function FirstOccurrences(results: seq<MemoryResult>, seen: set<string>): (firsts: seq<MemoryResult>)
    ensures forall r :: r in firsts ==> r.id != "" && r.id !in seen
  {
    if results == [] then []
    else
      var r := results[0];
      if r.id != "" && r.id !in seen then [r] + FirstOccurrences(results[1..], seen + {r.id})
      else FirstOccurrences(results[1..], seen)
  }

  /** Deduplication only drops results: whatever is kept came from the input. */
  lemma {:induction false} FirstOccurrencesFrom(results: seq<MemoryResult>, seen: set<string>)
    ensures forall r :: r in FirstOccurrences(results, seen) ==> r in results
  {
    if results != [] {
      var r := results[0];
      var seen' := if r.id != "" && r.id !in seen then seen + {r.id} else seen;
      FirstOccurrencesFrom(results[1..], seen');
      forall x | x in results[1..] ensures x in results {
        var k :| 0 <= k < |results[1..]| && results[1..][k] == x;
        assert results[k + 1] == x;
      }
    }
  }

  predicate DistinctIds(results: seq<MemoryResult>) {
    forall k, l :: 0 <= k < l < |results| ==> results[k].id != results[l].id
  }

  /** No id is kept twice. */
  lemma {:induction false} FirstOccurrencesDistinct(results: seq<MemoryResult>, seen: set<string>)
    ensures DistinctIds(FirstOccurrences(results, seen))
  {
    if results != [] {
      var r := results[0];
      if r.id != "" && r.id !in seen {
        var rest := FirstOccurrences(results[1..], seen + {r.id});
        FirstOccurrencesDistinct(results[1..], seen + {r.id});
        var firsts := [r] + rest;
        assert FirstOccurrences(results, seen) == firsts;
        forall k, l | 0 <= k < l < |firsts| ensures firsts[k].id != firsts[l].id {
          assert firsts[l] == rest[l - 1];
          assert rest[l - 1] in rest;
          if k > 0 {
            assert firsts[k] == rest[k - 1];
          } else {
            assert firsts[k] == r;
            assert rest[l - 1].id !in seen + {r.id};
          }
        }
      } else {
        FirstOccurrencesDistinct(results[1..], seen);
        assert FirstOccurrences(results, seen) == FirstOccurrences(results[1..], seen);
      }
    }
  }

  /** Every non-empty id not seen before is kept, and no other. */
  lemma {:induction false} FirstOccurrencesIds(results: seq<MemoryResult>, seen: set<string>)
    ensures IdsOf(FirstOccurrences(results, seen)) == IdsOf(results) - seen - {""}
  {
    if results != [] {
      var r := results[0];
      if r.id != "" && r.id !in seen {
        var rest := FirstOccurrences(results[1..], seen + {r.id});
        FirstOccurrencesIds(results[1..], seen + {r.id});
        assert ([r] + rest)[1..] == rest;
      } else {
        FirstOccurrencesIds(results[1..], seen);
      }
    }
  }

  /** The texts of the results, in order, leaving out empty texts. */
  function Texts(results: seq<MemoryResult>): (texts: seq<string>)
    ensures forall t :: t in texts ==> t != ""
    ensures |texts| <= |results|
    ensures forall r :: r in results && r.memory != "" ==> r.memory in texts
    ensures forall t :: t in texts ==> exists r :: r in results && r.memory == t
  {
    if results == [] then []
    else (if results[0].memory != "" then [results[0].memory] else []) + Texts(results[1..])
  }

  /** The merged memory texts of the semantic results followed by the temporal ones. */
  function Merged(semantic: seq<MemoryResult>, temporal: seq<MemoryResult>): seq<string> {
    Texts(FirstOccurrences(semantic + temporal, {}))
  }

  lemma {:induction false} IdsOfAppend(a: seq<MemoryResult>, b: seq<MemoryResult>)
    ensures IdsOf(a + b) == IdsOf(a) + IdsOf(b)
  {
    if a == [] {
      assert a + b == b;
    } else {
      assert (a + b)[0] == a[0];
      assert (a + b)[1..] == a[1..] + b;
      IdsOfAppend(a[1..], b);
    }
  }

  /** Deduplicating a concatenation: the second part sees the ids of the first. */
  lemma {:induction false} FirstOccurrencesAppend(a: seq<MemoryResult>, b: seq<MemoryResult>, seen: set<string>)
    ensures FirstOccurrences(a + b, seen) == FirstOccurrences(a, seen) + FirstOccurrences(b, seen + (IdsOf(a) - {""}))
  {
    if a == [] {
      assert a + b == b;
      assert seen + (IdsOf(a) - {""}) == seen;
    } else {
      var r := a[0];
      assert (a + b)[0] == r;
      assert (a + b)[1..] == a[1..] + b;
      if r.id != "" && r.id !in seen {
        FirstOccurrencesAppend(a[1..], b, seen + {r.id});
        assert seen + {r.id} + (IdsOf(a[1..]) - {""}) == seen + (IdsOf(a) - {""});
      } else {
        FirstOccurrencesAppend(a[1..], b, seen);
        assert seen + (IdsOf(a[1..]) - {""}) == seen + (IdsOf(a) - {""});
      }
    }
  }

  lemma {:induction false} TextsAppend(a: seq<MemoryResult>, b: seq<MemoryResult>)
    ensures Texts(a + b) == Texts(a) + Texts(b)
  {
    if a == [] {
      assert a + b == b;
    } else {
      assert (a + b)[0] == a[0];
      assert (a + b)[1..] == a[1..] + b;
      TextsAppend(a[1..], b);
    }
  }

  /**
   * Every semantic memory comes before every temporal one, and a temporal
   * result whose id a semantic result already carried contributes nothing.
   */
  lemma SemanticFirst(semantic: seq<MemoryResult>, temporal: seq<MemoryResult>)
    ensures Merged(semantic, temporal) ==
      Texts(FirstOccurrences(semantic, {})) + Texts(FirstOccurrences(temporal, IdsOf(semantic) - {""}))
  {
    FirstOccurrencesAppend(semantic, temporal, {});
    assert {} + (IdsOf(semantic) - {""}) == IdsOf(semantic) - {""};
    TextsAppend(FirstOccurrences(semantic, {}), FirstOccurrences(temporal, IdsOf(semantic) - {""}));
  }

  /**
   * A result whose id is empty, or whose id an earlier result already
   * carried (even one with an empty text), can be removed without changing
   * the merge.
   */
  lemma Suppressed(before: seq<MemoryResult>, r: MemoryResult, after: seq<MemoryResult>, seen: set<string>)
    requires r.id == "" || r.id in seen || r.id in IdsOf(before)
    ensures FirstOccurrences(before + [r] + after, seen) == FirstOccurrences(before + after, seen)
  {
    var seen' := seen + (IdsOf(before) - {""});
    FirstOccurrencesAppend(before, [r] + after, seen);
    FirstOccurrencesAppend(before, after, seen);
    assert before + [r] + after == before + ([r] + after);
    assert ([r] + after)[1..] == after;
  }

  /** One step of the merge at index `i`: that result is kept or skipped, then the rest is merged. */
  lemma MergeStep(results: seq<MemoryResult>, i: int, seen: set<string>)
    requires 0 <= i < |results|
    ensures var r := results[i];
      Texts(FirstOccurrences(results[i..], seen)) ==
        if r.id != "" && r.id !in seen && r.memory != "" then [r.memory] + Texts(FirstOccurrences(results[i + 1..], seen + {r.id}))
        else if r.id != "" && r.id !in seen then Texts(FirstOccurrences(results[i + 1..], seen + {r.id}))
        else Texts(FirstOccurrences(results[i + 1..], seen))
  {
    var r := results[i];
    assert results[i..][0] == r;
    assert results[i..][1..] == results[i + 1..];
    if r.id != "" && r.id !in seen {
      var firsts := [r] + FirstOccurrences(results[i + 1..], seen + {r.id});
      assert firsts[1..] == FirstOccurrences(results[i + 1..], seen + {r.id});
    }
  }

  lemma AppendAssociative<T>(a: seq<T>, b: seq<T>, c: seq<T>)
    ensures (a + b) + c == a + (b + c)
  {
  }

  /** The ids seen after one more result of the prefix. */
  lemma SeenStep(results: seq<MemoryResult>, i: int, seen0: set<string>, seen: set<string>)
    requires 0 <= i < |results|
    requires seen == seen0 + (IdsOf(results[..i]) - {""})
    ensures var id := results[i].id;
      (if id != "" && id !in seen then seen + {id} else seen) == seen0 + (IdsOf(results[..i + 1]) - {""})
  {
    assert results[..i + 1] == results[..i] + [results[i]];
    IdsOfAppend(results[..i], [results[i]]);
    assert [results[i]][1..] == [];
  }

  /**
   * The loop of `get_memory_context` over one result list: each result
   * with a new non-empty id marks it seen and appends its non-empty text.
   */
  method MergeInto(results: seq<MemoryResult>, seen0: set<string>, memories0: seq<string>)
    returns (seen: set<string>, memories: seq<string>)
    ensures memories == memories0 + Texts(FirstOccurrences(results, seen0))
    ensures seen == seen0 + (IdsOf(results) - {""})
  {
    seen, memories := seen0, memories0;
    ghost var goal := memories0 + Texts(FirstOccurrences(results, seen0));
    assert results[0..] == results;
    var i := 0;
    while i < |results|
      invariant 0 <= i <= |results|
      invariant seen == seen0 + (IdsOf(results[..i]) - {""})
      invariant memories + Texts(FirstOccurrences(results[i..], seen)) == goal
    {
      var result := results[i];
      SeenStep(results, i, seen0, seen);
      MergeStep(results, i, seen);
      if result.id != "" && result.id !in seen {
        ghost var later := Texts(FirstOccurrences(results[i + 1..], seen + {result.id}));
        seen := seen + {result.id};
        if result.memory != "" {
          AppendAssociative(memories, [result.memory], later);
          memories := memories + [result.memory];
        }
      }
      i := i + 1;
    }
    assert results[..i] == results;
  }

  /** The two loops: semantic results first, then temporal ones, sharing one set of seen ids. */
  method MergeMemories(semantic: seq<MemoryResult>, temporal: seq<MemoryResult>) returns (memories: seq<string>)
    ensures memories == Merged(semantic, temporal)
  {
    var seen: set<string> := {};
    seen, memories := MergeInto(semantic, seen, []);
    assert seen == IdsOf(semantic) - {""};
    assert memories == Texts(FirstOccurrences(semantic, {}));
    seen, memories := MergeInto(temporal, seen, memories);
    SemanticFirst(semantic, temporal);
  }

  // ---------------------------------------------------------------- formatting

  const MemoryHeader: string := "## What I remember"

  function Bullet(m: string): string {
    "- " + m
  }

  function Bullets(memories: seq<string>): (lines: seq<string>)
    ensures |lines| == |memories|
    ensures forall k :: 0 <= k < |lines| ==> lines[k] == Bullet(memories[k])
  {
    if memories == [] then [] else [Bullet(memories[0])] + Bullets(memories[1..])
  }

  /** No memories render as ""; otherwise a heading line and one bullet line per memory. */
  function FormatMemoryContext(memories: seq<string>): (context: string)
    ensures memories == [] <==> context == ""
    ensures memories != [] ==> context == Join("\n", [MemoryHeader] + Bullets(memories))
  {
    if memories == [] then ""
    else
      JoinCons("\n", MemoryHeader, Bullets(memories));
      MemoryHeader + "\n" + Join("\n", Bullets(memories))
  }

  /** When no memory spans lines, the lines of the context are the heading and the bullets. */
  lemma FormatLines(memories: seq<string>)
    requires memories != []
    requires forall m :: m in memories ==> '\n' !in m
    ensures SplitOn(FormatMemoryContext(memories), '\n') == [MemoryHeader] + Bullets(memories)
  {
    var lines := [MemoryHeader] + Bullets(memories);
    forall p | p in lines ensures '\n' !in p {
      if p != MemoryHeader {
        var k :| 0 <= k < |Bullets(memories)| && Bullets(memories)[k] == p;
        assert memories[k] in memories;
        assert p == "- " + memories[k];
      }
    }
    SplitOnJoin(lines, '\n');
  }

  /**
   * `get_memory_context`: without an API key nothing is fetched and the
   * result is ""; a fetch that times out also gives ""; otherwise the
   * merged memories are formatted.
   */
  method GetMemoryContext(
    apiKey: string, agent: string, semanticLimit: int, temporalLimit: int,
    search: ApiResponse, recent: ApiResponse, timedOut: bool)
    returns (context: string)
    ensures apiKey == "" || timedOut ==> context == ""
    ensures apiKey != "" && !timedOut ==>
      context == FormatMemoryContext(Merged(
        SearchMemories(search, agent, semanticLimit),
        RecentMemories(recent, agent, temporalLimit)))
  {
    if apiKey == "" {
      return "";
    }
    if timedOut {
      return "";
    }
    var semantic := SearchMemories(search, agent, semanticLimit);
    var temporal := RecentMemories(recent, agent, temporalLimit);
    var memories := MergeMemories(semantic, temporal);
    if memories == [] {
      return "";
    }
    context := MemoryHeader + "\n" + Join("\n", Bullets(memories));
    JoinCons("\n", MemoryHeader, Bullets(memories));
  }
}
