/** The memory object of one agent; every method is tied to the step of the model it takes. */
module AgentMemoryObject {
  import opened Prelude
  import opened StableSort
  import opened MemoryModel

  class AgentMemory {
    var items: map<Id, Item>
    var working: seq<Id>
    var episodic: seq<Id>
    var semantic: seq<Id>
    var keywordIndex: Index

    ghost function View(): Memory
      reads this
    {
      Memory(items, working, episodic, semantic, keywordIndex)
    }

    constructor ()
      ensures View() == Empty
    {
      items, working, episodic, semantic, keywordIndex := map[], [], [], [], map[];
    }

    method Remember(id: Id, item: Item, now: int)
      modifies this
      ensures View() == MemoryModel.Remember(old(View()), id, item, now)
    {
      items := items[id := item];
      match item.kind {
        case Working =>
          working := working + [id];
          if |working| > MaxWorking { ConsolidateWorkingMemory(); }
        case Episodic =>
          episodic := episodic + [id];
          if |episodic| > MaxEpisodic { ForgetOldEpisodic(now); }
        case Semantic =>
          semantic := semantic + [id];
          if |semantic| > MaxSemantic { ForgetLowImportanceSemantic(); }
        case Procedural =>
      }
      IndexMemory(id, item.words);
    }

    method IndexMemory(id: Id, words: seq<string>)
      modifies `keywordIndex
      ensures keywordIndex == IndexWords(old(keywordIndex), words, id)
    {
      for i := 0 to |words|
        invariant keywordIndex == IndexWords(old(keywordIndex), words[..i], id)
      {
        assert words[..i + 1][..i] == words[..i];
        if |words[i]| > 3 { ListUnder(words[i], id); }
      }
      assert words[..|words|] == words;
    }

    method ListUnder(word: string, id: Id)
      requires Meaningful(word)
      modifies `keywordIndex
      ensures keywordIndex == IndexWord(old(keywordIndex), word, id)
    {
      if word !in keywordIndex { keywordIndex := keywordIndex[word := []]; }
      keywordIndex := keywordIndex[word := keywordIndex[word] + [id]];
    }

    method ConsolidateWorkingMemory()
      modifies `items, `working, `episodic
      ensures View() == Consolidate(old(View()))
    {
      var important := Keep(working, ImportantIn(items));
      NoneMarked(items);
      for i := 0 to |important|
        invariant working == old(working) && items == MarkEpisodic(old(items), important[..i])
        invariant episodic == old(episodic) + important[..i]
      {
        OneMoreMarked(old(items), important, i);
        TakeSnoc(old(episodic), important, i);
        var id := important[i];
        if id in items { items := items[id := items[id].(kind := Episodic)]; }
        episodic := episodic + [id];
      }
      assert important[..|important|] == important;
      working := Last(working, MaxWorking);
    }

    method ForgetOldEpisodic(now: int)
      modifies `episodic
      ensures View() == ForgetEpisodic(old(View()), now)
    {
      episodic := Keep(episodic, WorthKeeping(items, now));
    }

    method ForgetLowImportanceSemantic()
      modifies `semantic
      ensures View() == ForgetSemantic(old(View()))
    {
      semantic := SortDesc(semantic, KeyOf(items));
      semantic := Take(semantic, MaxSemantic);
    }

    /** The ids listed under any word of the query. */
    method MatchingIds(query: seq<string>) returns (ids: set<Id>)
      ensures forall id :: id in ids <==> Matches(keywordIndex, query, id)
    {
      ids := {};
      for k := 0 to |query|
        invariant forall id :: id in ids <==> Matches(keywordIndex, query[..k], id)
      {
        ghost var before := ids;
        if query[k] in keywordIndex { ids := ids + Elements(keywordIndex[query[k]]); }
        forall id ensures id in ids <==> Matches(keywordIndex, query[..k + 1], id) {
          MatchesSnoc(keywordIndex, query, k, id);
        }
      }
      assert query[..|query|] == query;
    }

    method Filtered(candidates: seq<Id>, query: seq<string>) returns (r: seq<Id>)
      ensures r == Keep(candidates, Matcher(keywordIndex, query))
    {
      var ids := MatchingIds(query);
      KeepAgrees(candidates, id => id in ids, Matcher(keywordIndex, query));
      r := Keep(candidates, id => id in ids);
    }

    method Recall(query: Option<seq<string>>, kind: Option<Kind>, limit: int) returns (found: seq<Id>)
      modifies this
      ensures View() == MemoryModel.Recall(old(View()), query, kind, limit)
      ensures found == Recalled(old(View()), query, kind, limit)
    {
      var candidates := CandidatesOf(kind);
      if query.Some? {
        candidates := Filtered(candidates, query.value);
      }
      candidates := SortDesc(candidates, KeyOf(items));
      if query.None? {
        match kind {
          case Some(Working) => working := candidates;
          case Some(Episodic) => episodic := candidates;
          case Some(Semantic) => semantic := candidates;
          case _ =>
        }
      }
      found := Take(candidates, limit);
      CountAccesses(found);
    }

    function CandidatesOf(kind: Option<Kind>): (r: seq<Id>)
      reads this
      ensures r == Candidates(View(), kind)
    {
      match kind
      case None => working + episodic + semantic
      case Some(Working) => working
      case Some(Episodic) => episodic
      case Some(Semantic) => semantic
      case Some(Procedural) => []
    }

    method CountAccesses(found: seq<Id>)
      modifies `items
      ensures items == Bump(old(items), found)
    {
      for i := 0 to |found|
        invariant items == Bump(old(items), found[..i])
      {
        assert found[..i + 1][..i] == found[..i];
        var id := found[i];
        if id in items { items := items[id := items[id].(access := items[id].access + 1)]; }
      }
      assert found[..|found|] == found;
    }
  }

  lemma NoneMarked(items: map<Id, Item>)
    ensures MarkEpisodic(items, []) == items
  {
    assert MarkEpisodic(items, []).Keys == items.Keys;
  }

  lemma OneMoreMarked(items: map<Id, Item>, ids: seq<Id>, i: nat)
    requires i < |ids|
    ensures var before := MarkEpisodic(items, ids[..i]);
            MarkEpisodic(items, ids[..i + 1])
            == if ids[i] in before then before[ids[i] := before[ids[i]].(kind := Episodic)] else before
  {
    assert ids[..i + 1] == ids[..i] + [ids[i]];
    assert MarkEpisodic(items, ids[..i + 1]).Keys == items.Keys == MarkEpisodic(items, ids[..i]).Keys;
  }

  lemma MatchesSnoc(index: Index, query: seq<string>, k: nat, id: Id)
    requires k < |query|
    ensures Matches(index, query[..k + 1], id) <==> Matches(index, query[..k], id) || Indexed(index, query[k], id)
  {
    var shorter, longer := query[..k], query[..k + 1];
    assert longer == shorter + [query[k]];
    if Matches(index, shorter, id) {
      var j :| 0 <= j < |shorter| && Indexed(index, shorter[j], id);
      assert longer[j] == shorter[j];
    }
    if Indexed(index, query[k], id) { assert longer[k] == query[k]; }
  }
}
