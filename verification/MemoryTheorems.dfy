/** What the memory keeps over every run: the index never disagrees with a scan of the stores. */
module MemoryTheorems {
  import opened Prelude
  import opened StableSort
  import opened MemoryModel

  /** A meaningful word of the query is a word of the memory. */
  predicate SharesWord(items: map<Id, Item>, query: seq<string>, id: Id) {
    id in items && exists k | 0 <= k < |query| :: Meaningful(query[k]) && query[k] in items[id].words
  }

  function Scan(items: map<Id, Item>, query: seq<string>): Id -> bool {
    id => SharesWord(items, query, id)
  }

  /** The index lists under each word exactly the memories, stored or forgotten, in which that word is meaningful. */
  ghost predicate IndexOk(items: map<Id, Item>, index: Index) {
    forall id, w {:trigger Indexed(index, w, id)} ::
      Indexed(index, w, id) <==> id in items && Meaningful(w) && w in items[id].words
  }

  ghost predicate Known(items: map<Id, Item>, ids: seq<Id>) {
    forall id | id in ids :: id in items
  }

  ghost predicate StoresKnown(m: Memory) {
    Known(m.items, m.working) && Known(m.items, m.episodic) && Known(m.items, m.semantic)
  }

  ghost predicate Inv(m: Memory) {
    IndexOk(m.items, m.index) && StoresKnown(m) && |m.working| <= MaxWorking && |m.semantic| <= MaxSemantic
  }

  /** The same memories with the same words, whatever else changed. */
  ghost predicate SameWords(a: map<Id, Item>, b: map<Id, Item>) {
    a.Keys == b.Keys && forall id | id in a :: a[id].words == b[id].words
  }

  // ---------- Each step keeps the invariant ----------

  lemma {:induction false} IndexedAfter(index: Index, words: seq<string>, id: Id, w: string, x: Id)
    ensures Indexed(IndexWords(index, words, id), w, x)
            <==> Indexed(index, w, x) || (x == id && Meaningful(w) && w in words)
  {
    if words != [] {
      var front, last := words[..|words| - 1], words[|words| - 1];
      assert words == front + [last];
      IndexedAfter(index, front, id, w, x);
    }
  }

  lemma IndexOkCarries(a: map<Id, Item>, b: map<Id, Item>, index: Index)
    requires IndexOk(a, index) && SameWords(a, b)
    ensures IndexOk(b, index)
  {
  }

  lemma IndexOkAdds(items: map<Id, Item>, index: Index, id: Id, item: Item)
    requires IndexOk(items, index) && id !in items
    ensures IndexOk(items[id := item], IndexWords(index, item.words, id))
  {
    var r := IndexWords(index, item.words, id);
    forall x, w
      ensures Indexed(r, w, x) <==> x in items[id := item] && Meaningful(w) && w in items[id := item][x].words
    {
      IndexedAfter(index, item.words, id, w, x);
    }
  }

  lemma {:induction false} BumpKeepsWords(items: map<Id, Item>, ids: seq<Id>)
    ensures SameWords(items, Bump(items, ids))
  {
    if ids != [] {
      BumpKeepsWords(items, ids[..|ids| - 1]);
    }
  }

  lemma KeptIsKnown(items: map<Id, Item>, ids: seq<Id>, p: Id -> bool)
    requires Known(items, ids)
    ensures Known(items, Keep(ids, p))
  {
    forall id | id in Keep(ids, p) ensures id in items { KeepMember(ids, p, id); }
  }

  lemma SortedIsKnown(items: map<Id, Item>, ids: seq<Id>)
    requires Known(items, ids)
    ensures Known(items, SortDesc(ids, KeyOf(items))) && |SortDesc(ids, KeyOf(items))| == |ids|
  {
    SortKeepsElements(ids, KeyOf(items));
  }

  lemma KnownAppend(items: map<Id, Item>, a: seq<Id>, b: seq<Id>)
    requires Known(items, a) && Known(items, b)
    ensures Known(items, a + b)
  {
  }

  lemma KnownSlice(items: map<Id, Item>, s: seq<Id>, i: nat, j: nat)
    requires Known(items, s) && i <= j <= |s|
    ensures Known(items, s[i..j])
  {
    forall id | id in s[i..j] ensures id in items { assert id in s; }
  }

  lemma KnownCarries(a: map<Id, Item>, b: map<Id, Item>, ids: seq<Id>)
    requires Known(a, ids) && a.Keys <= b.Keys
    ensures Known(b, ids)
  {
  }

  lemma LastIsKnown(items: map<Id, Item>, s: seq<Id>, n: nat)
    requires Known(items, s)
    ensures Known(items, Last(s, n)) && |Last(s, n)| <= n
  {
    if |s| > n { KnownSlice(items, s, |s| - n, |s|); }
  }

  lemma ConsolidateKeeps(m: Memory)
    requires StoresKnown(m)
    ensures StoresKnown(Consolidate(m)) && SameWords(m.items, Consolidate(m).items)
    ensures |Consolidate(m).working| <= MaxWorking
  {
    var important := Keep(m.working, ImportantIn(m.items));
    KeptIsKnown(m.items, m.working, ImportantIn(m.items));
    KnownAppend(m.items, m.episodic, important);
    LastIsKnown(m.items, m.working, MaxWorking);
    MarkedCarries(m, important);
  }

  lemma MarkedCarries(m: Memory, marked: seq<Id>)
    requires StoresKnown(m)
    ensures SameWords(m.items, MarkEpisodic(m.items, marked))
  {
  }

  lemma ForgetSemanticKeeps(m: Memory)
    requires StoresKnown(m)
    ensures StoresKnown(ForgetSemantic(m)) && |ForgetSemantic(m).semantic| <= MaxSemantic
  {
    SortedIsKnown(m.items, m.semantic);
    var s := SortDesc(m.semantic, KeyOf(m.items));
    KnownSlice(m.items, s, 0, Min(MaxSemantic, |s|));
    assert s[..Min(MaxSemantic, |s|)] == s[0..Min(MaxSemantic, |s|)];
  }

  /** The stores when the new memory is known but not yet in a store. */
  lemma NewIsKnown(m: Memory, id: Id, item: Item)
    requires StoresKnown(m)
    ensures var n := m.(items := m.items[id := item]);
            StoresKnown(n) && Known(n.items, n.working + [id])
            && Known(n.items, n.episodic + [id]) && Known(n.items, n.semantic + [id])
  {
    var items := m.items[id := item];
    KnownCarries(m.items, items, m.working);
    KnownCarries(m.items, items, m.episodic);
    KnownCarries(m.items, items, m.semantic);
    KnownAppend(items, m.working, [id]);
    KnownAppend(items, m.episodic, [id]);
    KnownAppend(items, m.semantic, [id]);
  }

  /** What storing keeps, before the memory is indexed. */
  ghost predicate StoredOk(before: Memory, after: Memory) {
    && StoresKnown(after) && SameWords(before.items, after.items) && after.index == before.index
    && |after.working| <= MaxWorking && |after.semantic| <= MaxSemantic
  }

  lemma StoredKeeps(m: Memory, id: Id, item: Item, now: int)
    requires Inv(m) && id !in m.items
    ensures StoredOk(m.(items := m.items[id := item]), Stored(m, id, item, now))
  {
    var n := m.(items := m.items[id := item]);
    NewIsKnown(m, id, item);
    match item.kind
    case Working => if |n.working + [id]| > MaxWorking { ConsolidateKeeps(n.(working := n.working + [id])); }
    case Episodic => KeptIsKnown(n.items, n.episodic + [id], WorthKeeping(n.items, now));
    case Semantic => if |n.semantic + [id]| > MaxSemantic { ForgetSemanticKeeps(n.(semantic := n.semantic + [id])); }
    case Procedural =>
  }

  lemma RememberKeepsInv(m: Memory, id: Id, item: Item, now: int)
    requires Inv(m) && id !in m.items
    ensures Inv(Remember(m, id, item, now))
  {
    StoredKeeps(m, id, item, now);
    IndexOkAdds(m.items, m.index, id, item);
    IndexOkCarries(m.items[id := item], Stored(m, id, item, now).items, IndexWords(m.index, item.words, id));
  }

  /** Putting a list of known memories of the same length in a store's place. */
  lemma StoreReplaced(m: Memory, ids: seq<Id>)
    requires Inv(m) && Known(m.items, ids)
    ensures |ids| == |m.working| ==> StoredOk(m, m.(working := ids))
    ensures StoredOk(m, m.(episodic := ids))
    ensures |ids| == |m.semantic| ==> StoredOk(m, m.(semantic := ids))
  {
  }

  lemma StoreSorted(m: Memory, ids: seq<Id>)
    requires Inv(m) && Known(m.items, ids)
    ensures var sorted := SortDesc(ids, KeyOf(m.items));
            && (|ids| == |m.working| ==> StoredOk(m, m.(working := sorted)))
            && StoredOk(m, m.(episodic := sorted))
            && (|ids| == |m.semantic| ==> StoredOk(m, m.(semantic := sorted)))
  {
    SortedIsKnown(m.items, ids);
    StoreReplaced(m, SortDesc(ids, KeyOf(m.items)));
  }

  lemma SortingKeepsStores(m: Memory, query: Option<seq<string>>, kind: Option<Kind>)
    requires Inv(m)
    ensures StoredOk(m, SortedInPlace(m, query, kind)) && SortedInPlace(m, query, kind).items == m.items
  {
    if query.None? {
      match kind
      case Some(Working) => StoreSorted(m, m.working);
      case Some(Episodic) => StoreSorted(m, m.episodic);
      case Some(Semantic) => StoreSorted(m, m.semantic);
      case _ =>
    }
  }

  lemma RecallKeepsInv(m: Memory, query: Option<seq<string>>, kind: Option<Kind>, limit: int)
    requires Inv(m)
    ensures Inv(Recall(m, query, kind, limit))
  {
    SortingKeepsStores(m, query, kind);
    BumpKeepsWords(m.items, Recalled(m, query, kind, limit));
    IndexOkCarries(m.items, Recall(m, query, kind, limit).items, m.index);
  }

  lemma {:induction false} RunKeepsInv(es: seq<Event>)
    requires LegalRun(es)
    ensures Inv(Run(es))
  {
    if es != [] {
      var m, e := Run(es[..|es| - 1]), es[|es| - 1];
      RunKeepsInv(es[..|es| - 1]);
      match e
      case RememberIt(id, item, now) => RememberKeepsInv(m, id, item, now);
      case RecallIt(query, kind, limit) => RecallKeepsInv(m, query, kind, limit);
    }
  }

  // ---------- Index against scan ----------

  lemma IndexMeansScan(m: Memory, query: seq<string>, id: Id)
    requires Inv(m)
    ensures Matches(m.index, query, id) <==> SharesWord(m.items, query, id)
  {
  }

  /** After any run, what the index finds is what a scan of the stored memories for a shared meaningful word finds, in
      the same order. */
  lemma IndexAgreesWithScan(es: seq<Event>, query: seq<string>, kind: Option<Kind>)
    requires LegalRun(es)
    ensures var m := Run(es);
            Found(m, Some(query), kind) == Keep(Candidates(m, kind), Scan(m.items, query))
  {
    var m := Run(es);
    RunKeepsInv(es);
    forall id | id in Candidates(m, kind) ensures Matcher(m.index, query)(id) == Scan(m.items, query)(id) {
      IndexMeansScan(m, query, id);
    }
    KeepAgrees(Candidates(m, kind), Matcher(m.index, query), Scan(m.items, query));
  }

  /** `top` is `n` of the elements of `all`, the best ones, best first. */
  ghost predicate BestOf(all: seq<Id>, top: seq<Id>, rest: seq<Id>, n: nat, key: Id -> Key) {
    && multiset(top + rest) == multiset(all)
    && |top| == Min(n, |all|)
    && Sorted(top, key)
    && forall i, j | 0 <= i < |top| && 0 <= j < |rest| :: Geq(key(top[i]), key(rest[j]))
  }

  /** The memories in the stores that a recall looks through, with repetition. */
  function Stock(m: Memory, kind: Option<Kind>): multiset<Id> {
    match kind
    case None => multiset(m.working) + multiset(m.episodic) + multiset(m.semantic)
    case Some(k) =>
      if k == Working then multiset(m.working) else if k == Episodic then multiset(m.episodic)
      else if k == Semantic then multiset(m.semantic) else multiset{}
  }

  /** A word of more than three characters of the query is a word of the memory. */
  predicate Asked(items: map<Id, Item>, query: seq<string>, id: Id) {
    id in items && exists w | w in query :: |w| > 3 && w in items[id].words
  }

  /** `a` is more important than `b`, or as important and recalled as often at least. */
  predicate Outranks(items: map<Id, Item>, a: Id, b: Id) {
    && a in items && b in items
    && (items[a].importance > items[b].importance
        || (items[a].importance == items[b].importance && items[a].access >= items[b].access))
  }

  lemma AskedIff(items: map<Id, Item>, query: seq<string>, id: Id)
    ensures Scan(items, query)(id) <==> Asked(items, query, id)
  {
    if w :| id in items && w in query && |w| > 3 && w in items[id].words {
      var k :| 0 <= k < |query| && query[k] == w;
      assert Meaningful(query[k]);
    }
  }

  lemma CandidatesAreStock(m: Memory, kind: Option<Kind>)
    requires StoresKnown(m)
    ensures multiset(Candidates(m, kind)) == Stock(m, kind) && Known(m.items, Candidates(m, kind))
  {
    if kind == None {
      KnownAppend(m.items, m.working, m.episodic);
      KnownAppend(m.items, m.working + m.episodic, m.semantic);
    }
  }

  /** `top` is the first of what is found, in the order of importance. */
  ghost predicate BestFound(m: Memory, kind: Option<Kind>, wanted: Id -> bool, top: seq<Id>, rest: seq<Id>, limit: nat) {
    && (forall id :: multiset(top + rest)[id] == if wanted(id) then Stock(m, kind)[id] else 0)
    && (|top| == limit || rest == []) && |top| <= limit
    && (forall i, j | 0 <= i < j < |top| :: Outranks(m.items, top[i], top[j]))
    && (forall i, j | 0 <= i < |top| && 0 <= j < |rest| :: Outranks(m.items, top[i], rest[j]))
  }

  lemma GeqIsOutranks(items: map<Id, Item>, a: Id, b: Id)
    requires a in items && b in items
    ensures Geq(KeyOf(items)(a), KeyOf(items)(b)) <==> Outranks(items, a, b)
  {
  }

  lemma InTopOrRest(all: seq<Id>, top: seq<Id>, rest: seq<Id>)
    requires multiset(top + rest) == multiset(all)
    ensures (forall id | id in top :: id in all) && forall id | id in rest :: id in all
  {
    forall id | id in top || id in rest ensures id in all { assert id in top + rest; assert id in multiset(top + rest); }
  }

  lemma BestIsFound(m: Memory, kind: Option<Kind>, wanted: Id -> bool, top: seq<Id>, rest: seq<Id>, limit: nat)
    requires StoresKnown(m) && BestOf(Keep(Candidates(m, kind), wanted), top, rest, limit, KeyOf(m.items))
    ensures BestFound(m, kind, wanted, top, rest, limit)
  {
    var all := Keep(Candidates(m, kind), wanted);
    CandidatesAreStock(m, kind);
    KeptIsKnown(m.items, Candidates(m, kind), wanted);
    InTopOrRest(all, top, rest);
    forall id ensures multiset(top + rest)[id] == if wanted(id) then Stock(m, kind)[id] else 0 {
      KeepCounts(Candidates(m, kind), wanted, id);
    }
    assert |top + rest| == |multiset(top + rest)| == |multiset(all)| == |all|;
    forall i, j | 0 <= i < j < |top| ensures Outranks(m.items, top[i], top[j]) { GeqIsOutranks(m.items, top[i], top[j]); }
    forall i, j | 0 <= i < |top| && 0 <= j < |rest| ensures Outranks(m.items, top[i], rest[j]) {
      GeqIsOutranks(m.items, top[i], rest[j]);
    }
  }

  lemma {:induction false} KeepAll(s: seq<Id>)
    ensures Keep(s, id => true) == s
  {
    if s != [] { KeepAll(s[..|s| - 1]); }
  }

  /** What a recall wants: any memory without a query, and one that is asked for with it. */
  function Wanted(items: map<Id, Item>, query: Option<seq<string>>): Id -> bool {
    id => query == None || Asked(items, query.value, id)
  }

  lemma FoundAreWanted(es: seq<Event>, query: Option<seq<string>>, kind: Option<Kind>)
    requires LegalRun(es)
    ensures var m := Run(es); Found(m, query, kind) == Keep(Candidates(m, kind), Wanted(m.items, query))
  {
    var m := Run(es);
    if query.Some? {
      IndexAgreesWithScan(es, query.value, kind);
      forall id | id in Candidates(m, kind) ensures Scan(m.items, query.value)(id) == Wanted(m.items, query)(id) {
        AskedIff(m.items, query.value, id);
      }
      KeepAgrees(Candidates(m, kind), Scan(m.items, query.value), Wanted(m.items, query));
    } else {
      KeepAll(Candidates(m, kind));
      KeepAgrees(Candidates(m, kind), id => true, Wanted(m.items, query));
    }
  }

  /** A recall returns the best `limit` of the memories in its stores that share a word of more than three characters with the query,
      or of all without one: by importance and then by how often they were recalled, best first. */
  lemma RecallReturnsTheBest(es: seq<Event>, query: Option<seq<string>>, kind: Option<Kind>, limit: nat)
    requires LegalRun(es)
    ensures var m := Run(es);
            exists rest :: BestFound(m, kind, Wanted(m.items, query), Recalled(m, query, kind, limit), rest, limit)
  {
    var m := Run(es);
    RunKeepsInv(es);
    FoundAreWanted(es, query, kind);
    var rest := BestAreFirst(Found(m, query, kind), limit, KeyOf(m.items));
    BestIsFound(m, kind, Wanted(m.items, query), Recalled(m, query, kind, limit), rest, limit);
  }

  lemma BestAreFirst(all: seq<Id>, n: nat, key: Id -> Key) returns (rest: seq<Id>)
    ensures BestOf(all, Take(SortDesc(all, key), n), rest, n, key)
  {
    var s := SortDesc(all, key);
    SortDescSorted(all, key);
    var top := Take(s, n);
    rest := s[Min(n, |s|)..];
    assert top + rest == s;
  }

  // ---------- Consolidation ----------

  lemma {:induction false} KeepCounts(s: seq<Id>, p: Id -> bool, x: Id)
    ensures multiset(Keep(s, p))[x] == if p(x) then multiset(s)[x] else 0
  {
    if s != [] {
      KeepCounts(s[..|s| - 1], p, x);
      assert s == s[..|s| - 1] + [s[|s| - 1]];
    }
  }

  /** Consolidation copies: each working memory of an importance above 0.7 becomes episodic and is once more in the episodic store,
      and the last ten stay in the working store, these among them. */
  lemma ConsolidationCopies(m: Memory, id: Id)
    ensures var n, important := Consolidate(m), id in m.items && m.items[id].importance > 70;
            && multiset(n.episodic)[id] == multiset(m.episodic)[id] + (if important then multiset(m.working)[id] else 0)
            && n.working == Last(m.working, MaxWorking)
            && (id in n.items <==> id in m.items)
            && (id in m.items ==>
                  n.items[id] == if important && id in m.working then m.items[id].(kind := Episodic) else m.items[id])
  {
    KeepCounts(m.working, ImportantIn(m.items), id);
    KeepMember(m.working, ImportantIn(m.items), id);
  }

  // ---------- The order of working memory ----------

  /** The working memories of a run in the order in which they were remembered. */
  function Arrivals(es: seq<Event>): seq<Id> {
    if es == [] then []
    else
      var e := es[|es| - 1];
      Arrivals(es[..|es| - 1]) + if e.RememberIt? && e.item.kind == Working then [e.id] else []
  }

  /** The working store holds the last ten working memories in the order in which they came. */
  ghost predicate InArrivalOrder(es: seq<Event>) {
    Run(es).working == Last(Arrivals(es), MaxWorking)
  }

  ghost predicate AlwaysInArrivalOrder(es: seq<Event>) {
    InArrivalOrder(es) && (es != [] ==> AlwaysInArrivalOrder(es[..|es| - 1]))
  }

  /** A recall of the working store without a query, which sorts that store itself. */
  predicate SortsWorking(e: Event) {
    e.RecallIt? && e.query == None && e.kind == Some(Working)
  }

  /** Whenever the working store is recalled without a query, its memories stand in the order of that recall already. */
  ghost predicate Calm(es: seq<Event>) {
    es != [] ==>
      var front := es[..|es| - 1];
      Calm(front) && (SortsWorking(es[|es| - 1]) ==> Sorted(Run(front).working, KeyOf(Run(front).items)))
  }

  lemma LastSnoc(s: seq<Id>, x: Id)
    ensures Last(s + [x], MaxWorking) == Last(Last(s, MaxWorking) + [x], MaxWorking)
  {
  }

  lemma RememberWorking(m: Memory, id: Id, item: Item, now: int)
    requires |m.working| <= MaxWorking
    ensures Remember(m, id, item, now).working
            == if item.kind == Working then Last(m.working + [id], MaxWorking) else m.working
  {
  }

  lemma RecallSortsWorking(m: Memory, limit: int)
    ensures Recall(m, None, Some(Working), limit).working == SortDesc(m.working, KeyOf(m.items))
  {
    assert Found(m, None, Some(Working)) == m.working;
  }

  lemma RecallLeavesWorking(m: Memory, query: Option<seq<string>>, kind: Option<Kind>, limit: int)
    requires query.Some? || kind != Some(Working)
    ensures Recall(m, query, kind, limit).working == m.working
  {
    assert SortedInPlace(m, query, kind).working == m.working;
  }

  lemma StepInArrivalOrder(es: seq<Event>)
    requires es != [] && InArrivalOrder(es[..|es| - 1])
    ensures InArrivalOrder(es) <==>
              (SortsWorking(es[|es| - 1]) ==> Sorted(Run(es[..|es| - 1]).working, KeyOf(Run(es[..|es| - 1]).items)))
  {
    var front, e := es[..|es| - 1], es[|es| - 1];
    var m := Run(front);
    match e
    case RememberIt(id, item, now) =>
      RememberWorking(m, id, item, now);
      LastSnoc(Arrivals(front), id);
      assert Arrivals(front) + [] == Arrivals(front);
    case RecallIt(query, kind, limit) =>
      if SortsWorking(e) {
        RecallSortsWorking(m, limit);
        SortedStaysIff(m.working, KeyOf(m.items));
      } else {
        RecallLeavesWorking(m, query, kind, limit);
      }
      assert Arrivals(front) + [] == Arrivals(front);
  }

  /** All through a run the working store is the last ten working memories in the order in which they came, exactly when
      no recall without a query ever finds it in another order than its own. */
  lemma {:induction false} ArrivalOrderIff(es: seq<Event>)
    ensures AlwaysInArrivalOrder(es) <==> Calm(es)
  {
    if es != [] {
      ArrivalOrderIff(es[..|es| - 1]);
      if AlwaysInArrivalOrder(es[..|es| - 1]) { StepInArrivalOrder(es); }
    }
  }

  /** In such a run, a full working store drops the one of its memories that was remembered first. */
  lemma OldestIsPushedOut(es: seq<Event>, id: Id, item: Item, now: int)
    requires Calm(es) && |Run(es).working| == MaxWorking && item.kind == Working
    ensures var arrivals := Arrivals(es);
            && |arrivals| >= MaxWorking
            && Run(es).working == arrivals[|arrivals| - MaxWorking..]
            && Remember(Run(es), id, item, now).working == arrivals[|arrivals| - MaxWorking + 1..] + [id]
  {
    ArrivalOrderIff(es);
    assert InArrivalOrder(es);
    RememberWorking(Run(es), id, item, now);
    FullDropsFirst(Run(es).working, id);
  }

  lemma FullDropsFirst(s: seq<Id>, x: Id)
    requires |s| == MaxWorking
    ensures Last(s + [x], MaxWorking) == s[1..] + [x]
  {
  }

  /** A recall of a full working store without a query leaves it sorted, so that the next working memory pushes out a most
      important one. That is still the one that stood first exactly when nothing is more important. */
  lemma RecallMakesTheBestNext(m: Memory, limit: int, id: Id, item: Item, now: int)
    requires |m.working| == MaxWorking && item.kind == Working
    ensures var sorted, key := Ranked(m, None, Some(Working)), KeyOf(m.items);
            && Remember(Recall(m, None, Some(Working), limit), id, item, now).working == sorted[1..] + [id]
            && (forall i | 0 <= i < MaxWorking :: Geq(key(sorted[0]), key(m.working[i])))
            && ((forall i | 0 <= i < MaxWorking :: Geq(key(m.working[0]), key(m.working[i])))
                ==> sorted[0] == m.working[0])
            && (sorted[0] == m.working[0]
                ==> forall i | 0 <= i < MaxWorking :: Geq(key(m.working[0]), key(m.working[i])))
  {
    var key, sorted := KeyOf(m.items), Ranked(m, None, Some(Working));
    RecallSortsWorking(m, limit);
    RememberWorking(Recall(m, None, Some(Working), limit), id, item, now);
    SortedIsGreatestFirst(m.working, key);
    FullDropsFirst(sorted, id);
  }

  lemma SortedIsGreatestFirst(s: seq<Id>, key: Id -> Key)
    requires s != []
    ensures var sorted := SortDesc(s, key);
            && |sorted| == |s| && (forall i | 0 <= i < |s| :: Geq(key(sorted[0]), key(s[i])))
            && ((forall i | 0 <= i < |s| :: Geq(key(s[0]), key(s[i]))) ==> sorted[0] == s[0])
  {
    var sorted := SortDesc(s, key);
    SortDescSorted(s, key);
    SortKeepsElements(s, key);
    forall i | 0 <= i < |s| ensures Geq(key(sorted[0]), key(s[i])) { assert s[i] in sorted; }
    if forall i | 0 <= i < |s| :: Geq(key(s[0]), key(s[i])) { GreatestFirstStaysFirst(s, key); }
  }

  // ---------- Forgetting ----------

  /** Forgetting takes an episodic memory exactly if it was recalled fewer than three times and what it loses by its whole days
      brings its importance under 0.2; in hundredths. */
  lemma ForgettingTakesTheFaded(m: Memory, now: int, id: Id)
    ensures id in ForgetEpisodic(m, now).episodic <==>
              id in m.episodic
              && (id in m.items ==>
                    var item := m.items[id];
                    item.access >= 3 || item.importance - item.decay * ((now - item.created) / 86400) >= 20)
  {
    KeepMember(m.episodic, WorthKeeping(m.items, now), id);
  }

  /** A memory that has faded stays so until it is recalled. */
  lemma FadingIsFinal(items: map<Id, Item>, id: Id, now: int, later: int)
    requires ShouldForget(items, id, now) && now <= later && items[id].decay >= 0
    ensures ShouldForget(items, id, later)
  {
    var day, days := (now - items[id].created) / 86400, (later - items[id].created) / 86400;
    assert day <= days;
    assert items[id].decay * day <= items[id].decay * days;
  }

  // ---------- What a recall changes ----------

  lemma {:induction false} BumpCounts(items: map<Id, Item>, found: seq<Id>, id: Id)
    ensures id in Bump(items, found) <==> id in items
    ensures id in items ==> Bump(items, found)[id] == items[id].(access := items[id].access + multiset(found)[id])
  {
    if found != [] {
      var front, last := found[..|found| - 1], found[|found| - 1];
      assert found == front + [last];
      BumpCounts(items, front, id);
    }
  }

  /** A recall counts one more access for every time a memory is returned, twice for one that stands in two stores, and
      changes nothing else of any memory, nor the index. */
  lemma RecallCountsAccesses(m: Memory, query: Option<seq<string>>, kind: Option<Kind>, limit: int, id: Id)
    ensures var n := Recall(m, query, kind, limit);
            && n.index == m.index && (id in n.items <==> id in m.items)
            && (id in m.items ==>
                  n.items[id] == m.items[id].(access := m.items[id].access + multiset(Recalled(m, query, kind, limit))[id]))
  {
    BumpCounts(m.items, Recalled(m, query, kind, limit), id);
  }

  /** The store holds what it held, in the order of importance. */
  ghost predicate Reordered(items: map<Id, Item>, before: seq<Id>, after: seq<Id>) {
    && multiset(after) == multiset(before)
    && forall i, j | 0 <= i < j < |after| :: Outranks(items, after[i], after[j])
  }

  lemma SortingReorders(items: map<Id, Item>, ids: seq<Id>)
    requires Known(items, ids)
    ensures Reordered(items, ids, SortDesc(ids, KeyOf(items)))
  {
    var sorted := SortDesc(ids, KeyOf(items));
    SortDescSorted(ids, KeyOf(items));
    SortedIsKnown(items, ids);
    forall i, j | 0 <= i < j < |sorted| ensures Outranks(items, sorted[i], sorted[j]) {
      assert sorted[i] in sorted && sorted[j] in sorted;
      GeqIsOutranks(items, sorted[i], sorted[j]);
    }
  }

  lemma StoresAfterRecall(m: Memory, query: Option<seq<string>>, kind: Option<Kind>, limit: int)
    ensures var n, key := Recall(m, query, kind, limit), KeyOf(m.items);
            && n.working == (if query == None && kind == Some(Working) then SortDesc(m.working, key) else m.working)
            && n.episodic == (if query == None && kind == Some(Episodic) then SortDesc(m.episodic, key) else m.episodic)
            && n.semantic == (if query == None && kind == Some(Semantic) then SortDesc(m.semantic, key) else m.semantic)
  {
  }

  /** Without a query a recall of one store leaves that store in the order of importance; it leaves all other stores alone. */
  lemma RecallReorders(m: Memory, query: Option<seq<string>>, kind: Option<Kind>, limit: int)
    requires StoresKnown(m)
    ensures var n := Recall(m, query, kind, limit);
            && (if query == None && kind == Some(Working) then Reordered(m.items, m.working, n.working) else n.working == m.working)
            && (if query == None && kind == Some(Episodic) then Reordered(m.items, m.episodic, n.episodic)
                else n.episodic == m.episodic)
            && (if query == None && kind == Some(Semantic) then Reordered(m.items, m.semantic, n.semantic)
                else n.semantic == m.semantic)
  {
    StoresAfterRecall(m, query, kind, limit);
    if query == None {
      match kind
      case Some(Working) => SortingReorders(m.items, m.working);
      case Some(Episodic) => SortingReorders(m.items, m.episodic);
      case Some(Semantic) => SortingReorders(m.items, m.semantic);
      case _ =>
    }
  }

  // ---------- What a new memory changes ----------

  /** A new memory goes to the end of the store of its kind. A full working store then keeps its last ten, a full semantic one its five
      thousand best; what that does to episodic memory is told by `ConsolidationCopies` and `ForgettingTakesTheFaded`. */
  lemma RememberStores(m: Memory, id: Id, item: Item, now: int)
    requires id !in m.items && Inv(m)
    ensures var n, items := Remember(m, id, item, now), m.items[id := item];
            && (item.kind != Working ==> n.working == m.working && n.items == items)
            && (item.kind == Working ==> n.working == Last(m.working + [id], 10))
            && (item.kind == Episodic ==>
                  n.episodic == if |m.episodic| < 1000 then m.episodic + [id]
                                else ForgetEpisodic(m.(items := items, episodic := m.episodic + [id]), now).episodic)
            && (item.kind == Working ==>
                  n.episodic == if |m.working| < 10 then m.episodic
                                else Consolidate(m.(items := items, working := m.working + [id])).episodic)
            && (item.kind in {Semantic, Procedural} ==> n.episodic == m.episodic)
            && (item.kind != Semantic ==> n.semantic == m.semantic)
            && (item.kind == Semantic && |m.semantic| < 5000 ==> n.semantic == m.semantic + [id])
            && (item.kind == Semantic && |m.semantic| == 5000 ==>
                  exists rest :: BestOf(m.semantic + [id], n.semantic, rest, 5000, KeyOf(items)))
  {
    if item.kind == Working { RememberWorking(m, id, item, now); }
    if item.kind == Semantic && |m.semantic| == 5000 {
      var rest := BestAreFirst(m.semantic + [id], 5000, KeyOf(m.items[id := item]));
    }
  }
}
