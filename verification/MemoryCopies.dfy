/** How often consolidation copies an important memory over a run. */
module MemoryCopies {
  import opened Prelude
  import opened MemoryModel
  import opened StableSort
  import opened MemoryTheorems

  /** The event forgets episodic memories, `id` among them if it is there. */
  predicate Forgets(m: Memory, e: Event, id: Id) {
    && e.RememberIt? && e.item.kind == Episodic && |m.episodic| + 1 > MaxEpisodic
    && ShouldForget(m.items[e.id := e.item], id, e.now)
  }

  /** How many working memories had come when the copies of `id` were forgotten last; 0 if they never were. */
  function ForgottenAfter(es: seq<Event>, id: Id): (n: nat)
    ensures n <= |Arrivals(es)|
  {
    if es == [] then 0
    else
      var front, e := es[..|es| - 1], es[|es| - 1];
      if Forgets(Run(front), e, id) then |Arrivals(es)| else ForgottenAfter(front, id)
  }

  /** How often the `i`-th working memory of `n` is among the eleven at a consolidation: from its own arrival, or the eleventh,
      to ten arrivals later. */
  function Copies(i: nat, n: nat): nat {
    Max(0, Min(n - 1, i + MaxWorking) - Max(MaxWorking, i) + 1)
  }

  /** The memory stands that often in the episodic store, if it is important. */
  ghost predicate CopiedAs(m: Memory, id: Id, copies: int) {
    id in m.items && multiset(m.episodic)[id] == if Important(m.items, id) then copies else 0
  }

  /** The copies made of the `i`-th working memory since they were forgotten last. */
  function CopiesLeft(es: seq<Event>, i: nat): int
    requires i < |Arrivals(es)|
  {
    Copies(i, |Arrivals(es)|) - Copies(i, ForgottenAfter(es, Arrivals(es)[i]))
  }

  ghost predicate AllCopied(es: seq<Event>) {
    forall i | 0 <= i < |Arrivals(es)| :: CopiedAs(Run(es), Arrivals(es)[i], CopiesLeft(es, i))
  }

  /** Ids of working memories are never used again. */
  lemma {:induction false} ArrivalsAreDistinct(es: seq<Event>)
    requires LegalRun(es)
    ensures Distinct(Arrivals(es)) && Known(Run(es).items, Arrivals(es))
  {
    if es != [] {
      var front, e := es[..|es| - 1], es[|es| - 1];
      ArrivalsAreDistinct(front);
      ItemsStay(Run(front), e);
      if e.RememberIt? && e.item.kind == Working { DistinctSnoc(Arrivals(front), e.id); }
      assert Arrivals(front) + [] == Arrivals(front);
    }
  }

  ghost predicate SameImportance(a: map<Id, Item>, b: map<Id, Item>) {
    forall id | id in a :: id in b && b[id].importance == a[id].importance
  }

  lemma RememberKeepsImportance(m: Memory, id: Id, item: Item, now: int)
    requires id !in m.items
    ensures SameImportance(m.items, Remember(m, id, item, now).items) && id in Remember(m, id, item, now).items
  {
  }

  /** An event keeps all memories and their importance. */
  lemma ItemsStay(m: Memory, e: Event)
    requires Legal(m, e)
    ensures SameImportance(m.items, Next(m, e).items)
    ensures e.RememberIt? ==> e.id in Next(m, e).items
  {
    match e
    case RememberIt(id, item, now) => RememberKeepsImportance(m, id, item, now);
    case RecallIt(query, kind, limit) => BumpKeepsImportance(m.items, Recalled(m, query, kind, limit));
  }

  lemma {:induction false} BumpKeepsImportance(items: map<Id, Item>, ids: seq<Id>)
    ensures SameImportance(items, Bump(items, ids))
  {
    if ids != [] { BumpKeepsImportance(items, ids[..|ids| - 1]); }
  }

  lemma SnocCount(s: seq<Id>, x: Id, id: Id)
    ensures multiset(s + [x])[id] == multiset(s)[id] + if x == id then 1 else 0
  {
  }

  lemma {:induction false} DistinctCount(s: seq<Id>, i: nat)
    requires Distinct(s) && i < |s|
    ensures multiset(s)[s[i]] == 1
  {
    var front, last := s[..|s| - 1], s[|s| - 1];
    assert s == front + [last];
    if i < |front| {
      DistinctCount(front, i);
    } else {
      assert last !in front;
    }
  }

  lemma NotInTail(s: seq<Id>, i: nat, k: nat)
    requires Distinct(s) && i < k <= |s|
    ensures s[i] !in s[k..]
  {
    forall j | 0 <= j < |s[k..]| ensures s[k..][j] != s[i] { assert s[k..][j] == s[k + j]; }
  }

  /** The last eleven of a list without repetition hold each of their elements once. */
  lemma LastElevenCount(s: seq<Id>, i: nat)
    requires Distinct(s) && i < |s| && |s| > MaxWorking
    ensures multiset(Last(s, MaxWorking + 1))[s[i]] == if i + MaxWorking + 1 >= |s| then 1 else 0
  {
    var k := |s| - (MaxWorking + 1);
    if i >= k {
      assert s[k..][i - k] == s[i];
      DistinctCount(s[k..], i - k);
    } else {
      NotInTail(s, i, k);
    }
  }

  /** What stands in the working store when the next memory comes. */
  lemma ElevenAtArrival(before: seq<Id>, id: Id, i: nat)
    requires Distinct(before + [id]) && i <= |before|
    ensures var w := Last(before, MaxWorking) + [id];
            && (|w| > MaxWorking <==> |before| >= MaxWorking)
            && (|before| >= MaxWorking ==> multiset(w)[(before + [id])[i]] == if i + MaxWorking >= |before| then 1 else 0)
  {
    if |before| >= MaxWorking {
      assert Last(before, MaxWorking) + [id] == Last(before + [id], MaxWorking + 1);
      LastElevenCount(before + [id], i);
    }
  }

  /** Remembering a working memory copies the important ones of the eleven, if there are eleven. */
  lemma WorkingCopies(m: Memory, id: Id, item: Item, now: int, x: Id)
    requires item.kind == Working && id !in m.items && |m.working| <= MaxWorking
    ensures var n, w := Remember(m, id, item, now), m.working + [id];
            multiset(n.episodic)[x] == multiset(m.episodic)[x]
              + if |w| > MaxWorking && Important(m.items[id := item], x) then multiset(w)[x] else 0
  {
    var w := m.(items := m.items[id := item], working := m.working + [id]);
    ConsolidationCopies(w, x);
  }

  lemma CopiesOneMore(i: nat, n: nat)
    requires i <= n
    ensures Copies(i, n + 1) == Copies(i, n) + if n >= MaxWorking && i + MaxWorking >= n then 1 else 0
  {
  }

  /** What is in the episodic store is a known memory. */
  lemma StoresAreKnown(es: seq<Event>)
    requires LegalRun(es)
    ensures Known(Run(es).items, Run(es).episodic) && |Run(es).working| <= MaxWorking
  {
    RunKeepsInv(es);
  }

  lemma RememberedImportance(m: Memory, id: Id, item: Item, now: int, x: Id)
    requires item.kind == Working && x in m.items[id := item]
    ensures x in Remember(m, id, item, now).items
    ensures Important(Remember(m, id, item, now).items, x) == Important(m.items[id := item], x)
  {
  }

  /** The count of one memory over the arrival of another. */
  lemma CountAtArrival(m: Memory, before: seq<Id>, e: Event, i: nat, forgotten: int)
    requires e.RememberIt? && e.item.kind == Working && e.id !in m.items && m.working == Last(before, MaxWorking)
    requires Distinct(before + [e.id]) && i <= |before| && (before + [e.id])[i] in m.items[e.id := e.item]
    requires multiset(m.episodic)[(before + [e.id])[i]]
             == if Important(m.items[e.id := e.item], (before + [e.id])[i]) then Copies(i, |before|) - forgotten else 0
    ensures CopiedAs(Next(m, e), (before + [e.id])[i], Copies(i, |before| + 1) - forgotten)
  {
    var x := (before + [e.id])[i];
    WorkingCopies(m, e.id, e.item, e.now, x);
    ElevenAtArrival(before, e.id, i);
    CopiesOneMore(i, |before|);
    RememberedImportance(m, e.id, e.item, e.now, x);
  }

  lemma WorkingArrives(es: seq<Event>)
    requires es != [] && es[|es| - 1].RememberIt? && es[|es| - 1].item.kind == Working
    ensures Arrivals(es) == Arrivals(es[..|es| - 1]) + [es[|es| - 1].id]
    ensures forall id :: ForgottenAfter(es, id) == ForgottenAfter(es[..|es| - 1], id)
  {
  }

  lemma ArrivalCopies(es: seq<Event>, i: nat)
    requires es != [] && LegalRun(es) && InArrivalOrder(es[..|es| - 1]) && AllCopied(es[..|es| - 1])
    requires es[|es| - 1].RememberIt? && es[|es| - 1].item.kind == Working && i < |Arrivals(es)|
    ensures CopiedAs(Run(es), Arrivals(es)[i], CopiesLeft(es, i))
  {
    var front, e := es[..|es| - 1], es[|es| - 1];
    StoresAreKnown(front);
    ArrivalsAreDistinct(es);
    WorkingArrives(es);
    OldOrNew(Run(front), front, e, i);
    CountAtArrival(Run(front), Arrivals(front), e, i, Copies(i, ForgottenAfter(front, Arrivals(es)[i])));
  }

  /** A memory that has just come has no copy yet. */
  lemma OldOrNew(m: Memory, front: seq<Event>, e: Event, i: nat)
    requires m == Run(front) && AllCopied(front) && Known(m.items, m.episodic) && e.RememberIt? && e.id !in m.items
    requires i <= |Arrivals(front)|
    ensures var before := Arrivals(front);
            if i < |before| then CopiedAs(m, before[i], CopiesLeft(front, i))
            else multiset(m.episodic)[e.id] == 0 && Copies(i, |before|) == 0 && Copies(i, ForgottenAfter(front, e.id)) == 0
  {
    if i == |Arrivals(front)| { assert e.id !in m.episodic; }
  }

  /** Other events copy nothing, but may forget. */
  lemma EpisodicCopies(m: Memory, x: Id, item: Item, now: int, id: Id)
    requires item.kind == Episodic && x !in m.items && id in m.items
    ensures multiset(Remember(m, x, item, now).episodic)[id]
            == if Forgets(m, RememberIt(x, item, now), id) then 0 else multiset(m.episodic)[id]
  {
    SnocCount(m.episodic, x, id);
    KeepCounts(m.episodic + [x], WorthKeeping(m.items[x := item], now), id);
  }

  lemma OtherCopies(m: Memory, e: Event, id: Id)
    requires Legal(m, e) && id in m.items && (e.RememberIt? ==> e.item.kind != Working)
    ensures multiset(Next(m, e).episodic)[id] == if Forgets(m, e, id) then 0 else multiset(m.episodic)[id]
  {
    match e
    case RememberIt(x, item, now) =>
      if item.kind == Episodic { EpisodicCopies(m, x, item, now, id); }
    case RecallIt(query, kind, limit) => RecallKeepsEpisodic(m, query, kind, limit);
  }

  lemma RecallKeepsEpisodic(m: Memory, query: Option<seq<string>>, kind: Option<Kind>, limit: int)
    ensures multiset(Recall(m, query, kind, limit).episodic) == multiset(m.episodic)
  {
  }

  lemma OthersCopied(es: seq<Event>)
    requires es != [] && LegalRun(es) && AllCopied(es[..|es| - 1])
    requires es[|es| - 1].RememberIt? ==> es[|es| - 1].item.kind != Working
    ensures AllCopied(es)
  {
    var front, e := es[..|es| - 1], es[|es| - 1];
    assert Arrivals(es) == Arrivals(front);
    ItemsStay(Run(front), e);
    forall i | 0 <= i < |Arrivals(es)| ensures CopiedAs(Run(es), Arrivals(es)[i], CopiesLeft(es, i)) {
      OtherCopies(Run(front), e, Arrivals(front)[i]);
    }
  }

  lemma {:induction false} EveryoneCopied(es: seq<Event>)
    requires LegalRun(es) && AlwaysInArrivalOrder(es)
    ensures AllCopied(es)
  {
    if es != [] {
      EveryoneCopied(es[..|es| - 1]);
      if es[|es| - 1].RememberIt? && es[|es| - 1].item.kind == Working {
        forall i | 0 <= i < |Arrivals(es)| ensures CopiedAs(Run(es), Arrivals(es)[i], CopiesLeft(es, i)) {
          ArrivalCopies(es, i);
        }
      } else {
        OthersCopied(es);
      }
    }
  }

  /** In a run without reordering recalls an important working memory is copied to the episodic store at every consolidation while
      it is one of the eleven: eleven times, once it has left, if it came after the tenth, and less often if it came before. All
      of its copies are forgotten together, and those made since are there. */
  lemma ImportantIsCopiedAgain(es: seq<Event>, i: nat)
    requires LegalRun(es) && Calm(es) && i < |Arrivals(es)| && Important(Run(es).items, Arrivals(es)[i])
    ensures var n, f, copies := |Arrivals(es)|, ForgottenAfter(es, Arrivals(es)[i]), multiset(Run(es).episodic)[Arrivals(es)[i]];
            && copies == Copies(i, n) - Copies(i, f)
            && (MaxWorking <= i && i + MaxWorking < n && f <= i ==> copies == MaxWorking + 1)
            && (i < MaxWorking && i + MaxWorking < n && f <= MaxWorking ==> copies == i + 1)
            && (i + MaxWorking < f ==> copies == 0)
  {
    ArrivalOrderIff(es);
    EveryoneCopied(es);
    assert CopiedAs(Run(es), Arrivals(es)[i], CopiesLeft(es, i));
  }
}
