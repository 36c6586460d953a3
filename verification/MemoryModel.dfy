/** An agent's memories: three stores, a keyword index that is never cleaned, recall, consolidation and forgetting.
    Importance and decay are in hundredths, times in seconds. */
module MemoryModel {
  import opened Prelude
  import opened StableSort

  type Id = string

  datatype Kind = Working | Episodic | Semantic | Procedural

  /** `words` are the blank-separated words of the lower-cased content, in the order they are indexed. */
  datatype Item = Item(kind: Kind, words: seq<string>, importance: int, access: nat, created: int, decay: int)

  type Index = map<string, seq<Id>>

  /** The stores hold references: one memory may stand in two of them. */
  datatype Memory = Memory(items: map<Id, Item>, working: seq<Id>, episodic: seq<Id>, semantic: seq<Id>, index: Index)

  const MaxWorking := 10
  const MaxEpisodic := 1000
  const MaxSemantic := 5000
  const Day := 86400

  const Empty := Memory(map[], [], [], [], map[])

  // ---------- Sequences ----------

  function Keep<T>(s: seq<T>, p: T -> bool): (r: seq<T>)
    ensures |r| <= |s|
  {
    if s == [] then [] else Keep(s[..|s| - 1], p) + if p(s[|s| - 1]) then [s[|s| - 1]] else []
  }

  lemma {:induction false} KeepMember<T>(s: seq<T>, p: T -> bool, x: T)
    ensures x in Keep(s, p) <==> x in s && p(x)
  {
    if s != [] {
      KeepMember(s[..|s| - 1], p, x);
      assert s == s[..|s| - 1] + [s[|s| - 1]];
    }
  }

  lemma {:induction false} KeepAgrees<T>(s: seq<T>, p: T -> bool, q: T -> bool)
    requires forall x | x in s :: p(x) == q(x)
    ensures Keep(s, p) == Keep(s, q)
  {
    if s != [] {
      assert s[|s| - 1] in s;
      KeepAgrees(s[..|s| - 1], p, q);
    }
  }

  /** Python's `s[:n]`. */
  function Take<T>(s: seq<T>, n: int): seq<T> {
    if n >= 0 then s[..Min(n, |s|)] else s[..Max(0, |s| + n)]
  }

  /** Python's `s[-n:]`. */
  function Last<T>(s: seq<T>, n: nat): seq<T> {
    if |s| <= n then s else s[|s| - n..]
  }

  // ---------- The index ----------

  predicate Indexed(index: Index, word: string, id: Id) {
    word in index && id in index[word]
  }

  predicate Meaningful(word: string) {
    |word| > 3
  }

  function Listed(index: Index, word: string): seq<Id> {
    if word in index then index[word] else []
  }

  function IndexWord(index: Index, word: string, id: Id): Index {
    if Meaningful(word) then index[word := Listed(index, word) + [id]] else index
  }

  /** The index with `id` appended under each meaningful word. */
  function IndexWords(index: Index, words: seq<string>, id: Id): Index {
    if words == [] then index
    else IndexWord(IndexWords(index, words[..|words| - 1], id), words[|words| - 1], id)
  }

  // ---------- Remembering ----------

  predicate Important(items: map<Id, Item>, id: Id) {
    id in items && items[id].importance > 70
  }

  function ImportantIn(items: map<Id, Item>): Id -> bool {
    id => Important(items, id)
  }

  function MarkEpisodic(items: map<Id, Item>, ids: seq<Id>): map<Id, Item> {
    map id | id in items :: if id in ids then items[id].(kind := Episodic) else items[id]
  }

  /** Important working memories are copied to the episodic store; the last ten stay in the working store. */
  function Consolidate(m: Memory): Memory {
    var important := Keep(m.working, ImportantIn(m.items));
    m.(items := MarkEpisodic(m.items, important), episodic := m.episodic + important,
       working := Last(m.working, MaxWorking))
  }

  predicate ShouldForget(items: map<Id, Item>, id: Id, now: int) {
    id in items
    && items[id].importance - items[id].decay * ((now - items[id].created) / Day) < 20
    && items[id].access < 3
  }

  function WorthKeeping(items: map<Id, Item>, now: int): Id -> bool {
    id => !ShouldForget(items, id, now)
  }

  function ForgetEpisodic(m: Memory, now: int): Memory {
    m.(episodic := Keep(m.episodic, WorthKeeping(m.items, now)))
  }

  /** What a memory is sorted by: importance, then how often it was recalled. */
  function KeyOf(items: map<Id, Item>): Id -> Key {
    id => if id in items then Key(items[id].importance, items[id].access) else Key(0, 0)
  }

  function ForgetSemantic(m: Memory): Memory {
    m.(semantic := Take(SortDesc(m.semantic, KeyOf(m.items)), MaxSemantic))
  }

  function Stored(m: Memory, id: Id, item: Item, now: int): Memory {
    var n := m.(items := m.items[id := item]);
    match item.kind
    case Working =>
      var w := n.(working := n.working + [id]);
      if |w.working| > MaxWorking then Consolidate(w) else w
    case Episodic =>
      var e := n.(episodic := n.episodic + [id]);
      if |e.episodic| > MaxEpisodic then ForgetEpisodic(e, now) else e
    case Semantic =>
      var s := n.(semantic := n.semantic + [id]);
      if |s.semantic| > MaxSemantic then ForgetSemantic(s) else s
    case Procedural => n
  }

  /** The new memory is indexed after the stores made room for it. */
  function Remember(m: Memory, id: Id, item: Item, now: int): Memory {
    var n := Stored(m, id, item, now);
    n.(index := IndexWords(n.index, item.words, id))
  }

  // ---------- Recalling ----------

  function Candidates(m: Memory, kind: Option<Kind>): seq<Id> {
    match kind
    case None => m.working + m.episodic + m.semantic
    case Some(Working) => m.working
    case Some(Episodic) => m.episodic
    case Some(Semantic) => m.semantic
    case Some(Procedural) => []
  }

  predicate Matches(index: Index, query: seq<string>, id: Id) {
    exists k | 0 <= k < |query| :: Indexed(index, query[k], id)
  }

  function Matcher(index: Index, query: seq<string>): Id -> bool {
    id => Matches(index, query, id)
  }

  /** The candidates of a recall; without a query, all of them. */
  function Found(m: Memory, query: Option<seq<string>>, kind: Option<Kind>): seq<Id> {
    if query.None? then Candidates(m, kind)
    else Keep(Candidates(m, kind), Matcher(m.index, query.value))
  }

  function Ranked(m: Memory, query: Option<seq<string>>, kind: Option<Kind>): seq<Id> {
    SortDesc(Found(m, query, kind), KeyOf(m.items))
  }

  /** One more access for each occurrence in `ids`. */
  function Bump(items: map<Id, Item>, ids: seq<Id>): map<Id, Item> {
    if ids == [] then items
    else
      var before := Bump(items, ids[..|ids| - 1]);
      var id := ids[|ids| - 1];
      if id in before then before[id := before[id].(access := before[id].access + 1)] else before
  }

  /** Sorting the candidates sorts a store itself when they are that store and not a filtered or joined copy. */
  function SortedInPlace(m: Memory, query: Option<seq<string>>, kind: Option<Kind>): Memory {
    if query.Some? then m
    else match kind
      case Some(Working) => m.(working := Ranked(m, query, kind))
      case Some(Episodic) => m.(episodic := Ranked(m, query, kind))
      case Some(Semantic) => m.(semantic := Ranked(m, query, kind))
      case _ => m
  }

  function Recalled(m: Memory, query: Option<seq<string>>, kind: Option<Kind>, limit: int): seq<Id> {
    Take(Ranked(m, query, kind), limit)
  }

  function Recall(m: Memory, query: Option<seq<string>>, kind: Option<Kind>, limit: int): Memory {
    SortedInPlace(m, query, kind).(items := Bump(m.items, Recalled(m, query, kind, limit)))
  }

  // ---------- Runs ----------

  datatype Event = RememberIt(id: Id, item: Item, now: int)
                 | RecallIt(query: Option<seq<string>>, kind: Option<Kind>, limit: int)

  function Next(m: Memory, e: Event): Memory {
    match e
    case RememberIt(id, item, now) => Remember(m, id, item, now)
    case RecallIt(query, kind, limit) => Recall(m, query, kind, limit)
  }

  /** New memories get new identifiers. */
  predicate Legal(m: Memory, e: Event) {
    e.RememberIt? ==> e.id !in m.items
  }

  function Run(es: seq<Event>): Memory {
    if es == [] then Empty else Next(Run(es[..|es| - 1]), es[|es| - 1])
  }

  ghost predicate LegalRun(es: seq<Event>) {
    es == [] || (LegalRun(es[..|es| - 1]) && Legal(Run(es[..|es| - 1]), es[|es| - 1]))
  }
}
