/** Counting action windows over the outcomes of many runs, and which of them become patterns. */
module PatternExtractor {
  import opened Prelude
  import opened Patterns

  datatype OutcomeType = Success | PartialSuccess | Failure | Timeout | Blocked | Cancelled

  /** A finished run: its goal and the names of the actions it took. */
  datatype Outcome = Outcome(outcome: OutcomeType, goal: string, actions: seq<string>)

  const Arrow := "->"

  // ---------- The table of counts, in the order the keys were first seen ----------

  datatype Hit = Hit(key: string, goal: string)

  datatype Tally = Tally(count: nat, successes: nat, goals: set<string>)

  datatype Table = Table(order: seq<string>, tallies: map<string, Tally>)

  const EmptyTable := Table([], map[])

  function Entry(t: Table, key: string): Tally {
    if key in t.tallies then t.tallies[key] else Tally(0, 0, {})
  }

  function Add(t: Table, h: Hit): Table {
    var e := Entry(t, h.key);
    Table(if h.key in t.tallies then t.order else t.order + [h.key],
          t.tallies[h.key := Tally(e.count + 1, e.successes + 1, e.goals + {h.goal})])
  }

  function AddAll(t: Table, hits: seq<Hit>): Table {
    if hits == [] then t else Add(AddAll(t, hits[..|hits| - 1]), hits[|hits| - 1])
  }

  lemma AddSnoc(t: Table, hits: seq<Hit>, h: Hit)
    ensures AddAll(t, hits + [h]) == Add(AddAll(t, hits), h)
  {
    assert (hits + [h])[..|hits|] == hits;
  }

  lemma {:induction false} AddAppend(t: Table, a: seq<Hit>, b: seq<Hit>)
    ensures AddAll(t, a + b) == AddAll(AddAll(t, a), b)
  {
    if b == [] {
      assert a + b == a;
    } else {
      var front, last := b[..|b| - 1], b[|b| - 1];
      assert a + b == (a + front) + [last];
      AddSnoc(t, a + front, last);
      AddAppend(t, a, front);
    }
  }

  // ---------- The windows of one outcome, and of all ----------

  /** How many windows of `size` fit into `n` actions. */
  function Starts(n: nat, size: nat): nat {
    if n < size then 0 else n - size + 1
  }

  /** The first `k` windows of `size` actions. */
  function WindowHits(o: Outcome, size: nat, k: nat): seq<Hit>
    requires k <= Starts(|o.actions|, size)
  {
    if k == 0 then []
    else WindowHits(o, size, k - 1) + [Hit(Join(Arrow, o.actions[k - 1..k - 1 + size]), Short(o.goal))]
  }

  /** The first fifty characters. */
  function Short(s: string): string {
    if |s| <= 50 then s else s[..50]
  }

  predicate Considered(o: Outcome) {
    o.outcome == Success && |o.actions| >= 2
  }

  /** All windows of two actions, and below `size` of more. */
  function SizedHits(o: Outcome, size: nat): seq<Hit> {
    if size <= 2 then [] else SizedHits(o, size - 1) + WindowHits(o, size - 1, Starts(|o.actions|, size - 1))
  }

  function OutcomeHits(o: Outcome): seq<Hit> {
    if Considered(o) then SizedHits(o, 4) else []
  }

  function Hits(os: seq<Outcome>): seq<Hit> {
    if os == [] then [] else Hits(os[..|os| - 1]) + OutcomeHits(os[|os| - 1])
  }

  // ---------- What the table counts ----------

  function Count(hits: seq<Hit>, key: string): nat {
    if hits == [] then 0
    else Count(hits[..|hits| - 1], key) + if hits[|hits| - 1].key == key then 1 else 0
  }

  function Goals(hits: seq<Hit>, key: string): set<string> {
    if hits == [] then {}
    else Goals(hits[..|hits| - 1], key) + if hits[|hits| - 1].key == key then {hits[|hits| - 1].goal} else {}
  }

  lemma {:induction false} CountAppend(a: seq<Hit>, b: seq<Hit>, key: string)
    ensures Count(a + b, key) == Count(a, key) + Count(b, key)
  {
    if b == [] {
      assert a + b == a;
    } else {
      var front, last := b[..|b| - 1], b[|b| - 1];
      assert (a + b)[..|a + b| - 1] == a + front;
      CountAppend(a, front, key);
    }
  }

  lemma {:induction false} TableCounts(hits: seq<Hit>, key: string)
    ensures Entry(AddAll(EmptyTable, hits), key) == Tally(Count(hits, key), Count(hits, key), Goals(hits, key))
    ensures key in AddAll(EmptyTable, hits).order <==> Count(hits, key) > 0
    ensures key in AddAll(EmptyTable, hits).tallies <==> Count(hits, key) > 0
  {
    if hits != [] {
      TableCounts(hits[..|hits| - 1], key);
    }
  }

  lemma {:induction false} OrderIsDistinct(hits: seq<Hit>)
    ensures Distinct(AddAll(EmptyTable, hits).order)
  {
    if hits != [] {
      var front, h := hits[..|hits| - 1], hits[|hits| - 1];
      OrderIsDistinct(front);
      TableCounts(front, h.key);
      if h.key !in AddAll(EmptyTable, front).tallies { DistinctSnoc(AddAll(EmptyTable, front).order, h.key); }
    }
  }

  /** At how many of the first `k` places `w` stands in `actions`. */
  function Occurrences(actions: seq<string>, w: seq<string>, k: nat): nat
    requires k <= Starts(|actions|, |w|)
  {
    if k == 0 then 0
    else Occurrences(actions, w, k - 1) + if actions[k - 1..k - 1 + |w|] == w then 1 else 0
  }

  /** The places where `w` stands among the actions. */
  function WindowPlaces(actions: seq<string>, w: seq<string>): set<nat> {
    set i: nat | i <= |actions| && StandsAt(actions, w, i)
  }

  predicate StandsAt(actions: seq<string>, w: seq<string>, i: nat) {
    i + |w| <= |actions| && actions[i..i + |w|] == w
  }

  /** Those of the first `k`. */
  function PlacesBefore(actions: seq<string>, w: seq<string>, k: nat): set<nat> {
    set i | i in WindowPlaces(actions, w) && i < k
  }

  lemma OnePlaceMore(actions: seq<string>, w: seq<string>, k: nat)
    ensures PlacesBefore(actions, w, k + 1) == PlacesBefore(actions, w, k) + if StandsAt(actions, w, k) then {k} else {}
  {
  }

  lemma {:induction false} OccurrencesBefore(actions: seq<string>, w: seq<string>, k: nat)
    requires k <= Starts(|actions|, |w|)
    ensures Occurrences(actions, w, k) == |PlacesBefore(actions, w, k)|
  {
    if k > 0 {
      OccurrencesBefore(actions, w, k - 1);
      OnePlaceMore(actions, w, k - 1);
    } else {
      assert PlacesBefore(actions, w, 0) == {};
    }
  }

  lemma PlacesAreStarts(actions: seq<string>, w: seq<string>, i: nat)
    requires w != [] && i in WindowPlaces(actions, w)
    ensures i < Starts(|actions|, |w|)
  {
  }

  /** Looking at every start finds all places. */
  lemma OccurrencesAreThePlaces(actions: seq<string>, w: seq<string>)
    requires w != []
    ensures Occurrences(actions, w, Starts(|actions|, |w|)) == |WindowPlaces(actions, w)|
  {
    var k := Starts(|actions|, |w|);
    OccurrencesBefore(actions, w, k);
    assert PlacesBefore(actions, w, k) == WindowPlaces(actions, w) by {
      forall i | i in WindowPlaces(actions, w) ensures i in PlacesBefore(actions, w, k) { PlacesAreStarts(actions, w, i); }
    }
  }

  /** At how many places of all successful runs `w` stands. */
  function Total(os: seq<Outcome>, w: seq<string>): nat {
    if os == [] then 0
    else
      var o := os[|os| - 1];
      Total(os[..|os| - 1], w) + if o.outcome == Success then |WindowPlaces(o.actions, w)| else 0
  }

  ghost predicate Clean(names: seq<string>) {
    forall i | 0 <= i < |names| :: Lacks(names[i], Arrow)
  }

  ghost predicate AllClean(os: seq<Outcome>) {
    forall i | 0 <= i < |os| :: Clean(os[i].actions)
  }

  lemma CleanKeys(a: seq<string>, b: seq<string>)
    requires Clean(a) && Clean(b) && a != [] && b != []
    ensures Join(Arrow, a) == Join(Arrow, b) <==> a == b
  {
    SeparatorsAreUnbordered();
    KeysAreExact(Arrow, a, b);
  }

  lemma CleanSplit(a: seq<string>)
    requires Clean(a) && a != []
    ensures Split(Join(Arrow, a), Arrow) == a
  {
    SeparatorsAreUnbordered();
    SplitJoin(Arrow, a);
  }

  lemma CleanWindow(actions: seq<string>, i: nat, size: nat)
    requires Clean(actions) && i + size <= |actions|
    ensures Clean(actions[i..i + size])
  {
    var window := actions[i..i + size];
    forall k | 0 <= k < |window| ensures Lacks(window[k], Arrow) {
      assert window[k] == actions[i + k];
    }
  }

  lemma CountSnoc(hits: seq<Hit>, h: Hit, key: string)
    ensures Count(hits + [h], key) == Count(hits, key) + if h.key == key then 1 else 0
  {
    assert (hits + [h])[..|hits|] == hits;
  }

  lemma WindowKey(actions: seq<string>, i: nat, size: nat, w: seq<string>)
    requires Clean(actions) && Clean(w) && size >= 1 && w != [] && i + size <= |actions|
    ensures Join(Arrow, actions[i..i + size]) == Join(Arrow, w) <==> actions[i..i + size] == w
  {
    CleanWindow(actions, i, size);
    CleanKeys(actions[i..i + size], w);
  }

  /** One more window is one more of its key. */
  lemma WindowStep(o: Outcome, size: nat, k: nat, w: seq<string>)
    requires Clean(o.actions) && Clean(w) && size >= 1 && w != [] && k < Starts(|o.actions|, size)
    ensures Count(WindowHits(o, size, k + 1), Join(Arrow, w))
            == Count(WindowHits(o, size, k), Join(Arrow, w)) + if o.actions[k..k + size] == w then 1 else 0
  {
    WindowKey(o.actions, k, size, w);
    CountSnoc(WindowHits(o, size, k), Hit(Join(Arrow, o.actions[k..k + size]), Short(o.goal)), Join(Arrow, w));
  }

  /** One more place to look at. */
  lemma OccurrencesStep(actions: seq<string>, w: seq<string>, k: nat)
    requires k + 1 <= Starts(|actions|, |w|)
    ensures Occurrences(actions, w, k + 1) == Occurrences(actions, w, k) + if actions[k..k + |w|] == w then 1 else 0
  {
  }

  lemma {:induction false} WindowCount(o: Outcome, size: nat, k: nat, w: seq<string>)
    requires Clean(o.actions) && Clean(w) && size >= 1 && w != [] && k <= Starts(|o.actions|, size)
    ensures Count(WindowHits(o, size, k), Join(Arrow, w)) == if |w| == size then Occurrences(o.actions, w, k) else 0
  {
    if k > 0 {
      WindowCount(o, size, k - 1, w);
      WindowStep(o, size, k - 1, w);
      if |w| == size { OccurrencesStep(o.actions, w, k - 1); }
    }
  }

  lemma SizedHitsOf(o: Outcome)
    ensures SizedHits(o, 4) == WindowHits(o, 2, Starts(|o.actions|, 2)) + WindowHits(o, 3, Starts(|o.actions|, 3))
  {
    assert SizedHits(o, 2) == [];
    assert SizedHits(o, 3) == [] + WindowHits(o, 2, Starts(|o.actions|, 2));
  }

  lemma OutcomeCount(o: Outcome, w: seq<string>)
    requires Clean(o.actions) && Clean(w) && 2 <= |w| <= 3
    ensures Count(OutcomeHits(o), Join(Arrow, w)) == if o.outcome == Success then |WindowPlaces(o.actions, w)| else 0
  {
    OccurrencesAreThePlaces(o.actions, w);
    if Considered(o) {
      SizedHitsOf(o);
      var two, three := Starts(|o.actions|, 2), Starts(|o.actions|, 3);
      CountAppend(WindowHits(o, 2, two), WindowHits(o, 3, three), Join(Arrow, w));
      WindowCount(o, 2, two, w);
      WindowCount(o, 3, three, w);
    }
  }

  /** With clean action names, the count under a window's key is the number of its occurrences, and nothing else's. */
  lemma {:induction false} CountIsTotal(os: seq<Outcome>, w: seq<string>)
    requires AllClean(os) && Clean(w) && 2 <= |w| <= 3
    ensures Count(Hits(os), Join(Arrow, w)) == Total(os, w)
  {
    if os != [] {
      var front, o := os[..|os| - 1], os[|os| - 1];
      assert AllClean(front) && Clean(o.actions);
      CountIsTotal(front, w);
      OutcomeCount(o, w);
      CountAppend(Hits(front), OutcomeHits(o), Join(Arrow, w));
    }
  }

  // ---------- The order of the windows ----------

  lemma {:induction false} WindowHitsAre(o: Outcome, size: nat, k: nat)
    requires k <= Starts(|o.actions|, size)
    ensures var hits := WindowHits(o, size, k);
            |hits| == k && forall i | 0 <= i < k :: hits[i] == Hit(Join(Arrow, o.actions[i..i + size]), Short(o.goal))
  {
    if k > 0 { WindowHitsAre(o, size, k - 1); }
  }

  /** The hits are the windows of this size from left to right. */
  ghost predicate AreWindows(hits: seq<Hit>, actions: seq<string>, size: nat) {
    && |hits| == (if |actions| < size then 0 else |actions| + 1 - size)
    && forall i | 0 <= i < |hits| && i + size <= |actions| :: hits[i].key == Join(Arrow, actions[i..i + size])
  }

  lemma AllWindowsAre(o: Outcome, size: nat)
    ensures AreWindows(WindowHits(o, size, Starts(|o.actions|, size)), o.actions, size)
  {
    WindowHitsAre(o, size, Starts(|o.actions|, size));
  }

  /** A successful outcome of two actions or more is counted for its pairs from left to right, and then for its triples; any other for
      nothing. */
  lemma OutcomeHitsAre(o: Outcome) returns (pairs: seq<Hit>, triples: seq<Hit>)
    ensures if o.outcome == Success && |o.actions| >= 2
            then OutcomeHits(o) == pairs + triples && AreWindows(pairs, o.actions, 2) && AreWindows(triples, o.actions, 3)
            else OutcomeHits(o) == []
  {
    pairs, triples := WindowHits(o, 2, Starts(|o.actions|, 2)), WindowHits(o, 3, Starts(|o.actions|, 3));
    SizedHitsOf(o);
    AllWindowsAre(o, 2);
    AllWindowsAre(o, 3);
  }

  /** Where a key is hit first. */
  function FirstHit(hits: seq<Hit>, key: string): nat {
    if hits == [] then 0
    else
      var front := FirstHit(hits[..|hits| - 1], key);
      if front < |hits| - 1 || hits[|hits| - 1].key == key then front else |hits|
  }

  lemma {:induction false} FirstHitIs(hits: seq<Hit>, key: string)
    ensures var i := FirstHit(hits, key);
            i <= |hits| && (forall j | 0 <= j < i :: hits[j].key != key) && (i < |hits| ==> hits[i].key == key)
            && (i < |hits| <==> Count(hits, key) > 0)
  {
    if hits != [] { FirstHitIs(hits[..|hits| - 1], key); }
  }

  /** `a` is hit, and before `b` is. */
  predicate HitBefore(hits: seq<Hit>, a: string, b: string) {
    FirstHit(hits, a) < FirstHit(hits, b) < |hits|
  }

  lemma FirstHitStays(hits: seq<Hit>, key: string)
    requires hits != [] && FirstHit(hits[..|hits| - 1], key) < |hits| - 1
    ensures FirstHit(hits, key) == FirstHit(hits[..|hits| - 1], key)
  {
  }

  ghost predicate KeysInOrder(hits: seq<Hit>, keys: seq<string>) {
    forall i, j | 0 <= i < j < |keys| :: HitBefore(hits, keys[i], keys[j])
  }

  /** The table keeps its keys in the order in which they were hit first. */
  lemma {:induction false} OrderIsByFirstHit(hits: seq<Hit>)
    ensures KeysInOrder(hits, AddAll(EmptyTable, hits).order)
  {
    if hits != [] {
      var front, h := hits[..|hits| - 1], hits[|hits| - 1];
      var before, order := AddAll(EmptyTable, front).order, AddAll(EmptyTable, hits).order;
      OrderIsByFirstHit(front);
      forall i | 0 <= i < |before| ensures FirstHit(hits, before[i]) == FirstHit(front, before[i]) < |front| {
        TableCounts(front, before[i]);
        FirstHitIs(front, before[i]);
        FirstHitStays(hits, before[i]);
      }
      forall i, j | 0 <= i < j < |order| ensures HitBefore(hits, order[i], order[j]) {
        if j < |before| {
          assert HitBefore(front, before[i], before[j]);
        } else {
          TableCounts(front, h.key);
          FirstHitIs(front, h.key);
        }
      }
    }
  }

  // ---------- The goals of a key ----------

  lemma {:induction false} GoalsAppend(a: seq<Hit>, b: seq<Hit>, key: string)
    ensures Goals(a + b, key) == Goals(a, key) + Goals(b, key)
  {
    if b == [] {
      assert a + b == a;
    } else {
      var front, last := b[..|b| - 1], b[|b| - 1];
      assert (a + b)[..|a + b| - 1] == a + front;
      GoalsAppend(a, front, key);
    }
  }

  /** All hits of one outcome name its goal. */
  predicate HitsOf(hits: seq<Hit>, goal: string) {
    forall i | 0 <= i < |hits| :: hits[i].goal == goal
  }

  lemma {:induction false} WindowGoal(o: Outcome, size: nat, k: nat)
    requires k <= Starts(|o.actions|, size)
    ensures HitsOf(WindowHits(o, size, k), Short(o.goal))
  {
    if k > 0 { WindowGoal(o, size, k - 1); }
  }

  lemma {:induction false} GoalsOfOne(hits: seq<Hit>, goal: string, key: string)
    requires HitsOf(hits, goal)
    ensures Goals(hits, key) == if Count(hits, key) > 0 then {goal} else {}
  {
    if hits != [] { GoalsOfOne(hits[..|hits| - 1], goal, key); }
  }

  lemma OutcomeGoals(o: Outcome, key: string)
    ensures Goals(OutcomeHits(o), key) == if Count(OutcomeHits(o), key) > 0 then {Short(o.goal)} else {}
  {
    if Considered(o) {
      SizedHitsOf(o);
      WindowGoal(o, 2, Starts(|o.actions|, 2));
      WindowGoal(o, 3, Starts(|o.actions|, 3));
    }
    GoalsOfOne(OutcomeHits(o), Short(o.goal), key);
  }

  /** The outcome is a success in which `w` occurs. */
  predicate Has(o: Outcome, w: seq<string>) {
    o.outcome == Success && WindowPlaces(o.actions, w) != {}
  }

  /** With clean action names, the goals kept for a window are those of the successful outcomes in which it occurs. */
  lemma {:induction false} GoalsAreThoseWithTheWindow(os: seq<Outcome>, w: seq<string>, goal: string)
    requires AllClean(os) && Clean(w) && 2 <= |w| <= 3
    ensures goal in Goals(Hits(os), Join(Arrow, w))
            <==> exists i :: 0 <= i < |os| && Has(os[i], w) && os[i].goal[..Min(50, |os[i].goal|)] == goal
  {
    forall i | 0 <= i < |os| ensures os[i].goal[..Min(50, |os[i].goal|)] == Short(os[i].goal) { }
    if os != [] {
      var front, o := os[..|os| - 1], os[|os| - 1];
      assert AllClean(front) && Clean(o.actions);
      GoalsAreThoseWithTheWindow(front, w, goal);
      GoalsAppend(Hits(front), OutcomeHits(o), Join(Arrow, w));
      OutcomeGoals(o, Join(Arrow, w));
      OutcomeCount(o, w);
      LastOrBefore(os, w, goal);
    }
  }

  lemma LastOrBefore(os: seq<Outcome>, w: seq<string>, goal: string)
    requires os != []
    ensures var front, o := os[..|os| - 1], os[|os| - 1];
            (exists i :: 0 <= i < |os| && Has(os[i], w) && Short(os[i].goal) == goal)
            <==> (Has(o, w) && Short(o.goal) == goal)
                 || exists i :: 0 <= i < |front| && Has(front[i], w) && Short(front[i].goal) == goal
  {
    var front := os[..|os| - 1];
    if i :| 0 <= i < |front| && Has(front[i], w) && Short(front[i].goal) == goal {
      assert os[i] == front[i];
    }
    if i :| 0 <= i < |os| && Has(os[i], w) && Short(os[i].goal) == goal {
      assert i < |front| ==> front[i] == os[i];
    }
  }

  // ---------- From counts to patterns ----------

  datatype Pattern = Pattern(key: string, sequence: seq<string>, confidence: real, successRate: real, observations: nat,
                             goals: set<string>)

  /** The share of a count that were successes. */
  function Rate(d: Tally): real
    requires d.count > 0
  {
    d.successes as real / d.count as real
  }

  /** Ten observations or more give full confidence. */
  function Confidence(count: nat): real {
    if count >= 10 then 1.0 else count as real / 10.0
  }

  class PatternExtractor {
    const minObservations: int
    const minConfidence: real

    constructor (minObservations: int, minConfidence: real)
      ensures this.minObservations == minObservations && this.minConfidence == minConfidence
    {
      this.minObservations := minObservations;
      this.minConfidence := minConfidence;
    }

    predicate Frequent(d: Tally) {
      d.count >= minObservations && d.count > 0 && Rate(d) >= minConfidence
    }

    function PatternOf(key: string, d: Tally): Pattern
      requires d.count > 0
    {
      Pattern(key, Split(key, Arrow), Confidence(d.count), Rate(d), d.count, d.goals)
    }

    function Emitted(order: seq<string>, t: Table): seq<Pattern> {
      if order == [] then []
      else
        var key := order[|order| - 1];
        Emitted(order[..|order| - 1], t) + if Frequent(Entry(t, key)) then [PatternOf(key, Entry(t, key))] else []
    }

    method CountWindows(o: Outcome, size: nat, t0: Table) returns (t: Table)
      ensures t == AddAll(t0, WindowHits(o, size, Starts(|o.actions|, size)))
    {
      t := t0;
      for i := 0 to Starts(|o.actions|, size)
        invariant t == AddAll(t0, WindowHits(o, size, i))
      {
        var h := Hit(Join(Arrow, o.actions[i..i + size]), Short(o.goal));
        AddSnoc(t0, WindowHits(o, size, i), h);
        t := Add(t, h);
      }
    }

    method CountOutcome(o: Outcome, t0: Table) returns (t: Table)
      ensures t == AddAll(t0, OutcomeHits(o))
    {
      t := t0;
      if o.outcome != Success { return; }
      if |o.actions| < 2 { return; }
      for size := 2 to 4
        invariant t == AddAll(t0, SizedHits(o, size))
      {
        AddAppend(t0, SizedHits(o, size), WindowHits(o, size, Starts(|o.actions|, size)));
        t := CountWindows(o, size, t);
      }
    }

    method ExtractActionSequences(outcomes: seq<Outcome>) returns (patterns: seq<Pattern>)
      ensures patterns == Extracted(outcomes)
    {
      var t := EmptyTable;
      for i := 0 to |outcomes|
        invariant t == AddAll(EmptyTable, Hits(outcomes[..i]))
      {
        assert outcomes[..i + 1][..i] == outcomes[..i];
        AddAppend(EmptyTable, Hits(outcomes[..i]), OutcomeHits(outcomes[i]));
        t := CountOutcome(outcomes[i], t);
      }
      assert outcomes[..|outcomes|] == outcomes;
      patterns := [];
      for i := 0 to |t.order|
        invariant patterns == Emitted(t.order[..i], t)
      {
        var key := t.order[i];
        var d := Entry(t, key);
        assert t.order[..i + 1][..i] == t.order[..i];
        if Frequent(d) {
          patterns := patterns + [PatternOf(key, d)];
        }
      }
      assert t.order[..|t.order|] == t.order;
    }

    lemma {:induction false} EmittedExactly(order: seq<string>, t: Table, p: Pattern)
      ensures p in Emitted(order, t) <==>
              p.key in order && Frequent(Entry(t, p.key)) && p == PatternOf(p.key, Entry(t, p.key))
    {
      if order != [] {
        var front, key := order[..|order| - 1], order[|order| - 1];
        assert order == front + [key];
        EmittedExactly(front, t, p);
      }
    }

    /** The patterns that are extracted. */
    function Extracted(os: seq<Outcome>): seq<Pattern> {
      var t := AddAll(EmptyTable, Hits(os));
      Emitted(t.order, t)
    }

    /** What a key with the given count is reported as. */
    function Report(hits: seq<Hit>, key: string): Pattern {
      Pattern(key, Split(key, Arrow), Confidence(Count(hits, key)), 1.0, Count(hits, key), Goals(hits, key))
    }

    lemma KeyIsReported(key: string, d: Tally, hits: seq<Hit>)
      requires d == Tally(Count(hits, key), Count(hits, key), Goals(hits, key))
      ensures Frequent(d) <==> d.count >= Max(1, minObservations) && minConfidence <= 1.0
      ensures d.count > 0 ==> PatternOf(key, d) == Report(hits, key)
    {
      assert d.count > 0 ==> Rate(d) == 1.0;
    }

    lemma ExtractedMeans(os: seq<Outcome>, p: Pattern)
      ensures p in Extracted(os) <==>
              && Count(Hits(os), p.key) >= Max(1, minObservations) && minConfidence <= 1.0
              && p == Report(Hits(os), p.key)
    {
      var t := AddAll(EmptyTable, Hits(os));
      EmittedExactly(t.order, t, p);
      TableCounts(Hits(os), p.key);
      KeyIsReported(p.key, Entry(t, p.key), Hits(os));
    }

    /** With clean action names, a window of two or three actions becomes a pattern exactly when it occurs
        `minObservations` times, and the pattern carries that number; the success rate is always 1. */
    lemma PatternIffFrequent(os: seq<Outcome>, w: seq<string>)
      requires AllClean(os) && Clean(w) && 2 <= |w| <= 3
      ensures (exists p | p in Extracted(os) :: p.sequence == w) <==>
              Total(os, w) >= Max(1, minObservations) && minConfidence <= 1.0
      ensures forall p | p in Extracted(os) && p.sequence == w ::
                && p.observations == Total(os, w) && p.successRate == 1.0
                && p.confidence == (if Total(os, w) >= 10 then 1.0 else Total(os, w) as real / 10.0)
    {
      CountIsTotal(os, w);
      var r := Report(Hits(os), Join(Arrow, w));
      ExtractedMeans(os, r);
      CleanSplit(w);
      forall p | p in Extracted(os) && p.sequence == w ensures p == r {
        ExtractedMeans(os, p);
        JoinSplit(p.key, Arrow);
      }
    }

    lemma {:induction false} EmittedDistinct(order: seq<string>, t: Table)
      requires Distinct(order)
      ensures Distinct(Emitted(order, t))
    {
      if order != [] {
        var front, key := order[..|order| - 1], order[|order| - 1];
        EmittedDistinct(front, t);
        if Frequent(Entry(t, key)) {
          EmittedExactly(front, t, PatternOf(key, Entry(t, key)));
          DistinctSnoc(Emitted(front, t), PatternOf(key, Entry(t, key)));
        }
      }
    }

    ghost predicate PatternsInOrder(hits: seq<Hit>, ps: seq<Pattern>) {
      forall i, j | 0 <= i < j < |ps| :: HitBefore(hits, ps[i].key, ps[j].key)
    }

    /** Patterns stand in the order of the keys that they are made of. */
    lemma {:induction false} EmittedInOrder(order: seq<string>, t: Table, hits: seq<Hit>)
      requires KeysInOrder(hits, order)
      ensures PatternsInOrder(hits, Emitted(order, t))
    {
      if order != [] {
        var front, key := order[..|order| - 1], order[|order| - 1];
        var ps := Emitted(front, t);
        EmittedInOrder(front, t, hits);
        forall i | 0 <= i < |ps| ensures HitBefore(hits, ps[i].key, key) {
          EmittedExactly(front, t, ps[i]);
          assert ps[i] in ps;
          var k :| 0 <= k < |front| && front[k] == ps[i].key;
          assert order[k] == ps[i].key;
        }
      }
    }

    /** Patterns are reported in the order in which their windows were seen first. */
    lemma PatternsAreInOrder(os: seq<Outcome>)
      ensures PatternsInOrder(Hits(os), Extracted(os))
    {
      OrderIsByFirstHit(Hits(os));
      EmittedInOrder(AddAll(EmptyTable, Hits(os)).order, AddAll(EmptyTable, Hits(os)), Hits(os));
    }

    /** No pattern is reported twice. */
    lemma PatternsAreDistinct(os: seq<Outcome>)
      ensures Distinct(Extracted(os))
    {
      OrderIsDistinct(Hits(os));
      EmittedDistinct(AddAll(EmptyTable, Hits(os)).order, AddAll(EmptyTable, Hits(os)));
    }
  }
}
