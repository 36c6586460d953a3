/** The sliding-window rate limiter: a pruned log per user, and the bound it must keep over the full history. Times are
    in seconds; the clock never runs backwards. */
module RateLimiter {
  import opened Prelude

  type User = string

  datatype Entry = Entry(time: int, op: string)

  const Day := 86400

  // ---------- Limits ----------

  /** How many requests of each operation a window may hold. */
  type Limits = string -> nat

  /** The limits of a tier. */
  function TierLimits(tier: string): Limits {
    op => Limit(tier, op)
  }

  function Limit(tier: string, op: string): (r: nat)
    ensures r >= 1
  {
    if op == "creation" then
      (if tier == "plus" || tier == "professional" then 20 else if tier == "enterprise" then 100
       else if tier == "unlimited" then 999999 else 3)
    else
      (if tier == "plus" || tier == "professional" then 1000 else if tier == "enterprise" then 10000
       else if tier == "unlimited" then 999999 else 100)
  }

  // ---------- Counting ----------

  /** "default" counts every operation, the others only themselves. */
  predicate Counts(e: Entry, op: string) {
    op == "default" || e.op == op
  }

  /** Entries later than `since` that count for `op`. */
  function Count(log: seq<Entry>, since: int, op: string): nat {
    if log == [] then 0
    else Count(log[..|log| - 1], since, op)
         + if log[|log| - 1].time > since && Counts(log[|log| - 1], op) then 1 else 0
  }

  function Prune(log: seq<Entry>, cutoff: int): (r: seq<Entry>) {
    if log == [] then []
    else
      Prune(log[..|log| - 1], cutoff) + if log[|log| - 1].time > cutoff then [log[|log| - 1]] else []
  }

  /** Where the count of a check begins: a creation looks back a day, whatever the window asked for. */
  function CountSince(op: string, now: int, window: int): int {
    if op == "creation" then now - Day else now - window
  }

  lemma CountSnoc(log: seq<Entry>, e: Entry, since: int, op: string)
    ensures Count(log + [e], since, op) == Count(log, since, op) + if e.time > since && Counts(e, op) then 1 else 0
  {
    assert (log + [e])[..|log|] == log;
  }

  /** Pruning changes no count that begins at the cutoff or later. */
  lemma {:induction false} PrunedCount(log: seq<Entry>, cutoff: int, since: int, op: string)
    ensures Count(Prune(log, cutoff), since, op) == Count(log, Max(cutoff, since), op)
  {
    if log != [] {
      PrunedCount(log[..|log| - 1], cutoff, since, op);
      if log[|log| - 1].time > cutoff {
        CountSnoc(Prune(log[..|log| - 1], cutoff), log[|log| - 1], since, op);
      } else {
        assert Prune(log[..|log| - 1], cutoff) + [] == Prune(log[..|log| - 1], cutoff);
      }
    }
  }

  lemma {:induction false} LaterCountsLess(log: seq<Entry>, early: int, late: int, op: string)
    requires early <= late
    ensures Count(log, late, op) <= Count(log, early, op)
  {
    if log != [] { LaterCountsLess(log[..|log| - 1], early, late, op); }
  }

  // ---------- One user's log as a state machine ----------

  datatype Event =
    | Check(now: int, op: string, window: int)
    | Usage(now: int, op: string)
    | Cleanup(now: int)

  /** The limiter's log, and everything it ever accepted. */
  datatype State = State(log: seq<Entry>, accepted: seq<Entry>)

  const Fresh := State([], [])

  /** The check's verdict, on the log already pruned at the window. */
  predicate Accepts(log: seq<Entry>, limits: Limits, op: string, now: int, window: int) {
    Count(Prune(log, now - window), CountSince(op, now, window), op) < limits(op)
  }

  function Next(s: State, e: Event, limits: Limits): State {
    match e
    case Check(now, op, window) =>
      var kept := Prune(s.log, now - window);
      if Accepts(s.log, limits, op, now, window)
      then State(kept + [Entry(now, op)], s.accepted + [Entry(now, op)])
      else s.(log := kept)
    case Usage(_, _) => s
    case Cleanup(now) => s.(log := Prune(s.log, now - Day))
  }

  function RunEvents(s: State, es: seq<Event>, limits: Limits): State {
    if es == [] then s else Next(RunEvents(s, es[..|es| - 1], limits), es[|es| - 1], limits)
  }

  /** A check with a window of at least `span`, or no check. */
  predicate Asks(e: Event, span: int) {
    e.Check? ==> e.window >= span
  }

  /** No check asks for a window shorter than `span`. */
  ghost predicate AllAsk(es: seq<Event>, span: int) {
    forall i | 0 <= i < |es| :: Asks(es[i], span)
  }

  ghost predicate ClockForward(es: seq<Event>) {
    forall i, j | 0 <= i < j < |es| :: es[i].now <= es[j].now
  }

  /** `get_usage`: what is left of the limit. The log is not pruned for it. */
  function Remaining(log: seq<Entry>, limits: Limits, op: string, now: int, window: int): int {
    Max(0, limits(op) - Count(log, CountSince(op, now, window), op))
  }

  // ---------- The pruned log agrees with the history ----------

  /** Whatever counts from now on for a window of `span` counts the same on the log as on the full history. */
  ghost predicate Agrees(s: State, now: int, span: int) {
    && (forall op, since | since >= now - span :: Count(s.log, since, op) == Count(s.accepted, since, op))
    && (forall e | e in s.accepted :: e.time <= now)
  }

  /** Every window of `span` holds at most the limit of accepted requests of each operation. */
  ghost predicate Bounded(accepted: seq<Entry>, limits: Limits, span: int) {
    forall op, t :: InWindow(accepted, t, span, op) <= limits(op)
  }

  /** Accepted requests of `op` itself in the window (t - span, t]. */
  ghost function InWindow(accepted: seq<Entry>, t: int, span: int, op: string): nat {
    CountUpTo(accepted, t - span, t, op)
  }

  /** Accepted requests of `op` itself in the window (since, t]. */
  ghost function CountUpTo(log: seq<Entry>, since: int, t: int, op: string): nat {
    if log == [] then 0
    else CountUpTo(log[..|log| - 1], since, t, op)
         + if since < log[|log| - 1].time <= t && log[|log| - 1].op == op then 1 else 0
  }

  lemma {:induction false} UpToIsLess(log: seq<Entry>, since: int, t: int, early: int, op: string)
    requires early <= since
    ensures CountUpTo(log, since, t, op) <= Count(log, early, op)
  {
    if log != [] { UpToIsLess(log[..|log| - 1], since, t, early, op); }
  }

  lemma UpToSnoc(log: seq<Entry>, e: Entry, since: int, t: int, op: string)
    ensures CountUpTo(log + [e], since, t, op) == CountUpTo(log, since, t, op) + if since < e.time <= t && e.op == op then 1 else 0
  {
    assert (log + [e])[..|log|] == log;
  }

  lemma KeptAgrees(s: State, cutoff: int, last: int, span: int, op: string, since: int)
    requires Agrees(s, last, span) && since >= cutoff && since >= last - span
    ensures Count(Prune(s.log, cutoff), since, op) == Count(s.accepted, since, op)
  {
    PrunedCount(s.log, cutoff, since, op);
  }

  lemma BothGrow(kept: seq<Entry>, accepted: seq<Entry>, e: Entry, op: string, since: int)
    requires Count(kept, since, op) == Count(accepted, since, op)
    ensures Count(kept + [e], since, op) == Count(accepted + [e], since, op)
  {
    CountSnoc(kept, e, since, op);
    CountSnoc(accepted, e, since, op);
  }

  lemma CheckKeepsAgreement(s: State, e: Event, last: int, limits: Limits, span: int)
    requires e.Check? && Asks(e, span) && Agrees(s, last, span) && last <= e.now
    ensures Agrees(Next(s, e, limits), e.now, span)
  {
    var n, kept := Next(s, e, limits), Prune(s.log, e.now - e.window);
    forall op, since | since >= e.now - span ensures Count(n.log, since, op) == Count(n.accepted, since, op) {
      KeptAgrees(s, e.now - e.window, last, span, op, since);
      BothGrow(kept, s.accepted, Entry(e.now, e.op), op, since);
    }
    assert n.accepted == s.accepted || n.accepted == s.accepted + [Entry(e.now, e.op)];
  }

  lemma CleanupKeepsAgreement(s: State, now: int, last: int, limits: Limits, span: int)
    requires Agrees(s, last, span) && last <= now && span <= Day
    ensures Agrees(Next(s, Cleanup(now), limits), now, span)
  {
    forall op, since | since >= now - span ensures Count(Prune(s.log, now - Day), since, op) == Count(s.accepted, since, op) {
      KeptAgrees(s, now - Day, last, span, op, since);
    }
  }

  /** A check sees at least what the full history holds as far back as the log is complete. */
  lemma CheckSeesTheReach(s: State, now: int, last: int, window: int, span: int, op: string)
    requires Agrees(s, last, span) && last <= now && span <= Min(window, Day)
    ensures Count(s.accepted, now - span, op) <= Count(Prune(s.log, now - window), CountSince(op, now, window), op)
  {
    PrunedCount(s.log, now - window, CountSince(op, now, window), op);
    assert Count(s.log, now - span, op) == Count(s.accepted, now - span, op);
    LaterCountsLess(s.log, Max(now - window, CountSince(op, now, window)), now - span, op);
  }

  /** An accepted request fits the limit of every window that it falls into. */
  lemma AcceptedFits(s: State, e: Event, last: int, limits: Limits, span: int, t: int)
    requires e.Check? && Asks(e, span) && span <= Day && Agrees(s, last, span) && last <= e.now
    requires Accepts(s.log, limits, e.op, e.now, e.window) && t - span < e.now <= t
    ensures InWindow(s.accepted, t, span, e.op) < limits(e.op)
  {
    UpToIsLess(s.accepted, t - span, t, e.now - span, e.op);
    CheckSeesTheReach(s, e.now, last, e.window, span, e.op);
  }

  lemma CheckKeepsBound(s: State, e: Event, last: int, limits: Limits, span: int)
    requires e.Check? && Asks(e, span) && span <= Day && Agrees(s, last, span) && last <= e.now
    requires Bounded(s.accepted, limits, span)
    ensures Bounded(Next(s, e, limits).accepted, limits, span)
  {
    if Accepts(s.log, limits, e.op, e.now, e.window) {
      var accepted := s.accepted + [Entry(e.now, e.op)];
      forall op, t ensures InWindow(accepted, t, span, op) <= limits(op) {
        UpToSnoc(s.accepted, Entry(e.now, e.op), t - span, t, op);
        assert InWindow(s.accepted, t, span, op) <= limits(op);
        if t - span < e.now <= t { AcceptedFits(s, e, last, limits, span, t); }
      }
    }
  }

  ghost predicate Sound(s: State, now: int, limits: Limits, span: int) {
    Agrees(s, now, span) && Bounded(s.accepted, limits, span)
  }

  /** Each event keeps the log in agreement with the history, and the bound, for every span up to the window it asks for and a
      day. */
  lemma NextKeepsSound(s: State, e: Event, last: int, limits: Limits, span: int)
    requires Sound(s, last, limits, span) && last <= e.now && Asks(e, span) && span <= Day
    ensures Sound(Next(s, e, limits), e.now, limits, span)
  {
    match e
    case Check(_, _, _) => CheckKeepsAgreement(s, e, last, limits, span); CheckKeepsBound(s, e, last, limits, span);
    case Usage(now, _) =>
      forall op, since | since >= now - span ensures Count(s.log, since, op) == Count(s.accepted, since, op) {
        assert since >= last - span;
      }
    case Cleanup(now) => CleanupKeepsAgreement(s, now, last, limits, span);
  }

  function LastTime(es: seq<Event>, start: int): int {
    if es == [] then start else es[|es| - 1].now
  }

  lemma FreshIsSound(now: int, limits: Limits, span: int)
    ensures Sound(Fresh, now, limits, span)
  {
  }

  lemma {:induction false} RunIsSound(es: seq<Event>, start: int, limits: Limits, span: int)
    requires ClockForward(es) && (es != [] ==> start <= es[0].now) && AllAsk(es, span) && span <= Day
    ensures Sound(RunEvents(Fresh, es, limits), LastTime(es, start), limits, span)
  {
    FreshIsSound(start, limits, span);
    if es != [] {
      var front := es[..|es| - 1];
      assert forall i, j | 0 <= i < j < |front| :: front[i].now <= front[j].now;
      assert forall i | 0 <= i < |front| :: front[i] == es[i];
      RunIsSound(front, start, limits, span);
      assert LastTime(front, start) <= es[|es| - 1].now && Asks(es[|es| - 1], span);
      NextKeepsSound(RunEvents(Fresh, front, limits), es[|es| - 1], LastTime(front, start), limits, span);
    }
  }

  /** In any interleaving of checks, each with a window of its own, usage queries and cleanups, every span up to the least window
      asked for, and up to a day, holds at most the limit of accepted requests of each operation. */
  lemma WindowBound(es: seq<Event>, limits: Limits, span: int, op: string, t: int)
    requires ClockForward(es) && AllAsk(es, span) && span <= Day
    ensures InWindow(RunEvents(Fresh, es, limits).accepted, t, span, op) <= limits(op)
  {
    RunIsSound(es, if es == [] then 0 else es[0].now, limits, span);
  }

  // ---------- What counts, told by the requests themselves ----------

  /** The places of the requests later than `since` that an operation is charged with: its own, or all for "default". */
  function PlacesSince(log: seq<Entry>, since: int, op: string): set<nat> {
    set i: nat | i < |log| && log[i].time > since && (op == "default" || log[i].op == op)
  }

  lemma {:induction false} CountIsTheirNumber(log: seq<Entry>, since: int, op: string)
    ensures Count(log, since, op) == |PlacesSince(log, since, op)|
  {
    if log != [] {
      var k := |log| - 1;
      CountIsTheirNumber(log[..k], since, op);
      assert PlacesSince(log, since, op)
             == PlacesSince(log[..k], since, op) + if log[k].time > since && (op == "default" || log[k].op == op) then {k} else {};
    }
  }

  /** A check accepts exactly if fewer requests than the limit were made within its window, of all operations for "default" and of
      its own otherwise; creations look back a day at most. */
  lemma AcceptsIffFewer(log: seq<Entry>, limits: Limits, op: string, now: int, window: int)
    ensures Accepts(log, limits, op, now, window) <==>
              |PlacesSince(log, now - (if op == "creation" && window > 86400 then 86400 else window), op)| < limits(op)
  {
    var since := Max(now - window, CountSince(op, now, window));
    AcceptsIffRoom(log, limits, op, now, window);
    CountIsTheirNumber(log, since, op);
  }

  /** A usage query counts creations of the last day, and others within the window asked for. */
  lemma RemainingIs(log: seq<Entry>, limits: Limits, op: string, now: int, window: int)
    ensures Remaining(log, limits, op, now, window)
            == Max(0, limits(op) - |PlacesSince(log, now - (if op == "creation" then 86400 else window), op)|)
  {
    CountIsTheirNumber(log, CountSince(op, now, window), op);
  }

  /** The limits of the tiers: creations a day, and requests of any other kind. */
  lemma TierLimitsAre(tier: string, op: string)
    ensures var creations, others := map["plus" := 20, "professional" := 20, "enterprise" := 100, "unlimited" := 999999],
                                     map["plus" := 1000, "professional" := 1000, "enterprise" := 10000, "unlimited" := 999999];
            TierLimits(tier)(op) == if op == "creation" then if tier in creations then creations[tier] else 3
                                    else if tier in others then others[tier] else 100
  {
  }

  /** Pruning keeps exactly the requests after the cutoff. */
  lemma {:induction false} PruneKeeps(log: seq<Entry>, cutoff: int, e: Entry)
    ensures multiset(Prune(log, cutoff))[e] == if e.time > cutoff then multiset(log)[e] else 0
  {
    if log != [] {
      var front, last := log[..|log| - 1], log[|log| - 1];
      PruneKeeps(front, cutoff, e);
      assert log == front + [last];
    }
  }

  // ---------- A check accepts exactly when there is something left ----------

  lemma AcceptsIffRoom(log: seq<Entry>, limits: Limits, op: string, now: int, window: int)
    ensures Accepts(log, limits, op, now, window) <==>
              Count(log, Max(now - window, CountSince(op, now, window)), op) < limits(op)
  {
    PrunedCount(log, now - window, CountSince(op, now, window), op);
  }

  /** A check accepts exactly when a usage query at the same moment reports something left; except a creation with a
      window of less than a day, which looks at that window only. */
  lemma AcceptsIffRemaining(s: State, limits: Limits, op: string, now: int, window: int)
    ensures op != "creation" || window >= Day ==>
              (Accepts(s.log, limits, op, now, window) <==> Remaining(s.log, limits, op, now, window) > 0)
    ensures op == "creation" ==>
              (Accepts(s.log, limits, op, now, window) <==> Count(s.log, now - Min(window, Day), op) < limits(op))
  {
    AcceptsIffRoom(s.log, limits, op, now, window);
    assert Max(now - window, CountSince(op, now, window)) == if op == "creation" then now - Min(window, Day) else now - window;
  }

  // ---------- No longer window is bounded ----------

  /** How far back the log is complete: a check prunes at the window asked for, a cleanup at a day. */
  function Reach(window: int): int { Min(window, Day) }

  function AtOnce(n: nat, op: string, window: int): (es: seq<Event>)
    ensures |es| == n && forall i | 0 <= i < n :: es[i] == Check(0, op, window)
  {
    if n == 0 then [] else AtOnce(n - 1, op, window) + [Check(0, op, window)]
  }

  /** As many requests at time 0 as fit the limit, a cleanup when the log's reach has passed, and one more request. */
  function OneMore(n: nat, op: string, window: int): seq<Event> {
    (AtOnce(n, op, window) + [Cleanup(Reach(window))]) + [Check(Reach(window), op, window)]
  }

  lemma OneMoreIsForward(n: nat, op: string, window: int)
    requires window >= 0
    ensures ClockForward(OneMore(n, op, window)) && AllAsk(OneMore(n, op, window), window)
  {
  }

  function Requests(n: nat, op: string): seq<Entry> {
    if n == 0 then [] else Requests(n - 1, op) + [Entry(0, op)]
  }

  lemma PruneSnoc(log: seq<Entry>, e: Entry, cutoff: int)
    ensures Prune(log + [e], cutoff) == Prune(log, cutoff) + if e.time > cutoff then [e] else []
  {
    assert (log + [e])[..|log|] == log;
  }

  lemma {:induction false} RequestsCount(n: nat, op: string, since: int)
    requires since < 0
    ensures Count(Requests(n, op), since, op) == n
  {
    if n > 0 {
      RequestsCount(n - 1, op, since);
      CountSnoc(Requests(n - 1, op), Entry(0, op), since, op);
    }
  }

  lemma {:induction false} RequestsUpTo(n: nat, op: string, since: int, t: int)
    requires since < 0 <= t
    ensures CountUpTo(Requests(n, op), since, t, op) == n
  {
    if n > 0 {
      RequestsUpTo(n - 1, op, since, t);
      UpToSnoc(Requests(n - 1, op), Entry(0, op), since, t, op);
    }
  }

  lemma {:induction false} RequestsPruned(n: nat, op: string, cutoff: int)
    ensures Prune(Requests(n, op), cutoff) == if cutoff < 0 then Requests(n, op) else []
  {
    if n > 0 {
      RequestsPruned(n - 1, op, cutoff);
      PruneSnoc(Requests(n - 1, op), Entry(0, op), cutoff);
    }
  }

  lemma RunSnoc(s: State, es: seq<Event>, e: Event, limits: Limits)
    ensures RunEvents(s, es + [e], limits) == Next(RunEvents(s, es, limits), e, limits)
  {
    assert (es + [e])[..|es|] == es;
  }

  /** A check that finds room adds its request to what is kept. */
  lemma CheckAdds(s: State, kept: seq<Entry>, op: string, now: int, limits: Limits, window: int)
    requires Prune(s.log, now - window) == kept && Count(kept, CountSince(op, now, window), op) < limits(op)
    ensures Next(s, Check(now, op, window), limits) == State(kept + [Entry(now, op)], s.accepted + [Entry(now, op)])
  {
  }

  /** A check at time 0 on the first `n` requests. */
  lemma {:induction false} OneRequest(n: nat, op: string, limits: Limits, window: int)
    requires 0 < window && n < limits(op)
    ensures var s := State(Requests(n, op), Requests(n, op));
            Next(s, Check(0, op, window), limits)
            == State(Requests(n, op) + [Entry(0, op)], Requests(n, op) + [Entry(0, op)])
  {
    RequestsPruned(n, op, -window);
    RequestsCount(n, op, CountSince(op, 0, window));
    CheckAdds(State(Requests(n, op), Requests(n, op)), Requests(n, op), op, 0, limits, window);
  }

  lemma {:induction false} AtOnceAccepted(n: nat, op: string, limits: Limits, window: int)
    requires 0 < window && n <= limits(op)
    ensures RunEvents(Fresh, AtOnce(n, op, window), limits) == State(Requests(n, op), Requests(n, op))
  {
    if n > 0 {
      AtOnceAccepted(n - 1, op, limits, window);
      RunSnoc(Fresh, AtOnce(n - 1, op, window), Check(0, op, window), limits);
      OneRequest(n - 1, op, limits, window);
    }
  }

  /** The cleanup and the check between them forget all requests at time 0. */
  lemma AllForgotten(n: nat, op: string, window: int)
    requires 0 < window
    ensures Prune(Prune(Requests(n, op), Reach(window) - Day), Reach(window) - window) == []
  {
    RequestsPruned(n, op, Reach(window) - Day);
    RequestsPruned(n, op, Reach(window) - window);
  }

  /** A check that finds nothing left of the log accepts. */
  lemma AcceptsOnNothing(s: State, op: string, now: int, limits: Limits, window: int)
    requires Prune(s.log, now - window) == [] && limits(op) > 0
    ensures Next(s, Check(now, op, window), limits).accepted == s.accepted + [Entry(now, op)]
  {
    CheckAdds(s, [], op, now, limits, window);
  }

  lemma TwoMore(es: seq<Event>, e: Event, f: Event, limits: Limits)
    ensures RunEvents(Fresh, (es + [e]) + [f], limits) == Next(Next(RunEvents(Fresh, es, limits), e, limits), f, limits)
  {
    RunSnoc(Fresh, es, e, limits);
    RunSnoc(Fresh, es + [e], f, limits);
  }

  /** After a cleanup and a check that between them forget all of `log`, the check has accepted. */
  lemma ForgottenAccepts(log: seq<Entry>, op: string, limits: Limits, window: int)
    requires Prune(Prune(log, Reach(window) - Day), Reach(window) - window) == [] && limits(op) > 0
    ensures Next(Next(State(log, log), Cleanup(Reach(window)), limits), Check(Reach(window), op, window), limits).accepted
            == log + [Entry(Reach(window), op)]
  {
    AcceptsOnNothing(State(Prune(log, Reach(window) - Day), log), op, Reach(window), limits, window);
  }

  lemma {:induction false} OneMoreRun(op: string, limits: Limits, window: int)
    requires 0 < window && limits(op) > 0
    ensures RunEvents(Fresh, OneMore(limits(op), op, window), limits).accepted
            == Requests(limits(op), op) + [Entry(Reach(window), op)]
  {
    var n, reach := limits(op), Reach(window);
    AtOnceAccepted(n, op, limits, window);
    TwoMore(AtOnce(n, op, window), Cleanup(reach), Check(reach, op, window), limits);
    AllForgotten(n, op, window);
    ForgottenAccepts(Requests(n, op), op, limits, window);
  }

  /** One request more than the limit is accepted within any longer span. */
  lemma OneMoreAccepted(op: string, limits: Limits, window: int, span: int)
    requires 0 < window && limits(op) > 0 && span > Min(window, Day)
    ensures ClockForward(OneMore(limits(op), op, window)) && AllAsk(OneMore(limits(op), op, window), window)
    ensures InWindow(RunEvents(Fresh, OneMore(limits(op), op, window), limits).accepted, Reach(window), span, op)
            == limits(op) + 1
  {
    var n, reach := limits(op), Reach(window);
    OneMoreIsForward(n, op, window);
    OneMoreRun(op, limits, window);
    RequestsUpTo(n, op, reach - span, reach);
    UpToSnoc(Requests(n, op), Entry(reach, op), reach - span, reach, op);
  }

  /** With a window of no length each check forgets what was accepted before it, so that all are accepted. */
  /** `n` requests were accepted, and none of them counts for a window of no length. */
  ghost predicate NoneCounts(s: State, n: nat, op: string) {
    s.accepted == Requests(n, op) && Prune(s.log, 0) == []
  }

  lemma OneMoreForgotten(s: State, n: nat, op: string, limits: Limits)
    requires limits(op) > 0 && NoneCounts(s, n, op)
    ensures NoneCounts(Next(s, Check(0, op, 0), limits), n + 1, op)
  {
    CheckAdds(s, [], op, 0, limits, 0);
    PruneSnoc([], Entry(0, op), 0);
  }

  /** With a window of no length each check forgets what was accepted before it, so that all are accepted. */
  lemma {:induction false} NothingKept(n: nat, op: string, limits: Limits)
    requires limits(op) > 0
    ensures NoneCounts(RunEvents(Fresh, AtOnce(n, op, 0), limits), n, op)
  {
    if n > 0 {
      var before := RunEvents(Fresh, AtOnce(n - 1, op, 0), limits);
      NothingKept(n - 1, op, limits);
      OneMoreForgotten(before, n - 1, op, limits);
      RunSnoc(Fresh, AtOnce(n - 1, op, 0), Check(0, op, 0), limits);
    }
  }

  /** In every run in which no check asks for less than `window`, every window of `span` holds at most the limit of accepted
      requests of `op`. */
  ghost predicate AlwaysBounded(limits: Limits, window: int, span: int, op: string) {
    forall es, t | ClockForward(es) && AllAsk(es, window) ::
      InWindow(RunEvents(Fresh, es, limits).accepted, t, span, op) <= limits(op)
  }

  /** A longer span than the limiter looks back can hold too much. */
  lemma LongerIsUnbounded(limits: Limits, window: int, span: int, op: string)
    requires span > Max(0, Min(window, Day)) && limits(op) > 0
    ensures !AlwaysBounded(limits, window, span, op)
  {
    if window > 0 {
      OneMoreAccepted(op, limits, window, span);
    } else {
      var n := limits(op) + 1;
      NothingKept(n, op, limits);
      RequestsUpTo(n, op, -span, 0);
      assert ClockForward(AtOnce(n, op, 0)) && AllAsk(AtOnce(n, op, 0), window);
      assert InWindow(RunEvents(Fresh, AtOnce(n, op, 0), limits).accepted, 0, span, op) == n;
    }
  }

  lemma {:induction false} NoTimeNoRequests(log: seq<Entry>, since: int, t: int, op: string)
    requires since >= t
    ensures CountUpTo(log, since, t, op) == 0
  {
    if log != [] { NoTimeNoRequests(log[..|log| - 1], since, t, op); }
  }

  /** The limit holds for every window of a span exactly when that is no longer than the least window asked for and than a day;
      or when the span is empty, or nothing is allowed at all. */
  lemma BoundedIff(limits: Limits, window: int, span: int, op: string)
    ensures AlwaysBounded(limits, window, span, op) <==> span <= Max(0, Min(window, Day)) || limits(op) == 0
  {
    if span > Max(0, Min(window, Day)) && limits(op) > 0 {
      LongerIsUnbounded(limits, window, span, op);
    } else {
      forall es, t | ClockForward(es) && AllAsk(es, window)
        ensures InWindow(RunEvents(Fresh, es, limits).accepted, t, span, op) <= limits(op)
      {
        IsBounded(es, limits, window, span, op, t);
      }
    }
  }

  lemma IsBounded(es: seq<Event>, limits: Limits, window: int, span: int, op: string, t: int)
    requires ClockForward(es) && AllAsk(es, window) && (span <= Max(0, Min(window, Day)) || limits(op) == 0)
    ensures InWindow(RunEvents(Fresh, es, limits).accepted, t, span, op) <= limits(op)
  {
    if span <= 0 {
      NoTimeNoRequests(RunEvents(Fresh, es, limits).accepted, t - span, t, op);
    } else if limits(op) == 0 {
      NothingAllowed(es, limits, t - span, t, op);
    } else {
      assert forall i | 0 <= i < |es| :: Asks(es[i], window);
      WindowBound(es, limits, span, op, t);
    }
  }

  lemma {:induction false} NothingAllowed(es: seq<Event>, limits: Limits, since: int, t: int, op: string)
    requires limits(op) == 0
    ensures CountUpTo(RunEvents(Fresh, es, limits).accepted, since, t, op) == 0
  {
    if es != [] {
      var s, e := RunEvents(Fresh, es[..|es| - 1], limits), es[|es| - 1];
      NothingAllowed(es[..|es| - 1], limits, since, t, op);
      if e.Check? { UpToSnoc(s.accepted, Entry(e.now, e.op), since, t, op); }
    }
  }

  /** The limit on creations holds for every day exactly when the least window asked for is at least a day: pruning at a
      shorter window forgets the creations that the day-long count looks for. */
  lemma DailyCreationsIff(limits: Limits, window: int)
    requires limits("creation") > 0
    ensures AlwaysBounded(limits, window, Day, "creation") <==> window >= Day
  {
    BoundedIff(limits, window, Day, "creation");
  }

  // ---------- The limiter as it runs ----------

  class Limiter {
    var requests: map<User, seq<Entry>>

    function LogOf(u: User): seq<Entry>
      reads this
    {
      if u in requests then requests[u] else []
    }

    constructor ()
      ensures requests == map[]
    {
      requests := map[];
    }

    method CheckRateLimit(u: User, tier: string, op: string, window: int, now: int) returns (allowed: bool)
      modifies this
      ensures allowed == Accepts(old(LogOf(u)), TierLimits(tier), op, now, window)
      ensures forall accepted :: LogOf(u) == Next(State(old(LogOf(u)), accepted), Check(now, op, window), TierLimits(tier)).log
      ensures forall v | v != u :: LogOf(v) == old(LogOf(v))
    {
      var log := Prune(LogOf(u), now - window);
      var count := CountLog(log, CountSince(op, now, window), op);
      allowed := count < Limit(tier, op);
      if allowed {
        log := log + [Entry(now, op)];
      }
      requests := requests[u := log];
    }

    method CountLog(log: seq<Entry>, since: int, op: string) returns (count: nat)
      ensures count == Count(log, since, op)
    {
      count := 0;
      for i := 0 to |log|
        invariant count == Count(log[..i], since, op)
      {
        assert log[..i + 1][..i] == log[..i];
        if log[i].time > since && (op == "default" || log[i].op == op) {
          count := count + 1;
        }
      }
      assert log[..|log|] == log;
    }

    method GetUsage(u: User, tier: string, op: string, window: int, now: int) returns (used: nat, remaining: int)
      ensures remaining == Remaining(LogOf(u), TierLimits(tier), op, now, window) && used == Count(LogOf(u), CountSince(op, now, window), op)
    {
      used := CountLog(LogOf(u), CountSince(op, now, window), op);
      remaining := Max(0, Limit(tier, op) - used);
    }

    method CleanUp(now: int)
      modifies this
      ensures forall u :: LogOf(u) == Prune(old(LogOf(u)), now - Day)
    {
      requests := map u | u in requests && Prune(requests[u], now - Day) != [] :: Prune(requests[u], now - Day);
    }
  }
}
