/** The verifier's check for repeated steps, which the run loop asks after each one. */
module Verifier {
  import opened Prelude
  import opened LoopStabilizer
  import opened StepResults

  /** Nothing found, a repetition to be avoided, or a loop. */
  datatype Verdict = NoLoop | Rejected | LoopFound

  /** What a step is compared by: its input and its output. */
  datatype Digest = Digest(input: int, output: int)

  function DigestOf(r: StepResult): Digest {
    Digest(DigestAt(r, KToolInput), DigestAt(r, KResult))
  }

  /** How often `d` is among the last ten. */
  function Recent(seen: seq<Digest>, d: Digest): nat {
    multiset(LastN(seen, 10))[d]
  }

  function Judge(seen: seq<Digest>, d: Digest): Verdict {
    if Recent(seen, d) >= 3 then LoopFound else if Recent(seen, d) >= 2 then Rejected else NoLoop
  }

  /** A step is noted only if nothing was found. */
  function Noted(seen: seq<Digest>, d: Digest): seq<Digest> {
    if Judge(seen, d) == NoLoop then LastN(seen + [d], 50) else seen
  }

  /** A step that stands at three of the last ten places noted is a loop, one at two is rejected; any other is noted, at the end, and
      at most fifty are. */
  lemma VerdictIff(seen: seq<Digest>, d: Digest)
    ensures var v, n := Judge(seen, d), |PlacesFrom(seen, Max(0, |seen| - 10), d)|;
            && (v == LoopFound <==> n >= 3) && (v == Rejected <==> n == 2)
            && Noted(seen, d) == if n >= 2 then seen else if |seen| < 50 then seen + [d] else seen[|seen| - 49..] + [d]
  {
    CountIsPlaces(seen, Max(0, |seen| - 10), d);
    assert LastN(seen, 10) == seen[Max(0, |seen| - 10)..];
    assert |seen| >= 50 ==> LastN(seen + [d], 50) == seen[|seen| - 49..] + [d];
  }

  class VerifierAgent {
    var stepHashes: seq<Digest>

    constructor ()
      ensures stepHashes == []
    {
      stepHashes := [];
    }

    method CheckForLoops(d: Digest) returns (v: Verdict)
      modifies this
      ensures v == Judge(old(stepHashes), d) && stepHashes == Noted(old(stepHashes), d)
    {
      var recent := LastN(stepHashes, 10);
      if d in recent {
        var count := multiset(recent)[d];
        if count >= 3 {
          return LoopFound;
        } else if count >= 2 {
          return Rejected;
        }
      }
      stepHashes := stepHashes + [d];
      if |stepHashes| > 50 {
        stepHashes := stepHashes[|stepHashes| - 50..];
      }
      v := NoLoop;
    }
  }

  // ---------- No digest is ever among the last ten three times ----------

  ghost predicate NoTriple(seen: seq<Digest>) {
    forall d :: Recent(seen, d) <= 2
  }

  lemma DropOne(s: seq<Digest>, d: Digest)
    requires s != []
    ensures multiset(s[1..])[d] <= multiset(s)[d]
  {
    assert s == [s[0]] + s[1..];
  }

  lemma RecentAfter(seen: seq<Digest>, e: Digest, d: Digest)
    ensures Recent(LastN(seen + [e], 50), d) <= Recent(seen, d) + if d == e then 1 else 0
    ensures |seen| < 10 ==> Recent(LastN(seen + [e], 50), d) == Recent(seen, d) + if d == e then 1 else 0
  {
    var before := LastN(seen, 10);
    if |seen| < 10 {
      assert LastN(LastN(seen + [e], 50), 10) == before + [e];
    } else {
      assert LastN(LastN(seen + [e], 50), 10) == before[1..] + [e];
      DropOne(before, d);
    }
  }

  lemma NotedKeepsNoTriple(seen: seq<Digest>, e: Digest)
    requires NoTriple(seen)
    ensures NoTriple(Noted(seen, e))
  {
    forall d ensures Recent(Noted(seen, e), d) <= 2 {
      assert Recent(seen, d) <= 2;
      RecentAfter(seen, e, d);
    }
  }

  lemma NoTripleNoLoop(seen: seq<Digest>, d: Digest)
    requires NoTriple(seen)
    ensures Judge(seen, d) != LoopFound
  {
    assert Recent(seen, d) <= 2;
  }
}
