/** The receiver-disconnect detector: a proved, sustained loss after this session's group appeared. */
module Liveness {
  import opened SessionState

  const GRACE_SECONDS: real := 3.0

  /** `present` is None when a bounded look could not tell. */
  datatype Observation = Observation(present: Option<bool>, now: real)

  predicate Absent(o: Observation) { o.present.Some? && !o.present.value }

  /** Where the absences that end the history begin; |h| when the last look did not miss the group. */
  function RunStart(h: seq<Observation>): (k: nat)
    ensures k <= |h|
  {
    if h == [] || !Absent(h[|h| - 1]) then |h| else RunStart(h[..|h| - 1])
  }

  predicate Present(o: Observation) { o.present.Some? && o.present.value }

  predicate Seen(h: seq<Observation>) {
    exists p :: 0 <= p < |h| && Present(h[p])
  }

  /** The last look missed the group, which was seen before, and so did every look for the grace period. */
  predicate Lost(h: seq<Observation>) {
    RunStart(h) < |h| && Seen(h) && h[|h| - 1].now - h[RunStart(h)].now >= GRACE_SECONDS
  }

  /** `k` is where the maximal run of absences ending the history starts. */
  predicate MaximalAbsence(h: seq<Observation>, k: nat) {
    && k < |h|
    && (forall j :: k <= j < |h| ==> Absent(h[j]))
    && (k > 0 ==> !Absent(h[k - 1]))
  }

  lemma {:induction false} RunStartIsMaximal(h: seq<Observation>, k: nat)
    ensures MaximalAbsence(h, k) <==> k == RunStart(h) < |h|
  {
    if h != [] && Absent(h[|h| - 1]) {
      var g := h[..|h| - 1];
      RunStartIsMaximal(g, k);
      if k < |g| {
        assert MaximalAbsence(h, k) == MaximalAbsence(g, k);
      } else {
        RunStartIsMaximal(g, RunStart(g));
        assert RunStart(g) == |g| <==> g == [] || !Absent(g[|g| - 1]);
      }
    }
  }

  /** Reported exactly when a presence precedes a maximal absence at least the grace period long. */
  lemma LostExactly(h: seq<Observation>)
    ensures Lost(h) <==>
            exists k: nat, p: nat ::
              && MaximalAbsence(h, k)
              && p < k
              && Present(h[p])
              && h[|h| - 1].now - h[k].now >= 3.0
  {
    var k := RunStart(h);
    RunStartIsMaximal(h, k);
    if Lost(h) {
      var p: nat :| p < |h| && Present(h[p]);
      assert p < k by {
        assert forall j :: k <= j < |h| ==> Absent(h[j]);
      }
    }
    forall j: nat, p: nat | MaximalAbsence(h, j) && p < j && Present(h[p])
      ensures j == k && Seen(h)
    {
      RunStartIsMaximal(h, j);
    }
  }

  lemma Appended(h: seq<Observation>, o: Observation)
    ensures RunStart(h + [o]) == if Absent(o) then RunStart(h) else |h| + 1
    ensures Seen(h + [o]) <==> Seen(h) || Present(o)
  {
    var g := h + [o];
    assert g[..|g| - 1] == h && g[|h|] == o;
    if Seen(h) {
      var p :| 0 <= p < |h| && Present(h[p]);
      assert Present(g[p]);
    }
  }

  class P2PGroupLiveness {
    var seen: bool
    var missingSince: Option<real>
    ghost var history: seq<Observation>

    constructor ()
      ensures Valid() && history == []
    {
      seen, missingSince, history := false, None, [];
    }

    ghost predicate Valid()
      reads this
    {
      && (seen <==> Seen(history))
      && missingSince ==
         (if seen && RunStart(history) < |history| then Some(history[RunStart(history)].now) else None)
    }

    method Observe(present: Option<bool>, now: real) returns (lost: bool)
      requires Valid()
      modifies this
      ensures Valid() && history == old(history) + [Observation(present, now)]
      ensures lost <==> Lost(history)
    {
      ghost var before := history;
      Appended(history, Observation(present, now));
      history := history + [Observation(present, now)];
      if present.Some? && present.value {
        seen, missingSince := true, None;
        return false;
      }
      if present.None? {
        missingSince := None;
        return false;
      }
      if !seen { return false; }
      if missingSince.None? {
        missingSince := Some(now);
        return false;
      }
      assert history[RunStart(before)] == before[RunStart(before)];
      return now - missingSince.value >= GRACE_SECONDS;
    }
  }

  /** With a clock that does not run back, a loss stays reported until a look does not miss the group. */
  lemma LossPersists(h: seq<Observation>, o: Observation)
    requires Lost(h) && o.now >= h[|h| - 1].now
    ensures Lost(h + [o]) <==> Absent(o)
  {
    Appended(h, o);
  }

  /** A look that cannot tell buys the receiver a whole new grace period. */
  lemma UnknownRestartsTheGrace(h: seq<Observation>, o: Observation, rest: seq<Observation>)
    requires o.present.None? && Seen(h)
    requires forall j :: 0 <= j < |rest| ==> Absent(rest[j])
    ensures Lost(h + [o] + rest) <==> rest != [] && rest[|rest| - 1].now - rest[0].now >= GRACE_SECONDS
  {
    var g := h + [o] + rest;
    Appended(h, o);
    if rest != [] {
      RunStartIsMaximal(g, |h| + 1);
      var p :| 0 <= p < |h| && Present(h[p]);
      assert Present(g[p]);
    } else {
      assert g == h + [o];
    }
  }
}
