/** How long the two lease readers wait when every renewal is seen whole. */
module LeaseTiming {
  import opened SessionState

  /** Whole clock seconds, as `EPOCHSECONDS` and the renewals both show them. */
  function Clock(t: real): int { t.Floor }

  /** How many of the renewals had happened at time `t`. */
  function Happened(renewals: seq<real>, t: real): (n: nat)
    ensures n <= |renewals|
    ensures n > 0 ==> renewals[n - 1] <= t
    ensures forall k :: n <= k < |renewals| ==> renewals[k] > t
  {
    if renewals == [] then 0
    else if renewals[|renewals| - 1] <= t then |renewals|
    else Happened(renewals[..|renewals| - 1], t)
  }

  /** The verdict of a reader at time `t`: the newest renewal is at most `lease` clock seconds old. */
  predicate Fresh(renewals: seq<real>, t: real, lease: nat) {
    var n := Happened(renewals, t);
    n > 0 && Clock(t) - Clock(renewals[n - 1]) <= lease
  }

  predicate Increasing(times: seq<real>) {
    forall i, j :: 0 <= i < j < |times| ==> times[i] <= times[j]
  }

  predicate GapsAtMost(times: seq<real>, gap: real) {
    forall k :: 0 < k < |times| ==> times[k] - times[k - 1] <= gap
  }

  /** Renewals at most the lease apart keep every look in between, and up to the lease after the last, fresh. */
  lemma OnTimeIsFresh(renewals: seq<real>, t: real, lease: nat)
    requires renewals != [] && GapsAtMost(renewals, lease as real)
    requires renewals[0] <= t <= renewals[|renewals| - 1] + lease as real
    ensures Fresh(renewals, t, lease)
  {
    var n := Happened(renewals, t);
    assert t <= renewals[n - 1] + lease as real by {
      if n < |renewals| { assert renewals[n] - renewals[n - 1] <= lease as real; }
    }
    assert (renewals[n - 1] + lease as real).Floor == Clock(renewals[n - 1]) + lease;
  }

  /** Exactly from the clock second after the lease of the last renewal on, a look is stale. */
  lemma StaleExactly(renewals: seq<real>, t: real, lease: nat)
    requires renewals != [] && Increasing(renewals) && renewals[|renewals| - 1] <= t
    ensures Fresh(renewals, t, lease) <==> t < (Clock(renewals[|renewals| - 1]) + lease + 1) as real
  {
  }

  /** Every wake falls between the first renewal and the lease after the last, and no renewal is late. */
  predicate RenewedThroughout(renewals: seq<real>, wakes: seq<real>, lease: nat) {
    && renewals != [] && wakes != []
    && GapsAtMost(renewals, lease as real)
    && renewals[0] <= wakes[0]
    && wakes[|wakes| - 1] <= renewals[|renewals| - 1] + lease as real
  }

  /** The renewals stop while the loop is waiting, and it goes on waking at least once per period. */
  predicate RenewalsStop(renewals: seq<real>, wakes: seq<real>, lease: nat, period: real) {
    && renewals != [] && wakes != []
    && Increasing(renewals) && GapsAtMost(wakes, period)
    && wakes[0] <= renewals[|renewals| - 1] + lease as real
    && wakes[|wakes| - 1] >= renewals[|renewals| - 1] + (lease + 1) as real
  }

  lemma AllFresh(renewals: seq<real>, wakes: seq<real>, lease: nat)
    requires Increasing(wakes) && RenewedThroughout(renewals, wakes, lease)
    ensures forall k :: 0 <= k < |wakes| ==> Fresh(renewals, wakes[k], lease)
  {
    forall k | 0 <= k < |wakes| ensures Fresh(renewals, wakes[k], lease) {
      OnTimeIsFresh(renewals, wakes[k], lease);
    }
  }

  predicate FirstOfItsSecond(wakes: seq<real>, k: nat)
    requires k < |wakes|
  {
    k == 0 || Clock(wakes[k - 1]) < Clock(wakes[k])
  }

  /**
   * After the last renewal some wake no later than one clock second past the lease plus one wake period is stale and
   * the first of its second, so neither loop can get past it.
   */
  lemma {:induction false} StaleWakeComes(renewals: seq<real>, wakes: seq<real>, lease: nat, period: real)
    returns (k: nat)
    requires Increasing(wakes) && RenewalsStop(renewals, wakes, lease, period)
    ensures k < |wakes| && FirstOfItsSecond(wakes, k) && !Fresh(renewals, wakes[k], lease)
    ensures wakes[k] <= renewals[|renewals| - 1] + (lease + 1) as real + period
  {
    var last := renewals[|renewals| - 1];
    var stale := (Clock(last) + lease + 1) as real;
    assert wakes[0] < stale <= last + (lease + 1) as real;
    k := 1;
    while wakes[k] < stale
      invariant 0 < k < |wakes| && wakes[k - 1] < stale
      decreases |wakes| - k
    {
      k := k + 1;
    }
    StaleExactly(renewals, wakes[k], lease);
  }

  /** How a wait ended: at the first stale look, or with none. It looks at least once per clock second. */
  predicate Waited(renewals: seq<real>, wakes: seq<real>, lease: nat, left: Option<nat>) {
    && (left.Some? ==> left.value < |wakes| && !Fresh(renewals, wakes[left.value], lease))
    && forall k :: 0 <= k < (if left.Some? then left.value else |wakes|) && FirstOfItsSecond(wakes, k) ==>
                   Fresh(renewals, wakes[k], lease)
  }

  /** Renewals at most the lease apart never expire a wait. */
  lemma OnTimeNeverExpires(renewals: seq<real>, wakes: seq<real>, lease: nat, left: Option<nat>)
    requires Increasing(wakes) && RenewedThroughout(renewals, wakes, lease)
    requires Waited(renewals, wakes, lease, left)
    ensures left.None?
  {
    AllFresh(renewals, wakes, lease);
  }

  /** Once the renewals stop, a wait ends within the lease, one clock second and one wake period. */
  lemma ExpiresSoonAfterTheLast(renewals: seq<real>, wakes: seq<real>, lease: nat, period: real, left: Option<nat>)
    requires Increasing(wakes) && RenewalsStop(renewals, wakes, lease, period)
    requires Waited(renewals, wakes, lease, left)
    ensures left.Some? && wakes[left.value] <= renewals[|renewals| - 1] + (lease + 1) as real + period
  {
    var k := StaleWakeComes(renewals, wakes, lease, period);
  }

  /** The guard's wait loop: it wakes often but looks at most once per clock second. */
  method GuardWait(renewals: seq<real>, wakes: seq<real>, lease: nat) returns (left: Option<nat>)
    requires Increasing(wakes)
    ensures Waited(renewals, wakes, lease, left)
  {
    if wakes == [] { return None; }
    var next := Clock(wakes[0]);
    for k := 0 to |wakes|
      invariant next == if k == 0 then Clock(wakes[0]) else Clock(wakes[k - 1]) + 1
      invariant forall j :: 0 <= j < k && FirstOfItsSecond(wakes, j) ==> Fresh(renewals, wakes[j], lease)
    {
      if Clock(wakes[k]) >= next {
        if !Fresh(renewals, wakes[k], lease) { return Some(k); }
        next := Clock(wakes[k]) + 1;
      }
    }
    return None;
  }

  /** The recovery worker's wait loop: it looks every time it wakes. */
  method RecoveryWait(renewals: seq<real>, wakes: seq<real>, lease: nat) returns (left: Option<nat>)
    ensures Waited(renewals, wakes, lease, left)
    ensures forall k :: 0 <= k < (if left.Some? then left.value else |wakes|) ==> Fresh(renewals, wakes[k], lease)
  {
    for k := 0 to |wakes|
      invariant forall j :: 0 <= j < k ==> Fresh(renewals, wakes[j], lease)
    {
      if !Fresh(renewals, wakes[k], lease) { return Some(k); }
    }
    return None;
  }
}
