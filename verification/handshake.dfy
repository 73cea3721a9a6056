/** The order of the source-side Wi-Fi Display handshake, whatever its messages have to satisfy. */
module Handshake {
  datatype Exchange = M1Options | M3GetParameter | M4SetParameter | M5TriggerSetup | Setup | Play | Streaming

  const EXCHANGES := [M1Options, M3GetParameter, M4SetParameter, M5TriggerSetup, Setup, Play, Streaming]

  const LAST: nat := 6

  datatype Trace = At(e: Exchange) | Refused | Cleanup

  datatype Status = Completed | Incompatible | Timeout

  datatype Result = Result(status: Status, trace: seq<Trace>, video: bool, audio: bool)

  /** `pass` says whether a message is good in its place. */
  type Guards<!T> = (nat, T) -> bool

  /** The first `n` messages pass; the next one, if there is one and the handshake has a place for it, does not. */
  predicate Stops<T>(pass: Guards<T>, t: seq<T>, n: nat) {
    && n <= LAST && n <= |t| && (forall k :: 0 <= k < n ==> pass(k, t[k]))
    && (n < LAST && n < |t| ==> !pass(n, t[n]))
  }

  /** The result of a handshake that stopped after `n` of `count` messages. */
  function Ended(n: nat, count: nat, audio: bool): Result
    requires n <= LAST && n <= count
  {
    var status := if n == LAST then Completed else if n < count then Incompatible else Timeout;
    Result(status, Reached(n) + (if status == Incompatible then [Refused] else []) + [Cleanup], n >= 2, audio)
  }

  function Reached(n: nat): (trace: seq<Trace>)
    requires n <= LAST
    ensures |trace| == n + 1
    ensures forall k :: 0 <= k <= n ==> trace[k] == At(EXCHANGES[k])
  {
    if n == 0 then [At(EXCHANGES[0])] else Reached(n - 1) + [At(EXCHANGES[n])]
  }

  /** Drives the handshake; `audible` says whether the answer to M3 offers a usable audio codec. */
  method Drive<T>(pass: Guards<T>, audible: T -> bool, t: seq<T>) returns (r: Result, n: nat)
    ensures Stops(pass, t, n) && r == Ended(n, |t|, n >= 2 && audible(t[1]))
  {
    n := 0;
    var trace := [At(EXCHANGES[0])];
    var video, audio := false, false;
    while n < |t|
      invariant n <= |t| && n < LAST && forall k :: 0 <= k < n ==> pass(k, t[k])
      invariant trace == Reached(n) && video == (n >= 2) && audio == (n >= 2 && audible(t[1]))
    {
      if !pass(n, t[n]) { return Result(Incompatible, trace + [Refused, Cleanup], video, audio), n; }
      if n == 1 { video, audio := true, audible(t[n]); }
      n := n + 1;
      trace := trace + [At(EXCHANGES[n])];
      if n == LAST { return Result(Completed, trace + [Cleanup], video, audio), n; }
    }
    return Result(Timeout, trace + [Cleanup], video, audio), n;
  }

  /** Completed exactly when the first six messages are good, still waiting exactly when there are only good ones. */
  lemma StatusExactly<T>(pass: Guards<T>, t: seq<T>, n: nat, audio: bool)
    requires Stops(pass, t, n)
    ensures var s := Ended(n, |t|, audio).status;
            && (s == Completed <==> |t| >= LAST && forall k :: 0 <= k < LAST ==> pass(k, t[k]))
            && (s == Timeout <==> |t| < LAST && forall k :: 0 <= k < |t| ==> pass(k, t[k]))
  {
  }

  /** Once it is completed or refused, more messages do not move the place where it stopped. */
  lemma StopsForGood<T>(pass: Guards<T>, t: seq<T>, more: seq<T>, n: nat, m: nat)
    requires Stops(pass, t, n) && Stops(pass, t + more, m) && (n == LAST || n < |t|)
    ensures m == n
  {
    var all := t + more;
    assert forall k :: 0 <= k < |t| ==> all[k] == t[k];
  }

  /** A completed or incompatible handshake is settled: nothing that follows changes any of its result. */
  lemma SettledOutcome<T>(pass: Guards<T>, audible: T -> bool, t: seq<T>, more: seq<T>, n: nat, m: nat)
    requires Stops(pass, t, n) && Stops(pass, t + more, m)
    requires Ended(n, |t|, n >= 2 && audible(t[1])).status != Timeout
    ensures Ended(m, |t + more|, m >= 2 && audible((t + more)[1])) == Ended(n, |t|, n >= 2 && audible(t[1]))
  {
    StopsForGood(pass, t, more, n, m);
  }

  predicate Shape(r: Result, n: nat) {
    && n <= LAST
    && |r.trace| == n + (if r.status == Incompatible then 3 else 2)
    && (forall k :: 0 <= k <= n ==> r.trace[k] == At(EXCHANGES[k]))
    && (r.status == Incompatible ==> r.trace[n + 1] == Refused)
    && r.trace[|r.trace| - 1] == Cleanup
    && (r.status == Completed <==> r.trace[n] == At(Streaming))
    && (r.video <==> n >= 2)
  }

  /** The trace is the exchanges reached in order, an error only if one was refused, and the cleanup last. */
  lemma TraceShape(n: nat, count: nat, audio: bool)
    requires n <= LAST && n <= count
    ensures Shape(Ended(n, count, audio), n)
  {
    assert Ended(n, count, audio).trace[n] == At(EXCHANGES[n]);
  }
}
