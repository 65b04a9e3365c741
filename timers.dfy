/** Pending `setTimeout` callbacks, kept as the list of their deadlines in milliseconds. */
module Timers {

  /** How many of the deadlines in `ts` have been reached at `now`. */
  function CountDue(ts: seq<int>, now: int): (n: nat)
    ensures n <= |ts|
  {
    if ts == [] then 0 else (if ts[0] <= now then 1 else 0) + CountDue(ts[1..], now)
  }

  /** The deadlines in `ts` not yet reached at `now`, in their original order. */
  function Pending(ts: seq<int>, now: int): (r: seq<int>)
    ensures |r| <= |ts|
    ensures forall i :: 0 <= i < |r| ==> r[i] > now
  {
    if ts == [] then [] else (if ts[0] > now then [ts[0]] else []) + Pending(ts[1..], now)
  }

  /** Firing the due timers keeps exactly the others: every timer is counted as due or kept. */
  lemma {:induction false} DueAndPendingPartition(ts: seq<int>, now: int)
    ensures CountDue(ts, now) + |Pending(ts, now)| == |ts|
    ensures forall t :: t in Pending(ts, now) <==> t in ts && t > now
    ensures CountDue(ts, now) == 0 <==> forall i :: 0 <= i < |ts| ==> ts[i] > now
  {
    if ts != [] {
      DueAndPendingPartition(ts[1..], now);
      assert forall t :: t in ts <==> t == ts[0] || t in ts[1..];
      assert forall i :: 0 < i < |ts| ==> ts[i] == ts[1..][i - 1];
    }
  }

  /** `n` copies of deadline `t`. */
  function Repeat(n: nat, t: int): (r: seq<int>)
    ensures |r| == n && forall i :: 0 <= i < n ==> r[i] == t
  {
    seq(n, _ => t)
  }
}
