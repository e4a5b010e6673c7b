/**
 * Draining single-slot channels. Each dispatched unit of work delivers exactly one
 * result to its own channel; a reducer that waits on all of them at once receives
 * them in an order chosen by the scheduler. Such an order is a schedule: a sequence
 * of channel indices naming every channel exactly once.
 */
module Delivery {

  /** `picks` names each of the `n` channels exactly once. */
  predicate IsSchedule(picks: seq<nat>, n: nat)
  {
    && |picks| == n
    && (forall k :: 0 <= k < |picks| ==> picks[k] < n)
    && (forall i, j :: 0 <= i < j < |picks| ==> picks[i] != picks[j])
  }

  /** The results in the order the schedule receives them. */
  function Reorder<T>(xs: seq<T>, picks: seq<nat>): (ys: seq<T>)
    requires forall k :: 0 <= k < |picks| ==> picks[k] < |xs|
    ensures |ys| == |picks|
    ensures forall k :: 0 <= k < |picks| ==> ys[k] == xs[picks[k]]
  {
    seq(|picks|, k requires 0 <= k < |picks| => xs[picks[k]])
  }

  /**
   * The select's bookkeeping after receiving from channel `picks[step]`: its case,
   * still open until then, is disabled, so the open cases are exactly the channels
   * not yet received from.
   */
  method Disable(open: array<bool>, picks: seq<nat>, step: nat)
    requires IsSchedule(picks, open.Length) && step < |picks|
    requires forall c :: 0 <= c < open.Length ==> (open[c] <==> c !in picks[..step])
    modifies open
    ensures old(open[picks[step]])
    ensures forall c :: 0 <= c < open.Length ==> (open[c] <==> c !in picks[..step + 1])
  {
    assert picks[..step + 1] == picks[..step] + [picks[step]];
    assert picks[step] !in picks[..step];
    open[picks[step]] := false;
  }

  /** Receiving one more pick appends that channel's result. */
  lemma ReorderSnoc<T>(xs: seq<T>, picks: seq<nat>, k: nat)
    requires forall j :: 0 <= j < |picks| ==> picks[j] < |xs|
    requires k < |picks|
    ensures Reorder(xs, picks[..k + 1]) == Reorder(xs, picks[..k]) + [xs[picks[k]]]
  {
  }

  /** Every schedule receives every result exactly once. */
  lemma {:induction false} ReorderPermutes<T>(xs: seq<T>, picks: seq<nat>)
    requires IsSchedule(picks, |xs|)
    ensures multiset(Reorder(xs, picks)) == multiset(xs)
  {
    if picks != [] {
      var p := picks[0];
      // drop channel p and renumber the channels after it
      var rest := xs[..p] + xs[p + 1..];
      var later := seq(|picks| - 1, k requires 0 <= k < |picks| - 1 =>
        if picks[k + 1] > p then picks[k + 1] - 1 else picks[k + 1]);
      forall i, j | 0 <= i < j < |later| ensures later[i] != later[j] {
        assert picks[i + 1] != p && picks[j + 1] != p && picks[i + 1] != picks[j + 1];
      }
      forall k | 0 <= k < |later| ensures later[k] < |rest| {
        assert picks[k + 1] != p;
      }
      assert IsSchedule(later, |rest|);
      ReorderPermutes(rest, later);
      var ys := Reorder(xs, picks);
      forall k | 0 <= k < |later| ensures Reorder(rest, later)[k] == ys[1..][k] {
        assert picks[k + 1] != p;
      }
      assert Reorder(rest, later) == ys[1..];
      assert ys == [xs[p]] + ys[1..];
      assert xs == xs[..p] + [xs[p]] + xs[p + 1..];
    }
  }
}
