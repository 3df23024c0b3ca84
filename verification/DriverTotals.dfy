/**
 The drop totals a batch carries: when its last one is its largest.
 */
module DriverTotals {
  import opened Common
  import opened Driver
  import opened DriverLog
  import opened DriverSessions
  import opened DriverRuns

  /** The record's droppedRecords field. */
  function DroppedRecords(rec: Stamp): nat { rec.drops % TWO_32 }

  /** Records of the append log in append order, as they reach a client. */
  predicate FromLog(s: State, batch: seq<Stamp>) {
    && (forall i :: 0 <= i < |batch| ==> Genuine(s.log, batch[i]))
    && (forall i, j :: 0 <= i < j < |batch| ==> batch[i].position < batch[j].position)
  }

  /** Removals of which the client got the records, picked in the order in which they happened. */
  predicate Deliveries(s: State, picks: seq<nat>) {
    && (forall i :: 0 <= i < |picks| ==> picks[i] < |s.removed| && s.removed[picks[i]].Delivered?)
    && (forall i, j :: 0 <= i < j < |picks| ==> picks[i] < picks[j])
  }

  function Delivered(s: State, picks: seq<nat>): (r: seq<Stamp>)
    requires Deliveries(s, picks)
    ensures |r| == |picks|
  {
    seq(|picks|, i requires 0 <= i < |picks| => s.removed[picks[i]].rec)
  }

  /** Whatever a client has been given is such a batch. */
  lemma DeliveredIsFromLog(s: State, picks: seq<nat>)
    requires Reachable(s) && Deliveries(s, picks)
    ensures FromLog(s, Delivered(s, picks))
  {
    FirstInFirstOut(s);
    hide Reachable, Genuine;
  }

  /** Every record handed to a client so far. */
  function Handed(removed: seq<Removed>): seq<Stamp> {
    if removed == [] then []
    else
      var last := removed[|removed| - 1];
      Handed(removed[..|removed| - 1]) + if last.Delivered? then [last.rec] else []
  }

  lemma HandedMore(removed: seq<Removed>, r: Removed)
    ensures Handed(removed + [r]) == Handed(removed) + if r.Delivered? then [r.rec] else []
  {
    assert (removed + [r])[..|removed|] == removed;
  }

  /** Removals as the driver makes them: log records, the delivered ones in append order. */
  ghost predicate InOrder(log: seq<Stamp>, removed: seq<Removed>) {
    && (forall i :: 0 <= i < |removed| ==> Genuine(log, removed[i].rec))
    && (forall i, j :: 0 <= i < j < |removed| && removed[i].Delivered? && removed[j].Delivered? ==>
          removed[i].rec.position < removed[j].rec.position)
  }

  /** What was handed over before a delivered record comes before it in the log. */
  ghost predicate AllBefore(batch: seq<Stamp>, removed: seq<Removed>, n: nat) {
    forall i, k :: 0 <= i < |batch| && n <= k < |removed| && removed[k].Delivered? ==>
      batch[i].position < removed[k].rec.position
  }

  lemma OneMoreInOrder(s: State, before: seq<Stamp>, n: nat)
    requires InOrder(s.log, s.removed) && n < |s.removed|
    requires FromLog(s, before) && AllBefore(before, s.removed, n)
    ensures var now := before + if s.removed[n].Delivered? then [s.removed[n].rec] else [];
            FromLog(s, now) && AllBefore(now, s.removed, n + 1)
  {
    hide Genuine;
  }

  lemma {:induction false} HandedInOrder(s: State, n: nat)
    requires InOrder(s.log, s.removed) && n <= |s.removed|
    ensures FromLog(s, Handed(s.removed[..n])) && AllBefore(Handed(s.removed[..n]), s.removed, n)
  {
    if n > 0 {
      hide InOrder, FromLog, AllBefore, Handed;
      HandedInOrder(s, n - 1);
      OneMoreInOrder(s, Handed(s.removed[..n - 1]), n - 1);
      HandedMore(s.removed[..n - 1], s.removed[n - 1]);
      assert s.removed[..n] == s.removed[..n - 1] + [s.removed[n - 1]];
    }
  }

  /** They come from the log and in append order. */
  lemma HandedIsFromLog(s: State)
    requires Reachable(s)
    ensures FromLog(s, Handed(s.removed))
  {
    FirstInFirstOut(s);
    hide Reachable, FromLog, AllBefore, Handed, Genuine;
    HandedInOrder(s, |s.removed|);
    assert s.removed[..|s.removed|] == s.removed;
  }

  predicate Ordered(batch: seq<Stamp>) {
    forall i, j :: 0 <= i < j < |batch| ==> StampedBefore(batch[i], batch[j])
  }

  lemma LogIsOrdered(s: State, batch: seq<Stamp>)
    requires Reachable(s) && FromLog(s, batch)
    ensures Ordered(batch)
  {
    hide Reachable, LogInv, StampedBefore;
    ReachableInv(s);
    forall i, j | 0 <= i < j < |batch| ensures StampedBefore(batch[i], batch[j]) {
      assert Genuine(s.log, batch[i]) && Genuine(s.log, batch[j]);
    }
  }

  /** The total was reset between this record of the batch and the next one. */
  predicate BeforeReset(batch: seq<Stamp>, i: nat)
    requires i + 1 < |batch|
  {
    batch[i].resets != batch[i + 1].resets
  }

  /** The record closes a stretch of the batch without a reset. */
  predicate Closes(batch: seq<Stamp>, i: nat)
    requires i < |batch|
  {
    i + 1 == |batch| || BeforeReset(batch, i)
  }

  /** 32 bits hold the totals that close a stretch. */
  predicate Exact(batch: seq<Stamp>) {
    forall i :: 0 <= i < |batch| && Closes(batch, i) ==> batch[i].drops < TWO_32
  }

  predicate NoLarger(batch: seq<Stamp>, i: nat)
    requires i < |batch|
  {
    DroppedRecords(batch[i]) <= DroppedRecords(batch[|batch| - 1])
  }

  /** The client reads the batch's total off its last record. */
  predicate LastIsLargest(batch: seq<Stamp>) {
    forall i :: 0 <= i < |batch| ==> NoLarger(batch, i)
  }

  /** Every total is at most the one that closes its stretch. */
  lemma {:induction false} StretchEnd(batch: seq<Stamp>, i: nat) returns (k: nat)
    requires Ordered(batch) && i < |batch|
    ensures i <= k < |batch| && Closes(batch, k) && batch[i].drops <= batch[k].drops
    decreases |batch| - i
  {
    if Closes(batch, i) {
      k := i;
    } else {
      assert StampedBefore(batch[i], batch[i + 1]);
      k := StretchEnd(batch, i + 1);
    }
  }

  lemma ClosersDecide(batch: seq<Stamp>, i: nat)
    requires Ordered(batch) && Exact(batch) && i < |batch|
    requires forall k :: 0 <= k < |batch| - 1 && BeforeReset(batch, k) ==> NoLarger(batch, k)
    ensures NoLarger(batch, i)
  {
    var k := StretchEnd(batch, i);
    assert batch[k].drops < TWO_32 && DroppedRecords(batch[i]) <= DroppedRecords(batch[k]);
    if k + 1 < |batch| { assert NoLarger(batch, k); }
  }

  /** The last record carries the largest total if and only if no record before a reset carries
      a larger one. */
  lemma LastDropTotalIsMaximum(s: State, batch: seq<Stamp>)
    requires Reachable(s) && FromLog(s, batch) && Exact(batch)
    ensures LastIsLargest(batch) <==> forall i :: 0 <= i < |batch| - 1 && BeforeReset(batch, i) ==> NoLarger(batch, i)
  {
    LogIsOrdered(s, batch);
    hide Reachable, FromLog, Ordered, Exact, NoLarger;
    if forall i :: 0 <= i < |batch| - 1 && BeforeReset(batch, i) ==> NoLarger(batch, i) {
      forall i | 0 <= i < |batch| ensures NoLarger(batch, i) {
        ClosersDecide(batch, i);
      }
    }
  }

  lemma ResetsGrow(batch: seq<Stamp>, i: nat, j: nat)
    requires Ordered(batch) && i <= j < |batch|
    ensures batch[i].resets <= batch[j].resets
  {
    assert i == j || StampedBefore(batch[i], batch[j]);
  }

  lemma SameCountNoReset(batch: seq<Stamp>, first: nat, last: nat, i: nat)
    requires Ordered(batch) && first <= i < last < |batch| && batch[first].resets == batch[last].resets
    ensures !BeforeReset(batch, i)
  {
    ResetsGrow(batch, first, i);
    ResetsGrow(batch, i, i + 1);
    ResetsGrow(batch, i + 1, last);
  }

  /** A batch without a reset. */
  lemma NoResetNoFall(s: State, batch: seq<Stamp>)
    requires Reachable(s) && FromLog(s, batch) && Exact(batch) && batch != []
    requires batch[0].resets == batch[|batch| - 1].resets
    ensures LastIsLargest(batch)
  {
    LastDropTotalIsMaximum(s, batch);
    LogIsOrdered(s, batch);
    forall i | 0 <= i < |batch| - 1 ensures !BeforeReset(batch, i) {
      SameCountNoReset(batch, 0, |batch| - 1, i);
    }
  }

  lemma OnlyReset(batch: seq<Stamp>, k: nat)
    requires Ordered(batch) && k + 1 < |batch|
    requires batch[0].resets == batch[k].resets < batch[k + 1].resets == batch[|batch| - 1].resets
    ensures forall i :: 0 <= i < |batch| - 1 ==> (BeforeReset(batch, i) <==> i == k)
  {
    hide Ordered;
    forall i | 0 <= i < |batch| - 1 && i != k ensures !BeforeReset(batch, i) {
      if i < k {
        SameCountNoReset(batch, 0, k, i);
      } else {
        SameCountNoReset(batch, k + 1, |batch| - 1, i);
      }
    }
  }

  /** A batch with one reset, after record k: that record decides. */
  lemma OneResetDecides(s: State, batch: seq<Stamp>, k: nat)
    requires Reachable(s) && FromLog(s, batch) && Exact(batch) && k + 1 < |batch|
    requires batch[0].resets == batch[k].resets < batch[k + 1].resets == batch[|batch| - 1].resets
    ensures LastIsLargest(batch) <==> NoLarger(batch, k)
  {
    hide Reachable, FromLog, Ordered, Exact, NoLarger, LastIsLargest, BeforeReset;
    LastDropTotalIsMaximum(s, batch);
    LogIsOrdered(s, batch);
    OnlyReset(batch, k);
  }
}
