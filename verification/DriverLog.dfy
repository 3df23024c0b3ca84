/**
 The record list as a queue that several threads take from: Drain and the Clear of a connect on
 the control thread, and the Clear of every disconnect that has not finished. What is listed is
 always the rest of the append log, but for one record Drain may have pushed back.
 */
module DriverLog {
  import opened Common
  import opened Driver

  /** The control thread has popped a record that it has neither consumed nor pushed back. */
  predicate Holding(c: Control) { c.ClearHolding? || c.DrainHolding? }

  // ----- The list -----

  /** The record is the one the log has at its position. */
  predicate Genuine(log: seq<Stamp>, rec: Stamp) {
    rec.position < |log| && log[rec.position] == rec
  }

  /** Every log position from taken on, in order. */
  predicate Rest(s: State, list: seq<Stamp>) {
    s.taken <= |s.log| && list == s.log[s.taken..]
  }

  /** The head is a record that had been popped before. */
  predicate HasPushedBack(s: State) { s.list != [] && s.list[0].position < s.taken }

  ghost predicate ListInv(s: State) {
    && (forall i :: 0 <= i < |s.log| ==> s.log[i].position == i)
    && (if HasPushedBack(s) then Genuine(s.log, s.list[0]) && Rest(s, s.list[1..]) else Rest(s, s.list))
    && (s.control.DrainHolding? ==> !HasPushedBack(s))
  }

  /** Whatever left the list is still the record that was appended. */
  ghost predicate GenuineInv(s: State) {
    && (forall i :: 0 <= i < |s.removed| ==> Genuine(s.log, s.removed[i].rec))
    && (Holding(s.control) ==> Genuine(s.log, s.control.rec))
    && (forall t :: t in s.pc && s.pc[t].SweepHolding? ==> Genuine(s.log, s.pc[t].rec))
  }

  lemma ListIsGenuine(s: State, i: nat)
    requires ListInv(s) && i < |s.list|
    ensures Genuine(s.log, s.list[i])
    ensures s.list[i].position == (if HasPushedBack(s) then (if i == 0 then s.list[0].position else s.taken + i - 1)
                                   else s.taken + i)
  {
    if HasPushedBack(s) && 0 < i {
      assert s.list[i] == s.list[1..][i - 1] == s.log[s.taken + i - 1];
    } else if !HasPushedBack(s) {
      assert s.list[i] == s.log[s.taken + i];
    }
  }

  /** A pop takes the pushed-back record if there is one and the oldest new one otherwise. */
  lemma PopsHead(s: State)
    requires ListInv(s) && s.list != []
    ensures Genuine(s.log, s.list[0]) && Rest(Popped(s), Popped(s).list) && !HasPushedBack(Popped(s))
    ensures !HasPushedBack(s) ==> s.list[0].position == s.taken && Popped(s).taken == s.taken + 1
    ensures s.list[0].position < Popped(s).taken
  {
    ListIsGenuine(s, 0);
    if Popped(s).list != [] {
      assert Popped(s).list[0] == s.log[Popped(s).taken];
    }
  }

  lemma AppendKeepsList(s: State, t: Tid)
    requires ListInv(s) && t in s.pc && s.pc[t].Completing?
    ensures ListInv(AfterAppend(s, t))
  {
    var s' := AfterAppend(s, t);
    var rec := s'.log[|s.log|];
    if HasPushedBack(s) {
      assert s'.list[1..] == s.list[1..] + [rec];
    }
    assert s'.log[s.taken..] == s.log[s.taken..] + [rec];
    if s.list == [] {
      assert s'.list[0] == rec && rec.position >= s.taken;
    }
  }

  lemma DrainCopyKeepsList(s: State, fault: bool)
    requires ListInv(s) && GenuineInv(s) && SpotInv(s) && s.control.DrainHolding?
    ensures ListInv(AfterDrainCopy(s, fault))
  {
    assert Stands(s, s.control.rec.position, WithControl);
    var where :| Spotted(s, where);
    var s' := AfterDrainCopy(s, fault);
    assert ([s.control.rec] + s.list)[1..] == s.list;
  }

  // ----- Where each popped record is -----

  datatype Spot =
    | Gone(index: nat)
    | WithControl
    | WithSweeper(t: Tid)
    | PushedBack

  ghost predicate Stands(s: State, p: nat, spot: Spot) {
    match spot
    case Gone(i) => i < |s.removed| && s.removed[i].rec.position == p
    case WithControl => Holding(s.control) && s.control.rec.position == p
    case WithSweeper(t) => t in s.pc && s.pc[t].SweepHolding? && s.pc[t].rec.position == p
    case PushedBack => HasPushedBack(s) && s.list[0].position == p
  }

  /** The positions below taken, each at the one spot that where names. */
  ghost predicate Spotted(s: State, where: map<nat, Spot>) {
    && (forall p: nat :: p in where <==> p < s.taken)
    && (forall p: nat, spot :: Stands(s, p, spot) <==> p in where && where[p] == spot)
  }

  ghost predicate SpotInv(s: State) {
    exists where :: Spotted(s, where)
  }

  lemma OneSpotOnly(s: State, p: nat, a: Spot, b: Spot)
    requires SpotInv(s) && Stands(s, p, a) && Stands(s, p, b)
    ensures a == b && p < s.taken
  {
    var where :| Spotted(s, where);
  }

  lemma SomeSpot(s: State, p: nat)
    requires SpotInv(s) && p < s.taken
    ensures exists spot :: Stands(s, p, spot)
  {
    var where :| Spotted(s, where);
    assert Stands(s, p, where[p]);
  }

  /** Position p goes from one spot to another; if it was in none, it is the next one taken. */
  ghost predicate Relocates(s: State, s': State, p: nat, from: Option<Spot>, to: Spot) {
    && (if from.Some? then s'.taken == s.taken && Stands(s, p, from.value) else p == s.taken && s'.taken == s.taken + 1)
    && (forall q: nat, spot :: Stands(s', q, spot)
          <==> if q == p then spot == to else Stands(s, q, spot))
  }

  lemma RelocationKeepsSpots(s: State, s': State, p: nat, from: Option<Spot>, to: Spot)
    requires SpotInv(s) && Relocates(s, s', p, from, to)
    ensures SpotInv(s')
  {
    var where :| Spotted(s, where);
    assert Spotted(s', where[p := to]);
  }

  lemma SameSpotsKeepSpots(s: State, s': State)
    requires SpotInv(s) && s'.taken == s.taken
    requires forall p: nat, spot :: Stands(s', p, spot) <==> Stands(s, p, spot)
    ensures SpotInv(s')
  {
    var where :| Spotted(s, where);
    assert Spotted(s', where);
  }

  /** Popping moves the head to the thread that popped it. */
  lemma PopKeepsSpots(s: State, s': State, holder: Spot)
    requires ListInv(s) && SpotInv(s) && s.list != [] && (holder.WithControl? || holder.WithSweeper?)
    requires s'.list == Popped(s).list && s'.taken == Popped(s).taken && s'.removed == s.removed && s'.log == s.log
    requires forall p: nat :: !Stands(s, p, holder)
    requires forall p: nat :: Stands(s', p, holder) <==> p == s.list[0].position
    requires forall p: nat, spot: Spot :: (spot.WithControl? || spot.WithSweeper?) && spot != holder ==>
               (Stands(s', p, spot) <==> Stands(s, p, spot))
    ensures SpotInv(s')
  {
    PopsHead(s);
    var p := s.list[0].position;
    var from := if HasPushedBack(s) then Some(PushedBack) else None;
    assert !HasPushedBack(s');
    forall q: nat, spot
      ensures Stands(s', q, spot) <==> if q == p then spot == holder else Stands(s, q, spot)
    {
      if q == p && Stands(s, q, spot) {
        if from.Some? {
          OneSpotOnly(s, p, spot, PushedBack);
        } else {
          OneSpotOnly(s, p, spot, spot);
        }
      }
    }
    RelocationKeepsSpots(s, s', p, from, holder);
  }

  /** The record is gone for good. */
  lemma RemovalKeepsSpots(s: State, s': State, holder: Spot, rec: Stamp, gone: Removed)
    requires SpotInv(s) && Stands(s, rec.position, holder) && (holder.WithControl? || holder.WithSweeper?)
    requires s'.list == s.list && s'.taken == s.taken && s'.removed == s.removed + [gone] && gone.rec == rec
    requires forall p: nat :: !Stands(s', p, holder)
    requires forall p: nat, spot: Spot :: (spot.WithControl? || spot.WithSweeper?) && spot != holder ==>
               (Stands(s', p, spot) <==> Stands(s, p, spot))
    ensures SpotInv(s')
  {
    var p, to := rec.position, Gone(|s.removed|);
    forall q: nat, spot
      ensures Stands(s', q, spot) <==> if q == p then spot == to else Stands(s, q, spot)
    {
      if q == p && Stands(s, q, spot) {
        OneSpotOnly(s, p, spot, holder);
      }
      if Stands(s, q, holder) {
        assert q == p;
      }
      if spot.Gone? && spot.index < |s.removed| {
        assert s'.removed[spot.index] == s.removed[spot.index];
      }
    }
    RelocationKeepsSpots(s, s', p, Some(holder), to);
  }

  lemma PushBackKeepsSpots(s: State, s': State)
    requires ListInv(s) && SpotInv(s) && s.control.DrainHolding?
    requires s'.list == [s.control.rec] + s.list && s'.taken == s.taken && s'.removed == s.removed
    requires !Holding(s'.control) && s'.pc == s.pc
    ensures SpotInv(s')
  {
    var p := s.control.rec.position;
    assert Stands(s, p, WithControl);
    OneSpotOnly(s, p, WithControl, WithControl);
    forall q: nat, spot
      ensures Stands(s', q, spot) <==> if q == p then spot == PushedBack else Stands(s, q, spot)
    {
      if q == p && Stands(s, q, spot) {
        OneSpotOnly(s, p, spot, WithControl);
      }
    }
    RelocationKeepsSpots(s, s', p, Some(WithControl), PushedBack);
  }

  // ----- What clients get, in order -----

  /** Drain delivers in append order, and whatever it may still get comes later. */
  ghost predicate DeliveryInv(s: State) {
    && (forall i, j :: 0 <= i < j < |s.removed| && s.removed[i].Delivered? && s.removed[j].Delivered? ==>
          s.removed[i].rec.position < s.removed[j].rec.position)
    && (forall i :: 0 <= i < |s.removed| && s.removed[i].Delivered? ==> Before(s, s.removed[i].rec.position))
    && (s.control.DrainHolding? ==> ListAfter(s, s.control.rec.position))
  }

  ghost predicate ListAfter(s: State, p: nat) {
    p < |s.log| && forall i :: 0 <= i < |s.list| ==> p < s.list[i].position
  }

  ghost predicate Before(s: State, p: nat) {
    ListAfter(s, p) && (s.control.DrainHolding? ==> p < s.control.rec.position)
  }

  lemma PopKeepsAfter(s: State, p: nat)
    requires s.list != [] && ListAfter(s, p)
    ensures ListAfter(Popped(s), p) && p < s.list[0].position
  {
    forall i | 0 <= i < |Popped(s).list| ensures p < Popped(s).list[i].position {
      assert Popped(s).list[i] == s.list[i + 1];
    }
  }

  /** After a pop everything listed is younger than what was popped. */
  lemma PopLeavesYounger(s: State)
    requires ListInv(s) && s.list != []
    ensures ListAfter(Popped(s), s.list[0].position)
  {
    PopsHead(s);
    forall i | 0 <= i < |Popped(s).list| ensures s.list[0].position < Popped(s).list[i].position {
      assert Popped(s).list[i] == s.log[Popped(s).taken + i];
    }
  }

  lemma SweepPopKeepsDelivery(s: State, s': State)
    requires DeliveryInv(s) && s.list != []
    requires s'.list == Popped(s).list && s'.removed == s.removed && s'.control == s.control && s'.log == s.log
    ensures DeliveryInv(s')
  {
    forall p | ListAfter(s, p) ensures ListAfter(s', p) { PopKeepsAfter(s, p); }
    forall i | 0 <= i < |s.removed| && s.removed[i].Delivered? ensures Before(s', s.removed[i].rec.position) {
      assert Before(s, s.removed[i].rec.position);
    }
  }

  lemma ControlPopKeepsDelivery(s: State, s': State)
    requires ListInv(s) && DeliveryInv(s) && s.list != [] && !s.control.DrainHolding?
    requires s'.list == Popped(s).list && s'.removed == s.removed && s'.log == s.log
    requires s'.control.DrainHolding? ==> s'.control.rec == s.list[0]
    ensures DeliveryInv(s')
  {
    PopLeavesYounger(s);
    forall i | 0 <= i < |s.removed| && s.removed[i].Delivered? ensures Before(s', s.removed[i].rec.position) {
      assert Before(s, s.removed[i].rec.position);
      PopKeepsAfter(s, s.removed[i].rec.position);
    }
  }

  lemma AppendKeepsDelivery(s: State, t: Tid)
    requires DeliveryInv(s) && t in s.pc && s.pc[t].Completing?
    ensures DeliveryInv(AfterAppend(s, t))
  {
    var s' := AfterAppend(s, t);
    forall p | ListAfter(s, p) ensures ListAfter(s', p) {
    }
    forall i | 0 <= i < |s.removed| && s.removed[i].Delivered? ensures Before(s', s.removed[i].rec.position) {
      assert Before(s, s.removed[i].rec.position);
    }
  }

  lemma DrainCopyKeepsDelivery(s: State, fault: bool)
    requires DeliveryInv(s) && s.control.DrainHolding?
    ensures DeliveryInv(AfterDrainCopy(s, fault))
  {
    var s', rec := AfterDrainCopy(s, fault), s.control.rec;
    forall i | 0 <= i < |s'.removed| && s'.removed[i].Delivered? ensures Before(s', s'.removed[i].rec.position) {
      if i < |s.removed| {
        assert s'.removed[i] == s.removed[i] && Before(s, s.removed[i].rec.position);
      }
    }
    forall i, j | 0 <= i < j < |s'.removed| && s'.removed[i].Delivered? && s'.removed[j].Delivered?
      ensures s'.removed[i].rec.position < s'.removed[j].rec.position
    {
      assert s'.removed[i] == s.removed[i] && Before(s, s.removed[i].rec.position);
    }
  }

  /** A removal that delivers nothing. */
  lemma ClearedKeepsDelivery(s: State, s': State, rec: Stamp)
    requires DeliveryInv(s) && s'.removed == s.removed + [Cleared(rec)] && s'.list == s.list && s'.log == s.log
    requires s'.control.DrainHolding? ==> s'.control == s.control
    ensures DeliveryInv(s')
  {
    forall i | 0 <= i < |s'.removed| && s'.removed[i].Delivered? ensures Before(s', s'.removed[i].rec.position) {
      assert s'.removed[i] == s.removed[i] && Before(s, s.removed[i].rec.position);
    }
    forall i, j | 0 <= i < j < |s'.removed| && s'.removed[i].Delivered? && s'.removed[j].Delivered?
      ensures s'.removed[i].rec.position < s'.removed[j].rec.position
    {
      assert s'.removed[i] == s.removed[i] && s'.removed[j] == s.removed[j];
    }
  }

  // ----- All of it, step by step -----

  ghost predicate LogInv(s: State) {
    ListInv(s) && GenuineInv(s) && SpotInv(s) && DeliveryInv(s)
  }

  lemma InitLog(s: State)
    requires Init(s)
    ensures LogInv(s)
  {
    var nowhere: map<nat, Spot> := map[];
    assert s.taken == 0 && s.removed == [] && s.list == [] && s.pc == map[];
    forall p: nat, spot: Spot ensures !Stands(s, p, spot) {
    }
    assert Spotted(s, nowhere);
  }

  predicate SameHolders(s: State, s': State) {
    && (forall t :: t in s'.pc && s'.pc[t].SweepHolding? ==> t in s.pc && s.pc[t] == s'.pc[t])
    && (forall t :: t in s.pc && s.pc[t].SweepHolding? ==> t in s'.pc && s.pc[t] == s'.pc[t])
  }

  /** Steps that leave the list, what is held and what is gone alone. */
  lemma QuietKeepsLog(s: State, s': State)
    requires LogInv(s)
    requires s'.list == s.list && s'.log == s.log && s'.removed == s.removed && s'.taken == s.taken
    requires SameHolders(s, s') && (s'.control == s.control || (!Holding(s.control) && !Holding(s'.control)))
    ensures LogInv(s')
  {
    SameSpotsKeepSpots(s, s');
    forall i | 0 <= i < |s.removed| && s.removed[i].Delivered? ensures Before(s', s.removed[i].rec.position) {
      assert Before(s, s.removed[i].rec.position);
    }
  }

  lemma AppendKeepsLog(s: State, t: Tid)
    requires LogInv(s) && t in s.pc && s.pc[t].Completing?
    ensures LogInv(AfterAppend(s, t))
  {
    AppendKeepsList(s, t);
    AppendKeepsDelivery(s, t);
    SameSpotsKeepSpots(s, AfterAppend(s, t));
  }

  lemma SweepPopKeepsLog(s: State, t: Tid)
    requires LogInv(s) && t in s.pc && s.pc[t].Sweeping?
    ensures LogInv(AfterSweepPop(s, t))
  {
    var s' := AfterSweepPop(s, t);
    if s.list == [] {
      QuietKeepsLog(s, s');
    } else {
      PopsHead(s);
      PopKeepsSpots(s, s', WithSweeper(t));
      SweepPopKeepsDelivery(s, s');
    }
  }

  lemma SweepDecrementKeepsLog(s: State, t: Tid)
    requires LogInv(s) && t in s.pc && s.pc[t].SweepHolding?
    ensures LogInv(AfterSweepDecrement(s, t))
  {
    var s', rec := AfterSweepDecrement(s, t), s.pc[t].rec;
    RemovalKeepsSpots(s, s', WithSweeper(t), rec, Cleared(rec));
    ClearedKeepsDelivery(s, s', rec);
  }

  lemma ControlPopKeepsLog(s: State, s': State)
    requires LogInv(s) && s.list != [] && !Holding(s.control)
    requires s'.list == Popped(s).list && s'.taken == Popped(s).taken && s'.removed == s.removed && s'.log == s.log
    requires s'.pc == s.pc && Holding(s'.control) && s'.control.rec == s.list[0]
    ensures LogInv(s')
  {
    PopsHead(s);
    PopKeepsSpots(s, s', WithControl);
    ControlPopKeepsDelivery(s, s');
  }

  lemma ClearDecrementKeepsLog(s: State)
    requires LogInv(s) && s.control.ClearHolding?
    ensures LogInv(AfterClearDecrement(s))
  {
    var s', rec := AfterClearDecrement(s), s.control.rec;
    RemovalKeepsSpots(s, s', WithControl, rec, Cleared(rec));
    ClearedKeepsDelivery(s, s', rec);
  }

  lemma DrainCopyKeepsLog(s: State, fault: bool)
    requires LogInv(s) && s.control.DrainHolding?
    ensures LogInv(AfterDrainCopy(s, fault))
  {
    var s', rec := AfterDrainCopy(s, fault), s.control.rec;
    DrainCopyKeepsList(s, fault);
    DrainCopyKeepsDelivery(s, fault);
    if s'.list == s.list {
      RemovalKeepsSpots(s, s', WithControl, rec, Delivered(rec, s.published));
    } else {
      PushBackKeepsSpots(s, s');
    }
  }
}
