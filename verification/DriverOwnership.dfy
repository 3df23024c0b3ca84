/**
 Where each entry is. Every number the driver has handed out belongs to exactly one place,
 and a step moves at most one number from one place to another.
 */
module DriverOwnership {
  import opened Common
  import opened Driver

  datatype Place =
    | AtThread(t: Tid)       // a callback is working on it
    | WithFilterManager      // kept as a completion context
    | Logged(position: nat)  // appended; the log says which position
    | Discarded              // deleted by a draining post callback

  predicate Carries(p: Pc, id: nat) {
    (p.Filling? || p.Completing? || p.Discarding?) && p.id == id
  }

  ghost predicate Occupies(s: State, id: nat, place: Place) {
    match place
    case AtThread(t) => t in s.pc && Carries(s.pc[t], id)
    case WithFilterManager => id in s.inFlight
    case Logged(i) => i < |s.log| && s.log[i].id == id
    case Discarded => id in s.discarded
  }

  /** The numbers 1..issued, each at the one place that owner names. */
  ghost predicate Tied(s: State, owner: map<nat, Place>) {
    && (forall id :: id in owner <==> 1 <= id <= s.issued)
    && (forall id, place :: Occupies(s, id, place) <==> id in owner && owner[id] == place)
  }

  ghost predicate OwnershipInv(s: State) {
    exists owner :: Tied(s, owner)
  }

  /** A step that takes id from one place to another and leaves everything else. */
  ghost predicate Relocates(s: State, s': State, id: nat, from: Place, to: Place) {
    && s'.issued == s.issued && Occupies(s, id, from) && Occupies(s', id, to)
    && (from != to ==> !Occupies(s', id, from))
    && (forall other, place :: !(other == id && (place == from || place == to)) ==>
          (Occupies(s', other, place) <==> Occupies(s, other, place)))
  }

  lemma RelocationKeepsOwnership(s: State, s': State, id: nat, from: Place, to: Place)
    requires OwnershipInv(s) && Relocates(s, s', id, from, to)
    ensures OwnershipInv(s')
  {
    var owner :| Tied(s, owner);
    assert Tied(s', owner[id := to]);
  }

  lemma SamePlacesKeepOwnership(s: State, s': State)
    requires OwnershipInv(s) && s'.issued == s.issued
    requires forall id, place :: Occupies(s', id, place) <==> Occupies(s, id, place)
    ensures OwnershipInv(s')
  {
    var owner :| Tied(s, owner);
    assert Tied(s', owner);
  }

  lemma SamePartsKeepOwnership(s: State, s': State)
    requires OwnershipInv(s) && s'.issued == s.issued
    requires s'.pc == s.pc && s'.inFlight == s.inFlight && s'.log == s.log && s'.discarded == s.discarded
    ensures OwnershipInv(s')
  {
    SamePlacesKeepOwnership(s, s');
  }

  lemma OnePlaceOnly(s: State, id: nat, a: Place, b: Place)
    requires OwnershipInv(s) && Occupies(s, id, a) && Occupies(s, id, b)
    ensures a == b && 1 <= id <= s.issued
  {
    var owner :| Tied(s, owner);
  }

  lemma SomePlace(s: State, id: nat)
    requires OwnershipInv(s) && 1 <= id <= s.issued
    ensures exists place :: Occupies(s, id, place)
  {
    var owner :| Tied(s, owner);
    assert Occupies(s, id, owner[id]);
  }

  lemma InitOwnership(s: State)
    requires Init(s)
    ensures OwnershipInv(s)
  {
    var nobody: map<nat, Place> := map[];
    assert Tied(s, nobody);
  }

  // ----- Steps that move an entry -----

  lemma NumberKeepsOwnership(s: State, t: Tid)
    requires OwnershipInv(s) && t in s.pc && s.pc[t].Blank?
    ensures OwnershipInv(AfterNumber(s, t))
  {
    var s', id := AfterNumber(s, t), s.issued + 1;
    var owner :| Tied(s, owner);
    forall other, place
      ensures Occupies(s', other, place) <==> if other == id then place == AtThread(t) else Occupies(s, other, place)
    {
      assert !Occupies(s, id, place);
    }
    assert Tied(s', owner[id := AtThread(t)]);
  }

  lemma FillKeepsOwnership(s: State, t: Tid)
    requires OwnershipInv(s) && t in s.pc && s.pc[t].Filling?
    ensures OwnershipInv(AfterFill(s, t))
    ensures s.pc[t].id !in s.inFlight
  {
    var id := s.pc[t].id;
    assert !Occupies(s, id, WithFilterManager) by {
      if Occupies(s, id, WithFilterManager) {
        OnePlaceOnly(s, id, AtThread(t), WithFilterManager);
      }
    }
    RelocationKeepsOwnership(s, AfterFill(s, t), id, AtThread(t),
                             if s.pc[t].origin.Operation? then WithFilterManager else AtThread(t));
  }

  lemma PostKeepsOwnership(s: State, t: Tid, id: nat, draining: bool)
    requires OwnershipInv(s) && t !in s.pc && id in s.inFlight
    ensures OwnershipInv(AfterPost(s, t, id, draining))
  {
    RelocationKeepsOwnership(s, AfterPost(s, t, id, draining), id, WithFilterManager, AtThread(t));
  }

  lemma AppendKeepsOwnership(s: State, t: Tid)
    requires OwnershipInv(s) && t in s.pc && s.pc[t].Completing?
    ensures OwnershipInv(AfterAppend(s, t))
  {
    RelocationKeepsOwnership(s, AfterAppend(s, t), s.pc[t].id, AtThread(t), Logged(|s.log|));
  }

  lemma DecrementKeepsOwnership(s: State, t: Tid)
    requires OwnershipInv(s) && t in s.pc && s.pc[t].Discarding?
    ensures OwnershipInv(AfterDecrement(s, t))
  {
    RelocationKeepsOwnership(s, AfterDecrement(s, t), s.pc[t].id, AtThread(t), Discarded);
  }

  // ----- Steps that move none -----

  /** A thread without an entry may come, go and change as long as it carries none. */
  lemma EmptyHandedKeepsOwnership(s: State, s': State, t: Tid)
    requires OwnershipInv(s) && s'.issued == s.issued
    requires s'.inFlight == s.inFlight && s'.log == s.log && s'.discarded == s.discarded
    requires forall id :: t in s.pc ==> !Carries(s.pc[t], id)
    requires forall id :: t in s'.pc ==> !Carries(s'.pc[t], id)
    requires s'.pc - {t} == s.pc - {t}
    ensures OwnershipInv(s')
  {
    forall id, place
      ensures Occupies(s', id, place) <==> Occupies(s, id, place)
    {
      if place.AtThread? && place.t != t {
        assert place.t in s'.pc <==> place.t in s'.pc - {t};
        assert place.t in s.pc <==> place.t in s.pc - {t};
        if place.t in s.pc {
          assert s'.pc[place.t] == (s'.pc - {t})[place.t] == (s.pc - {t})[place.t] == s.pc[place.t];
        }
      }
    }
    SamePlacesKeepOwnership(s, s');
  }
}
