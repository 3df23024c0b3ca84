/** Types and counting lemmas shared by the concurrent models. */
module Common {

  const TWO_32: nat := 0x1_0000_0000

  datatype Option<+T> = None | Some(value: T)

  /** A thread identity. */
  type Tid = nat

  /** The threads that stand at a program counter satisfying p. */
  ghost function At<P(!new)>(pc: map<Tid, P>, p: P -> bool): set<Tid> {
    set t | t in pc && p(pc[t])
  }

  ghost function Count<P(!new)>(pc: map<Tid, P>, p: P -> bool): nat {
    |At(pc, p)|
  }

  function Bit(b: bool): nat { if b then 1 else 0 }

  /** Moving one thread changes a count by what it leaves and what it enters. */
  lemma CountMove<P(!new)>(pc: map<Tid, P>, t: Tid, v: P, p: P -> bool)
    ensures Count(pc[t := v], p) + Bit(t in pc && p(pc[t])) == Count(pc, p) + Bit(p(v))
  {
    var rest := At(pc, p) - {t};
    assert At(pc, p) == if t in pc && p(pc[t]) then rest + {t} else rest;
    assert At(pc[t := v], p) == if p(v) then rest + {t} else rest;
  }

  /** A thread that leaves takes exactly its own contribution with it. */
  lemma CountLeave<P(!new)>(pc: map<Tid, P>, t: Tid, p: P -> bool)
    requires t in pc
    ensures Count(pc - {t}, p) + Bit(p(pc[t])) == Count(pc, p)
  {
    assert At(pc - {t}, p) == At(pc, p) - {t};
  }

  lemma CountAtMostAll<P(!new)>(pc: map<Tid, P>, p: P -> bool)
    ensures Count(pc, p) <= |pc|
  {
    SubsetCardinality(At(pc, p), pc.Keys);
    assert |pc.Keys| == |pc|;
  }

  lemma SubsetCardinality<T(!new)>(a: set<T>, b: set<T>)
    requires a <= b
    ensures |a| <= |b|
  {
    assert b == a + (b - a);
  }

  /** Threads satisfying p are covered by those satisfying q or r. */
  lemma CountCover<P(!new)>(pc: map<Tid, P>, p: P -> bool, q: P -> bool, r: P -> bool)
    requires forall v :: p(v) ==> q(v) || r(v)
    ensures Count(pc, p) <= Count(pc, q) + Count(pc, r)
  {
    SubsetCardinality(At(pc, p), At(pc, q) + At(pc, r));
  }

  /** A count of zero means that no thread qualifies. */
  lemma CountWitness<P(!new)>(pc: map<Tid, P>, t: Tid, p: P -> bool)
    requires t in pc && p(pc[t])
    ensures Count(pc, p) >= 1
  {
    SubsetCardinality({t}, At(pc, p));
  }
}
