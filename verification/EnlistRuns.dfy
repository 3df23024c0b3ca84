/**
 What every interleaving of Enlist calls keeps: reference counts, one context per transaction,
 and the sequences the calls return.
 */
module EnlistRuns {
  import opened Common
  import opened Enlist

  // ----- References -----

  predicate HasOwn(p: Pc) { !p.Getting? && !p.Allocating? }

  /** The thread holds a reference to context c. */
  predicate Uses(p: Pc, c: nat) {
    (HasOwn(p) && p.own == c) || (p.Losing? && p.winner == c)
  }

  ghost function Using(c: nat): Pc -> bool { (p: Pc) => Uses(p, c) }

  /** A transaction holds a reference to context c. */
  ghost predicate Carried(s: State, c: nat) {
    exists key :: Live(s, key) && s.attached[key] == c
  }

  function References(contexts: map<nat, Context>, c: nat): nat {
    if c in contexts then contexts[c].references else 0
  }

  ghost function Holders(s: State, c: nat): nat {
    Count(s.pc, Using(c)) + Bit(Carried(s, c))
  }

  /** The reference count of every context is the number of its holders, so no context is freed
      while it is held and none stays when nobody holds it. */
  ghost predicate ReferencesInv(s: State) {
    && (forall c :: References(s.contexts, c) == Holders(s, c))
    && (forall c :: c in s.contexts ==> c < s.made && s.contexts[c].references >= 1)
  }

  /** The thread's own context has not been attached to anything. */
  predicate Private(p: Pc) { p.Numbering? || p.Setting? || p.Losing? || p.Failing? }

  /** The attached context a thread works with. */
  function Adopted(p: Pc): Option<nat> {
    if p.Losing? then Some(p.winner) else if p.Holding? || p.Enlisting? then Some(p.own) else None
  }

  /** What holds of the contexts whatever the threads do. */
  ghost predicate SharedInv(s: State) {
    && (forall k, l :: k in s.attached && l in s.attached && s.attached[k] == s.attached[l] ==> k == l)
    && (forall k :: k in s.attached ==> s.attached[k] < s.made && s.attached[k] in s.sequences)
    && (forall c :: c in s.sequences ==> 1 <= s.sequences[c] <= s.increments && c < s.made)
    && (forall c, d :: c in s.sequences && d in s.sequences && s.sequences[c] == s.sequences[d] ==> c == d)
    && (forall c :: c in s.contexts && c in s.sequences ==> s.contexts[c].sequence == s.sequences[c] % TWO_32)
  }

  /** What one thread knows. */
  ghost predicate Knows(attached: map<Key, nat>, made: nat, sequences: map<nat, nat>, p: Pc) {
    && (Private(p) ==>
          && p.own < made
          && (forall k :: k in attached ==> attached[k] != p.own)
          && (p.own in sequences <==> !p.Numbering?))
    && (Adopted(p).Some? ==> p.key in attached && attached[p.key] == Adopted(p).value)
    && (p.Enlisting? ==> p.own in sequences && p.sequence == sequences[p.own] % TWO_32)
  }

  ghost predicate ThreadsInv(s: State) {
    forall t :: t in s.pc ==> Knows(s.attached, s.made, s.sequences, s.pc[t])
  }

  /** A context that is not attached has one user. */
  ghost predicate ExclusiveInv(s: State) {
    forall t, u :: t in s.pc && u in s.pc && t != u && Private(s.pc[t]) ==> !Uses(s.pc[u], s.pc[t].own)
  }

  /** The sequence field a context was given. */
  function Sequence(s: State, c: nat): nat
    requires c in s.sequences
  {
    s.sequences[c] % TWO_32
  }

  /** A call that got a context returned the sequence of its transaction's one context. */
  ghost predicate Consistent(s: State, o: Outcome) {
    && (o.context.Some? ==> o.key in s.attached && s.attached[o.key] == o.context.value
                            && o.context.value in s.sequences && o.sequence == Sequence(s, o.context.value))
    && (o.context.None? ==> o.sequence == 0)
  }

  ghost predicate OutcomesInv(s: State) {
    forall i :: 0 <= i < |s.outcomes| ==> Consistent(s, s.outcomes[i])
  }

  ghost predicate FactsInv(s: State) {
    SharedInv(s) && ThreadsInv(s) && ExclusiveInv(s) && OutcomesInv(s)
  }

  ghost predicate Inv(s: State) {
    ReferencesInv(s) && FactsInv(s)
  }

  // ----- Reference counting, one step at a time -----

  lemma HolderMoves(s: State, t: Tid, v: Pc, c: nat)
    ensures Count(s.pc[t := v], Using(c)) + Bit(t in s.pc && Uses(s.pc[t], c))
         == Count(s.pc, Using(c)) + Bit(Uses(v, c))
  {
    CountMove(s.pc, t, v, Using(c));
  }

  lemma HolderLeaves(s: State, t: Tid, c: nat)
    requires t in s.pc
    ensures Count(s.pc - {t}, Using(c)) + Bit(Uses(s.pc[t], c)) == Count(s.pc, Using(c))
  {
    CountLeave(s.pc, t, Using(c));
  }

  /** A thread never works with a context that has been freed. */
  lemma UsedIsAllocated(s: State, t: Tid, c: nat)
    requires ReferencesInv(s) && t in s.pc && Uses(s.pc[t], c)
    ensures c in s.contexts
  {
    CountWitness(s.pc, t, Using(c));
    assert References(s.contexts, c) == Holders(s, c);
  }

  lemma CarriedIsAllocated(s: State, key: Key)
    requires ReferencesInv(s) && Live(s, key)
    ensures s.attached[key] in s.contexts
  {
    assert Carried(s, s.attached[key]);
    assert References(s.contexts, s.attached[key]) == Holders(s, s.attached[key]);
  }

  /** Contexts that change exactly as their holders do keep the counts right. */
  lemma BalancedReferences(s: State, s': State)
    requires ReferencesInv(s) && s.made <= s'.made
    requires forall c :: c in s'.contexts ==> c < s'.made && s'.contexts[c].references >= 1
    requires forall c :: References(s'.contexts, c) - References(s.contexts, c) == Holders(s', c) - Holders(s, c)
    ensures ReferencesInv(s')
  {
  }

  lemma SameCarried(s: State, s': State)
    requires s'.attached == s.attached && s'.ended == s.ended
    ensures forall c :: Carried(s', c) <==> Carried(s, c)
  {
    forall c
      ensures Carried(s', c) <==> Carried(s, c)
    {
      if Carried(s, c) {
        var key :| Live(s, key) && s.attached[key] == c;
        assert Live(s', key);
      }
      if Carried(s', c) {
        var key :| Live(s', key) && s'.attached[key] == c;
        assert Live(s, key);
      }
    }
  }

  /** A thread goes to v, taking or leaving references; transactions hold what they held. */
  lemma MoveKeepsReferences(s: State, s': State, t: Tid, v: Pc)
    requires ReferencesInv(s) && s'.pc == s.pc[t := v]
    requires s'.attached == s.attached && s'.ended == s.ended && s.made <= s'.made
    requires forall c :: c in s'.contexts ==> c < s'.made && s'.contexts[c].references >= 1
    requires forall c :: References(s'.contexts, c) + Bit(t in s.pc && Uses(s.pc[t], c))
                         == References(s.contexts, c) + Bit(Uses(v, c))
    ensures ReferencesInv(s')
  {
    SameCarried(s, s');
    forall c
      ensures References(s'.contexts, c) - References(s.contexts, c) == Holders(s', c) - Holders(s, c)
    {
      HolderMoves(s, t, v, c);
    }
    BalancedReferences(s, s');
  }

  lemma LeaveKeepsReferences(s: State, s': State, t: Tid)
    requires ReferencesInv(s) && t in s.pc && s'.pc == s.pc - {t}
    requires s'.attached == s.attached && s'.ended == s.ended && s.made == s'.made
    requires forall c :: c in s'.contexts ==> c < s'.made && s'.contexts[c].references >= 1
    requires forall c :: References(s'.contexts, c) + Bit(Uses(s.pc[t], c)) == References(s.contexts, c)
    ensures ReferencesInv(s')
  {
    SameCarried(s, s');
    forall c
      ensures References(s'.contexts, c) - References(s.contexts, c) == Holders(s', c) - Holders(s, c)
    {
      HolderLeaves(s, t, c);
    }
    BalancedReferences(s, s');
  }

  lemma GetKeepsReferences(s: State, t: Tid, error: bool)
    requires Inv(s) && t in s.pc && s.pc[t].Getting?
    ensures ReferencesInv(AfterGet(s, t, error))
  {
    var key := s.pc[t].key;
    if error {
      LeaveKeepsReferences(s, AfterGet(s, t, error), t);
    } else {
      if Live(s, key) {
        CarriedIsAllocated(s, key);
      }
      MoveKeepsReferences(s, AfterGet(s, t, error), t, AfterGet(s, t, error).pc[t]);
    }
  }

  lemma AllocateKeepsReferences(s: State, t: Tid, ok: bool)
    requires Inv(s) && t in s.pc && s.pc[t].Allocating?
    ensures ReferencesInv(AfterAllocate(s, t, ok))
  {
    if ok {
      MoveKeepsReferences(s, AfterAllocate(s, t, ok), t, Numbering(s.pc[t].key, s.made));
    } else {
      LeaveKeepsReferences(s, AfterAllocate(s, t, ok), t);
    }
  }

  lemma NumberKeepsReferences(s: State, t: Tid)
    requires Inv(s) && t in s.pc && s.pc[t].Numbering?
    ensures ReferencesInv(AfterNumber(s, t))
  {
    UsedIsAllocated(s, t, s.pc[t].own);
    MoveKeepsReferences(s, AfterNumber(s, t), t, Setting(s.pc[t].key, s.pc[t].own));
  }

  /** Attaching adds the transaction's reference to a context no transaction carried. */
  lemma AttachKeepsReferences(s: State, t: Tid)
    requires Inv(s) && t in s.pc && s.pc[t].Setting?
    requires s.pc[t].key !in s.ended && s.pc[t].key !in s.attached
    ensures ReferencesInv(AfterSet(s, t, false))
  {
    hide OutcomesInv, ExclusiveInv;
    var key, own, s' := s.pc[t].key, s.pc[t].own, AfterSet(s, t, false);
    UsedIsAllocated(s, t, own);
    forall c
      ensures References(s'.contexts, c) - References(s.contexts, c) == Holders(s', c) - Holders(s, c)
    {
      HolderMoves(s, t, Holding(key, own), c);
      if c == own {
        assert Live(s', key) && s'.attached[key] == own;
      } else {
        assert forall k :: Live(s', k) && s'.attached[k] == c ==> k != key && Live(s, k) && s.attached[k] == c;
        assert forall k :: Live(s, k) && s.attached[k] == c ==> Live(s', k) && s'.attached[k] == c;
      }
    }
    BalancedReferences(s, s');
  }

  lemma SetKeepsReferences(s: State, t: Tid, error: bool)
    requires Inv(s) && t in s.pc && s.pc[t].Setting?
    ensures ReferencesInv(AfterSet(s, t, error))
  {
    var key, own := s.pc[t].key, s.pc[t].own;
    if error || key in s.ended {
      MoveKeepsReferences(s, AfterSet(s, t, error), t, Failing(key, own));
    } else if key in s.attached {
      CarriedIsAllocated(s, key);
      MoveKeepsReferences(s, AfterSet(s, t, error), t, Losing(key, own, s.attached[key]));
    } else {
      AttachKeepsReferences(s, t);
    }
  }

  lemma SurrenderKeepsReferences(s: State, t: Tid)
    requires Inv(s) && t in s.pc && s.pc[t].Losing?
    ensures ReferencesInv(AfterSurrender(s, t))
  {
    UsedIsAllocated(s, t, s.pc[t].own);
    MoveKeepsReferences(s, AfterSurrender(s, t), t, Holding(s.pc[t].key, s.pc[t].winner));
  }

  lemma LeavingKeepsReferences(s: State, t: Tid)
    requires Inv(s) && t in s.pc
    ensures s.pc[t].Failing? ==> ReferencesInv(AfterGiveUp(s, t))
    ensures s.pc[t].Enlisting? ==> ReferencesInv(AfterFinish(s, t))
  {
    if s.pc[t].Failing? {
      UsedIsAllocated(s, t, s.pc[t].own);
      LeaveKeepsReferences(s, AfterGiveUp(s, t), t);
    } else if s.pc[t].Enlisting? {
      UsedIsAllocated(s, t, s.pc[t].own);
      LeaveKeepsReferences(s, AfterFinish(s, t), t);
    }
  }

  /** A transaction that ends takes its context, and no other, off the transactions. */
  lemma EndCarries(s: State, key: Key, c: nat)
    requires SharedInv(s) && Live(s, key)
    ensures Carried(AfterEnd(s, key), c) <==> Carried(s, c) && c != s.attached[key]
  {
    var s' := AfterEnd(s, key);
    if Carried(s, c) && c != s.attached[key] {
      var k :| Live(s, k) && s.attached[k] == c;
      assert Live(s', k);
    }
    if Carried(s', c) {
      var k :| Live(s', k) && s'.attached[k] == c;
      assert Live(s, k);
    }
  }

  lemma EndKeepsReferences(s: State, key: Key)
    requires Inv(s) && Live(s, key)
    ensures ReferencesInv(AfterEnd(s, key))
  {
    var s' := AfterEnd(s, key);
    CarriedIsAllocated(s, key);
    assert Carried(s, s.attached[key]);
    forall c
      ensures References(s'.contexts, c) - References(s.contexts, c) == Holders(s', c) - Holders(s, c)
    {
      EndCarries(s, key, c);
    }
    BalancedReferences(s, s');
  }

  lemma StepKeepsReferences(s: State, step: Step)
    requires Inv(s) && Enabled(s, step)
    ensures ReferencesInv(Apply(s, step))
  {
    match step
    case Begin(t, key) => MoveKeepsReferences(s, Apply(s, step), t, Getting(key));
    case Get(t, error) => GetKeepsReferences(s, t, error);
    case Allocate(t, ok) => AllocateKeepsReferences(s, t, ok);
    case Number(t) => NumberKeepsReferences(s, t);
    case Set(t, error) => SetKeepsReferences(s, t, error);
    case Surrender(t) => SurrenderKeepsReferences(s, t);
    case GiveUp(t) => LeavingKeepsReferences(s, t);
    case Read(t) => MoveKeepsReferences(s, Apply(s, step), t, Apply(s, step).pc[t]);
    case Finish(t) => LeavingKeepsReferences(s, t);
    case End(key) => EndKeepsReferences(s, key);
  }

  // ----- Attachments, sequences and outcomes -----

  /** One thread leaves or changes while attachments, allocations and numbers stay. */
  lemma LocalStepKeepsFacts(s: State, s': State, t: Tid)
    requires Inv(s)
    requires s'.attached == s.attached && s'.made == s.made && s'.sequences == s.sequences
    requires s'.increments == s.increments
    requires forall c :: c in s'.contexts ==> c in s.contexts && s'.contexts[c].sequence == s.contexts[c].sequence
    requires s'.pc == s.pc - {t} || (s'.pc.Keys == s.pc.Keys + {t} && s'.pc == s.pc[t := s'.pc[t]])
    requires t in s'.pc ==> Knows(s.attached, s.made, s.sequences, s'.pc[t])
    requires t in s'.pc ==>
               forall c :: Uses(s'.pc[t], c) ==>
                 (t in s.pc && Uses(s.pc[t], c)) || (exists k :: k in s.attached && s.attached[k] == c)
    requires t in s'.pc && Private(s'.pc[t]) ==> t in s.pc && Private(s.pc[t]) && s'.pc[t].own == s.pc[t].own
    requires s'.outcomes == s.outcomes || exists o :: s'.outcomes == s.outcomes + [o] && Consistent(s, o)
    ensures FactsInv(s')
  {
    forall u, v | u in s'.pc && v in s'.pc && u != v && Private(s'.pc[u])
      ensures !Uses(s'.pc[v], s'.pc[u].own)
    {
      assert u in s.pc && Private(s.pc[u]) && s'.pc[u].own == s.pc[u].own;
      assert Knows(s.attached, s.made, s.sequences, s.pc[u]);
    }
    forall i | 0 <= i < |s'.outcomes|
      ensures Consistent(s', s'.outcomes[i])
    {
      assert Consistent(s, s'.outcomes[i]);
    }
  }

  lemma GetKeepsFacts(s: State, t: Tid, error: bool)
    requires Inv(s) && t in s.pc && s.pc[t].Getting?
    ensures FactsInv(AfterGet(s, t, error))
  {
    if error {
      assert Consistent(s, Outcome(s.pc[t].key, None, 0));
    }
    LocalStepKeepsFacts(s, AfterGet(s, t, error), t);
  }

  lemma NewContextIsUnused(s: State, t: Tid)
    requires ReferencesInv(s) && t in s.pc
    ensures !Uses(s.pc[t], s.made)
  {
    if Uses(s.pc[t], s.made) {
      UsedIsAllocated(s, t, s.made);
    }
  }

  lemma AllocateKeepsFacts(s: State, t: Tid, ok: bool)
    requires Inv(s) && t in s.pc && s.pc[t].Allocating?
    ensures FactsInv(AfterAllocate(s, t, ok))
  {
    var s' := AfterAllocate(s, t, ok);
    if ok {
      forall u | u in s'.pc
        ensures Knows(s'.attached, s'.made, s'.sequences, s'.pc[u])
      {
        assert Knows(s.attached, s.made, s.sequences, s.pc[u]);
      }
      forall u | u in s.pc
        ensures !Uses(s.pc[u], s.made)
      {
        NewContextIsUnused(s, u);
      }
      forall u, v | u in s'.pc && v in s'.pc && u != v && Private(s'.pc[u])
        ensures !Uses(s'.pc[v], s'.pc[u].own)
      {
        assert u != t ==> Knows(s.attached, s.made, s.sequences, s.pc[u]);
      }
      SameOutcomes(s, s');
    } else {
      assert Consistent(s, Outcome(s.pc[t].key, None, 0));
      LocalStepKeepsFacts(s, s', t);
    }
  }

  /** Outcomes stay right when transactions and numbers are only added. */
  lemma SameOutcomes(s: State, s': State)
    requires OutcomesInv(s) && s'.outcomes == s.outcomes
    requires forall k :: k in s.attached ==> k in s'.attached && s'.attached[k] == s.attached[k]
    requires forall c, k :: c in s.sequences && k in s.attached && s.attached[k] == c ==>
               c in s'.sequences && s'.sequences[c] == s.sequences[c]
    ensures OutcomesInv(s')
  {
    forall i | 0 <= i < |s'.outcomes|
      ensures Consistent(s', s'.outcomes[i])
    {
      assert Consistent(s, s.outcomes[i]);
    }
  }

  lemma NumberKeepsExclusive(s: State, t: Tid)
    requires ExclusiveInv(s) && t in s.pc && s.pc[t].Numbering?
    ensures ExclusiveInv(AfterNumber(s, t))
  {
    var s' := AfterNumber(s, t);
    forall u, v | u in s'.pc && v in s'.pc && u != v && Private(s'.pc[u])
      ensures !Uses(s'.pc[v], s'.pc[u].own)
    {
      assert Private(s.pc[u]) && s'.pc[u].own == s.pc[u].own;
      assert !Uses(s.pc[v], s.pc[u].own);
    }
  }

  lemma NumberKeepsKnown(attached: map<Key, nat>, made: nat, sequences: map<nat, nat>, p: Pc, own: nat, n: nat)
    requires Knows(attached, made, sequences, p) && !Uses(p, own) && own !in sequences
    ensures Knows(attached, made, sequences[own := n], p)
  {
  }

  lemma NumberKeepsThreads(s: State, t: Tid)
    requires ThreadsInv(s) && ExclusiveInv(s) && t in s.pc && s.pc[t].Numbering?
    ensures ThreadsInv(AfterNumber(s, t))
  {
    var own, s' := s.pc[t].own, AfterNumber(s, t);
    assert Knows(s.attached, s.made, s.sequences, s.pc[t]);
    forall u | u in s'.pc
      ensures Knows(s'.attached, s'.made, s'.sequences, s'.pc[u])
    {
      if u != t {
        assert Knows(s.attached, s.made, s.sequences, s.pc[u]);
        assert !Uses(s.pc[u], own);
        NumberKeepsKnown(s.attached, s.made, s.sequences, s.pc[u], own, s'.sequences[own]);
      }
    }
  }

  lemma NumberKeepsShared(s: State, t: Tid)
    requires SharedInv(s) && t in s.pc && s.pc[t].Numbering?
    requires Knows(s.attached, s.made, s.sequences, s.pc[t])
    ensures SharedInv(AfterNumber(s, t))
  {
  }

  lemma NumberKeepsFacts(s: State, t: Tid)
    requires Inv(s) && t in s.pc && s.pc[t].Numbering?
    ensures FactsInv(AfterNumber(s, t))
  {
    assert Knows(s.attached, s.made, s.sequences, s.pc[t]);
    hide ReferencesInv, ThreadsInv, ExclusiveInv;
    NumberKeepsThreads(s, t);
    NumberKeepsExclusive(s, t);
    NumberKeepsShared(s, t);
    SameOutcomes(s, AfterNumber(s, t));
  }

  lemma AttachKeepsShared(s: State, t: Tid)
    requires SharedInv(s) && t in s.pc && s.pc[t].Setting?
    requires Knows(s.attached, s.made, s.sequences, s.pc[t])
    requires s.pc[t].key !in s.ended && s.pc[t].key !in s.attached
    ensures SharedInv(AfterSet(s, t, false))
  {
  }

  lemma AttachKeepsKnown(attached: map<Key, nat>, made: nat, sequences: map<nat, nat>, p: Pc, key: Key, own: nat)
    requires Knows(attached, made, sequences, p) && key !in attached && !Uses(p, own)
    ensures Knows(attached[key := own], made, sequences, p)
  {
  }

  lemma AttachKeepsThreads(s: State, t: Tid)
    requires Inv(s) && t in s.pc && s.pc[t].Setting?
    requires s.pc[t].key !in s.ended && s.pc[t].key !in s.attached
    ensures ThreadsInv(AfterSet(s, t, false))
  {
    hide ReferencesInv, OutcomesInv, SharedInv;
    var key, own, s' := s.pc[t].key, s.pc[t].own, AfterSet(s, t, false);
    assert Knows(s.attached, s.made, s.sequences, s.pc[t]);
    forall u | u in s'.pc
      ensures Knows(s'.attached, s'.made, s'.sequences, s'.pc[u])
    {
      if u != t {
        assert Knows(s.attached, s.made, s.sequences, s.pc[u]);
        assert !Uses(s.pc[u], own);
        AttachKeepsKnown(s.attached, s.made, s.sequences, s.pc[u], key, own);
      }
    }
  }

  lemma AttachKeepsExclusive(s: State, t: Tid)
    requires Inv(s) && t in s.pc && s.pc[t].Setting?
    requires s.pc[t].key !in s.ended && s.pc[t].key !in s.attached
    ensures ExclusiveInv(AfterSet(s, t, false))
  {
    hide ReferencesInv, OutcomesInv, SharedInv, ThreadsInv;
    var s' := AfterSet(s, t, false);
    forall u, v | u in s'.pc && v in s'.pc && u != v && Private(s'.pc[u])
      ensures !Uses(s'.pc[v], s'.pc[u].own)
    {
      assert u != t && Private(s.pc[u]);
      assert !Uses(s.pc[v], s.pc[u].own);
    }
  }

  lemma AttachKeepsFacts(s: State, t: Tid)
    requires Inv(s) && t in s.pc && s.pc[t].Setting?
    requires s.pc[t].key !in s.ended && s.pc[t].key !in s.attached
    ensures FactsInv(AfterSet(s, t, false))
  {
    hide ReferencesInv, ExclusiveInv;
    assert Knows(s.attached, s.made, s.sequences, s.pc[t]) by {
      assert ThreadsInv(s);
    }
    AttachKeepsShared(s, t);
    AttachKeepsThreads(s, t);
    AttachKeepsExclusive(s, t);
    assert SharedInv(s) && OutcomesInv(s);
    SameOutcomes(s, AfterSet(s, t, false));
  }

  lemma SetKeepsFacts(s: State, t: Tid, error: bool)
    requires Inv(s) && t in s.pc && s.pc[t].Setting?
    ensures FactsInv(AfterSet(s, t, error))
  {
    assert Knows(s.attached, s.made, s.sequences, s.pc[t]);
    if error || s.pc[t].key in s.ended || s.pc[t].key in s.attached {
      LocalStepKeepsFacts(s, AfterSet(s, t, error), t);
    } else {
      AttachKeepsFacts(s, t);
    }
  }

  lemma SurrenderKeepsFacts(s: State, t: Tid)
    requires Inv(s) && t in s.pc && s.pc[t].Losing?
    ensures FactsInv(AfterSurrender(s, t))
  {
    assert Knows(s.attached, s.made, s.sequences, s.pc[t]);
    LocalStepKeepsFacts(s, AfterSurrender(s, t), t);
  }

  /** Reading finds the number the context was given: it is still allocated. */
  lemma ReadKeepsFacts(s: State, t: Tid)
    requires Inv(s) && t in s.pc && s.pc[t].Holding?
    ensures FactsInv(AfterRead(s, t))
  {
    UsedIsAllocated(s, t, s.pc[t].own);
    assert Knows(s.attached, s.made, s.sequences, s.pc[t]);
    LocalStepKeepsFacts(s, AfterRead(s, t), t);
  }

  lemma GiveUpKeepsFacts(s: State, t: Tid)
    requires Inv(s) && t in s.pc && s.pc[t].Failing?
    ensures FactsInv(AfterGiveUp(s, t))
  {
    assert Consistent(s, Outcome(s.pc[t].key, None, 0));
    LocalStepKeepsFacts(s, AfterGiveUp(s, t), t);
  }

  lemma FinishKeepsFacts(s: State, t: Tid)
    requires Inv(s) && t in s.pc && s.pc[t].Enlisting?
    ensures FactsInv(AfterFinish(s, t))
  {
    assert Knows(s.attached, s.made, s.sequences, s.pc[t]);
    assert Consistent(s, Outcome(s.pc[t].key, Some(s.pc[t].own), s.pc[t].sequence));
    LocalStepKeepsFacts(s, AfterFinish(s, t), t);
  }

  lemma EndKeepsFacts(s: State, key: Key)
    requires Inv(s) && Live(s, key)
    ensures FactsInv(AfterEnd(s, key))
  {
    SameOutcomes(s, AfterEnd(s, key));
  }

  lemma StepKeepsFacts(s: State, step: Step)
    requires Inv(s) && Enabled(s, step)
    ensures FactsInv(Apply(s, step))
  {
    match step
    case Begin(t, key) => LocalStepKeepsFacts(s, Apply(s, step), t);
    case Get(t, error) => GetKeepsFacts(s, t, error);
    case Allocate(t, ok) => AllocateKeepsFacts(s, t, ok);
    case Number(t) => NumberKeepsFacts(s, t);
    case Set(t, error) => SetKeepsFacts(s, t, error);
    case Surrender(t) => SurrenderKeepsFacts(s, t);
    case GiveUp(t) => GiveUpKeepsFacts(s, t);
    case Read(t) => ReadKeepsFacts(s, t);
    case Finish(t) => FinishKeepsFacts(s, t);
    case End(key) => EndKeepsFacts(s, key);
  }

  // ----- Runs -----

  ghost predicate Next(s: State, s': State) {
    exists step :: Enabled(s, step) && s' == Apply(s, step)
  }

  ghost predicate IsRun(run: seq<State>) {
    && run != []
    && Init(run[0])
    && (forall i :: 0 < i < |run| ==> Next(run[i - 1], run[i]))
  }

  ghost predicate Reachable(s: State) {
    exists run :: IsRun(run) && run[|run| - 1] == s
  }

  lemma InitInv(s: State)
    requires Init(s)
    ensures Inv(s)
  {
    forall c
      ensures References(s.contexts, c) == Holders(s, c)
    {
      assert At(s.pc, Using(c)) == {};
    }
  }

  lemma {:induction false} RunKeepsInv(run: seq<State>)
    requires IsRun(run)
    ensures Inv(run[|run| - 1])
  {
    if |run| == 1 {
      InitInv(run[0]);
    } else {
      var front := run[..|run| - 1];
      forall i | 0 < i < |front|
        ensures Next(front[i - 1], front[i])
      {
        assert front[i - 1] == run[i - 1] && front[i] == run[i];
      }
      RunKeepsInv(front);
      var s, s' := run[|run| - 2], run[|run| - 1];
      assert Next(s, s');
      var step :| Enabled(s, step) && s' == Apply(s, step);
      StepKeepsReferences(s, step);
      StepKeepsFacts(s, step);
    }
  }

  lemma ReachableInv(s: State)
    requires Reachable(s)
    ensures Inv(s)
  {
    var run :| IsRun(run) && run[|run| - 1] == s;
    RunKeepsInv(run);
  }

  // ----- Results -----

  /** Whoever wins, all calls on one instance and transaction that get a context get the same
      one and return the same sequence, including losers that had allocated their own. */
  lemma OneSequencePerTransaction(s: State, i: nat, j: nat)
    requires Reachable(s) && i < |s.outcomes| && j < |s.outcomes|
    requires s.outcomes[i].key == s.outcomes[j].key
    requires s.outcomes[i].context.Some? && s.outcomes[j].context.Some?
    ensures s.outcomes[i] == s.outcomes[j]
  {
    ReachableInv(s);
    assert Consistent(s, s.outcomes[i]) && Consistent(s, s.outcomes[j]);
  }

  /** Different transactions get different, non-zero sequences while fewer than 2^32 contexts
      have been numbered. */
  lemma DistinctSequences(s: State, i: nat, j: nat)
    requires Reachable(s) && i < |s.outcomes| && j < |s.outcomes| && s.increments < TWO_32
    requires s.outcomes[i].context.Some? && s.outcomes[j].context.Some?
    ensures s.outcomes[i].sequence != 0
    ensures s.outcomes[i].sequence == s.outcomes[j].sequence <==> s.outcomes[i].key == s.outcomes[j].key
  {
    ReachableInv(s);
    assert Consistent(s, s.outcomes[i]) && Consistent(s, s.outcomes[j]);
  }

  /** What a thread or a transaction holds is allocated: nothing is used after its release. */
  lemma NoUseAfterFree(s: State, t: Tid, c: nat)
    requires Reachable(s) && ((t in s.pc && Uses(s.pc[t], c)) || Carried(s, c))
    ensures c in s.contexts
  {
    ReachableInv(s);
    if t in s.pc && Uses(s.pc[t], c) {
      UsedIsAllocated(s, t, c);
    }
    assert References(s.contexts, c) == Holders(s, c);
  }

  /** Every acquired reference is released exactly once: with no call running and every
      transaction over, no context is left. */
  lemma NoContextLeaks(s: State)
    requires Reachable(s) && s.pc == map[] && s.attached.Keys <= s.ended
    ensures s.contexts == map[]
  {
    ReachableInv(s);
    forall c
      ensures c !in s.contexts
    {
      assert At(s.pc, Using(c)) == {};
      assert References(s.contexts, c) == Holders(s, c);
    }
  }
}
