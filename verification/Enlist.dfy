/**
 The transaction context race in Enlist: any number of threads call it for any instances and
 transactions; each call looks the context up, allocates and numbers its own when there is none,
 and tries to attach it. One step is one Filter Manager call or one interlocked operation.
 */
module Enlist {
  import opened Common

  /** An instance and a transaction. */
  datatype Key = Key(instance: nat, transaction: nat)

  datatype Context = Context(sequence: nat, references: nat)

  datatype Pc =
    | Getting(key: Key)                       // before FltGetTransactionContext
    | Allocating(key: Key)                    // none found
    | Numbering(key: Key, own: nat)           // allocated, before InterlockedIncrement
    | Setting(key: Key, own: nat)             // before FltSetTransactionContext
    | Losing(key: Key, own: nat, winner: nat) // lost the race, holds both contexts
    | Failing(key: Key, own: nat)             // could not attach, before releasing its own
    | Holding(key: Key, own: nat)             // before reading the sequence
    | Enlisting(key: Key, own: nat, sequence: nat)  // read; before the last release

  /** What one call of Enlist returned. */
  datatype Outcome = Outcome(key: Key, context: Option<nat>, sequence: nat)

  datatype State = State(
    increments: nat,             // of TransactionSequence
    made: nat,                   // contexts allocated so far; they are numbered in that order
    contexts: map<nat, Context>, // allocated and not yet freed
    attached: map<Key, nat>,     // context set on the transaction, kept after its end as history
    ended: set<Key>,             // transactions that are over
    pc: map<Tid, Pc>,
    // history
    sequences: map<nat, nat>,    // which increment numbered a context
    outcomes: seq<Outcome>
  )

  ghost predicate Init(s: State) {
    s == State(0, 0, map[], map[], {}, map[], map[], [])
  }

  datatype Step =
    | Begin(t: Tid, key: Key)
    | Get(t: Tid, error: bool)
    | Allocate(t: Tid, ok: bool)
    | Number(t: Tid)
    | Set(t: Tid, error: bool)
    | Surrender(t: Tid)
    | GiveUp(t: Tid)
    | Read(t: Tid)
    | Finish(t: Tid)
    | End(key: Key)

  predicate Enabled(s: State, step: Step) {
    match step
    case Begin(t, _) => t !in s.pc
    case Get(t, _) => t in s.pc && s.pc[t].Getting?
    case Allocate(t, _) => t in s.pc && s.pc[t].Allocating?
    case Number(t) => t in s.pc && s.pc[t].Numbering?
    case Set(t, _) => t in s.pc && s.pc[t].Setting?
    case Surrender(t) => t in s.pc && s.pc[t].Losing?
    case GiveUp(t) => t in s.pc && s.pc[t].Failing?
    case Read(t) => t in s.pc && s.pc[t].Holding?
    case Finish(t) => t in s.pc && s.pc[t].Enlisting?
    case End(key) => key in s.attached && key !in s.ended
  }

  /** The transaction still carries its context. */
  predicate Live(s: State, key: Key) { key in s.attached && key !in s.ended }

  function Reference(contexts: map<nat, Context>, c: nat): map<nat, Context> {
    if c in contexts then contexts[c := contexts[c].(references := contexts[c].references + 1)] else contexts
  }

  /** FltReleaseContext: the last reference frees the context. */
  function Release(contexts: map<nat, Context>, c: nat): map<nat, Context> {
    if c !in contexts then contexts
    else if contexts[c].references <= 1 then contexts - {c}
    else contexts[c := contexts[c].(references := contexts[c].references - 1)]
  }

  function AfterGet(s: State, t: Tid, error: bool): State
    requires t in s.pc && s.pc[t].Getting?
  {
    var key := s.pc[t].key;
    if error then s.(pc := s.pc - {t}, outcomes := s.outcomes + [Outcome(key, None, 0)])
    else if Live(s, key) then
      s.(contexts := Reference(s.contexts, s.attached[key]), pc := s.pc[t := Holding(key, s.attached[key])])
    else s.(pc := s.pc[t := Allocating(key)])
  }

  function AfterAllocate(s: State, t: Tid, ok: bool): State
    requires t in s.pc && s.pc[t].Allocating?
  {
    var key := s.pc[t].key;
    if ok then
      s.(made := s.made + 1, contexts := s.contexts[s.made := Context(0, 1)], pc := s.pc[t := Numbering(key, s.made)])
    else s.(pc := s.pc - {t}, outcomes := s.outcomes + [Outcome(key, None, 0)])
  }

  function Numbered(contexts: map<nat, Context>, c: nat, sequence: nat): map<nat, Context> {
    if c in contexts then contexts[c := contexts[c].(sequence := sequence)] else contexts
  }

  function AfterNumber(s: State, t: Tid): State
    requires t in s.pc && s.pc[t].Numbering?
  {
    var own := s.pc[t].own;
    s.(increments := s.increments + 1,
       contexts := Numbered(s.contexts, own, (s.increments + 1) % TWO_32),
       sequences := s.sequences[own := s.increments + 1],
       pc := s.pc[t := Setting(s.pc[t].key, own)])
  }

  /** Keep-if-exists: attach, or learn which context was there first. A transaction that is over
      takes no context. */
  function AfterSet(s: State, t: Tid, error: bool): State
    requires t in s.pc && s.pc[t].Setting?
  {
    var key, own := s.pc[t].key, s.pc[t].own;
    if error || key in s.ended then s.(pc := s.pc[t := Failing(key, own)])
    else if key in s.attached then
      s.(contexts := Reference(s.contexts, s.attached[key]), pc := s.pc[t := Losing(key, own, s.attached[key])])
    else
      s.(contexts := Reference(s.contexts, own), attached := s.attached[key := own], pc := s.pc[t := Holding(key, own)])
  }

  function AfterSurrender(s: State, t: Tid): State
    requires t in s.pc && s.pc[t].Losing?
  {
    s.(contexts := Release(s.contexts, s.pc[t].own), pc := s.pc[t := Holding(s.pc[t].key, s.pc[t].winner)])
  }

  function AfterGiveUp(s: State, t: Tid): State
    requires t in s.pc && s.pc[t].Failing?
  {
    s.(contexts := Release(s.contexts, s.pc[t].own), pc := s.pc - {t},
       outcomes := s.outcomes + [Outcome(s.pc[t].key, None, 0)])
  }

  function AfterRead(s: State, t: Tid): State
    requires t in s.pc && s.pc[t].Holding?
  {
    var own := s.pc[t].own;
    s.(pc := s.pc[t := Enlisting(s.pc[t].key, own, if own in s.contexts then s.contexts[own].sequence else 0)])
  }

  function AfterFinish(s: State, t: Tid): State
    requires t in s.pc && s.pc[t].Enlisting?
  {
    s.(contexts := Release(s.contexts, s.pc[t].own), pc := s.pc - {t},
       outcomes := s.outcomes + [Outcome(s.pc[t].key, Some(s.pc[t].own), s.pc[t].sequence)])
  }

  function AfterEnd(s: State, key: Key): State
    requires key in s.attached
  {
    s.(contexts := Release(s.contexts, s.attached[key]), ended := s.ended + {key})
  }

  function Apply(s: State, step: Step): State
    requires Enabled(s, step)
  {
    match step
    case Begin(t, key) => s.(pc := s.pc[t := Getting(key)])
    case Get(t, error) => AfterGet(s, t, error)
    case Allocate(t, ok) => AfterAllocate(s, t, ok)
    case Number(t) => AfterNumber(s, t)
    case Set(t, error) => AfterSet(s, t, error)
    case Surrender(t) => AfterSurrender(s, t)
    case GiveUp(t) => AfterGiveUp(s, t)
    case Read(t) => AfterRead(s, t)
    case Finish(t) => AfterFinish(s, t)
    case End(key) => AfterEnd(s, key)
  }
}
