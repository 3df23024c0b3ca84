/**
 The bounded blocking queue with its two condition variables, used by any number of pushing and
 popping threads. A step is one section under the mutex, from the moment a thread holds the lock
 and tests its wait predicate until it returns or goes back to sleep.
 */
module Queue {
  import opened Common

  /** A thread inside wait: blocked on the condition variable, or woken and not yet re-checked. */
  datatype Waiter<T> = Asleep(item: T) | Woken(item: T)

  type Waiters<T> = map<Tid, Waiter<T>>

  datatype State<T> = State(
    capacity: nat,
    items: seq<T>,
    closed: bool,
    pushers: Waiters<T>,   // waiting on notFull, each with the item it wants to push
    poppers: Waiters<()>,  // waiting on notEmpty
    // history
    pushed: seq<T>,
    popped: seq<T>
  )

  function New<T>(capacity: nat): State<T> {
    State(capacity, [], false, map[], map[], [], [])
  }

  predicate Sleeps<T>(w: Waiter<T>) { w.Asleep? }
  predicate IsWoken<T>(w: Waiter<T>) { w.Woken? }

  ghost function Sleeping<T(!new)>(ws: Waiters<T>): nat { Count(ws, Sleeps<T>) }
  ghost function Awake<T(!new)>(ws: Waiters<T>): nat { Count(ws, IsWoken<T>) }

  /** notify_one: some sleeper if there is one. */
  ghost predicate CanWake<T(!new)>(ws: Waiters<T>, wake: Option<Tid>) {
    match wake
    case None => forall t :: t in ws ==> ws[t].Woken?
    case Some(t) => t in ws && ws[t].Asleep?
  }

  function NotifyOne<T>(ws: Waiters<T>, wake: Option<Tid>): Waiters<T> {
    match wake
    case None => ws
    case Some(t) => if t in ws then ws[t := Woken(ws[t].item)] else ws
  }

  function NotifyAll<T>(ws: Waiters<T>): Waiters<T> {
    map t | t in ws :: Woken(ws[t].item)
  }

  predicate Room<T>(s: State<T>) { |s.items| < s.capacity || s.closed }

  predicate Ready<T>(s: State<T>) { s.items != [] || s.closed }

  /** Push from the wait predicate on. */
  function AfterPush<T>(s: State<T>, t: Tid, item: T, wake: Option<Tid>): State<T> {
    if !Room(s) then s.(pushers := s.pushers[t := Asleep(item)])
    else if s.closed then s.(pushers := s.pushers - {t})
    else s.(items := s.items + [item], pushers := s.pushers - {t},
            poppers := NotifyOne(s.poppers, wake), pushed := s.pushed + [item])
  }

  /** Pop from the wait predicate on. */
  function AfterPop<T>(s: State<T>, t: Tid, wake: Option<Tid>): State<T> {
    if !Ready(s) then s.(poppers := s.poppers[t := Asleep(())])
    else if s.items == [] then s.(poppers := s.poppers - {t})
    else s.(items := s.items[1..], poppers := s.poppers - {t},
            pushers := NotifyOne(s.pushers, wake), popped := s.popped + [s.items[0]])
  }

  function AfterClose<T>(s: State<T>): State<T> {
    s.(closed := true, pushers := NotifyAll(s.pushers), poppers := NotifyAll(s.poppers))
  }

  function AfterSpuriousWake<T>(s: State<T>, t: Tid, pusher: bool): State<T> {
    if pusher then s.(pushers := NotifyOne(s.pushers, Some(t))) else s.(poppers := NotifyOne(s.poppers, Some(t)))
  }

  datatype Step<T> =
    | Push(t: Tid, item: T, wake: Option<Tid>)
    | RetryPush(t: Tid, wake: Option<Tid>)
    | Pop(t: Tid, wake: Option<Tid>)
    | RetryPop(t: Tid, wake: Option<Tid>)
    | Close
    | SpuriousWake(t: Tid, pusher: bool)

  ghost predicate Enabled<T(!new)>(s: State<T>, step: Step<T>) {
    match step
    case Push(t, _, wake) => t !in s.pushers && CanWake(s.poppers, wake)
    case RetryPush(t, wake) => t in s.pushers && s.pushers[t].Woken? && CanWake(s.poppers, wake)
    case Pop(t, wake) => t !in s.poppers && CanWake(s.pushers, wake)
    case RetryPop(t, wake) => t in s.poppers && s.poppers[t].Woken? && CanWake(s.pushers, wake)
    case Close => true
    case SpuriousWake(t, pusher) => if pusher then t in s.pushers else t in s.poppers
  }

  function Apply<T>(s: State<T>, step: Step<T>): State<T>
    requires step.RetryPush? ==> step.t in s.pushers
  {
    match step
    case Push(t, item, wake) => AfterPush(s, t, item, wake)
    case RetryPush(t, wake) => AfterPush(s, t, s.pushers[t].item, wake)
    case Pop(t, wake) => AfterPop(s, t, wake)
    case RetryPop(t, wake) => AfterPop(s, t, wake)
    case Close => AfterClose(s)
    case SpuriousWake(t, pusher) => AfterSpuriousWake(s, t, pusher)
  }

  // ----- The invariant -----

  /** First in, first out, and never over capacity. */
  ghost predicate Ordered<T>(s: State<T>) {
    s.pushed == s.popped + s.items && |s.items| <= s.capacity
  }

  /** A sleeper is always covered: as many waiters are already on their way as there is work. */
  ghost predicate Covered<T(!new)>(s: State<T>) {
    && (!s.closed && Sleeping(s.poppers) > 0 ==> |s.items| <= Awake(s.poppers))
    && (!s.closed && Sleeping(s.pushers) > 0 ==> s.capacity - |s.items| <= Awake(s.pushers))
    && (s.closed ==> Sleeping(s.poppers) == 0 && Sleeping(s.pushers) == 0)
  }

  ghost predicate Inv<T(!new)>(s: State<T>) { Ordered(s) && Covered(s) }

  // ----- Waiter bookkeeping -----

  lemma WaiterMoves<T(!new)>(ws: Waiters<T>, t: Tid, w: Waiter<T>)
    ensures Sleeping(ws[t := w]) + Bit(t in ws && ws[t].Asleep?) == Sleeping(ws) + Bit(w.Asleep?)
    ensures Awake(ws[t := w]) + Bit(t in ws && ws[t].Woken?) == Awake(ws) + Bit(w.Woken?)
  {
    CountMove(ws, t, w, Sleeps<T>);
    CountMove(ws, t, w, IsWoken<T>);
  }

  lemma WaiterLeaves<T(!new)>(ws: Waiters<T>, t: Tid)
    ensures Sleeping(ws - {t}) + Bit(t in ws && ws[t].Asleep?) == Sleeping(ws)
    ensures Awake(ws - {t}) + Bit(t in ws && ws[t].Woken?) == Awake(ws)
  {
    if t in ws {
      CountLeave(ws, t, Sleeps<T>);
      CountLeave(ws, t, IsWoken<T>);
    } else {
      assert ws - {t} == ws;
    }
  }

  lemma NoSleepers<T(!new)>(ws: Waiters<T>)
    ensures Sleeping(ws) == 0 <==> forall t :: t in ws ==> ws[t].Woken?
  {
    if forall t :: t in ws ==> ws[t].Woken? {
      assert At(ws, Sleeps<T>) == {};
    } else {
      var t :| t in ws && ws[t].Asleep?;
      CountWitness(ws, t, Sleeps<T>);
    }
  }

  /** notify_one turns a sleeper into a woken waiter, unless nobody sleeps. */
  lemma OneWoken<T(!new)>(ws: Waiters<T>, wake: Option<Tid>)
    requires CanWake(ws, wake)
    ensures var ws' := NotifyOne(ws, wake);
            if Sleeping(ws) == 0 then ws' == ws
            else Sleeping(ws') == Sleeping(ws) - 1 && Awake(ws') == Awake(ws) + 1
  {
    NoSleepers(ws);
    if wake.Some? {
      WaiterMoves(ws, wake.value, Woken(ws[wake.value].item));
    }
  }

  lemma AllWoken<T(!new)>(ws: Waiters<T>)
    ensures Sleeping(NotifyAll(ws)) == 0
  {
    NoSleepers(NotifyAll(ws));
  }

  // ----- Preservation -----

  lemma NewInv<T(!new)>(capacity: nat)
    ensures Inv(New<T>(capacity))
  {
    NoSleepers(New<T>(capacity).pushers);
    NoSleepers(New<T>(capacity).poppers);
  }

  lemma PushKeepsInv<T(!new)>(s: State<T>, t: Tid, item: T, wake: Option<Tid>)
    requires Inv(s) && CanWake(s.poppers, wake)
    requires t in s.pushers ==> s.pushers[t].Woken?
    ensures Inv(AfterPush(s, t, item, wake))
  {
    WaiterMoves(s.pushers, t, Asleep(item));
    WaiterLeaves(s.pushers, t);
    OneWoken(s.poppers, wake);
    assert s.popped + (s.items + [item]) == s.popped + s.items + [item];
  }

  lemma PopKeepsInv<T(!new)>(s: State<T>, t: Tid, wake: Option<Tid>)
    requires Inv(s) && CanWake(s.pushers, wake)
    requires t in s.poppers ==> s.poppers[t].Woken?
    ensures Inv(AfterPop(s, t, wake))
  {
    WaiterMoves(s.poppers, t, Asleep(()));
    WaiterLeaves(s.poppers, t);
    OneWoken(s.pushers, wake);
    if s.items != [] {
      assert s.popped + s.items == s.popped + [s.items[0]] + s.items[1..];
    }
  }

  lemma CloseKeepsInv<T(!new)>(s: State<T>)
    requires Inv(s)
    ensures Inv(AfterClose(s))
  {
    AllWoken(s.pushers);
    AllWoken(s.poppers);
  }

  lemma SpuriousWakeKeepsInv<T(!new)>(s: State<T>, t: Tid, pusher: bool)
    requires Inv(s) && (if pusher then t in s.pushers else t in s.poppers)
    ensures Inv(AfterSpuriousWake(s, t, pusher))
  {
    if pusher {
      WaiterMoves(s.pushers, t, Woken(s.pushers[t].item));
    } else {
      WaiterMoves(s.poppers, t, Woken(s.poppers[t].item));
    }
  }

  lemma StepKeepsInv<T(!new)>(s: State<T>, step: Step<T>)
    requires Inv(s) && Enabled(s, step)
    ensures Inv(Apply(s, step))
  {
    match step
    case Push(t, item, wake) => PushKeepsInv(s, t, item, wake);
    case RetryPush(t, wake) => PushKeepsInv(s, t, s.pushers[t].item, wake);
    case Pop(t, wake) => PopKeepsInv(s, t, wake);
    case RetryPop(t, wake) => PopKeepsInv(s, t, wake);
    case Close => CloseKeepsInv(s);
    case SpuriousWake(t, pusher) => SpuriousWakeKeepsInv(s, t, pusher);
  }

  // ----- Runs -----

  ghost predicate IsRun<T(!new)>(run: seq<State<T>>, steps: seq<Step<T>>) {
    && |run| == |steps| + 1
    && run[0] == New(run[0].capacity)
    && (forall i :: 0 <= i < |steps| ==> Enabled(run[i], steps[i]) && run[i + 1] == Apply(run[i], steps[i]))
  }

  lemma {:induction false} RunKeepsInv<T(!new)>(run: seq<State<T>>, steps: seq<Step<T>>, i: nat)
    requires IsRun(run, steps) && i < |run|
    ensures Inv(run[i])
  {
    if i == 0 {
      NewInv<T>(run[0].capacity);
    } else {
      RunKeepsInv(run, steps, i - 1);
      StepKeepsInv(run[i - 1], steps[i - 1]);
    }
  }

  /** No wake-up is lost: whoever sleeps has no work, or somebody is awake to do that work. */
  lemma NoLostWakeUp<T(!new)>(run: seq<State<T>>, steps: seq<Step<T>>, i: nat)
    requires IsRun(run, steps) && i < |run|
    ensures var s := run[i];
            && (Sleeping(s.poppers) > 0 ==> !s.closed && |s.items| <= Awake(s.poppers))
            && (Sleeping(s.pushers) > 0 ==> !s.closed && s.capacity - |s.items| <= Awake(s.pushers))
  {
    RunKeepsInv(run, steps, i);
  }

  /** Pushers and poppers never all sleep against each other. */
  lemma NeverAllAsleep<T(!new)>(run: seq<State<T>>, steps: seq<Step<T>>, i: nat)
    requires IsRun(run, steps) && i < |run| && run[0].capacity > 0
    requires Sleeping(run[i].pushers) > 0 && Sleeping(run[i].poppers) > 0
    ensures Awake(run[i].pushers) > 0 || Awake(run[i].poppers) > 0
  {
    RunKeepsInv(run, steps, i);
    CapacityIsFixed(run, steps, i);
  }

  lemma {:induction false} CapacityIsFixed<T(!new)>(run: seq<State<T>>, steps: seq<Step<T>>, i: nat)
    requires IsRun(run, steps) && i < |run|
    ensures run[i].capacity == run[0].capacity
  {
    if i > 0 {
      CapacityIsFixed(run, steps, i - 1);
    }
  }

  /** What was popped is the oldest part of what was pushed; nothing is lost, doubled or reordered. */
  lemma PoppedInOrder<T(!new)>(run: seq<State<T>>, steps: seq<Step<T>>, i: nat)
    requires IsRun(run, steps) && i < |run|
    ensures run[i].popped <= run[i].pushed
    ensures run[i].pushed[|run[i].popped|..] == run[i].items && |run[i].items| <= run[i].capacity
  {
    RunKeepsInv(run, steps, i);
  }
}
