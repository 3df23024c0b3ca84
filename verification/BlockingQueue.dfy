/**
 BlockingQueue as the class it is. A method body is what runs while the mutex is held; a call
 that has to wait leaves its thread on the condition variable and is entered again when woken.
 */
module BlockingQueues {
  import opened Common
  import opened Queue

  datatype PushOutcome = Stored | Refused | PushWaits
  datatype PopOutcome<+T> = Item(value: T) | Drained | PopWaits

  class BlockingQueue<T(!new)> {
    const maxItemCount: nat
    var items: seq<T>
    var closed: bool
    var notFull: Waiters<T>
    var notEmpty: Waiters<()>
    ghost var pushed: seq<T>
    ghost var popped: seq<T>

    ghost function View(): State<T>
      reads this
    {
      State(maxItemCount, items, closed, notFull, notEmpty, pushed, popped)
    }

    constructor (itemCount: nat)
      ensures View() == New(itemCount) && Inv(View())
    {
      maxItemCount := itemCount;
      items, closed, notFull, notEmpty := [], false, map[], map[];
      pushed, popped := [], [];
      new;
      NewInv<T>(itemCount);
    }

    /** Stores the item and wakes one popper, refuses it if closed, or waits for room. */
    method Push(t: Tid, item: T) returns (outcome: PushOutcome, wake: Option<Tid>)
      requires Inv(View()) && (t in notFull ==> notFull[t].Woken?)
      modifies this
      ensures CanWake(old(notEmpty), wake)
      ensures View() == AfterPush(old(View()), t, item, wake) && Inv(View())
      ensures outcome.Stored? <==> !old(closed) && |old(items)| < maxItemCount
      ensures outcome.Refused? <==> old(closed)
      ensures outcome.PushWaits? <==> t in notFull
      ensures items == (if outcome.Stored? then old(items) + [item] else old(items)) && closed == old(closed)
    {
      PushKeepsInvForAll(View(), t, item);
      hide Inv;
      wake := None;
      if w :| w in notEmpty && notEmpty[w].Asleep? {
        wake := Some(w);
      }
      if !(|items| < maxItemCount || closed) {
        notFull := notFull[t := Asleep(item)];
        return PushWaits, wake;
      }
      notFull := notFull - {t};
      if closed {
        return Refused, wake;
      }
      items, pushed := items + [item], pushed + [item];
      notEmpty := NotifyOne(notEmpty, wake);
      return Stored, wake;
    }

    /** Takes the oldest item and wakes one pusher; reports the end only when closed and empty. */
    method Pop(t: Tid) returns (outcome: PopOutcome<T>, wake: Option<Tid>)
      requires Inv(View()) && (t in notEmpty ==> notEmpty[t].Woken?)
      modifies this
      ensures CanWake(old(notFull), wake)
      ensures View() == AfterPop(old(View()), t, wake) && Inv(View())
      ensures outcome.Item? <==> old(items) != []
      ensures outcome.Item? ==> [outcome.value] + items == old(items)
      ensures outcome.Drained? <==> old(items) == [] && old(closed)
      ensures outcome.PopWaits? <==> t in notEmpty
      ensures (outcome.Item? || items == old(items)) && closed == old(closed)
    {
      PopKeepsInvForAll(View(), t);
      hide Inv;
      wake := None;
      if w :| w in notFull && notFull[w].Asleep? {
        wake := Some(w);
      }
      if !(items != [] || closed) {
        notEmpty := notEmpty[t := Asleep(())];
        return PopWaits, wake;
      }
      notEmpty := notEmpty - {t};
      if items == [] {
        return Drained, wake;
      }
      outcome := Item(items[0]);
      items, popped := items[1..], popped + [items[0]];
      notFull := NotifyOne(notFull, wake);
    }

    /** Wakes everybody; from here on nobody waits. */
    method Close()
      requires Inv(View())
      modifies this
      ensures View() == AfterClose(old(View())) && Inv(View())
      ensures Sleeping(notFull) == 0 && Sleeping(notEmpty) == 0
      ensures closed && items == old(items)
    {
      CloseKeepsInv(View());
      closed := true;
      notFull, notEmpty := NotifyAll(notFull), NotifyAll(notEmpty);
    }
  }

  lemma PushKeepsInvForAll<T(!new)>(s: State<T>, t: Tid, item: T)
    requires Inv(s) && (t in s.pushers ==> s.pushers[t].Woken?)
    ensures forall wake :: CanWake(s.poppers, wake) ==> Inv(AfterPush(s, t, item, wake))
  {
    forall wake | CanWake(s.poppers, wake)
      ensures Inv(AfterPush(s, t, item, wake))
    {
      PushKeepsInv(s, t, item, wake);
    }
  }

  lemma PopKeepsInvForAll<T(!new)>(s: State<T>, t: Tid)
    requires Inv(s) && (t in s.poppers ==> s.poppers[t].Woken?)
    ensures forall wake :: CanWake(s.pushers, wake) ==> Inv(AfterPop(s, t, wake))
  {
    forall wake | CanWake(s.pushers, wake)
      ensures Inv(AfterPop(s, t, wake))
    {
      PopKeepsInv(s, t, wake);
    }
  }
}
