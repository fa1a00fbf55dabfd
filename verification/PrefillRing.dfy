/** The bounded ring between the prefill producer and the sender thread
    (dist_prefill_sender and its helpers in ds4_distributed.c).

    `Ring` is the value guarded by the sender's mutex; every function on it is one
    critical section.  `SenderRing` is the same ring updated in place. */
module PrefillRing {

  import opened Wrappers

  /** A slot holds the request id that the producer last wrote there. */
  datatype Ring = Ring(
    slots: seq<Option<nat>>,
    head: nat,
    tail: nat,
    queued: nat,
    producerDone: bool,
    stop: bool)

  /** Ring index arithmetic: one wrap is enough because both arguments stay within the ring. */
  function Advance(at: nat, hops: nat, slotCount: nat): (i: nat)
    requires at < slotCount && hops <= slotCount
    ensures i == if at + hops < slotCount then at + hops else at + hops - slotCount
    ensures i < slotCount
  {
    (at + hops) % slotCount
  }

  ghost predicate RingOk(r: Ring) {
    && r.head < |r.slots|
    && r.queued <= |r.slots|
    && r.tail == Advance(r.head, r.queued, |r.slots|)
  }

  function InitRing(slotCount: nat): (r: Ring)
    requires 0 < slotCount
    ensures RingOk(r) && |r.slots| == slotCount && Queue(r) == []
  {
    Ring(seq(slotCount, _ => None), 0, 0, 0, false, false)
  }

  /** The queued slots, oldest first. */
  ghost function Queue(r: Ring): (q: seq<Option<nat>>)
    requires RingOk(r)
    ensures |q| == r.queued
  {
    seq(r.queued, i requires 0 <= i < r.queued => r.slots[Advance(r.head, i, |r.slots|)])
  }

  /** The producer writes the slot it acquired. */
  function FillTail(r: Ring, request: nat): Ring
    requires r.tail < |r.slots|
  {
    r.(slots := r.slots[r.tail := Some(request)])
  }

  function Enqueue(r: Ring): Ring
    requires r.tail < |r.slots|
  {
    r.(tail := Advance(r.tail, 1, |r.slots|), queued := r.queued + 1)
  }

  function Release(r: Ring): Ring
    requires r.head < |r.slots| && 0 < r.queued
  {
    r.(head := Advance(r.head, 1, |r.slots|), queued := r.queued - 1)
  }

  function Finish(r: Ring): Ring {
    r.(producerDone := true)
  }

  function Cancel(r: Ring): Ring {
    r.(producerDone := true, stop := true)
  }

  /** While the ring is not full the producer's slot is outside the queue, so writing it
      changes nothing that the sender may be transmitting. */
  lemma FillKeepsQueue(r: Ring, request: nat)
    requires RingOk(r) && r.queued < |r.slots|
    ensures RingOk(FillTail(r, request))
    ensures Queue(FillTail(r, request)) == Queue(r)
    ensures 0 < r.queued ==> r.tail != r.head
  {
  }

  lemma EnqueueAppends(r: Ring)
    requires RingOk(r) && r.queued < |r.slots|
    ensures RingOk(Enqueue(r))
    ensures Queue(Enqueue(r)) == Queue(r) + [r.slots[r.tail]]
  {
    var q, q' := Queue(r), Queue(Enqueue(r));
    assert forall i | 0 <= i < r.queued :: q'[i] == q[i];
  }

  lemma ReleaseDropsOldest(r: Ring)
    requires RingOk(r) && 0 < r.queued
    ensures RingOk(Release(r))
    ensures Queue(r)[0] == r.slots[r.head]
    ensures Queue(Release(r)) == Queue(r)[1..]
  {
    var q, q' := Queue(r), Queue(Release(r));
    assert forall i | 0 <= i < r.queued - 1 :: q'[i] == q[i + 1];
  }

  /** What a thread learns when it takes the ring's mutex. */
  datatype Wake = Blocked | Stopped | Ready(slot: nat)

  /** The sender structure itself, with its slot array updated in place.  A blocking wait
      is a call that answers `Blocked` and is repeated after the condition is signalled. */
  class SenderRing {
    const slots: array<Option<nat>>
    var head: nat
    var tail: nat
    var queued: nat
    var producerDone: bool
    var stop: bool

    ghost function View(): Ring
      reads this, slots
    {
      Ring(slots[..], head, tail, queued, producerDone, stop)
    }

    ghost predicate Valid()
      reads this, slots
    {
      RingOk(View())
    }

    constructor (slotCount: nat)
      requires 0 < slotCount
      ensures Valid() && fresh(slots)
      ensures View() == InitRing(slotCount)
    {
      slots := new Option<nat>[slotCount](_ => None);
      head, tail, queued := 0, 0, 0;
      producerDone, stop := false, false;
    }

    method AcquireSlot() returns (w: Wake)
      requires Valid()
      ensures w == if stop then Stopped else if queued == slots.Length then Blocked else Ready(tail)
      ensures w.Ready? ==> w.slot < slots.Length && (0 < queued ==> w.slot != head)
    {
      if !stop && queued == slots.Length {
        return Blocked;
      }
      if stop {
        return Stopped;
      }
      FillKeepsQueue(View(), 0);
      w := Ready(tail);
    }

    /** The producer fills the slot outside the mutex. */
    method FillSlot(request: nat)
      requires Valid() && queued < slots.Length
      modifies slots
      ensures Valid()
      ensures View() == FillTail(old(View()), request)
      ensures Queue(View()) == old(Queue(View()))
    {
      FillKeepsQueue(View(), request);
      slots[tail] := Some(request);
    }

    method EnqueueSlot() returns (ok: bool)
      requires Valid() && queued < slots.Length
      modifies this
      ensures Valid()
      ensures ok == !old(stop)
      ensures View() == if ok then Enqueue(old(View())) else old(View())
      ensures ok ==> Queue(View()) == old(Queue(View())) + [old(slots[tail])]
    {
      if stop {
        return false;
      }
      EnqueueAppends(View());
      tail := (tail + 1) % slots.Length;
      queued := queued + 1;
      ok := true;
    }

    method TakeSlot() returns (w: Wake)
      requires Valid()
      ensures w == if stop || (queued == 0 && producerDone) then Stopped
                   else if queued == 0 then Blocked else Ready(head)
      ensures w.Ready? ==> w.slot < slots.Length && slots[w.slot] == Queue(View())[0]
    {
      if !stop && queued == 0 && !producerDone {
        return Blocked;
      }
      if stop || (queued == 0 && producerDone) {
        return Stopped;
      }
      ReleaseDropsOldest(View());
      w := Ready(head);
    }

    method ReleaseSlot()
      requires Valid() && 0 < queued
      modifies this
      ensures Valid()
      ensures View() == Release(old(View()))
      ensures Queue(View()) == old(Queue(View()))[1..]
    {
      ReleaseDropsOldest(View());
      head := (head + 1) % slots.Length;
      queued := queued - 1;
    }

    method FinishProducer()
      requires Valid()
      modifies this
      ensures Valid() && View() == Finish(old(View()))
    {
      producerDone := true;
    }

    method CancelSending()
      requires Valid()
      modifies this
      ensures Valid() && View() == Cancel(old(View()))
    {
      producerDone := true;
      stop := true;
    }
  }
}
