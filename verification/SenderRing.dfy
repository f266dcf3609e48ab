/** The ring of send slots between the prefill producer and the sender thread.  The producer fills a slot
    and the sender reads one outside the lock; everything else happens under it. */
module SenderRing {

  /** The slot k places behind slot `head` in a ring of n. */
  function Slot(head: nat, k: nat, n: nat): (r: nat)
    requires n >= 1 && head < n && k <= n
    ensures r < n
    ensures r == (head + k) % n
  {
    if head + k < n then head + k else head + k - n
  }

  /** The queued frames, oldest first. */
  function Live<T>(slots: seq<T>, head: nat, queued: nat): (r: seq<T>)
    requires |slots| >= 1 && head < |slots| && queued <= |slots|
    ensures |r| == queued
  {
    seq(queued, k requires 0 <= k < queued => slots[Slot(head, k, |slots|)])
  }

  lemma SlotsDiffer(head: nat, i: nat, k: nat, n: nat)
    requires n >= 1 && head < n && i < k < n
    ensures Slot(head, i, n) != Slot(head, k, n)
  {
  }

  /** A frame put into the slot after the queued ones is queued last, once it counts. */
  lemma LiveGrows<T>(slots: seq<T>, head: nat, queued: nat, x: T)
    requires |slots| >= 1 && head < |slots| && queued < |slots|
    ensures Live(slots[Slot(head, queued, |slots|) := x], head, queued + 1) == Live(slots, head, queued) + [x]
    ensures Live(slots[Slot(head, queued, |slots|) := x], head, queued) == Live(slots, head, queued)
  {
    forall k: nat | k < queued ensures Slot(head, k, |slots|) != Slot(head, queued, |slots|) {
      SlotsDiffer(head, k, queued, |slots|);
    }
  }

  /** Moving the head on drops the oldest frame and nothing else. */
  lemma LiveShrinks<T>(slots: seq<T>, head: nat, queued: nat)
    requires |slots| >= 1 && head < |slots| && 1 <= queued <= |slots|
    ensures Live(slots, Slot(head, 1, |slots|), queued - 1) == Live(slots, head, queued)[1..]
    ensures Live(slots, head, queued)[0] == slots[head]
  {
    forall k: nat | k < queued - 1 ensures Slot(Slot(head, 1, |slots|), k, |slots|) == Slot(head, k + 1, |slots|) {
    }
  }

  /** What a thread that had to wait, or asks to go on, is told. */
  datatype Turn = Proceed | GiveUp

  datatype ProducerPhase = Outside | Filling
  datatype SenderPhase = Waiting | Reading | Written | Gone

  class Ring<T(!new)> {
    const slots: array<T>
    var head: nat
    var tail: nat
    var queued: nat
    var producerDone: bool
    var stop: bool
    var failed: bool
    ghost var producer: ProducerPhase
    ghost var sender: SenderPhase
    ghost var submitted: seq<T>
    ghost var sent: seq<T>

    /** The ring is a bounded FIFO queue: what was submitted is what was sent followed by what is queued;
        a frame that was written but not yet released is still the oldest queued one. */
    ghost predicate Valid()
      reads this, slots
    {
      && slots.Length >= 1
      && head < slots.Length && queued <= slots.Length
      && tail == Slot(head, queued, slots.Length)
      && (producer.Filling? ==> queued < slots.Length)
      && (sender.Reading? || sender.Written? ==> queued > 0)
      && submitted == sent + Queue()[if sender.Written? then 1 else 0..]
    }

    ghost function Queue(): seq<T>
      reads this, slots
      requires slots.Length >= 1 && head < slots.Length && queued <= slots.Length
    {
      Live(slots[..], head, queued)
    }

    /** The slot the producer fills is never one the sender may be reading. */
    ghost predicate SlotsApart()
      reads this
    {
      producer.Filling? && (sender.Reading? || sender.Written?) ==> tail != head
    }

    /** Whatever the interleaving, the two unlocked accesses never meet. */
    lemma NeverTheSameSlot()
      requires Valid()
      ensures SlotsApart()
    {
      if queued > 0 && queued < slots.Length { SlotsDiffer(head, 0, queued, slots.Length); }
    }

    constructor (buffers: array<T>)
      requires buffers.Length >= 1
      ensures Valid() && slots == buffers && Queue() == [] && submitted == [] && sent == []
      ensures producer.Outside? && sender.Waiting? && !producerDone && !stop && !failed
    {
      slots := buffers;
      head, tail, queued := 0, 0, 0;
      producerDone, stop, failed := false, false, false;
      producer, sender, submitted, sent := Outside, Waiting, [], [];
    }

    /** The wait ends when there is room or the sender stopped. */
    method AcquireSlot() returns (turn: Turn, slot: nat)
      requires Valid() && producer.Outside? && (stop || queued < slots.Length)
      modifies this`producer
      ensures Valid()
      ensures turn.Proceed? <==> !stop && !failed
      ensures turn.Proceed? ==> producer.Filling? && slot == tail
      ensures turn.GiveUp? ==> producer.Outside?
    {
      slot := tail;
      if stop || failed {
        return GiveUp, slot;
      }
      producer := Filling;
      turn := Proceed;
    }

    /** Filling happens outside the lock, while the sender may be reading the slot at the head. */
    method Fill(x: T)
      requires Valid() && producer.Filling?
      modifies slots
      ensures Valid() && Queue() == old(Queue())
      ensures slots[tail] == x && forall k :: 0 <= k < slots.Length && k != tail ==> slots[k] == old(slots[k])
      ensures queued > 0 ==> slots[head] == old(slots[head])
    {
      if queued > 0 { SlotsDiffer(head, 0, queued, slots.Length); }
      LiveGrows(slots[..], head, queued, x);
      slots[tail] := x;
      assert slots[..] == old(slots[..])[tail := x];
    }

    method EnqueueSlot() returns (turn: Turn)
      requires Valid() && producer.Filling?
      modifies this`producer, this`tail, this`queued, this`submitted
      ensures Valid() && producer.Outside?
      ensures turn.Proceed? <==> !stop && !failed
      ensures Queue() == if turn.Proceed? then old(Queue()) + [slots[old(tail)]] else old(Queue())
      ensures submitted == if turn.Proceed? then old(submitted) + [slots[old(tail)]] else old(submitted)
    {
      producer := Outside;
      if stop || failed {
        return GiveUp;
      }
      LiveGrows(slots[..], head, queued, slots[tail]);
      assert slots[..][tail := slots[tail]] == slots[..];
      submitted := submitted + [slots[tail]];
      TailMoves(head, queued, slots.Length);
      tail := (tail + 1) % slots.Length;
      queued := queued + 1;
      turn := Proceed;
    }

    method Finish()
      requires Valid()
      modifies this`producerDone
      ensures Valid() && producerDone
    {
      producerDone := true;
    }

    /** The producer gives up, perhaps with a slot in hand. */
    method Cancel()
      requires Valid()
      modifies this`producer, this`producerDone, this`stop
      ensures Valid() && producerDone && stop && producer.Outside?
    {
      producerDone, stop, producer := true, true, Outside;
    }

    /** The sender's wait ends when something is queued, or nothing more will be. */
    method NextSlot() returns (turn: Turn)
      requires Valid() && sender.Waiting? && (stop || queued != 0 || producerDone)
      modifies this`sender
      ensures Valid()
      ensures turn.GiveUp? <==> stop || (queued == 0 && producerDone)
      ensures turn.Proceed? ==> sender.Reading?
      ensures turn.GiveUp? ==> sender.Gone?
      ensures turn.GiveUp? && !stop ==> sent == submitted
    {
      if stop || (queued == 0 && producerDone) {
        sender := Gone;
        assert queued == 0 ==> Queue() == [];
        return GiveUp;
      }
      sender := Reading;
      turn := Proceed;
    }

    /** Writing the frame happens outside the lock, while the producer may be filling the slot at the tail. */
    method SendSlot() returns (x: T)
      requires Valid() && sender.Reading?
      modifies this`sender, this`sent
      ensures Valid() && sender.Written?
      ensures x == old(Queue())[0] && sent == old(sent) + [x] && sent <= submitted
    {
      LiveShrinks(slots[..], head, queued);
      x := slots[head];
      sent := sent + [x];
      sender := Written;
    }

    method SendFails()
      requires Valid() && sender.Reading?
      modifies this`sender, this`failed, this`stop
      ensures Valid() && sender.Gone? && failed && stop
    {
      sender, failed, stop := Gone, true, true;
    }

    method ReleaseSlot()
      requires Valid() && sender.Written?
      modifies this`sender, this`head, this`queued
      ensures Valid() && sender.Waiting? && Queue() == old(Queue())[1..]
    {
      LiveShrinks(slots[..], head, queued);
      HeadMoves(head, queued, slots.Length);
      head := (head + 1) % slots.Length;
      queued := queued - 1;
      sender := Waiting;
    }
  }

  lemma TailMoves(head: nat, queued: nat, n: nat)
    requires n >= 1 && head < n && queued < n
    ensures (Slot(head, queued, n) + 1) % n == Slot(head, queued + 1, n)
  {
    assert Slot(Slot(head, queued, n), 1, n) == Slot(head, queued + 1, n);
  }

  /** Releasing the oldest slot leaves the tail where it is. */
  lemma HeadMoves(head: nat, queued: nat, n: nat)
    requires n >= 1 && head < n && 1 <= queued <= n
    ensures (head + 1) % n == Slot(head, 1, n)
    ensures Slot(Slot(head, 1, n), queued - 1, n) == Slot(head, queued, n)
  {
  }
}
