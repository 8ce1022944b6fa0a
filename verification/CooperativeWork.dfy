/**
 The work account an operation and its sequential children share
 (src/codec/cooperative.cc, src/codec/cooperative.h).

 An abort may be requested at any await, and whether the reactor wants the
 processor back is decided anew at every question; both are chosen freely here.
 */
module CooperativeWork {
  import opened Units

  class Work {
    const byteQuantum: nat
    const itemQuantum: nat
    var bytesRemaining: nat
    var itemsRemaining: nat
    var abortRequested: bool
    ghost var bytesSpent: nat   // admitted since the reactor was last asked whether it wants the processor
    ghost var itemsSpent: nat
    ghost var leaves: nat       // in so many requests
    ghost var owed: bool        // it wanted the processor and has not had it yet

    /** What was admitted since the reactor was last asked and what is left make up no more than one quantum, and no
        request was free. */
    ghost predicate Balanced()
      reads this
    {
      && bytesSpent + bytesRemaining <= byteQuantum
      && itemsSpent + itemsRemaining <= itemQuantum
      && leaves <= bytesSpent + itemsSpent
    }

    /** And the reactor has had the processor whenever it wanted it: so between two questions there is never more
        than one quantum of admitted work, nor more requests than that has bytes and items. */
    ghost predicate Valid()
      reads this
    {
      Balanced() && !owed
    }

    constructor (byteQuantum: nat, itemQuantum: nat)
      ensures Valid() && this.byteQuantum == byteQuantum && this.itemQuantum == itemQuantum
      ensures bytesSpent == 0 && itemsSpent == 0
    {
      this.byteQuantum, this.itemQuantum := byteQuantum, itemQuantum;
      bytesRemaining, itemsRemaining := byteQuantum, itemQuantum;
      abortRequested, bytesSpent, itemsSpent, leaves, owed := false, 0, 0, 0, false;
    }

    /** Other tasks run; one of them may request the abort. It is never withdrawn. */
    method Await()
      modifies this`abortRequested, this`owed
      ensures (old(abortRequested) ==> abortRequested) && !owed
    {
      var requested: bool := *;
      abortRequested, owed := abortRequested || requested, false;
    }

    /** Asks the reactor whether it wants the processor. */
    method NeedPreempt() returns (wanted: bool)
      modifies this`bytesSpent, this`itemsSpent, this`leaves, this`owed
      ensures bytesSpent == itemsSpent == leaves == 0 && owed == wanted
    {
      wanted := *;
      bytesSpent, itemsSpent, leaves, owed := 0, 0, 0, wanted;
    }

    function Poll(): Result<Unit>
      reads this
    {
      if abortRequested then Err(Aborted) else Ok(Unit)
    }

    predicate Fits(bytes: nat, items: nat)
      reads this
    {
      bytes <= bytesRemaining && items <= itemsRemaining
    }

    /** What a request is charged in items: asking for nothing is still charged. */
    static function Cost(bytes: nat, items: nat): nat {
      if bytes == 0 && items == 0 then 1 else items
    }

    predicate WithinQuantum(bytes: nat, items: nat) {
      bytes <= byteQuantum && items <= itemQuantum
    }

    /** Its precondition is the debit invariant: every call below meets it. */
    method Debit(bytes: nat, items: nat)
      requires Valid() && Fits(bytes, items) && bytes + items > 0
      modifies this`bytesRemaining, this`itemsRemaining, this`bytesSpent, this`itemsSpent, this`leaves
      ensures Valid()
      ensures bytesSpent == old(bytesSpent) + bytes && itemsSpent == old(itemsSpent) + items
    {
      bytesRemaining := bytesRemaining - bytes;
      itemsRemaining := itemsRemaining - items;
      bytesSpent, itemsSpent, leaves := bytesSpent + bytes, itemsSpent + items, leaves + 1;
    }

    method Reset()
      modifies this`bytesRemaining, this`itemsRemaining
      ensures bytesRemaining == byteQuantum && itemsRemaining == itemQuantum
    {
      bytesRemaining, itemsRemaining := byteQuantum, itemQuantum;
    }

    /** What an admitted request did to the account: it was added to what the quantum already bore, or it is the
        first since the reactor was asked again. */
    twostate predicate Bore(bytes: nat, items: nat)
      reads this
    {
      || (bytesSpent == old(bytesSpent) + bytes && itemsSpent == old(itemsSpent) + items)
      || (bytesSpent == bytes && itemsSpent == items)
    }

    /** A whole quantum, and nothing spent since the reactor was asked. */
    ghost predicate Full()
      reads this
    {
      bytesRemaining == byteQuantum && itemsRemaining == itemQuantum && bytesSpent == itemsSpent == 0
    }

    /** Asks the reactor, yields if it wants the processor, and refills the account; an abort noticed first is all
        that can keep it from that. */
    method Checkpoint() returns (r: Result<Unit>)
      requires Balanced()
      modifies this
      ensures Balanced() && (old(abortRequested) ==> abortRequested)
      ensures !old(abortRequested) ==> Full() && !owed
      ensures old(abortRequested) ==> r.Err? && owed == old(owed)
      ensures r.Err? ==> r.error == Aborted && abortRequested
    {
      r := Poll();
      if r.Err? {
        return;
      }
      var preempt := NeedPreempt();
      if !preempt {
        Reset();
      } else {
        Await();
        Reset();
        r := Poll();
      }
    }

    /** Admits a whole leaf's cost before it is performed. An oversized one is refused uncharged, and
        so is any once the abort was requested; nothing else is refused. */
    method Admit(bytes: nat, items: nat) returns (r: Result<Unit>)
      requires Valid()
      modifies this
      ensures Valid() && (old(abortRequested) ==> abortRequested)
      ensures r.Ok? ==> WithinQuantum(bytes, Cost(bytes, items)) && Bore(bytes, Cost(bytes, items))
      ensures r.Err? ==>
        || (r.error == Aborted && abortRequested)
        || (r.error == ResourceExhausted && !WithinQuantum(bytes, Cost(bytes, items)))
    {
      r := Poll();
      if r.Err? {
        return;
      }
      var cost := Cost(bytes, items);
      if !WithinQuantum(bytes, cost) {
        return Err(ResourceExhausted);
      }
      if Fits(bytes, cost) {
        Debit(bytes, cost);
      } else {
        var preempt := NeedPreempt();
        if !preempt {
          Reset();
        } else {
          r := Checkpoint();
          if r.Err? {
            return;
          }
          r := Poll();
          if r.Err? {
            return;
          }
        }
        Debit(bytes, cost);
      }
      Await();
    }

    /** One admitted step of a leaf: the await and the poll after it. */
    method Step(bytes: nat, items: nat) returns (failed: Option<Errc>)
      requires Valid()
      modifies this
      ensures Valid() && (old(abortRequested) ==> abortRequested)
      ensures failed.None? ==> WithinQuantum(bytes, Cost(bytes, items))
      ensures failed.Some? ==>
        || (failed.value == Aborted && abortRequested)
        || (failed.value == ResourceExhausted && !WithinQuantum(bytes, Cost(bytes, items)))
    {
      var admitted := Admit(bytes, items);
      match admitted {
        case Err(error) => return Some(error);
        case Ok(_) =>
      }
      match Poll() {
        case Err(error) => return Some(error);
        case Ok(_) => return None;
      }
    }

    /** The first half of a drain. A false answer has refilled the account, and the other half follows
        with no use of it in between. */
    method TryDrain(bytes: nat, items: nat) returns (done: bool)
      requires Valid() && WithinQuantum(bytes, Cost(bytes, items))
      modifies this`bytesRemaining, this`itemsRemaining, this`bytesSpent, this`itemsSpent, this`leaves, this`owed
      ensures Balanced() && (done <==> !owed)
      ensures if done then Bore(bytes, Cost(bytes, items)) else Full()
    {
      var cost := Cost(bytes, items);
      if Fits(bytes, cost) {
        Debit(bytes, cost);
        return true;
      }
      Reset();
      var preempt := NeedPreempt();
      if preempt {
        return false;
      }
      Debit(bytes, cost);
      return true;
    }

    /** Cleanup: it ignores the abort and cannot fail, but its cost must fit a whole quantum. */
    method Drain(bytes: nat, items: nat)
      requires Valid() && WithinQuantum(bytes, Cost(bytes, items))
      modifies this
      ensures Valid() && (old(abortRequested) ==> abortRequested)
      ensures Bore(bytes, Cost(bytes, items))
    {
      var admitted := TryDrain(bytes, items);
      if !admitted {
        Await();
        Debit(bytes, Cost(bytes, items));
      }
    }

    method DrainCheckpoint()
      requires Valid()
      modifies this
      ensures Valid() && Full() && (old(abortRequested) ==> abortRequested)
    {
      var preempt := NeedPreempt();
      if preempt {
        Await();
      }
      Reset();
    }
  }
}
