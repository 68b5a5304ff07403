/** geth_rx_refill and the consuming loop of geth_rx over the descriptor ring. */
module GmacDriver {
  import opened GmacRing
  import opened GmacRx

  /** `n` submissions in a row. */
  function SubmitMany(r: Ring, c: Coal, n: nat): (Ring, Coal) {
    if n == 0 then (r, c)
    else
      var (r1, c1) := SubmitMany(r, c, n - 1);
      (Submit(r1, c1), SubmitCoal(c1))
  }

  // ------------------------------------------------------------------ slots and positions

  /** The OWN bits are those of the submitted descriptors the DMA has not completed. */
  predicate OwnIs(own: seq<bool>, r: Ring) {
    r.size > 0 && |own| == r.size && forall i :: 0 <= i < |own| ==> own[i] == Owned(r, i)
  }

  /** Every outstanding descriptor has its buffer and its interrupt bit in its slot. */
  ghost predicate HeldIs(skb: seq<bool>, silent: seq<bool>, r: Ring) {
    && r.size > 0 && |skb| == |silent| == r.size && |r.subs| == r.clean
    && forall k: nat :: r.dirty <= k < r.clean ==> skb[k % r.size] && silent[k % r.size] == r.subs[k].silent
  }

  /** Of the completed descriptors from `from` that were taken, the bad ones keep their buffers. */
  ghost predicate TakenIs(skb: seq<bool>, bad: seq<bool>, r: Ring, from: nat) {
    && r.size > 0 && |skb| == |bad| == r.size
    && forall k: nat :: from <= k < r.dirty && k < r.done ==> skb[k % r.size] == bad[k % r.size]
  }

  /** Positions of one lap of the ring have different indices. */
  lemma OtherIndex(a: nat, size: nat)
    requires size > 0
    ensures forall k: nat :: (a < k < a + size || k < a < k + size) ==> k % size != a % size
  {
    forall k: nat | (a < k < a + size || k < a < k + size) && k % size == a % size ensures false {
      if a < k {
        IndexIsInjective(a, k, size);
      } else {
        IndexIsInjective(k, a, size);
      }
    }
  }

  lemma SameIndex(i: nat, size: nat)
    requires i < size
    ensures i % size == i
  {
    ModIs(i, size, 0, i);
  }

  lemma OwnAfterDma(own: seq<bool>, r: Ring)
    requires OwnIs(own, r) && r.done < r.clean <= r.done + r.size
    ensures OwnIs(own[r.done % r.size := false], r.(done := r.done + 1))
  {
    var r' := r.(done := r.done + 1);
    forall i | 0 <= i < r.size ensures own[r.done % r.size := false][i] == Owned(r', i) {
      SameIndex(i, r.size);
      OtherIndex(r.done, r.size);
      if Owned(r, i) && i != r.done % r.size {
        var k :| r.done <= k < r.clean && Meets(r, i, k);
        assert Meets(r', i, k);
      }
      if Owned(r', i) {
        var k :| r'.done <= k < r'.clean && Meets(r', i, k);
        assert Meets(r, i, k);
      }
    }
  }

  lemma OwnAfterSubmit(own: seq<bool>, r: Ring, r': Ring)
    requires OwnIs(own, r) && r.done <= r.clean && r'.size == r.size && r'.done == r.done && r'.clean == r.clean + 1
    ensures OwnIs(own[r.clean % r.size := true], r')
  {
    forall i | 0 <= i < r.size ensures own[r.clean % r.size := true][i] == Owned(r', i) {
      SameIndex(i, r.size);
      if Owned(r, i) {
        var k :| r.done <= k < r.clean && Meets(r, i, k);
        assert Meets(r', i, k);
      }
      if i == r.clean % r.size {
        assert Meets(r', i, r.clean);
      }
      if Owned(r', i) && i != r.clean % r.size {
        var k :| r'.done <= k < r'.clean && Meets(r', i, k);
        assert Meets(r, i, k);
      }
    }
  }

  lemma OwnAfterTake(own: seq<bool>, r: Ring)
    requires OwnIs(own, r)
    ensures OwnIs(own, r.(dirty := r.dirty + 1))
  {
    var r' := r.(dirty := r.dirty + 1);
    forall i | 0 <= i < r.size ensures Owned(r', i) == Owned(r, i) {
      assert forall k :: Meets(r', i, k) == Meets(r, i, k);
    }
  }

  lemma NothingOwned(own: seq<bool>, r: Ring)
    requires r.size > 0 && |own| == r.size && r.done == r.clean && forall i :: 0 <= i < |own| ==> !own[i]
    ensures OwnIs(own, r)
  {
  }

  /** What rx_dirty sees of a ring in order: OWN exactly when all before it is completed and it
      is not. */
  lemma OwnAtDirty(own: seq<bool>, r: Ring)
    requires OwnIs(own, r) && RingOk(r, 0)
    ensures own[r.dirty % r.size] <==> r.dirty == r.done < r.clean
  {
    SameIndex(r.dirty % r.size, r.size);
    OtherIndex(r.dirty, r.size);
    if r.dirty == r.done < r.clean {
      assert Meets(r, r.dirty % r.size, r.dirty);
    }
  }

  lemma HeldAfterSubmit(skb: seq<bool>, silent: seq<bool>, r: Ring, c: Coal)
    requires HeldIs(skb, silent, r) && r.dirty <= r.clean < r.dirty + r.size && skb[r.clean % r.size]
    ensures HeldIs(skb, silent[r.clean % r.size := !Interrupts(c)], Submit(r, c))
  {
    OtherIndex(r.clean, r.size);
  }

  lemma HeldAfterTake(skb: seq<bool>, silent: seq<bool>, r: Ring, b: bool)
    requires HeldIs(skb, silent, r) && r.clean <= r.dirty + r.size
    ensures HeldIs(skb[r.dirty % r.size := b], silent, r.(dirty := r.dirty + 1))
  {
    OtherIndex(r.dirty, r.size);
  }

  lemma TakenAfterTake(skb: seq<bool>, bad: seq<bool>, r: Ring, from: nat, b: bool)
    requires TakenIs(skb, bad, r, from) && from <= r.dirty
    requires if skb[r.dirty % r.size] then b == bad[r.dirty % r.size] else !b && r.done <= r.dirty
    ensures TakenIs(skb[r.dirty % r.size := b], bad, r.(dirty := r.dirty + 1), from)
  {
  }

  /** In order up to the last completed descriptor; past it nothing is outstanding. */
  ghost predicate InOrderOrEmpty(skb: seq<bool>, silent: seq<bool>, r: Ring) {
    if r.dirty <= r.done then RingOk(r, 0) && HeldIs(skb, silent, r) else r.done == r.clean
  }

  lemma TakeKeeps(own: seq<bool>, skb: seq<bool>, silent: seq<bool>, bad: seq<bool>, r: Ring, from: nat)
    requires OwnIs(own, r) && InOrderOrEmpty(skb, silent, r) && TakenIs(skb, bad, r, from) && from <= r.dirty
    requires !own[r.dirty % r.size]
    ensures var e, r' := r.dirty % r.size, r.(dirty := r.dirty + 1);
            var after := skb[e := skb[e] && bad[e]];
            && OwnIs(own, r') && InOrderOrEmpty(after, silent, r') && TakenIs(after, bad, r', from)
            && (r'.dirty <= r.done ==> skb[e])
  {
    var e := r.dirty % r.size;
    OwnAfterTake(own, r);
    if r.dirty <= r.done {
      OwnAtDirty(own, r);
    }
    if r.dirty < r.done {
      HeldAfterTake(skb, silent, r, bad[e]);
    }
    TakenAfterTake(skb, bad, r, from, skb[e] && bad[e]);
  }

  class Driver {
    const size: nat
    const own: array<bool>
    const skb: array<bool>
    const silent: array<bool>
    const bad: array<bool>
    var rxClean: nat
    var rxDirty: nat
    var dma: nat  // the descriptor the hardware is at
    var coal: Coal
    ghost var ring: Ring

    /** The indices and OWN bits are those of the positions in `ring`, in order or not. */
    ghost predicate Linked()
      reads this, own
    {
      && 0 < size < Pow2(WORD) && own.Length == skb.Length == silent.Length == bad.Length == size
      && own != skb && own != silent && own != bad && skb != silent && skb != bad && silent != bad
      && ring.size == size && ring.done <= ring.clean && OwnIs(own[..], ring)
      && rxClean == ring.clean % size && rxDirty == ring.dirty % size && dma == ring.done % size
    }

    ghost predicate Valid()
      reads this, own, skb, silent
    {
      Linked() && RingOk(ring, 0) && HeldIs(skb[..], silent[..], ring)
    }

    constructor (size: nat)
      requires 0 < size < Pow2(WORD)
      ensures Valid() && fresh(own) && fresh(skb) && fresh(silent) && fresh(bad)
      ensures ring == Ring(size, 0, 0, 0, []) && coal == Coal(false, 0, 0, 0, 0)
    {
      this.size := size;
      own := new bool[size](_ => false);
      skb := new bool[size](_ => false);
      silent := new bool[size](_ => false);
      bad := new bool[size](_ => false);
      rxClean, rxDirty, dma := 0, 0, 0;
      coal := Coal(false, 0, 0, 0, 0);
      ring := Ring(size, 0, 0, 0, []);
      new;
      NothingOwned(own[..], ring);
    }

    /** The hardware: the oldest descriptor it owns is written, with an error or without. */
    method DmaCompletes(error: bool)
      requires Valid() && ring.done < ring.clean
      modifies this`dma, this`ring, own, bad
      ensures Valid() && ring == old(ring).(done := old(ring).done + 1)
    {
      OwnAfterDma(own[..], ring);
      IncIsNext(ring.done, size);
      ghost var bits := own[..];
      own[dma], bad[dma] := false, error;
      assert own[..] == bits[dma := false];
      dma := CircInc(dma, size);
      ring := ring.(done := ring.done + 1);
    }

    /** The locked section of the refill loop: interrupt bit, ownership and rx_clean together. */
    method SubmitOne()
      requires Valid() && skb[rxClean] && ring.clean < ring.dirty + size - 1
      modifies this`rxClean, this`coal, this`ring, own, silent
      ensures Valid() && ring == Submit(old(ring), old(coal)) && coal == SubmitCoal(old(coal))
      ensures own[old(rxClean)]
    {
      var frames := if coal.high then FRAMES_HIGH else 1;
      var count := coal.count + 1;
      var setIc := count >= frames;
      if setIc {
        count := 0;
      }
      OwnAfterSubmit(own[..], ring, Submit(ring, coal));
      HeldAfterSubmit(skb[..], silent[..], ring, coal);
      IncIsNext(ring.clean, size);
      ghost var bits, silents := own[..], silent[..];
      ring := Submit(ring, coal);
      coal := coal.(count := count);
      silent[rxClean] := !setIc;
      own[rxClean] := true;
      assert own[..] == bits[rxClean := true] && silent[..] == silents[rxClean := !setIc];
      rxClean := CircInc(rxClean, size);
    }

    /** A buffer for the slot rx_clean is at. */
    method Allocate()
      requires Valid()
      modifies skb
      ensures Valid() && skb[rxClean]
    {
      ghost var before := skb[..];
      skb[rxClean] := true;
      assert skb[..] == before[rxClean := true];
    }

    /** geth_rx_refill. `supply` buffers can be allocated; the loop ends with a full ring or
        when the next slot needs a buffer that cannot be had. */
    method Refill(supply: nat) returns (n: nat)
      requires Valid()
      modifies this`rxClean, this`coal, this`ring, own, skb, silent
      ensures Valid()
      ensures (ring, coal) == SubmitMany(old(ring), old(coal), n)
      ensures ring.clean == ring.dirty + size - 1 || (n >= supply && !skb[rxClean])
    {
      n := 0;
      var left := supply;
      ghost var r, c := ring, coal;
      while CircSpace(rxClean, rxDirty, size) > 0
        invariant Valid() && ring.dirty == r.dirty && left <= supply <= left + n
        invariant (ring, coal) == SubmitMany(r, c, n)
        decreases ring.dirty + size - ring.clean
      {
        RefillGuard(rxClean, rxDirty, size);
        FullByIndex(ring.dirty, ring.clean, size);
        if !skb[rxClean] {
          if left == 0 {
            return;
          }
          left := left - 1;
          Allocate();
        }
        SubmitOne();
        n := n + 1;
      }
      RefillGuard(rxClean, rxDirty, size);
      FullByIndex(ring.dirty, ring.clean, size);
    }

    /** The consuming loop of geth_rx. While a descriptor is still with the DMA, or the budget
        ends it first, it takes exactly the completed ones and the ring stays in order. These
        are the only calls after which it is: with budget left and nothing outstanding, it
        takes at least one slot that holds no submitted descriptor. */
    method Receive(limit: nat) returns (rxcount: nat)
      requires Valid()
      modifies this`rxDirty, this`ring, skb
      ensures Linked() && ring == old(ring).(dirty := old(ring).dirty + rxcount) && rxcount <= limit
      ensures var done := old(ring).done - old(ring).dirty;
              && (Valid() <==> limit <= done || old(ring).dirty + done < ring.clean)
              && rxcount >= (if limit < done then limit else done)
              && (rxcount > done <==> done < limit && old(ring).dirty + done == ring.clean)
      ensures TakenIs(skb[..], bad[..], ring, old(ring).dirty)
    {
      rxcount := 0;
      ghost var r := ring;
      while rxcount < limit
        invariant Linked() && rxcount <= limit && ring == r.(dirty := r.dirty + rxcount)
        invariant InOrderOrEmpty(skb[..], silent[..], ring)
        invariant TakenIs(skb[..], bad[..], ring, r.dirty)
      {
        if ring.dirty <= r.done {
          OwnAtDirty(own[..], ring);
        }
        if own[rxDirty] {
          break;
        }
        var more := Take(r.dirty);
        rxcount := rxcount + 1;
        if !more {
          break;
        }
      }
    }

    /** One slot: rx_dirty moves on, and its buffer goes to the stack unless the frame was bad.
        A slot without a buffer ends the loop. */
    method Take(ghost from: nat) returns (more: bool)
      requires Linked() && !own[rxDirty] && from <= ring.dirty
      requires InOrderOrEmpty(skb[..], silent[..], ring) && TakenIs(skb[..], bad[..], ring, from)
      modifies this`rxDirty, this`ring, skb
      ensures Linked() && ring == old(ring).(dirty := old(ring).dirty + 1)
      ensures InOrderOrEmpty(skb[..], silent[..], ring) && TakenIs(skb[..], bad[..], ring, from)
      ensures ring.dirty <= ring.done ==> more
    {
      TakeKeeps(own[..], skb[..], silent[..], bad[..], ring, from);
      IncIsNext(ring.dirty, size);
      more := HandOver(rxDirty);
      rxDirty := CircInc(rxDirty, size);
      ring := ring.(dirty := ring.dirty + 1);
    }

    method HandOver(entry: nat) returns (more: bool)
      requires entry < skb.Length && bad.Length == skb.Length && skb != bad
      modifies skb
      ensures more == old(skb[entry]) && skb[..] == old(skb[..])[entry := old(skb[entry]) && bad[entry]]
    {
      more := skb[entry];
      if skb[entry] && !bad[entry] {
        skb[entry] := false;
      }
    }
  }
}
