/** The reference-counted packet pool of linkg_packet_pool.c. Alloc and push run under the
    pool lock; retaining and dropping a reference do not, so a packet whose count has
    reached zero is for a while neither referenced nor free. */
module PacketPool {

  const ALIGNMENT: nat := 64
  const UINT32_MAX: nat := 0xFFFF_FFFF

  // ------------------------------------------------------------------ slot layout

  datatype Layout = Invalid | Overflow | Layout(count: nat, slotSize: nat, stride: nat, headroom: nat)

  /** (size + 63) & ~63 */
  function AlignUp(size: nat): nat { (size + ALIGNMENT - 1) / ALIGNMENT * ALIGNMENT }

  /** The size checks of pool_init; `sizeMax` is the platform's SIZE_MAX. */
  function LayoutOf(count: nat, slotSize: nat, headroom: nat, sizeMax: nat): Layout {
    if count == 0 || slotSize == 0 || headroom >= slotSize then Invalid
    else if slotSize > UINT32_MAX - (ALIGNMENT - 1) then Overflow
    else if AlignUp(slotSize) > 0 && count > sizeMax / AlignUp(slotSize) then Overflow
    else Layout(count, slotSize, AlignUp(slotSize), headroom)
  }

  lemma AlignUpIs(size: nat)
    ensures AlignUp(size) % ALIGNMENT == 0 && size <= AlignUp(size) < size + ALIGNMENT
  {
  }

  lemma ScaledApart(i: nat, j: nat, stride: nat)
    requires i < j
    ensures i * stride + stride <= j * stride
  {
    var d: nat := j - i - 1;
    assert j * stride == i * stride + stride + d * stride;
  }

  /** Every accepted layout gives 64-byte aligned slots that neither overlap nor leave the
      region, whose size fits in memory. */
  lemma SlotsAreDisjoint(count: nat, slotSize: nat, headroom: nat, sizeMax: nat, i: nat, j: nat)
    requires LayoutOf(count, slotSize, headroom, sizeMax).Layout? && i < j < count
    ensures var l := LayoutOf(count, slotSize, headroom, sizeMax);
            && l.stride % ALIGNMENT == 0 && (i * l.stride) % ALIGNMENT == 0 && l.stride <= UINT32_MAX
            && i * l.stride + slotSize <= j * l.stride
            && j * l.stride + slotSize <= count * l.stride <= sizeMax
            && l.headroom < slotSize
  {
    var stride := AlignUp(slotSize);
    AlignUpIs(slotSize);
    ScaledApart(i, j, stride);
    ScaledApart(j, count, stride);
    assert count * stride <= sizeMax by {
      assert count <= sizeMax / stride;
      QuotientBound(sizeMax, count, stride);
    }
    MultipleOfAligned(i, stride / ALIGNMENT);
    assert stride == stride / ALIGNMENT * ALIGNMENT;
    assert i * stride == i * (stride / ALIGNMENT) * ALIGNMENT;
  }

  lemma QuotientBound(total: nat, a: nat, b: nat)
    requires b > 0 && a <= total / b
    ensures a * b <= total
  {
    var q := total / b;
    assert total == q * b + total % b;
    assert (q - a) * b >= 0;
    assert q * b == a * b + (q - a) * b;
  }

  lemma MultipleOfAligned(i: nat, k: nat)
    ensures (i * k * ALIGNMENT) % ALIGNMENT == 0
  {
  }

  // ------------------------------------------------------------------ the pool

  datatype Meta = Meta(offset: nat, length: nat, flags: nat)

  /** `free` is the stack, its top last. `limbo` holds packets between count zero and push. */
  datatype Pool = Pool(headroom: nat, free: seq<nat>, counts: seq<nat>, meta: seq<Meta>, limbo: set<nat>)

  function FreshMeta(headroom: nat): Meta { Meta(headroom, 0, 0) }

  predicate Inv(s: Pool) {
    && |s.meta| == |s.counts|
    && (forall k :: 0 <= k < |s.free| ==> s.free[k] < |s.counts| && s.counts[s.free[k]] == 0 && s.free[k] !in s.limbo)
    && (forall j, k :: 0 <= j < k < |s.free| ==> s.free[j] != s.free[k])
    && (forall p :: p in s.limbo ==> p < |s.counts| && s.counts[p] == 0)
    && Covered(s)
  }

  /** No packet is lost. */
  predicate Covered(s: Pool) {
    forall p :: 0 <= p < |s.counts| ==> s.counts[p] > 0 || p in s.limbo || p in s.free
  }

  function Initial(count: nat, headroom: nat): Pool {
    Pool(headroom, seq(count, i => i), seq(count, _ => 0), seq(count, _ => FreshMeta(headroom)), {})
  }

  lemma InitialInv(count: nat, headroom: nat)
    ensures Inv(Initial(count, headroom))
  {
    var s := Initial(count, headroom);
    forall p | 0 <= p < |s.counts| ensures p in s.free {
      assert s.free[p] == p;
    }
  }

  // ------------------------------------------------------------------ steps

  datatype Step = Alloc | Retain(p: nat) | Drop(p: nat) | Push(p: nat) | Edit(p: nat, meta: Meta)

  /** Only a packet somebody holds is retained, dropped or edited; only the thread that took
      the count to zero pushes. */
  predicate Enabled(s: Pool, step: Step) {
    match step
    case Alloc => true
    case Retain(p) => p < |s.counts| && s.counts[p] > 0
    case Drop(p) => p < |s.counts| && s.counts[p] > 0
    case Push(p) => p in s.limbo
    case Edit(p, _) => p < |s.counts| && p < |s.meta| && s.counts[p] > 0
  }

  /** Stack entries name packets. */
  predicate Named(s: Pool) {
    |s.meta| == |s.counts| && forall k :: 0 <= k < |s.free| ==> s.free[k] < |s.counts|
  }

  function Allocated(s: Pool): (r: Pool)
    requires Named(s) && s.free != []
    ensures Named(r) && |r.counts| == |s.counts|
  {
    var p := s.free[|s.free| - 1];
    s.(free := s.free[..|s.free| - 1], counts := s.counts[p := 1], meta := s.meta[p := FreshMeta(s.headroom)])
  }

  function Pushed(s: Pool, p: nat): (r: Pool)
    requires Named(s) && p < |s.counts|
    ensures Named(r) && |r.counts| == |s.counts|
  {
    var s1 := s.(limbo := s.limbo - {p}, meta := s.meta[p := FreshMeta(s.headroom)]);
    if |s.free| < |s.counts| then s1.(free := s.free + [p]) else s1
  }

  function Dropped(s: Pool, p: nat): (r: Pool)
    requires Named(s) && p < |s.counts| && s.counts[p] > 0
    ensures Named(r) && |r.counts| == |s.counts|
  {
    s.(counts := s.counts[p := s.counts[p] - 1], limbo := if s.counts[p] == 1 then s.limbo + {p} else s.limbo)
  }

  function Exec(s: Pool, step: Step): (r: Pool)
    requires Named(s) && Enabled(s, step)
    ensures Named(r) && |r.counts| == |s.counts|
  {
    match step
    case Alloc => if s.free == [] then s else Allocated(s)
    case Retain(p) => s.(counts := s.counts[p := s.counts[p] + 1])
    case Drop(p) => Dropped(s, p)
    case Push(p) => if p < |s.counts| then Pushed(s, p) else s
    case Edit(p, m) => s.(meta := s.meta[p := m])
  }

  // ------------------------------------------------------------------ conservation

  function Referenced(counts: seq<nat>): nat {
    if counts == [] then 0 else Referenced(counts[..|counts| - 1]) + (if counts[|counts| - 1] > 0 then 1 else 0)
  }

  ghost function ReferencedSet(counts: seq<nat>): set<nat> { set p: nat | p < |counts| && counts[p] > 0 }

  ghost function All(counts: seq<nat>): set<nat> { set p: nat | p < |counts| && counts[p] >= 0 }

  ghost function Elements(s: seq<nat>): set<nat> { set k: nat | k < |s| :: s[k] }

  lemma {:induction false} AllSize(counts: seq<nat>)
    ensures |All(counts)| == |counts|
  {
    if counts != [] {
      var n := |counts| - 1;
      AllSize(counts[..n]);
      assert All(counts) == All(counts[..n]) + {n};
    }
  }

  lemma {:induction false} ReferencedSize(counts: seq<nat>)
    ensures |ReferencedSet(counts)| == Referenced(counts)
  {
    if counts != [] {
      var n := |counts| - 1;
      var front := counts[..n];
      ReferencedSize(front);
      assert ReferencedSet(counts) == ReferencedSet(front) + (if counts[n] > 0 then {n} else {});
    }
  }

  lemma {:induction false} ElementsSize(s: seq<nat>)
    requires forall j, k :: 0 <= j < k < |s| ==> s[j] != s[k]
    ensures |Elements(s)| == |s|
  {
    if s != [] {
      var n := |s| - 1;
      ElementsSize(s[..n]);
      assert Elements(s) == Elements(s[..n]) + {s[n]};
    }
  }

  lemma Parts(s: Pool)
    requires Inv(s)
    ensures var f, r := Elements(s.free), ReferencedSet(s.counts);
            All(s.counts) == f + r + s.limbo && f !! r && (f + r) !! s.limbo
  {
    var f, r := Elements(s.free), ReferencedSet(s.counts);
    forall p: nat | p < |s.counts| ensures p in f || p in r || p in s.limbo {
      if p in s.free {
        var k :| 0 <= k < |s.free| && s.free[k] == p;
      }
    }
  }

  /** Every packet is free, referenced, or between its last reference and its push. */
  lemma Conservation(s: Pool)
    requires Inv(s)
    ensures |s.counts| == |s.free| + Referenced(s.counts) + |s.limbo|
  {
    AllSize(s.counts);
    ReferencedSize(s.counts);
    ElementsSize(s.free);
    Parts(s);
  }

  /** The guard in front of the push never drops a packet. */
  lemma PushAlwaysFits(s: Pool, p: nat)
    requires Inv(s) && p in s.limbo
    ensures |s.free| < |s.counts| && Pushed(s, p).free == s.free + [p]
  {
    Conservation(s);
    assert s.limbo == {p} + (s.limbo - {p});
  }

  lemma AllocatedCovers(s: Pool)
    requires Inv(s) && s.free != []
    ensures Covered(Allocated(s))
  {
    var s' := Allocated(s);
    forall p | 0 <= p < |s'.counts| ensures s'.counts[p] > 0 || p in s'.limbo || p in s'.free {
      if p in s.free && p != s.free[|s.free| - 1] {
        var k :| 0 <= k < |s.free| && s.free[k] == p;
        assert s'.free[k] == p;
      }
    }
  }

  lemma AllocatedKeeps(s: Pool)
    requires Inv(s) && s.free != []
    ensures Inv(Allocated(s))
  {
    AllocatedCovers(s);
  }

  lemma DroppedKeeps(s: Pool, p: nat)
    requires Inv(s) && p < |s.counts| && s.counts[p] > 0
    ensures Inv(Dropped(s, p))
  {
  }

  lemma PushedKeeps(s: Pool, p: nat)
    requires Inv(s) && p in s.limbo
    ensures Inv(Pushed(s, p)) && Pushed(s, p).free == s.free + [p]
  {
    PushAlwaysFits(s, p);
    var s' := Pushed(s, p);
    forall q | 0 <= q < |s'.counts| && s'.counts[q] == 0 && q !in s'.limbo ensures q in s'.free {
      if q == p {
        assert s'.free[|s.free|] == q;
      } else {
        var k :| 0 <= k < |s.free| && s.free[k] == q;
        assert s'.free[k] == q;
      }
    }
  }

  lemma StepKeepsInv(s: Pool, step: Step)
    requires Inv(s) && Enabled(s, step)
    ensures Inv(Exec(s, step))
  {
    match step
    case Alloc =>
      if s.free != [] {
        AllocatedKeeps(s);
      }
    case Drop(p) => DroppedKeeps(s, p);
    case Push(p) => PushedKeeps(s, p);
    case _ =>
  }

  predicate Run(s: Pool, steps: seq<Step>)
    requires Named(s)
    decreases |steps|
  {
    steps == [] || (Enabled(s, steps[0]) && Run(Exec(s, steps[0]), steps[1..]))
  }

  function Final(s: Pool, steps: seq<Step>): Pool
    requires Named(s) && Run(s, steps)
    decreases |steps|
  {
    if steps == [] then s else Final(Exec(s, steps[0]), steps[1..])
  }

  /** In every state any interleaving reaches, no packet is lost, none is on the stack twice,
      and a referenced packet is never on the stack. */
  lemma {:induction false} ReachablePool(s: Pool, steps: seq<Step>)
    requires Inv(s) && Run(s, steps)
    ensures var e := Final(s, steps);
            && |e.counts| == |s.counts| == |e.free| + Referenced(e.counts) + |e.limbo|
            && (forall j, k :: 0 <= j < k < |e.free| ==> e.free[j] != e.free[k])
            && (forall k :: 0 <= k < |e.free| ==> e.free[k] < |e.counts| && e.counts[e.free[k]] == 0)
    decreases |steps|
  {
    if steps == [] {
      Conservation(s);
    } else {
      StepKeepsInv(s, steps[0]);
      ReachablePool(Exec(s, steps[0]), steps[1..]);
    }
  }

  /** Packet `p` has a holder in every state of the run. */
  predicate HeldThroughout(s: Pool, steps: seq<Step>, p: nat)
    requires Named(s) && Run(s, steps)
    decreases |steps|
  {
    p < |s.counts| && s.counts[p] > 0 && (steps == [] || HeldThroughout(Exec(s, steps[0]), steps[1..], p))
  }

  /** Some allocation of the run hands out `p`. */
  predicate HandsOut(s: Pool, steps: seq<Step>, p: nat)
    requires Named(s) && Run(s, steps)
    decreases |steps|
  {
    steps != [] && ((steps[0].Alloc? && s.free != [] && s.free[|s.free| - 1] == p)
                    || HandsOut(Exec(s, steps[0]), steps[1..], p))
  }

  /** A packet is not handed out again while anybody holds it, whatever the others do. */
  lemma {:induction false} NotHandedOutTwice(s: Pool, steps: seq<Step>, p: nat)
    requires Inv(s) && Run(s, steps) && HeldThroughout(s, steps, p)
    ensures !HandsOut(s, steps, p)
    decreases |steps|
  {
    if steps != [] {
      StepKeepsInv(s, steps[0]);
      NotHandedOutTwice(Exec(s, steps[0]), steps[1..], p);
    }
  }

  // ------------------------------------------------------------------ batches

  /** The packets `n` single allocations hand out, and the pool they leave. */
  function AllocMany(s: Pool, n: nat): (r: (Pool, seq<nat>))
    requires Named(s)
    ensures Named(r.0) && |r.0.counts| == |s.counts|
  {
    if n == 0 then (s, [])
    else
      var (s1, got) := AllocMany(s, n - 1);
      if s1.free == [] then (s1, got) else (Allocated(s1), got + [s1.free[|s1.free| - 1]])
  }

  /** The top of the stack comes out first; an empty pool gives nothing more. */
  lemma {:induction false} AllocManyIs(s: Pool, n: nat)
    requires Named(s)
    ensures var (s', got) := AllocMany(s, n);
            && |got| == (if n < |s.free| then n else |s.free|)
            && s'.free == s.free[..|s.free| - |got|]
            && (forall k :: 0 <= k < |got| ==> got[k] == s.free[|s.free| - 1 - k])
  {
    if n > 0 {
      AllocManyIs(s, n - 1);
      var (s1, got) := AllocMany(s, n - 1);
      if s1.free != [] {
        assert s1.free[..|s1.free| - 1] == s.free[..|s.free| - n];
      }
    }
  }

  lemma AllocOneMore(s: Pool, n: nat)
    requires Named(s) && AllocMany(s, n).0.free != []
    ensures var (s1, got) := AllocMany(s, n);
            AllocMany(s, n + 1).0 == Allocated(s1) && AllocMany(s, n + 1).1 == got + [s1.free[|s1.free| - 1]]
  {
  }

  /** Dropping a reference and, when it was the last, pushing at once. */
  function Released(s: Pool, p: nat): (r: Pool)
    requires Named(s) && p < |s.counts| && s.counts[p] > 0
    ensures Named(r) && |r.counts| == |s.counts|
  {
    if s.counts[p] == 1 then Pushed(Dropped(s, p), p) else Dropped(s, p)
  }

  lemma ReleasedKeeps(s: Pool, p: nat)
    requires Inv(s) && p < |s.counts| && s.counts[p] > 0
    ensures Inv(Released(s, p)) && Released(s, p).limbo == s.limbo
    ensures Released(s, p).counts == s.counts[p := s.counts[p] - 1]
    ensures Released(s, p).free == if s.counts[p] == 1 then s.free + [p] else s.free
  {
    DroppedKeeps(s, p);
    if s.counts[p] == 1 {
      PushedKeeps(Dropped(s, p), p);
    }
  }

  /** What a batch of releases leaves; `None` entries of the source's array are absent here. */
  function ReleaseMany(s: Pool, packets: seq<nat>): (r: Pool)
    requires Named(s)
    ensures Named(r) && |r.counts| == |s.counts|
  {
    if packets == [] then s
    else
      var s1 := ReleaseMany(s, packets[..|packets| - 1]);
      var p := packets[|packets| - 1];
      if p < |s1.counts| && s1.counts[p] > 0 then Released(s1, p) else s1
  }

  /** The caller holds every reference the batch gives back. */
  predicate Holds(counts: seq<nat>, packets: seq<nat>) {
    forall p :: p in packets ==> p < |counts| && multiset(packets)[p] <= counts[p]
  }

  lemma HoldsFront(counts: seq<nat>, packets: seq<nat>)
    requires packets != [] && Holds(counts, packets)
    ensures Holds(counts, packets[..|packets| - 1])
    ensures multiset(packets) == multiset(packets[..|packets| - 1]) + multiset{packets[|packets| - 1]}
  {
    var front := packets[..|packets| - 1];
    assert packets == front + [packets[|packets| - 1]];
    forall p | p in front ensures p < |counts| && multiset(front)[p] <= counts[p] {
      assert p in packets;
    }
  }

  /** Each packet loses exactly as many references as the batch names it, and what the batch
      took to zero is on the stack afterwards. */
  lemma {:induction false} ReleaseManyKeeps(s: Pool, packets: seq<nat>)
    requires Inv(s) && Holds(s.counts, packets)
    ensures var s' := ReleaseMany(s, packets);
            && Inv(s') && s'.limbo == s.limbo
            && forall p :: 0 <= p < |s.counts| ==> s'.counts[p] + multiset(packets)[p] == s.counts[p]
  {
    if packets != [] {
      HoldsFront(s.counts, packets);
      ReleaseManyKeeps(s, packets[..|packets| - 1]);
      var s1 := ReleaseMany(s, packets[..|packets| - 1]);
      var p := packets[|packets| - 1];
      assert p in packets;
      ReleasedKeeps(s1, p);
    }
  }

  // ------------------------------------------------------------------ the code

  class PacketPool {
    const headroom: nat
    const free: array<nat>
    const counts: array<nat>
    const meta: array<Meta>
    var freeCount: nat
    ghost var limbo: set<nat>

    ghost function Abs(): Pool
      requires freeCount <= free.Length
      reads this, free, counts, meta
    {
      Pool(headroom, free[..freeCount], counts[..], meta[..], limbo)
    }

    ghost predicate Valid()
      reads this, free, counts, meta
    {
      free.Length == counts.Length == meta.Length && free != counts && freeCount <= free.Length && Inv(Abs())
    }

    constructor (count: nat, headroom: nat)
      ensures Valid() && Abs() == Initial(count, headroom) && fresh(free) && fresh(counts) && fresh(meta)
    {
      this.headroom := headroom;
      free := new nat[count](i => i);
      counts := new nat[count](_ => 0);
      meta := new Meta[count](_ => FreshMeta(headroom));
      freeCount, limbo := count, {};
      new;
      InitialInv(count, headroom);
      assert free[..count] == Initial(count, headroom).free;
      assert counts[..] == Initial(count, headroom).counts;
      assert meta[..] == Initial(count, headroom).meta;
    }

    method Take() returns (p: nat)
      requires Valid() && freeCount > 0
      modifies this`freeCount, counts, meta
      ensures Valid() && Abs() == Allocated(old(Abs())) && p == old(free[freeCount - 1])
    {
      AllocatedKeeps(Abs());
      ghost var s := Abs();
      freeCount := freeCount - 1;
      p := free[freeCount];
      assert p == s.free[|s.free| - 1];
      meta[p] := FreshMeta(headroom);
      counts[p] := 1;
      assert free[..freeCount] == s.free[..|s.free| - 1];
    }

    /** linkg_packet_pool_alloc; -1 for no packet. */
    method AllocPacket() returns (p: int)
      requires Valid()
      modifies this`freeCount, counts, meta
      ensures Valid() && Abs() == Exec(old(Abs()), Alloc)
      ensures p == if old(freeCount) == 0 then -1 else old(free[freeCount - 1])
    {
      if freeCount == 0 {
        return -1;
      }
      p := Take();
    }

    /** One turn of the batch loop, `i` packets after the pool was `s`. */
    method TakeNext(ghost s: Pool, ghost i: nat) returns (p: nat)
      requires Valid() && freeCount > 0 && Named(s) && Abs() == AllocMany(s, i).0
      modifies this`freeCount, counts, meta
      ensures Valid() && freeCount == old(freeCount) - 1
      ensures Abs() == AllocMany(s, i + 1).0 && AllocMany(s, i).1 + [p] == AllocMany(s, i + 1).1
    {
      AllocOneMore(s, i);
      p := Take();
    }

    method TakeMany(n: nat) returns (packets: seq<nat>)
      requires Valid() && n <= freeCount
      modifies this`freeCount, counts, meta
      ensures Valid() && (Abs(), packets) == AllocMany(old(Abs()), n)
    {
      ghost var s := Abs();
      packets := [];
      for i := 0 to n
        invariant Valid() && freeCount == |s.free| - i && Abs() == AllocMany(s, i).0 && packets == AllocMany(s, i).1
      {
        var p := TakeNext(s, i);
        packets := packets + [p];
      }
    }

    /** linkg_packet_pool_alloc_batch gives what as many single allocations would give. */
    method AllocBatch(n: nat) returns (packets: seq<nat>)
      requires Valid()
      modifies this`freeCount, counts, meta
      ensures Valid() && (Abs(), packets) == AllocMany(old(Abs()), n)
      ensures |packets| == if n < old(freeCount) then n else old(freeCount)
    {
      ghost var s := Abs();
      AllocManyIs(s, n);
      var count := if n > freeCount then freeCount else n;
      AllocStopsEmpty(s, count, n);
      packets := TakeMany(count);
    }

    method RetainPacket(p: nat)
      requires Valid() && p < counts.Length && counts[p] > 0
      modifies counts
      ensures Valid() && Abs() == Exec(old(Abs()), Retain(p))
    {
      StepKeepsInv(Abs(), Retain(p));
      counts[p] := counts[p] + 1;
    }

    /** The atomic decrement. */
    method DropReference(p: nat) returns (last: bool)
      requires Valid() && p < counts.Length && counts[p] > 0
      modifies this`limbo, counts
      ensures Valid() && Abs() == Exec(old(Abs()), Drop(p)) && (last <==> old(counts[p]) == 1)
    {
      StepKeepsInv(Abs(), Drop(p));
      last := counts[p] == 1;
      limbo := if last then limbo + {p} else limbo;
      counts[p] := counts[p] - 1;
    }

    method PushPacket(p: nat)
      requires Valid() && p in limbo
      modifies this`freeCount, this`limbo, free, meta
      ensures Valid() && Abs() == Exec(old(Abs()), Push(p))
    {
      ghost var s := Abs();
      PushAlwaysFits(s, p);
      StepKeepsInv(s, Push(p));
      meta[p] := FreshMeta(headroom);
      limbo := limbo - {p};
      if freeCount < free.Length {
        free[freeCount] := p;
        freeCount := freeCount + 1;
      }
      assert free[..freeCount] == s.free + [p];
    }

    /** Whatever other threads do meanwhile: they never touch a packet in limbo. */
    method Others(ghost p: nat)
      requires Valid() && p in limbo
      modifies this`freeCount, this`limbo, free, counts, meta
      ensures Valid() && p in limbo
    {
    }

    /** linkg_packet_release: between the decrement and the push anything may happen. */
    method ReleasePacket(p: nat)
      requires Valid() && p < counts.Length && counts[p] > 0
      modifies this`freeCount, this`limbo, free, counts, meta
      ensures Valid()
      ensures old(counts[p]) > 1 ==> Abs() == Exec(old(Abs()), Drop(p))
      ensures old(counts[p]) == 1 ==> freeCount > 0 && free[freeCount - 1] == p && counts[p] == 0
    {
      var last := DropReference(p);
      if !last {
        return;
      }
      Others(p);
      PushPacket(p);
    }

    /** linkg_packet_pool_release_batch equals as many single releases. */
    method ReleaseBatch(packets: seq<nat>)
      requires Valid() && Holds(counts[..], packets)
      modifies this`freeCount, this`limbo, free, counts, meta
      ensures Valid() && Abs() == ReleaseMany(old(Abs()), packets)
    {
      ghost var s := Abs();
      for k := 0 to |packets|
        invariant Valid() && Abs() == ReleaseMany(s, packets[..k]) && free.Length == |s.counts|
      {
        var p := packets[k];
        StillHeld(s, packets, k);
        assert counts[p] == Abs().counts[p];
        assert packets[..k + 1][..k] == packets[..k];
        var last := DropReference(p);
        if !last {
          continue;
        }
        PushPacket(p);
      }
      assert packets[..|packets|] == packets;
    }

    /** pool_deinit is refused while any packet is out. */
    method CanDestroy() returns (ok: bool)
      requires Valid()
      ensures ok <==> Referenced(counts[..]) == 0 && limbo == {}
    {
      Conservation(Abs());
      ok := freeCount == free.Length;
    }
  }

  /** Half way through a batch its next packet is still referenced. */
  lemma StillHeld(s: Pool, packets: seq<nat>, k: nat)
    requires Inv(s) && Holds(s.counts, packets) && k < |packets|
    ensures packets[k] < |s.counts| && ReleaseMany(s, packets[..k]).counts[packets[k]] > 0
  {
    assert packets[..k + 1] == packets[..k] + [packets[k]];
    assert packets == packets[..k + 1] + packets[k + 1..];
    assert multiset(packets) == multiset(packets[..k + 1]) + multiset(packets[k + 1..]);
    assert packets[k] in packets;
    forall p | p in packets[..k] ensures p < |s.counts| && multiset(packets[..k])[p] <= s.counts[p] {
      assert p in packets;
    }
    ReleaseManyKeeps(s, packets[..k]);
  }

  /** Past an empty pool further single allocations give nothing. */
  lemma {:induction false} AllocStopsEmpty(s: Pool, k: nat, n: nat)
    requires Named(s) && k <= n && (k == n || k == |s.free|)
    ensures AllocMany(s, n) == AllocMany(s, k)
  {
    if k < n {
      AllocStopsEmpty(s, k, n - 1);
      AllocManyIs(s, n - 1);
    }
  }
}
