/** The in-flight table of path_probe_runtime.c: 259 records, the sequence numbers
    they use, and a ledger of how every reservation ended. */
module ProbeTable {
  import opened SetSizes

  const PENDING_MAX: nat := 259
  const PERIODIC_END: nat := 128
  const DIAGNOSTIC_END: nat := 256
  const ASYNC_BEGIN: nat := 256
  const SEQUENCE_MAX: nat := 0xFFFF_FFFF

  datatype Key = Key(peer: nat, link: nat)

  datatype Phase = Reserved | Submitting | Waiting

  datatype Kind = Periodic | Diagnostic(id: nat, index: nat) | Async(handle: nat)

  datatype Early = NoReply | ReplyAt(us: nat)

  /** `ticket` numbers the reservations; it is not in the source and nothing branches on it. */
  datatype Pending =
    | Free
    | Rec(phase: Phase, kind: Kind, key: Key, cls: nat, gen: nat, sequence: nat,
          sentUs: nat, deadlineUs: nat, early: Early, ticket: nat)

  datatype Outcome = Received | TimedOut | SendFailed | Canceled

  /** `ended` says how each finished reservation ended. */
  datatype Table = Table(pending: seq<Pending>, tickets: nat, ended: map<nat, Outcome>)

  // ------------------------------------------------------------------ invariant

  predicate Live(pending: seq<Pending>, ticket: nat) {
    exists i :: 0 <= i < |pending| && pending[i].Rec? && pending[i].ticket == ticket
  }

  predicate Distinct(pending: seq<Pending>) {
    forall i, j :: 0 <= i < j < |pending| && pending[i].Rec? && pending[j].Rec? ==>
      pending[i].sequence != pending[j].sequence && pending[i].ticket != pending[j].ticket
  }

  /** Sequences in use are nonzero 32-bit numbers and pairwise distinct; every
      reservation ever made is either in the table, once, or has ended, once. */
  predicate TableOk(t: Table) {
    && |t.pending| == PENDING_MAX
    && Distinct(t.pending)
    && (forall i :: 0 <= i < |t.pending| && t.pending[i].Rec? ==>
          1 <= t.pending[i].sequence <= SEQUENCE_MAX && t.pending[i].ticket < t.tickets
            && t.pending[i].ticket !in t.ended)
    && (forall k :: k in t.ended ==> k < t.tickets)
    && (forall k :: 0 <= k < t.tickets ==> k in t.ended || Live(t.pending, k))
  }

  /** Outcomes are final. */
  predicate Extends(before: Table, after: Table) {
    && before.tickets <= after.tickets
    && (forall k :: k in before.ended ==> k in after.ended && after.ended[k] == before.ended[k])
  }

  // ------------------------------------------------------------------ one record

  function End(t: Table, i: nat, outcome: Outcome): Table
    requires i < |t.pending| && t.pending[i].Rec?
  {
    Table(t.pending[i := Free], t.tickets, t.ended[t.pending[i].ticket := outcome])
  }

  lemma EndKeeps(t: Table, i: nat, outcome: Outcome)
    requires TableOk(t) && i < |t.pending| && t.pending[i].Rec?
    ensures TableOk(End(t, i, outcome)) && Extends(t, End(t, i, outcome))
  {
    var t' := End(t, i, outcome);
    forall k | 0 <= k < t'.tickets && k !in t'.ended ensures Live(t'.pending, k) {
      assert Live(t.pending, k);
      var j :| 0 <= j < |t.pending| && t.pending[j].Rec? && t.pending[j].ticket == k;
      assert t'.pending[j] == t.pending[j];
    }
  }

  /** A record changes in place but stays the same request. */
  function Rewrite(t: Table, i: nat, r: Pending): Table
    requires i < |t.pending|
  {
    t.(pending := t.pending[i := r])
  }

  lemma RewriteKeeps(t: Table, i: nat, r: Pending)
    requires TableOk(t) && i < |t.pending| && t.pending[i].Rec? && r.Rec?
    requires r.sequence == t.pending[i].sequence && r.ticket == t.pending[i].ticket
    ensures TableOk(Rewrite(t, i, r))
  {
    var t' := Rewrite(t, i, r);
    forall k | 0 <= k < t'.tickets && k !in t'.ended ensures Live(t'.pending, k) {
      assert Live(t.pending, k);
      var j :| 0 <= j < |t.pending| && t.pending[j].Rec? && t.pending[j].ticket == k;
      assert t'.pending[j].Rec? && t'.pending[j].ticket == k;
    }
  }

  function Add(t: Table, i: nat, r: Pending): Table
    requires i < |t.pending|
  {
    Table(t.pending[i := r], t.tickets + 1, t.ended)
  }

  lemma AddKeeps(t: Table, i: nat, r: Pending)
    requires TableOk(t) && i < |t.pending| && t.pending[i].Free? && r.Rec? && r.ticket == t.tickets
    requires 1 <= r.sequence <= SEQUENCE_MAX && !InUse(t.pending, r.sequence)
    ensures TableOk(Add(t, i, r)) && Extends(t, Add(t, i, r))
  {
    var t' := Add(t, i, r);
    assert t'.pending[i] == r;
    forall k | 0 <= k < t'.tickets && k !in t'.ended ensures Live(t'.pending, k) {
      if k < t.tickets {
        assert Live(t.pending, k);
        var j :| 0 <= j < |t.pending| && t.pending[j].Rec? && t.pending[j].ticket == k;
        assert t'.pending[j] == t.pending[j];
      }
    }
  }

  // ------------------------------------------------------------------ many records

  /** The matching records in slots `begin` to `k` are cancelled. */
  function EndMatching(t: Table, matches: Pending -> bool, begin: nat, k: nat): (t': Table)
    requires begin <= k <= |t.pending|
    ensures |t'.pending| == |t.pending| && t'.tickets == t.tickets
  {
    if k == begin then t else
      var t1 := EndMatching(t, matches, begin, k - 1);
      if t1.pending[k - 1].Rec? && matches(t1.pending[k - 1]) then End(t1, k - 1, Canceled) else t1
  }

  lemma {:induction false} EndMatchingIs(t: Table, matches: Pending -> bool, begin: nat, k: nat)
    requires begin <= k <= |t.pending|
    ensures forall i :: 0 <= i < |t.pending| ==>
              EndMatching(t, matches, begin, k).pending[i] ==
              if begin <= i < k && t.pending[i].Rec? && matches(t.pending[i]) then Free else t.pending[i]
  {
    if k > begin {
      EndMatchingIs(t, matches, begin, k - 1);
    }
  }

  lemma {:induction false} EndMatchingKeeps(t: Table, matches: Pending -> bool, begin: nat, k: nat)
    requires TableOk(t) && begin <= k <= |t.pending|
    ensures TableOk(EndMatching(t, matches, begin, k)) && Extends(t, EndMatching(t, matches, begin, k))
  {
    if k > begin {
      EndMatchingKeeps(t, matches, begin, k - 1);
      var t1 := EndMatching(t, matches, begin, k - 1);
      if t1.pending[k - 1].Rec? && matches(t1.pending[k - 1]) {
        EndKeeps(t1, k - 1, Canceled);
      }
    }
  }

  // ------------------------------------------------------------------ sequence numbers

  predicate InUse(pending: seq<Pending>, sequence: nat) {
    exists i :: 0 <= i < |pending| && pending[i].Rec? && pending[i].sequence == sequence
  }

  /** The allocator's 32-bit increment, skipping zero. */
  function Next(last: nat): nat {
    var s := (last + 1) % (SEQUENCE_MAX + 1);
    if s == 0 then 1 else s
  }

  /** The `k`-th number the allocator visits after `last`. */
  function Visited(last: nat, k: nat): nat {
    if k == 0 then last else Next(Visited(last, k - 1))
  }

  lemma NextIs(last: nat)
    requires last <= SEQUENCE_MAX
    ensures Next(last) == if last == SEQUENCE_MAX then 1 else last + 1
  {
  }

  lemma {:induction false} VisitedIs(last: nat, k: nat)
    requires last <= SEQUENCE_MAX && 1 <= k <= PENDING_MAX + 1
    ensures Visited(last, k) == if last + k <= SEQUENCE_MAX then last + k else last + k - SEQUENCE_MAX
    ensures 1 <= Visited(last, k) <= SEQUENCE_MAX
  {
    if k > 1 {
      VisitedIs(last, k - 1);
    }
    NextIs(Visited(last, k - 1));
  }

  ghost function VisitedSet(last: nat, k: nat): set<nat> {
    set j: nat | 1 <= j <= k :: Visited(last, j)
  }

  lemma {:induction false} VisitedDistinct(last: nat, k: nat)
    requires last <= SEQUENCE_MAX && k <= PENDING_MAX + 1
    ensures |VisitedSet(last, k)| == k
  {
    if k == 0 {
      assert VisitedSet(last, 0) == {};
    } else {
      VisitedDistinct(last, k - 1);
      VisitedIs(last, k);
      if Visited(last, k) in VisitedSet(last, k - 1) {
        var j: nat :| 1 <= j <= k - 1 && Visited(last, j) == Visited(last, k);
        VisitedIs(last, j);
      }
      assert VisitedSet(last, k) == VisitedSet(last, k - 1) + {Visited(last, k)};
    }
  }

  ghost function UsedSet(pending: seq<Pending>): set<nat> {
    set i: nat | 0 <= i < |pending| && pending[i].Rec? :: pending[i].sequence
  }

  lemma {:induction false} UsedAtMost(pending: seq<Pending>)
    ensures |UsedSet(pending)| <= |pending|
  {
    if pending != [] {
      var n := |pending| - 1;
      var front := pending[..n];
      UsedAtMost(front);
      forall s | s in UsedSet(pending)
        ensures s in UsedSet(front) + (if pending[n].Rec? then {pending[n].sequence} else {})
      {
        var i: nat :| 0 <= i < |pending| && pending[i].Rec? && pending[i].sequence == s;
        assert i < n ==> front[i] == pending[i];
      }
      SubsetSize(UsedSet(pending), UsedSet(front) + (if pending[n].Rec? then {pending[n].sequence} else {}));
    }
  }

  /** Pigeonhole: the allocator cannot visit more than 259 numbers that are all in use. */
  lemma SomeNumberIsFree(pending: seq<Pending>, last: nat, k: nat)
    requires last <= SEQUENCE_MAX && |pending| == PENDING_MAX && k <= PENDING_MAX + 1
    requires forall j: nat :: 1 <= j <= k ==> InUse(pending, Visited(last, j))
    ensures k <= PENDING_MAX
  {
    VisitedDistinct(last, k);
    UsedAtMost(pending);
    forall s | s in VisitedSet(last, k) ensures s in UsedSet(pending) {
      var j: nat :| 1 <= j <= k && Visited(last, j) == s;
      assert InUse(pending, Visited(last, j));
      var i :| 0 <= i < |pending| && pending[i].Rec? && pending[i].sequence == Visited(last, j);
    }
    SubsetSize(VisitedSet(last, k), UsedSet(pending));
  }

  /** The first number after `last` that no record uses. */
  function Allocate(pending: seq<Pending>, last: nat): nat { AllocateFrom(pending, last, 1) }

  function AllocateFrom(pending: seq<Pending>, last: nat, k: nat): nat
    decreases PENDING_MAX + 1 - k, last
  {
    if k > PENDING_MAX || !InUse(pending, Visited(last, k)) then Visited(last, k)
    else AllocateFrom(pending, last, k + 1)
  }

  lemma {:induction false} AllocateFromIsFree(pending: seq<Pending>, last: nat, k: nat)
    requires last <= SEQUENCE_MAX && |pending| == PENDING_MAX && 1 <= k <= PENDING_MAX + 1
    requires forall j: nat :: 1 <= j < k ==> InUse(pending, Visited(last, j))
    ensures var s := AllocateFrom(pending, last, k); 1 <= s <= SEQUENCE_MAX && !InUse(pending, s)
    decreases PENDING_MAX + 1 - k
  {
    VisitedIs(last, k);
    if InUse(pending, Visited(last, k)) {
      SomeNumberIsFree(pending, last, k);
      AllocateFromIsFree(pending, last, k + 1);
    }
  }

  /** A fresh sequence is a nonzero 32-bit number no live record uses, even across a wrap. */
  lemma AllocateIsFresh(pending: seq<Pending>, last: nat)
    requires last <= SEQUENCE_MAX && |pending| == PENDING_MAX
    ensures var s := Allocate(pending, last); 1 <= s <= SEQUENCE_MAX && !InUse(pending, s)
  {
    AllocateFromIsFree(pending, last, 1);
  }

  // ------------------------------------------------------------------ counting

  function Diagnostics(pending: seq<Pending>): nat {
    if pending == [] then 0
    else Diagnostics(pending[..|pending| - 1]) + (if IsDiagnostic(pending[|pending| - 1]) then 1 else 0)
  }

  predicate IsDiagnostic(p: Pending) { p.Rec? && p.kind.Diagnostic? }

  lemma {:induction false} DiagnosticsUpdate(pending: seq<Pending>, i: nat, p: Pending)
    requires i < |pending|
    ensures Diagnostics(pending[i := p]) ==
            Diagnostics(pending) - (if IsDiagnostic(pending[i]) then 1 else 0) + (if IsDiagnostic(p) then 1 else 0)
    ensures IsDiagnostic(pending[i]) ==> Diagnostics(pending) > 0
  {
    var n := |pending| - 1;
    if i == n {
      assert pending[i := p][..n] == pending[..n];
    } else {
      assert pending[i := p][..n] == pending[..n][i := p];
      DiagnosticsUpdate(pending[..n], i, p);
    }
  }

  lemma {:induction false} NoDiagnostics(pending: seq<Pending>)
    ensures Diagnostics(pending) == 0 <==> forall i :: 0 <= i < |pending| ==> !IsDiagnostic(pending[i])
  {
    if pending != [] {
      NoDiagnostics(pending[..|pending| - 1]);
    }
  }

  // ------------------------------------------------------------------ the loops

  method SequenceInUse(pending: array<Pending>, sequence: nat) returns (used: bool)
    ensures used <==> InUse(pending[..], sequence)
  {
    for index := 0 to pending.Length
      invariant forall i :: 0 <= i < index ==> !(pending[i].Rec? && pending[i].sequence == sequence)
    {
      if pending[index].Rec? && pending[index].sequence == sequence {
        assert pending[..][index] == pending[index];
        return true;
      }
    }
    return false;
  }

  method Advance(last: nat) returns (sequence: nat)
    requires last <= SEQUENCE_MAX
    ensures sequence == Next(last) && 1 <= sequence <= SEQUENCE_MAX
  {
    sequence := (last + 1) % (SEQUENCE_MAX + 1);
    if sequence == 0 {
      sequence := (sequence + 1) % (SEQUENCE_MAX + 1);
    }
  }

  /** The number visited next is the answer unless it is in use, and then there is another. */
  lemma NextNumber(pending: seq<Pending>, last: nat, k: nat)
    requires last <= SEQUENCE_MAX && |pending| == PENDING_MAX && k <= PENDING_MAX
    requires forall j: nat :: 1 <= j <= k ==> InUse(pending, Visited(last, j))
    requires AllocateFrom(pending, last, k + 1) == Allocate(pending, last)
    ensures !InUse(pending, Visited(last, k + 1)) ==> Visited(last, k + 1) == Allocate(pending, last)
    ensures InUse(pending, Visited(last, k + 1)) ==>
              k < PENDING_MAX && AllocateFrom(pending, last, k + 2) == Allocate(pending, last)
  {
    if InUse(pending, Visited(last, k + 1)) {
      SomeNumberIsFree(pending, last, k + 1);
    }
  }

  /** allocate_sequence. It always stops. */
  method AllocateSequence(pending: array<Pending>, last: nat) returns (sequence: nat)
    requires pending.Length == PENDING_MAX && last <= SEQUENCE_MAX
    ensures sequence == Allocate(pending[..], last)
    ensures 1 <= sequence <= SEQUENCE_MAX && !InUse(pending[..], sequence)
  {
    ghost var s := pending[..];
    AllocateIsFresh(s, last);
    sequence := last;
    ghost var k: nat := 0;
    var used := true;
    while used
      invariant k <= PENDING_MAX + 1 && sequence == Visited(last, k) && sequence <= SEQUENCE_MAX
      invariant used ==> k <= PENDING_MAX && AllocateFrom(s, last, k + 1) == Allocate(s, last)
      invariant used ==> forall j: nat :: 1 <= j <= k ==> InUse(s, Visited(last, j))
      invariant !used ==> sequence == Allocate(s, last)
      decreases PENDING_MAX + 1 - k, used
    {
      NextNumber(s, last, k);
      sequence := Advance(sequence);
      k := k + 1;
      used := SequenceInUse(pending, sequence);
    }
  }

  /** The first free slot of a partition, or its end. */
  function FirstFree(pending: seq<Pending>, begin: nat, end: nat): (index: nat)
    requires begin <= end <= |pending|
    ensures begin <= index <= end
    ensures index < end ==> pending[index].Free?
    ensures forall i :: begin <= i < index ==> pending[i].Rec?
    decreases |pending| - begin
  {
    if begin == end || pending[begin].Free? then begin else FirstFree(pending, begin + 1, end)
  }

  lemma {:induction false} FirstFreeIs(pending: seq<Pending>, begin: nat, end: nat, index: nat)
    requires begin <= index <= end <= |pending|
    requires forall i :: begin <= i < index ==> pending[i].Rec?
    requires index < end ==> pending[index].Free?
    ensures FirstFree(pending, begin, end) == index
    decreases |pending| - begin
  {
  }

  /** The search for a free slot of a partition. */
  method FindFree(pending: array<Pending>, begin: nat, end: nat) returns (index: nat)
    requires begin <= end <= pending.Length
    ensures index == FirstFree(pending[..], begin, end)
  {
    index := begin;
    while index < end && pending[index].Rec?
      invariant begin <= index <= end
      invariant forall i :: begin <= i < index ==> pending[i].Rec?
    {
      index := index + 1;
    }
    FirstFreeIs(pending[..], begin, end, index);
  }
}
