/** Splitting a batch into driver batches and collecting the results (link_tx.c). */
module LinkTx {

  const EIO: int := -5
  const EINVAL: int := -22
  const EMSGSIZE: int := -90
  const EOVERFLOW: int := -75
  const EINPROGRESS: int := -115

  datatype Group = Single | FirstOfGroup | LastOfGroup | OtherGroup

  datatype Packet = Packet(usable: bool, slotSize: nat, offset: nat, length: nat, group: Group)

  /** What the driver does with one batch: its return value and the results it writes. */
  datatype Answer = Answer(ret: int, results: seq<int>)

  /** One call into the driver. */
  datatype Call = Call(offset: nat, count: nat)

  // ------------------------------------------------------------------ validation

  function PacketError(p: Packet): int {
    if !p.usable || p.offset > p.slotSize || p.length == 0 then EINVAL
    else if p.length > p.slotSize - p.offset then EMSGSIZE
    else 0
  }

  // ------------------------------------------------------------------ chunks

  /** A boundary at `k` would separate an adjacent FIRST and LAST. */
  predicate Splits(packets: seq<Packet>, k: nat) {
    0 < k < |packets| && packets[k - 1].group == FirstOfGroup && packets[k].group == LastOfGroup
  }

  /** get_chunk_count. */
  function ChunkCount(packets: seq<Packet>, offset: nat, batchSize: nat): (n: nat)
    requires offset < |packets| && batchSize > 0
  {
    var remaining := |packets| - offset;
    var n := if remaining > batchSize then batchSize else remaining;
    if n == remaining then n
    else if Splits(packets, offset + n) then n - 1
    else n
  }

  /** A chunk fits the driver, keeps pairs together, and is as long as these two allow. It is
      empty exactly when a pair meets a driver that takes one packet at a time. */
  lemma ChunkIsRight(packets: seq<Packet>, offset: nat, batchSize: nat)
    requires offset < |packets| && batchSize > 0
    ensures var n := ChunkCount(packets, offset, batchSize);
            && n <= batchSize && offset + n <= |packets|
            && (n > 0 ==> !Splits(packets, offset + n))
            && (n == 0 <==> batchSize == 1 && Splits(packets, offset + 1))
            && (n < batchSize && offset + n < |packets| ==> n + 1 == batchSize && Splits(packets, offset + batchSize))
  {
  }

  // ------------------------------------------------------------------ results

  function Zeros(results: seq<int>): nat {
    if results == [] then 0 else Zeros(results[..|results| - 1]) + (if results[|results| - 1] == 0 then 1 else 0)
  }

  lemma {:induction false} ZerosConcat(a: seq<int>, b: seq<int>)
    ensures Zeros(a + b) == Zeros(a) + Zeros(b)
  {
    if b == [] {
      assert a + b == a;
    } else {
      ZerosConcat(a, b[..|b| - 1]);
      assert (a + b)[..|a + b| - 1] == a + b[..|b| - 1];
    }
  }

  lemma {:induction false} NoZeros(results: seq<int>)
    requires forall k :: 0 <= k < |results| ==> results[k] != 0
    ensures Zeros(results) == 0
  {
    if results != [] {
      NoZeros(results[..|results| - 1]);
    }
  }

  /** A result the driver never wrote becomes an I/O error. */
  function Completed(result: int): int { if result == EINPROGRESS then EIO else result }

  /** finalize_chunk on the results of one chunk. */
  method FinalizeChunk(results: array<int>, offset: nat, count: nat) returns (accepted: nat)
    requires offset + count <= results.Length
    modifies results
    ensures forall k :: 0 <= k < results.Length ==>
              results[k] == if offset <= k < offset + count then Completed(old(results[k])) else old(results[k])
    ensures accepted == Zeros(results[offset..offset + count])
  {
    accepted := 0;
    for i := 0 to count
      invariant forall k :: 0 <= k < results.Length ==>
                  results[k] == if offset <= k < offset + i then Completed(old(results[k])) else old(results[k])
      invariant accepted == Zeros(results[offset..offset + i])
    {
      if results[offset + i] == EINPROGRESS {
        results[offset + i] := EIO;
      }
      if results[offset + i] == 0 {
        accepted := accepted + 1;
      }
      assert results[offset..offset + i + 1][..i] == results[offset..offset + i];
    }
  }

  method Fill(results: array<int>, from: nat, value: int)
    requires from <= results.Length
    modifies results
    ensures forall k :: 0 <= k < results.Length ==> results[k] == if k >= from then value else old(results[k])
  {
    for k := from to results.Length
      invariant forall j :: 0 <= j < results.Length ==> results[j] == if from <= j < k then value else old(results[j])
    {
      results[k] := value;
    }
  }

  /** The driver call: it may write the results of its own packets only. */
  method SendBatch(results: array<int>, offset: nat, count: nat, answer: Answer) returns (ret: int)
    requires offset + count <= results.Length
    modifies results
    ensures ret == answer.ret
    ensures forall k :: 0 <= k < results.Length ==>
              results[k] == if offset <= k < offset + count && k - offset < |answer.results| then
                answer.results[k - offset] else old(results[k])
  {
    for i := 0 to count
      invariant forall k :: 0 <= k < results.Length ==>
                  results[k] == if offset <= k < offset + i && k - offset < |answer.results| then
                    answer.results[k - offset]
                                else old(results[k])
    {
      if i < |answer.results| {
        results[offset + i] := answer.results[i];
      }
    }
    return answer.ret;
  }

  /** The calls are consecutive chunks from the start, in order, none cutting a pair. */
  predicate InOrder(packets: seq<Packet>, batchSize: nat, calls: seq<Call>) {
    && (calls != [] ==> calls[0].offset == 0)
    && (forall j, k :: 0 <= j < |calls| && 0 <= k < |calls| && k == j + 1 ==>
          calls[k].offset == calls[j].offset + calls[j].count)
    && (forall k :: 0 <= k < |calls| ==>
          && 0 < calls[k].count <= batchSize
          && calls[k].offset + calls[k].count <= |packets|
          && !Splits(packets, calls[k].offset + calls[k].count))
  }

  function Reached(calls: seq<Call>): nat {
    if calls == [] then 0 else calls[|calls| - 1].offset + calls[|calls| - 1].count
  }

  /** What one accepted chunk's entries hold afterwards. */
  predicate ChunkResults(results: seq<int>, call: Call, answer: Answer) {
    && call.offset + call.count <= |results|
    && forall j :: call.offset <= j < call.offset + call.count ==>
         results[j] == if j - call.offset < |answer.results| then Completed(answer.results[j - call.offset]) else EIO
  }

  /** The part of submit_batch before any packet is handed over. */
  method CheckPackets(packets: seq<Packet>, results: array<int>) returns (ret: int)
    requires results.Length == |packets|
    modifies results
    ensures ret == 0 <==> forall k :: 0 <= k < |packets| ==> PacketError(packets[k]) == 0
    ensures ret == 0 ==> forall k :: 0 <= k < |packets| ==> results[k] == EINPROGRESS
    ensures ret != 0 ==>
              exists k :: 0 <= k < |packets| && ret == PacketError(packets[k])
                          && forall j :: 0 <= j < k ==> PacketError(packets[j]) == 0
  {
    for k := 0 to |packets|
      invariant forall j :: 0 <= j < k ==> PacketError(packets[j]) == 0 && results[j] == EINPROGRESS
    {
      ret := PacketError(packets[k]);
      if ret != 0 {
        return;
      }
      results[k] := EINPROGRESS;
    }
    return 0;
  }

  /** Half way through a batch: everything before `offset` was handed over and is final. */
  predicate Progress(packets: seq<Packet>, batchSize: nat, answers: seq<Answer>, calls: seq<Call>, offset: nat,
                     accepted: nat, results: seq<int>) {
    && offset <= |packets| == |results| && |packets| <= |answers|
    && offset == Reached(calls) && InOrder(packets, batchSize, calls) && |calls| <= offset
    && (forall k :: 0 <= k < |calls| ==> answers[k].ret >= 0 && ChunkResults(results, calls[k], answers[k]))
    && accepted == Zeros(results[..offset])
    && (forall j :: 0 <= j < offset ==> results[j] != EINPROGRESS)
    && (forall j :: offset <= j < |results| ==> results[j] == EINPROGRESS)
  }

  /** One chunk through the driver. */
  method SendChunk(results: array<int>, offset: nat, count: nat, answer: Answer) returns (r: int, taken: nat)
    requires 0 < count && offset + count <= results.Length
    requires forall j :: offset <= j < results.Length ==> results[j] == EINPROGRESS
    modifies results
    ensures r == answer.ret
    ensures results[..offset] == old(results[..offset])
    ensures r < 0 ==> forall j :: offset <= j < results.Length ==> results[j] == r
    ensures r >= 0 ==>
              ChunkResults(results[..], Call(offset, count), answer) && taken == Zeros(results[offset..offset + count])
    ensures r >= 0 ==> forall j :: offset + count <= j < results.Length ==> results[j] == EINPROGRESS
  {
    r := SendBatch(results, offset, count, answer);
    taken := 0;
    if r < 0 {
      Fill(results, offset, r);
    } else {
      taken := FinalizeChunk(results, offset, count);
    }
  }

  lemma OneMoreCall(packets: seq<Packet>, batchSize: nat, calls: seq<Call>, offset: nat, count: nat)
    requires InOrder(packets, batchSize, calls) && offset == Reached(calls) && |calls| <= offset < |packets|
    requires batchSize > 0
    requires count == ChunkCount(packets, offset, batchSize) > 0
    ensures var calls' := calls + [Call(offset, count)];
            InOrder(packets, batchSize, calls') && Reached(calls') == offset + count && |calls'| <= offset + count
  {
  }

  lemma OneMoreChunk(packets: seq<Packet>, batchSize: nat, answers: seq<Answer>, calls: seq<Call>, offset: nat,
                     accepted: nat,
                     before: seq<int>, after: seq<int>, count: nat, taken: nat)
    requires Progress(packets, batchSize, answers, calls, offset, accepted, before) && batchSize > 0
    requires offset < |packets| && count == ChunkCount(packets, offset, batchSize) > 0 && offset + count <= |packets|
    requires |after| == |before| && after[..offset] == before[..offset]
    requires answers[|calls|].ret >= 0 && ChunkResults(after, Call(offset, count), answers[|calls|])
    requires taken == Zeros(after[offset..offset + count])
    requires forall j :: offset + count <= j < |after| ==> after[j] == EINPROGRESS
    ensures Progress(packets, batchSize, answers, calls + [Call(offset, count)], offset + count, accepted + taken,
                     after)
  {
    var calls' := calls + [Call(offset, count)];
    OneMoreCall(packets, batchSize, calls, offset, count);
    assert after[..offset + count] == after[..offset] + after[offset..offset + count];
    ZerosConcat(after[..offset], after[offset..offset + count]);
    forall j | 0 <= j < offset ensures after[j] != EINPROGRESS {
      assert after[j] == after[..offset][j] == before[..offset][j] == before[j];
    }
    EarlierCallsKeep(packets, batchSize, answers, calls, offset, before, after);
  }

  lemma EarlierCallsKeep(packets: seq<Packet>, batchSize: nat, answers: seq<Answer>, calls: seq<Call>, offset: nat,
                         before: seq<int>, after: seq<int>)
    requires InOrder(packets, batchSize, calls) && offset == Reached(calls) <= |before| && |calls| <= |answers|
    requires |after| == |before| && after[..offset] == before[..offset]
    requires forall k :: 0 <= k < |calls| ==> ChunkResults(before, calls[k], answers[k])
    ensures forall k :: 0 <= k < |calls| ==> ChunkResults(after, calls[k], answers[k])
  {
    forall k | 0 <= k < |calls| ensures ChunkResults(after, calls[k], answers[k]) {
      if k + 1 < |calls| {
        EarlierChunk(packets, batchSize, calls, k);
      }
      EarlierResults(before, after, offset, calls[k], answers[k]);
    }
  }

  lemma EarlierResults(before: seq<int>, after: seq<int>, offset: nat, call: Call, answer: Answer)
    requires |after| == |before| && offset <= |before| && after[..offset] == before[..offset]
    requires ChunkResults(before, call, answer) && call.offset + call.count <= offset
    ensures ChunkResults(after, call, answer)
  {
  }

  /** The end of the loop: from `offset` on every result is the code `stop`. */
  lemma Ended(packets: seq<Packet>, batchSize: nat, answers: seq<Answer>, calls: seq<Call>, offset: nat, accepted: nat,
              before: seq<int>, after: seq<int>, stop: int)
    requires Progress(packets, batchSize, answers, calls, offset, accepted, before)
    requires |after| == |before| && after[..offset] == before[..offset] && stop != 0
    requires forall j :: offset <= j < |after| ==> after[j] == stop
    ensures accepted == Zeros(after)
    ensures forall k :: 0 <= k < |calls| ==> ChunkResults(after, calls[k], answers[k])
    ensures stop != EINPROGRESS ==> forall j :: 0 <= j < |after| ==> after[j] != EINPROGRESS
  {
    assert after == after[..offset] + after[offset..];
    ZerosConcat(after[..offset], after[offset..]);
    NoZeros(after[offset..]);
    EarlierCallsKeep(packets, batchSize, answers, calls, offset, before, after);
    forall j | 0 <= j < |after| && stop != EINPROGRESS ensures after[j] != EINPROGRESS {
      if j < offset {
        assert after[j] == after[..offset][j] == before[j];
      }
    }
  }

  /** What a caller of submit_batch may rely on. */
  predicate Outcome(packets: seq<Packet>, batchSize: nat, answers: seq<Answer>, results: seq<int>, ret: int,
                    calls: seq<Call>) {
    && |results| == |packets| <= |answers|
    && InOrder(packets, batchSize, calls) && |calls| <= |packets|
    // every call but the last went through; an accepted chunk keeps what the driver wrote
    && (forall k :: 0 <= k < |calls| - 1 ==> answers[k].ret >= 0)
    && (forall k :: 0 <= k < |calls| && answers[k].ret >= 0 ==> ChunkResults(results, calls[k], answers[k]))
    && Stop(packets, batchSize, answers, results, calls)
    && (ret < 0 <==> calls == [] || answers[0].ret < 0)
    && (ret >= 0 ==> ret == Zeros(results))
    && (ret >= 0 ==> ((forall k :: 0 <= k < |calls| ==> answers[k].ret != EINPROGRESS) <==> EINPROGRESS !in results))
  }

  /** Why the calls end where they end, and what the rest of the results says about it. */
  predicate Stop(packets: seq<Packet>, batchSize: nat, answers: seq<Answer>, results: seq<int>, calls: seq<Call>)
    requires |calls| <= |answers|
  {
    if calls != [] && answers[|calls| - 1].ret < 0 then
      forall j :: calls[|calls| - 1].offset <= j < |results| ==> results[j] == answers[|calls| - 1].ret
    else if Reached(calls) < |packets| then
      batchSize == 1 && Splits(packets, Reached(calls) + 1)
      && forall j :: Reached(calls) <= j < |results| ==> results[j] == EOVERFLOW
    else true
  }

  lemma FinishedOutcome(packets: seq<Packet>, batchSize: nat, answers: seq<Answer>, calls: seq<Call>, offset: nat,
                        accepted: nat, results: seq<int>)
    requires Progress(packets, batchSize, answers, calls, offset, accepted, results) && |packets| > 0
    requires offset == |packets|
    ensures Outcome(packets, batchSize, answers, results, accepted, calls)
  {
    assert results[..offset] == results;
  }

  lemma OverflowOutcome(packets: seq<Packet>, batchSize: nat, answers: seq<Answer>, calls: seq<Call>, offset: nat,
                        accepted: nat,
                        before: seq<int>, after: seq<int>)
    requires Progress(packets, batchSize, answers, calls, offset, accepted, before)
    requires offset < |packets| && batchSize == 1 && Splits(packets, offset + 1)
    requires |after| == |before| && after[..offset] == before[..offset]
    requires forall j :: offset <= j < |after| ==> after[j] == EOVERFLOW
    ensures Outcome(packets, batchSize, answers, after, if calls == [] then EOVERFLOW else accepted, calls)
  {
    Ended(packets, batchSize, answers, calls, offset, accepted, before, after, EOVERFLOW);
  }

  lemma FailedOutcome(packets: seq<Packet>, batchSize: nat, answers: seq<Answer>, calls: seq<Call>, offset: nat,
                      accepted: nat,
                      before: seq<int>, after: seq<int>, count: nat)
    requires Progress(packets, batchSize, answers, calls, offset, accepted, before) && batchSize > 0
    requires offset < |packets| && count == ChunkCount(packets, offset, batchSize) > 0 && answers[|calls|].ret < 0
    requires |after| == |before| && after[..offset] == before[..offset]
    requires forall j :: offset <= j < |after| ==> after[j] == answers[|calls|].ret
    ensures Outcome(packets, batchSize, answers, after, if calls == [] then answers[|calls|].ret else accepted,
                    calls + [Call(offset, count)])
  {
    var calls' := calls + [Call(offset, count)];
    Ended(packets, batchSize, answers, calls, offset, accepted, before, after, answers[|calls|].ret);
    OneMoreCall(packets, batchSize, calls, offset, count);
    assert calls'[|calls'| - 1] == Call(offset, count);
    forall k | 0 <= k < |calls'| && answers[k].ret >= 0 ensures ChunkResults(after, calls'[k], answers[k]) {
      assert k < |calls| && calls'[k] == calls[k];
    }
    assert after[offset] == answers[|calls|].ret;
  }

  /** The sending loop of linkg_link_submit_batch on an open, running link; `answers` gives what
      the driver does call by call. It stops for every batch size. A result that is not
      negative is the number of packets the driver took, and every result is then final
      exactly when the driver never answered a whole batch with -EINPROGRESS. */
  method Submit(packets: seq<Packet>, batchSize: nat, answers: seq<Answer>, results: array<int>)
    returns (ret: int, calls: seq<Call>)
    requires |packets| > 0 && batchSize > 0 && results.Length == |packets|
    requires |answers| >= |packets|
    requires forall k :: 0 <= k < results.Length ==> results[k] == EINPROGRESS
    modifies results
    ensures Outcome(packets, batchSize, answers, results[..], ret, calls)
  {
    var accepted: nat, offset: nat, done := 0, 0, false;
    calls := [];
    while offset < |packets|
      invariant Progress(packets, batchSize, answers, calls, offset, accepted, results[..])
    {
      done, ret, calls, offset, accepted := Round(packets, batchSize, answers, calls, offset, accepted, results);
      if done {
        return;
      }
    }
    FinishedOutcome(packets, batchSize, answers, calls, offset, accepted, results[..]);
    ret := accepted;
  }

  /** The loop ends where not even one packet may go: the rest overflows. */
  method NoChunk(packets: seq<Packet>, batchSize: nat, answers: seq<Answer>, calls: seq<Call>, offset: nat,
                 accepted: nat, results: array<int>)
    returns (ret: int)
    requires offset < |packets| && batchSize == 1 && Splits(packets, offset + 1) && results.Length == |packets|
    requires Progress(packets, batchSize, answers, calls, offset, accepted, results[..])
    modifies results
    ensures Outcome(packets, batchSize, answers, results[..], ret, calls)
  {
    ghost var before := results[..];
    Fill(results, offset, EOVERFLOW);
    assert results[..][..offset] == before[..offset];
    OverflowOutcome(packets, batchSize, answers, calls, offset, accepted, before, results[..]);
    ret := if calls == [] then EOVERFLOW else accepted;
  }

  /** One round of the loop: `done` when it breaks off. */
  method Round(packets: seq<Packet>, batchSize: nat, answers: seq<Answer>, calls: seq<Call>, offset: nat, accepted: nat,
               results: array<int>)
    returns (done: bool, ret: int, calls': seq<Call>, offset': nat, accepted': nat)
    requires offset < |packets| && batchSize > 0 && results.Length == |packets|
    requires Progress(packets, batchSize, answers, calls, offset, accepted, results[..])
    modifies results
    ensures done ==> Outcome(packets, batchSize, answers, results[..], ret, calls')
    ensures !done ==> offset' > offset && Progress(packets, batchSize, answers, calls', offset', accepted', results[..])
  {
    ghost var before := results[..];
    calls', offset', accepted', done, ret := calls, offset, accepted, true, 0;
    var count := ChunkCount(packets, offset, batchSize);
    ChunkIsRight(packets, offset, batchSize);
    if count == 0 {
      ret := NoChunk(packets, batchSize, answers, calls, offset, accepted, results);
      return;
    }
    var r, taken := SendChunk(results, offset, count, answers[|calls|]);
    assert results[..][..offset] == before[..offset];
    calls' := calls + [Call(offset, count)];
    if r < 0 {
      FailedOutcome(packets, batchSize, answers, calls, offset, accepted, before, results[..], count);
      ret := if calls == [] then r else accepted;
      return;
    }
    assert results[..][offset..offset + count] == results[offset..offset + count];
    OneMoreChunk(packets, batchSize, answers, calls, offset, accepted, before, results[..], count, taken);
    accepted' := accepted + taken;
    offset' := offset + count;
    done := false;
  }

  lemma {:induction false} EarlierChunk(packets: seq<Packet>, batchSize: nat, calls: seq<Call>, k: nat)
    requires InOrder(packets, batchSize, calls) && k + 1 < |calls|
    ensures calls[k].offset + calls[k].count <= calls[|calls| - 1].offset
    decreases |calls| - k
  {
    if k + 2 < |calls| {
      EarlierChunk(packets, batchSize, calls, k + 1);
    }
  }

  /** The one case the return contract does not cover: a driver that answers its second batch
      with -EINPROGRESS leaves that code in the results of a call that returned a count. */
  method InProgressCanRemain() returns (ret: int, left: int)
    ensures ret >= 0 && left == EINPROGRESS
  {
    var p := Packet(true, 100, 0, 10, Single);
    var packets, answers := [p, p], [Answer(1, [0]), Answer(EINPROGRESS, [])];
    var results := new int[2](_ => EINPROGRESS);
    var calls;
    ret, calls := Submit(packets, 1, answers, results);
    assert !Splits(packets, 1) && !Splits(packets, 2);
    assert InOrder(packets, 1, calls) && calls != [];
    assert calls[0].offset == 0 && calls[0].count == 1;
    assert |calls| == 2 && calls[1].offset == 1 && calls[1].count == 1;
    left := results[1];
    assert left == results[..][1];
  }
}
