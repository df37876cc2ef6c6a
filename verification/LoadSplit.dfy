/** Cutting work into pieces: partitions of an extraction, batches of a load, and the confirmation
    that decides whether a load reports errors. */
module LoadSplit {
  import opened Outcomes
  import opened Sequences

  const DEFAULT_BATCH_SIZE := 1000
  const MAX_PARTITIONS := 8
  const RECORDS_PER_STREAM := 10000

  // ----- Partitions -----

  datatype PartitionRange = PartitionRange(id: int, offset: int, limit: int)

  function Clamp(n: int): int {
    if n < 1 then 1 else if n > MAX_PARTITIONS then MAX_PARTITIONS else n
  }

  /** The i-th of n ranges; the last one takes the remainder. */
  function RangeAt(total: nat, n: int, i: int): PartitionRange
    requires n > 0
  {
    var offset := i * (total / n);
    PartitionRange(i, offset, if i == n - 1 then total - offset else total / n)
  }

  function Ranges(total: nat): seq<PartitionRange> {
    var n := Clamp(total / DEFAULT_BATCH_SIZE);
    seq(n, i => RangeAt(total, n, i))
  }

  /** DeterminePartitionsActivity. Without an estimate the source is asked for its streams, which
      may fail. */
  method DeterminePartitions(totalEstimate: int, streams: Result<nat, string>)
    returns (r: Result<seq<PartitionRange>, string>)
    ensures totalEstimate > 0 ==> r == Success(Ranges(totalEstimate))
    ensures totalEstimate <= 0 ==>
              r == match streams
                   case Failure(e) => Failure(e)
                   case Success(n) => Success(Ranges(n * 10000))
  {
    var total := totalEstimate;
    if total <= 0 {
      if streams.Failure? {
        return Failure(streams.error);
      }
      total := streams.value * RECORDS_PER_STREAM;
    }
    var numPartitions := total / DEFAULT_BATCH_SIZE;
    if numPartitions < 1 {
      numPartitions := 1;
    }
    if numPartitions > MAX_PARTITIONS {
      numPartitions := MAX_PARTITIONS;
    }
    var recordsPerPartition := total / numPartitions;
    var partitions := new PartitionRange[numPartitions];
    for i := 0 to numPartitions
      invariant forall j | 0 <= j < i :: partitions[j] == RangeAt(total, numPartitions, j)
    {
      var offset := i * recordsPerPartition;
      var limit := recordsPerPartition;
      if i == numPartitions - 1 {
        limit := total - offset;
      }
      partitions[i] := PartitionRange(i, offset, limit);
    }
    assert partitions[..] == Ranges(total);
    return Success(partitions[..]);
  }

  /** The fixed partition counts, so that the products are linear. */
  lemma Shares(total: nat, n: int)
    requires 1 <= n <= MAX_PARTITIONS
    ensures 0 <= n * (total / n) <= total
    ensures total >= n * DEFAULT_BATCH_SIZE ==> total / n >= DEFAULT_BATCH_SIZE
  {
    if n == 1 {
    } else if n == 2 {
    } else if n == 3 {
    } else if n == 4 {
    } else if n == 5 {
    } else if n == 6 {
    } else if n == 7 {
    } else {
    }
  }

  lemma NextShare(i: int, each: int)
    ensures (i + 1) * each == i * each + each
  {
  }

  lemma RangesFollow(total: nat, n: int, i: int)
    requires 1 <= n <= MAX_PARTITIONS && 0 <= i < n
    ensures var p := RangeAt(total, n, i);
            && p.id == i && p.limit >= 0 && (total >= n * DEFAULT_BATCH_SIZE ==> p.limit >= DEFAULT_BATCH_SIZE)
            && p.offset + p.limit == if i == n - 1 then total else RangeAt(total, n, i + 1).offset
  {
    var each := total / n;
    Shares(total, n);
    NextShare(i, each);
    NextShare(n - 1, each);
  }

  lemma FirstOffset(total: nat, n: int)
    requires n > 0
    ensures RangeAt(total, n, 0).offset == 0
  {
  }

  lemma CountOfRanges(total: nat) returns (n: int)
    ensures 1 <= n <= MAX_PARTITIONS && (n > 1 ==> total >= n * DEFAULT_BATCH_SIZE)
    ensures |Ranges(total)| == n && forall i | 0 <= i < n :: Ranges(total)[i] == RangeAt(total, n, i)
  {
    n := Clamp(total / DEFAULT_BATCH_SIZE);
  }

  /** The partitions are one to eight ranges that follow one another from 0 to the total, and none
      is smaller than a batch unless it is the only one. */
  lemma PartitionsTile(total: nat)
    ensures var ps := Ranges(total);
            && 1 <= |ps| <= MAX_PARTITIONS
            && ps[0].offset == 0 && ps[|ps| - 1].offset + ps[|ps| - 1].limit == total
            && (forall i | 0 <= i < |ps| - 1 :: ps[i + 1].offset == ps[i].offset + ps[i].limit)
            && (forall i | 0 <= i < |ps| :: ps[i].id == i && ps[i].limit >= 0)
            && (|ps| > 1 ==> forall i | 0 <= i < |ps| :: ps[i].limit >= DEFAULT_BATCH_SIZE)
  {
    hide Ranges, RangeAt;
    var n := CountOfRanges(total);
    var ps := Ranges(total);
    FirstOffset(total, n);
    RangesFollow(total, n, n - 1);
    forall i | 0 <= i < n ensures ps[i].id == i && ps[i].limit >= 0 && (n > 1 ==> ps[i].limit >= DEFAULT_BATCH_SIZE) {
      RangesFollow(total, n, i);
    }
    forall i | 0 <= i < n - 1 ensures ps[i + 1].offset == ps[i].offset + ps[i].limit {
      RangesFollow(total, n, i);
    }
  }

  /** There are as many partitions as fit, of 1000 records each, but one at least and eight at most. All
      before the last are of one size, and the last has fewer than their number more. */
  lemma PartitionsAreEven(total: nat)
    ensures var ps := Ranges(total);
            && |ps| >= 1
            && (|ps| > 1 ==> |ps| * 1000 <= total) && (|ps| < 8 ==> total < (|ps| + 1) * 1000) && |ps| <= 8
            && (forall i | 0 <= i < |ps| - 1 :: ps[i].limit == ps[0].limit)
            && ps[0].limit <= ps[|ps| - 1].limit < ps[0].limit + |ps|
  {
    hide Ranges;
    var n := CountOfRanges(total);
    CountIsMost(total);
    LastShare(total, n);
  }

  lemma CountIsMost(total: nat)
    ensures |Ranges(total)| < 8 ==> total < (|Ranges(total)| + 1) * 1000
  {
  }

  lemma LastShare(total: nat, n: int)
    requires 1 <= n <= MAX_PARTITIONS
    ensures total / n <= total - (n - 1) * (total / n) < total / n + n
  {
    if n == 1 {
    } else if n == 2 {
    } else if n == 3 {
    } else if n == 4 {
    } else if n == 5 {
    } else if n == 6 {
    } else if n == 7 {
    } else {
    }
  }

  predicate Holds(p: PartitionRange, k: int) {
    p.offset <= k < p.offset + p.limit
  }

  lemma {:induction false} OffsetsGrow(ps: seq<PartitionRange>, i: nat, j: nat)
    requires i < j < |ps| && (forall m | 0 <= m < |ps| - 1 :: ps[m + 1].offset == ps[m].offset + ps[m].limit)
    requires forall m | 0 <= m < |ps| :: ps[m].limit >= 0
    ensures ps[i].offset + ps[i].limit <= ps[j].offset
  {
    if j == i + 1 {
      assert ps[i + 1].offset == ps[i].offset + ps[i].limit;
    } else {
      OffsetsGrow(ps, i, j - 1);
      assert ps[j - 1 + 1].offset == ps[j - 1].offset + ps[j - 1].limit;
    }
  }

  lemma {:induction false} SomeHolds(ps: seq<PartitionRange>, k: int, n: nat) returns (i: nat)
    requires 1 <= n <= |ps| && ps[0].offset <= k < ps[n - 1].offset + ps[n - 1].limit
    requires forall m | 0 <= m < |ps| - 1 :: ps[m + 1].offset == ps[m].offset + ps[m].limit
    ensures i < n && Holds(ps[i], k)
  {
    if ps[n - 1].offset <= k {
      i := n - 1;
    } else {
      assert ps[n - 2 + 1].offset == ps[n - 2].offset + ps[n - 2].limit;
      i := SomeHolds(ps, k, n - 1);
    }
  }

  /** Every record position is in exactly one partition. */
  lemma EachPositionOnce(total: nat, k: nat) returns (i: nat)
    requires k < total
    ensures i < |Ranges(total)| && Holds(Ranges(total)[i], k)
    ensures forall j | 0 <= j < |Ranges(total)| && j != i :: !Holds(Ranges(total)[j], k)
  {
    hide Ranges;
    var ps := Ranges(total);
    PartitionsTile(total);
    i := SomeHolds(ps, k, |ps|);
    forall j | 0 <= j < |ps| && j != i ensures !Holds(ps[j], k) {
      if j < i {
        OffsetsGrow(ps, j, i);
      } else {
        OffsetsGrow(ps, i, j);
      }
    }
  }

  // ----- Batches -----

  /** Records are not looked into. */
  type Record = string

  function Batches(records: seq<Record>, size: nat): seq<seq<Record>>
    requires size > 0
    decreases |records|
  {
    if records == [] then []
    else if |records| <= size then [records]
    else [records[..size]] + Batches(records[size..], size)
  }

  function SizeOr(batchSize: int): nat {
    if batchSize <= 0 then DEFAULT_BATCH_SIZE else batchSize
  }

  lemma BatchStep(records: seq<Record>, size: nat, i: nat)
    requires size > 0 && i < |records|
    ensures i + size < |records| ==>
              Batches(records[i..], size) == [records[i..i + size]] + Batches(records[i + size..], size)
    ensures i + size >= |records| ==> Batches(records[i..], size) == [records[i..]]
  {
    if i + size < |records| {
      assert records[i..][..size] == records[i..i + size] && records[i..][size..] == records[i + size..];
    }
  }

  /** The batches cut off so far, with those of the records from i on, are all the batches. */
  ghost predicate CutTo(records: seq<Record>, size: nat, i: nat, batches: seq<seq<Record>>)
    requires size > 0
  {
    batches + (if i < |records| then Batches(records[i..], size) else []) == Batches(records, size)
  }

  lemma CutOne(records: seq<Record>, size: nat, i: nat, end: nat, batches: seq<seq<Record>>)
    requires size > 0 && i < |records| && CutTo(records, size, i, batches)
    requires end == if i + size > |records| then |records| else i + size
    ensures CutTo(records, size, i + size, batches + [records[i..end]])
  {
    hide Batches;
    BatchStep(records, size, i);
    var rest := if i + size < |records| then Batches(records[i + size..], size) else [];
    assert records[i..|records|] == records[i..];
    assert batches + ([records[i..end]] + rest) == batches + [records[i..end]] + rest;
  }

  lemma CutNone(records: seq<Record>, size: nat)
    requires size > 0
    ensures CutTo(records, size, 0, [])
  {
    assert records[0..] == records;
  }

  method SplitIntoBatches(records: seq<Record>, batchSize: int) returns (batches: seq<seq<Record>>)
    ensures batches == Batches(records, SizeOr(batchSize))
  {
    var size := batchSize;
    if size <= 0 {
      size := DEFAULT_BATCH_SIZE;
    }
    batches := [];
    var i := 0;
    CutNone(records, size);
    while i < |records|
      invariant 0 <= i && CutTo(records, size, i, batches)
      decreases |records| - i
    {
      hide CutTo;
      var end := i + size;
      if end > |records| {
        end := |records|;
      }
      CutOne(records, size, i, end, batches);
      batches := batches + [records[i..end]];
      i := i + size;
    }
  }

  lemma {:induction false} BatchesConcat(records: seq<Record>, size: nat)
    requires size > 0
    ensures Concat(Batches(records, size)) == records
    decreases |records|
  {
    if |records| > size {
      var rest := Batches(records[size..], size);
      BatchesConcat(records[size..], size);
      assert ([records[..size]] + rest)[1..] == rest;
    } else if records != [] {
      assert [records][1..] == [];
    }
  }

  lemma {:induction false} BatchesFull(records: seq<Record>, size: nat)
    requires size > 0
    ensures |records| == 0 <==> Batches(records, size) == []
    ensures forall i | 0 <= i < |Batches(records, size)| :: 1 <= |Batches(records, size)[i]| <= size
    ensures forall i | 0 <= i < |Batches(records, size)| - 1 :: |Batches(records, size)[i]| == size
    decreases |records|
  {
    if |records| > size {
      var rest, all := Batches(records[size..], size), Batches(records, size);
      BatchesFull(records[size..], size);
      forall i | 0 < i < |all| ensures all[i] == rest[i - 1] {
      }
    }
  }

  /** Batches put together are the records; none is empty or larger than the batch size, and all
      but the last are full. */
  lemma BatchesCover(records: seq<Record>, batchSize: int)
    ensures var size, batches := if batchSize <= 0 then 1000 else batchSize, Batches(records, SizeOr(batchSize));
            && Concat(batches) == records
            && (forall i | 0 <= i < |batches| :: 1 <= |batches[i]| <= size)
            && (forall i | 0 <= i < |batches| - 1 :: |batches[i]| == size)
  {
    BatchesConcat(records, SizeOr(batchSize));
    BatchesFull(records, SizeOr(batchSize));
  }

  // ----- The load workflow -----

  datatype LoadError =
    | BatchFailed(message: string)
    | BatchReported(message: string)
    | NoDestination(message: string)
    | CheckFailed(message: string)
    | Unhealthy(message: string)
    | Mismatch(expected: int, actual: int)

  /** What a batch write that came back says, with the errors that the destination reported. */
  datatype WriteOutput = WriteOutput(recordsWritten: int, errors: seq<string>)

  function Reported(messages: seq<string>): (errors: seq<LoadError>)
    ensures |errors| == |messages|
  {
    seq(|messages|, i requires 0 <= i < |messages| => BatchReported(messages[i]))
  }

  /** The state of the destination when the load is confirmed. */
  datatype Destination = Unknown(error: string) | CheckError(error: string) | Sick(message: string) | Healthy

  datatype ConfirmOutput = ConfirmOutput(confirmed: bool, discrepancy: Option<LoadError>, errors: seq<LoadError>)

  datatype LoadResult = LoadResult(recordsLoaded: int, batchesWritten: nat, errors: seq<LoadError>)

  method ConfirmWrite(dest: Destination, expected: int, actual: int, batchErrors: seq<LoadError>)
    returns (r: Result<ConfirmOutput, LoadError>)
    ensures r.Success? && r.value.confirmed <==> dest.Healthy? && expected == actual && batchErrors == []
    ensures r == match dest
                 case Unknown(e) => Failure(NoDestination(e))
                 case CheckError(e) => Success(ConfirmOutput(false, None, [CheckFailed(e)]))
                 case Sick(m) => Success(ConfirmOutput(false, None, [Unhealthy(m)]))
                 case Healthy =>
                   Success(ConfirmOutput(
                     expected == actual && batchErrors == [],
                     if expected == actual then None else Some(Mismatch(expected, actual)), batchErrors))
  {
    if dest.Unknown? {
      return Failure(NoDestination(dest.error));
    }
    if dest.CheckError? {
      return Success(ConfirmOutput(false, None, [CheckFailed(dest.error)]));
    }
    if dest.Sick? {
      return Success(ConfirmOutput(false, None, [Unhealthy(dest.message)]));
    }
    var errors := batchErrors;
    var confirmed, discrepancy := true, None;
    if actual != expected {
      confirmed := false;
      discrepancy := Some(Mismatch(expected, actual));
    }
    if |errors| > 0 {
      confirmed := false;
    }
    return Success(ConfirmOutput(confirmed, discrepancy, errors));
  }

  /** The records written by the batches that did not fail, how many those were, and what was
      reported, over the first batches. */
  function Written(outcomes: seq<Result<WriteOutput, string>>): int {
    if outcomes == [] then 0
    else
      var last := outcomes[|outcomes| - 1];
      Written(outcomes[..|outcomes| - 1]) + if last.Success? then last.value.recordsWritten else 0
  }

  function Successes(outcomes: seq<Result<WriteOutput, string>>): nat {
    if outcomes == [] then 0
    else Successes(outcomes[..|outcomes| - 1]) + if outcomes[|outcomes| - 1].Success? then 1 else 0
  }

  function Failures(outcomes: seq<Result<WriteOutput, string>>): nat {
    if outcomes == [] then 0
    else Failures(outcomes[..|outcomes| - 1]) + if outcomes[|outcomes| - 1].Failure? then 1 else 0
  }

  function BatchErrors(outcomes: seq<Result<WriteOutput, string>>): seq<LoadError> {
    if outcomes == [] then []
    else
      var last := outcomes[|outcomes| - 1];
      BatchErrors(outcomes[..|outcomes| - 1])
      + match last
        case Failure(e) => [BatchFailed(e)]
        case Success(w) => Reported(w.errors)
  }

  /** Every error that a load reports, in order. */
  function LoadErrors(expected: int, outcomes: seq<Result<WriteOutput, string>>, dest: Destination): seq<LoadError> {
    var errors := BatchErrors(outcomes);
    match dest
    case Unknown(e) => errors + [NoDestination(e)]
    case CheckError(e) => errors + [CheckFailed(e)]
    case Sick(m) => errors + [Unhealthy(m)]
    case Healthy =>
      errors + (if expected == Written(outcomes) then [] else [Mismatch(expected, Written(outcomes))]) + errors
  }

  /** The results of the batch writes, awaited one after the other. */
  method CollectWrites(futures: seq<Result<WriteOutput, string>>)
    returns (totalLoaded: int, batchesWritten: nat, allErrors: seq<LoadError>)
    ensures totalLoaded == Written(futures) && batchesWritten == Successes(futures) && allErrors == BatchErrors(futures)
  {
    totalLoaded, batchesWritten, allErrors := 0, 0, [];
    for i := 0 to |futures|
      invariant totalLoaded == Written(futures[..i]) && batchesWritten == Successes(futures[..i])
      invariant allErrors == BatchErrors(futures[..i])
    {
      assert futures[..i + 1][..i] == futures[..i];
      if futures[i].Failure? {
        allErrors := allErrors + [BatchFailed(futures[i].error)];
        continue;
      }
      totalLoaded := totalLoaded + futures[i].value.recordsWritten;
      allErrors := allErrors + Reported(futures[i].value.errors);
      batchesWritten := batchesWritten + 1;
    }
    assert futures[..|futures|] == futures;
  }

  /** What becomes of each batch, by its index. */
  function WrittenBatches(batches: seq<seq<Record>>, write: (nat, seq<Record>) -> Result<WriteOutput, string>)
    : seq<Result<WriteOutput, string>>
  {
    seq(|batches|, i requires 0 <= i < |batches| => write(i, batches[i]))
  }

  /** LoadWorkflow. A load without errors has written as many records as there were. */
  method LoadWorkflow(records: seq<Record>, batchSize: int, write: (nat, seq<Record>) -> Result<WriteOutput, string>,
                      dest: Destination)
    returns (result: LoadResult)
    ensures var outcomes := WrittenBatches(Batches(records, SizeOr(batchSize)), write);
            && result.recordsLoaded == Written(outcomes)
            && result.batchesWritten == Successes(outcomes)
            && result.errors == LoadErrors(|records|, outcomes, dest)
    ensures result.errors == [] ==> result.recordsLoaded == |records|
  {
    hide Batches, Written, Successes, BatchErrors;
    var batches := SplitIntoBatches(records, if batchSize <= 0 then DEFAULT_BATCH_SIZE else batchSize);
    var futures: seq<Result<WriteOutput, string>> := [];
    for i := 0 to |batches|
      invariant |futures| == i && forall j | 0 <= j < i :: futures[j] == write(j, batches[j])
    {
      futures := futures + [write(i, batches[i])];
    }
    assert futures == WrittenBatches(batches, write);
    var totalLoaded, batchesWritten, allErrors := CollectWrites(futures);
    var confirm := ConfirmWrite(dest, |records|, totalLoaded, allErrors);
    if confirm.Failure? {
      allErrors := allErrors + [confirm.error];
    } else if !confirm.value.confirmed {
      if confirm.value.discrepancy.Some? {
        allErrors := allErrors + [confirm.value.discrepancy.value];
      }
      allErrors := allErrors + confirm.value.errors;
    }
    result := LoadResult(totalLoaded, batchesWritten, allErrors);
  }

  /** The batches written and those that failed are all the batches. */
  lemma {:induction false} WrittenAndFailed(outcomes: seq<Result<WriteOutput, string>>)
    ensures Successes(outcomes) + Failures(outcomes) == |outcomes|
    ensures Failures(outcomes) <= |BatchErrors(outcomes)|
  {
    if outcomes != [] {
      WrittenAndFailed(outcomes[..|outcomes| - 1]);
    }
  }

  lemma {:induction false} NoBatchErrors(outcomes: seq<Result<WriteOutput, string>>)
    ensures BatchErrors(outcomes) == [] <==> forall o :: o in outcomes ==> o.Success? && o.value.errors == []
  {
    if outcomes != [] {
      var n := |outcomes| - 1;
      NoBatchErrors(outcomes[..n]);
      assert outcomes == outcomes[..n] + [outcomes[n]];
    }
  }

  /** A load reports no error exactly when every batch was written without a complaint, as many
      records were written as there were, and the destination is healthy. */
  lemma LoadIsHonest(expected: int, outcomes: seq<Result<WriteOutput, string>>, dest: Destination)
    ensures LoadErrors(expected, outcomes, dest) == [] <==>
              && (forall o :: o in outcomes ==> o.Success? && o.value.errors == [])
              && Written(outcomes) == expected
              && dest.Healthy?
  {
    NoBatchErrors(outcomes);
  }

  lemma {:induction false} OnlyBatchErrors(outcomes: seq<Result<WriteOutput, string>>)
    ensures forall e :: e in BatchErrors(outcomes) ==> e.BatchFailed? || e.BatchReported?
  {
    if outcomes != [] {
      OnlyBatchErrors(outcomes[..|outcomes| - 1]);
    }
  }

  /** With a healthy destination, each batch error is reported twice. */
  lemma BatchErrorsTwice(expected: int, outcomes: seq<Result<WriteOutput, string>>, e: LoadError)
    requires !e.Mismatch?
    ensures multiset(LoadErrors(expected, outcomes, Healthy))[e] == 2 * multiset(BatchErrors(outcomes))[e]
  {
    var errors := BatchErrors(outcomes);
    var middle := if expected == Written(outcomes) then [] else [Mismatch(expected, Written(outcomes))];
    assert multiset(errors + middle + errors) == multiset(errors) + multiset(middle) + multiset(errors);
  }

  /** With any other, the batch errors are followed by the one that the confirmation gives. */
  lemma BatchErrorsAndOne(expected: int, outcomes: seq<Result<WriteOutput, string>>, dest: Destination)
    requires !dest.Healthy?
    ensures exists e: LoadError :: !e.BatchFailed? && !e.BatchReported?
              && LoadErrors(expected, outcomes, dest) == BatchErrors(outcomes) + [e]
  {
    hide BatchErrors;
    match dest
    case Unknown(m) => assert LoadErrors(expected, outcomes, dest) == BatchErrors(outcomes) + [NoDestination(m)];
    case CheckError(m) => assert LoadErrors(expected, outcomes, dest) == BatchErrors(outcomes) + [CheckFailed(m)];
    case Sick(m) => assert LoadErrors(expected, outcomes, dest) == BatchErrors(outcomes) + [Unhealthy(m)];
  }

  /** Every batch error is in the result as often as it occurred. */
  ghost predicate ReportedOnce(expected: int, outcomes: seq<Result<WriteOutput, string>>, dest: Destination) {
    forall e :: e in BatchErrors(outcomes) ==>
      multiset(LoadErrors(expected, outcomes, dest))[e] == multiset(BatchErrors(outcomes))[e]
  }

  /** Each batch error is reported once if and only if there is none or the destination is not healthy. */
  lemma ReportedOnceIff(expected: int, outcomes: seq<Result<WriteOutput, string>>, dest: Destination)
    ensures ReportedOnce(expected, outcomes, dest) <==> BatchErrors(outcomes) == [] || !dest.Healthy?
  {
    OnlyBatchErrors(outcomes);
    hide LoadErrors, BatchErrors;
    var errors := BatchErrors(outcomes);
    if !dest.Healthy? {
      BatchErrorsAndOne(expected, outcomes, dest);
      var e: LoadError :| !e.BatchFailed? && !e.BatchReported? && LoadErrors(expected, outcomes, dest) == errors + [e];
      assert multiset(errors + [e]) == multiset(errors) + multiset{e};
    } else if errors != [] {
      assert errors[0] in errors;
      BatchErrorsTwice(expected, outcomes, errors[0]);
      assert multiset(errors)[errors[0]] > 0;
    }
  }

  // ----- What the counts say -----

  /** Outcomes of one run of batches and then of another: the records, the batches and the errors are those
      of both, in this order. */
  lemma {:induction false} OutcomesOfSum(a: seq<Result<WriteOutput, string>>, b: seq<Result<WriteOutput, string>>)
    ensures Written(a + b) == Written(a) + Written(b) && Successes(a + b) == Successes(a) + Successes(b)
    ensures BatchErrors(a + b) == BatchErrors(a) + BatchErrors(b)
    decreases |b|
  {
    hide Written, Successes, BatchErrors;
    if b == [] {
      assert a + b == a;
      NoOutcomes(b);
    } else {
      var n := |b| - 1;
      OutcomesOfSum(a, b[..n]);
      OneMoreOutcome(a + b[..n], b[n]);
      OneMoreOutcome(b[..n], b[n]);
      assert b == b[..n] + [b[n]] && a + b == a + b[..n] + [b[n]];
      var more := BatchErrors([b[n]]);
      assert BatchErrors(a) + (BatchErrors(b[..n]) + more) == BatchErrors(a) + BatchErrors(b[..n]) + more;
    }
  }

  lemma NoOutcomes(os: seq<Result<WriteOutput, string>>)
    requires os == []
    ensures Written(os) == 0 && Successes(os) == 0 && BatchErrors(os) == []
  {
  }

  lemma OneMoreOutcome(os: seq<Result<WriteOutput, string>>, o: Result<WriteOutput, string>)
    ensures Written(os + [o]) == Written(os) + Written([o]) && Successes(os + [o]) == Successes(os) + Successes([o])
    ensures BatchErrors(os + [o]) == BatchErrors(os) + BatchErrors([o])
  {
    hide Reported;
    assert (os + [o])[..|os|] == os && [o][..0] == [];
    NoOutcomes([o][..0]);
    var one := BatchErrors([o]);
    assert [] + one == one;
  }

  lemma OneOutcome(o: Result<WriteOutput, string>)
    ensures Written([o]) == (if o.Success? then o.value.recordsWritten else 0)
    ensures Successes([o]) == if o.Success? then 1 else 0
    ensures o.Failure? ==> BatchErrors([o]) == [BatchFailed(o.error)]
    ensures o.Success? ==> |BatchErrors([o])| == |o.value.errors|
    ensures o.Success? ==>
              forall i | 0 <= i < |o.value.errors| :: BatchErrors([o])[i] == BatchReported(o.value.errors[i])
  {
    assert [o][..0] == [];
  }

  /** The destination takes whole batches without complaint, except for one whose write fails. */
  ghost predicate AllButOne(batches: seq<seq<Record>>, outcomes: seq<Result<WriteOutput, string>>, bad: int,
                            error: string)
  {
    && |outcomes| == |batches|
    && forall i | 0 <= i < |batches| ::
         outcomes[i] == if i == bad then Failure(error) else Success(WriteOutput(|batches[i]|, []))
  }

  lemma {:induction false} CountsOfAllButOne(batches: seq<seq<Record>>, outcomes: seq<Result<WriteOutput, string>>,
                                             bad: int, error: string)
    requires AllButOne(batches, outcomes, bad, error)
    ensures var isBad := 0 <= bad < |batches|;
            && Written(outcomes) == |Concat(batches)| - (if isBad then |batches[bad]| else 0)
            && Successes(outcomes) == |batches| - (if isBad then 1 else 0)
            && BatchErrors(outcomes) == if isBad then [BatchFailed(error)] else []
  {
    if batches != [] {
      hide Written, Successes, BatchErrors, Concat;
      var n := |batches| - 1;
      CountsOfAllButOne(batches[..n], outcomes[..n], bad, error);
      ConcatOne(batches[..n], batches[n]);
      assert batches == batches[..n] + [batches[n]] && outcomes == outcomes[..n] + [outcomes[n]];
      OutcomesOfSum(outcomes[..n], [outcomes[n]]);
      OneOutcome(outcomes[n]);
    }
  }

  /** A load whose writes all go well loads every record in all batches and reports nothing, if the
      destination is healthy. */
  lemma CleanLoad(records: seq<Record>, batchSize: int, write: (nat, seq<Record>) -> Result<WriteOutput, string>)
    requires forall i, batch :: write(i, batch) == Success(WriteOutput(|batch|, []))
    ensures var batches := Batches(records, SizeOr(batchSize));
            var outcomes := WrittenBatches(batches, write);
            && Written(outcomes) == |records| && Successes(outcomes) == |batches|
            && LoadErrors(|records|, outcomes, Healthy) == []
  {
    hide Batches, Written, Successes, BatchErrors;
    var batches := Batches(records, SizeOr(batchSize));
    BatchesCover(records, batchSize);
    CountsOfAllButOne(batches, WrittenBatches(batches, write), -1, "");
  }

  /** A load in which the write of one batch fails loads all other records; a healthy destination gets the
      failure, the missing records, and the failure again. */
  lemma OneBatchFails(records: seq<Record>, batchSize: int, write: (nat, seq<Record>) -> Result<WriteOutput, string>,
                      bad: nat, error: string)
    requires forall i, batch ::
               write(i, batch) == if i == bad then Failure(error) else Success(WriteOutput(|batch|, []))
    requires bad < |Batches(records, SizeOr(batchSize))|
    ensures var batches := Batches(records, SizeOr(batchSize));
            var outcomes := WrittenBatches(batches, write);
            var loaded := |records| - |batches[bad]|;
            && Written(outcomes) == loaded && Successes(outcomes) == |batches| - 1
            && LoadErrors(|records|, outcomes, Healthy)
               == [BatchFailed(error), Mismatch(|records|, loaded), BatchFailed(error)]
  {
    hide Batches, Written, Successes, BatchErrors;
    var batches := Batches(records, SizeOr(batchSize));
    BatchesCover(records, batchSize);
    CountsOfAllButOne(batches, WrittenBatches(batches, write), bad, error);
    assert 1 <= |batches[bad]|;
  }
}
