/** The gate every release passes through: an acknowledgement is validated as a
    whole before any row leaves the queue. */
module RelayAck {
  import opened Common

  const OUTCOMES: seq<string> := [
    "stored", "replayed", "resumed", "ignored_end", "dropped_policy", "dropped_subagent",
    "dropped_unauthorized", "dropped_collision", "dropped_invalid", "unknown"]

  /** Server text outside the fixed vocabulary is not retained. */
  function Outcome(value: string): (known: string)
    ensures known in OUTCOMES
    ensures value in OUTCOMES ==> known == value
    ensures value !in OUTCOMES ==> known == "unknown"
  {
    if value in OUTCOMES then value else assert OUTCOMES[9] in OUTCOMES; "unknown"
  }

  datatype EventResult = EventResult(index: nat, outcome: string)

  datatype BatchAck = BatchAck(
    accepted: nat, acceptedIndices: Option<seq<nat>>, failedIndex: Option<nat>,
    results: Option<seq<EventResult>>)

  datatype Rejection =
    | IndexOutsideBatch | NotAscending | PrefixDisagrees | AcceptedTooLarge
    | FailedOutsideBatch | FailedIsAccepted | AcceptedAfterFailed | ResultsMismatch

  /** Length of the leading run `0, 1, 2, …`. */
  function PrefixLength(indices: seq<nat>, from: nat := 0): nat
    requires from <= |indices|
    decreases |indices| - from
  {
    if from < |indices| && indices[from] == from then 1 + PrefixLength(indices, from + 1) else 0
  }

  function AcceptedOf(batchLen: nat, ack: BatchAck): Result<seq<nat>, Rejection> {
    match ack.acceptedIndices
    case Some(indices) =>
      if exists k :: 0 <= k < |indices| && indices[k] >= batchLen then Err(IndexOutsideBatch)
      else if exists k :: 0 <= k < |indices| - 1 && indices[k] >= indices[k + 1] then Err(NotAscending)
      else if PrefixLength(indices) != ack.accepted then Err(PrefixDisagrees)
      else Ok(indices)
    case None =>
      if ack.accepted > batchLen then Err(AcceptedTooLarge)
      else Ok(seq(ack.accepted, i => i))
  }

  function Validate(batchLen: nat, ack: BatchAck): Result<seq<nat>, Rejection> {
    var accepted := AcceptedOf(batchLen, ack);
    if accepted.Err? then accepted
    else if ack.failedIndex.Some? && ack.failedIndex.value >= batchLen then Err(FailedOutsideBatch)
    else if ack.failedIndex.Some? && ack.failedIndex.value in accepted.value then Err(FailedIsAccepted)
    else if ack.failedIndex.Some?
      && exists k :: 0 <= k < |accepted.value| && accepted.value[k] > ack.failedIndex.value then
      Err(AcceptedAfterFailed)
    else if ack.results.Some?
      && (|ack.results.value| != |accepted.value|
          || exists k :: 0 <= k < |accepted.value| && ack.results.value[k].index != accepted.value[k]) then
      Err(ResultsMismatch)
    else accepted
  }

  function AcknowledgedOutcome(ack: BatchAck, index: nat): string {
    if ack.results.None? then "unknown" else ReportedOutcome(ack.results.value, index)
  }

  function ReportedOutcome(results: seq<EventResult>, index: nat): string {
    if results == [] then "unknown"
    else if results[0].index == index then Outcome(results[0].outcome)
    else ReportedOutcome(results[1..], index)
  }

  // ---- what a consistent acknowledgement is ------------------------------------

  predicate Ascending(indices: seq<nat>) {
    forall i, j :: 0 <= i < j < |indices| ==> indices[i] < indices[j]
  }

  /** `n` is the exact length of the contiguous run from index 0. */
  predicate ExactPrefix(indices: seq<nat>, n: nat) {
    && n <= |indices|
    && (forall k :: 0 <= k < n ==> indices[k] == k)
    && (n < |indices| ==> indices[n] != n)
  }

  /** The acknowledgement describes a run the server can have made of a batch of
      `batchLen` items, in which exactly `released` were committed. */
  predicate Consistent(batchLen: nat, ack: BatchAck, released: seq<nat>) {
    && Ascending(released)
    && (forall k :: 0 <= k < |released| ==> released[k] < batchLen)
    && ExactPrefix(released, ack.accepted)
    && (ack.acceptedIndices.Some? ==> released == ack.acceptedIndices.value)
    && (ack.acceptedIndices.None? ==> |released| == ack.accepted)
    && (ack.failedIndex.Some? ==>
          && ack.failedIndex.value < batchLen
          && forall k :: 0 <= k < |released| ==> released[k] < ack.failedIndex.value)
    && (ack.results.Some? ==>
          && |ack.results.value| == |released|
          && forall k :: 0 <= k < |released| ==> ack.results.value[k].index == released[k])
  }

  lemma {:induction false} PrefixIsExact(indices: seq<nat>, from: nat, n: nat)
    requires from <= |indices| && forall k :: 0 <= k < from ==> indices[k] == k
    ensures ExactPrefix(indices, from + PrefixLength(indices, from))
    ensures n >= from && ExactPrefix(indices, n) ==> n == from + PrefixLength(indices, from)
    decreases |indices| - from
  {
    if from < |indices| && indices[from] == from {
      PrefixIsExact(indices, from + 1, n);
    }
  }

  lemma {:induction false} NeighboursAscend(indices: seq<nat>, i: nat, j: nat)
    requires forall k :: 0 <= k < |indices| - 1 ==> indices[k] < indices[k + 1]
    requires i < j < |indices|
    ensures indices[i] < indices[j]
  {
    if i + 1 < j {
      NeighboursAscend(indices, i, j - 1);
    }
  }

  lemma AcceptedOfSound(batchLen: nat, ack: BatchAck)
    requires AcceptedOf(batchLen, ack).Ok?
    ensures var r := AcceptedOf(batchLen, ack).value;
            && Ascending(r)
            && (forall k :: 0 <= k < |r| ==> r[k] < batchLen)
            && ExactPrefix(r, ack.accepted)
            && (ack.acceptedIndices.Some? ==> r == ack.acceptedIndices.value)
            && (ack.acceptedIndices.None? ==> |r| == ack.accepted)
  {
    if ack.acceptedIndices.Some? {
      var indices := ack.acceptedIndices.value;
      forall i, j | 0 <= i < j < |indices|
        ensures indices[i] < indices[j]
      {
        NeighboursAscend(indices, i, j);
      }
      PrefixIsExact(indices, 0, ack.accepted);
    }
  }

  /** Soundness and completeness: an acknowledgement passes exactly when it is
      consistent, and then the released indexes are the ones it describes. */
  lemma ValidateIffConsistent(batchLen: nat, ack: BatchAck)
    ensures Validate(batchLen, ack).Ok? <==> exists released :: Consistent(batchLen, ack, released)
    ensures forall released :: Consistent(batchLen, ack, released) ==> Validate(batchLen, ack) == Ok(released)
  {
    if Validate(batchLen, ack).Ok? {
      AcceptedOfSound(batchLen, ack);
      assert Consistent(batchLen, ack, Validate(batchLen, ack).value);
    }
    forall released | Consistent(batchLen, ack, released)
      ensures Validate(batchLen, ack) == Ok(released)
    {
      ConsistentPasses(batchLen, ack, released);
    }
  }

  lemma ConsistentPasses(batchLen: nat, ack: BatchAck, released: seq<nat>)
    requires Consistent(batchLen, ack, released)
    ensures Validate(batchLen, ack) == Ok(released)
  {
    if ack.acceptedIndices.Some? {
      PrefixIsExact(released, 0, ack.accepted);
    } else {
      assert ack.accepted > 0 ==> released[ack.accepted - 1] == ack.accepted - 1;
      assert released == seq(ack.accepted, i => i);
    }
  }

  /** The first index the prefix stops at was not committed: `accepted` never
      under-reports. */
  lemma AcceptedIsAbsent(batchLen: nat, ack: BatchAck, released: seq<nat>)
    requires Consistent(batchLen, ack, released)
    ensures ack.accepted !in released
  {
    if ack.accepted in released {
      var k :| 0 <= k < |released| && released[k] == ack.accepted;
      if k > ack.accepted {
        AscendingAbove(released, k);
      }
    }
  }

  lemma {:induction false} AscendingAbove(indices: seq<nat>, k: nat)
    requires Ascending(indices) && k < |indices|
    ensures indices[k] >= k
  {
    if k > 0 {
      AscendingAbove(indices, k - 1);
    }
  }

  /** Each released index carries the outcome reported at its own position, and
      every other index carries "unknown". */
  lemma {:induction false} OutcomePerIndex(batchLen: nat, ack: BatchAck, released: seq<nat>, k: nat)
    requires Consistent(batchLen, ack, released) && k < |released|
    ensures AcknowledgedOutcome(ack, released[k])
            == if ack.results.None? then "unknown" else Outcome(ack.results.value[k].outcome)
  {
    if ack.results.Some? {
      OutcomeAt(ack.results.value, k);
    }
  }

  lemma {:induction false} OutcomeAt(results: seq<EventResult>, k: nat)
    requires forall i, j :: 0 <= i < j < |results| ==> results[i].index < results[j].index
    requires k < |results|
    ensures ReportedOutcome(results, results[k].index) == Outcome(results[k].outcome)
  {
    if k > 0 {
      assert results[1..][k - 1] == results[k];
      OutcomeAt(results[1..], k - 1);
    }
  }
}
