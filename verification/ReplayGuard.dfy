// The replay store, and how long a record must be kept.
module ReplayGuard {
  import opened Options
  import Idempotency

  /** Milliseconds. */
  type Instant = int

  type Seen = map<string, Instant>

  datatype Outcome = Accepted | Duplicate | RejectedSignature | RejectedSize | RejectedTimestamp

  datatype DeliveryRecord = DeliveryRecord(endpointId: string, dedupKey: string, outcome: Outcome, receivedAt: Instant)

  datatype RecordResult = RecordResult(first: bool, originallyAt: Option<Instant>)

  function KeyOf(endpointId: string, dedupKey: string): string {
    endpointId + [Idempotency.SEPARATOR] + dedupKey
  }

  /** Endpoint ids without NUL never collide, whatever the sender puts in the key. */
  lemma KeysApart(e: string, k: string, e': string, k': string)
    requires Idempotency.SEPARATOR !in e && Idempotency.SEPARATOR !in e'
    requires KeyOf(e, k) == KeyOf(e', k')
    ensures e == e' && k == k'
  {
    Idempotency.JoinInjective(e, k, e', k');
  }

  /** Only accepted deliveries are remembered, and the first time stays. */
  function Recorded(seen: Seen, r: DeliveryRecord): (Seen, RecordResult) {
    var key := KeyOf(r.endpointId, r.dedupKey);
    if r.outcome != Accepted then (seen, RecordResult(true, None))
    else if key in seen then (seen, RecordResult(false, Some(seen[key])))
    else (seen[key := r.receivedAt], RecordResult(true, None))
  }

  function Released(seen: Seen, endpointId: string, dedupKey: string): Seen {
    seen - {KeyOf(endpointId, dedupKey)}
  }

  function Pruned(seen: Seen, olderThan: Instant): (r: Seen)
    ensures forall key :: key in r <==> key in seen && seen[key] >= olderThan
    ensures forall key :: key in r ==> r[key] == seen[key]
  {
    map key | key in seen && seen[key] >= olderThan :: seen[key]
  }

  class MemoryReplayStore {
    var seen: Seen
    const retentionMs: nat

    constructor (retentionMs: nat)
      ensures seen == map[] && this.retentionMs == retentionMs
    {
      seen := map[];
      this.retentionMs := retentionMs;
    }

    method Record(record: DeliveryRecord) returns (r: RecordResult)
      modifies this
      ensures (seen, r) == Recorded(old(seen), record)
    {
      if record.outcome != Accepted {
        return RecordResult(true, None);
      }
      var key := KeyOf(record.endpointId, record.dedupKey);
      if key in seen {
        return RecordResult(false, Some(seen[key]));
      }
      seen := seen[key := record.receivedAt];
      r := RecordResult(true, None);
    }

    method Release(endpointId: string, dedupKey: string)
      modifies this
      ensures seen == Released(old(seen), endpointId, dedupKey)
    {
      seen := seen - {KeyOf(endpointId, dedupKey)};
    }

    method Prune(olderThan: Instant) returns (removed: nat)
      modifies this
      ensures seen == Pruned(old(seen), olderThan)
      ensures removed == |old(seen)| - |seen|
    {
      removed := 0;
      var left := seen.Keys;
      while left != {}
        invariant left <= old(seen).Keys && left <= seen.Keys
        invariant forall key :: key in seen <==> key in old(seen) && (key in left || old(seen)[key] >= olderThan)
        invariant forall key :: key in seen ==> seen[key] == old(seen)[key]
        invariant removed == |old(seen)| - |seen|
      {
        var key :| key in left;
        left := left - {key};
        if seen[key] < olderThan {
          RemoveOne(seen, key);
          seen := seen - {key};
          removed := removed + 1;
        }
      }
    }
  }

  lemma RemoveOne(seen: Seen, key: string)
    requires key in seen
    ensures |seen - {key}| == |seen| - 1
  {
    assert (seen - {key}).Keys == seen.Keys - {key};
    assert |(seen - {key}).Keys| == |seen - {key}| && |seen.Keys| == |seen|;
  }

  // ---- the gate ----

  datatype Reason = BodyTooLarge | TimestampOutsideTolerance | MalformedTimestamp | MissingTimestamp | Unauthentic

  /** What the endpoint's scheme made of the request. */
  datatype Verification = Verified(dedupKey: string) | Refused(reason: Reason)

  datatype GateResult =
    | Admitted(dedupKey: string)
    | Repeated(dedupKey: string, originallyAt: Option<Instant>)
    | Turned(status: nat, outcome: Outcome)

  function Refusal(reason: Reason): GateResult {
    match reason
    case BodyTooLarge => Turned(413, RejectedSize)
    case Unauthentic => Turned(401, RejectedSignature)
    case _ => Turned(400, RejectedTimestamp)
  }

  /** Verify, then record, then answer: only an authentic request touches the store. */
  method Gate(store: MemoryReplayStore, endpointId: string, allowedMethod: bool, verified: Verification, now: Instant)
    returns (r: GateResult)
    modifies store
    ensures r.Turned? <==> !allowedMethod || verified.Refused?
    ensures !allowedMethod ==> r == Turned(405, RejectedSignature)
    ensures allowedMethod && verified.Refused? ==>
      && (verified.reason.BodyTooLarge? ==> r == Turned(413, RejectedSize))
      && (verified.reason.Unauthentic? ==> r == Turned(401, RejectedSignature))
      && (!verified.reason.BodyTooLarge? && !verified.reason.Unauthentic? ==> r == Turned(400, RejectedTimestamp))
    ensures r.Turned? || r.Repeated? ==> store.seen == old(store.seen)
    ensures !r.Turned? ==>
      var key := KeyOf(endpointId, verified.dedupKey);
      && (r.Admitted? <==> key !in old(store.seen))
      && r.dedupKey == verified.dedupKey && key in store.seen
      && (r.Admitted? ==> store.seen == old(store.seen)[key := now])
      && (r.Repeated? ==> r.originallyAt == Some(old(store.seen)[key]))
  {
    if !allowedMethod {
      return Turned(405, RejectedSignature);
    }
    if verified.Refused? {
      return Refusal(verified.reason);
    }
    var result := store.Record(DeliveryRecord(endpointId, verified.dedupKey, Accepted, now));
    r := if result.first then Admitted(verified.dedupKey) else Repeated(verified.dedupKey, result.originallyAt);
  }

  // ---- the timestamp window ----

  datatype Tolerance = InTime | OutsideTolerance | Malformed | BadTolerance

  function Abs(x: int): nat {
    if x < 0 then -x else x
  }

  /** `claimed` is None for a timestamp that is not a number. */
  function CheckTolerance(claimed: Option<Instant>, toleranceMs: int, now: Instant): Tolerance {
    if claimed.None? then Malformed
    else if toleranceMs <= 0 then BadTolerance
    else if Abs(now - claimed.value) > toleranceMs then OutsideTolerance
    else InTime
  }

  predicate RetentionCovers(retentionMs: int, toleranceMs: int) {
    retentionMs >= toleranceMs
  }

  // ---- how long is long enough ----

  /** What may happen to the store between two presentations of one delivery. */
  datatype StoreOp =
    | RecordOp(record: DeliveryRecord)
    | PruneOp(at: Instant)
    | ReleaseOp(endpointId: string, dedupKey: string)

  /** Pruning is by age: it drops what is older than the retention when it runs. */
  function ApplyOp(seen: Seen, op: StoreOp, retentionMs: nat): Seen {
    match op
    case RecordOp(r) => Recorded(seen, r).0
    case PruneOp(at) => Pruned(seen, at - retentionMs)
    case ReleaseOp(e, k) => Released(seen, e, k)
  }

  function ApplyAll(seen: Seen, ops: seq<StoreOp>, retentionMs: nat): Seen {
    if ops == [] then seen else ApplyOp(ApplyAll(seen, ops[..|ops| - 1], retentionMs), ops[|ops| - 1], retentionMs)
  }

  /** No release of the key, and every prune happens by `until`. */
  predicate Undisturbed(ops: seq<StoreOp>, key: string, until: Instant) {
    forall op :: op in ops ==>
      (op.ReleaseOp? ==> KeyOf(op.endpointId, op.dedupKey) != key) && (op.PruneOp? ==> op.at <= until)
  }

  lemma {:induction false} StaysRemembered(seen: Seen, ops: seq<StoreOp>, retentionMs: nat, key: string, until: Instant)
    requires key in seen && until - seen[key] <= retentionMs && Undisturbed(ops, key, until)
    ensures var later := ApplyAll(seen, ops, retentionMs);
      key in later && later[key] == seen[key]
  {
    if ops != [] {
      var n := |ops| - 1;
      assert ops[n] in ops && forall op :: op in ops[..n] ==> op in ops;
      StaysRemembered(seen, ops[..n], retentionMs, key, until);
    }
  }

  /** The latest a copy can still pass, after the first was received. */
  function WindowAfter(claimed: Instant, toleranceMs: nat, received: Instant): int {
    claimed + toleranceMs - received
  }

  /** Every later copy that is in time is recognised, whatever the store did in between. */
  ghost predicate AlwaysDuplicate(claimed: Instant, toleranceMs: nat, received: Instant, retentionMs: nat) {
    forall seen: Seen, ops: seq<StoreOp>, e: string, k: string, again: Instant ::
      KeyOf(e, k) in seen && seen[KeyOf(e, k)] == received && received <= again
      && CheckTolerance(Some(claimed), toleranceMs, again) == InTime
      && Undisturbed(ops, KeyOf(e, k), again)
      ==> !Recorded(ApplyAll(seen, ops, retentionMs), DeliveryRecord(e, k, Accepted, again)).1.first
  }

  /** The retention is long enough exactly if it covers what is left of the window at the first receipt. */
  lemma RetentionExact(claimed: Instant, toleranceMs: nat, received: Instant, retentionMs: nat)
    requires CheckTolerance(Some(claimed), toleranceMs, received) == InTime
    ensures AlwaysDuplicate(claimed, toleranceMs, received, retentionMs) <==>
      retentionMs >= WindowAfter(claimed, toleranceMs, received)
  {
    if retentionMs >= WindowAfter(claimed, toleranceMs, received) {
      forall seen: Seen, ops: seq<StoreOp>, e: string, k: string, again: Instant |
        KeyOf(e, k) in seen && seen[KeyOf(e, k)] == received && received <= again
        && CheckTolerance(Some(claimed), toleranceMs, again) == InTime
        && Undisturbed(ops, KeyOf(e, k), again)
        ensures !Recorded(ApplyAll(seen, ops, retentionMs), DeliveryRecord(e, k, Accepted, again)).1.first
      {
        StaysRemembered(seen, ops, retentionMs, KeyOf(e, k), again);
      }
    } else {
      Forgotten(claimed, toleranceMs, received, retentionMs);
    }
  }

  /** A prune at the last moment of the window forgets a record the window still admits. */
  lemma Forgotten(claimed: Instant, toleranceMs: nat, received: Instant, retentionMs: nat)
    requires CheckTolerance(Some(claimed), toleranceMs, received) == InTime
    requires retentionMs < WindowAfter(claimed, toleranceMs, received)
    ensures !AlwaysDuplicate(claimed, toleranceMs, received, retentionMs)
  {
    var key, again := KeyOf("e", "k"), claimed + toleranceMs;
    var seen: Seen := map[key := received];
    var ops := [PruneOp(again)];
    assert ops[..0] == [];
    assert ApplyAll(seen, ops, retentionMs) == Pruned(seen, again - retentionMs);
    assert Undisturbed(ops, key, again);
    assert Recorded(ApplyAll(seen, ops, retentionMs), DeliveryRecord("e", "k", Accepted, again)).1.first;
  }

  /** Twice the tolerance is always enough. */
  lemma TwiceSuffices(claimed: Instant, toleranceMs: nat, received: Instant, retentionMs: nat)
    requires CheckTolerance(Some(claimed), toleranceMs, received) == InTime && retentionMs >= 2 * toleranceMs
    ensures AlwaysDuplicate(claimed, toleranceMs, received, retentionMs)
  {
    RetentionExact(claimed, toleranceMs, received, retentionMs);
  }

  /** The asserted bound alone is enough exactly if the first copy was not received before the time it claims. */
  lemma AssertedSuffices(claimed: Instant, toleranceMs: nat, received: Instant)
    requires CheckTolerance(Some(claimed), toleranceMs, received) == InTime
    ensures (forall retentionMs: nat :: RetentionCovers(retentionMs, toleranceMs) ==>
              AlwaysDuplicate(claimed, toleranceMs, received, retentionMs))
      <==> received >= claimed
  {
    RetentionExact(claimed, toleranceMs, received, toleranceMs);
    forall retentionMs: nat | RetentionCovers(retentionMs, toleranceMs)
      ensures received >= claimed ==> AlwaysDuplicate(claimed, toleranceMs, received, retentionMs)
    {
      RetentionExact(claimed, toleranceMs, received, retentionMs);
    }
    assert RetentionCovers(toleranceMs, toleranceMs);
    hide AlwaysDuplicate;
  }

  // ---- what is remembered, and what is not ----

  /** A rejected delivery leaves no trace; an accepted one is remembered at its first time. */
  lemma OnlyAcceptedRemembered(seen: Seen, r: DeliveryRecord)
    ensures var (after, result) := Recorded(seen, r);
      var key := KeyOf(r.endpointId, r.dedupKey);
      && (forall k :: k in seen ==> k in after && after[k] == seen[k])
      && (forall k :: k in after && k !in seen ==> k == key && r.outcome == Accepted && after[k] == r.receivedAt)
      && (r.outcome == Accepted ==> key in after && (result.first <==> key !in seen))
      && (r.outcome != Accepted ==> result.first)
      && (!result.first ==> result.originallyAt == Some(seen[key]))
  {
  }

  /** In time exactly from toleranceMs before the claimed instant to toleranceMs after it. */
  lemma ToleranceExactly(claimed: Instant, toleranceMs: int, now: Instant)
    ensures CheckTolerance(None, toleranceMs, now) == Malformed
    ensures toleranceMs <= 0 ==> CheckTolerance(Some(claimed), toleranceMs, now) == BadTolerance
    ensures toleranceMs > 0 ==>
      CheckTolerance(Some(claimed), toleranceMs, now)
        == if claimed - toleranceMs <= now <= claimed + toleranceMs then InTime else OutsideTolerance
  {
  }
}
