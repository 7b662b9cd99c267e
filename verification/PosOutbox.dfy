/** The POS outbox table and the statements that write it: enqueue, the inline
    delivery attempt, the bridge agent's claim and ack, the admin retry and the
    periodic sweep. A row's index is its id; rows are only ever appended, so the
    index order is also the creation order the queries sort by. */
module PosOutbox {
  import opened Common

  const MAX_ATTEMPTS: nat := 5
  const CLAIM_TIMEOUT_MS: int := 60_000
  const BATCH: nat := 10
  const SWEEP_BATCH: nat := 50

  datatype Status = Pending | Claimed | Sent | Failed

  /** EscposBridge is pull-based; every other adapter is pushed inline. */
  datatype Adapter = EscposBridge | Push

  datatype PushOutcome = Delivered | Refused(error: string)

  /** payload is the ticket as the adapter rendered it. */
  datatype Delivery = Delivery(
    venueId: nat, orderId: nat, adapter: Adapter, payload: string, status: Status,
    attempts: nat, claimedAt: Option<int>, claimId: Option<nat>, lastError: Option<string>)

  function Enqueued(venueId: nat, orderId: nat, adapter: Adapter, payload: string): Delivery {
    Delivery(venueId, orderId, adapter, payload, Pending, 0, None, None, None)
  }

  const MAX_ERROR: nat := 500
  const CLAIM_EXPIRED: string := "claim expired \U{2014} agent did not ack"

  // ----- row predicates and row updates --------------------------------------

  predicate Stale(d: Delivery, staleBefore: int) {
    d.status == Claimed && d.claimedAt.Some? && d.claimedAt.value < staleBefore
  }

  predicate Unstamped(d: Delivery) {
    d.status == Claimed && d.claimedAt.None?
  }

  predicate Claimable(d: Delivery, venueId: nat, staleBefore: int) {
    && d.venueId == venueId && d.adapter == EscposBridge && d.attempts < MAX_ATTEMPTS
    && (d.status == Pending || Stale(d, staleBefore) || Unstamped(d))
  }

  predicate Retryable(d: Delivery) {
    d.status == Pending && d.adapter != EscposBridge && d.attempts < MAX_ATTEMPTS
  }

  function ClaimRow(d: Delivery, stamp: int, claimId: nat): Delivery {
    d.(status := Claimed, claimedAt := Some(stamp), claimId := Some(claimId), attempts := d.attempts + 1)
  }

  function ReleaseRow(d: Delivery): Delivery {
    d.(status := Pending, claimId := None, claimedAt := None, lastError := Some(CLAIM_EXPIRED))
  }

  /** The write of an ack that read `attempts` when it checked the row. */
  function AckRow(d: Delivery, ok: bool, error: string, attempts: nat): Delivery {
    var status := if ok then Sent else if attempts >= MAX_ATTEMPTS then Failed else Pending;
    d.(status := status, claimedAt := None, claimId := None,
       lastError := if ok then None else Some(Cut(error, MAX_ERROR)))
  }

  function RetryRow(d: Delivery): Delivery {
    d.(status := Pending, attempts := 0, claimedAt := None, claimId := None, lastError := None)
  }

  /** One inline attempt: a pull adapter answers "not done, no error" and leaves
      the row for the agent; a push adapter either sends or counts. */
  function AttemptRow(d: Delivery, outcome: PushOutcome): Delivery {
    if d.status != Pending || d.adapter == EscposBridge then d
    else match outcome
      case Delivered => d.(status := Sent, attempts := d.attempts + 1)
      case Refused(error) =>
        d.(attempts := d.attempts + 1, lastError := Some(Cut(error, MAX_ERROR)),
           status := if d.attempts + 1 >= MAX_ATTEMPTS then Failed else Pending)
  }

  // ----- statements over the table --------------------------------------------

  function AfterClaim(
      rows: seq<Delivery>, ids: seq<nat>, venueId: nat, staleBefore: int, stamp: int, claimId: nat): seq<Delivery>
  {
    seq(|rows|, i requires 0 <= i < |rows| =>
      if i in ids && Claimable(rows[i], venueId, staleBefore) then ClaimRow(rows[i], stamp, claimId) else rows[i])
  }

  predicate Exhausted(d: Delivery) { d.status == Pending && d.attempts >= MAX_ATTEMPTS }

  function AfterRelease(rows: seq<Delivery>, staleBefore: int): seq<Delivery> {
    seq(|rows|, i requires 0 <= i < |rows| => if Stale(rows[i], staleBefore) then ReleaseRow(rows[i]) else rows[i])
  }

  function AfterReleaseUnstamped(rows: seq<Delivery>): seq<Delivery> {
    seq(|rows|, i requires 0 <= i < |rows| => if Unstamped(rows[i]) then ReleaseRow(rows[i]) else rows[i])
  }

  function AfterExhaust(rows: seq<Delivery>): seq<Delivery> {
    seq(|rows|, i requires 0 <= i < |rows| => if Exhausted(rows[i]) then rows[i].(status := Failed) else rows[i])
  }

  /** How many of the first n rows a bulk update would count. */
  function CountWhere(rows: seq<Delivery>, which: Delivery -> bool, n: nat): nat
    requires n <= |rows|
  {
    if n == 0 then 0 else CountWhere(rows, which, n - 1) + if which(rows[n - 1]) then 1 else 0
  }

  lemma {:induction false} CountIsCardinality(rows: seq<Delivery>, which: Delivery -> bool, n: nat)
    requires n <= |rows|
    ensures CountWhere(rows, which, n) == |set i: nat | i < n && which(rows[i])|
  {
    if n > 0 {
      CountIsCardinality(rows, which, n - 1);
      var before := set i: nat | i < n - 1 && which(rows[i]);
      assert (set i: nat | i < n && which(rows[i])) == before + if which(rows[n - 1]) then {n - 1} else {};
    }
  }

  function AfterAttempts(rows: seq<Delivery>, ids: seq<nat>, outcome: nat -> PushOutcome): seq<Delivery>
    requires forall k | 0 <= k < |ids| :: ids[k] < |rows|
    decreases |ids|
  {
    if ids == [] then rows
    else AfterAttempts(rows[ids[0] := AttemptRow(rows[ids[0]], outcome(ids[0]))], ids[1..], outcome)
  }

  function AfterSweep(rows: seq<Delivery>, now: int, outcome: nat -> PushOutcome): seq<Delivery> {
    var swept := AfterExhaust(AfterReleaseUnstamped(AfterRelease(rows, now - CLAIM_TIMEOUT_MS)));
    AfterAttempts(swept, Oldest(swept, (d: Delivery) => Retryable(d), 0, SWEEP_BATCH), outcome)
  }

  /** The ids of the first `take` rows at or after `from` that satisfy `where`:
      findMany ordered by creation. */
  function Oldest(rows: seq<Delivery>, keep: Delivery -> bool, from: nat, take: nat): (ids: seq<nat>)
    ensures |ids| <= take
    ensures forall k | 0 <= k < |ids| :: from <= ids[k] < |rows| && keep(rows[ids[k]])
    ensures forall j, k | 0 <= j < k < |ids| :: ids[j] < ids[k]
    ensures forall i | from <= i < |rows| && keep(rows[i]) && i !in ids :: |ids| == take && forall id <- ids :: id < i
    decreases |rows| - from
  {
    if from >= |rows| || take == 0 then []
    else if keep(rows[from]) then [from] + Oldest(rows, keep, from + 1, take - 1)
    else Oldest(rows, keep, from + 1, take)
  }

  function Candidates(rows: seq<Delivery>, venueId: nat, staleBefore: int): seq<nat> {
    Oldest(rows, (d: Delivery) => Claimable(d, venueId, staleBefore), 0, BATCH)
  }

  /** Fetch by claim id. */
  function HeldBy(rows: seq<Delivery>, claimId: nat): seq<nat> {
    Oldest(rows, (d: Delivery) => d.claimId == Some(claimId), 0, |rows|)
  }

  /** A poll may take the bridge rows of its venue that have attempts left and are
      pending, or claimed with a stamp from before the cutoff, or with none. The
      oldest of them go first, and a short batch means nothing is left waiting. */
  lemma CandidatesAreOldestClaimable(rows: seq<Delivery>, venueId: nat, staleBefore: int, i: nat)
    requires i < |rows|
    ensures var ids, d := Candidates(rows, venueId, staleBefore), rows[i];
      var free := d.venueId == venueId && d.adapter == EscposBridge && d.attempts < 5 &&
        (d.status == Pending ||
         (d.status == Claimed && (d.claimedAt.None? || d.claimedAt.value < staleBefore)));
      && (free <==> Claimable(d, venueId, staleBefore))
      && (i in ids ==> free)
      && (free ==> i in ids || (|ids| == BATCH && forall id <- ids :: id < i))
  {
    var ids := Candidates(rows, venueId, staleBefore);
    var mine := (d: Delivery) => Claimable(d, venueId, staleBefore);
    assert i in ids ==> mine(rows[i]);
  }

  lemma HeldByExact(rows: seq<Delivery>, claimId: nat, i: nat)
    requires i < |rows|
    ensures i in HeldBy(rows, claimId) <==> rows[i].claimId == Some(claimId)
  {
    var mine := (d: Delivery) => d.claimId == Some(claimId);
    var ids := Oldest(rows, mine, 0, |rows|);
    if ids != [] {
      // |rows| strictly increasing ids cannot all lie below i
      IncreasingIdsBounded(ids, |ids| - 1);
    }
    assert i in ids ==> mine(rows[i]);
  }

  lemma IncreasingIdsBounded(ids: seq<nat>, k: nat)
    requires k < |ids|
    requires forall j, m | 0 <= j < m < |ids| :: ids[j] < ids[m]
    ensures ids[k] >= k && ids[k] in ids
  {
    if k > 0 { IncreasingIdsBounded(ids, k - 1); }
  }

  // ----- the sweep -------------------------------------------------------------

  lemma {:induction false} AttemptsKeepBridgeRows(
      rows: seq<Delivery>, ids: seq<nat>, outcome: nat -> PushOutcome, i: nat)
    requires forall k | 0 <= k < |ids| :: ids[k] < |rows|
    requires i < |rows|
    ensures |AfterAttempts(rows, ids, outcome)| == |rows|
    ensures rows[i].adapter == EscposBridge ==> AfterAttempts(rows, ids, outcome)[i] == rows[i]
    ensures i !in ids ==> AfterAttempts(rows, ids, outcome)[i] == rows[i]
    decreases |ids|
  {
    if ids != [] {
      AttemptsKeepBridgeRows(rows[ids[0] := AttemptRow(rows[ids[0]], outcome(ids[0]))], ids[1..], outcome, i);
    }
  }

  /** Where a bridge row may stand right after a sweep at `now`: finished, under
      a claim whose lease is still running, or available to its own agent. */
  predicate Accounted(d: Delivery, now: int) {
    || d.status == Sent || d.status == Failed
    || Claimable(d, d.venueId, now - CLAIM_TIMEOUT_MS)
    || (d.status == Claimed && d.claimedAt.Some? && now <= d.claimedAt.value + CLAIM_TIMEOUT_MS)
  }

  /** What a sweep does to one bridge row. */
  function SweptRow(d: Delivery, now: int): Delivery {
    var released := if Unstamped(d) || Stale(d, now - CLAIM_TIMEOUT_MS) then ReleaseRow(d) else d;
    if Exhausted(released) then released.(status := Failed) else released
  }

  lemma SweepRowByRow(rows: seq<Delivery>, now: int, outcome: nat -> PushOutcome, i: nat)
    requires i < |rows| && rows[i].adapter == EscposBridge
    ensures |AfterSweep(rows, now, outcome)| == |rows|
    ensures AfterSweep(rows, now, outcome)[i] == SweptRow(rows[i], now)
  {
    var swept := AfterExhaust(AfterReleaseUnstamped(AfterRelease(rows, now - CLAIM_TIMEOUT_MS)));
    AttemptsKeepBridgeRows(swept, Oldest(swept, (d: Delivery) => Retryable(d), 0, SWEEP_BATCH), outcome, i);
  }

  /** The row was claimed by a poll whose lease is over at `now`, or has no stamp. */
  predicate LeaseOver(d: Delivery, now: int) {
    d.status == Claimed && (d.claimedAt.None? || d.claimedAt.value + 60_000 < now)
  }

  /** Field by field: a row whose lease is over goes back to pending with its
      attempts kept, so that its venue's next poll can take it, unless they are used
      up; a pending row that has used them up fails; nothing else changes. So a
      sweep neither reports a ticket printed nor takes such a report back. */
  lemma SweepRowMeans(rows: seq<Delivery>, now: int, outcome: nat -> PushOutcome, i: nat)
    requires i < |rows| && rows[i].adapter == EscposBridge
    ensures |AfterSweep(rows, now, outcome)| == |rows|
    ensures var d, after := rows[i], AfterSweep(rows, now, outcome)[i];
      && (after.status == Sent <==> d.status == Sent)
      && (LeaseOver(d, now) && d.attempts < 5 ==>
            after == d.(status := Pending, claimedAt := None, claimId := None, lastError := Some(CLAIM_EXPIRED)))
      && (LeaseOver(d, now) && d.attempts >= 5 ==>
            after == d.(status := Failed, claimedAt := None, claimId := None, lastError := Some(CLAIM_EXPIRED)))
      && (d.status == Pending && d.attempts >= 5 ==> after == d.(status := Failed))
      && (!LeaseOver(d, now) && !(d.status == Pending && d.attempts >= 5) ==> after == d)
  {
    SweepRowByRow(rows, now, outcome, i);
  }

  /** A released row with attempts left is first in line again for its own venue. */
  lemma ReleasedIsClaimable(rows: seq<Delivery>, now: int, outcome: nat -> PushOutcome, i: nat, staleBefore: int)
    requires i < |rows| && rows[i].adapter == EscposBridge && LeaseOver(rows[i], now) && rows[i].attempts < 5
    ensures |AfterSweep(rows, now, outcome)| == |rows|
    ensures var swept := AfterSweep(rows, now, outcome);
      var ids := Candidates(swept, rows[i].venueId, staleBefore);
      i in ids || (|ids| == BATCH && forall id <- ids :: id < i)
  {
    SweepRowMeans(rows, now, outcome, i);
    CandidatesAreOldestClaimable(AfterSweep(rows, now, outcome), rows[i].venueId, staleBefore, i);
  }

  lemma {:induction false} AttemptsReachEach(rows: seq<Delivery>, ids: seq<nat>, outcome: nat -> PushOutcome, i: nat)
    requires (forall k | 0 <= k < |ids| :: ids[k] < |rows|) && i < |rows|
    requires forall j, k | 0 <= j < k < |ids| :: ids[j] < ids[k]
    ensures |AfterAttempts(rows, ids, outcome)| == |rows|
    ensures AfterAttempts(rows, ids, outcome)[i] == if i in ids then AttemptRow(rows[i], outcome(i)) else rows[i]
    decreases |ids|
  {
    if ids != [] {
      var next := rows[ids[0] := AttemptRow(rows[ids[0]], outcome(ids[0]))];
      AttemptsReachEach(next, ids[1..], outcome, i);
    }
  }

  /** A pushed row the sweep finds pending is attempted once, unless a full batch of
      older ones is: it is sent, or has one attempt fewer left and fails with the
      last. */
  lemma SweepRetriesPush(rows: seq<Delivery>, now: int, outcome: nat -> PushOutcome, i: nat)
    requires i < |rows| && rows[i].adapter == Push && rows[i].status == Pending && rows[i].attempts < 5
    ensures |AfterSweep(rows, now, outcome)| == |rows|
    ensures var d, after := rows[i], AfterSweep(rows, now, outcome)[i];
      || (after == match outcome(i)
            case Delivered => d.(status := Sent, attempts := d.attempts + 1)
            case Refused(error) =>
              d.(status := if d.attempts == 4 then Failed else Pending,
                 attempts := d.attempts + 1, lastError := Some(Cut(error, MAX_ERROR))))
      || (after == d && exists ids: seq<nat> :: |ids| == SWEEP_BATCH && Increasing(ids) && forall id <- ids :: id < i)
  {
    var swept := AfterExhaust(AfterReleaseUnstamped(AfterRelease(rows, now - CLAIM_TIMEOUT_MS)));
    var retryable := (d: Delivery) => Retryable(d);
    var ids := Oldest(swept, retryable, 0, SWEEP_BATCH);
    AttemptsReachEach(swept, ids, outcome, i);
    assert swept[i] == rows[i] && retryable(swept[i]);
    if i !in ids { assert Increasing(ids); }
  }

  lemma CountMatches(rows: seq<Delivery>, which: Delivery -> bool, ids: set<nat>)
    requires forall i: nat :: i in ids <==> i < |rows| && which(rows[i])
    ensures CountWhere(rows, which, |rows|) == |ids|
  {
    CountIsCardinality(rows, which, |rows|);
    assert ids == set i: nat | i < |rows| && which(rows[i]);
  }

  /** What the first two statements make of one row. */
  lemma ReleasedRow(rows: seq<Delivery>, now: int, i: nat)
    requires i < |rows|
    ensures var released := AfterRelease(rows, now - CLAIM_TIMEOUT_MS);
      && |released| == |AfterReleaseUnstamped(released)| == |rows|
      && (LeaseOver(rows[i], now) <==> Stale(rows[i], now - CLAIM_TIMEOUT_MS) || Unstamped(released[i]))
      && !(Stale(rows[i], now - CLAIM_TIMEOUT_MS) && Unstamped(released[i]))
      && (Exhausted(AfterReleaseUnstamped(released)[i]) <==> Exhausts(rows[i], now))
  {
  }

  /** What the sweep counts: the rows it released, and those it found pending with
      every attempt used. */
  lemma SweepCounts(rows: seq<Delivery>, now: int, stale: Delivery -> bool, unstamped: Delivery -> bool)
    requires forall d :: stale(d) == Stale(d, now - CLAIM_TIMEOUT_MS)
    requires forall d :: unstamped(d) == Unstamped(d)
    ensures var released := AfterRelease(rows, now - CLAIM_TIMEOUT_MS);
      CountWhere(rows, stale, |rows|) + CountWhere(released, unstamped, |released|) ==
      |set i: nat | i < |rows| && LeaseOver(rows[i], now)|
  {
    var released := AfterRelease(rows, now - CLAIM_TIMEOUT_MS);
    var first := set i: nat | i < |rows| && Stale(rows[i], now - CLAIM_TIMEOUT_MS);
    var second := set i: nat | i < |released| && Unstamped(released[i]);
    CountMatches(rows, stale, first);
    CountMatches(released, unstamped, second);
    var both := set i: nat | i < |rows| && LeaseOver(rows[i], now);
    forall i: nat ensures (i in both <==> i in first || i in second) && !(i in first && i in second) {
      if i < |rows| { ReleasedRow(rows, now, i); }
    }
    assert both == first + second;
  }

  predicate Exhausts(d: Delivery, now: int) {
    d.attempts >= 5 && (d.status == Pending || LeaseOver(d, now))
  }

  lemma ExhaustedCount(rows: seq<Delivery>, now: int, exhausted: Delivery -> bool)
    requires forall d :: exhausted(d) == Exhausted(d)
    ensures var freed := AfterReleaseUnstamped(AfterRelease(rows, now - CLAIM_TIMEOUT_MS));
      CountWhere(freed, exhausted, |freed|) == |set i: nat | i < |rows| && Exhausts(rows[i], now)|
  {
    var freed := AfterReleaseUnstamped(AfterRelease(rows, now - CLAIM_TIMEOUT_MS));
    var ids := set i: nat | i < |rows| && Exhausts(rows[i], now);
    forall i: nat ensures i in ids <==> i < |freed| && exhausted(freed[i]) {
      if i < |rows| { ReleasedRow(rows, now, i); }
    }
    CountMatches(freed, exhausted, ids);
  }

  predicate Increasing(ids: seq<nat>) {
    forall j, k | 0 <= j < k < |ids| :: ids[j] < ids[k]
  }

  /** A row stays the ticket it was enqueued as. */
  predicate SameTicket(a: Delivery, b: Delivery) {
    b.venueId == a.venueId && b.orderId == a.orderId && b.adapter == a.adapter && b.payload == a.payload
  }

  lemma SweepKeepsTickets(rows: seq<Delivery>, now: int, outcome: nat -> PushOutcome, i: nat)
    requires i < |rows|
    ensures |AfterSweep(rows, now, outcome)| == |rows| && SameTicket(rows[i], AfterSweep(rows, now, outcome)[i])
  {
    var swept := AfterExhaust(AfterReleaseUnstamped(AfterRelease(rows, now - CLAIM_TIMEOUT_MS)));
    AttemptsReachEach(swept, Oldest(swept, (d: Delivery) => Retryable(d), 0, SWEEP_BATCH), outcome, i);
  }

  /** No stranding: whatever state the table was in. */
  lemma SweepStrandsNothing(rows: seq<Delivery>, now: int, outcome: nat -> PushOutcome, i: nat)
    requires i < |rows| && rows[i].adapter == EscposBridge
    ensures |AfterSweep(rows, now, outcome)| == |rows|
    ensures Accounted(AfterSweep(rows, now, outcome)[i], now)
  {
    SweepRowByRow(rows, now, outcome, i);
  }

  /** A second sweep at the same instant changes no bridge row. */
  lemma SweepTwiceIsOnce(rows: seq<Delivery>, now: int, first: nat -> PushOutcome, second: nat -> PushOutcome, i: nat)
    requires i < |rows| && rows[i].adapter == EscposBridge
    ensures |AfterSweep(AfterSweep(rows, now, first), now, second)| == |AfterSweep(rows, now, first)| == |rows|
    ensures AfterSweep(AfterSweep(rows, now, first), now, second)[i] == AfterSweep(rows, now, first)[i]
  {
    SweepRowByRow(rows, now, first, i);
    SweepRowByRow(AfterSweep(rows, now, first), now, second, i);
  }

  /** What the sweep gives up on has used every attempt. */
  lemma SweepFailsOnlyExhausted(rows: seq<Delivery>, now: int, outcome: nat -> PushOutcome, i: nat)
    requires i < |rows| && rows[i].adapter == EscposBridge && rows[i].status != Failed
    ensures |AfterSweep(rows, now, outcome)| == |rows|
    ensures AfterSweep(rows, now, outcome)[i].status == Failed <==>
      rows[i].attempts >= MAX_ATTEMPTS &&
      (rows[i].status == Pending || Unstamped(rows[i]) || Stale(rows[i], now - CLAIM_TIMEOUT_MS))
    ensures AfterSweep(rows, now, outcome)[i].attempts == rows[i].attempts
  {
    SweepRowByRow(rows, now, outcome, i);
  }

  // ----- the running code -------------------------------------------------------

  datatype AckReply = Unknown | Ignored | Settled

  class Outbox {
    var rows: seq<Delivery>

    constructor ()
      ensures rows == []
    {
      rows := [];
    }

    /** Writes the row, then tries inline delivery at once. */
    method EnqueuePosDelivery(venueId: nat, orderId: nat, adapter: Adapter, payload: string, outcome: PushOutcome)
      returns (id: nat)
      modifies this
      ensures id == |old(rows)|
      ensures rows == old(rows) + [AttemptRow(Enqueued(venueId, orderId, adapter, payload), outcome)]
      ensures adapter == EscposBridge ==>
        rows[id] == Delivery(venueId, orderId, EscposBridge, payload, Pending, 0, None, None, None)
      ensures adapter == Push ==>
        rows[id] == match outcome
          case Delivered => Delivery(venueId, orderId, Push, payload, Sent, 1, None, None, None)
          case Refused(error) =>
            Delivery(venueId, orderId, Push, payload, Pending, 1, None, None, Some(Cut(error, MAX_ERROR)))
    {
      id := |rows|;
      rows := rows + [Delivery(venueId, orderId, adapter, payload, Pending, 0, None, None, None)];
      AttemptDelivery(id, outcome);
    }

    method AttemptDelivery(id: nat, outcome: PushOutcome)
      modifies this
      ensures rows == if id < |old(rows)| then old(rows)[id := AttemptRow(old(rows)[id], outcome)] else old(rows)
      ensures id >= |old(rows)| || old(rows)[id].status != Pending || old(rows)[id].adapter == EscposBridge ==>
        rows == old(rows)
      ensures id < |old(rows)| && old(rows)[id].status == Pending && old(rows)[id].adapter == Push ==>
        var d := old(rows)[id];
        rows[id] == match outcome
          case Delivered => d.(status := Sent, attempts := d.attempts + 1)
          case Refused(error) =>
            d.(status := if d.attempts >= 4 then Failed else Pending,
               attempts := d.attempts + 1, lastError := Some(Cut(error, MAX_ERROR)))
    {
      if id >= |rows| || rows[id].status != Pending { return; }
      var d := rows[id];
      match d.adapter
      case EscposBridge =>
      case Push =>
        if outcome.Delivered? {
          rows := rows[id := d.(status := Sent, attempts := d.attempts + 1)];
        } else {
          var attempts := d.attempts + 1;
          rows := rows[id := d.(
            attempts := attempts, lastError := Some(Cut(outcome.error, MAX_ERROR)),
            status := if attempts >= MAX_ATTEMPTS then Failed else Pending)];
        }
    }

    /** The conditional claim: re-checks claimability row by row. */
    method Claim(ids: seq<nat>, venueId: nat, staleBefore: int, stamp: int, claimId: nat)
      modifies this
      ensures rows == AfterClaim(old(rows), ids, venueId, staleBefore, stamp, claimId)
    {
      var was := rows;
      var i := 0;
      while i < |was|
        invariant 0 <= i <= |was| == |rows|
        invariant rows[..i] == AfterClaim(was, ids, venueId, staleBefore, stamp, claimId)[..i]
        invariant rows[i..] == was[i..]
      {
        var d := rows[i];
        assert d == was[i];
        if i in ids && Claimable(d, venueId, staleBefore) {
          rows := rows[i :=
            d.(status := Claimed, claimedAt := Some(stamp), claimId := Some(claimId), attempts := d.attempts + 1)];
        }
        i := i + 1;
      }
    }

    /** The agent's poll, with nobody else writing in between: it is handed
        exactly the oldest claimable rows, and those rows are now claimed. */
    method ServePending(venueId: nat, readAt: int, stamp: int, claimId: nat) returns (handed: seq<nat>)
      requires forall i | 0 <= i < |rows| :: rows[i].claimId != Some(claimId)
      modifies this
      ensures rows == AfterClaim(old(rows), Candidates(old(rows), venueId, readAt - CLAIM_TIMEOUT_MS),
                                 venueId, readAt - CLAIM_TIMEOUT_MS, stamp, claimId)
      ensures forall i :: i in handed <==> i in Candidates(old(rows), venueId, readAt - CLAIM_TIMEOUT_MS)
      ensures |rows| == |old(rows)| && forall i: nat | i < |rows| ::
        var d := old(rows)[i];
        rows[i] == if i !in handed then d
                   else d.(status := Claimed, claimedAt := Some(stamp), claimId := Some(claimId),
                           attempts := d.attempts + 1)
    {
      var staleBefore := readAt - CLAIM_TIMEOUT_MS;
      var candidates := Candidates(rows, venueId, staleBefore);
      var mine := (d: Delivery) => Claimable(d, venueId, staleBefore);
      assert forall k | 0 <= k < |candidates| :: mine(rows[candidates[k]]);
      if |candidates| == 0 {
        handed := [];
        assert rows == AfterClaim(rows, candidates, venueId, staleBefore, stamp, claimId);
        return;
      }
      Claim(candidates, venueId, staleBefore, stamp, claimId);
      handed := HeldBy(rows, claimId);
      forall i ensures i in handed <==> i in candidates {
        if 0 <= i < |rows| { HeldByExact(rows, claimId, i); }
      }
    }

    /** An ack with nobody writing between its check and its write. */
    method Ack(venueId: nat, id: nat, ok: bool, error: string) returns (reply: AckReply)
      modifies this
      ensures reply == if id >= |old(rows)| || old(rows)[id].venueId != venueId then Unknown
                       else if old(rows)[id].status != Claimed then Ignored else Settled
      ensures rows ==
        if reply == Settled then old(rows)[id := AckRow(old(rows)[id], ok, error, old(rows)[id].attempts)]
        else old(rows)
      ensures reply == Settled && ok ==>
        rows[id] == old(rows)[id].(status := Sent, claimedAt := None, claimId := None, lastError := None)
      ensures reply == Settled && !ok ==>
        rows[id] == old(rows)[id].(
          status := if old(rows)[id].attempts >= 5 then Failed else Pending,
          claimedAt := None, claimId := None, lastError := Some(Cut(error, MAX_ERROR)))
    {
      if id >= |rows| || rows[id].venueId != venueId { return Unknown; }
      var d := rows[id];
      if d.status != Claimed { return Ignored; }
      if ok {
        rows := rows[id := d.(status := Sent, claimedAt := None, claimId := None, lastError := None)];
      } else {
        rows := rows[id := d.(
          status := if d.attempts >= MAX_ATTEMPTS then Failed else Pending,
          claimedAt := None, claimId := None, lastError := Some(Cut(error, MAX_ERROR)))];
      }
      reply := Settled;
    }

    method Retry(venueId: nat, id: nat) returns (found: bool)
      modifies this
      ensures found == (id < |old(rows)| && old(rows)[id].venueId == venueId)
      ensures rows == if found then old(rows)[id := RetryRow(old(rows)[id])] else old(rows)
      ensures found ==> rows[id] == old(rows)[id].(
        status := Pending, attempts := 0, claimedAt := None, claimId := None, lastError := None)
    {
      found := id < |rows| && rows[id].venueId == venueId;
      if found {
        var d := rows[id];
        rows := rows[id := d.(
          status := Pending, attempts := 0, claimedAt := None, claimId := None, lastError := None)];
      }
    }

    /** A bulk update and the number of rows it matched. */
    method UpdateMany(which: Delivery -> bool, change: Delivery -> Delivery) returns (count: nat)
      modifies this
      ensures |rows| == |old(rows)|
      ensures forall i | 0 <= i < |rows| ::
        rows[i] == if which(old(rows)[i]) then change(old(rows)[i]) else old(rows)[i]
      ensures count == CountWhere(old(rows), which, |old(rows)|)
      ensures count == |set i: nat | i < |old(rows)| && which(old(rows)[i])|
    {
      var was, i := rows, 0;
      count := 0;
      while i < |was|
        invariant 0 <= i <= |was| == |rows|
        invariant forall j | 0 <= j < i :: rows[j] == if which(was[j]) then change(was[j]) else was[j]
        invariant forall j | i <= j < |was| :: rows[j] == was[j]
        invariant count == CountWhere(was, which, i)
      {
        if which(rows[i]) {
          rows := rows[i := change(rows[i])];
          count := count + 1;
        }
        i := i + 1;
      }
      CountIsCardinality(was, which, |was|);
    }

    /** Three bulk updates, then one attempt on each retryable push row. */
    method Sweep(now: int, outcome: nat -> PushOutcome) returns (reclaimed: nat, retried: nat, exhausted: nat)
      modifies this
      ensures rows == AfterSweep(old(rows), now, outcome)
      ensures reclaimed == |set i: nat | i < |old(rows)| && LeaseOver(old(rows)[i], now)|
      ensures exhausted == |set i: nat | i < |old(rows)| && Exhausts(old(rows)[i], now)|
      ensures var freed := AfterReleaseUnstamped(AfterRelease(old(rows), now - CLAIM_TIMEOUT_MS));
        retried == |Oldest(AfterExhaust(freed), (d: Delivery) => Retryable(d), 0, SWEEP_BATCH)|
    {
      ghost var was := rows;
      var staleBefore := now - CLAIM_TIMEOUT_MS;
      var isStale, isUnstamped := (d: Delivery) => Stale(d, staleBefore), (d: Delivery) => Unstamped(d);
      var isExhausted := (d: Delivery) => Exhausted(d);
      var stale := UpdateMany(isStale, (d: Delivery) => ReleaseRow(d));
      assert rows == AfterRelease(was, staleBefore);
      ghost var released := rows;
      var unstamped := UpdateMany(isUnstamped, (d: Delivery) => ReleaseRow(d));
      assert rows == AfterReleaseUnstamped(released);
      ghost var freed := rows;
      exhausted := UpdateMany(isExhausted, (d: Delivery) => d.(status := Failed));
      assert rows == AfterExhaust(freed);
      SweepCounts(was, now, isStale, isUnstamped);
      ExhaustedCount(was, now, isExhausted);
      reclaimed := stale + unstamped;
      retried := RetryPushes(outcome);
    }

    method RetryPushes(outcome: nat -> PushOutcome) returns (retried: nat)
      modifies this
      ensures var ids := Oldest(old(rows), (d: Delivery) => Retryable(d), 0, SWEEP_BATCH);
        rows == AfterAttempts(old(rows), ids, outcome) && retried == |ids|
    {
      ghost var swept := rows;
      var retryable := Oldest(rows, (d: Delivery) => Retryable(d), 0, SWEEP_BATCH);
      retried := |retryable|;
      var k := 0;
      while k < |retryable|
        invariant 0 <= k <= |retryable|
        invariant |rows| == |swept|
        invariant AfterAttempts(rows, retryable[k..], outcome) == AfterAttempts(swept, retryable, outcome)
      {
        assert retryable[k..][0] == retryable[k] && retryable[k..][1..] == retryable[k + 1..];
        AttemptDelivery(retryable[k], outcome(retryable[k]));
        k := k + 1;
      }
    }
  }
}
