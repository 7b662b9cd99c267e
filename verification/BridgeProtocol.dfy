/** The claim protocol between the outbox and any number of polling agents, with
    every statement of a poll, of an ack and of the sweep a step of its own,
    interleaved with admin retries, enqueues, inline attempts and the clock. */
module BridgeProtocol {
  import opened Common
  import opened PosOutbox

  /** Where one poll request stands. Its index in the state is the claim id it
      will use, so claim ids are never reused. */
  datatype Poll =
    | Began(venueId: nat, staleBefore: int)
    | Chose(venueId: nat, staleBefore: int, ids: seq<nat>)
    | Stamped(venueId: nat, staleBefore: int, ids: seq<nat>, stamp: int)
    | Wrote(venueId: nat, ids: seq<nat>)
    | Answered(venueId: nat, ids: seq<nat>, handed: seq<nat>)

  /** An ack between its check, which read how many attempts the row had used, and
      its write by id. */
  datatype Ack =
    | Checked(id: nat, ok: bool, error: string, attempts: nat)
    | Recorded(id: nat)

  datatype State = State(clock: int, rows: seq<Delivery>, polls: seq<Poll>, acks: seq<Ack>)

  datatype Event =
    | Tick(ms: nat)
    | Enqueue(venueId: nat, orderId: nat, adapter: Adapter, payload: string)
    | Attempt(id: nat, outcome: PushOutcome)
    | PollBegin(venueId: nat)
    | PollChoose(poll: nat)
    | PollStamp(poll: nat)
    | PollWrite(poll: nat)
    | PollAnswer(poll: nat)
    | SweepRelease(staleBefore: int)
    | SweepReleaseUnstamped
    | SweepExhaust
    | AckCheck(venueId: nat, id: nat, ok: bool, error: string)
    | AckWrite(ack: nat, id: nat)
    | RetryEvent(venueId: nat, id: nat)

  /** An event that is not enabled leaves the state alone. A sweep statement may
      run with any cutoff read at or before the present. */
  function Apply(s: State, e: Event): State {
    match e
    case Tick(ms) => s.(clock := s.clock + ms)
    case Enqueue(v, o, a, payload) => s.(rows := s.rows + [Enqueued(v, o, a, payload)])
    case Attempt(id, outcome) =>
      if id < |s.rows| then s.(rows := s.rows[id := AttemptRow(s.rows[id], outcome)]) else s
    case PollBegin(v) => s.(polls := s.polls + [Began(v, s.clock - CLAIM_TIMEOUT_MS)])
    case PollChoose(p) =>
      if p < |s.polls| && s.polls[p].Began? then
        var q := s.polls[p];
        s.(polls := s.polls[p := Chose(q.venueId, q.staleBefore, Candidates(s.rows, q.venueId, q.staleBefore))])
      else s
    case PollStamp(p) =>
      if p < |s.polls| && s.polls[p].Chose? then
        var q := s.polls[p];
        s.(polls := s.polls[p := Stamped(q.venueId, q.staleBefore, q.ids, s.clock)])
      else s
    case PollWrite(p) =>
      if p < |s.polls| && s.polls[p].Stamped? then
        var q := s.polls[p];
        s.(polls := s.polls[p := Wrote(q.venueId, q.ids)],
           rows := AfterClaim(s.rows, q.ids, q.venueId, q.staleBefore, q.stamp, p))
      else s
    case PollAnswer(p) =>
      if p < |s.polls| && s.polls[p].Wrote? then
        s.(polls := s.polls[p := Answered(s.polls[p].venueId, s.polls[p].ids, HeldBy(s.rows, p))])
      else s
    case SweepRelease(before) =>
      if before + CLAIM_TIMEOUT_MS <= s.clock then s.(rows := AfterRelease(s.rows, before)) else s
    case SweepReleaseUnstamped => s.(rows := AfterReleaseUnstamped(s.rows))
    case SweepExhaust => s.(rows := AfterExhaust(s.rows))
    case AckCheck(v, id, ok, error) =>
      if id < |s.rows| && s.rows[id].venueId == v && s.rows[id].status == Claimed
      then s.(acks := s.acks + [Checked(id, ok, error, s.rows[id].attempts)]) else s
    case AckWrite(k, id) =>
      if k < |s.acks| && s.acks[k].Checked? && s.acks[k].id == id && id < |s.rows| then
        var a := s.acks[k];
        s.(rows := s.rows[id := AckRow(s.rows[id], a.ok, a.error, a.attempts)], acks := s.acks[k := Recorded(id)])
      else s
    case RetryEvent(v, id) =>
      if id < |s.rows| && s.rows[id].venueId == v
      then s.(rows := s.rows[id := RetryRow(s.rows[id])]) else s
  }

  function Exec(s: State, es: seq<Event>): State
    decreases |es|
  {
    if es == [] then s else Exec(Apply(s, es[0]), es[1..])
  }

  // ----- what holds in every reachable state -----------------------------------

  predicate RowOk(d: Delivery, clock: int, polls: seq<Poll>) {
    && d.attempts <= MAX_ATTEMPTS
    && (d.status == Claimed <==> d.claimId.Some?)
    && (d.status == Claimed <==> d.claimedAt.Some?)
    && (d.status == Claimed ==>
          && d.adapter == EscposBridge && d.attempts > 0
          && d.claimedAt.value <= clock
          && d.claimId.value < |polls|)
    && (d.adapter == Push && d.status == Pending ==> d.attempts < MAX_ATTEMPTS)
  }

  /** A claim id on a row points back at the poll that chose the row. */
  predicate ClaimOk(d: Delivery, i: nat, polls: seq<Poll>) {
    d.claimId.Some? && d.claimId.value < |polls| ==>
      var q := polls[d.claimId.value];
      (q.Wrote? || q.Answered?) && q.venueId == d.venueId && i in q.ids
  }

  predicate PollOk(q: Poll, clock: int, nrows: nat) {
    && (q.Began? || q.Chose? || q.Stamped? ==> q.staleBefore + CLAIM_TIMEOUT_MS <= clock)
    && (q.Stamped? ==> q.stamp <= clock)
    && (!q.Began? ==> |q.ids| <= BATCH && forall k | 0 <= k < |q.ids| :: q.ids[k] < nrows)
  }

  /** What an agent was handed: rows of its venue that it chose itself. */
  predicate AnswerOk(q: Poll, rows: seq<Delivery>) {
    q.Answered? ==> forall i <- q.handed :: i in q.ids && i < |rows| && rows[i].venueId == q.venueId
  }

  /** Only rows for the agent are ever acknowledged. */
  predicate AckOk(a: Ack, rows: seq<Delivery>) {
    a.id < |rows| && rows[a.id].adapter == EscposBridge && (a.Checked? ==> a.attempts <= MAX_ATTEMPTS)
  }

  predicate RowsOk(s: State) {
    forall i | 0 <= i < |s.rows| :: RowOk(s.rows[i], s.clock, s.polls) && ClaimOk(s.rows[i], i, s.polls)
  }

  predicate PollsOk(s: State) {
    forall p | 0 <= p < |s.polls| :: PollOk(s.polls[p], s.clock, |s.rows|) && AnswerOk(s.polls[p], s.rows)
  }

  predicate AcksOk(s: State) {
    forall k | 0 <= k < |s.acks| :: AckOk(s.acks[k], s.rows)
  }

  predicate Inv(s: State) {
    RowsOk(s) && PollsOk(s) && AcksOk(s)
  }

  predicate OnPoll(e: Event) {
    e.PollBegin? || e.PollChoose? || e.PollStamp? || e.PollWrite? || e.PollAnswer?
  }

  /** Rows are never deleted, and keep their venue and adapter. */
  lemma RowsPersist(s: State, e: Event)
    ensures var t := Apply(s, e);
      && t.clock >= s.clock && |t.rows| >= |s.rows| && |t.polls| >= |s.polls|
      && forall i | 0 <= i < |s.rows| ::
           SameTicket(s.rows[i], t.rows[i])
  {
  }

  /** What happens to a row while polls move on. */
  lemma PollEventRows(s: State, e: Event)
    requires Inv(s) && OnPoll(e)
    ensures RowsOk(Apply(s, e))
  {
    var t := Apply(s, e);
    forall i | 0 <= i < |t.rows| ensures RowOk(t.rows[i], t.clock, t.polls) && ClaimOk(t.rows[i], i, t.polls) {
      assert RowOk(s.rows[i], s.clock, s.polls) && ClaimOk(s.rows[i], i, s.polls);
    }
  }

  /** And while rows are rewritten by somebody else. */
  lemma RowEventRows(s: State, e: Event)
    requires Inv(s) && !OnPoll(e)
    ensures RowsOk(Apply(s, e))
  {
    var t := Apply(s, e);
    assert t.polls == s.polls;
    forall i | 0 <= i < |t.rows| ensures RowOk(t.rows[i], t.clock, t.polls) && ClaimOk(t.rows[i], i, t.polls) {
      if i < |s.rows| { assert RowOk(s.rows[i], s.clock, s.polls) && ClaimOk(s.rows[i], i, s.polls); }
    }
  }

  lemma AnswerInv(s: State, p: nat)
    requires Inv(s) && p < |s.polls| && s.polls[p].Wrote?
    ensures AnswerOk(Answered(s.polls[p].venueId, s.polls[p].ids, HeldBy(s.rows, p)), s.rows)
  {
    forall i <- HeldBy(s.rows, p) ensures i in s.polls[p].ids && s.rows[i].venueId == s.polls[p].venueId {
      HeldByExact(s.rows, p, i);
      assert RowOk(s.rows[i], s.clock, s.polls) && ClaimOk(s.rows[i], i, s.polls);
    }
  }

  lemma ApplyPolls(s: State, e: Event)
    requires Inv(s)
    ensures PollsOk(Apply(s, e))
  {
    var t := Apply(s, e);
    RowsPersist(s, e);
    if e.PollAnswer? && e.poll < |s.polls| && s.polls[e.poll].Wrote? { AnswerInv(s, e.poll); }
    forall p | 0 <= p < |t.polls| ensures PollOk(t.polls[p], t.clock, |t.rows|) && AnswerOk(t.polls[p], t.rows) {
      if p < |s.polls| { assert PollOk(s.polls[p], s.clock, |s.rows|) && AnswerOk(s.polls[p], s.rows); }
    }
  }

  lemma ApplyAcks(s: State, e: Event)
    requires Inv(s)
    ensures AcksOk(Apply(s, e))
  {
    var t := Apply(s, e);
    RowsPersist(s, e);
    forall k | 0 <= k < |t.acks| ensures AckOk(t.acks[k], t.rows) {
      if k < |s.acks| { assert AckOk(s.acks[k], s.rows); }
    }
  }

  lemma ApplyInv(s: State, e: Event)
    requires Inv(s)
    ensures Inv(Apply(s, e))
  {
    if OnPoll(e) { PollEventRows(s, e); } else { RowEventRows(s, e); }
    ApplyPolls(s, e);
    ApplyAcks(s, e);
  }

  lemma {:induction false} ExecInv(s: State, es: seq<Event>)
    requires Inv(s)
    ensures Inv(Exec(s, es))
    decreases |es|
  {
    if es != [] {
      ApplyInv(s, es[0]);
      ExecInv(Apply(s, es[0]), es[1..]);
    }
  }

  ghost predicate Reachable(s: State) {
    exists clock: int, es: seq<Event> :: s == Exec(State(clock, [], [], []), es)
  }

  lemma ReachableInv(s: State)
    requires Reachable(s)
    ensures Inv(s)
  {
    var clock: int, es: seq<Event> :| s == Exec(State(clock, [], [], []), es);
    ExecInv(State(clock, [], [], []), es);
  }

  /** What an agent receives are tickets of its own venue that its poll chose, at
      most a batch of them, whatever has happened to them since. */
  lemma HandedFacts(s: State, p: nat)
    requires Reachable(s) && p < |s.polls| && s.polls[p].Answered?
    ensures |s.polls[p].ids| <= BATCH
    ensures forall i <- s.polls[p].handed ::
      i in s.polls[p].ids && i < |s.rows| && s.rows[i].venueId == s.polls[p].venueId
  {
    ReachableInv(s);
    assert PollOk(s.polls[p], s.clock, |s.rows|) && AnswerOk(s.polls[p], s.rows);
  }

  /** And at the moment of the answer they are exactly the rows under this poll's
      own claim. */
  lemma AnswerHandsOverClaim(s: State, p: nat, i: nat)
    requires Reachable(s) && p < |s.polls| && s.polls[p].Wrote? && i < |s.rows|
    ensures var answer := Apply(s, PollAnswer(p)).polls[p];
      answer.Answered? && (i in answer.handed <==> s.rows[i].status == Claimed && s.rows[i].claimId == Some(p))
  {
    ReachableInv(s);
    assert RowOk(s.rows[i], s.clock, s.polls);
    HeldByExact(s.rows, p, i);
  }

  // ----- lease safety -----------------------------------------------------------

  /** Event e, taken in state s, is poll e.poll's claim landing on row r. */
  predicate ClaimsRow(s: State, e: Event, r: nat) {
    && e.PollWrite? && e.poll < |s.polls| && s.polls[e.poll].Stamped?
    && r < |s.rows| && r in s.polls[e.poll].ids
    && Claimable(s.rows[r], s.polls[e.poll].venueId, s.polls[e.poll].staleBefore)
  }

  predicate ReleasesRow(e: Event, r: nat) {
    (e.AckWrite? || e.RetryEvent?) && e.id == r
  }

  /** Row r is under the claim stamped x, or that lease has run out. */
  predicate Leased(s: State, r: nat, x: int) {
    r < |s.rows| &&
    ((s.rows[r].status == Claimed && s.rows[r].claimedAt == Some(x)) || s.clock > x + CLAIM_TIMEOUT_MS)
  }

  lemma ApplyKeepsLease(s: State, e: Event, r: nat, x: int)
    requires Inv(s) && Leased(s, r, x) && !ReleasesRow(e, r)
    ensures Leased(Apply(s, e), r, x)
  {
  }

  lemma {:induction false} ExecKeepsLease(s: State, es: seq<Event>, r: nat, x: int)
    requires Inv(s) && Leased(s, r, x)
    requires forall k | 0 <= k < |es| :: !ReleasesRow(es[k], r)
    ensures Leased(Exec(s, es), r, x)
    decreases |es|
  {
    if es != [] {
      ApplyInv(s, es[0]);
      ApplyKeepsLease(s, es[0], r, x);
      ExecKeepsLease(Apply(s, es[0]), es[1..], r, x);
    }
  }

  lemma ClaimBeginsLease(s: State, e: Event, r: nat)
    requires ClaimsRow(s, e, r)
    ensures Leased(Apply(s, e), r, s.polls[e.poll].stamp)
  {
  }

  /** A row under a lease can be claimed only once the lease has run out, because
      no cutoff is ever read ahead of the clock. */
  lemma LeasedMeansLate(s: State, e: Event, r: nat, x: int)
    requires Inv(s) && Leased(s, r, x) && ClaimsRow(s, e, r)
    ensures s.clock > x + CLAIM_TIMEOUT_MS
  {
    assert PollOk(s.polls[e.poll], s.clock, |s.rows|);
  }

  /** Two claims of one row with no ack of it written and no retry of it between
      them: the second lands strictly after the first one's lease ends. The second
      poll may have read its cutoff, and chosen its rows, at any time. */
  lemma LeaseSafety(s: State, first: Event, between: seq<Event>, second: Event, r: nat)
    requires Inv(s)
    requires ClaimsRow(s, first, r)
    requires forall k | 0 <= k < |between| :: !ReleasesRow(between[k], r)
    requires ClaimsRow(Exec(Apply(s, first), between), second, r)
    ensures Exec(Apply(s, first), between).clock > s.polls[first.poll].stamp + CLAIM_TIMEOUT_MS
  {
    var x := s.polls[first.poll].stamp;
    ApplyInv(s, first);
    ClaimBeginsLease(s, first, r);
    ExecKeepsLease(Apply(s, first), between, r, x);
    ExecInv(Apply(s, first), between);
    LeasedMeansLate(Exec(Apply(s, first), between), second, r, x);
  }

  /** Nor is the lease longer than promised: a poll beginning now can take a row
      exactly when it has attempts left and no lease on it is still running. */
  lemma LeaseEnds(s: State, r: nat)
    requires Reachable(s) && r < |s.rows| && s.rows[r].adapter == EscposBridge
    ensures Claimable(s.rows[r], s.rows[r].venueId, s.clock - CLAIM_TIMEOUT_MS) <==>
      s.rows[r].attempts < MAX_ATTEMPTS &&
      (s.rows[r].status == Pending ||
       (s.rows[r].claimedAt.Some? && s.clock > s.rows[r].claimedAt.value + CLAIM_TIMEOUT_MS))
  {
    ReachableInv(s);
  }

  // ----- bounded redelivery -----------------------------------------------------

  /** How often row r is handed to an agent along es. */
  function Claims(s: State, es: seq<Event>, r: nat): nat
    decreases |es|
  {
    if es == [] then 0
    else (if ClaimsRow(s, es[0], r) then 1 else 0) + Claims(Apply(s, es[0]), es[1..], r)
  }

  predicate RetriesRow(e: Event, r: nat) {
    e.RetryEvent? && e.id == r
  }

  lemma ApplyCountsAttempts(s: State, e: Event, r: nat)
    requires Inv(s) && r < |s.rows| && !RetriesRow(e, r)
    ensures r < |Apply(s, e).rows|
    ensures var n := Apply(s, e).rows[r].attempts - s.rows[r].attempts;
      n >= (if ClaimsRow(s, e, r) then 1 else 0) &&
      (s.rows[r].adapter == EscposBridge ==> n == if ClaimsRow(s, e, r) then 1 else 0)
    ensures Apply(s, e).rows[r].adapter == s.rows[r].adapter
  {
  }

  /** Between admin retries a row is handed out at most MAX_ATTEMPTS times; for
      a bridge row the attempt counter is exactly the number of hand-outs. */
  lemma {:induction false} BoundedRedelivery(s: State, es: seq<Event>, r: nat)
    requires Inv(s) && r < |s.rows|
    requires forall k | 0 <= k < |es| :: !RetriesRow(es[k], r)
    ensures r < |Exec(s, es).rows|
    ensures s.rows[r].attempts + Claims(s, es, r) <= Exec(s, es).rows[r].attempts <= MAX_ATTEMPTS
    ensures s.rows[r].adapter == EscposBridge ==>
      Exec(s, es).rows[r].attempts == s.rows[r].attempts + Claims(s, es, r)
    decreases |es|
  {
    if es != [] {
      ApplyInv(s, es[0]);
      ApplyCountsAttempts(s, es[0], r);
      BoundedRedelivery(Apply(s, es[0]), es[1..], r);
    }
  }

  // ----- given up, and done ------------------------------------------------------

  predicate RetryFree(es: seq<Event>, r: nat) {
    forall k | 0 <= k < |es| :: !RetriesRow(es[k], r)
  }

  predicate Honest(d: Delivery) { d.status == Failed ==> d.attempts == MAX_ATTEMPTS }

  /** An agent's report of failure that read a row out of attempts, has not been
      written yet, and by now is about a row that an admin has given new ones. */
  predicate StaleNack(s: State, a: Ack, r: nat)
    requires r < |s.rows|
  {
    a.Checked? && a.id == r && !a.ok && a.attempts >= MAX_ATTEMPTS && s.rows[r].attempts < MAX_ATTEMPTS
  }

  predicate NoStaleNack(s: State, r: nat)
    requires r < |s.rows|
  {
    forall k | 0 <= k < |s.acks| :: !StaleNack(s, s.acks[k], r)
  }

  predicate HonestAfter(s: State, es: seq<Event>, r: nat) {
    r < |Exec(s, es).rows| && Honest(Exec(s, es).rows[r])
  }

  ghost predicate AlwaysHonest(s: State, r: nat) {
    forall es: seq<Event> :: RetryFree(es, r) ==> HonestAfter(s, es, r)
  }

  lemma HonestStep(s: State, e: Event, r: nat)
    requires Inv(s) && r < |s.rows| && !RetriesRow(e, r) && Honest(s.rows[r]) && NoStaleNack(s, r)
    ensures r < |Apply(s, e).rows| && Honest(Apply(s, e).rows[r]) && NoStaleNack(Apply(s, e), r)
  {
    var t := Apply(s, e);
    ApplyCountsAttempts(s, e, r);
    assert RowOk(s.rows[r], s.clock, s.polls);
    if e.AckWrite? && e.ack < |s.acks| { assert !StaleNack(s, s.acks[e.ack], r); }
    forall k | 0 <= k < |t.acks| ensures !StaleNack(t, t.acks[k], r) {
      if k < |s.acks| { assert !StaleNack(s, s.acks[k], r); }
    }
  }

  lemma {:induction false} ExecHonest(s: State, es: seq<Event>, r: nat)
    requires Inv(s) && r < |s.rows| && RetryFree(es, r) && Honest(s.rows[r]) && NoStaleNack(s, r)
    ensures HonestAfter(s, es, r)
    decreases |es|
  {
    if es != [] {
      ApplyInv(s, es[0]);
      HonestStep(s, es[0], r);
      ExecHonest(Apply(s, es[0]), es[1..], r);
    }
  }

  lemma ExecOne(s: State, e: Event)
    ensures Exec(s, [e]) == Apply(s, e)
  {
    assert [e][1..] == [];
  }

  /** Until an admin retries a row, given up keeps meaning that every attempt was
      used, if and only if it does now and no report of failure from before an
      earlier retry is still to be written. */
  lemma FailedMeansExhausted(s: State, r: nat)
    requires Reachable(s) && r < |s.rows|
    ensures AlwaysHonest(s, r) <==> Honest(s.rows[r]) && NoStaleNack(s, r)
  {
    ReachableInv(s);
    if Honest(s.rows[r]) && NoStaleNack(s, r) {
      forall es: seq<Event> | RetryFree(es, r) ensures HonestAfter(s, es, r) { ExecHonest(s, es, r); }
    } else if !Honest(s.rows[r]) {
      assert !HonestAfter(s, [], r);
    } else {
      var k :| 0 <= k < |s.acks| && StaleNack(s, s.acks[k], r);
      ExecOne(s, AckWrite(k, r));
      assert !HonestAfter(s, [AckWrite(k, r)], r);
    }
  }

  predicate SentAfter(s: State, es: seq<Event>, r: nat) {
    r < |Exec(s, es).rows| && Exec(s, es).rows[r].status == Sent
  }

  predicate PendingNack(a: Ack, r: nat) { a.Checked? && a.id == r && !a.ok }

  predicate NoPendingNack(s: State, r: nat) {
    forall k | 0 <= k < |s.acks| :: !PendingNack(s.acks[k], r)
  }

  ghost predicate SentForGood(s: State, r: nat) {
    forall es: seq<Event> :: RetryFree(es, r) ==> SentAfter(s, es, r)
  }

  lemma SentStep(s: State, e: Event, r: nat)
    requires r < |s.rows| && !RetriesRow(e, r) && s.rows[r].status == Sent && NoPendingNack(s, r)
    ensures var t := Apply(s, e); r < |t.rows| && t.rows[r].status == Sent && NoPendingNack(t, r)
  {
    var t := Apply(s, e);
    if e.AckWrite? && e.ack < |s.acks| { assert !PendingNack(s.acks[e.ack], r); }
    forall k | 0 <= k < |t.acks| ensures !PendingNack(t.acks[k], r) {
      if k < |s.acks| { assert !PendingNack(s.acks[k], r); }
    }
  }

  lemma {:induction false} ExecSent(s: State, es: seq<Event>, r: nat)
    requires r < |s.rows| && RetryFree(es, r) && s.rows[r].status == Sent && NoPendingNack(s, r)
    ensures SentAfter(s, es, r)
    decreases |es|
  {
    if es != [] {
      SentStep(s, es[0], r);
      ExecSent(Apply(s, es[0]), es[1..], r);
    }
  }

  /** A ticket reported printed stays so until an admin retries it, if and only if
      no report that it failed was checked under its claim and is still to be
      written. */
  lemma SentStandsExactly(s: State, r: nat)
    requires r < |s.rows| && s.rows[r].status == Sent
    ensures SentForGood(s, r) <==> NoPendingNack(s, r)
  {
    if NoPendingNack(s, r) {
      forall es: seq<Event> | RetryFree(es, r) ensures SentAfter(s, es, r) { ExecSent(s, es, r); }
    } else {
      var k :| 0 <= k < |s.acks| && PendingNack(s.acks[k], r);
      ExecOne(s, AckWrite(k, r));
      assert !SentAfter(s, [AckWrite(k, r)], r);
    }
  }

  // ----- who moves a row -----------------------------------------------------------

  /** Event e writes a report that ticket r was printed. */
  predicate ReportsPrinted(s: State, e: Event, r: nat) {
    && e.AckWrite? && e.id == r && e.ack < |s.acks|
    && s.acks[e.ack].Checked? && s.acks[e.ack].id == r && s.acks[e.ack].ok
  }

  predicate ReportsFailure(s: State, e: Event, r: nat) {
    && e.AckWrite? && e.id == r && e.ack < |s.acks|
    && s.acks[e.ack].Checked? && s.acks[e.ack].id == r && !s.acks[e.ack].ok
  }

  /** What can happen to a ticket for the agent, status by status. It becomes sent
      exactly when a report that it was printed is written, claimed exactly when a
      poll's claim lands on it, failed when a report of failure that read it
      exhausted is written or the sweep finds it pending and exhausted, and pending
      when a lease is swept, a report of failure with attempts left is written or an
      admin of its venue retries it. */
  lemma WhoMovesARow(s: State, e: Event, r: nat)
    requires Inv(s) && r < |s.rows| && s.rows[r].adapter == EscposBridge
    ensures r < |Apply(s, e).rows|
    ensures var was, now := s.rows[r], Apply(s, e).rows[r];
      && (ReportsPrinted(s, e, r) ==>
            now == was.(status := Sent, claimedAt := None, claimId := None, lastError := None))
      && (ReportsFailure(s, e, r) ==>
            now == was.(status := if s.acks[e.ack].attempts >= 5 then Failed else Pending, claimedAt := None,
                        claimId := None, lastError := Some(Cut(s.acks[e.ack].error, MAX_ERROR))))
      && (e.RetryEvent? && e.id == r && e.venueId == was.venueId ==>
            now == was.(status := Pending, attempts := 0, claimedAt := None, claimId := None, lastError := None))
      && (ClaimsRow(s, e, r) ==>
            now == was.(status := Claimed, claimedAt := Some(s.polls[e.poll].stamp), claimId := Some(e.poll),
                        attempts := was.attempts + 1))
      && (e.SweepRelease? && e.staleBefore + 60_000 <= s.clock && was.status == Claimed
          && was.claimedAt.value < e.staleBefore ==>
            now == was.(status := Pending, claimedAt := None, claimId := None, lastError := Some(CLAIM_EXPIRED)))
      && (e.SweepExhaust? && was.status == Pending && was.attempts >= 5 ==> now == was.(status := Failed))
      && (now != was ==>
            || ReportsPrinted(s, e, r) || ReportsFailure(s, e, r) || ClaimsRow(s, e, r)
            || (e.RetryEvent? && e.id == r && e.venueId == was.venueId)
            || (e.SweepRelease? && was.status == Claimed) || (e.SweepExhaust? && was.status == Pending))
  {
    assert RowOk(s.rows[r], s.clock, s.polls);
  }

  lemma BecomesSent(s: State, e: Event, r: nat)
    requires Inv(s) && r < |s.rows| && s.rows[r].adapter == EscposBridge && s.rows[r].status != Sent
    ensures r < |Apply(s, e).rows| && (Apply(s, e).rows[r].status == Sent <==> ReportsPrinted(s, e, r))
  {
    WhoMovesARow(s, e, r);
  }

  /** A ticket for the agent that was not sent is sent later only if, somewhere in
      between, a report that it was printed was written. */
  lemma {:induction false} SentOnlyIfReported(s: State, es: seq<Event>, r: nat) returns (k: nat)
    requires Inv(s) && r < |s.rows| && s.rows[r].adapter == EscposBridge && s.rows[r].status != Sent
    requires SentAfter(s, es, r)
    ensures k < |es| && ReportsPrinted(Exec(s, es[..k]), es[k], r)
    decreases |es|
  {
    BecomesSent(s, es[0], r);
    ApplyInv(s, es[0]);
    RowsPersist(s, es[0]);
    if ReportsPrinted(s, es[0], r) {
      k := 0;
    } else {
      var later := SentOnlyIfReported(Apply(s, es[0]), es[1..], r);
      k := later + 1;
      assert es[..k][0] == es[0] && es[..k][1..] == es[1..][..later];
    }
  }

  /** Every report under way was checked by an agent of the ticket's own venue while
      the ticket was claimed. */
  lemma {:induction false} AckOrigin(s: State, es: seq<Event>, k: nat) returns (j: nat)
    requires |s.acks| <= k < |Exec(s, es).acks|
    ensures j < |es| && CheckedBy(Exec(s, es[..j]), es[j], Exec(s, es).acks[k])
    decreases |es|
  {
    assert es != [];
    var t := Apply(s, es[0]);
    if k < |t.acks| {
      j := 0;
      AckKept(t, es[1..], k);
    } else {
      var later := AckOrigin(t, es[1..], k);
      j := later + 1;
      assert es[..j][0] == es[0] && es[..j][1..] == es[1..][..later];
    }
  }

  predicate CheckedBy(s: State, e: Event, a: Ack) {
    && e.AckCheck? && a.id == e.id && (a.Checked? ==> a.ok == e.ok && a.error == e.error)
    && e.id < |s.rows| && s.rows[e.id].venueId == e.venueId && s.rows[e.id].status == Claimed
  }

  lemma {:induction false} AckKept(s: State, es: seq<Event>, k: nat)
    requires k < |s.acks|
    ensures k < |Exec(s, es).acks|
    ensures Exec(s, es).acks[k] == s.acks[k] || Exec(s, es).acks[k] == Recorded(s.acks[k].id)
    decreases |es|
  {
    if es != [] { AckKept(Apply(s, es[0]), es[1..], k); }
  }

  /** So a ticket that is sent was reported printed by an agent of its venue while it
      was claimed: for a run from an empty outbox. */
  lemma PrintedMeansReported(clock: int, es: seq<Event>, r: nat) returns (j: nat)
    requires SentAfter(State(clock, [], [], []), es, r)
    requires Exec(State(clock, [], [], []), es).rows[r].adapter == EscposBridge
    ensures j < |es|
    ensures var s := Exec(State(clock, [], [], []), es[..j]);
      && es[j].AckCheck? && es[j].id == r && es[j].ok
      && r < |s.rows| && s.rows[r].venueId == es[j].venueId && s.rows[r].status == Claimed
  {
    var start := State(clock, [], [], []);
    var n := RowOrigin(start, es, r);
    var s := Exec(start, es[..n + 1]);
    ExecInv(start, es[..n + 1]);
    assert es == es[..n + 1] + es[n + 1..];
    ExecConcat(start, es[..n + 1], es[n + 1..]);
    TicketsPersist(s, es[n + 1..], r);
    var k := SentOnlyIfReported(s, es[n + 1..], r);
    var upTo := es[..n + 1] + es[n + 1..][..k];
    ExecConcat(start, es[..n + 1], es[n + 1..][..k]);
    j := AckOrigin(start, upTo, es[n + 1..][k].ack);
    assert upTo[..j] == es[..j] && upTo[j] == es[j];
  }

  /** The enqueue of row r: the row begins there, as that enqueue asked, and not as
      sent. */
  lemma {:induction false} RowOrigin(s: State, es: seq<Event>, r: nat) returns (n: nat)
    requires |s.rows| <= r < |Exec(s, es).rows|
    ensures n < |es| && es[n].Enqueue? && r < |Exec(s, es[..n + 1]).rows|
    ensures Exec(s, es[..n + 1]).rows[r] ==
      Delivery(es[n].venueId, es[n].orderId, es[n].adapter, es[n].payload, Pending, 0, None, None, None)
    decreases |es|
  {
    assert es != [];
    var t := Apply(s, es[0]);
    if r < |t.rows| {
      n := 0;
      assert es[..1] == [es[0]];
      ExecOne(s, es[0]);
    } else {
      var later := RowOrigin(t, es[1..], r);
      n := later + 1;
      assert es[..n + 1][0] == es[0] && es[..n + 1][1..] == es[1..][..later + 1];
    }
  }

  lemma {:induction false} ExecConcat(s: State, a: seq<Event>, b: seq<Event>)
    ensures Exec(s, a + b) == Exec(Exec(s, a), b)
    decreases |a|
  {
    if a == [] {
      assert a + b == b;
    } else {
      assert (a + b)[1..] == a[1..] + b;
      ExecConcat(Apply(s, a[0]), a[1..], b);
    }
  }

  /** An agent can always report a ticket of its venue that is claimed. */
  lemma ClaimedCanBeReported(s: State, r: nat)
    requires r < |s.rows| && s.rows[r].status == Claimed
    ensures var es := [AckCheck(s.rows[r].venueId, r, true, ""), AckWrite(|s.acks|, r)];
      SentAfter(s, es, r)
  {
    var check := AckCheck(s.rows[r].venueId, r, true, "");
    var t := Apply(s, check);
    assert [check, AckWrite(|s.acks|, r)][1..] == [AckWrite(|s.acks|, r)];
    ExecOne(t, AckWrite(|s.acks|, r));
  }

  /** Once a report that it was printed is written, and no report of failure is
      pending, no poll takes the ticket again until an admin retries it. */
  lemma PrintedIsPrintedOnce(s: State, e: Event, r: nat, es: seq<Event>, later: Event)
    requires Inv(s) && r < |s.rows| && ReportsPrinted(s, e, r) && NoPendingNack(s, r) && RetryFree(es, r)
    ensures SentAfter(Apply(s, e), es, r) && !ClaimsRow(Exec(Apply(s, e), es), later, r)
  {
    var t := Apply(s, e);
    assert AckOk(s.acks[e.ack], s.rows);
    WhoMovesARow(s, e, r);
    forall k | 0 <= k < |t.acks| ensures !PendingNack(t.acks[k], r) { assert !PendingNack(s.acks[k], r); }
    ExecSent(t, es, r);
  }

  /** Whatever happens to a row, it stays the ticket it was enqueued as. */
  lemma {:induction false} TicketsPersist(s: State, es: seq<Event>, r: nat)
    requires r < |s.rows|
    ensures r < |Exec(s, es).rows| && SameTicket(s.rows[r], Exec(s, es).rows[r])
    decreases |es|
  {
    if es != [] {
      RowsPersist(s, es[0]);
      TicketsPersist(Apply(s, es[0]), es[1..], r);
    }
  }

  /** In every run from an empty outbox each row is the ticket some enqueue asked for. */
  lemma TicketAsEnqueued(clock: int, es: seq<Event>, r: nat) returns (n: nat)
    requires r < |Exec(State(clock, [], [], []), es).rows|
    ensures n < |es| && es[n].Enqueue?
    ensures var d := Exec(State(clock, [], [], []), es).rows[r];
      && d.venueId == es[n].venueId && d.orderId == es[n].orderId
      && d.adapter == es[n].adapter && d.payload == es[n].payload
  {
    var start := State(clock, [], [], []);
    n := RowOrigin(start, es, r);
    assert es == es[..n + 1] + es[n + 1..];
    ExecConcat(start, es[..n + 1], es[n + 1..]);
    TicketsPersist(Exec(start, es[..n + 1]), es[n + 1..], r);
  }

  // ----- termination ------------------------------------------------------------

  /** Attempts left, then how far the status still has to go. */
  function Measure(d: Delivery): int {
    3 * (MAX_ATTEMPTS - d.attempts) +
    match d.status case Claimed => 2 case Pending => 1 case _ => 0
  }

  predicate Finished(d: Delivery) { d.status == Sent || d.status == Failed }

  /** The row has changed in more than its last error. */
  predicate Moved(a: Delivery, b: Delivery) { a.(lastError := None) != b.(lastError := None) }

  /** Retries apart, a step that moves a row lowers the measure if and only if the
      row was not finished; and only a late ack moves one that is. */
  lemma ApplyLowersMeasure(s: State, e: Event, r: nat)
    requires Inv(s) && r < |s.rows| && !RetriesRow(e, r)
    ensures r < |Apply(s, e).rows|
    ensures var was, now := s.rows[r], Apply(s, e).rows[r];
      && (Moved(was, now) ==> (Measure(now) < Measure(was) <==> !Finished(was)))
      && (!Moved(was, now) ==> Measure(now) == Measure(was))
      && (Moved(was, now) && Finished(was) ==> e.AckWrite? && Measure(now) <= Measure(was) + 1)
  {
    assert RowOk(s.rows[r], s.clock, s.polls);
  }

  function Changes(s: State, es: seq<Event>, r: nat): nat
    requires r < |s.rows|
    decreases |es|
  {
    if es == [] then 0
    else
      var t := Apply(s, es[0]);
      assert r < |t.rows|;
      (if Moved(s.rows[r], t.rows[r]) then 1 else 0) + Changes(t, es[1..], r)
  }

  /** How often an ack is written to a row that is already finished, and moves it. */
  function LateAcks(s: State, es: seq<Event>, r: nat): nat
    requires r < |s.rows|
    decreases |es|
  {
    if es == [] then 0
    else
      var t := Apply(s, es[0]);
      assert r < |t.rows|;
      (if Moved(s.rows[r], t.rows[r]) && Finished(s.rows[r]) then 1 else 0) + LateAcks(t, es[1..], r)
  }

  /** However many agents poll, and for however long, before an admin retries it a
      row moves at most 3 * MAX_ATTEMPTS + 1 times, and twice more for each ack that
      comes too late. */
  lemma {:induction false} RowSettlesDown(s: State, es: seq<Event>, r: nat)
    requires Inv(s) && r < |s.rows| && RetryFree(es, r)
    ensures Changes(s, es, r) <= Measure(s.rows[r]) + 2 * LateAcks(s, es, r)
    ensures s.rows[r].status == Pending ==> Changes(s, es, r) <= 3 * MAX_ATTEMPTS + 1 + 2 * LateAcks(s, es, r)
    decreases |es|
  {
    assert RowOk(s.rows[r], s.clock, s.polls);
    if es != [] {
      ApplyInv(s, es[0]);
      ApplyLowersMeasure(s, es[0], r);
      RowSettlesDown(Apply(s, es[0]), es[1..], r);
    }
  }
}
