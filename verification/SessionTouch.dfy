/** Validating a customer session. The inactivity stamp is rewritten only once it
    is TOUCH_INTERVAL_MS old; here that is compared with writing it every time. */
module SessionTouch {
  import opened Common

  const IDLE_MS: int := 1_800_000
  const TOUCH_INTERVAL_MS: int := 60_000

  /** One request: the clock when it is checked and when its write happens, and
      whether everything but the clock lets it in (row found, not revoked, right
      table, table active). */
  datatype Request = Request(now: int, wroteAt: int, admitted: bool)

  predicate Accepts(lastSeenAt: int, expiresAt: int, r: Request) {
    r.admitted && r.now <= expiresAt && r.now <= lastSeenAt + IDLE_MS
  }

  /** The stamp after a request, throttled and not. */
  function Throttled(lastSeenAt: int, expiresAt: int, r: Request): int {
    if Accepts(lastSeenAt, expiresAt, r) && lastSeenAt + TOUCH_INTERVAL_MS <= r.now then r.wroteAt else lastSeenAt
  }

  function Always(lastSeenAt: int, expiresAt: int, r: Request): int {
    if Accepts(lastSeenAt, expiresAt, r) then r.wroteAt else lastSeenAt
  }

  /** Which requests get in. */
  function ThrottledAnswers(lastSeenAt: int, expiresAt: int, rs: seq<Request>): (ok: seq<bool>)
    decreases |rs|
    ensures |ok| == |rs|
  {
    if rs == [] then []
    else
      [Accepts(lastSeenAt, expiresAt, rs[0])] +
      ThrottledAnswers(Throttled(lastSeenAt, expiresAt, rs[0]), expiresAt, rs[1..])
  }

  function AlwaysAnswers(lastSeenAt: int, expiresAt: int, rs: seq<Request>): (ok: seq<bool>)
    decreases |rs|
    ensures |ok| == |rs|
  {
    if rs == [] then []
    else
      [Accepts(lastSeenAt, expiresAt, rs[0])] +
      AlwaysAnswers(Always(lastSeenAt, expiresAt, rs[0]), expiresAt, rs[1..])
  }

  /** One request after another, on one clock. */
  predicate InOrder(rs: seq<Request>, from: int) {
    rs == [] || (from <= rs[0].now <= rs[0].wroteAt && InOrder(rs[1..], rs[0].wroteAt))
  }

  /** After an accepted request the stamp is never ahead of it and less than
      TOUCH_INTERVAL_MS behind it; a refused one leaves the stamp alone. */
  lemma StampIsFresh(lastSeenAt: int, expiresAt: int, r: Request)
    requires lastSeenAt <= r.now <= r.wroteAt
    ensures var after := Throttled(lastSeenAt, expiresAt, r);
      && lastSeenAt <= after <= r.wroteAt
      && (Accepts(lastSeenAt, expiresAt, r) ==> r.now - after < TOUCH_INTERVAL_MS)
      && (!Accepts(lastSeenAt, expiresAt, r) ==> after == lastSeenAt)
  {
  }

  lemma {:induction false} ThrottlingSimulated(
      throttled: int, always: int, expiresAt: int, rs: seq<Request>, from: int, i: nat)
    requires throttled <= always <= from && InOrder(rs, from) && i < |rs|
    ensures ThrottledAnswers(throttled, expiresAt, rs)[i] ==> AlwaysAnswers(always, expiresAt, rs)[i]
    decreases |rs|
  {
    if i > 0 {
      ThrottlingSimulated(
        Throttled(throttled, expiresAt, rs[0]), Always(always, expiresAt, rs[0]),
        expiresAt, rs[1..], rs[0].wroteAt, i - 1);
    }
  }

  /** Throttling lets nobody in whom the always-writing code would refuse. */
  lemma ThrottlingIsSafe(mintedAt: int, expiresAt: int, rs: seq<Request>, i: nat)
    requires InOrder(rs, mintedAt) && i < |rs|
    ensures ThrottledAnswers(mintedAt, expiresAt, rs)[i] ==> AlwaysAnswers(mintedAt, expiresAt, rs)[i]
  {
    ThrottlingSimulated(mintedAt, mintedAt, expiresAt, rs, mintedAt, i);
  }

  predicate SmallGaps(rs: seq<Request>, from: int) {
    rs == [] || (rs[0].now - from <= IDLE_MS - TOUCH_INTERVAL_MS && SmallGaps(rs[1..], rs[0].now))
  }

  lemma {:induction false} KeptAlive(lastSeenAt: int, expiresAt: int, rs: seq<Request>, prev: int, done: int, i: nat)
    requires lastSeenAt <= done && prev - lastSeenAt < TOUCH_INTERVAL_MS && prev <= done
    requires InOrder(rs, done) && SmallGaps(rs, prev) && i < |rs|
    requires forall k | 0 <= k < |rs| :: rs[k].admitted && rs[k].now <= expiresAt
    ensures ThrottledAnswers(lastSeenAt, expiresAt, rs)[i]
    decreases |rs|
  {
    var r := rs[0];
    assert Accepts(lastSeenAt, expiresAt, r);
    if i > 0 {
      StampIsFresh(lastSeenAt, expiresAt, r);
      KeptAlive(Throttled(lastSeenAt, expiresAt, r), expiresAt, rs[1..], r.now, r.wroteAt, i - 1);
    }
  }

  /** A phone used at gaps of at most IDLE_MS - TOUCH_INTERVAL_MS never idles out
      before its hard cap. */
  lemma BusyPhoneNeverIdlesOut(mintedAt: int, expiresAt: int, rs: seq<Request>, i: nat)
    requires InOrder(rs, mintedAt) && SmallGaps(rs, mintedAt) && i < |rs|
    requires forall k | 0 <= k < |rs| :: rs[k].admitted && rs[k].now <= expiresAt
    ensures ThrottledAnswers(mintedAt, expiresAt, rs)[i]
  {
    KeptAlive(mintedAt, expiresAt, rs, mintedAt, mintedAt, i);
  }

  lemma {:induction false} RefusalIsFinal(lastSeenAt: int, expiresAt: int, rs: seq<Request>, from: int, i: nat)
    requires InOrder(rs, from) && i < |rs| && (from > expiresAt || from > lastSeenAt + IDLE_MS)
    ensures !ThrottledAnswers(lastSeenAt, expiresAt, rs)[i]
    decreases |rs|
  {
    if i > 0 { RefusalIsFinal(lastSeenAt, expiresAt, rs[1..], rs[0].wroteAt, i - 1); }
  }

  /** And the allowance is exact: one millisecond more than the idle window after
      the stamp, or after the cap, and the session is dead for good. */
  lemma ExpiryIsFinal(lastSeenAt: int, expiresAt: int, rs: seq<Request>, from: int, i: nat)
    requires InOrder(rs, from) && i < |rs| && rs != []
    requires !Accepts(lastSeenAt, expiresAt, rs[0]) && rs[0].admitted
    ensures !ThrottledAnswers(lastSeenAt, expiresAt, rs)[i]
  {
    RefusalIsFinal(lastSeenAt, expiresAt, [rs[0]] + rs[1..], rs[0].now, i);
    assert [rs[0]] + rs[1..] == rs;
  }

  /** The session row as the cookie check sees and changes it. */
  class SessionRow {
    var lastSeenAt: int
    var revokedAt: Option<int>
    const expiresAt: int
    const tableCode: string

    constructor (tableCode: string, now: int, expiresAt: int)
      ensures this.tableCode == tableCode && this.expiresAt == expiresAt
      ensures lastSeenAt == now && revokedAt == None
    {
      this.tableCode, this.expiresAt := tableCode, expiresAt;
      lastSeenAt, revokedAt := now, None;
    }

    predicate Admitted(expected: Option<string>, tableActive: bool)
      reads this
    {
      revokedAt.None? && (expected.Some? ==> expected.value == "" || expected.value == tableCode) && tableActive
    }

    method GetActive(expected: Option<string>, tableActive: bool, now: int, wroteAt: int) returns (ok: bool)
      modifies this`lastSeenAt
      ensures var r := Request(now, wroteAt, old(Admitted(expected, tableActive)));
        ok == Accepts(old(lastSeenAt), expiresAt, r) && lastSeenAt == Throttled(old(lastSeenAt), expiresAt, r)
      ensures ok <==>
        && revokedAt.None? && now <= expiresAt && now <= old(lastSeenAt) + 1_800_000 && tableActive
        && (expected.None? || expected.value == "" || expected.value == tableCode)
      ensures lastSeenAt == if ok && old(lastSeenAt) + 60_000 <= now then wroteAt else old(lastSeenAt)
    {
      if revokedAt.Some? { return false; }
      if expiresAt < now { return false; }
      if lastSeenAt + IDLE_MS < now { return false; }
      if expected.Some? && expected.value != "" && tableCode != expected.value { return false; }
      if !tableActive { return false; }
      if lastSeenAt + TOUCH_INTERVAL_MS <= now {
        lastSeenAt := wroteAt;
      }
      ok := true;
    }
  }
}
