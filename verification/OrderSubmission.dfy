/** Order submission under concurrency: the replay check, reading the highest
    ticket number, and inserting under two unique indexes, each a statement of its
    own in any number of interleaved requests. */
module OrderSubmission {
  import opened Common

  const NUMBER_RETRIES: nat := 5

  /** One venue's order rows; the index is the id and the commit order. */
  datatype OrderRow = OrderRow(number: nat, sessionId: nat, key: Option<nat>)

  datatype Phase =
    | Submitted
    | Trying(attempt: nat)
    | HasMax(attempt: nat, max: nat)
    | ReadingBack
    | Answered(id: nat, number: nat)
    | GaveUp
    | Threw

  /** since is how many orders existed when the insert loop began. */
  datatype Call = Call(sessionId: nat, key: Option<nat>, phase: Phase, since: nat)

  datatype State = State(orders: seq<OrderRow>, calls: seq<Call>)

  /** keyFirst decides which violated index the database reports when both are. */
  datatype Event =
    | Submit(sessionId: nat, key: Option<nat>)
    | Check(call: nat)
    | ReadMax(call: nat)
    | Insert(call: nat, keyFirst: bool)
    | ReadBack(call: nat)

  function MaxNumber(orders: seq<OrderRow>): nat {
    if orders == [] then 0
    else
      var before := MaxNumber(orders[..|orders| - 1]);
      if orders[|orders| - 1].number > before then orders[|orders| - 1].number else before
  }

  predicate NumberTaken(orders: seq<OrderRow>, number: nat) {
    exists o <- orders :: o.number == number
  }

  predicate Matches(o: OrderRow, sessionId: nat, key: Option<nat>) {
    key.Some? && o.sessionId == sessionId && o.key == key
  }

  /** The order already stored under a session and key. */
  function FindByKey(orders: seq<OrderRow>, sessionId: nat, key: Option<nat>): (r: Option<nat>)
    ensures r.Some? ==> r.value < |orders| && Matches(orders[r.value], sessionId, key)
    ensures r.None? ==> forall o <- orders :: !Matches(o, sessionId, key)
  {
    if orders == [] then None
    else
      var n := |orders| - 1;
      if Matches(orders[n], sessionId, key) then Some(n) else FindByKey(orders[..n], sessionId, key)
  }

  function Become(s: State, c: nat, p: Phase): State
    requires c < |s.calls|
  {
    s.(calls := s.calls[c := s.calls[c].(phase := p)])
  }

  function Apply(s: State, e: Event): State {
    match e
    case Submit(session, key) => s.(calls := s.calls + [Call(session, key, Submitted, 0)])
    case Check(c) =>
      if c < |s.calls| && s.calls[c].phase.Submitted? then
        var found := FindByKey(s.orders, s.calls[c].sessionId, s.calls[c].key);
        if found.Some? then Become(s, c, Answered(found.value, s.orders[found.value].number))
        else s.(calls := s.calls[c := s.calls[c].(phase := Trying(0), since := |s.orders|)])
      else s
    case ReadMax(c) =>
      if c < |s.calls| && s.calls[c].phase.Trying?
      then Become(s, c, HasMax(s.calls[c].phase.attempt, MaxNumber(s.orders))) else s
    case Insert(c, keyFirst) =>
      if c < |s.calls| && s.calls[c].phase.HasMax? then
        var call := s.calls[c];
        var number := call.phase.max + 1;
        var numberTaken := NumberTaken(s.orders, number);
        var keyTaken := FindByKey(s.orders, call.sessionId, call.key).Some?;
        if !numberTaken && !keyTaken then
          Become(s, c, Answered(|s.orders|, number)).(orders := s.orders + [OrderRow(number, call.sessionId, call.key)])
        else if keyTaken && (keyFirst || !numberTaken) then Become(s, c, ReadingBack)
        else if call.phase.attempt == NUMBER_RETRIES - 1 then Become(s, c, GaveUp)
        else Become(s, c, Trying(call.phase.attempt + 1))
      else s
    case ReadBack(c) =>
      if c < |s.calls| && s.calls[c].phase.ReadingBack? then
        var found := FindByKey(s.orders, s.calls[c].sessionId, s.calls[c].key);
        if found.Some? then Become(s, c, Answered(found.value, s.orders[found.value].number)) else Become(s, c, Threw)
      else s
  }

  function Exec(s: State, es: seq<Event>): State
    decreases |es|
  {
    if es == [] then s else Exec(Apply(s, es[0]), es[1..])
  }

  // ----- the invariant -------------------------------------------------------------------

  predicate Consecutive(orders: seq<OrderRow>) {
    forall i | 0 <= i < |orders| :: orders[i].number == i + 1
  }

  predicate CallOk(orders: seq<OrderRow>, c: Call) {
    match c.phase
    case Submitted => true
    case Trying(a) => a < NUMBER_RETRIES && c.since + a <= |orders|
    case HasMax(a, max) => a < NUMBER_RETRIES && c.since + a <= max <= |orders|
    case ReadingBack => exists o <- orders :: Matches(o, c.sessionId, c.key)
    case Answered(id, number) =>
      id < |orders| && orders[id].number == number && orders[id].sessionId == c.sessionId && orders[id].key == c.key
    case GaveUp => c.since + NUMBER_RETRIES <= |orders|
    case Threw => false
  }

  predicate UniqueKeys(orders: seq<OrderRow>) {
    forall i, j | 0 <= i < j < |orders| :: !Matches(orders[j], orders[i].sessionId, orders[i].key)
  }

  predicate Inv(s: State) {
    && Consecutive(s.orders) && UniqueKeys(s.orders)
    && (forall c | 0 <= c < |s.calls| :: CallOk(s.orders, s.calls[c]))
  }

  lemma {:induction false} MaxIsCount(orders: seq<OrderRow>)
    requires Consecutive(orders)
    ensures MaxNumber(orders) == |orders|
  {
    if orders != [] { MaxIsCount(orders[..|orders| - 1]); }
  }

  lemma TakenBelowCount(orders: seq<OrderRow>, number: nat)
    requires Consecutive(orders) && number > 0
    ensures NumberTaken(orders, number) <==> number <= |orders|
  {
    if number <= |orders| { assert orders[number - 1] in orders; }
  }

  lemma CallSurvives(orders: seq<OrderRow>, o: OrderRow, c: Call)
    requires CallOk(orders, c)
    ensures CallOk(orders + [o], c)
  {
    if c.phase.ReadingBack? {
      var m :| m in orders && Matches(m, c.sessionId, c.key);
      assert m in orders + [o];
    }
  }

  lemma InsertInv(s: State, e: Event)
    requires Inv(s) && e.Insert? && e.call < |s.calls| && s.calls[e.call].phase.HasMax?
    ensures Inv(Apply(s, e))
  {
    var t := Apply(s, e);
    var call := s.calls[e.call];
    assert CallOk(s.orders, call);
    TakenBelowCount(s.orders, call.phase.max + 1);
    forall i | 0 <= i < |s.orders| && FindByKey(s.orders, call.sessionId, call.key).None?
      ensures !Matches(s.orders[i], call.sessionId, call.key)
    {
      assert s.orders[i] in s.orders;
    }
    forall c | 0 <= c < |t.calls| ensures CallOk(t.orders, t.calls[c]) {
      if t.orders != s.orders { CallSurvives(s.orders, t.orders[|s.orders|], s.calls[c]); }
    }
  }

  lemma ApplyInv(s: State, e: Event)
    requires Inv(s)
    ensures Inv(Apply(s, e))
  {
    match e
    case Insert(c, _) => if c < |s.calls| && s.calls[c].phase.HasMax? { InsertInv(s, e); }
    case ReadMax(c) => MaxIsCount(s.orders);
    case _ =>
  }

  lemma {:induction false} ExecInv(s: State, es: seq<Event>)
    requires Inv(s)
    ensures Inv(Exec(s, es))
    decreases |es|
  {
    if es != [] {
      ApplyInv(s, es[0]);
      ExecInv(Apply(s, es[0]), es[1..]);
    }
  }

  const EMPTY: State := State([], [])

  // ----- the promises ----------------------------------------------------------------------

  /** However submissions interleave, the ticket numbers are 1, 2, .., n in commit
      order. */
  lemma TicketNumbers(es: seq<Event>, i: nat)
    requires i < |Exec(EMPTY, es).orders|
    ensures Exec(EMPTY, es).orders[i].number == i + 1
  {
    ExecInv(EMPTY, es);
  }

  /** A call that gave up saw at least NUMBER_RETRIES other orders commit after its
      insert loop began, and reading the winner back never fails. */
  lemma GivesUpOnlyUnderLoad(es: seq<Event>, c: nat)
    requires c < |Exec(EMPTY, es).calls|
    ensures Exec(EMPTY, es).calls[c].phase.GaveUp? ==>
      |Exec(EMPTY, es).orders| >= Exec(EMPTY, es).calls[c].since + NUMBER_RETRIES
    ensures !Exec(EMPTY, es).calls[c].phase.Threw?
  {
    ExecInv(EMPTY, es);
    assert CallOk(Exec(EMPTY, es).orders, Exec(EMPTY, es).calls[c]);
  }

  /** At most one order exists per session and key. */
  lemma OneOrderPerKey(es: seq<Event>, i: nat, j: nat)
    requires i < j < |Exec(EMPTY, es).orders|
    ensures var a, b := Exec(EMPTY, es).orders[i], Exec(EMPTY, es).orders[j];
      a.key.Some? && a.key == b.key ==> a.sessionId != b.sessionId
  {
    ExecInv(EMPTY, es);
    var t := Exec(EMPTY, es);
    assert !Matches(t.orders[j], t.orders[i].sessionId, t.orders[i].key);
  }

  /** A submission is answered at once, with an order that is already there, exactly
      when it carries a key and its own session has ordered under that key; any other
      goes on to be numbered. */
  lemma ReplayExactly(s: State, c: nat)
    requires c < |s.calls| && s.calls[c].phase.Submitted?
    ensures var call, after := s.calls[c], Apply(s, Check(c)).calls[c];
      && (after.phase.Answered? <==>
            call.key.Some? && exists i | 0 <= i < |s.orders| ::
              s.orders[i].sessionId == call.sessionId && s.orders[i].key == call.key)
      && (!after.phase.Answered? ==> after == call.(phase := Trying(0), since := |s.orders|))
      && Apply(s, Check(c)).orders == s.orders
  {
    KeyTakenMeans(s.orders, s.calls[c].sessionId, s.calls[c].key);
  }

  /** With nobody in between, a submission that was not answered at once is inserted
      under the next number and answered with it. */
  lemma UndisturbedInserts(s: State, c: nat, keyFirst: bool)
    requires Consecutive(s.orders) && c < |s.calls| && s.calls[c].phase.Trying?
    requires FindByKey(s.orders, s.calls[c].sessionId, s.calls[c].key).None?
    ensures var call := s.calls[c]; var t := Apply(Apply(s, ReadMax(c)), Insert(c, keyFirst));
      && t.orders == s.orders + [OrderRow(|s.orders| + 1, call.sessionId, call.key)]
      && t.calls[c].phase == Answered(|s.orders|, |s.orders| + 1)
  {
    MaxIsCount(s.orders);
    TakenBelowCount(s.orders, |s.orders| + 1);
  }

  /** Every submission that answers names a stored order of its own session and
      key; two that share them name the same one, whichever index the database
      reported. */
  lemma SameKeySameAnswer(es: seq<Event>, c: nat, d: nat)
    requires c < |Exec(EMPTY, es).calls| && d < |Exec(EMPTY, es).calls|
    ensures var t := Exec(EMPTY, es);
      && (t.calls[c].phase.Answered? ==>
            var a := t.calls[c].phase;
            a.id < |t.orders| && t.orders[a.id] == OrderRow(a.number, t.calls[c].sessionId, t.calls[c].key))
      && (t.calls[c].phase.Answered? && t.calls[d].phase.Answered? && t.calls[c].key.Some? &&
          t.calls[c].key == t.calls[d].key && t.calls[c].sessionId == t.calls[d].sessionId ==>
            t.calls[c].phase == t.calls[d].phase)
  {
    ExecInv(EMPTY, es);
    var t := Exec(EMPTY, es);
    assert CallOk(t.orders, t.calls[c]) && CallOk(t.orders, t.calls[d]);
  }

  // ----- the running code --------------------------------------------------------------------

  datatype Created = Order(id: nat, number: nat) | Existing(id: nat, number: nat) | Exhausted

  datatype Attempt = Inserted | KeyConflict | NumberConflict

  /** Somebody else's submission, of any session and key. */
  datatype Rival = Rival(sessionId: nat, key: Option<nat>)

  /** The rivals that commit, in turn, each with the next number; the index refuses
      one whose session and key are taken. */
  function AfterRivals(orders: seq<OrderRow>, rivals: seq<Rival>): seq<OrderRow> {
    if rivals == [] then orders
    else
      var before := AfterRivals(orders, rivals[..|rivals| - 1]);
      var r := rivals[|rivals| - 1];
      if FindByKey(before, r.sessionId, r.key).Some? then before
      else before + [OrderRow(|before| + 1, r.sessionId, r.key)]
  }

  lemma {:induction false} RivalsKeepOrder(orders: seq<OrderRow>, rivals: seq<Rival>)
    requires Consecutive(orders) && UniqueKeys(orders)
    ensures Consecutive(AfterRivals(orders, rivals)) && UniqueKeys(AfterRivals(orders, rivals))
    ensures orders <= AfterRivals(orders, rivals)
  {
    if rivals != [] {
      RivalsKeepOrder(orders, rivals[..|rivals| - 1]);
      var before := AfterRivals(orders, rivals[..|rivals| - 1]);
      var r := rivals[|rivals| - 1];
      if FindByKey(before, r.sessionId, r.key).None? { NewKey(before, r.sessionId, r.key, |before| + 1); }
    }
  }

  lemma {:induction false} RivalsExtend(orders: seq<OrderRow>, rivals: seq<Rival>)
    ensures orders <= AfterRivals(orders, rivals)
  {
    if rivals != [] { RivalsExtend(orders, rivals[..|rivals| - 1]); }
  }

  lemma NewKey(orders: seq<OrderRow>, sessionId: nat, key: Option<nat>, number: nat)
    requires UniqueKeys(orders) && FindByKey(orders, sessionId, key).None?
    ensures UniqueKeys(orders + [OrderRow(number, sessionId, key)])
  {
    forall i | 0 <= i < |orders|
      ensures !Matches(OrderRow(number, sessionId, key), orders[i].sessionId, orders[i].key)
    {
      assert orders[i] in orders;
    }
  }

  /** The rivals of one attempt after another. */
  function AfterAll(orders: seq<OrderRow>, rivals: seq<seq<Rival>>): seq<OrderRow>
    decreases |rivals|
  {
    if rivals == [] then orders
    else AfterRivals(AfterAll(orders, rivals[..|rivals| - 1]), rivals[|rivals| - 1])
  }

  lemma OneMoreTry(orders: seq<OrderRow>, rivals: seq<seq<Rival>>, a: nat)
    requires a < |rivals|
    ensures AfterAll(orders, rivals[..a + 1]) == AfterRivals(AfterAll(orders, rivals[..a]), rivals[a])
  {
    assert rivals[..a + 1][..a] == rivals[..a];
  }

  /** An insert is refused for its number: somebody got in first, and the other index
      is not reported. */
  predicate NumberLost(
      before: seq<OrderRow>, after: seq<OrderRow>, keyFirst: bool, sessionId: nat, key: Option<nat>)
  {
    |after| > |before| && !(keyFirst && FindByKey(after, sessionId, key).Some?)
  }

  /** Every attempt loses its number. */
  predicate AllLost(
      orders: seq<OrderRow>, rivals: seq<seq<Rival>>, keyFirst: seq<bool>, sessionId: nat, key: Option<nat>)
    requires |rivals| == |keyFirst|
    decreases |rivals|
  {
    rivals == [] ||
    (var after := AfterRivals(orders, rivals[0]);
     NumberLost(orders, after, keyFirst[0], sessionId, key) &&
     AllLost(after, rivals[1..], keyFirst[1..], sessionId, key))
  }

  lemma KeyTakenMeans(orders: seq<OrderRow>, sessionId: nat, key: Option<nat>)
    ensures FindByKey(orders, sessionId, key).Some? <==>
      key.Some? && exists i | 0 <= i < |orders| :: orders[i].sessionId == sessionId && orders[i].key == key
  {
    if FindByKey(orders, sessionId, key).None? {
      forall i | 0 <= i < |orders| ensures !Matches(orders[i], sessionId, key) { assert orders[i] in orders; }
    }
  }

  class OrderTable {
    var orders: seq<OrderRow>

    constructor ()
      ensures orders == []
    {
      orders := [];
    }

    /** One transaction: read the highest number, let the rivals commit, insert under
        the two unique indexes, and classify the index reported if it is refused. */
    method TryInsert(sessionId: nat, key: Option<nat>, rivals: seq<Rival>, keyFirst: bool) returns (o: Attempt)
      requires Consecutive(orders) && UniqueKeys(orders)
      modifies this
      ensures Consecutive(orders) && UniqueKeys(orders)
      ensures var after := AfterRivals(old(orders), rivals);
        && orders == (if o == Inserted then after + [OrderRow(|after| + 1, sessionId, key)] else after)
        && (o == NumberConflict <==> NumberLost(old(orders), after, keyFirst, sessionId, key))
        && (o == Inserted <==> |after| == |old(orders)| && FindByKey(after, sessionId, key).None?)
        && (o == KeyConflict <==>
              && (key.Some? && exists i | 0 <= i < |after| :: after[i].sessionId == sessionId && after[i].key == key)
              && (keyFirst || |after| == |old(orders)|))
    {
      MaxIsCount(orders);
      var number := MaxNumber(orders) + 1;
      RivalsKeepOrder(orders, rivals);
      orders := AfterRivals(orders, rivals);
      TakenBelowCount(orders, number);
      var numberTaken, keyTaken := NumberTaken(orders, number), FindByKey(orders, sessionId, key).Some?;
      KeyTakenMeans(orders, sessionId, key);
      if keyTaken && (keyFirst || !numberTaken) { return KeyConflict; }
      if numberTaken { return NumberConflict; }
      NewKey(orders, sessionId, key, number);
      orders := orders + [OrderRow(number, sessionId, key)];
      o := Inserted;
    }

    /** The retry loop, with the orders rivals[a] committing between attempt a's read
        and its insert. It gives up exactly when every attempt loses its number;
        otherwise it answers with an order of its own session and key, a new one or
        the one a rival with the same key had just stored. */
    method CreateOrderWithNextNumber(
        sessionId: nat, key: Option<nat>, rivals: seq<seq<Rival>>, keyFirst: seq<bool>)
      returns (r: Created, ghost tries: nat)
      requires Consecutive(orders) && UniqueKeys(orders) && |rivals| == |keyFirst| == NUMBER_RETRIES
      requires FindByKey(orders, sessionId, key).None?
      modifies this
      ensures Consecutive(orders) && UniqueKeys(orders) && old(orders) <= orders
      ensures r.Exhausted? <==> AllLost(old(orders), rivals, keyFirst, sessionId, key)
      ensures r.Exhausted? ==> |orders| >= |old(orders)| + NUMBER_RETRIES
      ensures 1 <= tries <= NUMBER_RETRIES && (r.Exhausted? ==> tries == NUMBER_RETRIES)
      ensures orders ==
        AfterAll(old(orders), rivals[..tries]) + if r.Order? then [OrderRow(r.number, sessionId, key)] else []
      ensures r.Order? ==> r.id == |orders| - 1 && orders[r.id] == OrderRow(r.number, sessionId, key)
      ensures r.Existing? ==> |old(orders)| <= r.id < |orders| && orders[r.id] == OrderRow(r.number, sessionId, key)
    {
      ghost var was := orders;
      var attempt := 0;
      tries := 0;
      while attempt < NUMBER_RETRIES
        invariant 0 <= attempt <= NUMBER_RETRIES && tries == attempt
        invariant Consecutive(orders) && UniqueKeys(orders) && was <= orders && |orders| >= |was| + attempt
        invariant orders == AfterAll(was, rivals[..attempt])
        invariant AllLost(was, rivals, keyFirst, sessionId, key) ==
          AllLost(orders, rivals[attempt..], keyFirst[attempt..], sessionId, key)
      {
        RivalsExtend(orders, rivals[attempt]);
        NextAttempt(orders, rivals, keyFirst, sessionId, key, attempt);
        OneMoreTry(was, rivals, attempt);
        tries := attempt + 1;
        var o := TryInsert(sessionId, key, rivals[attempt], keyFirst[attempt]);
        if o == Inserted {
          return Order(|orders| - 1, orders[|orders| - 1].number), tries;
        }
        if o == KeyConflict {
          var winner := FindByKey(orders, sessionId, key);
          OlderHaveOtherKeys(was, sessionId, key, orders, winner.value);
          return Existing(winner.value, orders[winner.value].number), tries;
        }
        attempt := attempt + 1;
      }
      r, tries := Exhausted, attempt;
    }
  }

  lemma NextAttempt(
      orders: seq<OrderRow>, rivals: seq<seq<Rival>>, keyFirst: seq<bool>, sessionId: nat, key: Option<nat>, a: nat)
    requires a < |rivals| == |keyFirst|
    ensures AllLost(orders, rivals[a..], keyFirst[a..], sessionId, key) ==
      (NumberLost(orders, AfterRivals(orders, rivals[a]), keyFirst[a], sessionId, key) &&
       AllLost(AfterRivals(orders, rivals[a]), rivals[a + 1..], keyFirst[a + 1..], sessionId, key))
  {
    assert rivals[a..][0] == rivals[a] && rivals[a..][1..] == rivals[a + 1..];
    assert keyFirst[a..][0] == keyFirst[a] && keyFirst[a..][1..] == keyFirst[a + 1..];
  }

  lemma OlderHaveOtherKeys(was: seq<OrderRow>, sessionId: nat, key: Option<nat>, orders: seq<OrderRow>, i: nat)
    requires FindByKey(was, sessionId, key).None? && was <= orders && i < |orders|
    requires Matches(orders[i], sessionId, key)
    ensures i >= |was|
  {
    assert forall j | 0 <= j < |was| :: was[j] in was && orders[j] == was[j];
  }
}
