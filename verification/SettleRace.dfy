/** Rival settlements of the same tables, each split into its statements (read the
    visit, count food in the kitchen, build the bill, close conditionally, mark
    the orders) and interleaved with new orders, withdrawals and corrections, and
    with the handlers that check a row and later write it by id: asking for the
    bill, dismissing that, the abandoned-visit sweep, and the desk's status change. */
module SettleRace {
  import opened Common
  import opened Orders

  /** amount is the itemised price; paidBy collects the settlements that marked it. */
  datatype OrderRow = OrderRow(visitId: nat, status: Status, amount: int, paidBy: set<nat>)

  datatype VisitStatus = Open | Asked | Closed

  datatype Reason = Unsettled | SettledBy(settle: nat) | Abandoned

  datatype Visit = Visit(status: VisitStatus, reason: Reason, total: Option<int>)

  /** One settlement request; seen is the order table its bill was built from. A
      count is told apart from what comes after it by the number of orders there
      were, of status changes checked, and of status changes written. */
  datatype Phase =
    | Began(visitId: nat, force: bool)
    | FoundOpen(visitId: nat, force: bool)
    | Counted(visitId: nat, force: bool, upTo: nat, checks: nat, writes: nat)
    | Billed(visitId: nat, seen: seq<OrderRow>)
    | Won(visitId: nat, seen: seq<OrderRow>)
    | Done(visitId: nat, seen: seq<OrderRow>)
    | Lost(visitId: nat)

  /** A handler between its check and its unconditional write. */
  datatype Writer =
    | Asking(visitId: nat)
    | Clearing(visitId: nat)
    | Listed(visitId: nat)
    | Totalled(visitId: nat, total: int)
    | Ended(visitId: nat)

  /** A status change of the desk's: checked against the transition table, later
      written by id; at is how many had been written before it. */
  datatype Patch =
    | Checked(order: nat, to: Status)
    | Landed(order: nat, to: Status, at: nat)

  datatype State = State(
    orders: seq<OrderRow>, visits: seq<Visit>, settles: seq<Phase>, writers: seq<Writer>,
    patches: seq<Patch>, landed: nat)

  datatype Event =
    | OpenVisit
    | Place(visitId: nat, amount: int)
    | CheckMove(order: nat, to: Status)
    | WriteMove(patch: nat)
    | Withdraw(order: nat)
    | Edit(order: nat, amount: int)
    | Ask(visitId: nat)
    | Clear(visitId: nat)
    | List(visitId: nat)
    | Resume(writer: nat)
    | Begin(visitId: nat, force: bool)
    | Advance(settle: nat)

  predicate IsOpen(v: Visit) { v.status != Closed }

  predicate Billable(o: OrderRow, visitId: nat) { o.visitId == visitId && !Void(o.status) }

  function BillTotal(orders: seq<OrderRow>, visitId: nat): int {
    if orders == [] then 0
    else
      var o := orders[|orders| - 1];
      BillTotal(orders[..|orders| - 1], visitId) + if Billable(o, visitId) then o.amount else 0
  }

  /** The ids on the bill. */
  predicate OnBill(seen: seq<OrderRow>, visitId: nat, order: nat) {
    order < |seen| && Billable(seen[order], visitId)
  }

  predicate FoodInKitchen(orders: seq<OrderRow>, visitId: nat) {
    exists i | 0 <= i < |orders| :: orders[i].visitId == visitId && InFlight(orders[i].status)
  }

  function MarkedBy(o: OrderRow, settle: nat): OrderRow { o.(paidBy := o.paidBy + {settle}) }

  function MarkPaid(orders: seq<OrderRow>, seen: seq<OrderRow>, visitId: nat, settle: nat): seq<OrderRow> {
    seq(|orders|, i requires 0 <= i < |orders| =>
      if OnBill(seen, visitId, i) then MarkedBy(orders[i], settle) else orders[i])
  }

  /** The next statement of settlement k. */
  function Settle(s: State, k: nat): State
    requires k < |s.settles|
  {
    var p := s.settles[k];
    match p
    case Began(v, force) =>
      s.(settles := s.settles[k := if v < |s.visits| && IsOpen(s.visits[v]) then FoundOpen(v, force) else Lost(v)])
    case FoundOpen(v, force) =>
      s.(settles := s.settles[k :=
        if !force && FoodInKitchen(s.orders, v) then Lost(v)
        else Counted(v, force, |s.orders|, |s.patches|, s.landed)])
    case Counted(v, _, _, _, _) => s.(settles := s.settles[k := Billed(v, s.orders)])
    case Billed(v, seen) =>
      if v < |s.visits| && IsOpen(s.visits[v]) then
        s.(visits := s.visits[v := Visit(Closed, SettledBy(k), Some(BillTotal(seen, v)))],
           settles := s.settles[k := Won(v, seen)])
      else s.(settles := s.settles[k := Lost(v)])
    case Won(v, seen) => s.(orders := MarkPaid(s.orders, seen, v, k), settles := s.settles[k := Done(v, seen)])
    case _ => s
  }

  /** The rest of a checked handler: the sweep totals the bill first; then each
      writes the visit whatever has become of it. */
  function Finish(s: State, w: nat): State
    requires w < |s.writers|
  {
    var v := s.writers[w].visitId;
    if v >= |s.visits| then s
    else match s.writers[w]
      case Asking(_) =>
        s.(visits := s.visits[v := s.visits[v].(status := Asked)], writers := s.writers[w := Ended(v)])
      case Clearing(_) =>
        s.(visits := s.visits[v := s.visits[v].(status := Open)], writers := s.writers[w := Ended(v)])
      case Listed(_) => s.(writers := s.writers[w := Totalled(v, BillTotal(s.orders, v))])
      case Totalled(_, total) =>
        s.(visits := s.visits[v := Visit(Closed, Abandoned, Some(total))], writers := s.writers[w := Ended(v)])
      case Ended(_) => s
  }

  /** The desk's write, whatever has become of the order. */
  function Write(s: State, p: nat): State
    requires p < |s.patches| && s.patches[p].Checked? && s.patches[p].order < |s.orders|
  {
    var o, to := s.patches[p].order, s.patches[p].to;
    s.(orders := s.orders[o := s.orders[o].(status := to)],
       patches := s.patches[p := Landed(o, to, s.landed)], landed := s.landed + 1)
  }

  function Apply(s: State, e: Event): State {
    match e
    case OpenVisit => s.(visits := s.visits + [Visit(Open, Unsettled, None)])
    case Place(v, amount) => s.(orders := s.orders + [OrderRow(v, Received, amount, {})])
    case CheckMove(o, to) =>
      if o < |s.orders| && DeskMay(s.orders[o].status, to)
      then s.(patches := s.patches + [Checked(o, to)]) else s
    case WriteMove(p) =>
      if p < |s.patches| && s.patches[p].Checked? && s.patches[p].order < |s.orders| then Write(s, p) else s
    case Withdraw(o) =>
      if o < |s.orders| && s.orders[o].status == Received
      then s.(orders := s.orders[o := s.orders[o].(status := Cancelled)]) else s
    case Edit(o, amount) =>
      if o < |s.orders| && InFlight(s.orders[o].status)
      then s.(orders := s.orders[o := s.orders[o].(amount := amount)]) else s
    case Ask(v) =>
      if v < |s.visits| && s.visits[v].status == Open then s.(writers := s.writers + [Asking(v)]) else s
    case Clear(v) =>
      if v < |s.visits| && s.visits[v].status == Asked then s.(writers := s.writers + [Clearing(v)]) else s
    case List(v) =>
      if v < |s.visits| && IsOpen(s.visits[v]) then s.(writers := s.writers + [Listed(v)]) else s
    case Resume(w) => if w < |s.writers| then Finish(s, w) else s
    case Begin(v, force) => s.(settles := s.settles + [Began(v, force)])
    case Advance(k) => if k < |s.settles| then Settle(s, k) else s
  }

  function Exec(s: State, es: seq<Event>): State
    decreases |es|
  {
    if es == [] then s else Exec(Apply(s, es[0]), es[1..])
  }

  lemma {:induction false} ExecConcat(s: State, a: seq<Event>, b: seq<Event>)
    ensures Exec(s, a + b) == Exec(Exec(s, a), b)
    decreases |a|
  {
    if a == [] {
      assert a + b == b;
    } else {
      assert (a + b)[1..] == a[1..] + b;
      ExecConcat(Apply(s, a[0]), a[1..], b);
    }
  }

  lemma ExecStep(s: State, es: seq<Event>, i: nat, t: State)
    requires i < |es| && Apply(s, es[i]) == t
    ensures Exec(s, es[i..]) == Exec(t, es[i + 1..])
  {
    assert es[i..][0] == es[i] && es[i..][1..] == es[i + 1..];
  }

  // ----- what every run keeps ----------------------------------------------------------

  predicate Wins(p: Phase) { p.Won? || p.Done? }

  predicate SettleOk(s: State, k: nat)
    requires k < |s.settles|
  {
    var p := s.settles[k];
    && (p.Billed? || Wins(p) ==> SeenOk(p.seen, s.orders))
    && (p.Done? ==> forall i | 0 <= i < |s.orders| :: k in s.orders[i].paidBy <==> OnBill(p.seen, p.visitId, i))
    && (!p.Done? ==> forall i | 0 <= i < |s.orders| :: k !in s.orders[i].paidBy)
  }

  /** A status change that had been checked when a count was made and was written
      after it puts order i into the kitchen. */
  predicate PutBack(s: State, count: Phase, i: nat)
    requires count.Counted?
  {
    exists q | 0 <= q < |s.patches| && q < count.checks :: PutsBack(s.patches[q], count, i)
  }

  predicate PutsBack(q: Patch, count: Phase, i: nat)
    requires count.Counted?
  {
    q.Landed? && q.order == i && InFlight(q.to) && q.at >= count.writes
  }

  /** Order i was counted, by a count that found none of its visit in the kitchen. */
  predicate CountedOut(s: State, count: Phase, i: nat) {
    count.Counted? && !count.force && i < count.upTo && i < |s.orders| && s.orders[i].visitId == count.visitId
  }

  /** What a count still says of the orders it saw: those in the kitchen now, and
      those whose status has been checked since, were put back there. */
  predicate CountOk(s: State, count: Phase) {
    count.Counted? ==>
      && count.upTo <= |s.orders| && count.checks <= |s.patches| && count.writes <= s.landed
      && (forall i | 0 <= i < count.upTo ::
            CountedOut(s, count, i) && InFlight(s.orders[i].status) ==> PutBack(s, count, i))
      && (forall q | count.checks <= q < |s.patches| ::
            CountedOut(s, count, s.patches[q].order) ==> PutBack(s, count, s.patches[q].order))
  }

  predicate PatchOk(s: State, q: Patch) {
    q.order < |s.orders| && (q.Landed? ==> q.at < s.landed)
  }

  /** Orders keep their id and their visit. */
  predicate SeenOk(seen: seq<OrderRow>, orders: seq<OrderRow>) {
    |seen| <= |orders| && forall i | 0 <= i < |seen| :: orders[i].visitId == seen[i].visitId
  }

  /** A visit that says who settled it names a winner, and carries that winner's bill. */
  predicate VisitOk(s: State, v: nat)
    requires v < |s.visits|
  {
    s.visits[v].reason.SettledBy? ==>
      var k := s.visits[v].reason.settle;
      && k < |s.settles| && Wins(s.settles[k]) && s.settles[k].visitId == v
      && s.visits[v].total == Some(BillTotal(s.settles[k].seen, v))
  }

  predicate Inv(s: State) {
    && (forall k | 0 <= k < |s.settles| :: SettleOk(s, k))
    && (forall i | 0 <= i < |s.orders| :: forall k <- s.orders[i].paidBy :: k < |s.settles|)
    && (forall v | 0 <= v < |s.visits| :: VisitOk(s, v))
    && (forall q | 0 <= q < |s.patches| :: PatchOk(s, s.patches[q]))
    && (forall k | 0 <= k < |s.settles| :: CountOk(s, s.settles[k]))
  }

  /** Somebody else's write to the orders: rows keep their visit and payments. */
  predicate OrdersEvolve(a: seq<OrderRow>, b: seq<OrderRow>) {
    && |a| <= |b|
    && (forall i | 0 <= i < |a| ::
          b[i].visitId == a[i].visitId && b[i].paidBy == a[i].paidBy)
    && (forall i | |a| <= i < |b| :: b[i].paidBy == {})
  }

  lemma EnvironmentStep(s: State, e: Event, k: nat)
    requires k < |s.settles| && SettleOk(s, k) && !e.Advance?
    ensures SettleOk(Apply(s, e), k)
  {
    var t := Apply(s, e);
    assert OrdersEvolve(s.orders, t.orders);
    assert t.settles[k] == s.settles[k];
  }

  lemma RivalStep(s: State, j: nat, k: nat)
    requires j < |s.settles| && k < |s.settles| && j != k && SettleOk(s, k)
    ensures SettleOk(Settle(s, j), k)
  {
    assert Settle(s, j).settles[k] == s.settles[k];
  }

  lemma OwnStep(s: State, k: nat)
    requires k < |s.settles| && SettleOk(s, k)
    ensures SettleOk(Settle(s, k), k)
  {
    if s.settles[k].Won? {
      var t := Settle(s, k);
      assert t.settles[k].Done?;
    }
  }

  /** A winner stays one, and keeps its bill. */
  lemma WinnerStep(s: State, e: Event, k: nat)
    requires k < |s.settles| && Wins(s.settles[k])
    ensures var t := Apply(s, e);
      k < |t.settles| && Wins(t.settles[k]) && t.settles[k].visitId == s.settles[k].visitId
      && t.settles[k].seen == s.settles[k].seen
  {
  }

  lemma VisitStep(s: State, e: Event, v: nat)
    requires Inv(s) && v < |Apply(s, e).visits|
    ensures VisitOk(Apply(s, e), v)
  {
    var t := Apply(s, e);
    if v < |s.visits| {
      assert VisitOk(s, v);
      if s.visits[v].reason.SettledBy? { WinnerStep(s, e, s.visits[v].reason.settle); }
      assert (t.visits[v].reason == s.visits[v].reason && t.visits[v].total == s.visits[v].total)
        || t.visits[v].reason == Abandoned
        || (e.Advance? && e.settle < |s.settles| && s.settles[e.settle].Billed? && s.settles[e.settle].visitId == v);
    }
  }

  /** Patches are never forgotten, and orders keep their visit. */
  lemma RowsPersist(s: State, e: Event)
    ensures var t := Apply(s, e);
      && |t.orders| >= |s.orders| && |t.patches| >= |s.patches| && t.landed >= s.landed
      && (forall i | 0 <= i < |s.orders| :: t.orders[i].visitId == s.orders[i].visitId)
      && (forall q | 0 <= q < |s.patches| ::
            && t.patches[q].order == s.patches[q].order && t.patches[q].to == s.patches[q].to
            && (s.patches[q].Landed? ==> t.patches[q] == s.patches[q])
            && (t.patches[q].Landed? && !s.patches[q].Landed? ==> t.patches[q].at == s.landed))
  {
  }

  lemma PutBackStays(s: State, e: Event, count: Phase, i: nat)
    requires count.Counted? && PutBack(s, count, i)
    ensures PutBack(Apply(s, e), count, i)
  {
    RowsPersist(s, e);
    var q :| 0 <= q < |s.patches| && q < count.checks && PutsBack(s.patches[q], count, i);
    assert PutsBack(Apply(s, e).patches[q], count, i);
  }

  /** Only a status write brings an order into the kitchen that was not there. */
  lemma IntoTheKitchen(s: State, e: Event, i: nat)
    requires i < |s.orders| && InFlight(Apply(s, e).orders[i].status)
    ensures InFlight(s.orders[i].status) ||
      (e.WriteMove? && e.patch < |s.patches| && s.patches[e.patch].order == i &&
       Apply(s, e).patches[e.patch] == Landed(i, Apply(s, e).orders[i].status, s.landed))
  {
  }

  lemma CountedOrderStep(s: State, e: Event, count: Phase, i: nat)
    requires Inv(s) && CountOk(s, count) && CountedOut(s, count, i)
    requires InFlight(Apply(s, e).orders[i].status)
    ensures PutBack(Apply(s, e), count, i)
  {
    var t := Apply(s, e);
    IntoTheKitchen(s, e, i);
    if InFlight(s.orders[i].status) {
      PutBackStays(s, e, count, i);
    } else if e.patch < count.checks {
      assert PutsBack(t.patches[e.patch], count, i);
    } else {
      PutBackStays(s, e, count, i);
    }
  }

  lemma CountedPatchStep(s: State, e: Event, count: Phase, q: nat)
    requires Inv(s) && CountOk(s, count) && count.Counted? && count.checks <= q < |Apply(s, e).patches|
    requires CountedOut(Apply(s, e), count, Apply(s, e).patches[q].order)
    ensures PutBack(Apply(s, e), count, Apply(s, e).patches[q].order)
  {
    var i := Apply(s, e).patches[q].order;
    RowsPersist(s, e);
    assert CountedOut(s, count, i);
    if q < |s.patches| {
      PutBackStays(s, e, count, i);
    } else {
      StatusGraph(s.orders[i].status, e.to);
      assert DeskMay(s.orders[i].status, e.to) && Moves(s.orders[i].status, e.to);
      PutBackStays(s, e, count, i);
    }
  }

  /** A count goes on saying what it said. */
  lemma CountStep(s: State, e: Event, count: Phase)
    requires Inv(s) && CountOk(s, count)
    ensures CountOk(Apply(s, e), count)
  {
    if count.Counted? {
      var t := Apply(s, e);
      RowsPersist(s, e);
      forall i | 0 <= i < count.upTo && CountedOut(t, count, i) && InFlight(t.orders[i].status)
        ensures PutBack(t, count, i)
      {
        CountedOrderStep(s, e, count, i);
      }
      forall q | count.checks <= q < |t.patches| && CountedOut(t, count, t.patches[q].order)
        ensures PutBack(t, count, t.patches[q].order)
      {
        CountedPatchStep(s, e, count, q);
      }
    }
  }

  lemma NewCount(s: State, k: nat)
    requires Inv(s) && k < |s.settles|
    ensures CountOk(Settle(s, k), Settle(s, k).settles[k])
  {
    var t := Settle(s, k);
    if s.settles[k].FoundOpen? && t.settles[k].Counted? && !t.settles[k].force {
      forall i | 0 <= i < |s.orders| && s.orders[i].visitId == s.settles[k].visitId
        ensures !InFlight(s.orders[i].status)
      {
      }
    }
  }

  lemma ApplyCounts(s: State, e: Event, k: nat)
    requires Inv(s) && k < |Apply(s, e).settles|
    ensures CountOk(Apply(s, e), Apply(s, e).settles[k])
  {
    if e == Advance(k) && k < |s.settles| {
      NewCount(s, k);
    } else if k < |s.settles| {
      CountStep(s, e, s.settles[k]);
    }
  }

  lemma ApplyPatches(s: State, e: Event, q: nat)
    requires Inv(s) && q < |Apply(s, e).patches|
    ensures PatchOk(Apply(s, e), Apply(s, e).patches[q])
  {
    RowsPersist(s, e);
    if q < |s.patches| { assert PatchOk(s, s.patches[q]); }
  }

  lemma ApplySettles(s: State, e: Event, k: nat)
    requires Inv(s) && k < |Apply(s, e).settles|
    ensures SettleOk(Apply(s, e), k)
  {
    if k == |s.settles| {
      forall i | 0 <= i < |s.orders| ensures k !in s.orders[i].paidBy { }
    } else if !e.Advance? {
      EnvironmentStep(s, e, k);
    } else if e.settle == k {
      OwnStep(s, k);
    } else if e.settle < |s.settles| {
      RivalStep(s, e.settle, k);
    }
  }

  lemma PayersExist(s: State, e: Event, i: nat)
    requires Inv(s) && i < |Apply(s, e).orders|
    ensures forall k <- Apply(s, e).orders[i].paidBy :: k < |Apply(s, e).settles|
  {
    if i < |s.orders| { assert forall k <- s.orders[i].paidBy :: k < |s.settles|; }
  }

  lemma ApplyInv(s: State, e: Event)
    requires Inv(s)
    ensures Inv(Apply(s, e))
  {
    var t := Apply(s, e);
    forall k | 0 <= k < |t.settles| ensures SettleOk(t, k) && CountOk(t, t.settles[k]) {
      ApplySettles(s, e, k);
      ApplyCounts(s, e, k);
    }
    forall i | 0 <= i < |t.orders| ensures forall k <- t.orders[i].paidBy :: k < |t.settles| { PayersExist(s, e, i); }
    forall v | 0 <= v < |t.visits| ensures VisitOk(t, v) { VisitStep(s, e, v); }
    forall q | 0 <= q < |t.patches| ensures PatchOk(t, t.patches[q]) { ApplyPatches(s, e, q); }
  }

  lemma {:induction false} ExecInv(s: State, es: seq<Event>)
    requires Inv(s)
    ensures Inv(Exec(s, es))
    decreases |es|
  {
    if es != [] {
      ApplyInv(s, es[0]);
      ExecInv(Apply(s, es[0]), es[1..]);
    }
  }

  lemma {:induction false} WinnerForGood(s: State, es: seq<Event>, k: nat)
    requires k < |s.settles| && Wins(s.settles[k])
    ensures k < |Exec(s, es).settles| && Wins(Exec(s, es).settles[k])
    ensures Exec(s, es).settles[k].visitId == s.settles[k].visitId
    decreases |es|
  {
    if es != [] {
      WinnerStep(s, es[0], k);
      WinnerForGood(Apply(s, es[0]), es[1..], k);
    }
  }

  /** Any orders and visits, nothing settled or paid yet, no request under way. */
  predicate Fresh(s: State) {
    && s.settles == [] && s.writers == [] && s.patches == [] && (forall o <- s.orders :: o.paidBy == {})
    && (forall v <- s.visits :: v.reason == Unsettled)
  }

  lemma FreshInv(s: State)
    requires Fresh(s)
    ensures Inv(s)
  {
    forall i | 0 <= i < |s.orders| ensures s.orders[i].paidBy == {} { assert s.orders[i] in s.orders; }
    forall v | 0 <= v < |s.visits| ensures s.visits[v].reason == Unsettled { assert s.visits[v] in s.visits; }
  }

  /** In every run: the orders a settlement has marked paid are, once it is done,
      exactly those on the bill it built, and none before that. */
  lemma PaidExactly(s: State, es: seq<Event>, k: nat, i: nat)
    requires Fresh(s) && k < |Exec(s, es).settles| && i < |Exec(s, es).orders|
    ensures var t := Exec(s, es); var p := t.settles[k];
      k in t.orders[i].paidBy <==> p.Done? && OnBill(p.seen, p.visitId, i)
  {
    FreshInv(s);
    ExecInv(s, es);
    assert SettleOk(Exec(s, es), k);
  }

  // ----- settle once, when no checked handler writes too late ----------------------------

  /** Event e is a write by id that lands on a visit closed since it was checked. */
  predicate Late(s: State, e: Event) {
    && e.Resume? && e.writer < |s.writers| && !s.writers[e.writer].Listed? && !s.writers[e.writer].Ended?
    && s.writers[e.writer].visitId < |s.visits| && !IsOpen(s.visits[s.writers[e.writer].visitId])
  }

  predicate NeverLate(s: State, es: seq<Event>)
    decreases |es|
  {
    es == [] || (!Late(s, es[0]) && NeverLate(Apply(s, es[0]), es[1..]))
  }

  /** Every winner's visit is closed in its name. */
  predicate Standing(s: State) {
    forall k | 0 <= k < |s.settles| :: Wins(s.settles[k]) ==>
      var v := s.settles[k].visitId;
      v < |s.visits| && s.visits[v].status == Closed && s.visits[v].reason == SettledBy(k)
  }

  lemma ApplyStanding(s: State, e: Event)
    requires Standing(s) && !Late(s, e)
    ensures Standing(Apply(s, e))
  {
    var t := Apply(s, e);
    forall k | 0 <= k < |t.settles| && Wins(t.settles[k])
      ensures var v := t.settles[k].visitId;
        v < |t.visits| && t.visits[v].status == Closed && t.visits[v].reason == SettledBy(k)
    {
      if k < |s.settles| && Wins(s.settles[k]) { WinnerStep(s, e, k); }
    }
  }

  lemma {:induction false} ExecStanding(s: State, es: seq<Event>)
    requires Standing(s) && NeverLate(s, es)
    ensures Standing(Exec(s, es))
    decreases |es|
  {
    if es != [] {
      ApplyStanding(s, es[0]);
      ExecStanding(Apply(s, es[0]), es[1..]);
    }
  }

  /** However settlements interleave: two winners of one visit are one and the same,
      and the visit is closed with the winner's own bill as its snapshot. */
  lemma SettledOnce(s: State, es: seq<Event>, j: nat, k: nat)
    requires Fresh(s) && NeverLate(s, es)
    requires j < |Exec(s, es).settles| && k < |Exec(s, es).settles|
    ensures var t := Exec(s, es); var p, q := t.settles[j], t.settles[k];
      && (Wins(p) && Wins(q) && p.visitId == q.visitId ==> j == k)
      && (Wins(p) ==>
            && p.visitId < |t.visits|
            && t.visits[p.visitId] == Visit(Closed, SettledBy(j), Some(BillTotal(p.seen, p.visitId))))
  {
    FreshInv(s);
    ExecInv(s, es);
    ExecStanding(s, es);
    var t := Exec(s, es);
    if Wins(t.settles[j]) { assert VisitOk(t, t.settles[j].visitId); }
  }

  /** And no order is paid by two settlements. */
  lemma PaidOnce(s: State, es: seq<Event>, j: nat, k: nat, i: nat)
    requires Fresh(s) && NeverLate(s, es) && i < |Exec(s, es).orders|
    requires j in Exec(s, es).orders[i].paidBy && k in Exec(s, es).orders[i].paidBy
    ensures j == k
  {
    FreshInv(s);
    ExecInv(s, es);
    PaidExactly(s, es, j, i);
    PaidExactly(s, es, k, i);
    var t := Exec(s, es);
    assert SettleOk(t, j) && SettleOk(t, k);
    SettledOnce(s, es, j, k);
  }

  // ----- exactly when it can go wrong -----------------------------------------------------

  /** A handler that checked the visit and has not written it yet. */
  predicate Underway(w: Writer, v: nat) { !w.Ended? && w.visitId == v }

  /** One that will open it again. */
  predicate Reopens(w: Writer, v: nat) { (w.Asking? || w.Clearing?) && w.visitId == v }

  ghost predicate StandsForever(s: State, v: nat)
    requires v < |s.visits|
  {
    forall es: seq<Event> :: v < |Exec(s, es).visits| && Exec(s, es).visits[v] == s.visits[v]
  }

  ghost predicate NoMoreSettlements(s: State, v: nat) {
    forall es: seq<Event>, j: nat :: NoNewWinner(s, Exec(s, es), v, j)
  }

  predicate NoNewWinner(s: State, t: State, v: nat, j: nat) {
    j < |t.settles| && Wins(t.settles[j]) && t.settles[j].visitId == v ==> j < |s.settles| && Wins(s.settles[j])
  }

  predicate NobodyUnderway(s: State, v: nat) {
    forall w | 0 <= w < |s.writers| :: !Underway(s.writers[w], v)
  }

  predicate NobodyReopens(s: State, v: nat) {
    forall w | 0 <= w < |s.writers| :: !Reopens(s.writers[w], v)
  }

  /** A checked handler writes once: then it is over, and what is over writes nothing. */
  lemma WritesOnce(s: State, w: nat)
    requires w < |s.writers| && s.writers[w].visitId < |s.visits|
    ensures var t := Apply(s, Resume(w));
      && |t.writers| == |s.writers|
      && (if s.writers[w].Listed?
          then t.visits == s.visits && t.writers[w] == Totalled(s.writers[w].visitId,
                                                               BillTotal(s.orders, s.writers[w].visitId))
          else t.writers[w] == Ended(s.writers[w].visitId))
      && (s.writers[w].Ended? ==> t == s)
  {
  }

  lemma {:induction false} QuietStands(s: State, es: seq<Event>, v: nat)
    requires v < |s.visits| && s.visits[v].status == Closed && NobodyUnderway(s, v)
    ensures v < |Exec(s, es).visits| && Exec(s, es).visits[v] == s.visits[v]
    decreases |es|
  {
    if es != [] {
      QuietStep(s, es[0], v);
      QuietStands(Apply(s, es[0]), es[1..], v);
    }
  }

  lemma QuietStep(s: State, e: Event, v: nat)
    requires v < |s.visits| && s.visits[v].status == Closed && NobodyUnderway(s, v)
    ensures v < |Apply(s, e).visits| && Apply(s, e).visits[v] == s.visits[v] && NobodyUnderway(Apply(s, e), v)
  {
    var t := Apply(s, e);
    forall w | 0 <= w < |t.writers| ensures !Underway(t.writers[w], v) {
      if w < |s.writers| { assert !Underway(s.writers[w], v); }
    }
    if e.Resume? && e.writer < |s.writers| { assert !Underway(s.writers[e.writer], v); }
  }

  lemma WriterSpoils(s: State, v: nat, w: nat) returns (es: seq<Event>)
    requires v < |s.visits| && s.visits[v].status == Closed && s.visits[v].reason.SettledBy?
    requires w < |s.writers| && Underway(s.writers[w], v)
    ensures v < |Exec(s, es).visits| && Exec(s, es).visits[v] != s.visits[v]
  {
    var t := Apply(s, Resume(w));
    if s.writers[w].Listed? {
      es := [Resume(w), Resume(w)];
      assert es[1..] == [Resume(w)] && t.writers[w].Totalled? && t.visits == s.visits;
      ExecOne(t, Resume(w));
    } else {
      es := [Resume(w)];
      ExecOne(s, Resume(w));
    }
  }

  lemma ExecOne(s: State, e: Event)
    ensures Exec(s, [e]) == Apply(s, e)
  {
    assert [e][1..] == [];
  }

  /** A settled visit keeps its settlement and its snapshot in every continuation
      if and only if no handler that checked it before the close has yet to write. */
  lemma StandsExactly(s: State, v: nat)
    requires v < |s.visits| && s.visits[v].status == Closed && s.visits[v].reason.SettledBy?
    ensures StandsForever(s, v) <==> NobodyUnderway(s, v)
  {
    if NobodyUnderway(s, v) {
      forall es: seq<Event> ensures v < |Exec(s, es).visits| && Exec(s, es).visits[v] == s.visits[v] {
        QuietStands(s, es, v);
      }
    } else {
      var w :| 0 <= w < |s.writers| && Underway(s.writers[w], v);
      var es := WriterSpoils(s, v, w);
      assert Exec(s, es).visits[v] != s.visits[v];
    }
  }

  lemma ClosedStep(s: State, e: Event, v: nat, j: nat)
    requires v < |s.visits| && s.visits[v].status == Closed && NobodyReopens(s, v)
    ensures var t := Apply(s, e);
      v < |t.visits| && t.visits[v].status == Closed && NobodyReopens(t, v) && NoNewWinner(s, t, v, j)
  {
    var t := Apply(s, e);
    forall w | 0 <= w < |t.writers| ensures !Reopens(t.writers[w], v) {
      if w < |s.writers| { assert !Reopens(s.writers[w], v); }
    }
    if e.Resume? && e.writer < |s.writers| { assert !Reopens(s.writers[e.writer], v); }
  }

  lemma {:induction false} ClosedForGood(s: State, es: seq<Event>, v: nat, j: nat)
    requires v < |s.visits| && s.visits[v].status == Closed && NobodyReopens(s, v)
    ensures NoNewWinner(s, Exec(s, es), v, j)
    decreases |es|
  {
    if es != [] {
      var t := Apply(s, es[0]);
      ClosedStep(s, es[0], v, j);
      ClosedForGood(t, es[1..], v, j);
      if j < |t.settles| && Wins(t.settles[j]) { WinnerForGood(t, es[1..], j); }
    }
  }

  /** A settlement from its first statement to its last with nobody in between. */
  function Till(v: nat, force: bool, k: nat): (es: seq<Event>)
    ensures |es| == 6
  {
    [Begin(v, force), Advance(k), Advance(k), Advance(k), Advance(k), Advance(k)]
  }

  lemma SettlesThrough(s: State, v: nat, force: bool, es: seq<Event>)
    requires v < |s.visits| && IsOpen(s.visits[v]) && (force || !FoodInKitchen(s.orders, v))
    requires es == Till(v, force, |s.settles|)
    ensures Exec(s, es) ==
      s.(orders := MarkPaid(s.orders, s.orders, v, |s.settles|),
         visits := s.visits[v := Visit(Closed, SettledBy(|s.settles|), Some(BillTotal(s.orders, v)))],
         settles := s.settles + [Done(v, s.orders)])
  {
    var k := |s.settles|;
    var s1 := s.(settles := s.settles + [Began(v, force)]);
    ExecStep(s, es, 0, s1);
    var s2 := s.(settles := s.settles + [FoundOpen(v, force)]);
    assert s2.settles == s1.settles[k := FoundOpen(v, force)];
    ExecStep(s1, es, 1, s2);
    var counted := Counted(v, force, |s.orders|, |s.patches|, s.landed);
    var s3 := s.(settles := s.settles + [counted]);
    assert s3.settles == s2.settles[k := counted];
    ExecStep(s2, es, 2, s3);
    assert es[0..] == es;
    SettlesOn(s, v, s3, es);
  }

  lemma SettlesOn(s: State, v: nat, s3: State, es: seq<Event>)
    requires v < |s.visits| && IsOpen(s.visits[v]) && |es| == 6
    requires s3 == s.(settles := s3.settles)
    requires |s3.settles| == |s.settles| + 1 && s3.settles[..|s.settles|] == s.settles
    requires s3.settles[|s.settles|].Counted? && s3.settles[|s.settles|].visitId == v
    requires es[3] == es[4] == es[5] == Advance(|s.settles|)
    ensures Exec(s3, es[3..]) ==
      s.(orders := MarkPaid(s.orders, s.orders, v, |s.settles|),
         visits := s.visits[v := Visit(Closed, SettledBy(|s.settles|), Some(BillTotal(s.orders, v)))],
         settles := s.settles + [Done(v, s.orders)])
  {
    var k := |s.settles|;
    var closed := s.visits[v := Visit(Closed, SettledBy(k), Some(BillTotal(s.orders, v)))];
    var s4 := s.(settles := s.settles + [Billed(v, s.orders)]);
    assert s4.settles == s3.settles[k := Billed(v, s.orders)];
    ExecStep(s3, es, 3, s4);
    var s5 := s.(visits := closed, settles := s.settles + [Won(v, s.orders)]);
    assert s5.settles == s4.settles[k := Won(v, s.orders)];
    ExecStep(s4, es, 4, s5);
    var s6 := s.(orders := MarkPaid(s.orders, s.orders, v, k), visits := closed,
                 settles := s.settles + [Done(v, s.orders)]);
    assert s6.settles == s5.settles[k := Done(v, s.orders)];
    ExecStep(s5, es, 5, s6);
    assert es[6..] == [];
  }

  /** Whoever reopens a closed visit lets it be settled again, and every order still
      owed for is then marked paid once more. */
  lemma SecondSettlement(s: State, v: nat, w: nat) returns (es: seq<Event>)
    requires v < |s.visits| && w < |s.writers| && Reopens(s.writers[w], v)
    ensures var t := Exec(s, es); var k := |s.settles|;
      && t.settles == s.settles + [Done(v, s.orders)]
      && t.orders == MarkPaid(s.orders, s.orders, v, k)
  {
    var open := Apply(s, Resume(w));
    assert IsOpen(open.visits[v]) && open.orders == s.orders && open.settles == s.settles;
    var again := Till(v, true, |s.settles|);
    es := [Resume(w)] + again;
    ExecConcat(s, [Resume(w)], again);
    ExecOne(s, Resume(w));
    SettlesThrough(open, v, true, again);
  }

  /** A closed visit can never be settled again if and only if nobody who checked
      it before the close is about to reopen it. */
  lemma SettledForGoodExactly(s: State, v: nat)
    requires v < |s.visits| && s.visits[v].status == Closed
    ensures NoMoreSettlements(s, v) <==> NobodyReopens(s, v)
  {
    if NobodyReopens(s, v) {
      forall es: seq<Event>, j: nat ensures NoNewWinner(s, Exec(s, es), v, j) { ClosedForGood(s, es, v, j); }
    } else {
      var w :| 0 <= w < |s.writers| && Reopens(s.writers[w], v);
      var es := SecondSettlement(s, v, w);
      assert !NoNewWinner(s, Exec(s, es), v, |s.settles|);
    }
  }

  /** And it does happen: a request for the bill that was checked before the table
      was settled and written after it, a second settlement, and one order paid
      twice. */
  lemma PaidTwiceWitness(o: OrderRow) returns (s: State, es: seq<Event>)
    requires o.visitId == 0 && o.status == Served && |o.paidBy| == 0
    ensures Fresh(s) && s.orders == [o]
    ensures Exec(s, es).orders == [MarkedBy(MarkedBy(o, 0), 1)]
    ensures Exec(s, es).settles == [Done(0, [o]), Done(0, [MarkedBy(o, 0)])]
  {
    s := State([o], [Visit(Open, Unsettled, None)], [], [], [], 0);
    var asked := s.(writers := [Asking(0)]);
    ExecOne(s, Ask(0));
    assert s.writers + [Asking(0)] == [Asking(0)] && Apply(s, Ask(0)) == asked;
    var paid := PaidTwice(asked, o);
    es := [Ask(0)] + paid;
    ExecConcat(s, [Ask(0)], paid);
  }

  lemma PaidTwice(s: State, o: OrderRow) returns (es: seq<Event>)
    requires o.visitId == 0 && o.status == Served
    requires s == State([o], [Visit(Open, Unsettled, None)], [], [Asking(0)], [], 0)
    ensures Exec(s, es).orders == [MarkedBy(MarkedBy(o, 0), 1)]
    ensures Exec(s, es).settles == [Done(0, [o]), Done(0, [MarkedBy(o, 0)])]
  {
    var once := Till(0, false, 0);
    SettlesThrough(s, 0, false, once);
    MarkedOnce(o, 0, 0);
    var settled := Exec(s, once);
    assert settled.orders == [MarkedBy(o, 0)] && settled.settles == [] + [Done(0, [o])];
    var again := SecondSettlement(settled, 0, 0);
    MarkedOnce(MarkedBy(o, 0), 0, 1);
    es := once + again;
    ExecConcat(s, once, again);
  }

  lemma MarkedOnce(o: OrderRow, v: nat, k: nat)
    requires Billable(o, v)
    ensures MarkPaid([o], [o], v, k) == [MarkedBy(o, k)]
  {
    assert OnBill([o], v, 0);
  }
}
