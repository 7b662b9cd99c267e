/** One venue's tables, as every handler changes them: visits, the phones'
    sessions and the orders. Each handler is one step here, except that the desk's
    status change is checked in one and written in another; the races between the
    other handlers' statements have modules of their own. */
module VenueFloor {
  import opened Common
  import opened Orders
  import opened Billing
  import OrderEdit

  const HARD_CAP_MS: int := 7_200_000
  const ABANDON_AFTER_MS: int := 10_800_000
  const MAX_ACTIVE_PER_TABLE: nat := 6

  datatype VisitStatus = Open | BillRequested | Closed
  datatype Reason = Settled | Abandoned
  datatype Payment = Cash | Card

  datatype Visit = Visit(
    tableId: nat, status: VisitStatus, openedAt: int, billRequestedAt: Option<int>,
    closedAt: Option<int>, closedReason: Option<Reason>, total: Option<int>,
    payment: Option<Payment>, paidAmount: Option<int>, closedBy: Option<nat>)

  datatype Session = Session(tableId: nat, visitId: nat, expiresAt: int, revokedAt: Option<int>)

  /** The desk's status change: checked, then written by id. */
  datatype Patch = Checked(orderId: nat, to: Status, reason: string) | Landed(orderId: nat)

  /** A row's index is its id and its place in creation order. */
  datatype Floor = Floor(
    now: int, visits: seq<Visit>, sessions: seq<Session>, orders: seq<Order>, patches: seq<Patch>)

  datatype Event =
    | Advance(ms: nat)
    | Scan(tableId: nat)
    | Place(sessionId: nat, lines: seq<Line>)
    | CheckMove(orderId: nat, to: Status, reason: string)
    | WriteMove(patch: nat)
    | Cancel(sessionId: nat, orderId: nat)
    | Edit(orderId: nat, input: seq<OrderEdit.Entry>)
    | RequestBill(visitId: nat)
    | ClearBillRequest(visitId: nat)
    | Settle(visitId: nat, payment: Payment, paidAmount: Option<int>, staffId: nat, force: bool)
    | CloseAbandoned(visitId: nat)
    | Revoke(sessionId: nat)
    | RevokeTable(tableId: nat)

  // ----- queries ------------------------------------------------------------------

  predicate IsOpen(v: Visit) { v.status != Closed }

  predicate Active(s: Session, now: int) { s.revokedAt.None? && s.expiresAt > now }

  predicate Billable(o: Order, visitId: nat) { o.visitId == visitId && !Void(o.status) }

  /** The newest open visit of a table. */
  function OpenVisit(visits: seq<Visit>, tableId: nat): (r: Option<nat>)
    ensures r.Some? ==> r.value < |visits| && visits[r.value].status != Closed && visits[r.value].tableId == tableId
    ensures forall i | (if r.Some? then r.value + 1 else 0) <= i < |visits| ::
      visits[i].status == Closed || visits[i].tableId != tableId
  {
    if visits == [] then None
    else
      var n := |visits| - 1;
      if IsOpen(visits[n]) && visits[n].tableId == tableId then Some(n) else OpenVisit(visits[..n], tableId)
  }

  function BilledIds(orders: seq<Order>, visitId: nat): (ids: seq<nat>)
    ensures forall i :: i in ids <==> 0 <= i < |orders| && Billable(orders[i], visitId)
  {
    if orders == [] then []
    else
      var n := |orders| - 1;
      BilledIds(orders[..n], visitId) + if Billable(orders[n], visitId) then [n] else []
  }

  function BilledOrders(orders: seq<Order>, visitId: nat): (billed: seq<Order>)
    ensures |billed| == |BilledIds(orders, visitId)|
    ensures forall o <- billed :: o in orders && Billable(o, visitId)
  {
    if orders == [] then []
    else
      var n := |orders| - 1;
      BilledOrders(orders[..n], visitId) + if Billable(orders[n], visitId) then [orders[n]] else []
  }

  /** What the itemised bill of a visit adds up to. */
  function BillTotal(f: Floor, visitId: nat): int {
    ItemisedSum(BilledOrders(f.orders, visitId))
  }

  predicate FoodInKitchen(orders: seq<Order>, visitId: nat) {
    exists o <- orders :: o.visitId == visitId && InFlight(o.status)
  }

  /** How many of a table's sessions from `from` on are live. */
  function ActiveFrom(sessions: seq<Session>, tableId: nat, now: int, from: nat): nat
    decreases |sessions| - from
  {
    if from >= |sessions| then 0
    else (if sessions[from].tableId == tableId && Active(sessions[from], now) then 1 else 0)
         + ActiveFrom(sessions, tableId, now, from + 1)
  }

  predicate Abandonable(f: Floor, visitId: nat) {
    && visitId < |f.visits| && IsOpen(f.visits[visitId])
    && f.visits[visitId].openedAt < f.now - ABANDON_AFTER_MS
    && (forall s <- f.sessions :: s.visitId == visitId ==> !Active(s, f.now))
    && (forall o <- f.orders :: o.visitId == visitId ==> o.createdAt <= f.now - ABANDON_AFTER_MS)
  }

  // ----- steps --------------------------------------------------------------------

  function NewVisit(tableId: nat, now: int): Visit {
    Visit(tableId, Open, now, None, None, None, None, None, None, None)
  }

  /** Revokes every live session of the table with MAX_ACTIVE_PER_TABLE newer ones. */
  function Displaced(sessions: seq<Session>, tableId: nat, now: int): seq<Session> {
    seq(|sessions|, i requires 0 <= i < |sessions| =>
      if sessions[i].tableId == tableId && Active(sessions[i], now)
         && ActiveFrom(sessions, tableId, now, i + 1) >= MAX_ACTIVE_PER_TABLE
      then sessions[i].(revokedAt := Some(now)) else sessions[i])
  }

  function AfterScan(f: Floor, tableId: nat): Floor {
    var found := OpenVisit(f.visits, tableId);
    var visits := if found.Some? then f.visits else f.visits + [NewVisit(tableId, f.now)];
    var visitId := if found.Some? then found.value else |f.visits|;
    var sessions := f.sessions + [Session(tableId, visitId, f.now + HARD_CAP_MS, None)];
    f.(visits := visits, sessions := Displaced(sessions, tableId, f.now))
  }

  function NewOrder(f: Floor, sessionId: nat, lines: seq<Line>): Order
    requires sessionId < |f.sessions|
  {
    var s := f.sessions[sessionId];
    Order(s.tableId, sessionId, s.visitId, Received, None, Itemised(lines), false, f.now, lines)
  }

  predicate CanSettle(f: Floor, visitId: nat, force: bool) {
    visitId < |f.visits| && IsOpen(f.visits[visitId]) && (force || !FoodInKitchen(f.orders, visitId))
  }

  function SettledVisit(
      v: Visit, total: int, payment: Payment, paidAmount: Option<int>, staffId: nat, now: int): Visit
  {
    Visit(v.tableId, Closed, v.openedAt, None, Some(now), Some(Settled), Some(total), Some(payment),
          Some(if paidAmount.Some? then paidAmount.value else total), Some(staffId))
  }

  function MarkPaid(orders: seq<Order>, visitId: nat): seq<Order> {
    seq(|orders|, i requires 0 <= i < |orders| =>
      if Billable(orders[i], visitId) then orders[i].(paid := true) else orders[i])
  }

  function RevokeWhere(sessions: seq<Session>, which: Session -> bool, now: int): seq<Session> {
    seq(|sessions|, i requires 0 <= i < |sessions| =>
      if which(sessions[i]) && sessions[i].revokedAt.None? then sessions[i].(revokedAt := Some(now)) else sessions[i])
  }

  function AfterSettle(f: Floor, visitId: nat, payment: Payment, paidAmount: Option<int>, staffId: nat): Floor
    requires visitId < |f.visits|
  {
    f.(visits := f.visits[visitId :=
         SettledVisit(f.visits[visitId], BillTotal(f, visitId), payment, paidAmount, staffId, f.now)],
       orders := MarkPaid(f.orders, visitId),
       sessions := RevokeWhere(f.sessions, (s: Session) => s.visitId == visitId, f.now))
  }

  function AbandonedVisit(v: Visit, total: int, now: int): Visit {
    v.(status := Closed, closedAt := Some(now), closedReason := Some(Abandoned), total := Some(total))
  }

  predicate MayMove(o: Order, to: Status, reason: string) {
    DeskMay(o.status, to) && (to == Rejected ==> reason != "")
  }

  /** The desk's write, whatever has become of the order. */
  function MovedOrder(o: Order, to: Status, reason: string): Order {
    o.(status := to, rejectReason := if to == Rejected then Some(Cut(reason, MAX_REASON)) else None)
  }

  function CancelledOrder(o: Order, sessionId: nat): Order {
    if o.sessionId == sessionId && o.status == Received then o.(status := Cancelled) else o
  }

  function WithOrder(f: Floor, orderId: nat, o: Order): Floor
    requires orderId < |f.orders|
  {
    f.(orders := f.orders[orderId := o])
  }

  function AfterWrite(f: Floor, p: nat): Floor
    requires p < |f.patches| && f.patches[p].Checked? && f.patches[p].orderId < |f.orders|
  {
    var q := f.patches[p];
    WithOrder(f, q.orderId, MovedOrder(f.orders[q.orderId], q.to, q.reason)).(
      patches := f.patches[p := Landed(q.orderId)])
  }

  function Apply(f: Floor, e: Event): Floor {
    match e
    case Advance(ms) => f.(now := f.now + ms)
    case Scan(t) => AfterScan(f, t)
    case Place(s, lines) =>
      // A request may have been in flight since before its session was revoked,
      // so any session that exists may still place an order.
      if s < |f.sessions| && DistinctIds(lines) && (forall l <- lines :: Live(l))
      then f.(orders := f.orders + [NewOrder(f, s, lines)]) else f
    case CheckMove(o, to, reason) =>
      if o < |f.orders| && MayMove(f.orders[o], to, reason)
      then f.(patches := f.patches + [Checked(o, to, reason)]) else f
    case WriteMove(p) =>
      if p < |f.patches| && f.patches[p].Checked? && f.patches[p].orderId < |f.orders| then AfterWrite(f, p) else f
    case Cancel(s, o) => if o < |f.orders| then WithOrder(f, o, CancelledOrder(f.orders[o], s)) else f
    case Edit(o, input) =>
      if o < |f.orders| then WithOrder(f, o, OrderEdit.EditedOrder(f.orders[o], input, f.now)) else f
    case RequestBill(v) =>
      if v < |f.visits| && f.visits[v].status == Open
      then f.(visits := f.visits[v := f.visits[v].(status := BillRequested, billRequestedAt := Some(f.now))]) else f
    case ClearBillRequest(v) =>
      if v < |f.visits| && f.visits[v].status == BillRequested
      then f.(visits := f.visits[v := f.visits[v].(status := Open, billRequestedAt := None)]) else f
    case Settle(v, payment, paid, staff, force) =>
      if CanSettle(f, v, force) then AfterSettle(f, v, payment, paid, staff) else f
    case CloseAbandoned(v) =>
      if Abandonable(f, v)
      then f.(visits := f.visits[v := AbandonedVisit(f.visits[v], BillTotal(f, v), f.now)]) else f
    case Revoke(s) =>
      if s < |f.sessions| then f.(sessions := f.sessions[s := f.sessions[s].(revokedAt := Some(f.now))]) else f
    case RevokeTable(t) => f.(sessions := RevokeWhere(f.sessions, (s: Session) => s.tableId == t, f.now))
  }

  function Exec(f: Floor, es: seq<Event>): Floor
    decreases |es|
  {
    if es == [] then f else Exec(Apply(f, es[0]), es[1..])
  }

  /** No correction in the run names one line twice. */
  predicate ProperEdits(es: seq<Event>) {
    forall k | 0 <= k < |es| :: es[k].Edit? ==> OrderEdit.DistinctEntries(es[k].input)
  }

  // ----- what every reachable state keeps ----------------------------------------------

  predicate OrderOk(f: Floor, o: Order) {
    && DistinctIds(o.lines)
    && o.sessionId < |f.sessions|
    && o.tableId == f.sessions[o.sessionId].tableId
    && o.visitId == f.sessions[o.sessionId].visitId
    && (o.paid ==> o.visitId < |f.visits| && f.visits[o.visitId].closedReason == Some(Settled))
  }

  predicate SessionOk(f: Floor, s: Session) {
    && s.visitId < |f.visits|
    && f.visits[s.visitId].tableId == s.tableId
    && (Active(s, f.now) ==> IsOpen(f.visits[s.visitId]))
  }

  predicate VisitOk(v: Visit) {
    v.status == Closed <==> v.closedReason.Some?
  }

  /** The desk never withdraws an order, nor makes one as good as new. */
  predicate PatchOk(f: Floor, q: Patch) {
    q.orderId < |f.orders| && (q.Checked? ==> q.to != Cancelled && q.to != Received)
  }

  predicate TablesOk(f: Floor) {
    && (forall i | 0 <= i < |f.orders| :: OrderOk(f, f.orders[i]))
    && (forall i | 0 <= i < |f.sessions| :: SessionOk(f, f.sessions[i]))
    && (forall i | 0 <= i < |f.visits| :: VisitOk(f.visits[i]))
    && (forall i, j | 0 <= i < j < |f.visits| ::
          IsOpen(f.visits[i]) && IsOpen(f.visits[j]) ==> f.visits[i].tableId != f.visits[j].tableId)
  }

  predicate Inv(f: Floor) {
    TablesOk(f) && forall q | 0 <= q < |f.patches| :: PatchOk(f, f.patches[q])
  }

  /** Steps that rewrite one order. */
  predicate OnOneOrder(e: Event) { e.WriteMove? || e.Cancel? || e.Edit? }

  /** None of them moves an order to another party or pays for it. */
  lemma OneOrderStep(f: Floor, e: Event, i: nat)
    requires OnOneOrder(e) && i < |f.orders| && DistinctIds(f.orders[i].lines)
    ensures var g := Apply(f, e);
      && g == f.(orders := g.orders, patches := g.patches) && |g.orders| == |f.orders|
      && DistinctIds(g.orders[i].lines)
      && g.orders[i] == f.orders[i].(
           status := g.orders[i].status, rejectReason := g.orders[i].rejectReason,
           total := g.orders[i].total, lines := g.orders[i].lines)
  {
    if e.Edit? { OrderEdit.EditedShape(f.orders[i], e.input, f.now); }
  }

  lemma ApplyInv(f: Floor, e: Event)
    requires Inv(f)
    ensures Inv(Apply(f, e))
  {
    match e {
      case Scan(t) => ScanInv(f, t);
      case Place(s, lines) => PlaceInv(f, s, lines);
      case Settle(v, payment, paid, staff, force) =>
        if CanSettle(f, v, force) { SettleInv(f, v, payment, paid, staff); }
      case CloseAbandoned(v) => if Abandonable(f, v) { AbandonInv(f, v); }
      case _ => if OnOneOrder(e) { OneOrderInv(f, e); } else { QuietInv(f, e); }
    }
    forall q | 0 <= q < |Apply(f, e).patches| ensures PatchOk(Apply(f, e), Apply(f, e).patches[q]) {
      PatchesInv(f, e, q);
    }
  }

  /** Orders are never deleted; a patch keeps its order, and is checked only once. */
  lemma PatchesPersist(f: Floor, e: Event)
    ensures var g := Apply(f, e);
      && |g.orders| >= |f.orders| && |f.patches| <= |g.patches| <= |f.patches| + 1
      && (forall q | 0 <= q < |f.patches| ::
            g.patches[q] == f.patches[q] || g.patches[q] == Landed(f.patches[q].orderId))
      && (|g.patches| > |f.patches| ==>
            && e.CheckMove? && e.orderId < |f.orders| && MayMove(f.orders[e.orderId], e.to, e.reason)
            && g.patches[|f.patches|] == Checked(e.orderId, e.to, e.reason))
  {
  }

  lemma PatchesInv(f: Floor, e: Event, q: nat)
    requires Inv(f) && q < |Apply(f, e).patches|
    ensures PatchOk(Apply(f, e), Apply(f, e).patches[q])
  {
    PatchesPersist(f, e);
    if q < |f.patches| {
      assert PatchOk(f, f.patches[q]);
    } else {
      StatusGraph(f.orders[e.orderId].status, e.to);
    }
  }

  lemma OneOrderInv(f: Floor, e: Event)
    requires TablesOk(f) && OnOneOrder(e)
    ensures TablesOk(Apply(f, e))
  {
    var g := Apply(f, e);
    if |f.orders| > 0 {
      forall i | 0 <= i < |g.orders| ensures OrderOk(g, g.orders[i]) {
        assert OrderOk(f, f.orders[i]);
        OneOrderStep(f, e, i);
      }
      assert OrderOk(f, f.orders[0]);
      OneOrderStep(f, e, 0);
    }
    SameSessionsAndVisits(f, g);
  }

  lemma SameSessionsAndVisits(f: Floor, g: Floor)
    requires TablesOk(f) && g == f.(orders := g.orders, patches := g.patches)
    ensures forall i | 0 <= i < |g.sessions| :: SessionOk(g, g.sessions[i])
  {
    forall i | 0 <= i < |g.sessions| ensures SessionOk(g, g.sessions[i]) { assert SessionOk(f, f.sessions[i]); }
  }

  lemma PlaceInv(f: Floor, s: nat, lines: seq<Line>)
    requires TablesOk(f)
    ensures TablesOk(Apply(f, Place(s, lines)))
  {
    var g := Apply(f, Place(s, lines));
    forall k | 0 <= k < |g.orders| ensures OrderOk(g, g.orders[k]) {
      if k < |f.orders| { assert OrderOk(f, f.orders[k]); }
    }
    SameSessionsAndVisits(f, g);
  }

  /** Steps that write neither orders nor the end of a visit. */
  predicate Quiet(e: Event) {
    e.Advance? || e.CheckMove? || e.RequestBill? || e.ClearBillRequest? || e.Revoke? || e.RevokeTable?
  }

  lemma QuietStep(f: Floor, e: Event)
    requires Quiet(e)
    ensures var g := Apply(f, e);
      && g.orders == f.orders && g.now >= f.now && |g.visits| == |f.visits| && |g.sessions| == |f.sessions|
      && (forall v | 0 <= v < |f.visits| ::
            g.visits[v].tableId == f.visits[v].tableId && g.visits[v].closedReason == f.visits[v].closedReason &&
            IsOpen(g.visits[v]) == IsOpen(f.visits[v]) && (!IsOpen(f.visits[v]) ==> g.visits[v] == f.visits[v]))
      && (forall s | 0 <= s < |f.sessions| ::
            g.sessions[s].tableId == f.sessions[s].tableId && g.sessions[s].visitId == f.sessions[s].visitId &&
            (Active(g.sessions[s], g.now) ==> Active(f.sessions[s], f.now)))
  {
  }

  lemma QuietInv(f: Floor, e: Event)
    requires TablesOk(f) && Quiet(e)
    ensures TablesOk(Apply(f, e))
  {
    QuietStep(f, e);
    var g := Apply(f, e);
    forall i | 0 <= i < |g.orders| ensures OrderOk(g, g.orders[i]) { assert OrderOk(f, f.orders[i]); }
    forall i | 0 <= i < |g.sessions| ensures SessionOk(g, g.sessions[i]) { assert SessionOk(f, f.sessions[i]); }
    forall i | 0 <= i < |g.visits| ensures VisitOk(g.visits[i]) { assert VisitOk(f.visits[i]); }
  }

  lemma ScanInv(f: Floor, tableId: nat)
    requires TablesOk(f)
    ensures TablesOk(AfterScan(f, tableId))
  {
    var g := AfterScan(f, tableId);
    forall i | 0 <= i < |g.orders| ensures OrderOk(g, g.orders[i]) { assert OrderOk(f, f.orders[i]); }
    forall i | 0 <= i < |g.sessions| ensures SessionOk(g, g.sessions[i]) {
      if i < |f.sessions| { assert SessionOk(f, f.sessions[i]); }
    }
    forall i | 0 <= i < |g.visits| ensures VisitOk(g.visits[i]) {
      if i < |f.visits| { assert VisitOk(f.visits[i]); }
    }
  }

  lemma SettleInv(f: Floor, v: nat, payment: Payment, paid: Option<int>, staff: nat)
    requires TablesOk(f) && v < |f.visits| && IsOpen(f.visits[v])
    ensures TablesOk(AfterSettle(f, v, payment, paid, staff))
  {
    var g := AfterSettle(f, v, payment, paid, staff);
    forall i | 0 <= i < |g.orders| ensures OrderOk(g, g.orders[i]) {
      assert OrderOk(f, f.orders[i]);
      SettleOrderInv(f, g, v, i);
    }
    forall i | 0 <= i < |g.sessions| ensures SessionOk(g, g.sessions[i]) {
      assert SessionOk(f, f.sessions[i]);
      SettleSessionInv(f, v, payment, paid, staff, i);
    }
    forall i | 0 <= i < |g.visits| ensures VisitOk(g.visits[i]) { assert VisitOk(f.visits[i]); }
    forall i, j | 0 <= i < j < |g.visits| && IsOpen(g.visits[i]) && IsOpen(g.visits[j])
      ensures g.visits[i].tableId != g.visits[j].tableId
    {
      assert g.visits[i] == f.visits[i] && g.visits[j] == f.visits[j];
    }
  }

  lemma SettleSessionInv(f: Floor, v: nat, payment: Payment, paid: Option<int>, staff: nat, i: nat)
    requires v < |f.visits| && i < |f.sessions| && SessionOk(f, f.sessions[i])
    ensures var g := AfterSettle(f, v, payment, paid, staff); SessionOk(g, g.sessions[i])
  {
  }

  lemma SettleOrderInv(f: Floor, g: Floor, v: nat, i: nat)
    requires i < |f.orders| && OrderOk(f, f.orders[i]) && v < |f.visits| == |g.visits|
    requires g.orders == MarkPaid(f.orders, v)
    requires |g.sessions| == |f.sessions|
    requires forall k | 0 <= k < |f.sessions| ::
      g.sessions[k].tableId == f.sessions[k].tableId && g.sessions[k].visitId == f.sessions[k].visitId
    requires forall k | 0 <= k < |f.visits| :: k != v ==> g.visits[k] == f.visits[k]
    requires g.visits[v].closedReason == Some(Settled)
    ensures OrderOk(g, g.orders[i])
  {
  }

  lemma AbandonInv(f: Floor, v: nat)
    requires TablesOk(f) && Abandonable(f, v)
    ensures TablesOk(Apply(f, CloseAbandoned(v)))
  {
    var g := Apply(f, CloseAbandoned(v));
    forall i | 0 <= i < |g.orders| ensures OrderOk(g, g.orders[i]) { assert OrderOk(f, f.orders[i]); }
    forall i | 0 <= i < |g.sessions| ensures SessionOk(g, g.sessions[i]) {
      assert SessionOk(f, f.sessions[i]) && f.sessions[i] in f.sessions;
    }
  }

  lemma {:induction false} ExecInv(f: Floor, es: seq<Event>)
    requires Inv(f)
    ensures Inv(Exec(f, es))
    decreases |es|
  {
    if es != [] {
      ApplyInv(f, es[0]);
      ExecInv(Apply(f, es[0]), es[1..]);
    }
  }

  /** An empty venue at some instant. */
  function Start(now: int): Floor { Floor(now, [], [], [], []) }

  ghost predicate Reachable(f: Floor) {
    exists now: int, es: seq<Event> :: f == Exec(Start(now), es)
  }

  lemma ReachableInv(f: Floor)
    requires Reachable(f)
    ensures Inv(f)
  {
    var now: int, es: seq<Event> :| f == Exec(Start(now), es);
    ExecInv(Start(now), es);
  }

  // ----- what is owed -----------------------------------------------------------------

  /** The order is of the visit, and was neither refused nor withdrawn. */
  predicate Owed(o: Order, visitId: nat) {
    o.visitId == visitId &&
    (o.status == Received || o.status == Accepted || o.status == Preparing || o.status == Ready || o.status == Served)
  }

  lemma {:induction false} BilledInOrder(orders: seq<Order>, v: nat, j: nat, k: nat)
    requires j < k < |BilledIds(orders, v)|
    ensures BilledIds(orders, v)[j] < BilledIds(orders, v)[k]
    decreases |orders|
  {
    var n := |orders| - 1;
    var before := BilledIds(orders[..n], v);
    assert before[j] in before;
    if k < |before| { BilledInOrder(orders[..n], v, j, k); }
  }

  lemma {:induction false} BilledById(orders: seq<Order>, v: nat, k: nat)
    requires k < |BilledIds(orders, v)|
    ensures |BilledOrders(orders, v)| == |BilledIds(orders, v)| && BilledIds(orders, v)[k] < |orders|
    ensures BilledOrders(orders, v)[k] == orders[BilledIds(orders, v)[k]]
    decreases |orders|
  {
    var init := orders[..|orders| - 1];
    if k < |BilledIds(init, v)| { BilledById(init, v, k); }
  }

  /** The bill covers exactly the orders owed, oldest first, each with its id. */
  lemma BillCovers(orders: seq<Order>, v: nat, i: nat)
    ensures var ids, billed := BilledIds(orders, v), BilledOrders(orders, v);
      && (i in ids <==> i < |orders| && Owed(orders[i], v))
      && |billed| == |ids|
      && (forall k | 0 <= k < |ids| :: ids[k] < |orders| && billed[k] == orders[ids[k]])
      && (forall j, k | 0 <= j < k < |ids| :: ids[j] < ids[k])
  {
    var ids, billed := BilledIds(orders, v), BilledOrders(orders, v);
    forall j, k | 0 <= j < k < |ids| ensures ids[j] < ids[k] { BilledInOrder(orders, v, j, k); }
    forall k | 0 <= k < |ids| ensures ids[k] < |orders| && billed[k] == orders[ids[k]] { BilledById(orders, v, k); }
  }

  lemma {:induction false} OrderKeepsParty(f: Floor, es: seq<Event>, i: nat)
    requires Inv(f) && i < |f.orders|
    ensures i < |Exec(f, es).orders|
    ensures Exec(f, es).orders[i].visitId == f.orders[i].visitId
    ensures Exec(f, es).orders[i].sessionId == f.orders[i].sessionId
    decreases |es|
  {
    if es != [] {
      assert OrderOk(f, f.orders[i]);
      PartyStep(f, es[0], i);
      ApplyInv(f, es[0]);
      OrderKeepsParty(Apply(f, es[0]), es[1..], i);
    }
  }

  lemma PartyStep(f: Floor, e: Event, i: nat)
    requires i < |f.orders| && DistinctIds(f.orders[i].lines)
    ensures i < |Apply(f, e).orders|
    ensures Apply(f, e).orders[i].visitId == f.orders[i].visitId
    ensures Apply(f, e).orders[i].sessionId == f.orders[i].sessionId
  {
    if OnOneOrder(e) { OneOrderStep(f, e, i); } else if Quiet(e) { QuietStep(f, e); }
  }

  /** In every later state of every run an order is on the bill of the visit it was
      placed at, and of no other, exactly while it is neither rejected nor
      withdrawn. */
  lemma OnTheBillUntilVoid(f: Floor, es: seq<Event>, i: nat, v: nat)
    requires Reachable(f) && i < |f.orders|
    ensures i < |Exec(f, es).orders|
    ensures i in BilledIds(Exec(f, es).orders, v) <==>
      v == f.orders[i].visitId && Exec(f, es).orders[i].status != Rejected &&
      Exec(f, es).orders[i].status != Cancelled
  {
    ReachableInv(f);
    OrderKeepsParty(f, es, i);
    BillCovers(Exec(f, es).orders, v, i);
  }

  /** Settling pays exactly the orders owed and changes nothing else about any order;
      closes the visit with what the bill came to and nothing else about any visit;
      and revokes exactly the party's sessions. */
  predicate SettledBy(f: Floor, g: Floor, v: nat, total: int, payment: Payment, paid: Option<int>, staff: nat)
    requires v < |f.visits|
  {
    && g.now == f.now && g.patches == f.patches
    && |g.orders| == |f.orders| && |g.sessions| == |f.sessions|
    && (forall i | 0 <= i < |f.orders| ::
          g.orders[i] == if Owed(f.orders[i], v) then f.orders[i].(paid := true) else f.orders[i])
    && (forall i | 0 <= i < |f.sessions| ::
          g.sessions[i] == if f.sessions[i].visitId == v && f.sessions[i].revokedAt.None?
                           then f.sessions[i].(revokedAt := Some(f.now)) else f.sessions[i])
    && g.visits == f.visits[v := f.visits[v].(
         status := Closed, billRequestedAt := None, closedAt := Some(f.now), closedReason := Some(Settled),
         total := Some(total), payment := Some(payment),
         paidAmount := Some(if paid.Some? then paid.value else total), closedBy := Some(staff))]
  }

  lemma SettlingMeans(f: Floor, v: nat, payment: Payment, paid: Option<int>, staff: nat)
    requires v < |f.visits|
    ensures SettledBy(f, AfterSettle(f, v, payment, paid, staff), v, ItemisedSum(BilledOrders(f.orders, v)),
                      payment, paid, staff)
  {
  }

  // ----- the floor's money ------------------------------------------------------------

  /** The desk list's row and the running total of a visit, from stored totals. */
  function FastRowOf(f: Floor, visitId: nat): DeskRow {
    FastRow(BilledOrders(f.orders, visitId))
  }

  /** The desk lists an open visit once something was ordered at it or its bill was
      asked for. */
  predicate OnDesk(f: Floor, visitId: nat)
    requires visitId < |f.visits|
  {
    IsOpen(f.visits[visitId]) && (FastRowOf(f, visitId).orderCount > 0 || f.visits[visitId].status == BillRequested)
  }

  /** Sum over the rows the desk lists among the first n visits. */
  function DeskTotal(f: Floor, n: nat): int
    requires n <= |f.visits|
  {
    if n == 0 then 0 else DeskTotal(f, n - 1) + if OnDesk(f, n - 1) then FastRowOf(f, n - 1).total else 0
  }

  /** Sum of stored totals over the open visits among the first n. */
  function RunningStored(f: Floor, n: nat): int
    requires n <= |f.visits|
  {
    if n == 0 then 0
    else RunningStored(f, n - 1) + if IsOpen(f.visits[n - 1]) then FastRowOf(f, n - 1).total else 0
  }

  function RunningItemised(f: Floor, n: nat): int
    requires n <= |f.visits|
  {
    if n == 0 then 0
    else RunningItemised(f, n - 1) + if IsOpen(f.visits[n - 1]) then BillTotal(f, n - 1) else 0
  }

  /** Reachable without a correction that names one line twice. */
  ghost predicate ProperlyReachable(f: Floor) {
    exists now: int, es: seq<Event> :: ProperEdits(es) && f == Exec(Start(now), es)
  }

  lemma TotalStays(f: Floor, e: Event, i: nat)
    requires Inv(f) && TotalsStored(f.orders) && ProperEdits([e]) && i < |Apply(f, e).orders|
    ensures Apply(f, e).orders[i].total == Itemised(Apply(f, e).orders[i].lines)
  {
    if i < |f.orders| {
      assert OrderOk(f, f.orders[i]) && f.orders[i] in f.orders;
      if e.Edit? && e.orderId == i {
        assert e == [e][0];
        OrderEdit.EditedShape(f.orders[i], e.input, f.now);
        if OrderEdit.PlanEdit(f.orders[i], e.input).Planned? {
          OrderEdit.EditKeepsTotal(f.orders[i], e.input, f.now);
        }
      }
    }
  }

  lemma {:induction false} ExecTotals(f: Floor, es: seq<Event>)
    requires Inv(f) && TotalsStored(f.orders) && ProperEdits(es)
    ensures TotalsStored(Exec(f, es).orders)
    decreases |es|
  {
    if es != [] {
      var g := Apply(f, es[0]);
      assert ProperEdits([es[0]]);
      ApplyInv(f, es[0]);
      forall o <- g.orders ensures o.total == Itemised(o.lines) {
        var i :| 0 <= i < |g.orders| && g.orders[i] == o;
        TotalStays(f, es[0], i);
      }
      ExecTotals(g, es[1..]);
    }
  }

  /** As long as no correction names a line twice, stored totals are itemised prices. */
  lemma AllTotalsStored(f: Floor)
    requires ProperlyReachable(f)
    ensures TotalsStored(f.orders)
  {
    var now: int, es: seq<Event> :| ProperEdits(es) && f == Exec(Start(now), es);
    ExecTotals(Start(now), es);
  }

  lemma BilledTotalsStored(orders: seq<Order>, v: nat)
    requires TotalsStored(orders)
    ensures TotalsStored(BilledOrders(orders, v))
    ensures StoredSum(BilledOrders(orders, v)) == ItemisedSum(BilledOrders(orders, v))
  {
    StoredIsItemised(BilledOrders(orders, v));
  }

  lemma {:induction false} RunningAgrees(f: Floor, n: nat)
    requires n <= |f.visits|
    requires forall v: nat :: FastRowOf(f, v).total == BillTotal(f, v)
    ensures RunningStored(f, n) == RunningItemised(f, n)
  {
    if n > 0 {
      RunningAgrees(f, n - 1);
      assert FastRowOf(f, n - 1).total == BillTotal(f, n - 1);
    }
  }

  /** The desk lists an open visit exactly when its bill was asked for or there is an
      order to pay for. */
  lemma DeskListsExactly(f: Floor, v: nat)
    requires v < |f.visits|
    ensures OnDesk(f, v) <==>
      f.visits[v].status != Closed &&
      (f.visits[v].status == BillRequested || exists i | 0 <= i < |f.orders| :: Owed(f.orders[i], v))
    ensures FastRowOf(f, v).orderCount == |BilledIds(f.orders, v)|
  {
    var ids := BilledIds(f.orders, v);
    forall i: nat ensures i in ids <==> i < |f.orders| && Owed(f.orders[i], v) { BillCovers(f.orders, v, i); }
    if ids != [] {
      assert ids[0] in ids;
      assert Owed(f.orders[ids[0]], v);
    }
  }

  lemma {:induction false} DeskLeavesNothingOut(f: Floor, n: nat)
    requires n <= |f.visits|
    ensures DeskTotal(f, n) == RunningStored(f, n)
  {
    if n > 0 {
      DeskLeavesNothingOut(f, n - 1);
      if BilledOrders(f.orders, n - 1) == [] { assert FastRowOf(f, n - 1).total == 0; }
    }
  }

  /** As long as no correction has named a line twice, in every reachable state the
      desk's row for a visit is its itemised bill's total, order count and phone
      count, the phones' shares add up to it, and both the rows the desk lists and
      the floor summary's running total come to the sum of all itemised bills. */
  lemma FastBillIsItemised(f: Floor, v: nat)
    requires ProperlyReachable(f)
    ensures var orders := BilledOrders(f.orders, v);
      && FastRowOf(f, v) == DeskRow(BillTotal(f, v), |orders|, |PhonesOf(orders)|)
      && BillTotal(f, v) == LinesTotal(AllLines(orders)) == SplitTotal(orders, PhonesOf(orders))
    ensures DeskTotal(f, |f.visits|) == RunningStored(f, |f.visits|) == RunningItemised(f, |f.visits|)
  {
    DeskLeavesNothingOut(f, |f.visits|);
    AllTotalsStored(f);
    forall w: nat ensures FastRowOf(f, w).total == BillTotal(f, w) { BilledTotalsStored(f.orders, w); }
    BilledTotalsStored(f.orders, v);
    FastRowIsItemised(BilledOrders(f.orders, v));
    AllLinesTotal(BilledOrders(f.orders, v));
    PhonesSplitTheBill(BilledOrders(f.orders, v));
    RunningAgrees(f, |f.visits|);
  }

  // ----- sessions belong to parties -----------------------------------------------------

  /** A session is of its visit's table, and a live one of an open visit. A session
      whose cap falls on this very instant is still accepted although the
      abandoned-visit sweep no longer counts it, so there the visit may be closed. */
  lemma SessionsAndVisits(f: Floor, s: nat)
    requires Reachable(f) && s < |f.sessions|
    ensures var session := f.sessions[s];
      && session.visitId < |f.visits|
      && f.visits[session.visitId].tableId == session.tableId
      && (Active(session, f.now) ==> IsOpen(f.visits[session.visitId]))
      && (session.revokedAt.None? && f.now <= session.expiresAt && !IsOpen(f.visits[session.visitId]) ==>
            f.now == session.expiresAt)
  {
    ReachableInv(f);
  }

  /** An order's table and visit are those of its session. */
  lemma OrdersFollowSessions(f: Floor, o: nat)
    requires Reachable(f) && o < |f.orders|
    ensures var order := f.orders[o];
      && order.sessionId < |f.sessions|
      && order.tableId == f.sessions[order.sessionId].tableId
      && order.visitId == f.sessions[order.sessionId].visitId
  {
    ReachableInv(f);
  }

  /** A table has at most one open visit. */
  lemma OneOpenVisit(f: Floor, u: nat, v: nat)
    requires Reachable(f) && u < |f.visits| && v < |f.visits|
    requires IsOpen(f.visits[u]) && IsOpen(f.visits[v]) && f.visits[u].tableId == f.visits[v].tableId
    ensures u == v
  {
    ReachableInv(f);
  }

  lemma ExecStep(f: Floor, es: seq<Event>, i: nat, g: Floor)
    requires i < |es| && Apply(f, es[i]) == g
    ensures Exec(f, es[i..]) == Exec(g, es[i + 1..])
  {
    assert es[i..][0] == es[i] && es[i..][1..] == es[i + 1..];
  }

  /** The instant does occur: the table is scanned, and again an hour and a half
      later; at the second session's cap the visit is three and a half hours old and
      is swept as abandoned, while that session would still be accepted. */
  lemma CapInstantWitness(t: nat, start: int) returns (es: seq<Event>)
    ensures ProperEdits(es)
    ensures var f := Exec(Start(start), es);
      && |f.sessions| == 2 && |f.visits| == 1
      && f.sessions[1].revokedAt.None? && f.now == f.sessions[1].expiresAt && f.sessions[1].visitId == 0
      && f.visits[0].closedReason == Some(Abandoned)
  {
    es := [Scan(t), Advance(5_400_000), Scan(t), Advance(7_200_000), CloseAbandoned(0)];
    CapInstantRun(t, start, es);
  }

  lemma CapInstantRun(t: nat, start: int, es: seq<Event>)
    requires |es| == 5 && es[0] == es[2] == Scan(t) && es[4] == CloseAbandoned(0)
    requires es[1] == Advance(5_400_000) && es[3] == Advance(7_200_000)
    ensures var f := Exec(Start(start), es);
      && |f.sessions| == 2 && |f.visits| == 1
      && f.sessions[1].revokedAt.None? && f.now == f.sessions[1].expiresAt && f.sessions[1].visitId == 0
      && f.visits[0].closedReason == Some(Abandoned)
  {
    var first := Session(t, 0, start + HARD_CAP_MS, None);
    var f1 := Floor(start, [NewVisit(t, start)], [first], [], []);
    FirstScan(Start(start), t);
    ExecStep(Start(start), es, 0, f1);
    var f2 := f1.(now := start + 5_400_000);
    ExecStep(f1, es, 1, f2);
    var f3 := f2.(sessions := [first, Session(t, 0, f2.now + HARD_CAP_MS, None)]);
    SecondScan(f2, t, first);
    ExecStep(f2, es, 2, f3);
    var f4 := f3.(now := f2.now + 7_200_000);
    ExecStep(f3, es, 3, f4);
    assert Abandonable(f4, 0);
    ExecStep(f4, es, 4, Apply(f4, CloseAbandoned(0)));
    assert es[0..] == es && es[5..] == [];
  }

  lemma FirstScan(f: Floor, t: nat)
    requires f.visits == [] && f.sessions == []
    ensures AfterScan(f, t) ==
      f.(visits := [NewVisit(t, f.now)], sessions := [Session(t, 0, f.now + HARD_CAP_MS, None)])
  {
    var s := [Session(t, 0, f.now + HARD_CAP_MS, None)];
    assert f.sessions + s == s && f.visits + [NewVisit(t, f.now)] == [NewVisit(t, f.now)];
    assert ActiveFrom(s, t, f.now, 1) == 0;
    assert Displaced(s, t, f.now) == s;
  }

  lemma SecondScan(f: Floor, t: nat, first: Session)
    requires |f.visits| == 1 && f.visits[0].tableId == t && IsOpen(f.visits[0]) && f.sessions == [first]
    ensures AfterScan(f, t) == f.(sessions := [first, Session(t, 0, f.now + HARD_CAP_MS, None)])
  {
    var s := [first, Session(t, 0, f.now + HARD_CAP_MS, None)];
    assert f.sessions + [Session(t, 0, f.now + HARD_CAP_MS, None)] == s;
    assert ActiveFrom(s, t, f.now, 2) == 0 && ActiveFrom(s, t, f.now, 1) <= 1;
    assert Displaced(s, t, f.now) == s;
  }

  /** The live sessions of a table from a place on: not revoked, cap not reached. */
  function LiveFrom(sessions: seq<Session>, tableId: nat, now: int, from: nat): set<nat> {
    set i: nat | from <= i < |sessions| && sessions[i].tableId == tableId && sessions[i].revokedAt.None? &&
                 sessions[i].expiresAt > now
  }

  lemma {:induction false} ActiveFromIsCount(sessions: seq<Session>, tableId: nat, now: int, from: nat)
    ensures ActiveFrom(sessions, tableId, now, from) == |LiveFrom(sessions, tableId, now, from)|
    decreases |sessions| - from
  {
    if from < |sessions| {
      ActiveFromIsCount(sessions, tableId, now, from + 1);
      var rest := LiveFrom(sessions, tableId, now, from + 1);
      assert LiveFrom(sessions, tableId, now, from) ==
        rest + if sessions[from].tableId == tableId && Active(sessions[from], now) then {from} else {};
    } else {
      assert LiveFrom(sessions, tableId, now, from) == {};
    }
  }

  /** What a scan writes: a session of the table at its open visit, good for two hours,
      and that visit itself if there was none. */
  lemma ScanMints(f: Floor, tableId: nat)
    ensures var g := AfterScan(f, tableId); var found := OpenVisit(f.visits, tableId);
      && |g.sessions| == |f.sessions| + 1
      && g.sessions[|f.sessions|] ==
         Session(tableId, if found.Some? then found.value else |f.visits|, f.now + 7_200_000, None)
      && g.visits == (if found.Some? then f.visits
                      else f.visits + [Visit(tableId, Open, f.now, None, None, None, None, None, None, None)])
      && g.orders == f.orders && g.now == f.now
  {
    var found := OpenVisit(f.visits, tableId);
    var visitId := if found.Some? then found.value else |f.visits|;
    var sessions := f.sessions + [Session(tableId, visitId, f.now + HARD_CAP_MS, None)];
    assert ActiveFrom(sessions, tableId, f.now, |sessions|) == 0;
  }

  /** Displacing revokes sessions, now, and does nothing else to them. */
  lemma DisplacedOnlyRevokes(sessions: seq<Session>, tableId: nat, now: int, i: nat)
    requires i < |sessions|
    ensures Displaced(sessions, tableId, now)[i] == sessions[i] ||
      (sessions[i].revokedAt.None? && sessions[i].tableId == tableId &&
       Displaced(sessions, tableId, now)[i] == sessions[i].(revokedAt := Some(now)))
  {
  }

  /** An admin's revocations: of one session, or of every session of a table that is
      not revoked already. */
  lemma RevocationsMean(f: Floor, s: nat, tableId: nat, i: nat)
    requires s < |f.sessions| && i < |f.sessions|
    ensures Apply(f, Revoke(s)) == f.(sessions := f.sessions[s := f.sessions[s].(revokedAt := Some(f.now))])
    ensures var g := Apply(f, RevokeTable(tableId));
      && g == f.(sessions := g.sessions) && |g.sessions| == |f.sessions|
      && g.sessions[i] == (if f.sessions[i].tableId == tableId && f.sessions[i].revokedAt.None?
                           then f.sessions[i].(revokedAt := Some(f.now)) else f.sessions[i])
      && LiveFrom(g.sessions, tableId, f.now, 0) == {}
  {
  }

  lemma {:induction false} DisplacementCounts(sessions: seq<Session>, tableId: nat, now: int, from: nat)
    ensures ActiveFrom(Displaced(sessions, tableId, now), tableId, now, from) ==
      var n := ActiveFrom(sessions, tableId, now, from);
      if n <= MAX_ACTIVE_PER_TABLE then n else MAX_ACTIVE_PER_TABLE
    decreases |sessions| - from
  {
    if from < |sessions| { DisplacementCounts(sessions, tableId, now, from + 1); }
  }

  lemma ScanJoinsOpenVisit(f: Floor, tableId: nat)
    ensures var g := AfterScan(f, tableId);
      && |g.sessions| == |f.sessions| + 1
      && OpenVisit(g.visits, tableId) == Some(g.sessions[|f.sessions|].visitId)
  {
    if OpenVisit(f.visits, tableId).None? {
      assert (f.visits + [NewVisit(tableId, f.now)])[..|f.visits|] == f.visits;
    }
  }

  lemma DisplacementKeepsNewest(sessions: seq<Session>, tableId: nat, now: int, i: nat)
    requires i < |sessions|
    ensures Displaced(sessions, tableId, now)[i] != sessions[i] <==>
      sessions[i].tableId == tableId && Active(sessions[i], now) &&
      ActiveFrom(Displaced(sessions, tableId, now), tableId, now, i + 1) == MAX_ACTIVE_PER_TABLE
  {
    DisplacementCounts(sessions, tableId, now, i + 1);
  }

  /** After a scan the table has at most MAX_ACTIVE_PER_TABLE live sessions, the
      one just minted among them and joined to the table's open visit; a session
      loses its place exactly when that many newer ones on its table are live. */
  lemma ScanKeepsNewest(f: Floor, tableId: nat, i: nat)
    requires i < |f.sessions|
    ensures var g := AfterScan(f, tableId);
      var minted := |f.sessions|;
      && |g.sessions| == minted + 1
      && |LiveFrom(g.sessions, tableId, f.now, 0)| <= 6
      && g.sessions[minted].tableId == tableId && Active(g.sessions[minted], f.now)
      && OpenVisit(g.visits, tableId) == Some(g.sessions[minted].visitId)
      && (g.sessions[i] != f.sessions[i] <==>
            i in LiveFrom(f.sessions, tableId, f.now, 0) && |LiveFrom(g.sessions, tableId, f.now, i + 1)| == 6)
  {
    var found := OpenVisit(f.visits, tableId);
    var visitId := if found.Some? then found.value else |f.visits|;
    var sessions := f.sessions + [Session(tableId, visitId, f.now + HARD_CAP_MS, None)];
    ScanJoinsOpenVisit(f, tableId);
    DisplacementCounts(sessions, tableId, f.now, 0);
    DisplacementKeepsNewest(sessions, tableId, f.now, i);
    ActiveFromIsCount(AfterScan(f, tableId).sessions, tableId, f.now, 0);
    ActiveFromIsCount(AfterScan(f, tableId).sessions, tableId, f.now, i + 1);
    assert ActiveFrom(sessions, tableId, f.now, |sessions|) == 0;
  }

  /** Apart from a scan, a step only revokes sessions or lets them expire. */
  lemma SessionsOnlyFade(f: Floor, e: Event)
    requires !e.Scan?
    ensures var g := Apply(f, e);
      |g.sessions| == |f.sessions| && forall i | 0 <= i < |f.sessions| ::
        g.sessions[i].tableId == f.sessions[i].tableId &&
        (Active(g.sessions[i], g.now) ==> Active(f.sessions[i], f.now))
  {
    if Quiet(e) { QuietStep(f, e); }
  }

  /** b is a with sessions revoked or expired, and new ones of other tables. */
  lemma {:induction false} NoMoreLive(a: seq<Session>, was: int, b: seq<Session>, now: int, tableId: nat, from: nat)
    requires |a| <= |b|
    requires forall i | 0 <= i < |a| :: b[i].tableId == a[i].tableId && (Active(b[i], now) ==> Active(a[i], was))
    requires forall i | |a| <= i < |b| :: b[i].tableId != tableId
    ensures ActiveFrom(b, tableId, now, from) <= ActiveFrom(a, tableId, was, from)
    decreases |b| - from
  {
    if from < |b| { NoMoreLive(a, was, b, now, tableId, from + 1); }
  }

  predicate WithinCap(f: Floor, tableId: nat) {
    ActiveFrom(f.sessions, tableId, f.now, 0) <= MAX_ACTIVE_PER_TABLE
  }

  lemma ApplyWithinCap(f: Floor, e: Event, tableId: nat)
    requires WithinCap(f, tableId)
    ensures WithinCap(Apply(f, e), tableId)
  {
    var g := Apply(f, e);
    if e.Scan? && e.tableId == tableId {
      var found := OpenVisit(f.visits, tableId);
      var visitId := if found.Some? then found.value else |f.visits|;
      DisplacementCounts(f.sessions + [Session(tableId, visitId, f.now + HARD_CAP_MS, None)], tableId, f.now, 0);
    } else {
      if !e.Scan? { SessionsOnlyFade(f, e); }
      NoMoreLive(f.sessions, f.now, g.sessions, g.now, tableId, 0);
    }
  }

  lemma {:induction false} ExecWithinCap(f: Floor, es: seq<Event>, tableId: nat)
    requires WithinCap(f, tableId)
    ensures WithinCap(Exec(f, es), tableId)
    decreases |es|
  {
    if es != [] {
      ApplyWithinCap(f, es[0], tableId);
      ExecWithinCap(Apply(f, es[0]), es[1..], tableId);
    }
  }

  /** In every reachable state a table has at most MAX_ACTIVE_PER_TABLE live
      sessions, and each of them belongs to the table's one open visit. */
  lemma NeverMoreThanTheCap(f: Floor, tableId: nat)
    requires Reachable(f)
    ensures |LiveFrom(f.sessions, tableId, f.now, 0)| <= 6
    ensures forall s <- f.sessions :: s.tableId == tableId && Active(s, f.now) ==>
      OpenVisit(f.visits, tableId) == Some(s.visitId)
  {
    var now: int, es: seq<Event> :| f == Exec(Start(now), es);
    ExecWithinCap(Start(now), es, tableId);
    ActiveFromIsCount(f.sessions, tableId, f.now, 0);
    ReachableInv(f);
    forall s <- f.sessions | s.tableId == tableId && Active(s, f.now)
      ensures OpenVisit(f.visits, tableId) == Some(s.visitId)
    {
      var i :| 0 <= i < |f.sessions| && f.sessions[i] == s;
      assert SessionOk(f, f.sessions[i]);
      OneOpenVisit(f, OpenVisit(f.visits, tableId).value, s.visitId);
    }
  }

  // ----- an order that is finished ------------------------------------------------------------

  /** A status change of order i has been checked and will write something else. */
  predicate WillMove(q: Patch, i: nat, from: Status) { q.Checked? && q.orderId == i && q.to != from }

  predicate NobodyMoves(f: Floor, i: nat, from: Status) {
    forall q | 0 <= q < |f.patches| :: !WillMove(f.patches[q], i, from)
  }

  predicate HasStatus(f: Floor, i: nat, status: Status) { i < |f.orders| && f.orders[i].status == status }

  ghost predicate StatusForGood(f: Floor, i: nat, status: Status) {
    forall es: seq<Event> :: HasStatus(Exec(f, es), i, status)
  }

  lemma FinishedStep(f: Floor, e: Event, i: nat, status: Status)
    requires Inv(f) && HasStatus(f, i, status) && !InFlight(status) && NobodyMoves(f, i, status)
    ensures HasStatus(Apply(f, e), i, status) && NobodyMoves(Apply(f, e), i, status)
  {
    var g := Apply(f, e);
    PatchesPersist(f, e);
    assert OrderOk(f, f.orders[i]);
    if e.Edit? && e.orderId == i { OrderEdit.EditedShape(f.orders[i], e.input, f.now); }
    if e.WriteMove? && e.patch < |f.patches| { assert !WillMove(f.patches[e.patch], i, status); }
    forall q | 0 <= q < |g.patches| ensures !WillMove(g.patches[q], i, status) {
      if q < |f.patches| { assert !WillMove(f.patches[q], i, status); }
    }
  }

  lemma {:induction false} FinishedForGood(f: Floor, es: seq<Event>, i: nat, status: Status)
    requires Inv(f) && HasStatus(f, i, status) && !InFlight(status) && NobodyMoves(f, i, status)
    ensures HasStatus(Exec(f, es), i, status)
    decreases |es|
  {
    if es != [] {
      ApplyInv(f, es[0]);
      FinishedStep(f, es[0], i, status);
      FinishedForGood(Apply(f, es[0]), es[1..], i, status);
    }
  }

  lemma ExecOne(f: Floor, e: Event)
    ensures Exec(f, [e]) == Apply(f, e)
  {
    assert [e][1..] == [];
  }

  /** An order served, rejected or withdrawn stays so in every continuation if and
      only if no status change that was checked while it was still in the kitchen
      has yet to write something else. */
  lemma FinishedExactly(f: Floor, i: nat)
    requires Reachable(f) && i < |f.orders| && !InFlight(f.orders[i].status)
    ensures StatusForGood(f, i, f.orders[i].status) <==> NobodyMoves(f, i, f.orders[i].status)
  {
    ReachableInv(f);
    var status := f.orders[i].status;
    if NobodyMoves(f, i, status) {
      forall es: seq<Event> ensures HasStatus(Exec(f, es), i, status) { FinishedForGood(f, es, i, status); }
    } else {
      var q :| 0 <= q < |f.patches| && WillMove(f.patches[q], i, status);
      ExecOne(f, WriteMove(q));
      assert !HasStatus(Exec(f, [WriteMove(q)]), i, status);
    }
  }

  /** So a customer's withdrawal stands if and only if no status change of the order
      was past its check when it was written: the two can both win. */
  lemma WithdrawalStandsExactly(f: Floor, sessionId: nat, i: nat)
    requires Reachable(f) && i < |f.orders| && f.orders[i].sessionId == sessionId && f.orders[i].status == Received
    ensures StatusForGood(Apply(f, Cancel(sessionId, i)), i, Cancelled) <==>
      forall q | 0 <= q < |f.patches| :: f.patches[q].Checked? ==> f.patches[q].orderId != i
  {
    var g := Apply(f, Cancel(sessionId, i));
    ReachableInv(f);
    ReachableStep(f, Cancel(sessionId, i));
    FinishedExactly(g, i);
    forall q | 0 <= q < |f.patches| ensures WillMove(g.patches[q], i, Cancelled) <==>
      f.patches[q].Checked? && f.patches[q].orderId == i
    {
      assert PatchOk(f, f.patches[q]);
    }
  }

  /** It does happen: accepting is checked, the customer withdraws, and the desk's
      write makes the order accepted again. */
  lemma BothWinWitness(t: nat, start: int, lines: seq<Line>) returns (es: seq<Event>)
    requires DistinctIds(lines) && forall l <- lines :: Live(l)
    ensures |es| == 5 && es[3] == Cancel(0, 0)
    ensures HasStatus(Exec(Start(start), es[..4]), 0, Cancelled) && HasStatus(Exec(Start(start), es), 0, Accepted)
  {
    var before := [Scan(t), Place(0, lines), CheckMove(0, Accepted, ""), Cancel(0, 0)];
    es := before + [WriteMove(0)];
    BothWinRun(t, start, lines, before);
    assert es[..4] == before;
    ExecAppend(Start(start), before, WriteMove(0));
  }

  lemma BothWinRun(t: nat, start: int, lines: seq<Line>, es: seq<Event>)
    requires DistinctIds(lines) && (forall l <- lines :: Live(l)) && |es| == 4
    requires es[0] == Scan(t) && es[1] == Place(0, lines) && es[2] == CheckMove(0, Accepted, "")
    requires es[3] == Cancel(0, 0)
    ensures HasStatus(Exec(Start(start), es), 0, Cancelled)
    ensures Exec(Start(start), es).patches == [Checked(0, Accepted, "")]
  {
    var f1 := AfterScan(Start(start), t);
    FirstScan(Start(start), t);
    ExecStep(Start(start), es, 0, f1);
    var f2 := f1.(orders := [NewOrder(f1, 0, lines)]);
    assert f1.orders + [NewOrder(f1, 0, lines)] == f2.orders;
    ExecStep(f1, es, 1, f2);
    assert es[0..] == es;
    WithdrawnAfterCheck(f2, es);
  }

  lemma WithdrawnAfterCheck(f2: Floor, es: seq<Event>)
    requires |f2.orders| == 1 && f2.orders[0].status == Received && f2.orders[0].sessionId == 0 && f2.patches == []
    requires |es| == 4 && es[2] == CheckMove(0, Accepted, "") && es[3] == Cancel(0, 0)
    ensures HasStatus(Exec(f2, es[2..]), 0, Cancelled)
    ensures Exec(f2, es[2..]).patches == [Checked(0, Accepted, "")]
  {
    var f3 := f2.(patches := [Checked(0, Accepted, "")]);
    ExecStep(f2, es, 2, f3);
    var f4 := WithOrder(f3, 0, CancelledOrder(f3.orders[0], 0));
    ExecStep(f3, es, 3, f4);
    assert es[4..] == [];
  }

  lemma ReachableStep(f: Floor, e: Event)
    requires Reachable(f)
    ensures Reachable(Apply(f, e))
  {
    var now: int, es: seq<Event> :| f == Exec(Start(now), es);
    ExecAppend(Start(now), es, e);
  }

  // ----- settlement freezes the money ------------------------------------------------------

  predicate Counts(o: Order, v: nat) { o.visitId == v && o.paid }

  function PaidSum(orders: seq<Order>, visitId: nat): int {
    if orders == [] then 0
    else
      var o := orders[|orders| - 1];
      PaidSum(orders[..|orders| - 1], visitId) + if Counts(o, visitId) then o.total else 0
  }

  /** The visit is closed with this total, which is what its paid orders come to. */
  predicate AddsUp(f: Floor, v: nat, total: int) {
    && v < |f.visits| && f.visits[v].status == Closed && f.visits[v].total == Some(total)
    && PaidSum(f.orders, v) == total
  }

  ghost predicate AddsUpForever(f: Floor, v: nat, total: int) {
    forall es: seq<Event> :: AddsUp(Exec(f, es), v, total)
  }

  /** A status change past its check will put order i into the kitchen. */
  predicate PutsBack(q: Patch, i: nat) { q.Checked? && q.orderId == i && InFlight(q.to) }

  predicate NobodyPutsBack(f: Floor, i: nat) {
    forall q | 0 <= q < |f.patches| :: !PutsBack(f.patches[q], i)
  }

  /** No correction can change the order's stored total, now or later: none would,
      or the order has left the kitchen and nobody is putting it back. */
  predicate Held(f: Floor, i: nat)
    requires i < |f.orders|
  {
    OrderEdit.Spoilable(f.orders[i]) ==> !InFlight(f.orders[i].status) && NobodyPutsBack(f, i)
  }

  predicate Frozen(f: Floor, v: nat, total: int) {
    AddsUp(f, v, total) && forall i | 0 <= i < |f.orders| :: Counts(f.orders[i], v) ==> Held(f, i)
  }

  lemma BilledOneMore(orders: seq<Order>, v: nat)
    requires orders != []
    ensures var init, o := orders[..|orders| - 1], orders[|orders| - 1];
      StoredSum(BilledOrders(orders, v)) == StoredSum(BilledOrders(init, v)) + if Billable(o, v) then o.total else 0
  {
    var init, o := orders[..|orders| - 1], orders[|orders| - 1];
    var before := BilledOrders(init, v);
    if Billable(o, v) {
      assert (before + [o])[..|before|] == before;
    } else {
      assert before + [] == before;
    }
  }

  lemma {:induction false} PaidSumMarked(orders: seq<Order>, v: nat)
    requires forall i | 0 <= i < |orders| :: orders[i].visitId == v ==> !orders[i].paid
    ensures PaidSum(MarkPaid(orders, v), v) == StoredSum(BilledOrders(orders, v))
  {
    if orders != [] {
      var n := |orders| - 1;
      PaidSumMarked(orders[..n], v);
      assert MarkPaid(orders, v)[..n] == MarkPaid(orders[..n], v);
      BilledOneMore(orders, v);
    }
  }

  lemma {:induction false} PaidSumSame(a: seq<Order>, b: seq<Order>, v: nat)
    requires |a| <= |b|
    requires forall i | 0 <= i < |a| ::
      Counts(b[i], v) == Counts(a[i], v) && (Counts(a[i], v) ==> b[i].total == a[i].total)
    requires forall i | |a| <= i < |b| :: !Counts(b[i], v)
    ensures PaidSum(b, v) == PaidSum(a, v)
    decreases |b|
  {
    if b != [] {
      var n := |b| - 1;
      if |a| == |b| { PaidSumSame(a[..n], b[..n], v); } else { PaidSumSame(a, b[..n], v); }
    }
  }

  lemma {:induction false} PaidSumUpdate(orders: seq<Order>, i: nat, o: Order, v: nat)
    requires i < |orders| && Counts(orders[i], v) && Counts(o, v)
    ensures PaidSum(orders[i := o], v) == PaidSum(orders, v) + o.total - orders[i].total
  {
    var n := |orders| - 1;
    if i < n {
      assert orders[i := o][..n] == orders[..n][i := o];
      PaidSumUpdate(orders[..n], i, o, v);
    } else {
      assert orders[i := o][..n] == orders[..n];
    }
  }

  /** Who has paid changes only by settling an open visit. */
  lemma PaidStep(f: Floor, e: Event, v: nat, i: nat)
    requires v < |f.visits| && f.visits[v].status == Closed && i < |f.orders| && DistinctIds(f.orders[i].lines)
    ensures |Apply(f, e).orders| >= |f.orders| && Counts(Apply(f, e).orders[i], v) == Counts(f.orders[i], v)
  {
    if OnOneOrder(e) { OneOrderStep(f, e, i); } else if Quiet(e) { QuietStep(f, e); }
  }

  lemma HeldTotal(f: Floor, e: Event, i: nat)
    requires i < |f.orders| && DistinctIds(f.orders[i].lines) && Held(f, i)
    ensures var g := Apply(f, e);
      && |g.orders| >= |f.orders| && g.orders[i].total == f.orders[i].total
      && (OrderEdit.Spoilable(g.orders[i]) ==>
            OrderEdit.Spoilable(f.orders[i]) && !InFlight(g.orders[i].status))
  {
    if e.Edit? && e.orderId == i {
      HeldEdit(f.orders[i], e.input, f.now);
    } else if e.WriteMove? {
      HeldWrite(f, e.patch, i);
    } else {
      assert e.Cancel? || e.Settle? || Apply(f, e).orders[i] == f.orders[i];
    }
  }

  lemma HeldEdit(o: Order, input: seq<OrderEdit.Entry>, now: int)
    requires DistinctIds(o.lines) && (OrderEdit.Spoilable(o) ==> !InFlight(o.status))
    ensures var e := OrderEdit.EditedOrder(o, input, now);
      e.total == o.total && (OrderEdit.Spoilable(e) ==> OrderEdit.Spoilable(o) && !InFlight(e.status))
  {
    if OrderEdit.Spoilable(o) {
      OrderEdit.EditedShape(o, input, now);
    } else {
      OrderEdit.FixedStays(o, input, now);
    }
  }

  lemma HeldWrite(f: Floor, p: nat, i: nat)
    requires i < |f.orders| && Held(f, i)
    ensures var g := Apply(f, WriteMove(p));
      && |g.orders| == |f.orders| && g.orders[i].total == f.orders[i].total
      && (OrderEdit.Spoilable(g.orders[i]) ==>
            OrderEdit.Spoilable(f.orders[i]) && !InFlight(g.orders[i].status))
  {
    if p < |f.patches| { assert OrderEdit.Spoilable(f.orders[i]) ==> !PutsBack(f.patches[p], i); }
  }

  lemma HeldStep(f: Floor, e: Event, i: nat)
    requires i < |f.orders| && DistinctIds(f.orders[i].lines) && Held(f, i)
    ensures |Apply(f, e).orders| >= |f.orders| && Held(Apply(f, e), i)
  {
    var g := Apply(f, e);
    HeldTotal(f, e, i);
    PatchesPersist(f, e);
    if OrderEdit.Spoilable(g.orders[i]) {
      forall q | 0 <= q < |g.patches| ensures !PutsBack(g.patches[q], i) {
        if q < |f.patches| { assert !PutsBack(f.patches[q], i); }
      }
    }
  }

  lemma ClosedVisitStep(f: Floor, e: Event, v: nat)
    requires v < |f.visits| && !IsOpen(f.visits[v])
    ensures v < |Apply(f, e).visits| && Apply(f, e).visits[v] == f.visits[v]
  {
    if Quiet(e) { QuietStep(f, e); }
  }

  lemma NewOrdersUnpaid(f: Floor, e: Event, i: nat)
    requires |f.orders| <= i < |Apply(f, e).orders|
    ensures !Apply(f, e).orders[i].paid
  {
  }

  lemma ApplyKeepsFrozen(f: Floor, e: Event, v: nat, total: int)
    requires Inv(f) && Frozen(f, v, total)
    ensures Frozen(Apply(f, e), v, total)
  {
    var g := Apply(f, e);
    ClosedVisitStep(f, e, v);
    PatchesPersist(f, e);
    forall i | 0 <= i < |g.orders|
      ensures i < |f.orders| ==> Counts(g.orders[i], v) == Counts(f.orders[i], v)
      ensures i < |f.orders| && Counts(f.orders[i], v) ==> g.orders[i].total == f.orders[i].total && Held(g, i)
      ensures i >= |f.orders| ==> !Counts(g.orders[i], v)
    {
      if i < |f.orders| {
        assert OrderOk(f, f.orders[i]);
        PaidStep(f, e, v, i);
        if Counts(f.orders[i], v) {
          HeldTotal(f, e, i);
          HeldStep(f, e, i);
        }
      } else {
        NewOrdersUnpaid(f, e, i);
      }
    }
    PaidSumSame(f.orders, g.orders, v);
  }

  lemma {:induction false} ExecKeepsFrozen(f: Floor, es: seq<Event>, v: nat, total: int)
    requires Inv(f) && Frozen(f, v, total)
    ensures Frozen(Exec(f, es), v, total)
    decreases |es|
  {
    if es != [] {
      ApplyInv(f, es[0]);
      ApplyKeepsFrozen(f, es[0], v, total);
      ExecKeepsFrozen(Apply(f, es[0]), es[1..], v, total);
    }
  }

  /** Right after a settlement the paid orders come to what the desk's row said. */
  lemma SettledSum(f: Floor, v: nat, payment: Payment, paid: Option<int>, staff: nat)
    requires Inv(f) && v < |f.visits| && IsOpen(f.visits[v])
    ensures PaidSum(AfterSettle(f, v, payment, paid, staff).orders, v) == FastRowOf(f, v).total
    ensures forall i | 0 <= i < |f.orders| :: f.orders[i].visitId == v ==> !f.orders[i].paid
  {
    forall i | 0 <= i < |f.orders| ensures f.orders[i].visitId == v ==> !f.orders[i].paid {
      assert OrderOk(f, f.orders[i]);
    }
    PaidSumMarked(f.orders, v);
  }

  /** The desk's row for the visit is right, and no correction, now or later, can
      change what an order on the bill costs. */
  predicate SettlesCleanly(f: Floor, v: nat) {
    && FastRowOf(f, v).total == BillTotal(f, v)
    && forall i | 0 <= i < |f.orders| :: Billable(f.orders[i], v) ==> Held(f, i)
  }

  lemma SettleFreezes(f: Floor, v: nat, payment: Payment, paid: Option<int>, staff: nat)
    requires Inv(f) && v < |f.visits| && IsOpen(f.visits[v]) && SettlesCleanly(f, v)
    ensures Frozen(AfterSettle(f, v, payment, paid, staff), v, BillTotal(f, v))
  {
    SettledSum(f, v, payment, paid, staff);
    var g := AfterSettle(f, v, payment, paid, staff);
    forall i | 0 <= i < |g.orders| && Counts(g.orders[i], v) ensures Held(g, i) {
      assert Billable(f.orders[i], v) && Held(f, i) && g.orders[i] == f.orders[i].(paid := true);
    }
  }

  lemma FrozenForGood(f: Floor, v: nat, payment: Payment, paid: Option<int>, staff: nat, force: bool, es: seq<Event>)
    requires Reachable(f) && CanSettle(f, v, force) && SettlesCleanly(f, v)
    ensures AddsUp(Exec(Apply(f, Settle(v, payment, paid, staff, force)), es), v, BillTotal(f, v))
  {
    SettledInv(f, v, payment, paid, staff, force);
    SettleFreezes(f, v, payment, paid, staff);
    ExecKeepsFrozen(AfterSettle(f, v, payment, paid, staff), es, v, BillTotal(f, v));
  }

  /** After an unforced settlement of a visit whose desk row is right, with no
      status change past its check that puts an order of its bill back into the
      kitchen, in every later state of every run: the visit's snapshot is the
      itemised bill it was settled at, and equals the stored totals of its paid
      orders. */
  lemma SettlementFreezesTheMoney(f: Floor, v: nat, payment: Payment, paid: Option<int>, staff: nat, es: seq<Event>)
    requires Reachable(f) && CanSettle(f, v, false) && FastRowOf(f, v).total == BillTotal(f, v)
    requires forall i | 0 <= i < |f.orders| :: Billable(f.orders[i], v) ==> NobodyPutsBack(f, i)
    ensures AddsUp(Exec(Apply(f, Settle(v, payment, paid, staff, false)), es), v, BillTotal(f, v))
  {
    forall i | 0 <= i < |f.orders| && Billable(f.orders[i], v) ensures Held(f, i) {
      assert f.orders[i] in f.orders;
    }
    FrozenForGood(f, v, payment, paid, staff, false, es);
  }

  lemma OneCorrection(g: Floor, v: nat, i: nat) returns (e: Event)
    requires i < |g.orders| && DistinctIds(g.orders[i].lines) && Counts(g.orders[i], v)
    requires OrderEdit.Spoilable(g.orders[i]) && InFlight(g.orders[i].status)
    ensures PaidSum(Apply(g, e).orders, v) != PaidSum(g.orders, v)
  {
    var input := OrderEdit.SpoilingRequest(g.orders[i], g.now);
    e := Edit(i, input);
    CorrectedSum(g, v, i, input, OrderEdit.EditedOrder(g.orders[i], input, g.now));
  }

  lemma CorrectedSum(g: Floor, v: nat, i: nat, input: seq<OrderEdit.Entry>, after: Order)
    requires i < |g.orders| && DistinctIds(g.orders[i].lines) && Counts(g.orders[i], v)
    requires after == OrderEdit.EditedOrder(g.orders[i], input, g.now)
    ensures PaidSum(Apply(g, Edit(i, input)).orders, v) == PaidSum(g.orders, v) + after.total - g.orders[i].total
  {
    OrderEdit.EditedShape(g.orders[i], input, g.now);
    PaidSumUpdate(g.orders, i, after, v);
  }

  lemma PutBackFirst(g: Floor, v: nat, i: nat, q: nat)
    requires i < |g.orders| && Counts(g.orders[i], v) && OrderEdit.Spoilable(g.orders[i])
    requires q < |g.patches| && PutsBack(g.patches[q], i)
    ensures var h := Apply(g, WriteMove(q));
      && |h.orders| == |g.orders| && h.orders[i].lines == g.orders[i].lines && Counts(h.orders[i], v)
      && OrderEdit.Spoilable(h.orders[i]) && InFlight(h.orders[i].status)
      && PaidSum(h.orders, v) == PaidSum(g.orders, v)
  {
    PaidSumUpdate(g.orders, i, MovedOrder(g.orders[i], g.patches[q].to, g.patches[q].reason), v);
  }

  /** An order on the bill that is not held: one or two steps, and its visit's paid
      orders come to something else. */
  lemma Spoils(g: Floor, v: nat, i: nat) returns (es: seq<Event>)
    requires i < |g.orders| && DistinctIds(g.orders[i].lines) && Counts(g.orders[i], v) && !Held(g, i)
    ensures PaidSum(Exec(g, es).orders, v) != PaidSum(g.orders, v)
  {
    if InFlight(g.orders[i].status) {
      var e := OneCorrection(g, v, i);
      ExecOne(g, e);
      es := [e];
    } else {
      var q :| 0 <= q < |g.patches| && PutsBack(g.patches[q], i);
      PutBackFirst(g, v, i, q);
      var h := Apply(g, WriteMove(q));
      var e := OneCorrection(h, v, i);
      ExecOne(g, WriteMove(q));
      ExecAppend(g, [WriteMove(q)], e);
      es := [WriteMove(q)] + [e];
    }
  }

  lemma NotForever(g: Floor, es: seq<Event>, v: nat, total: int)
    requires PaidSum(Exec(g, es).orders, v) != total
    ensures !AddsUpForever(g, v, total)
  {
    assert !AddsUp(Exec(g, es), v, total);
  }

  lemma SpoiltOrder(f: Floor, v: nat, payment: Payment, paid: Option<int>, staff: nat, i: nat)
    requires Inv(f) && v < |f.visits| && i < |f.orders| && Billable(f.orders[i], v) && !Held(f, i)
    ensures var g := AfterSettle(f, v, payment, paid, staff);
      i < |g.orders| && DistinctIds(g.orders[i].lines) && Counts(g.orders[i], v) && !Held(g, i)
  {
    assert OrderOk(f, f.orders[i]);
    var g := AfterSettle(f, v, payment, paid, staff);
    assert g.orders[i] == f.orders[i].(paid := true) && g.patches == f.patches;
  }

  lemma SpoiltLater(f: Floor, v: nat, payment: Payment, paid: Option<int>, staff: nat)
    requires Inv(f) && v < |f.visits| && IsOpen(f.visits[v]) && !SettlesCleanly(f, v)
    ensures !AddsUpForever(AfterSettle(f, v, payment, paid, staff), v, BillTotal(f, v))
  {
    var g := AfterSettle(f, v, payment, paid, staff);
    SettledSum(f, v, payment, paid, staff);
    if FastRowOf(f, v).total != BillTotal(f, v) {
      NotForever(g, [], v, BillTotal(f, v));
    } else {
      var i :| 0 <= i < |f.orders| && Billable(f.orders[i], v) && !Held(f, i);
      SpoiltOrder(f, v, payment, paid, staff, i);
      var es := Spoils(g, v, i);
      NotForever(g, es, v, BillTotal(f, v));
    }
  }

  lemma FrozenForever(f: Floor, v: nat, payment: Payment, paid: Option<int>, staff: nat, force: bool)
    requires Reachable(f) && CanSettle(f, v, force) && SettlesCleanly(f, v)
    ensures AddsUpForever(Apply(f, Settle(v, payment, paid, staff, force)), v, BillTotal(f, v))
  {
    var g := Apply(f, Settle(v, payment, paid, staff, force));
    forall es: seq<Event> ensures AddsUp(Exec(g, es), v, BillTotal(f, v)) {
      FrozenForGood(f, v, payment, paid, staff, force, es);
    }
  }

  /** A settlement, forced or not, adds up in every later state of every run if and
      only if the desk's row was right and every order on the bill whose total a
      correction could change had left the kitchen, with no status change past its
      check that will put it back. */
  lemma SettlementFreezesExactly(f: Floor, v: nat, payment: Payment, paid: Option<int>, staff: nat, force: bool)
    requires Reachable(f) && CanSettle(f, v, force)
    ensures AddsUpForever(Apply(f, Settle(v, payment, paid, staff, force)), v, BillTotal(f, v)) <==>
      SettlesCleanly(f, v)
  {
    if SettlesCleanly(f, v) {
      FrozenForever(f, v, payment, paid, staff, force);
    } else {
      SettledInv(f, v, payment, paid, staff, force);
      SpoiltLater(f, v, payment, paid, staff);
    }
  }

  // ----- settlement frees the table ------------------------------------------------------------

  lemma {:induction false} ClosedVisitStays(f: Floor, es: seq<Event>, v: nat)
    requires v < |f.visits| && !IsOpen(f.visits[v])
    ensures v < |Exec(f, es).visits| && Exec(f, es).visits[v] == f.visits[v]
    decreases |es|
  {
    if es != [] {
      ClosedVisitStep(f, es[0], v);
      ClosedVisitStays(Apply(f, es[0]), es[1..], v);
    }
  }

  lemma TableIsFree(f: Floor, v: nat, payment: Payment, paid: Option<int>, staff: nat)
    requires Inv(f) && v < |f.visits| && IsOpen(f.visits[v])
    ensures OpenVisit(AfterSettle(f, v, payment, paid, staff).visits, f.visits[v].tableId).None?
  {
    var found := OpenVisit(AfterSettle(f, v, payment, paid, staff).visits, f.visits[v].tableId);
    if found.Some? { assert false; }
  }

  lemma PartyGone(g: Floor, es: seq<Event>, v: nat)
    requires Inv(g) && v < |g.visits| && !IsOpen(g.visits[v])
    ensures var later := Exec(g, es);
      && v < |later.visits| && later.visits[v] == g.visits[v]
      && forall s <- later.sessions :: s.visitId == v ==> !Active(s, later.now)
  {
    ClosedVisitStays(g, es, v);
    ExecInv(g, es);
    var later := Exec(g, es);
    forall s <- later.sessions ensures s.visitId == v ==> !Active(s, later.now) {
      var i :| 0 <= i < |later.sessions| && later.sessions[i] == s;
      assert SessionOk(later, later.sessions[i]);
    }
  }

  lemma NextScanOpens(g: Floor, tableId: nat)
    requires OpenVisit(g.visits, tableId).None?
    ensures var scanned := AfterScan(g, tableId);
      |scanned.sessions| == |g.sessions| + 1 && scanned.sessions[|g.sessions|].visitId == |g.visits|
  {
  }

  lemma SettledInv(f: Floor, v: nat, payment: Payment, paid: Option<int>, staff: nat, force: bool)
    requires Reachable(f) && CanSettle(f, v, force)
    ensures Inv(f) && Inv(AfterSettle(f, v, payment, paid, staff))
    ensures Apply(f, Settle(v, payment, paid, staff, force)) == AfterSettle(f, v, payment, paid, staff)
  {
    ReachableInv(f);
    AfterSettleInv(f, v, payment, paid, staff);
  }

  lemma AfterSettleInv(f: Floor, v: nat, payment: Payment, paid: Option<int>, staff: nat)
    requires Inv(f) && v < |f.visits| && IsOpen(f.visits[v])
    ensures Inv(AfterSettle(f, v, payment, paid, staff))
  {
    SettleInv(f, v, payment, paid, staff);
    var g := AfterSettle(f, v, payment, paid, staff);
    forall q | 0 <= q < |g.patches| ensures PatchOk(g, g.patches[q]) { assert PatchOk(f, f.patches[q]); }
  }

  /** A settled party is gone for good: in every later state of every run none of its
      phones is live and the visit's record is the one settlement wrote; and the next
      scan of the table starts a visit of its own. */
  lemma SettlementFreesTheTable(
      f: Floor, v: nat, payment: Payment, paid: Option<int>, staff: nat, force: bool, es: seq<Event>)
    requires Reachable(f) && CanSettle(f, v, force)
    ensures var g := Apply(f, Settle(v, payment, paid, staff, force)); var later := Exec(g, es);
      && v < |later.visits|
      && later.visits[v] == SettledVisit(f.visits[v], BillTotal(f, v), payment, paid, staff, f.now)
      && (forall s <- later.sessions :: s.visitId == v ==> !Active(s, later.now))
      && var scanned := AfterScan(g, f.visits[v].tableId);
         |scanned.sessions| == |g.sessions| + 1 && scanned.sessions[|g.sessions|].visitId == |g.visits|
  {
    SettledInv(f, v, payment, paid, staff, force);
    var g := AfterSettle(f, v, payment, paid, staff);
    TableIsFree(f, v, payment, paid, staff);
    NextScanOpens(g, f.visits[v].tableId);
    PartyGone(g, es, v);
  }

  // ----- the abandoned-visit sweep -----------------------------------------------------------

  /** Every abandonable visit closed, each with its own bill. */
  function AfterAbandonSweep(f: Floor, n: nat): Floor {
    f.(visits := seq(|f.visits|, i requires 0 <= i < |f.visits| =>
      if i < n && Abandonable(f, i) then AbandonedVisit(f.visits[i], BillTotal(f, i), f.now) else f.visits[i]))
  }

  function SweepEvents(n: nat): seq<Event> {
    if n == 0 then [] else SweepEvents(n - 1) + [CloseAbandoned(n - 1)]
  }

  lemma ExecAppend(f: Floor, es: seq<Event>, e: Event)
    ensures Exec(f, es + [e]) == Apply(Exec(f, es), e)
  {
    ExecConcat(f, es, [e]);
    assert [e][1..] == [];
  }

  /** Closing the visits one after another is the same as deciding them all at
      once: no closure makes another visit abandonable, or stops one being so. */
  lemma {:induction false} SweepIsSteps(f: Floor, n: nat)
    requires n <= |f.visits|
    ensures Exec(f, SweepEvents(n)) == AfterAbandonSweep(f, n)
  {
    if n == 0 {
      assert AfterAbandonSweep(f, 0) == f;
    } else {
      SweepIsSteps(f, n - 1);
      OneMoreSwept(f, n - 1);
      SweepAppends(f, n - 1);
    }
  }

  lemma SweepAppends(f: Floor, n: nat)
    ensures Exec(f, SweepEvents(n + 1)) == Apply(Exec(f, SweepEvents(n)), CloseAbandoned(n))
  {
    ExecAppend(f, SweepEvents(n), CloseAbandoned(n));
  }

  lemma OneMoreSwept(f: Floor, v: nat)
    requires v < |f.visits|
    ensures Apply(AfterAbandonSweep(f, v), CloseAbandoned(v)) == AfterAbandonSweep(f, v + 1)
  {
    var before := AfterAbandonSweep(f, v);
    assert before.visits[v] == f.visits[v];
    assert Abandonable(before, v) == Abandonable(f, v);
    assert Apply(before, CloseAbandoned(v)).visits == AfterAbandonSweep(f, v + 1).visits;
  }

  /** Nobody has used the visit for three hours: opened before that, no order since,
      and none of its phones live. */
  predicate Deserted(f: Floor, v: nat)
    requires v < |f.visits|
  {
    && f.visits[v].openedAt < f.now - 10_800_000
    && (forall i | 0 <= i < |f.sessions| && f.sessions[i].visitId == v ::
          f.sessions[i].revokedAt.Some? || f.sessions[i].expiresAt <= f.now)
    && (forall i | 0 <= i < |f.orders| && f.orders[i].visitId == v :: f.orders[i].createdAt <= f.now - 10_800_000)
  }

  lemma AbandonableMeans(f: Floor, v: nat)
    requires v < |f.visits|
    ensures Abandonable(f, v) <==> f.visits[v].status != Closed && Deserted(f, v)
  {
    assert forall i | 0 <= i < |f.sessions| :: f.sessions[i] in f.sessions;
    assert forall i | 0 <= i < |f.orders| :: f.orders[i] in f.orders;
  }

  /** The sweep closes an open visit if and only if it is deserted, as abandoned, with
      what its bill came to, and touches no order and nothing else. */
  lemma SweepClosesExactlyAbandoned(f: Floor, v: nat)
    requires Reachable(f) && v < |f.visits| && f.visits[v].status != Closed
    ensures var g := AfterAbandonSweep(f, |f.visits|);
      && Reachable(g) && g.orders == f.orders && g.sessions == f.sessions
      && g.visits[v] ==
         if Deserted(f, v) then f.visits[v].(
           status := Closed, closedAt := Some(f.now), closedReason := Some(Abandoned),
           total := Some(ItemisedSum(BilledOrders(f.orders, v))))
         else f.visits[v]
  {
    AbandonableMeans(f, v);
    SweepIsSteps(f, |f.visits|);
    var now: int, es: seq<Event> :| f == Exec(Start(now), es);
    ExecConcat(Start(now), es, SweepEvents(|f.visits|));
  }

  lemma {:induction false} ExecConcat(f: Floor, a: seq<Event>, b: seq<Event>)
    ensures Exec(f, a + b) == Exec(Exec(f, a), b)
    decreases |a|
  {
    if a == [] {
      assert a + b == b;
    } else {
      assert (a + b)[1..] == a[1..] + b;
      ExecConcat(Apply(f, a[0]), a[1..], b);
    }
  }
}
