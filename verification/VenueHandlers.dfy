/** The handlers themselves: loops over the tables and writes in place, each
    proved to take the step VenueFloor gives it. */
module VenueHandlers {
  import opened Common
  import opened Orders
  import opened Billing
  import opened VenueFloor
  import OrderEdit

  datatype PatchResult = Moved | UnknownOrder | InvalidTransition(from: Status) | ReasonRequired

  datatype SettleResult = Paid(total: int) | NotFound | AlreadyClosed | OrdersInFlight

  lemma {:induction false} OpenVisitFrom(visits: seq<Visit>, tableId: nat, n: nat)
    requires n <= |visits|
    requires forall i | n <= i < |visits| :: !(IsOpen(visits[i]) && visits[i].tableId == tableId)
    ensures OpenVisit(visits, tableId) == OpenVisit(visits[..n], tableId)
    decreases |visits|
  {
    if n < |visits| {
      OpenVisitFrom(visits[..|visits| - 1], tableId, n);
      assert visits[..|visits| - 1][..n] == visits[..n];
    } else {
      assert visits[..n] == visits;
    }
  }

  lemma OneMoreBilled(orders: seq<Order>, visitId: nat, i: nat)
    requires i < |orders|
    ensures BilledIds(orders[..i + 1], visitId) ==
      BilledIds(orders[..i], visitId) + if Billable(orders[i], visitId) then [i] else []
    ensures BilledOrders(orders[..i + 1], visitId) ==
      BilledOrders(orders[..i], visitId) + if Billable(orders[i], visitId) then [orders[i]] else []
  {
    assert orders[..i + 1][..i] == orders[..i];
  }

  class VenueDb {
    var now: int
    var visits: seq<Visit>
    var sessions: seq<Session>
    var orders: seq<Order>

    /** Not a table: the desk's status changes, between their check and their write. */
    var patches: seq<Patch>

    constructor (now: int)
      ensures Snapshot() == Start(now)
    {
      this.now, visits, sessions, orders, patches := now, [], [], [], [];
    }

    ghost function Snapshot(): Floor reads this {
      Floor(now, visits, sessions, orders, patches)
    }

    /** Join the newest open visit, or open one. */
    method OpenOrJoinVisit(tableId: nat) returns (visitId: nat)
      modifies this`visits
      ensures var found := OpenVisit(old(visits), tableId);
        visitId == if found.Some? then found.value else |old(visits)|
      ensures var found := OpenVisit(old(visits), tableId);
        visits == if found.Some? then old(visits) else old(visits) + [NewVisit(tableId, now)]
      ensures visitId < |visits| && visits[visitId].status != Closed && visits[visitId].tableId == tableId
      ensures |visits| > |old(visits)| ==>
        visits == old(visits) + [Visit(tableId, Open, now, None, None, None, None, None, None, None)]
    {
      var i := |visits|;
      while i > 0
        invariant 0 <= i <= |visits| && visits == old(visits)
        invariant forall j | i <= j < |visits| :: !(IsOpen(visits[j]) && visits[j].tableId == tableId)
      {
        i := i - 1;
        if visits[i].status != Closed && visits[i].tableId == tableId {
          OpenVisitFrom(visits, tableId, i + 1);
          return i;
        }
      }
      OpenVisitFrom(visits, tableId, 0);
      visitId := |visits|;
      visits := visits + [Visit(tableId, Open, now, None, None, None, None, None, None, None)];
    }

    /** Revoke the oldest live sessions of a table beyond the cap. */
    method DisplaceOldest(tableId: nat)
      modifies this`sessions
      ensures sessions == Displaced(old(sessions), tableId, now)
    {
      ghost var was := sessions;
      var i, newer := |sessions|, 0;
      while i > 0
        invariant 0 <= i <= |sessions| == |was|
        invariant newer == ActiveFrom(was, tableId, now, i)
        invariant forall j | 0 <= j < i :: sessions[j] == was[j]
        invariant forall j | i <= j < |was| :: sessions[j] == Displaced(was, tableId, now)[j]
      {
        i := i - 1;
        var s := sessions[i];
        assert newer == ActiveFrom(was, tableId, now, i + 1);
        if s.tableId == tableId && Active(s, now) {
          if newer >= MAX_ACTIVE_PER_TABLE {
            sessions := sessions[i := s.(revokedAt := Some(now))];
          }
          newer := newer + 1;
        }
      }
    }

    /** Mint a session for a scan, then displace the oldest beyond the cap. */
    method MintSession(tableId: nat)
      modifies this`visits, this`sessions
      ensures Snapshot() == Apply(old(Snapshot()), Scan(tableId))
      ensures |sessions| == |old(sessions)| + 1
      ensures var s := sessions[|old(sessions)|];
        && s == Session(tableId, s.visitId, now + 7_200_000, None)
        && s.visitId < |visits| && visits[s.visitId].status != Closed && visits[s.visitId].tableId == tableId
    {
      ScanMints(Snapshot(), tableId);
      var visitId := OpenOrJoinVisit(tableId);
      sessions := sessions + [Session(tableId, visitId, now + HARD_CAP_MS, None)];
      DisplaceOldest(tableId);
    }

    method PlaceOrder(sessionId: nat, lines: seq<Line>, total: int) returns (id: nat)
      requires sessionId < |sessions| && DistinctIds(lines) && total == Itemised(lines)
      requires forall l <- lines :: Live(l)
      modifies this`orders
      ensures Snapshot() == Apply(old(Snapshot()), Place(sessionId, lines)) && id == |old(orders)|
      ensures orders == old(orders) + [Order(
        sessions[sessionId].tableId, sessionId, sessions[sessionId].visitId, Received, None, total, false, now, lines)]
    {
      id := |orders|;
      var s := sessions[sessionId];
      orders := orders + [Order(s.tableId, sessionId, s.visitId, Received, None, total, false, now, lines)];
    }

    /** What the desk's status change checks, in the source's order of refusals. */
    method CheckStatus(orderId: nat, to: Status, reason: string) returns (result: PatchResult)
      modifies this`patches
      ensures Snapshot() == Apply(old(Snapshot()), CheckMove(orderId, to, reason))
      ensures result ==
        if orderId >= |orders| then UnknownOrder
        else if !DeskMay(orders[orderId].status, to) then InvalidTransition(orders[orderId].status)
        else if to == Rejected && reason == "" then ReasonRequired
        else Moved
      ensures result == Moved ==> patches == old(patches) + [Checked(orderId, to, reason)]
    {
      if orderId >= |orders| { return UnknownOrder; }
      var from := orders[orderId].status;
      if from !in TRANSITIONS || to !in TRANSITIONS[from] { return InvalidTransition(from); }
      if to == Rejected && reason == "" { return ReasonRequired; }
      patches := patches + [Checked(orderId, to, reason)];
      result := Moved;
    }

    /** And what it then writes, by id, whatever has become of the order. */
    method WriteStatus(p: nat)
      requires p < |patches| && patches[p].Checked? && patches[p].orderId < |orders|
      modifies this`orders, this`patches
      ensures Snapshot() == Apply(old(Snapshot()), WriteMove(p))
    {
      var q := patches[p];
      var o := orders[q.orderId];
      var kept := if q.to != Rejected then None
                  else if |q.reason| > MAX_REASON then Some(q.reason[..MAX_REASON]) else Some(q.reason);
      orders := orders[q.orderId := o.(status := q.to, rejectReason := kept)];
      patches := patches[p := Landed(q.orderId)];
    }

    /** The desk's status change with nobody in between. */
    method PatchStatus(orderId: nat, to: Status, reason: string) returns (result: PatchResult)
      modifies this`orders, this`patches
      ensures result == Moved <==> orderId < |old(orders)| && MayMove(old(orders)[orderId], to, reason)
      ensures result == Moved ==>
        && Snapshot() ==
           Apply(Apply(old(Snapshot()), CheckMove(orderId, to, reason)), WriteMove(|old(patches)|))
        && orders == old(orders)[orderId := old(orders)[orderId].(
             status := to, rejectReason := if to == Rejected then Some(Cut(reason, MAX_REASON)) else None)]
      ensures result != Moved ==> Snapshot() == old(Snapshot())
    {
      result := CheckStatus(orderId, to, reason);
      if result == Moved { WriteStatus(|patches| - 1); }
    }

    /** A customer withdrawing their own order. */
    method CancelOrder(sessionId: nat, orderId: nat) returns (ok: bool)
      modifies this`orders
      ensures Snapshot() == Apply(old(Snapshot()), Cancel(sessionId, orderId))
      ensures ok <==>
        && orderId < |old(orders)|
        && old(orders)[orderId].sessionId == sessionId && old(orders)[orderId].status == Received
      ensures orders ==
        if ok then old(orders)[orderId := old(orders)[orderId].(status := Cancelled)] else old(orders)
    {
      if orderId >= |orders| { return false; }
      var o := orders[orderId];
      ok := o.sessionId == sessionId && o.status == Received;
      if ok {
        orders := orders[orderId := o.(status := Cancelled)];
      } else {
        assert orders == orders[orderId := o];
      }
    }

    method RequestTheBill(visitId: nat) returns (ok: bool)
      modifies this`visits
      ensures Snapshot() == Apply(old(Snapshot()), RequestBill(visitId))
      ensures ok <==> visitId < |old(visits)| && old(visits)[visitId].status != Closed
      ensures visits ==
        if ok && old(visits)[visitId].status == Open
        then old(visits)[visitId :=
          old(visits)[visitId].(status := BillRequested, billRequestedAt := Some(now))]
        else old(visits)
    {
      if visitId >= |visits| || visits[visitId].status == Closed { return false; }
      if visits[visitId].status != BillRequested {
        visits := visits[visitId := visits[visitId].(status := BillRequested, billRequestedAt := Some(now))];
      }
      ok := true;
    }

    method ClearRequest(visitId: nat) returns (ok: bool)
      modifies this`visits
      ensures Snapshot() == Apply(old(Snapshot()), ClearBillRequest(visitId))
      ensures ok <==> visitId < |old(visits)| && old(visits)[visitId].status == BillRequested
      ensures visits ==
        if ok then old(visits)[visitId := old(visits)[visitId].(status := Open, billRequestedAt := None)]
        else old(visits)
    {
      if visitId >= |visits| || visits[visitId].status != BillRequested { return false; }
      visits := visits[visitId := visits[visitId].(status := Open, billRequestedAt := None)];
      ok := true;
    }

    /** The orders a bill covers, oldest first. */
    method BilledFor(visitId: nat) returns (ids: seq<nat>, billed: seq<Order>)
      ensures ids == BilledIds(orders, visitId) && billed == BilledOrders(orders, visitId)
      ensures forall i: nat :: i in ids <==> i < |orders| && Owed(orders[i], visitId)
      ensures |billed| == |ids| && forall k | 0 <= k < |ids| :: ids[k] < |orders| && billed[k] == orders[ids[k]]
      ensures forall j, k | 0 <= j < k < |ids| :: ids[j] < ids[k]
    {
      ids, billed := [], [];
      var i := 0;
      while i < |orders|
        invariant 0 <= i <= |orders|
        invariant ids == BilledIds(orders[..i], visitId) && billed == BilledOrders(orders[..i], visitId)
      {
        OneMoreBilled(orders, visitId, i);
        if orders[i].visitId == visitId && !Void(orders[i].status) {
          ids := ids + [i];
          billed := billed + [orders[i]];
        }
        i := i + 1;
      }
      assert orders[..i] == orders;
      forall i: nat ensures i in ids <==> i < |orders| && Owed(orders[i], visitId) { BillCovers(orders, visitId, i); }
      BillCovers(orders, visitId, 0);
    }

    method CountInFlight(visitId: nat) returns (count: nat)
      ensures count > 0 <==> FoodInKitchen(orders, visitId)
      ensures count > 0 <==> exists i | 0 <= i < |orders| ::
        orders[i].visitId == visitId && Owed(orders[i], visitId) && orders[i].status != Served
    {
      count := 0;
      var i := 0;
      while i < |orders|
        invariant 0 <= i <= |orders|
        invariant count > 0 <==> exists j | 0 <= j < i :: orders[j].visitId == visitId && InFlight(orders[j].status)
      {
        if orders[i].visitId == visitId && InFlight(orders[i].status) { count := count + 1; }
        i := i + 1;
      }
      assert forall j | 0 <= j < |orders| :: orders[j] in orders;
    }

    /** Staff took payment: close the visit with the bill's total, mark exactly
        the billed orders paid, revoke the party's phones. */
    method SettleVisit(visitId: nat, payment: Payment, paidAmount: Option<int>, staffId: nat, force: bool)
      returns (result: SettleResult)
      modifies this`visits, this`sessions, this`orders
      ensures Snapshot() == Apply(old(Snapshot()), Settle(visitId, payment, paidAmount, staffId, force))
      ensures result ==
        if visitId >= |old(visits)| then NotFound
        else if old(visits)[visitId].status == Closed then AlreadyClosed
        else if !force && FoodInKitchen(old(orders), visitId) then OrdersInFlight
        else Paid(BillTotal(old(Snapshot()), visitId))
      ensures result == OrdersInFlight ==> !force && exists i | 0 <= i < |orders| ::
        Owed(orders[i], visitId) && orders[i].status != Served
      ensures result.Paid? ==>
        SettledBy(old(Snapshot()), Snapshot(), visitId, result.total, payment, paidAmount, staffId)
      ensures !result.Paid? ==> Snapshot() == old(Snapshot())
    {
      if visitId >= |visits| { return NotFound; }
      var v := visits[visitId];
      if v.status == Closed { return AlreadyClosed; }
      if !force {
        var inFlight := CountInFlight(visitId);
        if inFlight > 0 { return OrdersInFlight; }
      }
      var total := TakePayment(visitId, payment, paidAmount, staffId);
      result := Paid(total);
    }

    /** Build the bill, close the visit with it, mark its orders, revoke the party. */
    method TakePayment(visitId: nat, payment: Payment, paidAmount: Option<int>, staffId: nat) returns (total: int)
      requires visitId < |visits|
      modifies this`visits, this`sessions, this`orders
      ensures total == BillTotal(old(Snapshot()), visitId)
      ensures Snapshot() == AfterSettle(old(Snapshot()), visitId, payment, paidAmount, staffId)
      ensures SettledBy(old(Snapshot()), Snapshot(), visitId, total, payment, paidAmount, staffId)
    {
      SettlingMeans(Snapshot(), visitId, payment, paidAmount, staffId);
      var ids, billed := BilledFor(visitId);
      var bill := BuildBill(ids, billed);
      CloseSettled(visitId, bill.total, payment, paidAmount, staffId);
      MarkOrdersPaid(bill.orderIds, visitId);
      RevokeParty(visitId);
      total := bill.total;
    }

    method CloseSettled(visitId: nat, total: int, payment: Payment, paidAmount: Option<int>, staffId: nat)
      requires visitId < |visits|
      modifies this`visits
      ensures visits ==
        old(visits)[visitId := SettledVisit(old(visits)[visitId], total, payment, paidAmount, staffId, now)]
    {
      var v := visits[visitId];
      visits := visits[visitId := v.(
        status := Closed, closedAt := Some(now), closedReason := Some(Settled), total := Some(total),
        payment := Some(payment), paidAmount := Some(if paidAmount.Some? then paidAmount.value else total),
        closedBy := Some(staffId), billRequestedAt := None)];
    }

    method RevokeParty(visitId: nat)
      modifies this`sessions
      ensures sessions == RevokeWhere(old(sessions), (s: Session) => s.visitId == visitId, now)
    {
      var was, at := sessions, now;
      sessions := seq(|was|, i requires 0 <= i < |was| =>
        if was[i].visitId == visitId && was[i].revokedAt.None? then was[i].(revokedAt := Some(at)) else was[i]);
    }

    method MarkOrdersPaid(ids: seq<nat>, ghost visitId: nat)
      requires ids == BilledIds(orders, visitId)
      modifies this`orders
      ensures orders == MarkPaid(old(orders), visitId)
      ensures |orders| == |old(orders)| && forall i: nat | i < |orders| ::
        orders[i] == if i in ids then old(orders)[i].(paid := true) else old(orders)[i]
    {
      ghost var was := orders;
      var i := 0;
      while i < |orders|
        invariant 0 <= i <= |orders| == |was|
        invariant forall j | 0 <= j < i :: orders[j] == MarkPaid(was, visitId)[j]
        invariant forall j | i <= j < |was| :: orders[j] == was[j]
      {
        if i in ids { orders := orders[i := orders[i].(paid := true)]; }
        i := i + 1;
      }
    }

    /** The desk's correction, read and committed with nobody in between. */
    method EditItems(orderId: nat, input: seq<OrderEdit.Entry>) returns (ok: bool)
      modifies this`orders
      ensures Snapshot() == Apply(old(Snapshot()), Edit(orderId, input))
      ensures ok <==> orderId < |old(orders)| && OrderEdit.EditLands(old(orders)[orderId], input, now)
    {
      if orderId >= |orders| { return false; }
      var o := orders[orderId];
      var plan := OrderEdit.PlanFromRead(o, input);
      ok := false;
      if plan.Planned? {
        var after := OrderEdit.CommitEdit(o, plan.edits, plan.total, now);
        if after.Some? {
          orders := orders[orderId := after.value];
          return true;
        }
      }
      assert orders == orders[orderId := o];
    }

    method IsAbandonable(visitId: nat) returns (stale: bool)
      requires visitId < |visits|
      ensures stale == Abandonable(Snapshot(), visitId)
      ensures stale <==> visits[visitId].status != Closed && Deserted(Snapshot(), visitId)
    {
      AbandonableMeans(Snapshot(), visitId);
      var cutoff := now - ABANDON_AFTER_MS;
      var v := visits[visitId];
      if v.status == Closed || v.openedAt >= cutoff { return false; }
      stale := (forall s <- sessions :: s.visitId == visitId ==> !(s.revokedAt.None? && s.expiresAt > now))
               && (forall o <- orders :: o.visitId == visitId ==> o.createdAt <= cutoff);
    }

    method StaleVisits() returns (stale: seq<nat>)
      ensures forall v :: v in stale <==> 0 <= v < |visits| && Abandonable(Snapshot(), v)
      ensures forall j, k | 0 <= j < k < |stale| :: stale[j] != stale[k]
    {
      stale := [];
      var i := 0;
      while i < |visits|
        invariant 0 <= i <= |visits|
        invariant forall v :: v in stale <==> 0 <= v < i && Abandonable(Snapshot(), v)
        invariant forall j, k | 0 <= j < k < |stale| :: stale[j] != stale[k]
      {
        var abandoned := IsAbandonable(i);
        if abandoned { stale := stale + [i]; }
        i := i + 1;
      }
    }

    method CloseAbandonedVisit(v: nat)
      requires v < |visits|
      modifies this`visits
      ensures visits == old(visits)[v := AbandonedVisit(old(visits)[v], BillTotal(old(Snapshot()), v), now)]
      ensures visits == old(visits)[v := old(visits)[v].(
        status := Closed, closedAt := Some(now), closedReason := Some(Abandoned),
        total := Some(ItemisedSum(BilledOrders(orders, v))))]
    {
      var ids, billed := BilledFor(v);
      var bill := BuildBill(ids, billed);
      visits := visits[v := visits[v].(
        status := Closed, closedAt := Some(now), closedReason := Some(Abandoned), total := Some(bill.total))];
    }

    /** List the abandoned visits, then close each with its bill. */
    method CloseAbandonedVisits() returns (closed: nat)
      modifies this`visits
      ensures Snapshot() == AfterAbandonSweep(old(Snapshot()), |old(visits)|)
      ensures closed == |set v: nat | v < |old(visits)| && Abandonable(old(Snapshot()), v)|
    {
      ghost var f := Snapshot();
      var stale := StaleVisits();
      var k := 0;
      while k < |stale|
        invariant 0 <= k <= |stale|
        invariant |visits| == |f.visits|
        invariant forall v | 0 <= v < |visits| ::
          visits[v] == if v in stale[..k] then AbandonedVisit(f.visits[v], BillTotal(f, v), f.now) else f.visits[v]
      {
        var v := stale[k];
        assert v in stale && v !in stale[..k];
        assert stale[..k + 1] == stale[..k] + [v];
        CloseAbandonedVisit(v);
        k := k + 1;
      }
      assert stale[..k] == stale;
      closed := |stale|;
      PhoneCount(stale);
      assert Distinct(stale) == set v: nat | v < |f.visits| && Abandonable(f, v);
    }
  }
}
