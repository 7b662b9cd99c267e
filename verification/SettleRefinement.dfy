/** The statements of SettleRace, run with nobody in between, are the handlers of
    VenueFloor. */
module SettleRefinement {
  import opened Common
  import opened Orders
  import Billing
  import OrderEdit
  import Floor = VenueFloor
  import Race = SettleRace

  /** The same order, its price as one number and its payments as one mark. */
  predicate SameOrder(r: Race.OrderRow, o: Order) {
    r.visitId == o.visitId && r.status == o.status && r.amount == Itemised(o.lines) && (r.paidBy != {} <==> o.paid)
  }

  predicate SameVisit(r: Race.Visit, v: Floor.Visit) {
    && (r.status == Race.Open <==> v.status == Floor.Open)
    && (r.status == Race.Asked <==> v.status == Floor.BillRequested)
    && (r.reason == Race.Unsettled <==> v.closedReason == None)
    && (r.reason.SettledBy? <==> v.closedReason == Some(Floor.Settled))
    && r.total == v.total
  }

  predicate SamePatch(r: Race.Patch, p: Floor.Patch) {
    && r.order == p.orderId && (r.Checked? <==> p.Checked?)
    && (r.Checked? ==> r.to == p.to)
  }

  predicate SameOrders(rs: seq<Race.OrderRow>, orders: seq<Order>) {
    |rs| == |orders| && forall i | 0 <= i < |rs| :: SameOrder(rs[i], orders[i])
  }

  /** The two models agree on every row. */
  predicate Agree(s: Race.State, f: Floor.Floor) {
    && SameOrders(s.orders, f.orders)
    && |s.visits| == |f.visits| && (forall v | 0 <= v < |s.visits| :: SameVisit(s.visits[v], f.visits[v]))
    && |s.patches| == |f.patches| && (forall p | 0 <= p < |s.patches| :: SamePatch(s.patches[p], f.patches[p]))
  }

  lemma {:induction false} SameBill(rs: seq<Race.OrderRow>, orders: seq<Order>, v: nat)
    requires SameOrders(rs, orders)
    ensures Race.BillTotal(rs, v) == Billing.ItemisedSum(Floor.BilledOrders(orders, v))
  {
    if rs != [] {
      var n := |rs| - 1;
      SameBill(rs[..n], orders[..n], v);
      assert SameOrder(rs[n], orders[n]);
      var before := Floor.BilledOrders(orders[..n], v);
      if Floor.Billable(orders[n], v) {
        assert (before + [orders[n]])[..|before|] == before;
      } else {
        assert before + [] == before;
      }
    }
  }

  lemma SameKitchen(rs: seq<Race.OrderRow>, orders: seq<Order>, v: nat)
    requires SameOrders(rs, orders)
    ensures Race.FoodInKitchen(rs, v) <==> Floor.FoodInKitchen(orders, v)
  {
    if Race.FoodInKitchen(rs, v) {
      var i :| 0 <= i < |rs| && rs[i].visitId == v && InFlight(rs[i].status);
      assert SameOrder(rs[i], orders[i]) && orders[i] in orders;
    }
    if Floor.FoodInKitchen(orders, v) {
      var i :| 0 <= i < |orders| && orders[i].visitId == v && InFlight(orders[i].status);
      assert SameOrder(rs[i], orders[i]);
    }
  }

  lemma SamePaid(rs: seq<Race.OrderRow>, orders: seq<Order>, v: nat, k: nat)
    requires SameOrders(rs, orders)
    ensures SameOrders(Race.MarkPaid(rs, rs, v, k), Floor.MarkPaid(orders, v))
  {
    forall i | 0 <= i < |rs| ensures SameOrder(Race.MarkPaid(rs, rs, v, k)[i], Floor.MarkPaid(orders, v)[i]) {
      assert SameOrder(rs[i], orders[i]);
      assert k in Race.MarkedBy(rs[i], k).paidBy;
    }
  }

  /** A settlement whose statements run one after another is the handler's step:
      refused alike, or the same visit closed with the same total and the same orders
      paid. */
  lemma SettleRefines(
      s: Race.State, f: Floor.Floor, v: nat, payment: Floor.Payment, paid: Option<int>, staff: nat, force: bool,
      es: seq<Race.Event>)
    requires Agree(s, f) && es == Race.Till(v, force, |s.settles|)
    ensures Agree(Race.Exec(s, es), Floor.Apply(f, Floor.Settle(v, payment, paid, staff, force)))
  {
    SameGuard(s, f, v, force);
    if Floor.CanSettle(f, v, force) {
      AcceptedRefines(s, f, v, payment, paid, staff, force, es);
    } else {
      RefusedRun(s, v, force, es);
      assert Floor.Apply(f, Floor.Settle(v, payment, paid, staff, force)) == f;
    }
  }

  lemma SameGuard(s: Race.State, f: Floor.Floor, v: nat, force: bool)
    requires Agree(s, f)
    ensures Floor.CanSettle(f, v, force) <==>
      v < |s.visits| && Race.IsOpen(s.visits[v]) && (force || !Race.FoodInKitchen(s.orders, v))
  {
    SameKitchen(s.orders, f.orders, v);
    if v < |s.visits| { assert SameVisit(s.visits[v], f.visits[v]); }
  }

  lemma AcceptedRefines(
      s: Race.State, f: Floor.Floor, v: nat, payment: Floor.Payment, paid: Option<int>, staff: nat, force: bool,
      es: seq<Race.Event>)
    requires Agree(s, f) && Floor.CanSettle(f, v, force) && es == Race.Till(v, force, |s.settles|)
    ensures Agree(Race.Exec(s, es), Floor.AfterSettle(f, v, payment, paid, staff))
  {
    SameGuard(s, f, v, force);
    Race.SettlesThrough(s, v, force, es);
    SameBill(s.orders, f.orders, v);
    SamePaid(s.orders, f.orders, v, |s.settles|);
    SettledAgree(s, f, v, payment, paid, staff, Race.Exec(s, es));
  }

  lemma SettledAgree(
      s: Race.State, f: Floor.Floor, v: nat, payment: Floor.Payment, paid: Option<int>, staff: nat, t: Race.State)
    requires Agree(s, f) && v < |f.visits| && t.patches == s.patches
    requires SameOrders(t.orders, Floor.MarkPaid(f.orders, v))
    requires t.visits == s.visits[v :=
      Race.Visit(Race.Closed, Race.SettledBy(|s.settles|), Some(Floor.BillTotal(f, v)))]
    ensures Agree(t, Floor.AfterSettle(f, v, payment, paid, staff))
  {
    var g := Floor.AfterSettle(f, v, payment, paid, staff);
    forall w | 0 <= w < |t.visits| ensures SameVisit(t.visits[w], g.visits[w]) {
      assert SameVisit(s.visits[w], f.visits[w]);
    }
  }

  /** Refused at the first or the second statement, a settlement writes no row. */
  lemma RefusedRun(s: Race.State, v: nat, force: bool, es: seq<Race.Event>)
    requires es == Race.Till(v, force, |s.settles|)
    requires v >= |s.visits| || !Race.IsOpen(s.visits[v]) || (!force && Race.FoodInKitchen(s.orders, v))
    ensures var t := Race.Exec(s, es); t.orders == s.orders && t.visits == s.visits && t.patches == s.patches
  {
    var k := |s.settles|;
    var s1 := s.(settles := s.settles + [Race.Began(v, force)]);
    Race.ExecStep(s, es, 0, s1);
    var s2 := Race.Settle(s1, k);
    Race.ExecStep(s1, es, 1, s2);
    var s3 := Race.Settle(s2, k);
    assert s3.settles[k].Lost?;
    Race.ExecStep(s2, es, 2, s3);
    assert es[0..] == es;
    LostStays(s3, k, es, 3);
  }

  lemma {:induction false} LostStays(s: Race.State, k: nat, es: seq<Race.Event>, i: nat)
    requires k < |s.settles| && s.settles[k].Lost? && i <= |es|
    requires forall j | i <= j < |es| :: es[j] == Race.Advance(k)
    ensures Race.Exec(s, es[i..]) == s
    decreases |es| - i
  {
    if i < |es| {
      Race.ExecStep(s, es, i, s);
      LostStays(s, k, es, i + 1);
    }
  }

  /** The sweep of one visit: list it, total its bill, close it. */
  function SweepOf(v: nat, writer: nat): (es: seq<Race.Event>)
    ensures |es| == 3
  {
    [Race.List(v), Race.Resume(writer), Race.Resume(writer)]
  }

  /** So are the other handlers that check a visit and then write it. */
  lemma VisitHandlersRefine(s: Race.State, f: Floor.Floor, v: nat)
    requires Agree(s, f)
    ensures Agree(Race.Apply(Race.Apply(s, Race.Ask(v)), Race.Resume(|s.writers|)),
                  Floor.Apply(f, Floor.RequestBill(v)))
    ensures Agree(Race.Apply(Race.Apply(s, Race.Clear(v)), Race.Resume(|s.writers|)),
                  Floor.Apply(f, Floor.ClearBillRequest(v)))
    ensures Floor.Abandonable(f, v) ==>
      Agree(Race.Exec(s, SweepOf(v, |s.writers|)), Floor.Apply(f, Floor.CloseAbandoned(v)))
  {
    if v < |s.visits| { assert SameVisit(s.visits[v], f.visits[v]); }
    AskRefines(s, f, v);
    ClearRefines(s, f, v);
    if Floor.Abandonable(f, v) { AbandonRefines(s, f, v, SweepOf(v, |s.writers|)); }
  }

  lemma OneVisitAgrees(s: Race.State, f: Floor.Floor, v: nat, r: Race.Visit, w: Floor.Visit, t: Race.State)
    requires Agree(s, f) && v < |f.visits| && SameVisit(r, w)
    requires t.orders == s.orders && t.patches == s.patches && t.visits == s.visits[v := r]
    ensures Agree(t, f.(visits := f.visits[v := w]))
  {
    var g := f.(visits := f.visits[v := w]);
    forall u | 0 <= u < |t.visits| ensures SameVisit(t.visits[u], g.visits[u]) {
      assert SameVisit(s.visits[u], f.visits[u]);
    }
  }

  lemma AskRefines(s: Race.State, f: Floor.Floor, v: nat)
    requires Agree(s, f)
    ensures Agree(Race.Apply(Race.Apply(s, Race.Ask(v)), Race.Resume(|s.writers|)),
                  Floor.Apply(f, Floor.RequestBill(v)))
  {
    if v < |f.visits| {
      assert SameVisit(s.visits[v], f.visits[v]);
      if f.visits[v].status == Floor.Open {
        OneVisitAgrees(
          s, f, v, s.visits[v].(status := Race.Asked),
          f.visits[v].(status := Floor.BillRequested, billRequestedAt := Some(f.now)),
          Race.Apply(Race.Apply(s, Race.Ask(v)), Race.Resume(|s.writers|)));
      }
    }
  }

  lemma ClearRefines(s: Race.State, f: Floor.Floor, v: nat)
    requires Agree(s, f)
    ensures Agree(Race.Apply(Race.Apply(s, Race.Clear(v)), Race.Resume(|s.writers|)),
                  Floor.Apply(f, Floor.ClearBillRequest(v)))
  {
    if v < |f.visits| {
      assert SameVisit(s.visits[v], f.visits[v]);
      if f.visits[v].status == Floor.BillRequested {
        OneVisitAgrees(
          s, f, v, s.visits[v].(status := Race.Open), f.visits[v].(status := Floor.Open, billRequestedAt := None),
          Race.Apply(Race.Apply(s, Race.Clear(v)), Race.Resume(|s.writers|)));
      }
    }
  }

  lemma SweptRun(s: Race.State, v: nat, es: seq<Race.Event>)
    requires v < |s.visits| && Race.IsOpen(s.visits[v]) && es == SweepOf(v, |s.writers|)
    ensures var t := Race.Exec(s, es);
      && t.orders == s.orders && t.patches == s.patches
      && t.visits == s.visits[v := Race.Visit(Race.Closed, Race.Abandoned, Some(Race.BillTotal(s.orders, v)))]
  {
    var listed := s.(writers := s.writers + [Race.Listed(v)]);
    Race.ExecStep(s, es, 0, listed);
    var totalled := s.(writers := s.writers + [Race.Totalled(v, Race.BillTotal(s.orders, v))]);
    assert totalled.writers == listed.writers[|s.writers| := Race.Totalled(v, Race.BillTotal(s.orders, v))];
    Race.ExecStep(listed, es, 1, totalled);
    Race.ExecStep(totalled, es, 2, Race.Apply(totalled, Race.Resume(|s.writers|)));
    assert es[0..] == es && es[3..] == [];
  }

  lemma AbandonRefines(s: Race.State, f: Floor.Floor, v: nat, es: seq<Race.Event>)
    requires Agree(s, f) && Floor.Abandonable(f, v) && es == SweepOf(v, |s.writers|)
    ensures Agree(Race.Exec(s, es), Floor.Apply(f, Floor.CloseAbandoned(v)))
  {
    assert SameVisit(s.visits[v], f.visits[v]);
    SweptRun(s, v, es);
    SameBill(s.orders, f.orders, v);
    SweptAgrees(s, f, v, Race.Exec(s, es), Floor.BillTotal(f, v));
  }

  lemma SweptAgrees(s: Race.State, f: Floor.Floor, v: nat, t: Race.State, total: int)
    requires Agree(s, f) && v < |f.visits|
    requires t.orders == s.orders && t.patches == s.patches
    requires t.visits == s.visits[v := Race.Visit(Race.Closed, Race.Abandoned, Some(total))]
    ensures Agree(t, f.(visits := f.visits[v := Floor.AbandonedVisit(f.visits[v], total, f.now)]))
  {
    OneVisitAgrees(
      s, f, v, Race.Visit(Race.Closed, Race.Abandoned, Some(total)),
      Floor.AbandonedVisit(f.visits[v], total, f.now), t);
  }

  /** And so are the steps on orders. */
  lemma OrderStepsRefine(s: Race.State, f: Floor.Floor, o: nat, to: Status, reason: string, p: nat, phone: nat)
    requires Agree(s, f)
    ensures to != Rejected || reason != "" ==>
      Agree(Race.Apply(s, Race.CheckMove(o, to)), Floor.Apply(f, Floor.CheckMove(o, to, reason)))
    ensures Agree(Race.Apply(s, Race.WriteMove(p)), Floor.Apply(f, Floor.WriteMove(p)))
    ensures o < |f.orders| && f.orders[o].sessionId == phone ==>
      Agree(Race.Apply(s, Race.Withdraw(o)), Floor.Apply(f, Floor.Cancel(phone, o)))
  {
    CheckRefines(s, f, o, to, reason);
    if p < |s.patches| { WriteRefines(s, f, p); }
    if o < |s.orders| { WithdrawRefines(s, f, o); }
  }

  lemma CheckRefines(s: Race.State, f: Floor.Floor, o: nat, to: Status, reason: string)
    requires Agree(s, f)
    ensures to != Rejected || reason != "" ==>
      Agree(Race.Apply(s, Race.CheckMove(o, to)), Floor.Apply(f, Floor.CheckMove(o, to, reason)))
  {
    if o < |s.orders| { assert SameOrder(s.orders[o], f.orders[o]); }
  }

  lemma WithdrawRefines(s: Race.State, f: Floor.Floor, o: nat)
    requires Agree(s, f) && o < |s.orders|
    ensures Agree(Race.Apply(s, Race.Withdraw(o)), Floor.Apply(f, Floor.Cancel(f.orders[o].sessionId, o)))
  {
    assert SameOrder(s.orders[o], f.orders[o]);
  }

  lemma WriteRefines(s: Race.State, f: Floor.Floor, p: nat)
    requires Agree(s, f) && p < |s.patches|
    ensures Agree(Race.Apply(s, Race.WriteMove(p)), Floor.Apply(f, Floor.WriteMove(p)))
  {
    assert SamePatch(s.patches[p], f.patches[p]);
    var i := s.patches[p].order;
    if i < |s.orders| { assert SameOrder(s.orders[i], f.orders[i]); }
  }

  /** A correction changes the price of the order it lands on, and a new order has the
      price of its lines. */
  lemma PricesRefine(s: Race.State, f: Floor.Floor, o: nat, input: seq<OrderEdit.Entry>, phone: nat, lines: seq<Line>)
    requires Agree(s, f)
    ensures o < |f.orders| && OrderEdit.EditLands(f.orders[o], input, f.now) ==>
      Agree(Race.Apply(s, Race.Edit(o, Itemised(OrderEdit.EditedOrder(f.orders[o], input, f.now).lines))),
            Floor.Apply(f, Floor.Edit(o, input)))
    ensures phone < |f.sessions| && DistinctIds(lines) && (forall l <- lines :: Live(l)) ==>
      Agree(Race.Apply(s, Race.Place(f.sessions[phone].visitId, Itemised(lines))),
            Floor.Apply(f, Floor.Place(phone, lines)))
  {
    if o < |s.orders| {
      assert SameOrder(s.orders[o], f.orders[o]);
      EditRefines(s, f, o, input);
    }
  }

  lemma EditRefines(s: Race.State, f: Floor.Floor, o: nat, input: seq<OrderEdit.Entry>)
    requires Agree(s, f) && o < |f.orders|
    ensures OrderEdit.EditLands(f.orders[o], input, f.now) ==>
      Agree(Race.Apply(s, Race.Edit(o, Itemised(OrderEdit.EditedOrder(f.orders[o], input, f.now).lines))),
            Floor.Apply(f, Floor.Edit(o, input)))
  {
    assert SameOrder(s.orders[o], f.orders[o]);
    var after := OrderEdit.EditedOrder(f.orders[o], input, f.now);
    if OrderEdit.EditLands(f.orders[o], input, f.now) {
      assert after == f.orders[o].(lines := after.lines, total := after.total);
    }
  }
}
