/** The bill of a visit: the itemised form with its per-phone split, and the fast
    form the desk list and the floor summary use. `orders` is always the visit's
    orders that are not void, oldest first. */
module Billing {
  import opened Orders

  datatype BillLine = BillLine(
    name: string, qty: nat, unitPrice: int, lineTotal: int, note: string, modifiers: seq<string>)

  /** ordinal n stands for the n-th phone to appear. */
  datatype Phone = Phone(sessionId: nat, ordinal: nat, total: int)

  datatype Bill = Bill(lines: seq<BillLine>, total: int, phones: seq<Phone>, orderCount: nat, orderIds: seq<nat>)

  // ----- what the bill should say -------------------------------------------------

  function ItemisedSum(orders: seq<Order>): int {
    if orders == [] then 0 else ItemisedSum(orders[..|orders| - 1]) + Itemised(orders[|orders| - 1].lines)
  }

  /** What one phone ordered. */
  function PhoneTotal(orders: seq<Order>, sessionId: nat): int {
    if orders == [] then 0
    else
      var o := orders[|orders| - 1];
      PhoneTotal(orders[..|orders| - 1], sessionId) + if o.sessionId == sessionId then Itemised(o.lines) else 0
  }

  /** The phones, in the order they first appear. */
  function PhonesOf(orders: seq<Order>): (ids: seq<nat>)
    ensures forall i, j | 0 <= i < j < |ids| :: ids[i] != ids[j]
    ensures forall s :: s in ids <==> exists o <- orders :: o.sessionId == s
  {
    if orders == [] then []
    else
      var before := PhonesOf(orders[..|orders| - 1]);
      var s := orders[|orders| - 1].sessionId;
      assert orders == orders[..|orders| - 1] + [orders[|orders| - 1]];
      if s in before then before else before + [s]
  }

  function BillLineOf(l: Line): BillLine {
    BillLine(l.name, l.qty, l.unitPrice, l.unitPrice * l.qty, l.note, l.modifiers)
  }

  function LinesOf(lines: seq<Line>): seq<BillLine> {
    if lines == [] then []
    else LinesOf(lines[..|lines| - 1]) + if Live(lines[|lines| - 1]) then [BillLineOf(lines[|lines| - 1])] else []
  }

  function AllLines(orders: seq<Order>): seq<BillLine> {
    if orders == [] then [] else AllLines(orders[..|orders| - 1]) + LinesOf(orders[|orders| - 1].lines)
  }

  function LinesTotal(lines: seq<BillLine>): int {
    if lines == [] then 0 else LinesTotal(lines[..|lines| - 1]) + lines[|lines| - 1].lineTotal
  }

  // ----- what the bill shows ---------------------------------------------------------

  lemma {:induction false} LinesOfLength(lines: seq<Line>)
    ensures |LinesOf(lines)| == LiveBefore(lines, |lines|)
  {
    if lines != [] {
      LinesOfLength(lines[..|lines| - 1]);
      LiveBeforePrefix(lines, |lines| - 1, |lines| - 1);
    }
  }

  lemma {:induction false} LineShown(lines: seq<Line>, i: nat)
    requires i < |lines| && lines[i].voidedAt.None?
    ensures LiveBefore(lines, i) < |LinesOf(lines)|
    ensures var l := lines[i];
      LinesOf(lines)[LiveBefore(lines, i)] ==
      BillLine(l.name, l.qty, l.unitPrice, l.unitPrice * l.qty, l.note, l.modifiers)
    decreases |lines|
  {
    var n := |lines| - 1;
    if i < n {
      LineShown(lines[..n], i);
      LiveBeforePrefix(lines, n, i);
    } else {
      LinesOfLength(lines[..n]);
      LiveBeforePrefix(lines, n, n);
    }
  }

  lemma OrderShown(orders: seq<Order>, o: nat)
    requires o < |orders|
    ensures AllLines(orders[..o + 1]) == AllLines(orders[..o]) + LinesOf(orders[o].lines)
    ensures |AllLines(orders[..o + 1])| == |AllLines(orders[..o])| + LiveBefore(orders[o].lines, |orders[o].lines|)
  {
    assert orders[..o + 1][..o] == orders[..o];
    LinesOfLength(orders[o].lines);
  }

  lemma {:induction false} ShownStays(orders: seq<Order>, o: nat, k: nat)
    requires o <= |orders| && k < |AllLines(orders[..o])|
    ensures k < |AllLines(orders)| && AllLines(orders)[k] == AllLines(orders[..o])[k]
    decreases |orders|
  {
    var n := |orders| - 1;
    if o <= n {
      assert orders[..n][..o] == orders[..o];
      ShownStays(orders[..n], o, k);
    } else {
      assert orders[..o] == orders;
    }
  }

  /** Order by order, the bill shows every line that is not voided, in its place, with
      its own quantity, price, note and options; by OrderShown it shows no other. */
  lemma BillShows(orders: seq<Order>, o: nat, i: nat, l: Line, place: nat)
    requires o < |orders| && i < |orders[o].lines| && orders[o].lines[i] == l && l.voidedAt.None?
    requires place == |AllLines(orders[..o])| + LiveBefore(orders[o].lines, i)
    ensures place < |AllLines(orders)|
    ensures AllLines(orders)[place] == BillLine(l.name, l.qty, l.unitPrice, l.unitPrice * l.qty, l.note, l.modifiers)
  {
    LineShown(orders[o].lines, i);
    PlaceInOrder(orders, o, LiveBefore(orders[o].lines, i));
  }

  lemma PlaceInOrder(orders: seq<Order>, o: nat, place: nat)
    requires o < |orders| && place < |LinesOf(orders[o].lines)|
    ensures |AllLines(orders[..o])| + place < |AllLines(orders)|
    ensures AllLines(orders)[|AllLines(orders[..o])| + place] == LinesOf(orders[o].lines)[place]
  {
    OrderShown(orders, o);
    ShownStays(orders, o + 1, |AllLines(orders[..o])| + place);
  }

  /** Each line and each order adds its own amount to what the bill comes to. */
  lemma BillAdds(orders: seq<Order>, o: Order, lines: seq<BillLine>, l: BillLine)
    ensures ItemisedSum([]) == LinesTotal([]) == 0
    ensures ItemisedSum(orders + [o]) == ItemisedSum(orders) + Itemised(o.lines)
    ensures LinesTotal(lines + [l]) == LinesTotal(lines) + l.lineTotal
  {
    assert (orders + [o])[..|orders|] == orders && (lines + [l])[..|lines|] == lines;
  }

  /** A phone keeps its number however much is ordered later: they are numbered in
      the order they first ordered. */
  lemma {:induction false} LabelsStay(orders: seq<Order>, later: seq<Order>)
    ensures PhonesOf(orders) <= PhonesOf(orders + later)
    decreases |later|
  {
    if later == [] {
      assert orders + later == orders;
    } else {
      LabelsStay(orders, later[..|later| - 1]);
      assert (orders + later)[..|orders + later| - 1] == orders + later[..|later| - 1];
    }
  }

  /** The orders one phone placed. */
  function OwnOrders(orders: seq<Order>, sessionId: nat): seq<Order> {
    if orders == [] then []
    else
      var o := orders[|orders| - 1];
      OwnOrders(orders[..|orders| - 1], sessionId) + if o.sessionId == sessionId then [o] else []
  }

  /** A phone owes for its own orders and nobody else's. */
  lemma {:induction false} PhonePaysItsOwn(orders: seq<Order>, sessionId: nat)
    ensures PhoneTotal(orders, sessionId) == ItemisedSum(OwnOrders(orders, sessionId))
  {
    if orders != [] {
      var init, o := orders[..|orders| - 1], orders[|orders| - 1];
      PhonePaysItsOwn(init, sessionId);
      var own := OwnOrders(init, sessionId);
      if o.sessionId == sessionId { assert (own + [o])[..|own|] == own; } else { assert own + [] == own; }
    }
  }

  // ----- the three ways of adding a bill up agree ------------------------------------

  lemma {:induction false} LinesTotalAppend(a: seq<BillLine>, b: seq<BillLine>)
    ensures LinesTotal(a + b) == LinesTotal(a) + LinesTotal(b)
  {
    if b == [] {
      assert a + b == a;
    } else {
      assert (a + b)[..|a + b| - 1] == a + b[..|b| - 1];
      LinesTotalAppend(a, b[..|b| - 1]);
    }
  }

  lemma {:induction false} LinesOfTotal(lines: seq<Line>)
    ensures LinesTotal(LinesOf(lines)) == Itemised(lines)
  {
    if lines != [] {
      var init, l := lines[..|lines| - 1], lines[|lines| - 1];
      LinesOfTotal(init);
      if Live(l) {
        LinesTotalAppend(LinesOf(init), [BillLineOf(l)]);
        assert LinesTotal([BillLineOf(l)]) == Amount(l);
      } else {
        assert LinesOf(lines) == LinesOf(init);
      }
    }
  }

  lemma {:induction false} AllLinesTotal(orders: seq<Order>)
    ensures LinesTotal(AllLines(orders)) == ItemisedSum(orders)
  {
    if orders != [] {
      var init, o := orders[..|orders| - 1], orders[|orders| - 1];
      AllLinesTotal(init);
      LinesOfTotal(o.lines);
      LinesTotalAppend(AllLines(init), LinesOf(o.lines));
    }
  }

  function SplitTotal(orders: seq<Order>, phones: seq<nat>): int {
    if phones == [] then 0
    else SplitTotal(orders, phones[..|phones| - 1]) + PhoneTotal(orders, phones[|phones| - 1])
  }

  lemma {:induction false} SplitOneMore(orders: seq<Order>, o: Order, phones: seq<nat>)
    requires forall i, j | 0 <= i < j < |phones| :: phones[i] != phones[j]
    ensures SplitTotal(orders + [o], phones) ==
      SplitTotal(orders, phones) + if o.sessionId in phones then Itemised(o.lines) else 0
  {
    if phones != [] {
      var init, s := phones[..|phones| - 1], phones[|phones| - 1];
      assert phones == init + [s];
      SplitOneMore(orders, o, init);
      assert (orders + [o])[..|orders|] == orders;
    }
  }

  lemma {:induction false} StrangerOwesNothing(orders: seq<Order>, s: nat)
    requires forall o <- orders :: o.sessionId != s
    ensures PhoneTotal(orders, s) == 0
  {
    if orders != [] {
      assert orders[|orders| - 1] in orders;
      StrangerOwesNothing(orders[..|orders| - 1], s);
    }
  }

  /** "We're paying separately" adds up to the whole bill. */
  lemma {:induction false} PhonesSplitTheBill(orders: seq<Order>)
    ensures SplitTotal(orders, PhonesOf(orders)) == ItemisedSum(orders)
  {
    if orders != [] {
      var init, o := orders[..|orders| - 1], orders[|orders| - 1];
      assert orders == init + [o];
      PhonesSplitTheBill(init);
      var before := PhonesOf(init);
      SplitOneMore(init, o, before);
      if o.sessionId !in before {
        assert (before + [o.sessionId])[..|before|] == before;
        StrangerOwesNothing(init, o.sessionId);
        assert PhoneTotal(orders, o.sessionId) == Itemised(o.lines);
      }
    }
  }

  // ----- the fast form ---------------------------------------------------------------

  function StoredSum(orders: seq<Order>): int {
    if orders == [] then 0 else StoredSum(orders[..|orders| - 1]) + orders[|orders| - 1].total
  }

  datatype DeskRow = DeskRow(total: int, orderCount: nat, phoneCount: nat)

  function FastRow(orders: seq<Order>): DeskRow {
    DeskRow(StoredSum(orders), |orders|, |set o <- orders :: o.sessionId|)
  }

  predicate TotalsStored(orders: seq<Order>) {
    forall o <- orders :: o.total == Itemised(o.lines)
  }

  lemma {:induction false} StoredIsItemised(orders: seq<Order>)
    requires TotalsStored(orders)
    ensures StoredSum(orders) == ItemisedSum(orders)
  {
    if orders != [] {
      assert orders[|orders| - 1] in orders;
      StoredIsItemised(orders[..|orders| - 1]);
    }
  }

  function Distinct(ids: seq<nat>): set<nat> {
    set s | s in ids
  }

  lemma {:induction false} PhoneCount(ids: seq<nat>)
    requires forall i, j | 0 <= i < j < |ids| :: ids[i] != ids[j]
    ensures |Distinct(ids)| == |ids|
  {
    if ids != [] {
      var init, s := ids[..|ids| - 1], ids[|ids| - 1];
      PhoneCount(init);
      assert ids == init + [s];
      assert s !in Distinct(init) && Distinct(ids) == Distinct(init) + {s};
    }
  }

  /** The desk's row agrees with the itemised bill wherever stored totals do. */
  lemma FastRowIsItemised(orders: seq<Order>)
    requires TotalsStored(orders)
    ensures FastRow(orders) == DeskRow(ItemisedSum(orders), |orders|, |PhonesOf(orders)|)
  {
    StoredIsItemised(orders);
    PhoneCount(PhonesOf(orders));
    assert (set o <- orders :: o.sessionId) == Distinct(PhonesOf(orders));
  }

  // ----- the running code ------------------------------------------------------------

  function PhonesTotal(phones: seq<Phone>): int {
    if phones == [] then 0 else PhonesTotal(phones[..|phones| - 1]) + phones[|phones| - 1].total
  }

  lemma {:induction false} PhonesTotalIsSplit(phones: seq<Phone>, orders: seq<Order>, ids: seq<nat>)
    requires |phones| == |ids|
    requires forall i | 0 <= i < |ids| :: phones[i].total == PhoneTotal(orders, ids[i])
    ensures PhonesTotal(phones) == SplitTotal(orders, ids)
  {
    if phones != [] {
      PhonesTotalIsSplit(phones[..|phones| - 1], orders, ids[..|ids| - 1]);
    }
  }

  /** The inner loop: push one order's live lines and add them up. */
  method PushLines(before: seq<BillLine>, o: Order) returns (lines: seq<BillLine>, orderTotal: int)
    ensures lines == before + LinesOf(o.lines)
    ensures orderTotal == Itemised(o.lines)
  {
    lines, orderTotal := before, 0;
    var j := 0;
    while j < |o.lines|
      invariant 0 <= j <= |o.lines|
      invariant lines == before + LinesOf(o.lines[..j])
      invariant orderTotal == Itemised(o.lines[..j])
    {
      assert o.lines[..j + 1][..j] == o.lines[..j];
      var l := o.lines[j];
      if l.voidedAt.None? {
        var lineTotal := l.unitPrice * l.qty;
        orderTotal := orderTotal + lineTotal;
        lines := lines + [BillLine(l.name, l.qty, l.unitPrice, lineTotal, l.note, l.modifiers)];
      }
      j := j + 1;
    }
    assert o.lines[..j] == o.lines;
  }

  method ReduceLines(lines: seq<BillLine>) returns (total: int)
    ensures total == LinesTotal(lines)
  {
    total := 0;
    var n := 0;
    while n < |lines|
      invariant 0 <= n <= |lines| && total == LinesTotal(lines[..n])
    {
      assert lines[..n + 1][..n] == lines[..n];
      total := total + lines[n].lineTotal;
      n := n + 1;
    }
    assert lines[..n] == lines;
  }

  lemma OneOrderMore(orders: seq<Order>, i: nat)
    requires i < |orders|
    ensures var o := orders[i];
      && AllLines(orders[..i + 1]) == AllLines(orders[..i]) + LinesOf(o.lines)
      && PhonesOf(orders[..i + 1]) ==
         PhonesOf(orders[..i]) + (if o.sessionId in PhonesOf(orders[..i]) then [] else [o.sessionId])
  {
    assert orders[..i + 1][..i] == orders[..i];
  }

  lemma OneAmountMore(orders: seq<Order>, i: nat, s: nat)
    requires i < |orders|
    ensures PhoneTotal(orders[..i + 1], s) ==
      (if s in PhonesOf(orders[..i]) then PhoneTotal(orders[..i], s) else 0) +
      (if orders[i].sessionId == s then Itemised(orders[i].lines) else 0)
  {
    assert orders[..i + 1][..i] == orders[..i];
    if s !in PhonesOf(orders[..i]) { StrangerOwesNothing(orders[..i], s); }
  }

  /** The Map of the bill loop: each phone so far, with what it ordered. */
  ghost predicate Tallied(perPhone: map<nat, int>, keys: seq<nat>, orders: seq<Order>) {
    && keys == PhonesOf(orders)
    && (forall s: nat :: s in perPhone <==> s in keys)
    && (forall s: nat | s in perPhone :: perPhone[s] == PhoneTotal(orders, s))
  }

  lemma TallyStep(perPhone: map<nat, int>, keys: seq<nat>, orders: seq<Order>, i: nat)
    requires i < |orders| && Tallied(perPhone, keys, orders[..i])
    ensures var o := orders[i];
      var soFar := if o.sessionId in perPhone then perPhone[o.sessionId] else 0;
      Tallied(perPhone[o.sessionId := soFar + Itemised(o.lines)],
              if o.sessionId in perPhone then keys else keys + [o.sessionId], orders[..i + 1])
  {
    OneOrderMore(orders, i);
    forall s: nat | s in perPhone || s == orders[i].sessionId
      ensures PhoneTotal(orders[..i + 1], s) ==
        (if s in perPhone then perPhone[s] else 0) + (if orders[i].sessionId == s then Itemised(orders[i].lines) else 0)
    {
      OneAmountMore(orders, i, s);
    }
  }

  /** The loop over orders: lines, and a running amount per phone kept in
      insertion order. */
  method Collect(orders: seq<Order>) returns (lines: seq<BillLine>, keys: seq<nat>, perPhone: map<nat, int>)
    ensures lines == AllLines(orders)
    ensures keys == PhonesOf(orders)
    ensures forall s <- keys :: s in perPhone && perPhone[s] == PhoneTotal(orders, s)
  {
    lines, keys, perPhone := [], [], map[];
    var i := 0;
    while i < |orders|
      invariant 0 <= i <= |orders|
      invariant lines == AllLines(orders[..i])
      invariant Tallied(perPhone, keys, orders[..i])
    {
      var o := orders[i];
      OneOrderMore(orders, i);
      TallyStep(perPhone, keys, orders, i);
      var orderTotal;
      lines, orderTotal := PushLines(lines, o);
      var soFar := if o.sessionId in perPhone then perPhone[o.sessionId] else 0;
      if o.sessionId !in perPhone { keys := keys + [o.sessionId]; }
      perPhone := perPhone[o.sessionId := soFar + orderTotal];
      i := i + 1;
    }
    assert orders[..i] == orders;
  }

  /** The itemised bill: phones are labelled by the order they first appeared. */
  method BuildBill(ids: seq<nat>, orders: seq<Order>) returns (bill: Bill)
    requires |ids| == |orders|
    ensures bill.lines == AllLines(orders)
    ensures bill.total == ItemisedSum(orders) == LinesTotal(bill.lines)
    ensures |bill.phones| == |PhonesOf(orders)|
    ensures forall i | 0 <= i < |bill.phones| ::
      bill.phones[i] == Phone(PhonesOf(orders)[i], i + 1, PhoneTotal(orders, PhonesOf(orders)[i]))
    ensures PhonesTotal(bill.phones) == bill.total
    ensures bill.orderCount == |orders| && bill.orderIds == ids
  {
    var lines, keys, perPhone := Collect(orders);
    var phones: seq<Phone> := [];
    var k := 0;
    while k < |keys|
      invariant 0 <= k <= |keys| && |phones| == k
      invariant forall m | 0 <= m < k :: phones[m] == Phone(keys[m], m + 1, PhoneTotal(orders, keys[m]))
    {
      assert keys[k] in keys;
      phones := phones + [Phone(keys[k], k + 1, perPhone[keys[k]])];
      k := k + 1;
    }
    var total := ReduceLines(lines);
    AllLinesTotal(orders);
    PhonesTotalIsSplit(phones, orders, keys);
    PhonesSplitTheBill(orders);
    bill := Bill(lines, total, phones, |orders|, ids);
  }
}
