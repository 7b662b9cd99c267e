/** Orders, their lines and their statuses. */
module Orders {
  import opened Common

  datatype Status = Received | Accepted | Preparing | Ready | Served | Rejected | Cancelled

  /** Never on a bill. */
  predicate Void(s: Status) { s == Rejected || s == Cancelled }

  /** Still moving through the kitchen; exactly these orders can be edited. */
  predicate InFlight(s: Status) { s == Received || s == Accepted || s == Preparing || s == Ready }

  /** The desk's transition table. */
  const TRANSITIONS: map<Status, set<Status>> :=
    map[Received := {Accepted, Rejected},
        Accepted := {Preparing, Ready, Rejected},
        Preparing := {Ready, Rejected},
        Ready := {Served}]

  predicate DeskMay(from: Status, to: Status) {
    from in TRANSITIONS && to in TRANSITIONS[from]
  }

  /** How far along an order is. */
  function Rank(s: Status): nat {
    match s case Received => 0 case Accepted => 1 case Preparing => 2 case Ready => 3 case _ => 4
  }

  /** A status change, by the desk or by the customer's own withdrawal. */
  predicate Moves(from: Status, to: Status) {
    DeskMay(from, to) || (from == Received && to == Cancelled)
  }

  /** Every order is in flight, served or void; only orders in flight move, they
      only move forward, and only the desk's own path leads out of the kitchen. */
  lemma StatusGraph(from: Status, to: Status)
    ensures InFlight(from) <==> !Void(from) && from != Served
    ensures InFlight(from) <==> exists t :: Moves(from, t)
    ensures Moves(from, to) ==> Rank(from) < Rank(to)
    ensures DeskMay(from, to) ==> to != Cancelled && to != Received
    ensures Moves(from, Served) <==> from == Ready
    ensures Moves(from, Accepted) <==> from == Received
    ensures Moves(from, Preparing) <==> from == Accepted
    ensures Moves(from, Ready) <==> from == Accepted || from == Preparing
    ensures Moves(from, Rejected) <==> from == Received || from == Accepted || from == Preparing
    ensures Moves(from, Cancelled) <==> from == Received
  {
    assert Moves(Received, Accepted) && Moves(Accepted, Preparing) && Moves(Preparing, Ready) && Moves(Ready, Served);
  }

  /** A line keeps its price and text as they were when it was ordered. */
  datatype Line = Line(
    id: nat, name: string, unitPrice: int, qty: nat, note: string, modifiers: seq<string>, voidedAt: Option<int>)

  const MAX_REASON: nat := 200

  datatype Order = Order(
    tableId: nat, sessionId: nat, visitId: nat, status: Status, rejectReason: Option<string>, total: int,
    paid: bool, createdAt: int, lines: seq<Line>)

  predicate Live(l: Line) { l.voidedAt.None? }

  function Amount(l: Line): int { if Live(l) then l.unitPrice * l.qty else 0 }

  /** The itemised price of an order: its live lines. */
  function Itemised(lines: seq<Line>): int {
    if lines == [] then 0 else Itemised(lines[..|lines| - 1]) + Amount(lines[|lines| - 1])
  }

  /** How many of the first n lines are not voided. */
  function LiveBefore(lines: seq<Line>, n: nat): nat
    requires n <= |lines|
  {
    if n == 0 then 0 else LiveBefore(lines, n - 1) + if lines[n - 1].voidedAt.None? then 1 else 0
  }

  lemma {:induction false} LiveBeforePrefix(lines: seq<Line>, m: nat, n: nat)
    requires n <= m <= |lines|
    ensures LiveBefore(lines[..m], n) == LiveBefore(lines, n)
  {
    if n > 0 { LiveBeforePrefix(lines, m, n - 1); }
  }

  lemma {:induction false} LiveBeforeGrows(lines: seq<Line>, m: nat, n: nat)
    requires m < n <= |lines| && lines[m].voidedAt.None?
    ensures LiveBefore(lines, m) < LiveBefore(lines, n)
  {
    if m < n - 1 { LiveBeforeGrows(lines, m, n - 1); }
  }

  /** The k-th line that is not voided. */
  lemma {:induction false} LiveAt(lines: seq<Line>, n: nat, k: nat) returns (i: nat)
    requires n <= |lines| && k < LiveBefore(lines, n)
    ensures i < n && lines[i].voidedAt.None? && LiveBefore(lines, i) == k
  {
    if k < LiveBefore(lines, n - 1) { i := LiveAt(lines, n - 1, k); } else { i := n - 1; }
  }

  /** A line of q portions at price p adds p * q to an order's price, unless it is
      voided. */
  lemma ItemisedAdds(lines: seq<Line>, l: Line)
    ensures Itemised([]) == 0
    ensures Itemised(lines + [l]) == Itemised(lines) + if l.voidedAt.None? then l.unitPrice * l.qty else 0
  {
    assert (lines + [l])[..|lines|] == lines;
  }

  predicate DistinctIds(lines: seq<Line>) {
    forall i, j | 0 <= i < j < |lines| :: lines[i].id != lines[j].id
  }

  /** Two versions of an order's lines: same rows, same prices. */
  predicate SameRows(a: seq<Line>, b: seq<Line>) {
    |a| == |b| && forall i | 0 <= i < |a| ::
      a[i].id == b[i].id && a[i].unitPrice == b[i].unitPrice && a[i].name == b[i].name
  }
}
