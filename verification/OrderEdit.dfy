/** Desk corrections to a placed order: quantities go down, or to zero. The edit
    is planned against a read of the order and committed by conditional writes. */
module OrderEdit {
  import opened Common
  import opened Orders

  /** One entry of the request; the request schema caps quantities at 20. */
  datatype Entry = Entry(itemId: nat, qty: nat)

  datatype LineChange = LineChange(name: string, fromQty: nat, toQty: nat)
  datatype LineEdit = LineEdit(id: nat, fromQty: nat, toQty: nat)

  datatype Refusal = NotFound | NotEditable | UnknownLine | NoChange | EmptiesOrder | Conflict

  datatype Plan =
    | Refused(error: Refusal)
    | Planned(edits: seq<LineEdit>, changes: seq<LineChange>, total: int)

  // ----- planning ------------------------------------------------------------

  function FindLive(lines: seq<Line>, id: nat): (r: Option<Line>)
    ensures r.Some? ==> r.value in lines && r.value.id == id && Live(r.value)
    ensures r.None? ==> forall l <- lines :: !(l.id == id && Live(l))
  {
    if lines == [] then None
    else
      var last := lines[|lines| - 1];
      if last.id == id && Live(last) then Some(last) else FindLive(lines[..|lines| - 1], id)
  }

  /** The entry `find` returns for a line: the first one naming it. */
  function FirstEntry(input: seq<Entry>, id: nat): Option<Entry> {
    if input == [] then None
    else
      var earlier := FirstEntry(input[..|input| - 1], id);
      if earlier.Some? then earlier
      else if input[|input| - 1].itemId == id then Some(input[|input| - 1]) else None
  }

  /** The quantity the new total is computed from. */
  function PlannedQty(l: Line, input: seq<Entry>): nat {
    var e := FirstEntry(input, l.id);
    if e.Some? then e.value.qty else l.qty
  }

  predicate Acceptable(lines: seq<Line>, e: Entry) {
    var l := FindLive(lines, e.itemId);
    l.Some? && e.qty <= l.value.qty
  }

  /** Every entry names a live line and does not raise its quantity. */
  predicate AllAcceptable(lines: seq<Line>, input: seq<Entry>) {
    forall k | 0 <= k < |input| :: Acceptable(lines, input[k])
  }

  predicate Alters(lines: seq<Line>, e: Entry)
    requires Acceptable(lines, e)
  {
    e.qty != FindLive(lines, e.itemId).value.qty
  }

  function EditsFor(lines: seq<Line>, input: seq<Entry>): (edits: seq<LineEdit>)
    requires AllAcceptable(lines, input)
    ensures forall e <- edits :: e.toQty < e.fromQty
  {
    if input == [] then []
    else
      var e := input[|input| - 1];
      EditsFor(lines, input[..|input| - 1]) +
      if Alters(lines, e) then [LineEdit(e.itemId, FindLive(lines, e.itemId).value.qty, e.qty)] else []
  }

  function ChangesFor(lines: seq<Line>, input: seq<Entry>): seq<LineChange>
    requires AllAcceptable(lines, input)
  {
    if input == [] then []
    else
      var e := input[|input| - 1];
      ChangesFor(lines, input[..|input| - 1]) +
      if Alters(lines, e)
      then [LineChange(FindLive(lines, e.itemId).value.name, FindLive(lines, e.itemId).value.qty, e.qty)] else []
  }

  /** Sum over the live lines at their planned quantities. */
  function PlannedTotal(lines: seq<Line>, input: seq<Entry>): int {
    if lines == [] then 0
    else
      var l := lines[|lines| - 1];
      PlannedTotal(lines[..|lines| - 1], input) + if Live(l) then l.unitPrice * PlannedQty(l, input) else 0
  }

  predicate Leaves(lines: seq<Line>, input: seq<Entry>) {
    exists l <- lines :: Live(l) && PlannedQty(l, input) > 0
  }

  function PlanEdit(o: Order, input: seq<Entry>): Plan {
    if !InFlight(o.status) then Refused(NotEditable)
    else if !AllAcceptable(o.lines, input) then Refused(UnknownLine)
    else if EditsFor(o.lines, input) == [] then Refused(NoChange)
    else if !Leaves(o.lines, input) then Refused(EmptiesOrder)
    else Planned(EditsFor(o.lines, input), ChangesFor(o.lines, input), PlannedTotal(o.lines, input))
  }

  // ----- committing ----------------------------------------------------------

  /** updateMany where the id and the quantity the edit was computed from match
      and the line is not voided. */
  predicate Hits(l: Line, e: LineEdit) {
    l.id == e.id && l.qty == e.fromQty && Live(l)
  }

  function Rewrite(l: Line, toQty: nat, now: int): Line {
    if toQty == 0 then l.(qty := 0, voidedAt := Some(now)) else l.(qty := toQty)
  }

  function UpdateLines(lines: seq<Line>, e: LineEdit, now: int): seq<Line> {
    seq(|lines|, i requires 0 <= i < |lines| => if Hits(lines[i], e) then Rewrite(lines[i], e.toQty, now) else lines[i])
  }

  /** The transaction's line writes; None is the conflict that rolls it back. */
  function CommitLines(lines: seq<Line>, edits: seq<LineEdit>, now: int): (r: Option<seq<Line>>)
    ensures r.Some? ==> SameRows(lines, r.value)
  {
    if edits == [] then Some(lines)
    else
      var before := CommitLines(lines, edits[..|edits| - 1], now);
      var e := edits[|edits| - 1];
      if before.None? || !(exists l <- before.value :: Hits(l, e)) then None
      else Some(UpdateLines(before.value, e, now))
  }

  function CommitEdit(o: Order, edits: seq<LineEdit>, total: int, now: int): Option<Order> {
    var lines := CommitLines(o.lines, edits, now);
    if lines.None? || !InFlight(o.status) then None else Some(o.(lines := lines.value, total := total))
  }

  /** Plan and commit with nobody in between. */
  predicate EditLands(o: Order, input: seq<Entry>, now: int) {
    var plan := PlanEdit(o, input);
    plan.Planned? && CommitEdit(o, plan.edits, plan.total, now).Some?
  }

  function EditedOrder(o: Order, input: seq<Entry>, now: int): Order {
    if !EditLands(o, input, now) then o
    else
      var plan := PlanEdit(o, input);
      CommitEdit(o, plan.edits, plan.total, now).value
  }

  // ----- what one edit, run on its own, does ----------------------------------

  /** The entry that is actually written to a line: the first that alters it. */
  function WrittenQty(l: Line, input: seq<Entry>): nat {
    if input == [] then l.qty
    else
      var earlier := WrittenQty(l, input[..|input| - 1]);
      if earlier != l.qty then earlier
      else if input[|input| - 1].itemId == l.id then input[|input| - 1].qty else l.qty
  }

  function AfterEdit(l: Line, input: seq<Entry>, now: int): Line {
    if Live(l) && WrittenQty(l, input) != l.qty then Rewrite(l, WrittenQty(l, input), now) else l
  }

  /** No line is altered by two entries: whenever an entry alters a line, every
      earlier entry for that line repeated its quantity. */
  predicate AltersOnce(lines: seq<Line>, input: seq<Entry>)
    requires AllAcceptable(lines, input)
  {
    input == [] ||
    (var init, e := input[..|input| - 1], input[|input| - 1];
     AltersOnce(lines, init) &&
     (Alters(lines, e) ==> WrittenQty(FindLive(lines, e.itemId).value, init) == FindLive(lines, e.itemId).value.qty))
  }

  /** lines, after the entries so far have been written to `was`. */
  predicate Written(was: seq<Line>, lines: seq<Line>, input: seq<Entry>, now: int) {
    |lines| == |was| && forall i | 0 <= i < |was| :: lines[i] == AfterEdit(was[i], input, now)
  }

  lemma FindLiveUnique(lines: seq<Line>, i: nat)
    requires DistinctIds(lines) && i < |lines| && Live(lines[i])
    ensures FindLive(lines, lines[i].id) == Some(lines[i])
  {
  }

  /** One line, one more entry. */
  lemma LineStep(l: Line, init: seq<Entry>, e: Entry, now: int)
    ensures Live(l) && e.itemId == l.id && e.qty != l.qty && WrittenQty(l, init) == l.qty ==>
      AfterEdit(l, init, now) == l && AfterEdit(l, init + [e], now) == Rewrite(l, e.qty, now)
    ensures !Live(l) || e.itemId != l.id || e.qty == l.qty || WrittenQty(l, init) != l.qty ==>
      AfterEdit(l, init + [e], now) == AfterEdit(l, init, now)
  {
    assert (init + [e])[..|init|] == init;
  }

  /** The whole table, one more altering entry. */
  lemma CommitStep(was: seq<Line>, mid: seq<Line>, init: seq<Entry>, e: Entry, now: int)
    requires DistinctIds(was) && Acceptable(was, e) && Alters(was, e) && Written(was, mid, init, now)
    ensures var l := FindLive(was, e.itemId).value;
      var edit := LineEdit(e.itemId, l.qty, e.qty);
      ((exists m <- mid :: Hits(m, edit)) <==> WrittenQty(l, init) == l.qty) &&
      (WrittenQty(l, init) == l.qty ==> Written(was, UpdateLines(mid, edit, now), init + [e], now))
  {
    var l := FindLive(was, e.itemId).value;
    var edit := LineEdit(e.itemId, l.qty, e.qty);
    var at :| 0 <= at < |was| && was[at] == l;
    forall i | 0 <= i < |was|
      ensures Hits(mid[i], edit) <==> i == at && WrittenQty(l, init) == l.qty
      ensures AfterEdit(was[i], init + [e], now) ==
        if i == at && WrittenQty(l, init) == l.qty then Rewrite(l, e.qty, now) else mid[i]
    {
      LineStep(was[i], init, e, now);
      assert i != at ==> was[i].id != e.itemId;
    }
    if WrittenQty(l, init) == l.qty { assert mid[at] in mid; }
  }

  /** An entry repeating a line's quantity plans nothing and changes nothing. */
  lemma RepeatStep(was: seq<Line>, mid: seq<Line>, init: seq<Entry>, e: Entry, now: int)
    requires DistinctIds(was) && Acceptable(was, e) && !Alters(was, e) && Written(was, mid, init, now)
    ensures Written(was, mid, init + [e], now)
  {
    forall i | 0 <= i < |was| ensures AfterEdit(was[i], init + [e], now) == AfterEdit(was[i], init, now) {
      LineStep(was[i], init, e, now);
      if Live(was[i]) { FindLiveUnique(was, i); }
    }
  }

  lemma PlanStep(lines: seq<Line>, init: seq<Entry>, e: Entry)
    requires AllAcceptable(lines, init) && Acceptable(lines, e)
    ensures AllAcceptable(lines, init + [e])
    ensures var q := FindLive(lines, e.itemId).value.qty;
      && EditsFor(lines, init + [e]) ==
         EditsFor(lines, init) + (if Alters(lines, e) then [LineEdit(e.itemId, q, e.qty)] else [])
      && (AltersOnce(lines, init + [e]) <==>
            AltersOnce(lines, init) && (Alters(lines, e) ==> WrittenQty(FindLive(lines, e.itemId).value, init) == q))
  {
    assert (init + [e])[..|init|] == init && (init + [e])[|init|] == e;
    assert forall k | 0 <= k < |init + [e]| :: (init + [e])[k] == if k < |init| then init[k] else e;
  }

  lemma CommitOneMore(lines: seq<Line>, edits: seq<LineEdit>, e: LineEdit, now: int)
    ensures CommitLines(lines, edits + [e], now) ==
      var before := CommitLines(lines, edits, now);
      if before.None? || !(exists l <- before.value :: Hits(l, e)) then None
      else Some(UpdateLines(before.value, e, now))
  {
    assert (edits + [e])[..|edits|] == edits && (edits + [e])[|edits|] == e;
  }

  /** What CommitExact says of one request. */
  predicate Exact(lines: seq<Line>, input: seq<Entry>, now: int)
    requires AllAcceptable(lines, input)
  {
    var after := CommitLines(lines, EditsFor(lines, input), now);
    && (after.Some? <==> AltersOnce(lines, input))
    && (after.Some? ==> Written(lines, after.value, input, now))
  }

  lemma ExactStep(lines: seq<Line>, init: seq<Entry>, e: Entry, now: int)
    requires DistinctIds(lines) && AllAcceptable(lines, init) && Acceptable(lines, e) && Exact(lines, init, now)
    ensures AllAcceptable(lines, init + [e]) && Exact(lines, init + [e], now)
  {
    PlanStep(lines, init, e);
    var edits := EditsFor(lines, init);
    var was := CommitLines(lines, edits, now);
    if Alters(lines, e) {
      CommitOneMore(lines, edits, LineEdit(e.itemId, FindLive(lines, e.itemId).value.qty, e.qty), now);
      if was.Some? { CommitStep(lines, was.value, init, e, now); }
    } else {
      assert edits + [] == edits;
      if was.Some? { RepeatStep(lines, was.value, init, e, now); }
    }
  }

  /** Committing against the order it was planned on succeeds exactly when no
      line is altered twice, and then rewrites exactly the altered lines. */
  lemma {:induction false} CommitExact(lines: seq<Line>, input: seq<Entry>, now: int)
    requires DistinctIds(lines) && AllAcceptable(lines, input)
    ensures CommitLines(lines, EditsFor(lines, input), now).Some? <==> AltersOnce(lines, input)
    ensures AltersOnce(lines, input) ==>
      Written(lines, CommitLines(lines, EditsFor(lines, input), now).value, input, now)
    decreases |input|
  {
    if input != [] {
      var init, e := input[..|input| - 1], input[|input| - 1];
      assert init + [e] == input;
      assert Acceptable(lines, e);
      CommitExact(lines, init, now);
      ExactStep(lines, init, e, now);
    }
  }

  // ----- what a correction does to a line ---------------------------------------

  /** The row a line becomes under a correction: voided if its last portion went. */
  predicate LineKept(was: Line, left: Line, now: int) {
    && left == was.(qty := left.qty, voidedAt := left.voidedAt)
    && (was.voidedAt.None? && left.qty == 0 < was.qty ==> left.voidedAt == Some(now))
    && (left.qty > 0 || was.qty == 0 ==> left.voidedAt == was.voidedAt)
  }

  /** After an edit that lands: a line taken to zero is voided then and there, with
      its price and text kept; any other line keeps its void mark; a voided line is
      left alone. */
  lemma ZeroMeansVoid(o: Order, input: seq<Entry>, now: int, i: nat)
    requires DistinctIds(o.lines) && EditLands(o, input, now) && i < |o.lines|
    ensures |EditedOrder(o, input, now).lines| == |o.lines|
    ensures var was, left := o.lines[i], EditedOrder(o, input, now).lines[i];
      LineKept(was, left, now) && left.qty <= was.qty && (was.voidedAt.Some? ==> left == was)
  {
    CommitExact(o.lines, input, now);
    assert EditedOrder(o, input, now).lines[i] == AfterEdit(o.lines[i], input, now);
    if Live(o.lines[i]) { WrittenOnlyFalls(o.lines, i, input); }
  }

  /** And it does what it was asked: when no line is named twice, each line named has
      the quantity asked for, and every other line is as it was. */
  lemma EditDoesWhatItSays(o: Order, input: seq<Entry>, now: int, i: nat)
    requires DistinctIds(o.lines) && DistinctEntries(input) && PlanEdit(o, input).Planned? && i < |o.lines|
    ensures EditLands(o, input, now) && |EditedOrder(o, input, now).lines| == |o.lines|
    ensures forall k | 0 <= k < |input| ::
      input[k].itemId == o.lines[i].id && o.lines[i].voidedAt.None? ==>
        EditedOrder(o, input, now).lines[i].qty == input[k].qty
    ensures (forall k | 0 <= k < |input| :: input[k].itemId != o.lines[i].id) ==>
      EditedOrder(o, input, now).lines[i] == o.lines[i]
  {
    EditKeepsTotal(o, input, now);
    var l := o.lines[i];
    assert EditedOrder(o, input, now).lines[i] == AfterEdit(l, input, now);
    DistinctEntriesNeverShadow(l, input);
    forall k | 0 <= k < |input| && input[k].itemId == l.id && l.voidedAt.None?
      ensures EditedOrder(o, input, now).lines[i].qty == input[k].qty
    {
      assert FirstNaming(input, k);
      FirstEntryAt(input, k);
    }
    if forall k | 0 <= k < |input| :: input[k].itemId != l.id { NamedByNone(input, l.id); }
  }

  /** Entry e names a line of the order that is not voided, and asks for no more of
      it than there is. */
  predicate Names(lines: seq<Line>, e: Entry) {
    exists i | 0 <= i < |lines| :: lines[i].id == e.itemId && lines[i].voidedAt.None? && e.qty <= lines[i].qty
  }

  predicate Repeats(lines: seq<Line>, e: Entry) {
    exists i | 0 <= i < |lines| :: lines[i].id == e.itemId && lines[i].voidedAt.None? && e.qty == lines[i].qty
  }

  /** Nothing would be left: every line not voided is first named with quantity zero,
      or is not named and has none. */
  predicate Empties(lines: seq<Line>, input: seq<Entry>) {
    forall i | 0 <= i < |lines| && lines[i].voidedAt.None? ::
      (exists k | 0 <= k < |input| :: FirstNaming(input, k) && input[k] == Entry(lines[i].id, 0))
      || (lines[i].qty == 0 && forall k | 0 <= k < |input| :: input[k].itemId != lines[i].id)
  }

  lemma AcceptableMeans(lines: seq<Line>, e: Entry)
    requires DistinctIds(lines)
    ensures Acceptable(lines, e) <==> Names(lines, e)
    ensures Acceptable(lines, e) ==> (Alters(lines, e) <==> !Repeats(lines, e))
  {
    var found := FindLive(lines, e.itemId);
    if found.Some? {
      var i :| 0 <= i < |lines| && lines[i] == found.value;
    } else {
      assert forall i | 0 <= i < |lines| :: lines[i] in lines;
    }
  }

  lemma {:induction false} NoEdits(lines: seq<Line>, input: seq<Entry>)
    requires AllAcceptable(lines, input)
    ensures EditsFor(lines, input) == [] <==> forall k | 0 <= k < |input| :: !Alters(lines, input[k])
  {
    if input != [] {
      var n := |input| - 1;
      NoEdits(lines, input[..n]);
      assert forall k | 0 <= k < n :: input[..n][k] == input[k];
    }
  }

  lemma LeavesMeans(lines: seq<Line>, input: seq<Entry>)
    ensures Leaves(lines, input) <==> !Empties(lines, input)
  {
    forall i | 0 <= i < |lines| && Live(lines[i])
      ensures PlannedQty(lines[i], input) == 0 <==>
        ((exists k | 0 <= k < |input| :: FirstNaming(input, k) && input[k] == Entry(lines[i].id, 0))
         || (lines[i].qty == 0 && forall k | 0 <= k < |input| :: input[k].itemId != lines[i].id))
    {
      PlannedZero(lines[i], input);
    }
    assert forall i | 0 <= i < |lines| :: lines[i] in lines;
  }

  lemma PlannedZero(l: Line, input: seq<Entry>)
    ensures PlannedQty(l, input) == 0 <==>
      ((exists k | 0 <= k < |input| :: FirstNaming(input, k) && input[k] == Entry(l.id, 0))
       || (l.qty == 0 && forall k | 0 <= k < |input| :: input[k].itemId != l.id))
  {
    if FirstEntry(input, l.id).Some? {
      var j := FirstEntryFound(input, l.id);
      assert input[j].itemId == l.id;
      forall k | 0 <= k < |input| && FirstNaming(input, k) && input[k] == Entry(l.id, 0) ensures j == k {
        FirstEntryAt(input, k);
      }
      if input[j].qty == 0 { assert input[j] == Entry(l.id, 0); }
    } else {
      forall k | 0 <= k < |input| ensures input[k].itemId != l.id { NamedBySome(input, l.id, k); }
    }
  }

  /** Which request is refused, and why, in the order's own terms. */
  lemma RefusalsMean(o: Order, input: seq<Entry>)
    requires DistinctIds(o.lines)
    ensures var plan := PlanEdit(o, input);
      var inKitchen := o.status == Received || o.status == Accepted || o.status == Preparing || o.status == Ready;
      var named := forall k | 0 <= k < |input| :: Names(o.lines, input[k]);
      var repeated := forall k | 0 <= k < |input| :: Repeats(o.lines, input[k]);
      && (plan.Refused? <==> !inKitchen || !named || repeated || Empties(o.lines, input))
      && (!inKitchen ==> plan == Refused(NotEditable))
      && (inKitchen && !named ==> plan == Refused(UnknownLine))
      && (inKitchen && named && repeated ==> plan == Refused(NoChange))
      && (inKitchen && named && !repeated && Empties(o.lines, input) ==> plan == Refused(EmptiesOrder))
  {
    forall k | 0 <= k < |input|
      ensures Acceptable(o.lines, input[k]) <==> Names(o.lines, input[k])
      ensures Acceptable(o.lines, input[k]) ==> (Alters(o.lines, input[k]) <==> !Repeats(o.lines, input[k]))
    {
      AcceptableMeans(o.lines, input[k]);
    }
    if AllAcceptable(o.lines, input) { NoEdits(o.lines, input); }
    LeavesMeans(o.lines, input);
  }

  // ----- is the stored total right? --------------------------------------------

  /** The request's first entry for the line repeats its quantity, and a later one
      alters it. */
  predicate Shadowed(l: Line, input: seq<Entry>) {
    exists j, k | 0 <= j < k < |input| ::
      && FirstNaming(input, j) && input[j].itemId == l.id && input[j].qty == l.qty
      && input[k].itemId == l.id && input[k].qty != l.qty
  }

  /** No earlier entry names the line entry j names. */
  predicate FirstNaming(input: seq<Entry>, j: nat)
    requires j < |input|
  {
    forall m | 0 <= m < j :: input[m].itemId != input[j].itemId
  }

  /** The total counts an entry for this line that is not the one written. */
  predicate Mismatched(l: Line, input: seq<Entry>) {
    PlannedQty(l, input) != WrittenQty(l, input)
  }

  lemma {:induction false} FirstEntryAt(input: seq<Entry>, j: nat)
    requires j < |input| && FirstNaming(input, j)
    ensures FirstEntry(input, input[j].itemId) == Some(input[j])
  {
    var n := |input| - 1;
    if j < n {
      assert FirstNaming(input[..n], j);
      FirstEntryAt(input[..n], j);
    } else {
      NamedByNone(input[..n], input[n].itemId);
    }
  }

  lemma {:induction false} NamedByNone(input: seq<Entry>, id: nat)
    requires forall m | 0 <= m < |input| :: input[m].itemId != id
    ensures FirstEntry(input, id).None?
  {
    if input != [] { NamedByNone(input[..|input| - 1], id); }
  }

  lemma {:induction false} FirstEntryFound(input: seq<Entry>, id: nat) returns (j: nat)
    requires FirstEntry(input, id).Some?
    ensures j < |input| && input[j].itemId == id && FirstNaming(input, j) && FirstEntry(input, id) == Some(input[j])
  {
    var n := |input| - 1;
    if FirstEntry(input[..n], id).Some? {
      j := FirstEntryFound(input[..n], id);
    } else {
      j := n;
      forall m | 0 <= m < n ensures input[m].itemId != id { NamedBySome(input[..n], id, m); }
    }
  }

  lemma {:induction false} NamedBySome(input: seq<Entry>, id: nat, m: nat)
    requires m < |input| && FirstEntry(input, id).None?
    ensures input[m].itemId != id
  {
    if m < |input| - 1 { NamedBySome(input[..|input| - 1], id, m); }
  }

  predicate AltersLine(l: Line, e: Entry) { e.itemId == l.id && e.qty != l.qty }

  lemma {:induction false} WrittenAlters(l: Line, input: seq<Entry>)
    ensures WrittenQty(l, input) != l.qty <==> exists k | 0 <= k < |input| :: AltersLine(l, input[k])
  {
    if input != [] {
      var n := |input| - 1;
      WrittenAlters(l, input[..n]);
      assert forall k | 0 <= k < n :: input[..n][k] == input[k];
      if AltersLine(l, input[n]) { assert WrittenQty(l, input) != l.qty; }
    }
  }

  lemma {:induction false} PlannedOrWritten(l: Line, input: seq<Entry>)
    ensures Mismatched(l, input) ==> PlannedQty(l, input) == l.qty != WrittenQty(l, input)
    ensures FirstEntry(input, l.id).None? ==> WrittenQty(l, input) == l.qty
  {
    if input != [] { PlannedOrWritten(l, input[..|input| - 1]); }
  }

  /** The two readings of a request differ on a line exactly when it is shadowed. */
  lemma ShadowedExactly(l: Line, input: seq<Entry>)
    ensures Shadowed(l, input) <==> Mismatched(l, input)
  {
    WrittenAlters(l, input);
    PlannedOrWritten(l, input);
    if Shadowed(l, input) {
      var j, k :| 0 <= j < k < |input| && FirstNaming(input, j) && input[j].itemId == l.id && input[j].qty == l.qty &&
        input[k].itemId == l.id && input[k].qty != l.qty;
      FirstEntryAt(input, j);
      assert AltersLine(l, input[k]);
    }
    if Mismatched(l, input) {
      var k :| 0 <= k < |input| && AltersLine(l, input[k]);
      var j := FirstEntryFound(input, l.id);
      assert FirstNaming(input, j) && input[j].qty == l.qty;
    }
  }

  lemma {:induction false} FirstEntryIn(input: seq<Entry>, id: nat)
    ensures var e := FirstEntry(input, id); e.Some? ==> e.value in input && e.value.itemId == id
  {
    if input != [] { FirstEntryIn(input[..|input| - 1], id); }
  }

  lemma DistinctEntriesNeverShadow(l: Line, input: seq<Entry>)
    requires DistinctEntries(input)
    ensures !Shadowed(l, input) && !Mismatched(l, input)
  {
    ShadowedExactly(l, input);
  }

  predicate DistinctEntries(input: seq<Entry>) {
    forall j, k | 0 <= j < k < |input| :: input[j].itemId != input[k].itemId
  }

  lemma {:induction false} DistinctEntriesAlterOnce(lines: seq<Line>, input: seq<Entry>)
    requires AllAcceptable(lines, input) && DistinctEntries(input)
    ensures AltersOnce(lines, input)
  {
    if input != [] {
      var init, e := input[..|input| - 1], input[|input| - 1];
      DistinctEntriesAlterOnce(lines, init);
      assert Acceptable(lines, e);
      var l := FindLive(lines, e.itemId).value;
      DistinctEntriesNeverShadow(l, init);
      FirstEntryIn(init, l.id);
    }
  }

  lemma {:induction false} WrittenOnlyFalls(lines: seq<Line>, i: nat, input: seq<Entry>)
    requires DistinctIds(lines) && AllAcceptable(lines, input) && i < |lines| && Live(lines[i])
    ensures WrittenQty(lines[i], input) <= lines[i].qty
  {
    if input != [] {
      var init, e := input[..|input| - 1], input[|input| - 1];
      WrittenOnlyFalls(lines, i, init);
      assert Acceptable(lines, e);
      FindLiveUnique(lines, i);
    }
  }

  /** How far the stored total ends up from the lines it was meant to price. */
  function Drift(lines: seq<Line>, input: seq<Entry>): int {
    if lines == [] then 0
    else
      var l := lines[|lines| - 1];
      Drift(lines[..|lines| - 1], input) +
      if Live(l) then l.unitPrice * (PlannedQty(l, input) - WrittenQty(l, input)) else 0
  }

  lemma {:induction false} TotalOffByDrift(was: seq<Line>, lines: seq<Line>, input: seq<Entry>, now: int)
    requires Written(was, lines, input, now)
    ensures PlannedTotal(was, input) == Itemised(lines) + Drift(was, input)
  {
    if was != [] {
      var n := |was| - 1;
      TotalOffByDrift(was[..n], lines[..n], input, now);
      var l := was[n];
      assert lines[n] == AfterEdit(l, input, now);
      assert Live(l) ==> Amount(lines[n]) == l.unitPrice * WrittenQty(l, input);
      Distribute(l.unitPrice, PlannedQty(l, input), WrittenQty(l, input));
    }
  }

  /** The lines whose price the stored total gets wrong. */
  predicate Overcharged(l: Line, input: seq<Entry>) {
    Live(l) && l.unitPrice > 0 && Shadowed(l, input)
  }

  lemma {:induction false} DriftIsShadows(lines: seq<Line>, input: seq<Entry>, n: nat)
    requires DistinctIds(lines) && AllAcceptable(lines, input) && n <= |lines|
    requires forall l <- lines :: l.unitPrice >= 0
    ensures Drift(lines[..n], input) >= 0
    ensures Drift(lines[..n], input) == 0 <==> forall i | 0 <= i < n :: !Overcharged(lines[i], input)
  {
    if n > 0 {
      DriftIsShadows(lines, input, n - 1);
      var l := lines[n - 1];
      assert l in lines;
      assert lines[..n][..n - 1] == lines[..n - 1];
      if Live(l) { LineDrift(lines, input, n - 1); }
    }
  }

  lemma LineDrift(lines: seq<Line>, input: seq<Entry>, i: nat)
    requires DistinctIds(lines) && AllAcceptable(lines, input) && i < |lines| && Live(lines[i])
    requires lines[i].unitPrice >= 0
    ensures var l := lines[i];
      var drift := l.unitPrice * (PlannedQty(l, input) - WrittenQty(l, input));
      drift >= 0 && (drift == 0 <==> !Overcharged(l, input))
  {
    var l := lines[i];
    WrittenOnlyFalls(lines, i, input);
    PlannedOrWritten(l, input);
    ShadowedExactly(l, input);
    if l.unitPrice > 0 { PositiveProduct(l.unitPrice, PlannedQty(l, input) - WrittenQty(l, input)); }
  }

  lemma Distribute(a: int, b: int, c: int)
    ensures a * b == a * c + a * (b - c)
  {
  }

  lemma PositiveProduct(a: int, b: int)
    requires a > 0 && b >= 0
    ensures a * b >= 0 && (a * b == 0 <==> b == 0)
  {
  }

  lemma {:induction false} NoDriftWithoutShadows(lines: seq<Line>, input: seq<Entry>)
    requires forall l <- lines :: !Mismatched(l, input)
    ensures Drift(lines, input) == 0
  {
    if lines != [] {
      assert lines[|lines| - 1] in lines;
      NoDriftWithoutShadows(lines[..|lines| - 1], input);
    }
  }

  lemma LinesKeepTotal(lines: seq<Line>, input: seq<Entry>, now: int)
    requires DistinctIds(lines) && AllAcceptable(lines, input) && DistinctEntries(input)
    ensures var after := CommitLines(lines, EditsFor(lines, input), now);
      after.Some? && Written(lines, after.value, input, now) && PlannedTotal(lines, input) == Itemised(after.value)
  {
    DistinctEntriesAlterOnce(lines, input);
    CommitExact(lines, input, now);
    forall l <- lines ensures !Mismatched(l, input) { DistinctEntriesNeverShadow(l, input); }
    NoDriftWithoutShadows(lines, input);
    TotalOffByDrift(lines, CommitLines(lines, EditsFor(lines, input), now).value, input, now);
  }

  /** A request naming each line at most once, committed against the order it was
      planned on, never conflicts, leaves something on the order, and stores the
      itemised price of the lines it leaves. */
  lemma EditKeepsTotal(o: Order, input: seq<Entry>, now: int)
    requires DistinctIds(o.lines) && DistinctEntries(input) && PlanEdit(o, input).Planned?
    ensures var plan := PlanEdit(o, input);
      var after := CommitEdit(o, plan.edits, plan.total, now);
      && after.Some?
      && Written(o.lines, after.value.lines, input, now)
      && after.value.total == Itemised(after.value.lines)
      && (exists l <- after.value.lines :: Live(l) && l.qty > 0)
      && after.value == o.(lines := after.value.lines, total := after.value.total)
  {
    LinesKeepTotal(o.lines, input, now);
    LeavesSomething(o.lines, CommitLines(o.lines, EditsFor(o.lines, input), now).value, input, now);
  }

  lemma LeavesSomething(was: seq<Line>, lines: seq<Line>, input: seq<Entry>, now: int)
    requires Written(was, lines, input, now) && DistinctEntries(input) && Leaves(was, input)
    ensures exists l <- lines :: Live(l) && l.qty > 0
  {
    var i :| 0 <= i < |was| && Live(was[i]) && PlannedQty(was[i], input) > 0;
    DistinctEntriesNeverShadow(was[i], input);
    assert lines[i] == AfterEdit(was[i], input, now);
    assert lines[i] in lines && Live(lines[i]) && lines[i].qty > 0;
  }

  /** When entries may repeat a line, the committed total is right exactly when
      the drift is zero; and with no negative price, exactly when no line that
      costs anything is shadowed. */
  lemma TotalRightExactly(o: Order, input: seq<Entry>, now: int)
    requires DistinctIds(o.lines) && PlanEdit(o, input).Planned?
    requires CommitEdit(o, PlanEdit(o, input).edits, PlanEdit(o, input).total, now).Some?
    ensures var after := CommitEdit(o, PlanEdit(o, input).edits, PlanEdit(o, input).total, now).value;
      && (after.total == Itemised(after.lines) <==> Drift(o.lines, input) == 0)
      && ((forall l <- o.lines :: l.unitPrice >= 0) ==>
            (after.total == Itemised(after.lines) <==> forall l <- o.lines :: !Overcharged(l, input)))
  {
    CommitExact(o.lines, input, now);
    TotalOffByDrift(o.lines, CommitLines(o.lines, EditsFor(o.lines, input), now).value, input, now);
    if forall l <- o.lines :: l.unitPrice >= 0 { NoDriftExactly(o.lines, input); }
  }

  lemma NoDriftExactly(lines: seq<Line>, input: seq<Entry>)
    requires DistinctIds(lines) && AllAcceptable(lines, input)
    requires forall l <- lines :: l.unitPrice >= 0
    ensures Drift(lines, input) == 0 <==> forall l <- lines :: !Overcharged(l, input)
  {
    DriftIsShadows(lines, input, |lines|);
    assert lines[..|lines|] == lines;
    assert forall i | 0 <= i < |lines| :: lines[i] in lines;
  }

  /** The failing family is not empty: for any live line, a request that says first
      its quantity and then fewer commits, and the order goes on charging for all
      of it. */
  lemma ShadowedTotalWitness(l: Line, fewer: nat) returns (o: Order, input: seq<Entry>, after: Order)
    requires Live(l) && 0 < fewer < l.qty
    ensures o.lines == [l] && o.total == Itemised(o.lines)
    ensures PlanEdit(o, input).Planned?
    ensures CommitEdit(o, PlanEdit(o, input).edits, PlanEdit(o, input).total, 0) == Some(after)
    ensures after.total == l.unitPrice * l.qty && Itemised(after.lines) == l.unitPrice * fewer
  {
    input := [Entry(l.id, l.qty), Entry(l.id, fewer)];
    o := Order(0, 0, 0, Accepted, None, l.unitPrice * l.qty, false, 0, [l]);
    OneLinePlans(l, l.unitPrice * l.qty);
    RepeatPlanned(o, l, fewer, input);
    var edit := LineEdit(l.id, l.qty, fewer);
    OneWriteLands(l, edit, 0);
    after := o.(lines := [l.(qty := fewer)], total := l.unitPrice * l.qty);
    OneLinePlans(l.(qty := fewer), l.unitPrice * fewer);
  }

  lemma OneWriteLands(l: Line, e: LineEdit, now: int)
    requires Hits(l, e)
    ensures CommitLines([l], [e], now) == Some([Rewrite(l, e.toQty, now)])
  {
    assert [e][..0] == [] && CommitLines([l], [], now) == Some([l]);
    assert l in [l];
    assert UpdateLines([l], e, now) == [Rewrite(l, e.toQty, now)];
  }

  lemma RepeatPlanned(o: Order, l: Line, fewer: nat, input: seq<Entry>)
    requires Live(l) && 0 < fewer < l.qty && InFlight(o.status) && o.lines == [l]
    requires input == [Entry(l.id, l.qty), Entry(l.id, fewer)]
    ensures var plan := PlanEdit(o, input);
      plan.Planned? && plan.edits == [LineEdit(l.id, l.qty, fewer)] && plan.total == l.unitPrice * l.qty
  {
    var repeats, alters := input[0], input[1];
    OneLinePlans(l, l.unitPrice * l.qty);
    assert [] + [repeats] == [repeats] && [repeats] + [alters] == input;
    PlanStep([l], [], repeats);
    PlanStep([l], [repeats], alters);
    RepeatThenAlter(l, repeats, alters);
    assert EditsFor([l], input) == [] + [LineEdit(l.id, l.qty, fewer)];
    assert l in [l] && PlannedQty(l, input) > 0;
    assert PlannedTotal([], input) == 0 && [l][..0] == [];
  }

  lemma OneLinePlans(l: Line, price: int)
    requires Live(l) && price == l.unitPrice * l.qty
    ensures FindLive([l], l.id) == Some(l) && Itemised([l]) == price
  {
    assert [l][..0] == [];
  }

  lemma RepeatThenAlter(l: Line, repeats: Entry, alters: Entry)
    requires repeats.itemId == alters.itemId == l.id && repeats.qty == l.qty != alters.qty
    ensures WrittenQty(l, [repeats]) == l.qty
    ensures PlannedQty(l, [repeats] + [alters]) == l.qty && WrittenQty(l, [repeats] + [alters]) == alters.qty
  {
    var input := [repeats] + [alters];
    assert [repeats][..0] == [] && WrittenQty(l, []) == l.qty;
    assert input[..1] == [repeats] && input[1] == alters;
    assert FirstNaming(input, 0) && input[0] == repeats;
    FirstEntryAt(input, 0);
  }

  // ----- what a correction can still take off ------------------------------------

  /** One portion of line i can go: it costs something, and the order is not left
      empty without it. */
  predicate CanShed(lines: seq<Line>, i: nat)
    requires i < |lines|
  {
    var l := lines[i];
    && Live(l) && l.qty > 0 && l.unitPrice != 0
    && (l.qty >= 2 || exists k | 0 <= k < |lines| && k != i :: Live(lines[k]) && lines[k].qty > 0)
  }

  predicate Sheddable(lines: seq<Line>) {
    exists i | 0 <= i < |lines| :: CanShed(lines, i)
  }

  /** No portion is left for a correction to take. */
  predicate NothingLeft(lines: seq<Line>) {
    forall i | 0 <= i < |lines| :: Live(lines[i]) ==> lines[i].qty == 0
  }

  /** A costly portion can go, or there is something to correct and the stored total
      is wrong as it is. */
  predicate Spoilable(o: Order) {
    Sheddable(o.lines) || (o.total != Itemised(o.lines) && !NothingLeft(o.lines))
  }

  lemma PlannedAlone(l: Line, e: Entry)
    ensures PlannedQty(l, [e]) == if e.itemId == l.id then e.qty else l.qty
  {
    assert [e][..|[e]| - 1] == [] && FirstEntry([], l.id).None?;
  }

  lemma {:induction false} PlannedOneLess(lines: seq<Line>, i: nat, n: nat)
    requires DistinctIds(lines) && i < |lines| && n <= |lines| && Live(lines[i]) && lines[i].qty > 0
    ensures PlannedTotal(lines[..n], [Entry(lines[i].id, lines[i].qty - 1)]) ==
      Itemised(lines[..n]) - if i < n then lines[i].unitPrice else 0
  {
    if n > 0 {
      PlannedOneLess(lines, i, n - 1);
      assert lines[..n][..n - 1] == lines[..n - 1];
      PlannedAlone(lines[n - 1], Entry(lines[i].id, lines[i].qty - 1));
      OneLess(lines[i].unitPrice, lines[i].qty);
    }
  }

  lemma OneLess(price: int, qty: int)
    ensures price * (qty - 1) == price * qty - price
  {
  }

  /** Taking off one such portion lands and changes the total by its price. */
  lemma ShedLands(o: Order, i: nat, now: int)
    requires InFlight(o.status) && DistinctIds(o.lines) && i < |o.lines| && CanShed(o.lines, i)
    requires o.total == Itemised(o.lines)
    ensures var input := [Entry(o.lines[i].id, o.lines[i].qty - 1)];
      && DistinctEntries(input)
      && EditedOrder(o, input, now) ==
         o.(lines := EditedOrder(o, input, now).lines, total := o.total - o.lines[i].unitPrice)
  {
    var input := [Entry(o.lines[i].id, o.lines[i].qty - 1)];
    ShedCommits(o, i, input, now);
    EditedTotal(o, input, now);
    PlannedOneLess(o.lines, i, |o.lines|);
    assert o.lines[..|o.lines|] == o.lines;
  }

  lemma ShedCommits(o: Order, i: nat, input: seq<Entry>, now: int)
    requires InFlight(o.status) && DistinctIds(o.lines) && i < |o.lines| && CanShed(o.lines, i)
    requires input == [Entry(o.lines[i].id, o.lines[i].qty - 1)]
    ensures EditLands(o, input, now)
  {
    ShedPlanned(o, i);
    EditKeepsTotal(o, input, now);
  }

  lemma EditedTotal(o: Order, input: seq<Entry>, now: int)
    requires EditLands(o, input, now)
    ensures EditedOrder(o, input, now) ==
      o.(lines := EditedOrder(o, input, now).lines, total := PlannedTotal(o.lines, input))
  {
  }

  lemma ShedPlanned(o: Order, i: nat)
    requires InFlight(o.status) && DistinctIds(o.lines) && i < |o.lines| && CanShed(o.lines, i)
    ensures var plan := PlanEdit(o, [Entry(o.lines[i].id, o.lines[i].qty - 1)]);
      plan.Planned? && plan.total == PlannedTotal(o.lines, [Entry(o.lines[i].id, o.lines[i].qty - 1)])
  {
    var l := o.lines[i];
    var e := Entry(l.id, l.qty - 1);
    FindLiveUnique(o.lines, i);
    assert [e][..0] == [] && AllAcceptable(o.lines, [e]);
    assert EditsFor(o.lines, [e]) == [] + [LineEdit(l.id, l.qty, l.qty - 1)];
    var k :| 0 <= k < |o.lines| && Live(o.lines[k]) && (if k == i then l.qty >= 2 else o.lines[k].qty > 0);
    PlannedAlone(o.lines[k], e);
    assert o.lines[k] in o.lines && Live(o.lines[k]) && PlannedQty(o.lines[k], [e]) > 0;
  }

  lemma {:induction false} SameAmounts(a: seq<Line>, b: seq<Line>)
    requires |a| == |b| && forall i | 0 <= i < |a| :: Amount(a[i]) == Amount(b[i])
    ensures Itemised(a) == Itemised(b)
  {
    if a != [] { SameAmounts(a[..|a| - 1], b[..|b| - 1]); }
  }

  /** After a correction no line has gained portions. */
  lemma NoLineGrows(was: seq<Line>, lines: seq<Line>, input: seq<Entry>, now: int, i: nat)
    requires DistinctIds(was) && AllAcceptable(was, input) && Written(was, lines, input, now) && i < |was|
    ensures lines[i].unitPrice == was[i].unitPrice
    ensures Live(lines[i]) ==> Live(was[i]) && lines[i].qty <= was[i].qty
    ensures Live(was[i]) && !Live(lines[i]) ==> lines[i].qty == 0 < was[i].qty
    ensures !Live(was[i]) ==> lines[i] == was[i]
  {
    assert lines[i] == AfterEdit(was[i], input, now);
    if Live(was[i]) { WrittenOnlyFalls(was, i, input); }
  }

  lemma FixedAmount(was: seq<Line>, lines: seq<Line>, input: seq<Entry>, now: int, i: nat)
    requires DistinctIds(was) && AllAcceptable(was, input) && Written(was, lines, input, now) && i < |was|
    requires !CanShed(was, i) && exists l <- lines :: Live(l) && l.qty > 0
    ensures Amount(lines[i]) == Amount(was[i])
  {
    NoLineGrows(was, lines, input, now, i);
    if Live(was[i]) && was[i].qty > 0 && was[i].unitPrice != 0 {
      var k :| 0 <= k < |lines| && Live(lines[k]) && lines[k].qty > 0;
      NoLineGrows(was, lines, input, now, k);
    }
  }

  lemma StillCannotShed(was: seq<Line>, lines: seq<Line>, input: seq<Entry>, now: int, i: nat)
    requires DistinctIds(was) && AllAcceptable(was, input) && Written(was, lines, input, now) && i < |was|
    requires CanShed(lines, i)
    ensures CanShed(was, i)
  {
    NoLineGrows(was, lines, input, now, i);
    if lines[i].qty < 2 {
      var k :| 0 <= k < |lines| && k != i && Live(lines[k]) && lines[k].qty > 0;
      NoLineGrows(was, lines, input, now, k);
    }
  }

  lemma PlannedWithin(lines: seq<Line>, i: nat, input: seq<Entry>)
    requires DistinctIds(lines) && AllAcceptable(lines, input) && i < |lines| && Live(lines[i])
    ensures PlannedQty(lines[i], input) <= lines[i].qty
  {
    FindLiveUnique(lines, i);
    FirstEntryIn(input, lines[i].id);
    var e := FirstEntry(input, lines[i].id);
    if e.Some? {
      var k :| 0 <= k < |input| && input[k] == e.value;
      assert Acceptable(lines, input[k]);
    }
  }

  lemma {:induction false} PlannedPrefix(lines: seq<Line>, input: seq<Entry>, n: nat)
    requires n <= |lines|
    requires forall i | 0 <= i < n && Live(lines[i]) ::
      lines[i].unitPrice * PlannedQty(lines[i], input) == lines[i].unitPrice * lines[i].qty
    ensures PlannedTotal(lines[..n], input) == Itemised(lines[..n])
  {
    if n > 0 {
      PlannedPrefix(lines, input, n - 1);
      assert lines[..n][..n - 1] == lines[..n - 1];
    }
  }

  /** If no costly portion can go, a request that leaves something on the order
      plans every costly line as it is. */
  lemma PlannedUnshed(lines: seq<Line>, input: seq<Entry>, i: nat)
    requires DistinctIds(lines) && AllAcceptable(lines, input) && !Sheddable(lines) && Leaves(lines, input)
    requires i < |lines| && Live(lines[i])
    ensures lines[i].unitPrice == 0 || PlannedQty(lines[i], input) == lines[i].qty
  {
    PlannedWithin(lines, i, input);
    if lines[i].unitPrice != 0 && lines[i].qty > 0 {
      assert !CanShed(lines, i);
      var k :| 0 <= k < |lines| && Live(lines[k]) && PlannedQty(lines[k], input) > 0;
      PlannedWithin(lines, k, input);
    }
  }

  lemma UnshedTotal(lines: seq<Line>, input: seq<Entry>)
    requires DistinctIds(lines) && AllAcceptable(lines, input) && !Sheddable(lines) && Leaves(lines, input)
    ensures PlannedTotal(lines, input) == Itemised(lines) && !NothingLeft(lines)
  {
    forall i | 0 <= i < |lines| && Live(lines[i])
      ensures lines[i].unitPrice * PlannedQty(lines[i], input) == lines[i].unitPrice * lines[i].qty
    {
      PlannedUnshed(lines, input, i);
    }
    PlannedPrefix(lines, input, |lines|);
    assert lines[..|lines|] == lines;
    var k :| 0 <= k < |lines| && Live(lines[k]) && PlannedQty(lines[k], input) > 0;
    PlannedWithin(lines, k, input);
  }

  lemma UnshedLines(was: seq<Line>, lines: seq<Line>, input: seq<Entry>, now: int)
    requires DistinctIds(was) && AllAcceptable(was, input) && Written(was, lines, input, now) && !Sheddable(was)
    ensures !Sheddable(lines)
    ensures NothingLeft(lines) || Itemised(lines) == Itemised(was)
  {
    forall i | 0 <= i < |lines| ensures !CanShed(lines, i) {
      if CanShed(lines, i) { StillCannotShed(was, lines, input, now, i); }
    }
    if !NothingLeft(lines) {
      var k :| 0 <= k < |lines| && Live(lines[k]) && lines[k].qty != 0;
      assert lines[k] in lines && lines[k].qty > 0;
      forall i | 0 <= i < |was| ensures Amount(lines[i]) == Amount(was[i]) {
        FixedAmount(was, lines, input, now, i);
      }
      SameAmounts(was, lines);
    }
  }

  lemma EditedShape(o: Order, input: seq<Entry>, now: int)
    requires DistinctIds(o.lines)
    ensures var e := EditedOrder(o, input, now);
      && e == o.(lines := e.lines, total := e.total) && DistinctIds(e.lines)
      && (EditLands(o, input, now) ==>
            && InFlight(o.status) && AllAcceptable(o.lines, input) && Leaves(o.lines, input)
            && Written(o.lines, e.lines, input, now) && e.total == PlannedTotal(o.lines, input))
  {
    if EditLands(o, input, now) {
      CommitExact(o.lines, input, now);
      var e := EditedOrder(o, input, now);
      assert SameRows(o.lines, e.lines);
    }
  }

  /** An order that no correction can spoil keeps its total through every one, even
      one that names a line twice, and stays that way. */
  lemma FixedStays(o: Order, input: seq<Entry>, now: int)
    requires DistinctIds(o.lines) && !Spoilable(o)
    ensures EditedOrder(o, input, now).total == o.total && !Spoilable(EditedOrder(o, input, now))
  {
    EditedShape(o, input, now);
    if EditLands(o, input, now) {
      UnshedTotal(o.lines, input);
      UnshedLines(o.lines, EditedOrder(o, input, now).lines, input, now);
    }
  }

  lemma PlannedAsIs(lines: seq<Line>, i: nat, input: seq<Entry>, k: nat)
    requires DistinctIds(lines) && i < |lines| && k < |lines| && |input| == 2
    requires input[0] == Entry(lines[i].id, lines[i].qty) && input[1].itemId == lines[i].id
    ensures PlannedQty(lines[k], input) == lines[k].qty
  {
    if k == i {
      assert FirstNaming(input, 0);
      FirstEntryAt(input, 0);
    } else {
      NamedByNone(input, lines[k].id);
    }
  }

  lemma RepeatLands(o: Order, i: nat, input: seq<Entry>, now: int)
    requires InFlight(o.status) && DistinctIds(o.lines) && i < |o.lines| && Live(o.lines[i]) && o.lines[i].qty > 0
    requires input == [Entry(o.lines[i].id, o.lines[i].qty), Entry(o.lines[i].id, o.lines[i].qty - 1)]
    ensures EditLands(o, input, now) && EditedOrder(o, input, now).total == Itemised(o.lines)
  {
    var l := o.lines[i];
    RepeatPlans(o.lines, l, i, input);
    CommitExact(o.lines, input, now);
    forall k | 0 <= k < |o.lines| ensures PlannedQty(o.lines[k], input) == o.lines[k].qty {
      PlannedAsIs(o.lines, i, input, k);
    }
    PlannedPrefix(o.lines, input, |o.lines|);
    assert o.lines[..|o.lines|] == o.lines;
    assert l in o.lines && PlannedQty(l, input) > 0;
    EditedTotal(o, input, now);
  }

  lemma RepeatPlans(lines: seq<Line>, l: Line, i: nat, input: seq<Entry>)
    requires DistinctIds(lines) && i < |lines| && lines[i] == l && Live(l) && l.qty > 0
    requires input == [Entry(l.id, l.qty), Entry(l.id, l.qty - 1)]
    ensures AllAcceptable(lines, input) && AltersOnce(lines, input) && EditsFor(lines, input) != []
  {
    FindLiveUnique(lines, i);
    var repeats, alters := input[0], input[1];
    assert [] + [repeats] == [repeats] && [repeats] + [alters] == input;
    PlanStep(lines, [], repeats);
    PlanStep(lines, [repeats], alters);
    RepeatThenAlter(l, repeats, alters);
  }

  /** While the order is in the kitchen, some correction changes its stored total if
      and only if the order is spoilable. */
  lemma SpoilableExactly(o: Order, now: int)
    requires InFlight(o.status) && DistinctIds(o.lines)
    ensures Spoilable(o) <==> exists input: seq<Entry> :: EditedOrder(o, input, now).total != o.total
  {
    if Spoilable(o) {
      var input := SpoilingRequest(o, now);
      assert EditedOrder(o, input, now).total != o.total;
    } else {
      forall input: seq<Entry> ensures EditedOrder(o, input, now).total == o.total { FixedStays(o, input, now); }
    }
  }

  lemma SpoilingRequest(o: Order, now: int) returns (input: seq<Entry>)
    requires InFlight(o.status) && DistinctIds(o.lines) && Spoilable(o)
    ensures EditedOrder(o, input, now).total != o.total
  {
    if o.total == Itemised(o.lines) {
      var i :| 0 <= i < |o.lines| && CanShed(o.lines, i);
      input := [Entry(o.lines[i].id, o.lines[i].qty - 1)];
      ShedLands(o, i, now);
    } else {
      var i :| 0 <= i < |o.lines| && Live(o.lines[i]) && o.lines[i].qty > 0;
      input := [Entry(o.lines[i].id, o.lines[i].qty), Entry(o.lines[i].id, o.lines[i].qty - 1)];
      RepeatLands(o, i, input, now);
    }
  }

  // ----- the running code --------------------------------------------------------

  datatype AuditRow = AuditRow(staffId: nat, changes: seq<LineChange>, afterPrint: bool)

  datatype EditResult =
    | Ok(total: int, changes: seq<LineChange>, afterPrint: bool)
    | Err(error: Refusal)

  /** The loop over the request: look each entry up and collect what changes. */
  method CollectEdits(lines: seq<Line>, input: seq<Entry>)
    returns (ok: bool, edits: seq<LineEdit>, changes: seq<LineChange>)
    ensures ok <==> AllAcceptable(lines, input)
    ensures ok ==> edits == EditsFor(lines, input) && changes == ChangesFor(lines, input) && |changes| == |edits|
  {
    edits, changes := [], [];
    var k := 0;
    while k < |input|
      invariant 0 <= k <= |input|
      invariant AllAcceptable(lines, input[..k])
      invariant edits == EditsFor(lines, input[..k])
      invariant changes == ChangesFor(lines, input[..k])
      invariant |changes| == |edits|
    {
      var e := input[k];
      var found := FindLive(lines, e.itemId);
      if found.None? || e.qty > found.value.qty {
        assert !Acceptable(lines, input[k]);
        return false, [], [];
      }
      assert input[..k + 1][..k] == input[..k];
      assert forall j | 0 <= j < k :: input[..k + 1][j] == input[..k][j];
      if e.qty != found.value.qty {
        changes := changes + [LineChange(found.value.name, found.value.qty, e.qty)];
        edits := edits + [LineEdit(found.value.id, found.value.qty, e.qty)];
      }
      k := k + 1;
    }
    assert input[..k] == input;
    ok := true;
  }

  /** The loop over the order: count what remains and re-price it from the stored
      snapshots. */
  method Reprice(lines: seq<Line>, input: seq<Entry>) returns (remaining: nat, total: int)
    ensures remaining > 0 <==> Leaves(lines, input)
    ensures total == PlannedTotal(lines, input)
  {
    remaining, total := 0, 0;
    var i := 0;
    while i < |lines|
      invariant 0 <= i <= |lines|
      invariant total == PlannedTotal(lines[..i], input)
      invariant remaining > 0 <==> exists j | 0 <= j < i :: Live(lines[j]) && PlannedQty(lines[j], input) > 0
    {
      var l := lines[i];
      assert lines[..i + 1][..i] == lines[..i];
      if Live(l) {
        var entry := FirstEntry(input, l.id);
        var qty := if entry.Some? then entry.value.qty else l.qty;
        if qty > 0 {
          remaining := remaining + 1;
          total := total + l.unitPrice * qty;
        }
      }
      i := i + 1;
    }
    assert lines[..i] == lines;
    assert forall j | 0 <= j < |lines| :: lines[j] in lines;
  }

  /** The read phase, in the source's order of refusals. */
  method PlanFromRead(o: Order, input: seq<Entry>) returns (plan: Plan)
    ensures plan == PlanEdit(o, input)
  {
    if !InFlight(o.status) { return Refused(NotEditable); }
    var ok, edits, changes := CollectEdits(o.lines, input);
    if !ok { return Refused(UnknownLine); }
    if |changes| == 0 { return Refused(NoChange); }
    var remaining, total := Reprice(o.lines, input);
    if remaining == 0 { return Refused(EmptiesOrder); }
    plan := Planned(edits, changes, total);
  }

  /** An order row with its audit trail and the number of tickets it has in the
      outbox. */
  class OrderRecord {
    var venueId: nat
    var order: Order
    var tickets: nat
    var audit: seq<AuditRow>

    constructor (venueId: nat, order: Order)
      ensures this.venueId == venueId && this.order == order && tickets == 0 && audit == []
    {
      this.venueId, this.order, this.tickets, this.audit := venueId, order, 0, [];
    }

    /** One conditional line write; the count says whether it found its line. */
    method UpdateMany(e: LineEdit, now: int) returns (count: nat)
      modifies this`order
      ensures order == old(order).(lines := UpdateLines(old(order).lines, e, now))
      ensures count > 0 <==> exists l <- old(order).lines :: Hits(l, e)
      ensures |order.lines| == |old(order).lines| && forall i | 0 <= i < |order.lines| ::
        var l := old(order).lines[i];
        order.lines[i] ==
          if l.id != e.id || l.qty != e.fromQty || l.voidedAt.Some? then l
          else if e.toQty == 0 then l.(qty := 0, voidedAt := Some(now)) else l.(qty := e.toQty)
    {
      var was := order;
      count := 0;
      var i := 0;
      while i < |was.lines|
        invariant 0 <= i <= |was.lines| == |order.lines|
        invariant order == was.(lines := order.lines)
        invariant forall j | 0 <= j < i ::
          order.lines[j] == if Hits(was.lines[j], e) then Rewrite(was.lines[j], e.toQty, now) else was.lines[j]
        invariant forall j | i <= j < |was.lines| :: order.lines[j] == was.lines[j]
        invariant count > 0 <==> exists j | 0 <= j < i :: Hits(was.lines[j], e)
      {
        var l := order.lines[i];
        if l.id == e.id && l.qty == e.fromQty && l.voidedAt.None? {
          count := count + 1;
          order := order.(lines := order.lines[i :=
            if e.toQty == 0 then l.(qty := 0, voidedAt := Some(now)) else l.(qty := e.toQty)]);
        }
        i := i + 1;
      }
      assert forall j | 0 <= j < i :: was.lines[j] in was.lines;
    }

    /** The transaction: every line write is conditional, then the order's; any
        miss rolls all of them back. */
    method Commit(edits: seq<LineEdit>, changes: seq<LineChange>, total: int, staffId: nat, afterPrint: bool, now: int)
      returns (ok: bool)
      modifies this`order, this`audit
      ensures ok == CommitEdit(old(order), edits, total, now).Some?
      ensures order == if ok then CommitEdit(old(order), edits, total, now).value else old(order)
      ensures audit == if ok then old(audit) + [AuditRow(staffId, changes, afterPrint)] else old(audit)
    {
      var was := order;
      var k := 0;
      while k < |edits|
        invariant 0 <= k <= |edits|
        invariant CommitLines(was.lines, edits[..k], now) == Some(order.lines)
        invariant order == was.(lines := order.lines) && audit == old(audit)
      {
        assert edits[..k + 1][..k] == edits[..k];
        var count := UpdateMany(edits[k], now);
        if count == 0 {
          CommitFailsEarly(was.lines, edits, k + 1, now);
          order := was;
          return false;
        }
        k := k + 1;
      }
      assert edits[..k] == edits;
      if !InFlight(order.status) {
        order := was;
        return false;
      }
      order := order.(total := total);
      audit := audit + [AuditRow(staffId, changes, afterPrint)];
      ok := true;
    }

    /** Plan and commit with nobody writing in between. */
    method Edit(venueId: nat, input: seq<Entry>, staffId: nat, now: int) returns (result: EditResult)
      modifies this`order, this`audit
      ensures venueId != this.venueId ==> result == Err(NotFound)
      ensures venueId == this.venueId && PlanEdit(old(order), input).Refused? ==>
        result == Err(PlanEdit(old(order), input).error)
      ensures venueId == this.venueId && PlanEdit(old(order), input).Planned? ==>
        var plan := PlanEdit(old(order), input);
        var after := CommitEdit(old(order), plan.edits, plan.total, now);
        if after.Some?
        then result == Ok(plan.total, plan.changes, tickets > 0) && order == after.value &&
             audit == old(audit) + [AuditRow(staffId, plan.changes, tickets > 0)]
        else result == Err(Conflict)
      ensures result.Err? ==> order == old(order) && audit == old(audit)
      ensures result.Ok? && DistinctIds(old(order).lines) ==>
        |order.lines| == |old(order).lines| && forall i | 0 <= i < |order.lines| ::
          LineKept(old(order).lines[i], order.lines[i], now)
    {
      if venueId != this.venueId { return Err(NotFound); }
      var plan := PlanFromRead(order, input);
      if plan.Refused? { return Err(plan.error); }
      var afterPrint := tickets > 0;
      var ok := Commit(plan.edits, plan.changes, plan.total, staffId, afterPrint, now);
      result := if ok then Ok(plan.total, plan.changes, afterPrint) else Err(Conflict);
      if ok && DistinctIds(old(order).lines) {
        forall i: nat | i < |old(order).lines| ensures LineKept(old(order).lines[i], order.lines[i], now) {
          ZeroMeansVoid(old(order), input, now, i);
        }
      }
    }
  }

  lemma {:induction false} CommitFailsEarly(lines: seq<Line>, edits: seq<LineEdit>, k: nat, now: int)
    requires k <= |edits| && CommitLines(lines, edits[..k], now).None?
    ensures CommitLines(lines, edits, now).None?
    decreases |edits|
  {
    if k == |edits| {
      assert edits[..k] == edits;
    } else {
      assert edits[..|edits| - 1][..k] == edits[..k];
      CommitFailsEarly(lines, edits[..|edits| - 1], k, now);
    }
  }
}
