/** Any number of staff correcting one order at once. Reading the order and
    committing against it are separate steps; between them anybody may commit,
    and the desk or the customer may move the order on. */
module EditRace {
  import opened Common
  import opened Orders
  import opened OrderEdit

  /** An edit dialog: what it read, what it was asked to do, and what it will
      therefore try to write. asOf counts the line writes committed before it read. */
  datatype Draft = Draft(
    read: Order, asOf: nat, input: seq<Entry>,
    edits: seq<LineEdit>, changes: seq<LineChange>, total: int, pending: bool)

  function DraftOf(o: Order, asOf: nat, input: seq<Entry>): Draft
    requires PlanEdit(o, input).Planned?
  {
    var plan := PlanEdit(o, input);
    Draft(o, asOf, input, plan.edits, plan.changes, plan.total, true)
  }

  /** log is every committed line write, oldest first. */
  datatype State = State(order: Order, drafts: seq<Draft>, log: seq<LineEdit>, audit: seq<AuditRow>)

  datatype Event =
    | Read(input: seq<Entry>)
    | Commit(draft: nat, staffId: nat, afterPrint: bool, now: int)
    | Move(to: Status)

  function Apply(s: State, e: Event): State {
    match e
    case Read(input) =>
      if PlanEdit(s.order, input).Planned? then s.(drafts := s.drafts + [DraftOf(s.order, |s.log|, input)]) else s
    case Commit(d, staffId, afterPrint, now) =>
      if d < |s.drafts| && s.drafts[d].pending then
        var draft := s.drafts[d];
        var after := CommitEdit(s.order, draft.edits, draft.total, now);
        var closed := s.drafts[d := draft.(pending := false)];
        if after.None? then s.(drafts := closed)
        else State(after.value, closed, s.log + draft.edits, s.audit + [AuditRow(staffId, draft.changes, afterPrint)])
      else s
    case Move(to) =>
      // The desk's status change is checked earlier and written by id, so it can
      // land on any status.
      s.(order := s.order.(status := to))
  }

  /** Event e is a commit whose conditional writes all find what they expect. */
  predicate Lands(s: State, e: Event) {
    && e.Commit? && e.draft < |s.drafts| && s.drafts[e.draft].pending
    && CommitEdit(s.order, s.drafts[e.draft].edits, s.drafts[e.draft].total, e.now).Some?
  }

  function Exec(s: State, es: seq<Event>): State
    decreases |es|
  {
    if es == [] then s else Exec(Apply(s, es[0]), es[1..])
  }

  function Placed(o: Order): State {
    State(o, [], [], [])
  }

  // ----- chains ------------------------------------------------------------------

  /** The writes to one line, oldest first. */
  function LineLog(log: seq<LineEdit>, id: nat): seq<LineEdit> {
    if log == [] then []
    else LineLog(log[..|log| - 1], id) + if log[|log| - 1].id == id then [log[|log| - 1]] else []
  }

  /** An unbroken, strictly decreasing chain of writes from one quantity to another. */
  predicate Chain(from: nat, log: seq<LineEdit>, to: nat) {
    if log == [] then from == to
    else
      var last := log[|log| - 1];
      last.toQty == to && last.toQty < last.fromQty && Chain(from, log[..|log| - 1], last.fromQty)
  }

  lemma {:induction false} LineLogAppend(a: seq<LineEdit>, b: seq<LineEdit>, id: nat)
    ensures LineLog(a + b, id) == LineLog(a, id) + LineLog(b, id)
  {
    if b == [] {
      assert a + b == a;
    } else {
      assert (a + b)[..|a + b| - 1] == a + b[..|b| - 1];
      LineLogAppend(a, b[..|b| - 1], id);
    }
  }

  lemma {:induction false} ChainAppend(from: nat, a: seq<LineEdit>, mid: nat, b: seq<LineEdit>, to: nat)
    requires Chain(from, a, mid) && Chain(mid, b, to)
    ensures Chain(from, a + b, to)
  {
    if b == [] {
      assert a + b == a;
    } else {
      assert (a + b)[..|a + b| - 1] == a + b[..|b| - 1];
      ChainAppend(from, a, mid, b[..|b| - 1], b[|b| - 1].fromQty);
    }
  }

  /** Each committed line write starts from the quantity the line then had. */
  lemma {:induction false} CommitChains(lines: seq<Line>, edits: seq<LineEdit>, now: int, i: nat)
    requires CommitLines(lines, edits, now).Some? && i < |lines| && DistinctIds(lines)
    requires forall e <- edits :: e.toQty < e.fromQty
    ensures Chain(lines[i].qty, LineLog(edits, lines[i].id), CommitLines(lines, edits, now).value[i].qty)
    ensures !Live(lines[i]) ==> CommitLines(lines, edits, now).value[i] == lines[i]
    ensures (lines[i].voidedAt.Some? ==> lines[i].qty == 0) ==>
      (CommitLines(lines, edits, now).value[i].voidedAt.Some? ==> CommitLines(lines, edits, now).value[i].qty == 0)
    decreases |edits|
  {
    if edits != [] {
      var init, e := edits[..|edits| - 1], edits[|edits| - 1];
      assert e in edits;
      CommitChains(lines, init, now, i);
      var mid := CommitLines(lines, init, now).value;
      var j :| 0 <= j < |mid| && Hits(mid[j], e);
      assert mid[i].id == lines[i].id && mid[j].id == lines[j].id;
      if e.id == lines[i].id {
        assert i == j;
        var chain := LineLog(init, lines[i].id);
        var log := LineLog(edits, lines[i].id);
        assert log == chain + [e];
        assert log[..|log| - 1] == chain && log[|log| - 1] == e;
        assert mid[i].qty == e.fromQty;
      } else {
        assert LineLog(edits, lines[i].id) == LineLog(init, lines[i].id);
      }
    }
  }

  // ----- what holds in every reachable state --------------------------------------

  function NameOf(lines: seq<Line>, id: nat): string {
    if lines == [] then "" else if lines[0].id == id then lines[0].name else NameOf(lines[1..], id)
  }

  function Described(lines: seq<Line>, edits: seq<LineEdit>): seq<LineChange> {
    seq(|edits|, i requires 0 <= i < |edits| =>
      LineChange(NameOf(lines, edits[i].id), edits[i].fromQty, edits[i].toQty))
  }

  function AllChanges(audit: seq<AuditRow>): seq<LineChange> {
    if audit == [] then [] else AllChanges(audit[..|audit| - 1]) + audit[|audit| - 1].changes
  }

  predicate DraftOk(placed: seq<Line>, d: Draft) {
    && SameRows(placed, d.read.lines)
    && (forall e <- d.edits :: e.toQty < e.fromQty)
    && d.changes == Described(placed, d.edits)
  }

  predicate Inv(placed: seq<Line>, s: State) {
    && DistinctIds(placed) && SameRows(placed, s.order.lines)
    && (forall i | 0 <= i < |placed| :: Chain(placed[i].qty, LineLog(s.log, placed[i].id), s.order.lines[i].qty))
    && (forall i | 0 <= i < |placed| :: s.order.lines[i].voidedAt.Some? ==> s.order.lines[i].qty == 0)
    && (forall d | 0 <= d < |s.drafts| :: DraftOk(placed, s.drafts[d]))
    && AllChanges(s.audit) == Described(placed, s.log)
  }

  lemma {:induction false} NameOfLine(lines: seq<Line>, i: nat)
    requires DistinctIds(lines) && i < |lines|
    ensures NameOf(lines, lines[i].id) == lines[i].name
  {
    if i > 0 { NameOfLine(lines[1..], i - 1); }
  }

  lemma {:induction false} ChangesDescribeEdits(placed: seq<Line>, lines: seq<Line>, input: seq<Entry>)
    requires DistinctIds(placed) && SameRows(placed, lines) && AllAcceptable(lines, input)
    ensures ChangesFor(lines, input) == Described(placed, EditsFor(lines, input))
    decreases |input|
  {
    if input != [] {
      var e := input[|input| - 1];
      ChangesDescribeEdits(placed, lines, input[..|input| - 1]);
      assert Acceptable(lines, e);
      LiveName(placed, lines, e.itemId);
    }
  }

  lemma LiveName(placed: seq<Line>, lines: seq<Line>, id: nat)
    requires DistinctIds(placed) && SameRows(placed, lines) && FindLive(lines, id).Some?
    ensures NameOf(placed, id) == FindLive(lines, id).value.name
  {
    var l := FindLive(lines, id).value;
    var i :| 0 <= i < |lines| && lines[i] == l;
    NameOfLine(placed, i);
  }

  lemma ChainStep(placed: seq<Line>, before: seq<Line>, log: seq<LineEdit>, edits: seq<LineEdit>, now: int, i: nat)
    requires DistinctIds(placed) && SameRows(placed, before) && i < |placed|
    requires CommitLines(before, edits, now).Some?
    requires forall e <- edits :: e.toQty < e.fromQty
    requires Chain(placed[i].qty, LineLog(log, placed[i].id), before[i].qty)
    ensures var after := CommitLines(before, edits, now).value;
      SameRows(placed, after) &&
      Chain(placed[i].qty, LineLog(log + edits, placed[i].id), after[i].qty)
  {
    CommitChains(before, edits, now, i);
    LineLogAppend(log, edits, placed[i].id);
    ChainAppend(placed[i].qty, LineLog(log, placed[i].id), before[i].qty,
                LineLog(edits, placed[i].id), CommitLines(before, edits, now).value[i].qty);
  }

  lemma CommitInv(placed: seq<Line>, s: State, e: Event)
    requires Inv(placed, s) && Lands(s, e)
    ensures Inv(placed, Apply(s, e))
  {
    var d := s.drafts[e.draft];
    assert DraftOk(placed, d);
    var t := Apply(s, e);
    forall i | 0 <= i < |placed|
      ensures SameRows(placed, t.order.lines)
      ensures Chain(placed[i].qty, LineLog(t.log, placed[i].id), t.order.lines[i].qty)
      ensures t.order.lines[i].voidedAt.Some? ==> t.order.lines[i].qty == 0
    {
      ChainStep(placed, s.order.lines, s.log, d.edits, e.now, i);
      CommitChains(s.order.lines, d.edits, e.now, i);
    }
    assert t.audit[..|s.audit|] == s.audit;
    assert Described(placed, s.log + d.edits) == Described(placed, s.log) + Described(placed, d.edits);
  }

  lemma ReadInv(placed: seq<Line>, s: State, input: seq<Entry>)
    requires Inv(placed, s) && PlanEdit(s.order, input).Planned?
    ensures DraftOk(placed, DraftOf(s.order, |s.log|, input))
  {
    ChangesDescribeEdits(placed, s.order.lines, input);
  }

  lemma ApplyInv(placed: seq<Line>, s: State, e: Event)
    requires Inv(placed, s)
    ensures Inv(placed, Apply(s, e))
  {
    if Lands(s, e) { CommitInv(placed, s, e); }
    if e.Read? && PlanEdit(s.order, e.input).Planned? { ReadInv(placed, s, e.input); }
  }

  lemma {:induction false} ExecInv(placed: seq<Line>, s: State, es: seq<Event>)
    requires Inv(placed, s)
    ensures Inv(placed, Exec(s, es))
    decreases |es|
  {
    if es != [] {
      ApplyInv(placed, s, es[0]);
      ExecInv(placed, Apply(s, es[0]), es[1..]);
    }
  }

  /** However the dialogs interleave, the audit rows list exactly the line writes
      that were committed, in order. */
  lemma AuditRowsAreWrites(o: Order, es: seq<Event>)
    requires DistinctIds(o.lines) && (forall l <- o.lines :: Live(l))
    ensures var s := Exec(Placed(o), es); AllChanges(s.audit) == Described(o.lines, s.log)
  {
    RunInv(o, es);
  }

  /** A correction that lands adds the writes its dialog planned, and one audit row for
      them under the member of staff who sent it; any other step adds neither. */
  lemma CommitRecords(s: State, e: Event)
    ensures var t := Apply(s, e);
      && (Lands(s, e) ==>
            && t.log == s.log + s.drafts[e.draft].edits
            && t.audit == s.audit + [AuditRow(e.staffId, s.drafts[e.draft].changes, e.afterPrint)]
            && t.order.total == s.drafts[e.draft].total && t.order.status == s.order.status
            && t.drafts == s.drafts[e.draft := s.drafts[e.draft].(pending := false)])
      && (!Lands(s, e) ==>
            && t.log == s.log && t.audit == s.audit
            && t.order.lines == s.order.lines && t.order.total == s.order.total)
  {
  }

  lemma RunInv(o: Order, es: seq<Event>)
    requires DistinctIds(o.lines) && (forall l <- o.lines :: Live(l))
    ensures Inv(o.lines, Exec(Placed(o), es))
  {
    forall k | 0 <= k < |o.lines| ensures Live(o.lines[k]) { assert o.lines[k] in o.lines; }
    assert Described(o.lines, []) == [];
    ExecInv(o.lines, Placed(o), es);
  }

  /** And every line's committed writes chain, without a gap and strictly downwards,
      from the quantity placed to the current one; a voided line has quantity zero. */
  lemma AuditChain(o: Order, es: seq<Event>, i: nat)
    requires DistinctIds(o.lines) && i < |o.lines|
    requires forall l <- o.lines :: Live(l)
    ensures var s := Exec(Placed(o), es);
      && SameRows(o.lines, s.order.lines)
      && Chain(o.lines[i].qty, LineLog(s.log, o.lines[i].id), s.order.lines[i].qty)
      && (s.order.lines[i].voidedAt.Some? ==> s.order.lines[i].qty == 0)
  {
    RunInv(o, es);
  }

  lemma VoidedStep(placed: seq<Line>, s: State, e: Event, i: nat)
    requires Inv(placed, s) && i < |placed| && !Live(s.order.lines[i])
    ensures |Apply(s, e).order.lines| == |placed| && Apply(s, e).order.lines[i] == s.order.lines[i]
    ensures LineLog(Apply(s, e).log, placed[i].id) == LineLog(s.log, placed[i].id)
  {
    if Lands(s, e) {
      var edits := s.drafts[e.draft].edits;
      CommitChains(s.order.lines, edits, e.now, i);
      LineLogAppend(s.log, edits, placed[i].id);
      ZeroChain(LineLog(edits, placed[i].id), s.order.lines[i].qty);
    }
  }

  /** Once voided, never changed and never written again. */
  lemma {:induction false} VoidedForever(placed: seq<Line>, s: State, es: seq<Event>, i: nat)
    requires Inv(placed, s) && i < |placed| && !Live(s.order.lines[i])
    ensures |Exec(s, es).order.lines| == |placed| && Exec(s, es).order.lines[i] == s.order.lines[i]
    ensures LineLog(Exec(s, es).log, placed[i].id) == LineLog(s.log, placed[i].id)
    decreases |es|
  {
    if es != [] {
      VoidedStep(placed, s, es[0], i);
      ApplyInv(placed, s, es[0]);
      VoidedForever(placed, Apply(s, es[0]), es[1..], i);
    }
  }

  predicate VoidedIsZero(lines: seq<Line>) {
    forall i | 0 <= i < |lines| :: lines[i].voidedAt.Some? <==> lines[i].qty == 0
  }

  lemma {:induction false} CommitVoids(lines: seq<Line>, edits: seq<LineEdit>, now: int)
    requires VoidedIsZero(lines) && CommitLines(lines, edits, now).Some?
    requires forall e <- edits :: e.toQty < e.fromQty
    ensures VoidedIsZero(CommitLines(lines, edits, now).value)
    decreases |edits|
  {
    if edits != [] {
      assert edits[|edits| - 1] in edits;
      CommitVoids(lines, edits[..|edits| - 1], now);
    }
  }

  lemma VoidsStep(placed: seq<Line>, s: State, e: Event)
    requires Inv(placed, s) && VoidedIsZero(s.order.lines)
    ensures VoidedIsZero(Apply(s, e).order.lines)
  {
    if Lands(s, e) {
      assert DraftOk(placed, s.drafts[e.draft]);
      CommitVoids(s.order.lines, s.drafts[e.draft].edits, e.now);
    }
  }

  lemma {:induction false} ExecVoids(placed: seq<Line>, s: State, es: seq<Event>)
    requires Inv(placed, s) && VoidedIsZero(s.order.lines)
    ensures VoidedIsZero(Exec(s, es).order.lines)
    decreases |es|
  {
    if es != [] {
      VoidsStep(placed, s, es[0]);
      ApplyInv(placed, s, es[0]);
      ExecVoids(placed, Apply(s, es[0]), es[1..]);
    }
  }

  /** In every run of corrections to an order placed with live lines of one portion
      or more: a line is voided if and only if no portion of it is left. */
  lemma VoidedExactly(o: Order, es: seq<Event>, i: nat)
    requires DistinctIds(o.lines) && i < |o.lines|
    requires forall l <- o.lines :: l.voidedAt.None? && l.qty > 0
    ensures var lines := Exec(Placed(o), es).order.lines;
      |lines| == |o.lines| && (lines[i].voidedAt.Some? <==> lines[i].qty == 0)
  {
    RunInv(o, es);
    forall k | 0 <= k < |o.lines| ensures o.lines[k].voidedAt.None? && o.lines[k].qty > 0 {
      assert o.lines[k] in o.lines;
    }
    forall k | 0 <= k < |o.lines| ensures Live(o.lines[k]) { assert o.lines[k] in o.lines; }
    assert Described(o.lines, []) == [];
    ExecVoids(o.lines, Placed(o), es);
  }

  /** A strictly decreasing chain back to where it started is empty. */
  lemma ZeroChain(log: seq<LineEdit>, q: nat)
    requires Chain(q, log, q)
    ensures log == []
  {
    if log != [] { ChainFalls(q, log, q); }
  }

  lemma {:induction false} ChainFalls(from: nat, log: seq<LineEdit>, to: nat)
    requires Chain(from, log, to)
    ensures to + |log| <= from
  {
    if log != [] { ChainFalls(from, log[..|log| - 1], log[|log| - 1].fromQty); }
  }

  // ----- the stored total under interleaving ----------------------------------------

  function PriceOf(lines: seq<Line>, id: nat): int {
    if lines == [] then 0 else if lines[0].id == id then lines[0].unitPrice else PriceOf(lines[1..], id)
  }

  lemma {:induction false} PriceOfLine(lines: seq<Line>, i: nat)
    requires DistinctIds(lines) && i < |lines|
    ensures PriceOf(lines, lines[i].id) == lines[i].unitPrice
  {
    if i > 0 { PriceOfLine(lines[1..], i - 1); }
  }

  lemma {:induction false} PriceOfSameRows(a: seq<Line>, b: seq<Line>, id: nat)
    requires SameRows(a, b)
    ensures PriceOf(a, id) == PriceOf(b, id)
  {
    if a != [] { PriceOfSameRows(a[1..], b[1..], id); }
  }

  /** What a list of writes takes off the bill, priced by the order's rows. */
  function Delta(rows: seq<Line>, edits: seq<LineEdit>): int {
    if edits == [] then 0
    else
      var e := edits[|edits| - 1];
      Delta(rows, edits[..|edits| - 1]) + PriceOf(rows, e.id) * (e.toQty - e.fromQty)
  }

  lemma {:induction false} DeltaSameRows(a: seq<Line>, b: seq<Line>, edits: seq<LineEdit>)
    requires SameRows(a, b)
    ensures Delta(a, edits) == Delta(b, edits)
  {
    if edits != [] {
      DeltaSameRows(a, b, edits[..|edits| - 1]);
      PriceOfSameRows(a, b, edits[|edits| - 1].id);
    }
  }

  lemma {:induction false} UpdateMisses(lines: seq<Line>, e: LineEdit, now: int)
    requires forall l <- lines :: !Hits(l, e)
    ensures UpdateLines(lines, e, now) == lines
  {
    assert forall i | 0 <= i < |lines| :: lines[i] in lines;
  }

  /** One conditional write shifts the itemised price by the line's own change. */
  lemma {:induction false} UpdateShifts(lines: seq<Line>, e: LineEdit, now: int, at: nat)
    requires DistinctIds(lines) && at < |lines| && Hits(lines[at], e)
    ensures Itemised(UpdateLines(lines, e, now)) == Itemised(lines) + lines[at].unitPrice * (e.toQty - e.fromQty)
  {
    var n := |lines| - 1;
    var after := UpdateLines(lines, e, now);
    assert after[..n] == UpdateLines(lines[..n], e, now);
    if at < n {
      UpdateShifts(lines[..n], e, now, at);
      assert after[n] == lines[n];
    } else {
      forall l <- lines[..n] ensures !Hits(l, e) {
        var k :| 0 <= k < n && lines[k] == l;
      }
      UpdateMisses(lines[..n], e, now);
      Distribute(lines[n].unitPrice, e.toQty, e.fromQty);
    }
  }

  /** The last write of a commit that went through. */
  lemma LastWrite(lines: seq<Line>, edits: seq<LineEdit>, now: int) returns (mid: seq<Line>, at: nat)
    requires DistinctIds(lines) && edits != [] && CommitLines(lines, edits, now).Some?
    ensures CommitLines(lines, edits[..|edits| - 1], now) == Some(mid)
    ensures CommitLines(lines, edits, now) == Some(UpdateLines(mid, edits[|edits| - 1], now))
    ensures |mid| == |lines| && at < |mid| && Hits(mid[at], edits[|edits| - 1]) && DistinctIds(mid)
    ensures lines[at].id == edits[|edits| - 1].id && mid[at].unitPrice == lines[at].unitPrice
  {
    mid := CommitLines(lines, edits[..|edits| - 1], now).value;
    at :| 0 <= at < |mid| && Hits(mid[at], edits[|edits| - 1]);
  }

  lemma WriteShifts(rows: seq<Line>, lines: seq<Line>, e: LineEdit, now: int, at: nat)
    requires DistinctIds(lines) && at < |lines| && Hits(lines[at], e)
    requires DistinctIds(rows) && |rows| == |lines| && rows[at].id == e.id && rows[at].unitPrice == lines[at].unitPrice
    ensures Itemised(UpdateLines(lines, e, now)) == Itemised(lines) + PriceOf(rows, e.id) * (e.toQty - e.fromQty)
  {
    UpdateShifts(lines, e, now, at);
    PriceOfLine(rows, at);
  }

  lemma LastWriteShifts(lines: seq<Line>, edits: seq<LineEdit>, now: int)
    requires DistinctIds(lines) && edits != [] && CommitLines(lines, edits, now).Some?
    ensures CommitLines(lines, edits[..|edits| - 1], now).Some?
    ensures var e := edits[|edits| - 1];
      Itemised(CommitLines(lines, edits, now).value) ==
      Itemised(CommitLines(lines, edits[..|edits| - 1], now).value) + PriceOf(lines, e.id) * (e.toQty - e.fromQty)
  {
    var mid, at := LastWrite(lines, edits, now);
    WriteShifts(lines, mid, edits[|edits| - 1], now, at);
  }

  lemma {:induction false} CommitShifts(lines: seq<Line>, edits: seq<LineEdit>, now: int)
    requires DistinctIds(lines) && CommitLines(lines, edits, now).Some?
    ensures Itemised(CommitLines(lines, edits, now).value) == Itemised(lines) + Delta(lines, edits)
    decreases |edits|
  {
    if edits != [] {
      LastWriteShifts(lines, edits, now);
      CommitShifts(lines, edits[..|edits| - 1], now);
    }
  }

  // ----- a plan that lands alters each line once ----------------------------------------

  lemma {:induction false} LoggedAbove(from: nat, log: seq<LineEdit>, to: nat, e: LineEdit)
    requires Chain(from, log, to) && e in log
    ensures to < e.fromQty
  {
    var init, last := log[..|log| - 1], log[|log| - 1];
    assert log == init + [last];
    if e in init { LoggedAbove(from, init, last.fromQty, e); }
  }

  lemma {:induction false} InLineLog(log: seq<LineEdit>, e: LineEdit)
    requires e in log
    ensures e in LineLog(log, e.id)
  {
    var init, last := log[..|log| - 1], log[|log| - 1];
    assert log == init + [last];
    if e in init { InLineLog(init, e); }
  }

  /** A line whose written quantity differs has been planned a write. */
  lemma {:induction false} WriteIsPlanned(lines: seq<Line>, input: seq<Entry>, id: nat) returns (e: LineEdit)
    requires AllAcceptable(lines, input) && FindLive(lines, id).Some?
    requires WrittenQty(FindLive(lines, id).value, input) != FindLive(lines, id).value.qty
    ensures e in EditsFor(lines, input) && e.id == id && e.fromQty == FindLive(lines, id).value.qty
  {
    var l := FindLive(lines, id).value;
    var init, last := input[..|input| - 1], input[|input| - 1];
    if WrittenQty(l, init) != l.qty {
      e := WriteIsPlanned(lines, init, id);
      assert e in EditsFor(lines, init);
    } else {
      e := LineEdit(id, l.qty, last.qty);
      assert EditsFor(lines, input) == EditsFor(lines, init) + [e];
    }
  }

  /** Two writes from the same quantity of one line cannot both land, whatever the
      order has become since it was read. */
  lemma {:induction false} LandsAltersOnce(read: seq<Line>, current: seq<Line>, input: seq<Entry>, now: int)
    requires DistinctIds(read) && SameRows(read, current) && AllAcceptable(read, input)
    requires CommitLines(current, EditsFor(read, input), now).Some?
    ensures AltersOnce(read, input)
    decreases |input|
  {
    if input != [] {
      OnceStep(read, current, input, now);
      LandsAltersOnce(read, current, input[..|input| - 1], now);
    }
  }

  lemma OnceStep(read: seq<Line>, current: seq<Line>, input: seq<Entry>, now: int)
    requires DistinctIds(read) && SameRows(read, current) && AllAcceptable(read, input) && input != []
    requires CommitLines(current, EditsFor(read, input), now).Some?
    ensures var init := input[..|input| - 1];
      && AllAcceptable(read, init) && CommitLines(current, EditsFor(read, init), now).Some?
      && (AltersOnce(read, input) <==> AltersOnce(read, init))
  {
    var init, e := input[..|input| - 1], input[|input| - 1];
    assert input == init + [e] && Acceptable(read, e);
    PlanStep(read, init, e);
    var edits := EditsFor(read, init);
    if Alters(read, e) {
      CommitOneMore(current, edits, LineEdit(e.itemId, FindLive(read, e.itemId).value.qty, e.qty), now);
      AlteredOnce(read, current, init, e, now);
    } else {
      assert edits + [] == edits;
    }
  }

  lemma AlteredOnce(read: seq<Line>, current: seq<Line>, init: seq<Entry>, e: Entry, now: int)
    requires DistinctIds(read) && SameRows(read, current) && AllAcceptable(read, init)
    requires Acceptable(read, e) && Alters(read, e)
    requires CommitLines(current, EditsFor(read, init), now).Some?
    requires var l := FindLive(read, e.itemId).value;
      exists m <- CommitLines(current, EditsFor(read, init), now).value :: Hits(m, LineEdit(e.itemId, l.qty, e.qty))
    ensures var l := FindLive(read, e.itemId).value; WrittenQty(l, init) == l.qty
  {
    var l := FindLive(read, e.itemId).value;
    if WrittenQty(l, init) != l.qty {
      var before := WriteIsPlanned(read, init, e.itemId);
      var edits := EditsFor(read, init);
      var mid := CommitLines(current, edits, now).value;
      var i :| 0 <= i < |mid| && Hits(mid[i], LineEdit(e.itemId, l.qty, e.qty));
      CommitChains(current, edits, now, i);
      assert current[i].id == mid[i].id == before.id;
      InLineLog(edits, before);
      LoggedAbove(current[i].qty, LineLog(edits, before.id), mid[i].qty, before);
      assert false;
    }
  }

  // ----- is the stored total right? -----------------------------------------------------

  /** The stored total of a plan that lands on a newer order: off by the plan's own
      drift, and by whatever the order lost in between. */
  lemma CommitTotalOff(read: seq<Line>, current: seq<Line>, input: seq<Entry>, now: int)
    requires DistinctIds(read) && SameRows(read, current) && AllAcceptable(read, input)
    requires CommitLines(current, EditsFor(read, input), now).Some?
    ensures PlannedTotal(read, input) - Itemised(CommitLines(current, EditsFor(read, input), now).value)
      == Drift(read, input) + Itemised(read) - Itemised(current)
  {
    var edits := EditsFor(read, input);
    LandsAltersOnce(read, current, input, now);
    CommitExact(read, input, now);
    TotalOffByDrift(read, CommitLines(read, edits, now).value, input, now);
    CommitShifts(read, edits, now);
    CommitShifts(current, edits, now);
    DeltaSameRows(read, current, edits);
  }

  lemma {:induction false} DeltaAppend(rows: seq<Line>, a: seq<LineEdit>, b: seq<LineEdit>)
    ensures Delta(rows, a + b) == Delta(rows, a) + Delta(rows, b)
  {
    if b == [] {
      assert a + b == a;
    } else {
      assert (a + b)[..|a + b| - 1] == a + b[..|b| - 1];
      DeltaAppend(rows, a, b[..|b| - 1]);
    }
  }

  /** A dialog's plan is the one its read and its request call for. */
  predicate Derived(d: Draft) {
    PlanEdit(d.read, d.input).Planned? && d == DraftOf(d.read, d.asOf, d.input).(pending := d.pending)
  }

  /** What the writes since a dialog's read have taken off the order. */
  predicate Lowered(placed: seq<Line>, s: State, d: Draft) {
    d.asOf <= |s.log| && Itemised(s.order.lines) == Itemised(d.read.lines) + Delta(placed, s.log[d.asOf..])
  }

  predicate ReadOk(placed: seq<Line>, s: State, d: Draft) {
    Derived(d) && Lowered(placed, s, d)
  }

  predicate ReadsOk(placed: seq<Line>, s: State) {
    forall d | 0 <= d < |s.drafts| :: ReadOk(placed, s, s.drafts[d])
  }

  lemma LandsStores(s: State, e: Event)
    requires Lands(s, e)
    ensures CommitLines(s.order.lines, s.drafts[e.draft].edits, e.now) == Some(Apply(s, e).order.lines)
    ensures Apply(s, e).order.total == s.drafts[e.draft].total
    ensures Apply(s, e).log == s.log + s.drafts[e.draft].edits
  {
  }

  lemma LandingShifts(placed: seq<Line>, s: State, e: Event)
    requires Inv(placed, s) && Lands(s, e)
    ensures Itemised(Apply(s, e).order.lines) == Itemised(s.order.lines) + Delta(placed, s.drafts[e.draft].edits)
  {
    LandsStores(s, e);
    CommitShifts(s.order.lines, s.drafts[e.draft].edits, e.now);
    DeltaSameRows(placed, s.order.lines, s.drafts[e.draft].edits);
  }

  lemma ReadSurvives(placed: seq<Line>, s: State, t: State, d: Draft, edits: seq<LineEdit>)
    requires Lowered(placed, s, d) && t.log == s.log + edits
    requires Itemised(t.order.lines) == Itemised(s.order.lines) + Delta(placed, edits)
    ensures Lowered(placed, t, d)
  {
    assert t.log[d.asOf..] == s.log[d.asOf..] + edits;
    DeltaAppend(placed, s.log[d.asOf..], edits);
  }

  lemma ApplyReads(placed: seq<Line>, s: State, e: Event)
    requires Inv(placed, s) && ReadsOk(placed, s)
    ensures ReadsOk(placed, Apply(s, e))
  {
    var t := Apply(s, e);
    forall d | 0 <= d < |t.drafts| ensures ReadOk(placed, t, t.drafts[d]) {
      if d < |s.drafts| { ReadKept(placed, s, e, d); } else { JustRead(placed, s, e); }
    }
  }

  lemma ReadKept(placed: seq<Line>, s: State, e: Event, d: nat)
    requires Inv(placed, s) && ReadsOk(placed, s) && d < |s.drafts|
    ensures d < |Apply(s, e).drafts| && ReadOk(placed, Apply(s, e), Apply(s, e).drafts[d])
  {
    assert ReadOk(placed, s, s.drafts[d]);
    LoweredKept(placed, s, e, s.drafts[d]);
    DraftKept(s, e, d);
    DerivedClosed(s.drafts[d]);
  }

  lemma DraftKept(s: State, e: Event, d: nat)
    requires d < |s.drafts|
    ensures var t := Apply(s, e);
      d < |t.drafts| && (t.drafts[d] == s.drafts[d] || t.drafts[d] == s.drafts[d].(pending := false))
  {
  }

  lemma DerivedClosed(d: Draft)
    requires Derived(d)
    ensures Derived(d.(pending := false))
  {
  }

  lemma LoweredKept(placed: seq<Line>, s: State, e: Event, d: Draft)
    requires Inv(placed, s) && Lowered(placed, s, d)
    ensures Lowered(placed, Apply(s, e), d)
  {
    if Lands(s, e) {
      LandingShifts(placed, s, e);
      LandsStores(s, e);
      ReadSurvives(placed, s, Apply(s, e), d, s.drafts[e.draft].edits);
    } else {
      assert Apply(s, e).log == s.log && Apply(s, e).order.lines == s.order.lines;
    }
  }

  lemma JustRead(placed: seq<Line>, s: State, e: Event)
    requires e.Read? && PlanEdit(s.order, e.input).Planned?
    ensures ReadOk(placed, Apply(s, e), DraftOf(s.order, |s.log|, e.input))
  {
    assert s.log[|s.log|..] == [];
  }

  lemma {:induction false} ExecReads(placed: seq<Line>, s: State, es: seq<Event>)
    requires Inv(placed, s) && ReadsOk(placed, s)
    ensures ReadsOk(placed, Exec(s, es))
    decreases |es|
  {
    if es != [] {
      ApplyReads(placed, s, es[0]);
      ApplyInv(placed, s, es[0]);
      ExecReads(placed, Apply(s, es[0]), es[1..]);
    }
  }

  lemma DraftFacts(placed: seq<Line>, s: State, d: nat)
    requires Inv(placed, s) && ReadsOk(placed, s) && d < |s.drafts|
    ensures var draft := s.drafts[d];
      && DistinctIds(draft.read.lines) && SameRows(draft.read.lines, s.order.lines)
      && AllAcceptable(draft.read.lines, draft.input)
      && draft.edits == EditsFor(draft.read.lines, draft.input)
      && draft.total == PlannedTotal(draft.read.lines, draft.input)
      && draft.asOf <= |s.log|
      && Itemised(s.order.lines) == Itemised(draft.read.lines) + Delta(placed, s.log[draft.asOf..])
  {
    assert ReadOk(placed, s, s.drafts[d]) && DraftOk(placed, s.drafts[d]);
  }

  lemma StoredTotalStep(placed: seq<Line>, s: State, e: Event)
    requires Inv(placed, s) && ReadsOk(placed, s) && Lands(s, e)
    ensures var d := s.drafts[e.draft]; var t := Apply(s, e);
      && d.asOf <= |s.log|
      && t.order.total - Itemised(t.order.lines) == Drift(d.read.lines, d.input) - Delta(placed, s.log[d.asOf..])
  {
    var d := s.drafts[e.draft];
    DraftFacts(placed, s, e.draft);
    CommitTotalOff(d.read.lines, s.order.lines, d.input, e.now);
    LandsStores(s, e);
  }

  /** In every run, whatever the prices and the requests: the total a committing
      dialog stores is off by its own drift and by what other corrections have
      taken off since it read, and so is right exactly when the two cancel out. */
  lemma StoredTotalExactly(o: Order, es: seq<Event>, e: Event)
    requires DistinctIds(o.lines) && (forall l <- o.lines :: Live(l))
    requires Lands(Exec(Placed(o), es), e)
    ensures var s := Exec(Placed(o), es); var t := Apply(s, e); var d := s.drafts[e.draft];
      && d.asOf <= |s.log|
      && t.order.total - Itemised(t.order.lines) == Drift(d.read.lines, d.input) - Delta(o.lines, s.log[d.asOf..])
      && (t.order.total == Itemised(t.order.lines) <==>
            Drift(d.read.lines, d.input) == Delta(o.lines, s.log[d.asOf..]))
  {
    RunReads(o, es);
    StoredTotalStep(o.lines, Exec(Placed(o), es), e);
  }

  lemma RunReads(o: Order, es: seq<Event>)
    requires DistinctIds(o.lines) && (forall l <- o.lines :: Live(l))
    ensures Inv(o.lines, Exec(Placed(o), es)) && ReadsOk(o.lines, Exec(Placed(o), es))
  {
    RunInv(o, []);
    RunInv(o, es);
    ExecReads(o.lines, Placed(o), es);
  }

  lemma {:induction false} DeltaZero(rows: seq<Line>, edits: seq<LineEdit>)
    requires (forall e <- edits :: e.toQty < e.fromQty) && (forall l <- rows :: l.unitPrice >= 0)
    ensures Delta(rows, edits) <= 0
    ensures Delta(rows, edits) == 0 <==> forall e <- edits :: PriceOf(rows, e.id) == 0
  {
    if edits != [] {
      var init, e := edits[..|edits| - 1], edits[|edits| - 1];
      assert edits == init + [e] && e in edits;
      DeltaZero(rows, init);
      PriceNotNegative(rows, e.id);
      Falls(PriceOf(rows, e.id), e.toQty - e.fromQty);
    }
  }

  lemma {:induction false} PriceNotNegative(rows: seq<Line>, id: nat)
    requires forall l <- rows :: l.unitPrice >= 0
    ensures PriceOf(rows, id) >= 0
  {
    if rows != [] {
      assert rows[0] in rows;
      PriceNotNegative(rows[1..], id);
    }
  }

  lemma Falls(price: int, step: int)
    requires price >= 0 && step < 0
    ensures price * step <= 0 && (price * step == 0 <==> price == 0)
  {
  }

  lemma {:induction false} LogFalls(s: State, es: seq<Event>)
    requires forall e <- s.log :: e.toQty < e.fromQty
    requires forall d | 0 <= d < |s.drafts| :: forall e <- s.drafts[d].edits :: e.toQty < e.fromQty
    ensures forall e <- Exec(s, es).log :: e.toQty < e.fromQty
    decreases |es|
  {
    if es != [] {
      var t := Apply(s, es[0]);
      if Lands(s, es[0]) { LandsStores(s, es[0]); }
      forall d | 0 <= d < |t.drafts| ensures forall e <- t.drafts[d].edits :: e.toQty < e.fromQty { }
      LogFalls(t, es[1..]);
    }
  }

  /** With no negative price, and a request that names each line at most once: the
      stored total is right exactly when every write that landed since the dialog's
      read was to a line that costs nothing. */
  lemma StoredTotalByWrites(o: Order, es: seq<Event>, e: Event)
    requires DistinctIds(o.lines) && (forall l <- o.lines :: Live(l) && l.unitPrice >= 0)
    requires Lands(Exec(Placed(o), es), e) && DistinctEntries(Exec(Placed(o), es).drafts[e.draft].input)
    ensures var s := Exec(Placed(o), es); var t := Apply(s, e); var d := s.drafts[e.draft];
      && d.asOf <= |s.log|
      && (t.order.total == Itemised(t.order.lines) <==>
            forall w <- s.log[d.asOf..] :: PriceOf(o.lines, w.id) == 0)
  {
    StoredTotalExactly(o, es, e);
    var s := Exec(Placed(o), es);
    var d := s.drafts[e.draft];
    forall l <- d.read.lines ensures !Mismatched(l, d.input) { DistinctEntriesNeverShadow(l, d.input); }
    NoDriftWithoutShadows(d.read.lines, d.input);
    LogFalls(Placed(o), es);
    DeltaZero(o.lines, s.log[d.asOf..]);
  }

  /** Any two live lines of two portions or more: two staff take one portion off
      each, both having read before either commits. Both succeed, and the order is
      left charging for one portion that is no longer on it. */
  lemma StaleTotalWitness(a: Line, b: Line) returns (o: Order, es: seq<Event>)
    requires Live(a) && Live(b) && a.id != b.id && a.qty >= 2 && b.qty >= 2
    ensures o.lines == [a, b] && o.total == Itemised(o.lines)
    ensures |Exec(Placed(o), es).audit| == 2
    ensures Exec(Placed(o), es).order.total == Itemised(Exec(Placed(o), es).order.lines) + a.unitPrice
  {
    o := Order(0, 0, 0, Accepted, None, a.unitPrice * a.qty + b.unitPrice * b.qty, false, 0, [a, b]);
    TwoLines(a, b);
    var lessA, lessB := Entry(a.id, a.qty - 1), Entry(b.id, b.qty - 1);
    es := [Read([lessA]), Read([lessB]), Commit(0, 7, false, 0), Commit(1, 8, false, 0)];
    StaleTotalRun(o, a, b, es);
    OneLess(a.unitPrice, a.qty);
  }

  lemma StaleTotalRun(o: Order, a: Line, b: Line, es: seq<Event>)
    requires Live(a) && Live(b) && a.id != b.id && a.qty >= 2 && b.qty >= 2
    requires o.lines == [a, b] && o.status == Accepted
    requires |es| == 4 && es[0] == Read([Entry(a.id, a.qty - 1)]) && es[1] == Read([Entry(b.id, b.qty - 1)])
    requires es[2] == Commit(0, 7, false, 0) && es[3] == Commit(1, 8, false, 0)
    ensures var t := Exec(Placed(o), es);
      && |t.audit| == 2
      && t.order.total == a.unitPrice * a.qty + b.unitPrice * (b.qty - 1)
      && Itemised(t.order.lines) == a.unitPrice * (a.qty - 1) + b.unitPrice * (b.qty - 1)
  {
    var read := BothConsult(o, a, b, es);
    BothTakeOne(read, a, b, es[2..]);
  }

  lemma {:induction false} BothTakeOne(read: State, a: Line, b: Line, es: seq<Event>)
    requires Live(a) && Live(b) && a.id != b.id && a.qty >= 2 && b.qty >= 2
    requires read.order.lines == [a, b] && read.order.status == Accepted && read.audit == []
    requires |read.drafts| == 2 && read.drafts[0].pending && read.drafts[1].pending
    requires read.drafts[0].edits == [LineEdit(a.id, a.qty, a.qty - 1)]
    requires read.drafts[1].edits == [LineEdit(b.id, b.qty, b.qty - 1)]
    requires |es| == 2 && es[0] == Commit(0, 7, false, 0) && es[1] == Commit(1, 8, false, 0)
    ensures var t := Exec(read, es);
      && |t.audit| == 2 && t.order.total == read.drafts[1].total
      && Itemised(t.order.lines) == a.unitPrice * (a.qty - 1) + b.unitPrice * (b.qty - 1)
  {
    var fewerA, fewerB := a.(qty := a.qty - 1), b.(qty := b.qty - 1);
    var editA, editB := LineEdit(a.id, a.qty, a.qty - 1), LineEdit(b.id, b.qty, b.qty - 1);
    BothCommit(read, editA, editB, [fewerA, b], [fewerA, fewerB]);
    FirstTwo(read, es, Apply(Apply(read, es[0]), es[1]));
    assert es[2..] == [];
    TwoLines(fewerA, fewerB);
  }

  lemma BothConsult(o: Order, a: Line, b: Line, es: seq<Event>) returns (read: State)
    requires Live(a) && Live(b) && a.id != b.id && a.qty >= 2 && b.qty >= 2
    requires o.lines == [a, b] && o.status == Accepted
    requires |es| == 4 && es[0] == Read([Entry(a.id, a.qty - 1)]) && es[1] == Read([Entry(b.id, b.qty - 1)])
    ensures Exec(Placed(o), es) == Exec(read, es[2..])
    ensures read.order == o && read.audit == []
    ensures |read.drafts| == 2 && read.drafts[0].pending && read.drafts[1].pending
    ensures read.drafts[0].edits == [LineEdit(a.id, a.qty, a.qty - 1)]
    ensures read.drafts[1].edits == [LineEdit(b.id, b.qty, b.qty - 1)]
    ensures read.drafts[1].total == a.unitPrice * a.qty + b.unitPrice * (b.qty - 1)
  {
    OneEntryPlan(o, 0, a.qty - 1);
    OneEntryPlan(o, 1, b.qty - 1);
    TwoLinePlan(a, b, Entry(b.id, b.qty - 1));
    BothRead(o, [Entry(a.id, a.qty - 1)], [Entry(b.id, b.qty - 1)]);
    read := Apply(Apply(Placed(o), es[0]), es[1]);
    FirstTwo(Placed(o), es, read);
  }

  lemma BothRead(o: Order, a: seq<Entry>, b: seq<Entry>)
    requires PlanEdit(o, a).Planned? && PlanEdit(o, b).Planned?
    ensures Apply(Apply(Placed(o), Read(a)), Read(b)) == State(o, [DraftOf(o, 0, a), DraftOf(o, 0, b)], [], [])
  {
  }

  lemma BothCommit(read: State, a: LineEdit, b: LineEdit, mid: seq<Line>, end: seq<Line>)
    requires |read.drafts| == 2 && read.drafts[0].pending && read.drafts[1].pending && InFlight(read.order.status)
    requires read.drafts[0].edits == [a] && read.drafts[1].edits == [b] && |read.order.lines| == 2
    requires Hits(read.order.lines[0], a) && mid == UpdateLines(read.order.lines, a, 0)
    requires Hits(mid[1], b) && end == UpdateLines(mid, b, 0)
    ensures var t := Apply(Apply(read, Commit(0, 7, false, 0)), Commit(1, 8, false, 0));
      t.order == read.order.(lines := end, total := read.drafts[1].total) && |t.audit| == |read.audit| + 2
  {
    OneEditLands(read, 0, 7, a, 0, mid);
    OneEditLands(Apply(read, Commit(0, 7, false, 0)), 1, 8, b, 1, end);
  }

  lemma OneEditLands(s: State, d: nat, staffId: nat, e: LineEdit, at: nat, after: seq<Line>)
    requires d < |s.drafts| && s.drafts[d].pending && s.drafts[d].edits == [e] && InFlight(s.order.status)
    requires at < |s.order.lines| && Hits(s.order.lines[at], e) && after == UpdateLines(s.order.lines, e, 0)
    ensures Apply(s, Commit(d, staffId, false, 0)) ==
      State(s.order.(lines := after, total := s.drafts[d].total), s.drafts[d := s.drafts[d].(pending := false)],
            s.log + [e], s.audit + [AuditRow(staffId, s.drafts[d].changes, false)])
  {
    assert [e][..0] == [];
    assert s.order.lines[at] in s.order.lines;
    assert CommitLines(s.order.lines, [], 0) == Some(s.order.lines);
  }

  lemma FirstTwo(s: State, es: seq<Event>, t: State)
    requires |es| >= 2 && Apply(Apply(s, es[0]), es[1]) == t
    ensures Exec(s, es) == Exec(t, es[2..])
  {
    assert es[1..][0] == es[1] && es[1..][1..] == es[2..];
  }

  lemma TwoLines(a: Line, b: Line)
    ensures Itemised([a, b]) == Amount(a) + Amount(b)
  {
    assert [a, b][..1] == [a] && [a][..0] == [];
    assert Itemised([a]) == Amount(a);
  }

  lemma TwoLinePlan(a: Line, b: Line, e: Entry)
    requires Live(a) && Live(b) && a.id != e.itemId == b.id
    ensures PlannedTotal([a, b], [e]) == a.unitPrice * a.qty + b.unitPrice * e.qty
  {
    assert [a, b][..1] == [a] && [a][..0] == [] && [e][..0] == [];
    assert FirstEntry([e], a.id) == None && FirstEntry([e], b.id) == Some(e);
    assert PlannedTotal([a], [e]) == a.unitPrice * a.qty;
  }

  lemma OneEntryPlan(o: Order, i: nat, qty: nat)
    requires InFlight(o.status) && DistinctIds(o.lines) && i < |o.lines| && Live(o.lines[i]) && 0 < qty < o.lines[i].qty
    ensures PlanEdit(o, [Entry(o.lines[i].id, qty)]).Planned?
    ensures EditsFor(o.lines, [Entry(o.lines[i].id, qty)]) == [LineEdit(o.lines[i].id, o.lines[i].qty, qty)]
  {
    var l, e := o.lines[i], Entry(o.lines[i].id, qty);
    FindLiveUnique(o.lines, i);
    assert [e][..0] == [];
    assert FirstEntry([e], l.id) == Some(e);
    assert l in o.lines && PlannedQty(l, [e]) == qty;
  }
}
