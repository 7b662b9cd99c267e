/** The kitchen's paper and the order it describes. Accepting an order starts a
    background enqueue, and so does correcting one whose dialog saw a ticket. An
    enqueue reads the order and later writes a ticket row, and may fail at either
    point; a correction reads the order and its tickets and later commits. */
module KitchenPaper {
  import opened Common
  import opened Orders
  import opened OrderEdit

  datatype TicketLine = TicketLine(qty: nat, name: string, note: string, unitPrice: int, modifiers: seq<string>)

  /** asOf counts the corrections that had landed when the order was read. */
  datatype Ticket = Ticket(lines: seq<TicketLine>, amendment: bool, asOf: nat)

  datatype Task =
    | Waiting(amendment: bool)
    | HasRead(amendment: bool, lines: seq<TicketLine>, asOf: nat)
    | Wrote(amendment: bool, asOf: nat)
    | Failed(amendment: bool)

  /** A correction between its read and its commit. */
  datatype Draft = Draft(edits: seq<LineEdit>, total: int, sawTicket: bool, pending: bool)

  /** notice is the task of the last landed correction's amendment, if it sent one. */
  datatype State = State(
    order: Order, corrections: nat, tickets: seq<Ticket>, tasks: seq<Task>, drafts: seq<Draft>, notice: Option<nat>)

  datatype Event =
    | Move(to: Status)
    | Consult(input: seq<Entry>)
    | Commit(draft: nat, now: int)
    | Read(task: nat)
    | Write(task: nat)
    | Fail(task: nat)

  /** A ticket lists the live lines, in order, at their current quantities. */
  function Printed(lines: seq<Line>): seq<TicketLine> {
    if lines == [] then []
    else
      var l := lines[|lines| - 1];
      Printed(lines[..|lines| - 1]) +
      if Live(l) then [TicketLine(l.qty, l.name, l.note, l.unitPrice, l.modifiers)] else []
  }

  /** The ticket shows the order: as many lines as are not voided, and the line with
      k such lines before it stands at place k with its own quantity, name, note,
      price and options. */
  predicate Shows(ticket: seq<TicketLine>, lines: seq<Line>) {
    && |ticket| == LiveBefore(lines, |lines|)
    && forall i | 0 <= i < |lines| && lines[i].voidedAt.None? ::
         LiveBefore(lines, i) < |ticket| && Matches(ticket[LiveBefore(lines, i)], lines[i])
  }

  predicate Matches(t: TicketLine, l: Line) {
    t.qty == l.qty && t.name == l.name && t.note == l.note && t.unitPrice == l.unitPrice && t.modifiers == l.modifiers
  }

  lemma {:induction false} PrintedLength(lines: seq<Line>)
    ensures |Printed(lines)| == LiveBefore(lines, |lines|)
  {
    if lines != [] {
      PrintedLength(lines[..|lines| - 1]);
      LiveBeforePrefix(lines, |lines| - 1, |lines| - 1);
    }
  }

  lemma {:induction false} PrintedPlace(lines: seq<Line>, i: nat)
    requires i < |lines| && lines[i].voidedAt.None?
    ensures LiveBefore(lines, i) < |Printed(lines)| && Matches(Printed(lines)[LiveBefore(lines, i)], lines[i])
    decreases |lines|
  {
    var n := |lines| - 1;
    if i < n {
      PrintedPlace(lines[..n], i);
      LiveBeforePrefix(lines, n, i);
    } else {
      PrintedLength(lines[..n]);
      LiveBeforePrefix(lines, n, n);
    }
  }

  lemma PrintedShows(lines: seq<Line>)
    ensures Shows(Printed(lines), lines)
  {
    PrintedLength(lines);
    forall i | 0 <= i < |lines| && lines[i].voidedAt.None?
      ensures LiveBefore(lines, i) < |Printed(lines)| && Matches(Printed(lines)[LiveBefore(lines, i)], lines[i])
    {
      PrintedPlace(lines, i);
    }
  }

  /** What a ticket prints is the one thing that shows the order. */
  lemma ShowsExactly(ticket: seq<TicketLine>, lines: seq<Line>)
    ensures Shows(ticket, lines) <==> ticket == Printed(lines)
  {
    PrintedShows(lines);
    if Shows(ticket, lines) {
      forall k | 0 <= k < |ticket| ensures ticket[k] == Printed(lines)[k] {
        var i := LiveAt(lines, |lines|, k);
        assert Matches(ticket[LiveBefore(lines, i)], lines[i]);
        assert Matches(Printed(lines)[LiveBefore(lines, i)], lines[i]);
      }
    }
  }

  /** Event e is a commit whose conditional writes all find what they expect. */
  predicate Lands(s: State, e: Event) {
    && e.Commit? && e.draft < |s.drafts| && s.drafts[e.draft].pending
    && CommitEdit(s.order, s.drafts[e.draft].edits, s.drafts[e.draft].total, e.now).Some?
  }

  function AfterCommit(s: State, d: nat, now: int): State
    requires d < |s.drafts|
  {
    var draft := s.drafts[d];
    var after := CommitEdit(s.order, draft.edits, draft.total, now);
    var closed := s.drafts[d := draft.(pending := false)];
    if after.None? then s.(drafts := closed)
    else if draft.sawTicket then
      State(after.value, s.corrections + 1, s.tickets, s.tasks + [Waiting(true)], closed, Some(|s.tasks|))
    else
      State(after.value, s.corrections + 1, s.tickets, s.tasks, closed, None)
  }

  function Apply(s: State, e: Event): State {
    match e
    case Move(to) =>
      // The desk's status change is checked earlier and written by id, so it can
      // land on any status, and an order can be accepted twice.
      s.(order := s.order.(status := to), tasks := if to == Accepted then s.tasks + [Waiting(false)] else s.tasks)
    case Consult(input) =>
      var plan := PlanEdit(s.order, input);
      if plan.Planned?
      then s.(drafts := s.drafts + [Draft(plan.edits, plan.total, |s.tickets| > 0, true)]) else s
    case Commit(d, now) => if d < |s.drafts| && s.drafts[d].pending then AfterCommit(s, d, now) else s
    case Read(k) =>
      if k < |s.tasks| && s.tasks[k].Waiting? then
        s.(tasks := s.tasks[k := HasRead(s.tasks[k].amendment, Printed(s.order.lines), s.corrections)])
      else s
    case Write(k) =>
      if k < |s.tasks| && s.tasks[k].HasRead? then
        s.(tickets := s.tickets + [Ticket(s.tasks[k].lines, s.tasks[k].amendment, s.tasks[k].asOf)],
           tasks := s.tasks[k := Wrote(s.tasks[k].amendment, s.tasks[k].asOf)])
      else s
    case Fail(k) =>
      if k < |s.tasks| && Underway(s.tasks[k]) then s.(tasks := s.tasks[k := Failed(s.tasks[k].amendment)]) else s
  }

  predicate Underway(t: Task) { t.Waiting? || t.HasRead? }

  function Exec(s: State, es: seq<Event>): State
    decreases |es|
  {
    if es == [] then s else Exec(Apply(s, es[0]), es[1..])
  }

  function Placed(o: Order): State { State(o, 0, [], [], [], None) }

  // ----- every correction changes the paper -----------------------------------------------

  function Portions(lines: seq<TicketLine>): nat {
    if lines == [] then 0 else Portions(lines[..|lines| - 1]) + lines[|lines| - 1].qty
  }

  function LivePortions(lines: seq<Line>): nat {
    if lines == [] then 0
    else LivePortions(lines[..|lines| - 1]) + if Live(lines[|lines| - 1]) then lines[|lines| - 1].qty else 0
  }

  lemma {:induction false} PrintedPortions(lines: seq<Line>)
    ensures Portions(Printed(lines)) == LivePortions(lines)
  {
    if lines != [] {
      var init, l := lines[..|lines| - 1], lines[|lines| - 1];
      PrintedPortions(init);
      if Live(l) {
        assert Printed(lines)[..|Printed(init)|] == Printed(init);
      } else {
        assert Printed(lines) == Printed(init);
      }
    }
  }

  lemma {:induction false} UpdateNeverRaises(lines: seq<Line>, e: LineEdit, now: int)
    requires e.toQty < e.fromQty
    ensures LivePortions(UpdateLines(lines, e, now)) <= LivePortions(lines)
  {
    if lines != [] {
      var n := |lines| - 1;
      UpdateNeverRaises(lines[..n], e, now);
      assert UpdateLines(lines, e, now)[..n] == UpdateLines(lines[..n], e, now);
    }
  }

  lemma {:induction false} UpdateLowers(lines: seq<Line>, e: LineEdit, now: int, at: nat)
    requires e.toQty < e.fromQty && at < |lines| && Hits(lines[at], e)
    ensures LivePortions(UpdateLines(lines, e, now)) < LivePortions(lines)
  {
    var n := |lines| - 1;
    assert UpdateLines(lines, e, now)[..n] == UpdateLines(lines[..n], e, now);
    if at < n { UpdateLowers(lines[..n], e, now, at); } else { UpdateNeverRaises(lines[..n], e, now); }
  }

  lemma {:induction false} CommitLowers(lines: seq<Line>, edits: seq<LineEdit>, now: int)
    requires CommitLines(lines, edits, now).Some?
    requires forall e <- edits :: e.toQty < e.fromQty
    ensures LivePortions(CommitLines(lines, edits, now).value) + |edits| <= LivePortions(lines)
    decreases |edits|
  {
    if edits != [] {
      var e := edits[|edits| - 1];
      assert e in edits;
      CommitLowers(lines, edits[..|edits| - 1], now);
      var mid := CommitLines(lines, edits[..|edits| - 1], now).value;
      var at :| 0 <= at < |mid| && Hits(mid[at], e);
      UpdateLowers(mid, e, now, at);
    }
  }

  /** A correction that lands always leaves fewer portions for the paper to show. */
  lemma CorrectionLowers(o: Order, edits: seq<LineEdit>, total: int, now: int)
    requires CommitEdit(o, edits, total, now).Some? && edits != []
    requires forall e <- edits :: e.toQty < e.fromQty
    ensures Portions(Printed(CommitEdit(o, edits, total, now).value.lines)) < Portions(Printed(o.lines))
  {
    CommitLowers(o.lines, edits, now);
    PrintedPortions(o.lines);
    PrintedPortions(CommitEdit(o, edits, total, now).value.lines);
  }

  // ----- what every reachable state keeps ---------------------------------------------------

  /** A copy of the order as of some correction is the current one exactly when
      no correction has landed since. */
  predicate CopyOk(s: State, lines: seq<TicketLine>, asOf: nat) {
    && asOf <= s.corrections
    && (asOf == s.corrections ==> lines == Printed(s.order.lines))
    && (asOf < s.corrections ==> Portions(lines) > Portions(Printed(s.order.lines)))
  }

  /** Some ticket was read when n corrections had landed. */
  predicate TicketAsOf(s: State, n: nat) {
    exists k | 0 <= k < |s.tickets| :: s.tickets[k].asOf == n
  }

  predicate TaskOk(s: State, t: Task) {
    && (t.HasRead? ==> CopyOk(s, t.lines, t.asOf))
    && (t.Wrote? ==> TicketAsOf(s, t.asOf))
  }

  predicate DraftOk(d: Draft) {
    d.edits != [] && forall e <- d.edits :: e.toQty < e.fromQty
  }

  /** The amendment of the last correction reads the order no earlier than it. */
  predicate NoticeOk(s: State) {
    s.notice.Some? ==>
      && s.notice.value < |s.tasks|
      && var t := s.tasks[s.notice.value];
         t.amendment && (t.HasRead? || t.Wrote? ==> t.asOf == s.corrections)
  }

  predicate Inv(s: State) {
    && (forall k | 0 <= k < |s.tasks| :: TaskOk(s, s.tasks[k]))
    && (forall k | 0 <= k < |s.tickets| :: CopyOk(s, s.tickets[k].lines, s.tickets[k].asOf))
    && (forall k | 0 <= k < |s.drafts| :: DraftOk(s.drafts[k]))
    && NoticeOk(s)
  }

  lemma LandingInv(s: State, e: Event)
    requires Inv(s) && Lands(s, e)
    ensures Inv(Apply(s, e))
  {
    var draft := s.drafts[e.draft];
    assert DraftOk(draft);
    CorrectionLowers(s.order, draft.edits, draft.total, e.now);
    var t := Apply(s, e);
    forall k | 0 <= k < |t.tickets| ensures CopyOk(t, t.tickets[k].lines, t.tickets[k].asOf) {
      assert CopyOk(s, s.tickets[k].lines, s.tickets[k].asOf);
    }
    forall k | 0 <= k < |t.tasks| ensures TaskOk(t, t.tasks[k]) {
      if k < |s.tasks| { TaskSurvives(s, t, s.tasks[k]); }
    }
    forall k | 0 <= k < |t.drafts| ensures DraftOk(t.drafts[k]) { assert DraftOk(s.drafts[k]); }
  }

  lemma TaskSurvives(s: State, t: State, task: Task)
    requires TaskOk(s, task) && t.tickets == s.tickets && t.corrections == s.corrections + 1
    requires Portions(Printed(t.order.lines)) < Portions(Printed(s.order.lines))
    ensures TaskOk(t, task)
  {
    if task.Wrote? {
      var k :| 0 <= k < |s.tickets| && s.tickets[k].asOf == task.asOf;
      assert t.tickets[k].asOf == task.asOf;
    }
  }

  /** Steps other than a landing leave the lines and the count alone. */
  lemma OtherStep(s: State, e: Event)
    requires !Lands(s, e)
    ensures var t := Apply(s, e);
      && t.corrections == s.corrections && t.order.lines == s.order.lines && t.notice == s.notice
      && |t.tasks| >= |s.tasks| && |t.tickets| >= |s.tickets| && t.tickets[..|s.tickets|] == s.tickets
      && (forall k | 0 <= k < |s.tasks| :: t.tasks[k].amendment == s.tasks[k].amendment)
  {
  }

  lemma TasksInv(s: State, e: Event, k: nat)
    requires Inv(s) && !Lands(s, e) && k < |Apply(s, e).tasks|
    ensures TaskOk(Apply(s, e), Apply(s, e).tasks[k])
  {
    var t := Apply(s, e);
    OtherStep(s, e);
    if k < |s.tasks| {
      assert TaskOk(s, s.tasks[k]);
      if t.tasks[k].Wrote? && s.tasks[k].Wrote? {
        var j :| 0 <= j < |s.tickets| && s.tickets[j].asOf == s.tasks[k].asOf;
        assert t.tickets[j] == t.tickets[..|s.tickets|][j];
      } else if t.tasks[k].Wrote? {
        assert t.tickets[|s.tickets|].asOf == t.tasks[k].asOf;
      }
    }
  }

  lemma TicketsInv(s: State, e: Event, k: nat)
    requires Inv(s) && !Lands(s, e) && k < |Apply(s, e).tickets|
    ensures var t := Apply(s, e); CopyOk(t, t.tickets[k].lines, t.tickets[k].asOf)
  {
    OtherStep(s, e);
    if k < |s.tickets| {
      assert CopyOk(s, s.tickets[k].lines, s.tickets[k].asOf);
      assert Apply(s, e).tickets[..|s.tickets|][k] == s.tickets[k];
    } else {
      assert TaskOk(s, s.tasks[e.task]);
    }
  }

  lemma DraftsInv(s: State, e: Event, k: nat)
    requires Inv(s) && !Lands(s, e) && k < |Apply(s, e).drafts|
    ensures DraftOk(Apply(s, e).drafts[k])
  {
    if k < |s.drafts| { assert DraftOk(s.drafts[k]); }
  }

  lemma NoticeInv(s: State, e: Event)
    requires Inv(s) && !Lands(s, e)
    ensures NoticeOk(Apply(s, e))
  {
  }

  lemma ApplyInv(s: State, e: Event)
    requires Inv(s)
    ensures Inv(Apply(s, e))
  {
    if Lands(s, e) {
      LandingInv(s, e);
    } else {
      NoticeInv(s, e);
      forall k: nat
        ensures k < |Apply(s, e).tasks| ==> TaskOk(Apply(s, e), Apply(s, e).tasks[k])
        ensures k < |Apply(s, e).tickets| ==>
          CopyOk(Apply(s, e), Apply(s, e).tickets[k].lines, Apply(s, e).tickets[k].asOf)
        ensures k < |Apply(s, e).drafts| ==> DraftOk(Apply(s, e).drafts[k])
      {
        if k < |Apply(s, e).tasks| { TasksInv(s, e, k); }
        if k < |Apply(s, e).tickets| { TicketsInv(s, e, k); }
        if k < |Apply(s, e).drafts| { DraftsInv(s, e, k); }
      }
    }
  }

  lemma {:induction false} ExecInv(s: State, es: seq<Event>)
    requires Inv(s)
    ensures Inv(Exec(s, es))
    decreases |es|
  {
    if es != [] {
      ApplyInv(s, es[0]);
      ExecInv(Apply(s, es[0]), es[1..]);
    }
  }

  function Newest(s: State): Ticket
    requires s.tickets != []
  {
    s.tickets[|s.tickets| - 1]
  }

  /** In every state of every run, the newest ticket shows the order as it is if and
      only if no correction has landed since its enqueue read it. */
  lemma NewestTicketExactly(o: Order, es: seq<Event>)
    requires Exec(Placed(o), es).tickets != []
    ensures var s := Exec(Placed(o), es);
      Shows(Newest(s).lines, s.order.lines) <==> Newest(s).asOf == s.corrections
  {
    ExecInv(Placed(o), es);
    var s := Exec(Placed(o), es);
    ShowsExactly(Newest(s).lines, s.order.lines);
    assert CopyOk(s, Newest(s).lines, Newest(s).asOf);
  }

  // ----- when the paper is wrong for good -------------------------------------------------------

  predicate AmendmentPending(s: State) {
    exists k | 0 <= k < |s.tasks| :: s.tasks[k].amendment && Underway(s.tasks[k])
  }

  /** What the kitchen is promised: if it has paper, the newest ticket is right or
      an amendment is on its way. */
  predicate PaperOk(s: State) {
    s.tickets != [] ==> Shows(Newest(s).lines, s.order.lines) || AmendmentPending(s)
  }

  /** The last correction's dialog read the order before any ticket existed, so
      it sent no amendment. */
  predicate Unannounced(s: State) { s.corrections > 0 && s.notice.None? }

  predicate AmendmentLost(s: State) {
    s.notice.Some? && s.notice.value < |s.tasks| && s.tasks[s.notice.value].Failed?
  }

  /** A ticket read after the last correction was followed by one read before it. */
  predicate Overtaken(s: State) {
    s.tickets != [] && Newest(s).asOf < s.corrections && TicketAsOf(s, s.corrections)
  }

  lemma PaperFailsIn(s: State)
    requires Inv(s)
    ensures !PaperOk(s) <==>
      && s.tickets != [] && !AmendmentPending(s)
      && (Overtaken(s) || (!TicketAsOf(s, s.corrections) && (Unannounced(s) || AmendmentLost(s))))
  {
    if s.tickets != [] {
      assert CopyOk(s, Newest(s).lines, Newest(s).asOf);
      ShowsExactly(Newest(s).lines, s.order.lines);
      if Newest(s).asOf == s.corrections { assert TicketAsOf(s, s.corrections); }
      if s.notice.Some? { assert TaskOk(s, s.tasks[s.notice.value]); }
    }
  }

  /** In every state of every run the promise is broken if and only if there is
      paper, no amendment is on its way, and one of three things has happened:
      tickets were written out of order; or nothing has been printed since the last
      correction, because its dialog had seen no ticket or its amendment failed. */
  lemma PaperFailsExactly(o: Order, es: seq<Event>)
    ensures var s := Exec(Placed(o), es);
      !PaperOk(s) <==>
        && s.tickets != [] && !AmendmentPending(s)
        && (Overtaken(s) || (!TicketAsOf(s, s.corrections) && (Unannounced(s) || AmendmentLost(s))))
  {
    ExecInv(Placed(o), es);
    PaperFailsIn(Exec(Placed(o), es));
  }

  /** The step writes no ticket older than the newest, and fails no amendment. */
  predicate Orderly(s: State, e: Event) {
    && (e.Write? && e.task < |s.tasks| && s.tasks[e.task].HasRead? && s.tickets != [] ==>
          Newest(s).asOf <= s.tasks[e.task].asOf)
    && (e.Fail? && e.task < |s.tasks| ==> !s.tasks[e.task].amendment)
  }

  predicate OrderlyRun(s: State, es: seq<Event>)
    decreases |es|
  {
    es == [] || (Orderly(s, es[0]) && OrderlyRun(Apply(s, es[0]), es[1..]))
  }

  /** The newest ticket is the latest read, and no amendment has failed. */
  predicate InStep(s: State) {
    && (forall k | 0 <= k < |s.tickets| :: s.tickets[k].asOf <= Newest(s).asOf)
    && (forall k | 0 <= k < |s.tasks| :: s.tasks[k].Failed? ==> !s.tasks[k].amendment)
  }

  lemma ApplyInStep(s: State, e: Event)
    requires InStep(s) && Orderly(s, e)
    ensures InStep(Apply(s, e))
  {
    var t := Apply(s, e);
    if |t.tickets| > |s.tickets| {
      forall k | 0 <= k < |t.tickets| ensures t.tickets[k].asOf <= Newest(t).asOf {
        if k < |s.tickets| { assert s.tickets[k].asOf <= Newest(s).asOf; }
      }
    }
  }

  lemma {:induction false} ExecInStep(s: State, es: seq<Event>)
    requires InStep(s) && OrderlyRun(s, es)
    ensures InStep(Exec(s, es))
    decreases |es|
  {
    if es != [] {
      ApplyInStep(s, es[0]);
      ExecInStep(Apply(s, es[0]), es[1..]);
    }
  }

  /** While tickets are written in the order they were read and no amendment
      fails, the promise is broken if and only if the last correction's dialog had
      seen no ticket, no ticket has been read since that correction, and no
      amendment is on its way. */
  lemma PaperAgrees(o: Order, es: seq<Event>)
    requires OrderlyRun(Placed(o), es)
    ensures var s := Exec(Placed(o), es);
      !PaperOk(s) <==>
        s.tickets != [] && Unannounced(s) && !TicketAsOf(s, s.corrections) && !AmendmentPending(s)
  {
    ExecInStep(Placed(o), es);
    PaperFailsExactly(o, es);
    ExecInv(Placed(o), es);
    var s := Exec(Placed(o), es);
    if s.notice.Some? { assert s.tasks[s.notice.value].amendment; }
  }

  lemma {:induction false} DraftKept(s: State, es: seq<Event>, d: nat)
    requires d < |s.drafts|
    ensures d < |Exec(s, es).drafts| && Exec(s, es).drafts[d].sawTicket == s.drafts[d].sawTicket
    decreases |es|
  {
    if es != [] { DraftKept(Apply(s, es[0]), es[1..], d); }
  }

  /** A correction that lands asks for an amendment, and only one, if and only if
      there was a ticket when its dialog read the order, whatever happened since. */
  lemma AmendmentExactly(s: State, input: seq<Entry>, since: seq<Event>, now: int)
    requires PlanEdit(s.order, input).Planned?
    requires Lands(Exec(Apply(s, Consult(input)), since), Commit(|s.drafts|, now))
    ensures var t := Exec(Apply(s, Consult(input)), since);
      Apply(t, Commit(|s.drafts|, now)).tasks == t.tasks + if s.tickets != [] then [Waiting(true)] else []
  {
    DraftKept(Apply(s, Consult(input)), since, |s.drafts|);
    var t := Exec(Apply(s, Consult(input)), since);
    assert t.tasks + [] == t.tasks;
  }

  /** And accepting an order asks for a ticket. An enqueue writes what it read, marked
      as what it is. */
  lemma EnqueueWritesWhatItRead(s: State, k: nat, since: seq<Event>)
    requires k < |s.tasks| && s.tasks[k].Waiting? && (forall i | 0 <= i < |since| :: !OfTask(since[i], k))
    ensures Apply(s, Move(Accepted)).tasks == s.tasks + [Waiting(false)]
    ensures var t := Exec(Apply(s, Read(k)), since); var written := Apply(t, Write(k)).tickets;
      && |written| == |t.tickets| + 1 && written[..|t.tickets|] == t.tickets
      && Shows(written[|t.tickets|].lines, s.order.lines)
      && written[|t.tickets|].amendment == s.tasks[k].amendment
  {
    var read := Apply(s, Read(k));
    TaskKept(read, since, k);
    PrintedShows(s.order.lines);
  }

  predicate OfTask(e: Event, k: nat) {
    (e.Read? && e.task == k) || (e.Write? && e.task == k) || (e.Fail? && e.task == k)
  }

  lemma {:induction false} TaskKept(s: State, es: seq<Event>, k: nat)
    requires k < |s.tasks| && forall i | 0 <= i < |es| :: !OfTask(es[i], k)
    ensures k < |Exec(s, es).tasks| && Exec(s, es).tasks[k] == s.tasks[k]
    decreases |es|
  {
    if es != [] {
      assert !OfTask(es[0], k);
      TaskKept(Apply(s, es[0]), es[1..], k);
    }
  }

  // ----- three runs in which it is --------------------------------------------------------------

  /** n portions of one coffee. */
  function Coffee(n: nat): Line { Line(1, "kahve", 90, n, "", [], None) }

  function Cups(status: Status, n: nat): Order { Order(0, 0, 0, status, None, 90 * n, false, 0, [Coffee(n)]) }

  function Paper(n: nat): seq<TicketLine> { [TicketLine(n, "kahve", "", 90, [])] }

  function FewerDraft(n: nat, m: nat, sawTicket: bool, pending: bool): Draft {
    Draft([LineEdit(1, n, m)], 90 * m, sawTicket, pending)
  }

  lemma PaperOf(n: nat)
    ensures Printed([Coffee(n)]) == Paper(n)
  {
    assert [Coffee(n)][..0] == [];
  }

  lemma FewerPlanned(n: nat, m: nat)
    requires 0 < m < n
    ensures var plan := PlanEdit(Cups(Accepted, n), [Entry(1, m)]);
      plan.Planned? && plan.edits == [LineEdit(1, n, m)] && plan.total == 90 * m
  {
    var e, l := Entry(1, m), Coffee(n);
    assert [e][..0] == [] && [l][..0] == [];
    assert FindLive([l], 1) == Some(l);
    assert FirstEntry([e], 1) == Some(e);
    assert l in [l] && PlannedQty(l, [e]) == m;
    assert EditsFor([l], [e]) == [] + [LineEdit(1, n, m)];
    assert PlannedTotal([], [e]) == 0 && PlannedTotal([l], [e]) == 0 + 90 * m;
  }

  lemma FewerLands(n: nat, m: nat)
    requires 0 < m < n
    ensures CommitEdit(Cups(Accepted, n), [LineEdit(1, n, m)], 90 * m, 0) == Some(Cups(Accepted, m))
  {
    OneWriteLands(Coffee(n), LineEdit(1, n, m), 0);
  }

  lemma ExecStep(s: State, es: seq<Event>, i: nat, t: State)
    requires i < |es| && Apply(s, es[i]) == t
    ensures Exec(s, es[i..]) == Exec(t, es[i + 1..])
  {
    assert es[i..][0] == es[i] && es[i..][1..] == es[i + 1..];
  }

  lemma ConsultStep(s: State, n: nat, m: nat)
    requires 0 < m < n && s.order == Cups(Accepted, n)
    ensures Apply(s, Consult([Entry(1, m)])) ==
      s.(drafts := s.drafts + [FewerDraft(n, m, |s.tickets| > 0, true)])
  {
    FewerPlanned(n, m);
  }

  lemma CommitStep(s: State, d: nat, n: nat, m: nat)
    requires 0 < m < n && s.order == Cups(Accepted, n)
    requires d < |s.drafts| && s.drafts[d] == FewerDraft(n, m, s.drafts[d].sawTicket, true)
    ensures var saw := s.drafts[d].sawTicket;
      Apply(s, Commit(d, 0)) ==
      State(Cups(Accepted, m), s.corrections + 1, s.tickets, if saw then s.tasks + [Waiting(true)] else s.tasks,
            s.drafts[d := FewerDraft(n, m, saw, false)], if saw then Some(|s.tasks|) else None)
  {
    FewerLands(n, m);
  }

  lemma ReadStep(s: State, k: nat, n: nat)
    requires k < |s.tasks| && s.tasks[k].Waiting? && s.order == Cups(Accepted, n)
    ensures Apply(s, Read(k)) == s.(tasks := s.tasks[k := HasRead(s.tasks[k].amendment, Paper(n), s.corrections)])
  {
    PaperOf(n);
  }

  function JustAccepted(n: nat): State { State(Cups(Accepted, n), 0, [], [Waiting(false)], [], None) }

  /** Where the first two runs end: one ticket, for n, and an order for m. */
  function Misprinted(n: nat, m: nat): State {
    State(Cups(Accepted, m), 1, [Ticket(Paper(n), false, 0)], [Wrote(false, 0)], [FewerDraft(n, m, false, false)], None)
  }

  lemma MisprintedFails(n: nat, m: nat)
    requires m != n
    ensures !PaperOk(Misprinted(n, m)) && Unannounced(Misprinted(n, m))
  {
    PaperOf(m);
  }

  /** Whatever the quantities: the correction slips between the first enqueue's
      read and its write. */
  lemma OvertakenEnqueueWitness(n: nat, m: nat) returns (es: seq<Event>)
    requires 0 < m < n
    ensures Exec(Placed(Cups(Received, n)), es) == Misprinted(n, m) && !PaperOk(Misprinted(n, m))
  {
    es := [Move(Accepted), Read(0), Consult([Entry(1, m)]), Commit(0, 0), Write(0)];
    OvertakenEnqueueRun(n, m, es);
    MisprintedFails(n, m);
  }

  lemma OvertakenEnqueueRun(n: nat, m: nat, es: seq<Event>)
    requires 0 < m < n && |es| == 5 && es[0] == Move(Accepted) && es[1] == Read(0)
    requires es[2] == Consult([Entry(1, m)]) && es[3] == Commit(0, 0) && es[4] == Write(0)
    ensures Exec(Placed(Cups(Received, n)), es) == Misprinted(n, m)
  {
    var s1 := JustAccepted(n);
    ExecStep(Placed(Cups(Received, n)), es, 0, s1);
    var s2 := s1.(tasks := [HasRead(false, Paper(n), 0)]);
    ReadStep(s1, 0, n);
    ExecStep(s1, es, 1, s2);
    var s3 := s2.(drafts := [FewerDraft(n, m, false, true)]);
    ConsultStep(s2, n, m);
    ExecStep(s2, es, 2, s3);
    var s4 := s3.(order := Cups(Accepted, m), corrections := 1, drafts := [FewerDraft(n, m, false, false)]);
    CommitStep(s3, 0, n, m);
    ExecStep(s3, es, 3, s4);
    ExecStep(s4, es, 4, Misprinted(n, m));
    assert es[0..] == es && es[5..] == [];
  }

  /** Here every enqueue runs undisturbed, but the dialog is opened before the
      first ticket exists and commits after it was written. */
  lemma EarlyDialogWitness(n: nat, m: nat) returns (es: seq<Event>)
    requires 0 < m < n
    ensures Exec(Placed(Cups(Received, n)), es) == Misprinted(n, m) && !PaperOk(Misprinted(n, m))
  {
    es := [Move(Accepted), Consult([Entry(1, m)]), Read(0), Write(0), Commit(0, 0)];
    EarlyDialogRun(n, m, es);
    MisprintedFails(n, m);
  }

  lemma EarlyDialogRun(n: nat, m: nat, es: seq<Event>)
    requires 0 < m < n && |es| == 5 && es[0] == Move(Accepted) && es[1] == Consult([Entry(1, m)])
    requires es[2] == Read(0) && es[3] == Write(0) && es[4] == Commit(0, 0)
    ensures Exec(Placed(Cups(Received, n)), es) == Misprinted(n, m)
  {
    var s1 := JustAccepted(n);
    ExecStep(Placed(Cups(Received, n)), es, 0, s1);
    var s2 := s1.(drafts := [FewerDraft(n, m, false, true)]);
    ConsultStep(s1, n, m);
    ExecStep(s1, es, 1, s2);
    var s3 := s2.(tasks := [HasRead(false, Paper(n), 0)]);
    ReadStep(s2, 0, n);
    ExecStep(s2, es, 2, s3);
    var s4 := s3.(tickets := [Ticket(Paper(n), false, 0)], tasks := [Wrote(false, 0)]);
    ExecStep(s3, es, 3, s4);
    CommitStep(s4, 0, n, m);
    ExecStep(s4, es, 4, Misprinted(n, m));
    assert es[0..] == es && es[5..] == [];
  }

  /** Two corrections, both announced, whose amendments are written the other way
      round: the older one ends up on top. */
  lemma SwappedAmendmentsWitness(n: nat, k: nat, m: nat) returns (es: seq<Event>)
    requires 0 < m < k < n
    ensures Exec(Placed(Cups(Received, n)), es) == Swapped(n, k, m)
    ensures !PaperOk(Swapped(n, k, m)) && Overtaken(Swapped(n, k, m))
  {
    es := [Move(Accepted), Read(0), Write(0), Consult([Entry(1, k)]), Commit(0, 0), Read(1),
           Consult([Entry(1, m)]), Commit(1, 0), Read(2), Write(2), Write(1)];
    assert es[0..] == es;
    FirstAmendment(n, k, es);
    SecondAmendment(n, k, m, es);
    SwappedFails(n, k, m);
  }

  function Announced(n: nat, k: nat): State {
    State(Cups(Accepted, k), 1, [Ticket(Paper(n), false, 0)], [Wrote(false, 0), Waiting(true)],
          [FewerDraft(n, k, true, false)], Some(1))
  }

  /** Both amendments have been asked for and the first has read the order. */
  function BothUnderway(n: nat, k: nat, m: nat): State {
    State(Cups(Accepted, m), 2, [Ticket(Paper(n), false, 0)],
          [Wrote(false, 0), HasRead(true, Paper(k), 1), Waiting(true)],
          [FewerDraft(n, k, true, false), FewerDraft(k, m, true, false)], Some(2))
  }

  function Swapped(n: nat, k: nat, m: nat): State {
    State(Cups(Accepted, m), 2, [Ticket(Paper(n), false, 0), Ticket(Paper(m), true, 2), Ticket(Paper(k), true, 1)],
          [Wrote(false, 0), Wrote(true, 1), Wrote(true, 2)],
          [FewerDraft(n, k, true, false), FewerDraft(k, m, true, false)], Some(2))
  }

  lemma SwappedFails(n: nat, k: nat, m: nat)
    requires 0 < m < k < n
    ensures !PaperOk(Swapped(n, k, m)) && Overtaken(Swapped(n, k, m))
  {
    PaperOf(m);
    assert Swapped(n, k, m).tickets[1].asOf == 2;
  }

  lemma FirstAmendment(n: nat, k: nat, es: seq<Event>)
    requires 0 < k < n && |es| == 11 && es[0] == Move(Accepted) && es[1] == Read(0) && es[2] == Write(0)
    requires es[3] == Consult([Entry(1, k)]) && es[4] == Commit(0, 0)
    ensures Exec(Placed(Cups(Received, n)), es[0..]) == Exec(Announced(n, k), es[5..])
  {
    var s1 := JustAccepted(n);
    ExecStep(Placed(Cups(Received, n)), es, 0, s1);
    var s2 := s1.(tasks := [HasRead(false, Paper(n), 0)]);
    ReadStep(s1, 0, n);
    ExecStep(s1, es, 1, s2);
    var s3 := s2.(tickets := [Ticket(Paper(n), false, 0)], tasks := [Wrote(false, 0)]);
    ExecStep(s2, es, 2, s3);
    var s4 := s3.(drafts := [FewerDraft(n, k, true, true)]);
    ConsultStep(s3, n, k);
    ExecStep(s3, es, 3, s4);
    CommitStep(s4, 0, n, k);
    ExecStep(s4, es, 4, Announced(n, k));
  }

  lemma SecondAmendment(n: nat, k: nat, m: nat, es: seq<Event>)
    requires 0 < m < k < n && |es| == 11 && es[5] == Read(1) && es[6] == Consult([Entry(1, m)])
    requires es[7] == Commit(1, 0) && es[8] == Read(2) && es[9] == Write(2) && es[10] == Write(1)
    ensures Exec(Announced(n, k), es[5..]) == Swapped(n, k, m)
  {
    var s5 := Announced(n, k);
    var s6 := s5.(tasks := [Wrote(false, 0), HasRead(true, Paper(k), 1)]);
    ReadStep(s5, 1, k);
    ExecStep(s5, es, 5, s6);
    var s7 := s6.(drafts := [FewerDraft(n, k, true, false), FewerDraft(k, m, true, true)]);
    ConsultStep(s6, k, m);
    ExecStep(s6, es, 6, s7);
    CommitStep(s7, 1, k, m);
    ExecStep(s7, es, 7, BothUnderway(n, k, m));
    PrintBoth(n, k, m, es);
  }

  lemma PrintBoth(n: nat, k: nat, m: nat, es: seq<Event>)
    requires |es| == 11 && es[8] == Read(2) && es[9] == Write(2) && es[10] == Write(1)
    ensures Exec(BothUnderway(n, k, m), es[8..]) == Swapped(n, k, m)
  {
    var s8 := BothUnderway(n, k, m);
    var s9 := s8.(tasks := [Wrote(false, 0), HasRead(true, Paper(k), 1), HasRead(true, Paper(m), 2)]);
    ReadStep(s8, 2, m);
    ExecStep(s8, es, 8, s9);
    var s10 := s9.(tickets := [Ticket(Paper(n), false, 0), Ticket(Paper(m), true, 2)],
                   tasks := [Wrote(false, 0), HasRead(true, Paper(k), 1), Wrote(true, 2)]);
    ExecStep(s9, es, 9, s10);
    ExecStep(s10, es, 10, Swapped(n, k, m));
    assert es[11..] == [];
  }
}
