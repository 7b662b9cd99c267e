/** Any number of phones scanning one table at once: finding an open visit,
    creating one, listing the open ones and deleting one's own are separate
    statements. Staff may close a visit in between. */
module VisitRace {
  import opened Common

  /** A row's index is its place in opening order. */
  datatype VisitRow = Open | Closed | Deleted

  datatype Scan =
    | Began
    | FoundNone
    | Created(mine: nat)
    | Loses(mine: nat, keep: nat)
    | Joined(visit: nat)
    | Finished(mine: nat, visit: nat)

  datatype State = State(visits: seq<VisitRow>, scans: seq<Scan>)

  datatype Event =
    | Begin
    | Find(scan: nat)
    | Create(scan: nat)
    | List(scan: nat)
    | Delete(scan: nat)
    | Close(visit: nat)

  function NewestOpen(visits: seq<VisitRow>): (r: Option<nat>)
    ensures r.Some? ==> r.value < |visits| && visits[r.value] == Open
    ensures forall i | (if r.Some? then r.value + 1 else 0) <= i < |visits| :: visits[i] != Open
  {
    if visits == [] then None
    else if visits[|visits| - 1] == Open then Some(|visits| - 1) else NewestOpen(visits[..|visits| - 1])
  }

  function OldestOpen(visits: seq<VisitRow>, from: nat): (r: Option<nat>)
    ensures r.Some? ==>
      && from <= r.value < |visits| && visits[r.value] == Open
      && forall i | from <= i < r.value :: visits[i] != Open
    ensures r.None? ==> forall i | from <= i < |visits| :: visits[i] != Open
    decreases |visits| - from
  {
    if from >= |visits| then None else if visits[from] == Open then Some(from) else OldestOpen(visits, from + 1)
  }

  function Apply(s: State, e: Event): State {
    match e
    case Begin => s.(scans := s.scans + [Began])
    case Find(k) =>
      if k < |s.scans| && s.scans[k].Began? then
        var found := NewestOpen(s.visits);
        s.(scans := s.scans[k := if found.Some? then Joined(found.value) else FoundNone])
      else s
    case Create(k) =>
      if k < |s.scans| && s.scans[k].FoundNone?
      then State(s.visits + [Open], s.scans[k := Created(|s.visits|)]) else s
    case List(k) =>
      if k < |s.scans| && s.scans[k].Created? then
        var mine := s.scans[k].mine;
        var oldest := OldestOpen(s.visits, 0);
        // More than one open and mine is not the oldest, or only somebody else's.
        s.(scans := s.scans[k := if oldest.Some? && oldest.value != mine && AnotherOpen(s.visits, oldest.value)
                                 then Loses(mine, oldest.value) else Finished(mine, mine)])
      else s
    case Delete(k) =>
      if k < |s.scans| && s.scans[k].Loses? && s.scans[k].mine < |s.visits| then
        State(s.visits[s.scans[k].mine := Deleted], s.scans[k := Finished(s.scans[k].mine, s.scans[k].keep)])
      else s
    case Close(v) => if v < |s.visits| && s.visits[v] == Open then s.(visits := s.visits[v := Closed]) else s
  }

  /** open.length > 1 */
  predicate AnotherOpen(visits: seq<VisitRow>, v: nat) {
    exists i | 0 <= i < |visits| :: i != v && visits[i] == Open
  }

  function Exec(s: State, es: seq<Event>): State
    decreases |es|
  {
    if es == [] then s else Exec(Apply(s, es[0]), es[1..])
  }

  /** A table with at most one open visit and nobody scanning. */
  predicate Idle(s: State) {
    s.scans == [] && forall i, j | 0 <= i < j < |s.visits| :: s.visits[i] != Open || s.visits[j] != Open
  }

  predicate Pending(p: Scan, v: nat) {
    (p.Created? || p.Loses?) && p.mine == v
  }

  /** No scan still has to decide about, or delete, this visit. */
  predicate Settled(s: State, v: nat) {
    forall k | 0 <= k < |s.scans| :: !Pending(s.scans[k], v)
  }

  predicate AllDone(s: State) {
    forall k | 0 <= k < |s.scans| :: s.scans[k].Joined? || s.scans[k].Finished?
  }

  predicate OnlyOneOpen(visits: seq<VisitRow>) {
    forall i, j | 0 <= i < j < |visits| :: visits[i] != Open || visits[j] != Open
  }

  // ----- what scans may touch ----------------------------------------------------------------

  /** A scan joins the newest visit that is open when it looks, if there is one. */
  lemma FindJoinsNewest(s: State, k: nat)
    requires k < |s.scans| && s.scans[k].Began?
    ensures var t := Apply(s, Find(k)); var after := t.scans[k];
      && t.visits == s.visits
      && (after.FoundNone? ==> forall v | 0 <= v < |s.visits| :: s.visits[v] != Open)
      && (!after.FoundNone? ==>
            && after.Joined? && after.visit < |s.visits| && s.visits[after.visit] == Open
            && forall v | after.visit < v < |s.visits| :: s.visits[v] != Open)
  {
  }

  /** Scans never touch a visit of another scan's: a row changes only when an open
      visit is closed by staff, or deleted by the scan that created it; and creating
      adds one open row. */
  lemma ScansTouchOnlyTheirOwn(s: State, e: Event, v: nat)
    requires v < |Apply(s, e).visits|
    ensures |s.visits| <= |Apply(s, e).visits| <= |s.visits| + 1
    ensures v >= |s.visits| ==> e.Create? && Apply(s, e).visits[v] == Open
    ensures v < |s.visits| && Apply(s, e).visits[v] != s.visits[v] ==>
      || (e == Close(v) && s.visits[v] == Open && Apply(s, e).visits[v] == Closed)
      || (e.Delete? && e.scan < |s.scans| && s.scans[e.scan].Loses? && s.scans[e.scan].mine == v
          && Apply(s, e).visits[v] == Deleted)
    ensures e == Close(v) && v < |s.visits| && s.visits[v] == Open ==> Apply(s, e).visits[v] == Closed
  {
  }

  /** Visit v is open and no older one is. */
  predicate Oldest(visits: seq<VisitRow>, v: nat) {
    v < |visits| && visits[v] == Open && forall u | 0 <= u < v :: visits[u] != Open
  }

  /** A scan that created a visit gives it up exactly when two or more are open and
      another is the oldest, and then keeps that one; otherwise it answers with its
      own, even if that has been closed meanwhile. */
  lemma ListDecides(s: State, k: nat)
    requires k < |s.scans| && s.scans[k].Created?
    ensures var mine, after := s.scans[k].mine, Apply(s, List(k)).scans[k];
      && (after.Loses? <==> !Oldest(s.visits, mine) && exists u, v | 0 <= u < v < |s.visits| ::
            s.visits[u] == Open && s.visits[v] == Open)
      && (after.Loses? ==> after.mine == mine && Oldest(s.visits, after.keep))
      && (!after.Loses? ==> after == Finished(mine, mine))
      && Apply(s, List(k)).visits == s.visits
  {
    var oldest := OldestOpen(s.visits, 0);
    if oldest.Some? {
      if AnotherOpen(s.visits, oldest.value) {
        var i :| 0 <= i < |s.visits| && i != oldest.value && s.visits[i] == Open;
        assert s.visits[oldest.value] == Open && oldest.value < i;
      }
      forall u, v | 0 <= u < v < |s.visits| && s.visits[u] == Open && s.visits[v] == Open
        ensures AnotherOpen(s.visits, oldest.value)
      {
        assert oldest.value <= u;
      }
    }
  }

  // ----- with closes: never two -------------------------------------------------------------

  predicate Inv(s: State) {
    && (forall k | 0 <= k < |s.scans| :: s.scans[k].Created? || s.scans[k].Loses? ==> s.scans[k].mine < |s.visits|)
    && (forall u, v | 0 <= u < v < |s.visits| && s.visits[u] == Open && s.visits[v] == Open :: !Settled(s, v))
  }

  lemma ApplyInv(s: State, e: Event)
    requires Inv(s)
    ensures Inv(Apply(s, e))
  {
    var t := Apply(s, e);
    forall u, v | 0 <= u < v < |t.visits| && t.visits[u] == Open && t.visits[v] == Open ensures !Settled(t, v) {
      if v == |s.visits| {
        assert Pending(t.scans[e.scan], v);
      } else {
        StillPending(s, e, u, v);
      }
    }
  }

  /** The newer of two open visits still has a scan to answer for it. */
  lemma StillPending(s: State, e: Event, u: nat, v: nat)
    requires Inv(s) && u < v < |s.visits|
    requires Apply(s, e).visits[u] == Open && Apply(s, e).visits[v] == Open
    ensures !Settled(Apply(s, e), v)
  {
    assert s.visits[u] == Open && s.visits[v] == Open;
    var k :| 0 <= k < |s.scans| && Pending(s.scans[k], v);
    assert Pending(Apply(s, e).scans[k], v);
  }

  lemma {:induction false} ExecInv(s: State, es: seq<Event>)
    requires Inv(s)
    ensures Inv(Exec(s, es))
    decreases |es|
  {
    if es != [] {
      ApplyInv(s, es[0]);
      ExecInv(Apply(s, es[0]), es[1..]);
    }
  }

  /** Whatever is closed meanwhile, once every scan has finished at most one visit
      of the table is open. */
  lemma NeverTwoOpen(s: State, es: seq<Event>)
    requires Idle(s) && AllDone(Exec(s, es))
    ensures OnlyOneOpen(Exec(s, es).visits)
  {
    ExecInv(s, es);
    var t := Exec(s, es);
    forall i, j | 0 <= i < j < |t.visits| ensures t.visits[i] != Open || t.visits[j] != Open {
      assert Settled(t, j);
    }
  }

  // ----- without closes: exactly one, the oldest ----------------------------------------------

  /** Every scan past its find agrees with the oldest open visit. */
  predicate Agreed(s: State) {
    var oldest := OldestOpen(s.visits, 0);
    (forall j, k | 0 <= j < k < |s.scans| ::
      (s.scans[j].Created? || s.scans[j].Loses?) && (s.scans[k].Created? || s.scans[k].Loses?) ==>
        s.scans[j].mine != s.scans[k].mine) &&
    forall k | 0 <= k < |s.scans| ::
      match s.scans[k]
      case Began => true
      case FoundNone => true
      case Joined(_) => oldest.Some?
      case Created(mine) => mine < |s.visits| && s.visits[mine] == Open
      case Loses(mine, keep) => oldest == Some(keep) && keep != mine < |s.visits|
      case Finished(_, visit) => oldest == Some(visit)
  }

  lemma OldestOpenIs(visits: seq<VisitRow>, from: nat, p: nat)
    requires from <= p < |visits| && visits[p] == Open && forall i | from <= i < p :: visits[i] != Open
    ensures OldestOpen(visits, from) == Some(p)
  {
  }

  lemma OldestStays(s: State, e: Event)
    requires Agreed(s) && !e.Close?
    ensures var oldest, after := OldestOpen(s.visits, 0), OldestOpen(Apply(s, e).visits, 0);
      && (oldest.Some? ==> after == oldest)
      && (oldest.None? && |Apply(s, e).visits| > |s.visits| ==> after == Some(|s.visits|))
      && (oldest.None? && |Apply(s, e).visits| == |s.visits| ==> after == None)
  {
    var t := Apply(s, e);
    var oldest := OldestOpen(s.visits, 0);
    if oldest.Some? {
      OldestOpenIs(t.visits, 0, oldest.value);
    } else if |t.visits| > |s.visits| {
      OldestOpenIs(t.visits, 0, |s.visits|);
    }
  }

  lemma ApplyAgreed(s: State, e: Event)
    requires Agreed(s) && !e.Close?
    ensures Agreed(Apply(s, e))
    ensures OldestOpen(s.visits, 0).Some? ==> OldestOpen(Apply(s, e).visits, 0) == OldestOpen(s.visits, 0)
  {
    OldestStays(s, e);
    var oldest := OldestOpen(s.visits, 0);
    if e.List? && e.scan < |s.scans| && s.scans[e.scan].Created? {
      var mine := s.scans[e.scan].mine;
      assert oldest.Some?;
      assert oldest.value != mine ==> AnotherOpen(s.visits, oldest.value);
    }
  }

  lemma {:induction false} ExecAgreed(s: State, es: seq<Event>)
    requires Agreed(s) && forall k | 0 <= k < |es| :: !es[k].Close?
    ensures Agreed(Exec(s, es))
    ensures OldestOpen(s.visits, 0).Some? ==> OldestOpen(Exec(s, es).visits, 0) == OldestOpen(s.visits, 0)
    decreases |es|
  {
    if es != [] {
      ApplyAgreed(s, es[0]);
      ExecAgreed(Apply(s, es[0]), es[1..]);
    }
  }

  /** With no close meanwhile the oldest open visit, once there is one, stays open
      and oldest for the rest of every run, and every creating scan that has finished
      returned it. */
  lemma OldestVisitWins(s: State, before: seq<Event>, after: seq<Event>)
    requires Idle(s)
    requires forall i | 0 <= i < |before| :: !before[i].Close?
    requires forall i | 0 <= i < |after| :: !after[i].Close?
    ensures var mid := Exec(s, before); var t := Exec(mid, after);
      && (OldestOpen(mid.visits, 0).Some? ==> OldestOpen(t.visits, 0) == OldestOpen(mid.visits, 0))
      && (forall k | 0 <= k < |t.scans| ::
            t.scans[k].Finished? ==> OldestOpen(t.visits, 0) == Some(t.scans[k].visit))
  {
    ExecAgreed(s, before);
    ExecAgreed(Exec(s, before), after);
  }

  /** And when all scans have finished, at least one of them, it is the only one open. */
  lemma ExactlyOneOpen(s: State, es: seq<Event>)
    requires Idle(s) && (forall i | 0 <= i < |es| :: !es[i].Close?)
    requires AllDone(Exec(s, es)) && Exec(s, es).scans != []
    ensures OldestOpen(Exec(s, es).visits, 0).Some? && OnlyOneOpen(Exec(s, es).visits)
  {
    ExecAgreed(s, es);
    NeverTwoOpen(s, es);
    assert Exec(s, es).scans[0].Joined? || Exec(s, es).scans[0].Finished?;
  }

  // ----- the running code ----------------------------------------------------------------------

  /** n visits, all open. */
  function AllOpen(n: nat): (visits: seq<VisitRow>)
    ensures |visits| == n && forall i | 0 <= i < n :: visits[i] == Open
  {
    seq(n, i => Open)
  }

  class TableVisits {
    var visits: seq<VisitRow>

    constructor ()
      ensures visits == []
    {
      visits := [];
    }

    /** The whole handler, with `ahead` rival visits created between its find and its
        own creation and `behind` more before it lists. The oldest of them all is the
        one it answers with; it discards its own exactly when a rival was ahead, and
        touches nobody else's. */
    method OpenOrJoinVisit(ahead: nat, behind: nat) returns (visit: nat)
      requires OnlyOneOpen(visits)
      modifies this
      ensures NewestOpen(old(visits)).Some? ==> visits == old(visits) && Some(visit) == NewestOpen(old(visits))
      ensures NewestOpen(old(visits)).None? ==>
        && visits == old(visits) + AllOpen(ahead) + [if ahead > 0 then Deleted else Open] + AllOpen(behind)
        && OldestOpen(visits, 0) == Some(visit)
    {
      var existing := NewestOpen(visits);
      if existing.Some? { return existing.value; }
      ghost var was := visits;
      visits := visits + AllOpen(ahead);
      var created := |visits|;
      visits := visits + [Open] + AllOpen(behind);
      var first, count := created, 0;
      var i := |visits|;
      while i > 0
        invariant 0 <= i <= |visits|
        invariant i <= |was| ==> first == |was|
        invariant |was| < i < |visits| ==> first == i
        invariant i == |visits| ==> first == created
        invariant count == |visits| - if i > |was| then i else |was|
      {
        i := i - 1;
        if visits[i] == Open {
          first := i;
          count := count + 1;
        }
      }
      if count > 1 && first != created {
        visits := visits[created := Deleted];
        OldestOpenIs(visits, 0, first);
        return first;
      }
      visit := created;
      OldestOpenIs(visits, 0, visit);
    }
  }
}
