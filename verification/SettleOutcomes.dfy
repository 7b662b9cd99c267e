/** What a settlement leaves behind in the races of SettleRace: nothing if it loses,
    and, if it wins, possibly an order the kitchen had not finished. */
module SettleOutcomes {
  import opened Common
  import opened Orders
  import opened SettleRace

  // ----- losers ------------------------------------------------------------------------------

  /** The run without settlement k's statements. */
  function Without(es: seq<Event>, k: nat): seq<Event> {
    if es == [] then []
    else (if es[0] == Advance(k) then [] else [es[0]]) + Without(es[1..], k)
  }

  /** Equal up to how far settlement k has got. */
  predicate SameBut(s: State, t: State, k: nat) {
    && s.orders == t.orders && s.visits == t.visits && s.writers == t.writers
    && s.patches == t.patches && s.landed == t.landed && |s.settles| == |t.settles|
    && forall j | 0 <= j < |s.settles| && j != k :: s.settles[j] == t.settles[j]
  }

  lemma OthersStep(s: State, t: State, e: Event, k: nat)
    requires SameBut(s, t, k) && e != Advance(k)
    ensures SameBut(Apply(s, e), Apply(t, e), k)
  {
    if e.Advance? { RivalsAgree(s, t, e.settle, k); }
  }

  lemma RivalsAgree(s: State, t: State, j: nat, k: nat)
    requires SameBut(s, t, k) && j != k
    ensures SameBut(Apply(s, Advance(j)), Apply(t, Advance(j)), k)
  {
    if j < |s.settles| { assert s.settles[j] == t.settles[j]; }
  }

  lemma LosingStep(s: State, t: State, k: nat)
    requires SameBut(s, t, k)
    ensures SameBut(Apply(s, Advance(k)), t, k) || (k < |s.settles| && Wins(Apply(s, Advance(k)).settles[k]))
  {
  }

  lemma {:induction false} ErasedRun(s: State, t: State, es: seq<Event>, k: nat)
    requires SameBut(s, t, k)
    requires k < |Exec(s, es).settles| ==> !Wins(Exec(s, es).settles[k])
    ensures SameBut(Exec(s, es), Exec(t, Without(es, k)), k)
    decreases |es|
  {
    if es != [] {
      if es[0] == Advance(k) {
        LosingStep(s, t, k);
        if k < |s.settles| && Wins(Apply(s, es[0]).settles[k]) { WinnerForGood(Apply(s, es[0]), es[1..], k); }
        ErasedRun(Apply(s, es[0]), t, es[1..], k);
        assert Without(es, k) == Without(es[1..], k);
      } else {
        OthersStep(s, t, es[0], k);
        ErasedRun(Apply(s, es[0]), Apply(t, es[0]), es[1..], k);
        assert Without(es, k)[1..] == Without(es[1..], k);
      }
    }
  }

  /** A settlement that ends up losing, or that never gets to its close, leaves no
      trace: every row and every other settlement is as in the run without its
      statements, and at no point does any visit name it. */
  lemma LoserChangesNothing(s: State, es: seq<Event>, k: nat)
    requires Inv(s) && k < |Exec(s, es).settles| && !Wins(Exec(s, es).settles[k])
    ensures SameBut(Exec(s, es), Exec(s, Without(es, k)), k)
    ensures forall n | 0 <= n <= |es| :: forall v <- Exec(s, es[..n]).visits :: v.reason != SettledBy(k)
  {
    ErasedRun(s, s, es, k);
    forall n | 0 <= n <= |es| ensures forall v <- Exec(s, es[..n]).visits :: v.reason != SettledBy(k) {
      var mid := Exec(s, es[..n]);
      ExecInv(s, es[..n]);
      assert es[..n] + es[n..] == es;
      ExecConcat(s, es[..n], es[n..]);
      forall v <- mid.visits ensures v.reason != SettledBy(k) {
        var i :| 0 <= i < |mid.visits| && mid.visits[i] == v;
        assert VisitOk(mid, i);
        if v.reason == SettledBy(k) { WinnerForGood(mid, es[n..], k); }
      }
    }
  }

  // ----- food still in the kitchen -------------------------------------------------------------

  /** The kitchen check and the bill are two reads, and so are a status change's
      check and its write. An unforced bill contains food still in the kitchen
      exactly when an order in the kitchen was placed after the count, or put back
      since by a status change that had been checked before it. */
  lemma UnforcedBillExactly(s: State, k: nat)
    requires Inv(s) && k < |s.settles| && s.settles[k].Counted? && !s.settles[k].force
    ensures FoodInKitchen(Settle(s, k).settles[k].seen, s.settles[k].visitId) <==>
      exists i | 0 <= i < |s.orders| ::
        && s.orders[i].visitId == s.settles[k].visitId && InFlight(s.orders[i].status)
        && (i >= s.settles[k].upTo || PutBack(s, s.settles[k], i))
  {
    var count := s.settles[k];
    assert CountOk(s, count);
    forall i | 0 <= i < |s.orders| && s.orders[i].visitId == count.visitId && InFlight(s.orders[i].status)
      ensures i >= count.upTo || PutBack(s, count, i)
    {
      if i < count.upTo { assert CountedOut(s, count, i); }
    }
  }

  /** A status change past its check that will put an order of the visit into the
      kitchen. */
  predicate WillPutBack(s: State, q: Patch, v: nat) {
    q.Checked? && InFlight(q.to) && q.order < |s.orders| && s.orders[q.order].visitId == v
  }

  predicate NobodyPutsBack(s: State, v: nat) {
    forall q | 0 <= q < |s.patches| :: !WillPutBack(s, s.patches[q], v)
  }

  /** While settlement k is where it was, every order it counted is out of the
      kitchen. */
  predicate StillOut(s: State, count: Phase, k: nat) {
    count.Counted? && k < |s.settles| && s.settles[k] == count ==>
      forall i | 0 <= i < count.upTo && i < |s.orders| ::
        s.orders[i].visitId == count.visitId ==> !InFlight(s.orders[i].status)
  }

  ghost predicate CountHolds(s: State, k: nat)
    requires k < |s.settles|
  {
    forall es: seq<Event> :: StillOut(Exec(s, es), s.settles[k], k)
  }

  /** No status change checked before the count has put an order of its visit back
      since, or still will. */
  predicate Undisturbed(s: State, count: Phase)
    requires count.Counted?
  {
    forall q | 0 <= q < |s.patches| && q < count.checks :: Harmless(s, s.patches[q], count)
  }

  predicate Harmless(s: State, q: Patch, count: Phase)
    requires count.Counted?
  {
    InFlight(q.to) && (q.Checked? || q.at >= count.writes) ==>
      q.order < |s.orders| && s.orders[q.order].visitId != count.visitId
  }

  lemma UndisturbedStep(s: State, e: Event, count: Phase)
    requires Inv(s) && count.Counted? && CountOk(s, count) && Undisturbed(s, count)
    ensures Undisturbed(Apply(s, e), count)
  {
    var t := Apply(s, e);
    RowsPersist(s, e);
    forall q | 0 <= q < |t.patches| && q < count.checks ensures Harmless(t, t.patches[q], count) {
      assert Harmless(s, s.patches[q], count);
    }
  }

  lemma {:induction false} UndisturbedRun(s: State, es: seq<Event>, count: Phase)
    requires Inv(s) && count.Counted? && CountOk(s, count) && Undisturbed(s, count)
    ensures Inv(Exec(s, es)) && CountOk(Exec(s, es), count) && Undisturbed(Exec(s, es), count)
    decreases |es|
  {
    if es != [] {
      ApplyInv(s, es[0]);
      CountStep(s, es[0], count);
      UndisturbedStep(s, es[0], count);
      UndisturbedRun(Apply(s, es[0]), es[1..], count);
    }
  }

  lemma UndisturbedMeansOut(s: State, count: Phase, k: nat)
    requires Inv(s) && count.Counted? && !count.force && CountOk(s, count) && Undisturbed(s, count)
    ensures StillOut(s, count, k)
  {
    forall i | 0 <= i < count.upTo && i < |s.orders| && s.orders[i].visitId == count.visitId
      ensures !InFlight(s.orders[i].status)
    {
      assert CountedOut(s, count, i);
    }
  }

  /** An unforced count that found no food in the kitchen goes on being true of the
      orders it saw, whatever happens until the bill is built, if and only if no
      status change was past its check and on its way to put one of them back. */
  lemma CountHoldsExactly(s: State, k: nat)
    requires Inv(s) && k < |s.settles| && s.settles[k].FoundOpen? && !s.settles[k].force
    requires !FoodInKitchen(s.orders, s.settles[k].visitId)
    ensures CountHolds(Settle(s, k), k) <==> NobodyPutsBack(s, s.settles[k].visitId)
  {
    var v := s.settles[k].visitId;
    var t := Settle(s, k);
    var count := t.settles[k];
    if NobodyPutsBack(s, v) {
      ApplyInv(s, Advance(k));
      forall q | 0 <= q < |t.patches| && q < count.checks ensures Harmless(t, t.patches[q], count) {
        assert !WillPutBack(s, s.patches[q], v) && PatchOk(s, s.patches[q]);
      }
      forall es: seq<Event> ensures StillOut(Exec(t, es), count, k) {
        UndisturbedRun(t, es, count);
        UndisturbedMeansOut(Exec(t, es), count, k);
      }
    } else {
      var q :| 0 <= q < |s.patches| && WillPutBack(s, s.patches[q], v);
      ExecOne(t, WriteMove(q));
      assert InFlight(Exec(t, [WriteMove(q)]).orders[s.patches[q].order].status);
      assert !StillOut(Exec(t, [WriteMove(q)]), count, k);
    }
  }

  /** So then only an order placed after the count can be in the kitchen and on the
      bill. */
  lemma OnlyLateOrders(s: State, k: nat, es: seq<Event>)
    requires Inv(s) && k < |s.settles| && s.settles[k].FoundOpen? && !s.settles[k].force
    requires !FoodInKitchen(s.orders, s.settles[k].visitId) && NobodyPutsBack(s, s.settles[k].visitId)
    requires k < |Exec(Settle(s, k), es).settles| && Exec(Settle(s, k), es).settles[k] == Settle(s, k).settles[k]
    ensures var t := Exec(Settle(s, k), es);
      FoodInKitchen(Settle(t, k).settles[k].seen, s.settles[k].visitId) <==>
        exists i | |s.orders| <= i < |t.orders| ::
          t.orders[i].visitId == s.settles[k].visitId && InFlight(t.orders[i].status)
  {
    CountHoldsExactly(s, k);
    assert StillOut(Exec(Settle(s, k), es), Settle(s, k).settles[k], k);
  }

  /** And that does happen: an unforced settlement that ends by marking an order
      paid which the kitchen has not even accepted. */
  lemma LateOrderWitness(amount: int) returns (s: State, o: OrderRow, es: seq<Event>)
    ensures Fresh(s) && s.orders == [] && o.status == Received && |o.paidBy| == 0 && o.amount == amount
    ensures Exec(s, es).settles == [Done(0, [o])] && Exec(s, es).orders == [MarkedBy(o, 0)]
  {
    s := State([], [Visit(Open, Unsettled, None)], [], [], [], 0);
    o := OrderRow(0, Received, amount, {});
    es := [Begin(0, false), Advance(0), Advance(0), Place(0, amount), Advance(0), Advance(0), Advance(0)];
    LateOrderRun(s, o, es);
  }

  lemma LateOrderRun(s: State, o: OrderRow, es: seq<Event>)
    requires s == State([], [Visit(Open, Unsettled, None)], [], [], [], 0) && |es| == 7
    requires o.visitId == 0 && o.status == Received && |o.paidBy| == 0
    requires es[0] == Begin(0, false) && es[3] == Place(0, o.amount)
    requires es[1] == es[2] == es[4] == es[5] == es[6] == Advance(0)
    ensures Exec(s, es).settles == [Done(0, [o])] && Exec(s, es).orders == [MarkedBy(o, 0)]
  {
    var s1 := s.(settles := [Began(0, false)]);
    ExecStep(s, es, 0, s1);
    var s2 := s.(settles := [FoundOpen(0, false)]);
    ExecStep(s1, es, 1, s2);
    var s3 := s.(settles := [Counted(0, false, 0, 0, 0)]);
    ExecStep(s2, es, 2, s3);
    assert o == OrderRow(0, Received, o.amount, {});
    var placed := s.(orders := [o]);
    var s4 := placed.(settles := [Counted(0, false, 0, 0, 0)]);
    ExecStep(s3, es, 3, s4);
    assert es[0..] == es;
    LateOrderSettled(placed, o, s4, es[1..]);
    assert es[1..][3..] == es[4..];
  }

  lemma LateOrderSettled(placed: State, o: OrderRow, s4: State, es: seq<Event>)
    requires o.visitId == 0 && o.status == Received
    requires placed == State([o], [Visit(Open, Unsettled, None)], [], [], [], 0)
    requires s4 == placed.(settles := [Counted(0, false, 0, 0, 0)])
    requires |es| == 6 && es[3] == es[4] == es[5] == Advance(0)
    ensures Exec(s4, es[3..]).settles == [Done(0, [o])] && Exec(s4, es[3..]).orders == [MarkedBy(o, 0)]
  {
    SettlesOn(placed, 0, s4, es);
    MarkedOnce(o, 0, 0);
    assert [] + [Done(0, [o])] == [Done(0, [o])];
  }

  /** So does the other: the desk's change to ready was checked before a colleague
      made it and served the order; written after an unforced settlement has
      counted, it leaves an order in the kitchen that is marked paid. */
  lemma StaleMoveWitness(o: OrderRow) returns (s: State, es: seq<Event>)
    requires o.visitId == 0 && o.status == Preparing && |o.paidBy| == 0
    ensures Fresh(s) && s.orders == [o]
    ensures forall e <- es :: !e.Place?
    ensures Exec(s, es).settles == [Done(0, [o.(status := Ready)])]
    ensures Exec(s, es).orders == [MarkedBy(o.(status := Ready), 0)]
  {
    s := State([o], [Visit(Open, Unsettled, None)], [], [], [], 0);
    var served := [CheckMove(0, Ready), CheckMove(0, Ready), WriteMove(1), CheckMove(0, Served), WriteMove(2)];
    var settled := [Begin(0, false), Advance(0), Advance(0), WriteMove(0), Advance(0), Advance(0), Advance(0)];
    es := served + settled;
    StaleMoveRun(s, o, served, settled);
  }

  lemma StaleMoveRun(s: State, o: OrderRow, served: seq<Event>, settled: seq<Event>)
    requires o.visitId == 0 && o.status == Preparing
    requires s == State([o], [Visit(Open, Unsettled, None)], [], [], [], 0) && |served| == 5 && |settled| == 7
    requires served[0] == served[1] == CheckMove(0, Ready) && served[2] == WriteMove(1)
    requires served[3] == CheckMove(0, Served) && served[4] == WriteMove(2)
    requires settled[0] == Begin(0, false) && settled[3] == WriteMove(0)
    requires settled[1] == settled[2] == settled[4] == settled[5] == settled[6] == Advance(0)
    ensures Exec(s, served + settled).settles == [Done(0, [o.(status := Ready)])]
    ensures Exec(s, served + settled).orders == [MarkedBy(o.(status := Ready), 0)]
  {
    ExecConcat(s, served, settled);
    ServedMeanwhile(s, o, served);
    StaleMoveSettled(Exec(s, served), o, settled);
  }

  lemma ServedMeanwhile(s: State, o: OrderRow, es: seq<Event>)
    requires o.status == Preparing && s.orders == [o] && s.patches == [] && s.landed == 0 && |es| == 5
    requires es[0] == es[1] == CheckMove(0, Ready) && es[2] == WriteMove(1)
    requires es[3] == CheckMove(0, Served) && es[4] == WriteMove(2)
    ensures Exec(s, es) == s.(
      orders := [o.(status := Served)], landed := 2,
      patches := [Checked(0, Ready), Landed(0, Ready, 0), Landed(0, Served, 1)])
  {
    var s1 := s.(patches := [Checked(0, Ready)]);
    ExecStep(s, es, 0, s1);
    var s2 := s.(patches := [Checked(0, Ready), Checked(0, Ready)]);
    ExecStep(s1, es, 1, s2);
    var s3 := s.(orders := [o.(status := Ready)], patches := [Checked(0, Ready), Landed(0, Ready, 0)], landed := 1);
    ExecStep(s2, es, 2, s3);
    var s4 := s3.(patches := [Checked(0, Ready), Landed(0, Ready, 0), Checked(0, Served)]);
    ExecStep(s3, es, 3, s4);
    var s5 := s.(orders := [o.(status := Served)], landed := 2,
                 patches := [Checked(0, Ready), Landed(0, Ready, 0), Landed(0, Served, 1)]);
    ExecStep(s4, es, 4, s5);
    assert es[0..] == es && es[5..] == [];
  }

  lemma StaleMoveSettled(s: State, o: OrderRow, es: seq<Event>)
    requires o.visitId == 0 && s.orders == [o.(status := Served)] && s.visits == [Visit(Open, Unsettled, None)]
    requires s.settles == [] && |s.patches| == 3 && s.patches[0] == Checked(0, Ready) && |es| == 7
    requires es[0] == Begin(0, false) && es[3] == WriteMove(0)
    requires es[1] == es[2] == es[4] == es[5] == es[6] == Advance(0)
    ensures Exec(s, es).settles == [Done(0, [o.(status := Ready)])]
    ensures Exec(s, es).orders == [MarkedBy(o.(status := Ready), 0)]
  {
    var s1 := s.(settles := [Began(0, false)]);
    ExecStep(s, es, 0, s1);
    var s2 := s.(settles := [FoundOpen(0, false)]);
    ExecStep(s1, es, 1, s2);
    var s3 := s.(settles := [Counted(0, false, 1, 3, s.landed)]);
    ExecStep(s2, es, 2, s3);
    assert es[0..] == es;
    StaleMoveWritten(s, o, es);
  }

  lemma StaleMoveWritten(s: State, o: OrderRow, es: seq<Event>)
    requires o.visitId == 0 && s.orders == [o.(status := Served)] && s.visits == [Visit(Open, Unsettled, None)]
    requires s.settles == [] && |s.patches| == 3 && s.patches[0] == Checked(0, Ready) && |es| == 7
    requires es[3] == WriteMove(0) && es[4] == es[5] == es[6] == Advance(0)
    ensures var counted := s.(settles := [Counted(0, false, 1, 3, s.landed)]);
      && Exec(counted, es[3..]).settles == [Done(0, [o.(status := Ready)])]
      && Exec(counted, es[3..]).orders == [MarkedBy(o.(status := Ready), 0)]
  {
    var s3 := s.(settles := [Counted(0, false, 1, 3, s.landed)]);
    var moved := Write(s, 0);
    assert moved.orders == [o.(status := Ready)];
    var s4 := moved.(settles := s3.settles);
    ExecStep(s3, es, 3, s4);
    assert es[1..][3..] == es[4..];
    SettlesOn(moved, 0, s4, es[1..]);
    MarkedOnce(o.(status := Ready), 0, 0);
    assert [] + [Done(0, moved.orders)] == [Done(0, moved.orders)];
  }
}
