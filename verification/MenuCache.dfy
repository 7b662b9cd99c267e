/** The per-venue menu cache holds the promise of a load, not its value; the
    menu.changed event and a failed load throw it away. Loads start, read and
    finish while writes, events and other calls go on. */
module MenuCache {
  import opened Common

  datatype Progress = Running | Loaded(version: nat) | Failed

  /** started is the database version when the load began; a finished load read
      nothing older than its version. */
  datatype Load = Load(venueId: nat, started: nat, progress: Progress)

  /** published gives, per venue, the database version its last event announced. */
  datatype State = State(version: nat, published: map<nat, nat>, cache: map<nat, nat>, loads: seq<Load>)

  datatype Event =
    | Write
    | Publish(venueId: nat)
    | Call(venueId: nat)
    | Finish(load: nat, version: nat)
    | Fail(load: nat)
    | Reset

  function Published(s: State, v: nat): nat {
    if v in s.published then s.published[v] else 0
  }

  function AfterCall(s: State, v: nat): State {
    if v in s.cache then s
    else s.(cache := s.cache[v := |s.loads|], loads := s.loads + [Load(v, s.version, Running)])
  }

  function Apply(s: State, e: Event): State {
    match e
    case Write => s.(version := s.version + 1)
    case Publish(v) => s.(published := s.published[v := s.version], cache := s.cache - {v})
    case Call(v) => AfterCall(s, v)
    case Finish(l, version) =>
      if l < |s.loads| && s.loads[l].progress.Running? && s.loads[l].started <= version <= s.version
      then s.(loads := s.loads[l := s.loads[l].(progress := Loaded(version))]) else s
    case Fail(l) =>
      if l < |s.loads| && s.loads[l].progress.Running?
      then s.(loads := s.loads[l := s.loads[l].(progress := Failed)], cache := s.cache - {s.loads[l].venueId}) else s
    case Reset => s.(cache := map[])
  }

  function Exec(s: State, es: seq<Event>): State
    decreases |es|
  {
    if es == [] then s else Exec(Apply(s, es[0]), es[1..])
  }

  /** The cached promise is the venue's own, has not failed, and was started
      after the venue's last event. */
  predicate EntryOk(s: State, v: nat)
    requires v in s.cache
  {
    && s.cache[v] < |s.loads| && s.loads[s.cache[v]].venueId == v
    && !s.loads[s.cache[v]].progress.Failed? && Published(s, v) <= s.loads[s.cache[v]].started
  }

  predicate LoadOk(s: State, l: Load) {
    l.started <= s.version && (l.progress.Loaded? ==> l.started <= l.progress.version)
  }

  predicate Inv(s: State) {
    && (forall v <- s.cache :: EntryOk(s, v))
    && (forall v <- s.published :: s.published[v] <= s.version)
    && (forall l | 0 <= l < |s.loads| :: LoadOk(s, s.loads[l]))
  }

  lemma ApplyInv(s: State, e: Event)
    requires Inv(s)
    ensures Inv(Apply(s, e))
  {
    var t := Apply(s, e);
    forall v <- t.cache ensures EntryOk(t, v) {
      if v in s.cache { assert EntryOk(s, v); }
    }
    forall l | 0 <= l < |t.loads| ensures LoadOk(t, t.loads[l]) {
      if l < |s.loads| { assert LoadOk(s, s.loads[l]); }
    }
  }

  lemma {:induction false} ExecInv(s: State, es: seq<Event>)
    requires Inv(s)
    ensures Inv(Exec(s, es))
    decreases |es|
  {
    if es != [] {
      ApplyInv(s, es[0]);
      ExecInv(Apply(s, es[0]), es[1..]);
    }
  }

  const EMPTY: State := State(0, map[], map[], [])

  /** A load keeps its venue and start for good, and once over stays over. */
  lemma {:induction false} LoadsPersist(s: State, es: seq<Event>, l: nat)
    requires l < |s.loads|
    ensures l < |Exec(s, es).loads|
    ensures Exec(s, es).loads[l].venueId == s.loads[l].venueId && Exec(s, es).loads[l].started == s.loads[l].started
    ensures !s.loads[l].progress.Running? ==> Exec(s, es).loads[l] == s.loads[l]
    decreases |es|
  {
    if es != [] { LoadsPersist(Apply(s, es[0]), es[1..], l); }
  }

  /** A call made after a write was announced never resolves to data read before
      it: the promise it returns is this venue's, has not failed, was started
      after the venue's last event, and if it ever resolves then to something at
      least that new. */
  lemma CallsAreFresh(es: seq<Event>, v: nat, later: seq<Event>)
    ensures var s := Exec(EMPTY, es);
      var t := AfterCall(s, v);
      && v in t.cache && t.cache[v] < |t.loads|
      && t.loads[t.cache[v]].venueId == v && !t.loads[t.cache[v]].progress.Failed?
      && Published(s, v) <= t.loads[t.cache[v]].started
      && t.cache[v] < |Exec(t, later).loads|
      && var end := Exec(t, later).loads[t.cache[v]].progress;
         end.Loaded? ==> Published(s, v) <= end.version
  {
    var s := Exec(EMPTY, es);
    ExecInv(EMPTY, es);
    ApplyInv(s, Call(v));
    var t := AfterCall(s, v);
    ExecInv(t, later);
    LoadsPersist(t, later, t.cache[v]);
  }

  /** Events after which a venue's entry may be gone. */
  predicate Disturbs(s: State, e: Event, v: nat) {
    || e == Publish(v) || e.Reset?
    || (e.Fail? && e.load < |s.loads| && s.loads[e.load].progress.Running? && s.loads[e.load].venueId == v)
  }

  predicate Undisturbed(s: State, es: seq<Event>, v: nat)
    decreases |es|
  {
    es == [] || (!Disturbs(s, es[0], v) && Undisturbed(Apply(s, es[0]), es[1..], v))
  }

  function LoadsOf(loads: seq<Load>, v: nat): nat {
    if loads == [] then 0 else LoadsOf(loads[..|loads| - 1], v) + if loads[|loads| - 1].venueId == v then 1 else 0
  }

  lemma {:induction false} LoadsOfUpdate(loads: seq<Load>, i: nat, l: Load, v: nat)
    requires i < |loads| && l.venueId == loads[i].venueId
    ensures LoadsOf(loads[i := l], v) == LoadsOf(loads, v)
  {
    var n := |loads| - 1;
    if i < n {
      assert loads[i := l][..n] == loads[..n][i := l];
      LoadsOfUpdate(loads[..n], i, l, v);
    } else {
      assert loads[i := l][..n] == loads[..n];
    }
  }

  lemma UndisturbedStep(s: State, e: Event, v: nat)
    requires Inv(s) && v in s.cache && !Disturbs(s, e, v)
    ensures v in Apply(s, e).cache && Apply(s, e).cache[v] == s.cache[v]
    ensures LoadsOf(Apply(s, e).loads, v) == LoadsOf(s.loads, v)
  {
    match e
    case Call(w) => if w !in s.cache { assert (s.loads + [Load(w, s.version, Running)])[..|s.loads|] == s.loads; }
    case Finish(l, version) =>
      if l < |s.loads| { LoadsOfUpdate(s.loads, l, s.loads[l].(progress := Loaded(version)), v); }
    case Fail(l) => if l < |s.loads| { LoadsOfUpdate(s.loads, l, s.loads[l].(progress := Failed), v); }
    case _ =>
  }

  /** With no event of the venue, no failed load of it and no reset in between,
      every later call gets the very same promise and no second load is started,
      whatever happens to other venues. */
  lemma {:induction false} CallsShareOneLoad(s: State, es: seq<Event>, v: nat)
    requires Inv(s) && v in s.cache && Undisturbed(s, es, v)
    ensures v in Exec(s, es).cache && Exec(s, es).cache[v] == s.cache[v]
    ensures AfterCall(Exec(s, es), v) == Exec(s, es)
    ensures LoadsOf(Exec(s, es).loads, v) == LoadsOf(s.loads, v)
    decreases |es|
  {
    if es != [] {
      UndisturbedStep(s, es[0], v);
      ApplyInv(s, es[0]);
      CallsShareOneLoad(Apply(s, es[0]), es[1..], v);
    }
  }

  /** The cache itself, for one process. A promise is the number of its load; history
      is the run so far, database writes and other loads' ends included. */
  class Cache {
    var cache: map<nat, nat>
    var venues: seq<nat>
    ghost var history: State

    /** The process's own memory agrees with the run, and the run is one that can happen. */
    ghost predicate Valid()
      reads this
    {
      && Inv(history) && history.cache == cache && |venues| == |history.loads|
      && forall l | 0 <= l < |venues| :: history.loads[l].venueId == venues[l]
    }

    constructor ()
      ensures Valid() && history == EMPTY
    {
      cache, venues, history := map[], [], EMPTY;
    }

    /** The cached promise, or a new load's: of this venue, not failed, and started
        after the venue's last event. */
    method VenueMenu(venueId: nat) returns (pending: nat)
      requires Valid()
      modifies this
      ensures Valid() && history == Apply(old(history), Call(venueId))
      ensures pending < |history.loads| && history.loads[pending].venueId == venueId
      ensures !history.loads[pending].progress.Failed? && Published(history, venueId) <= history.loads[pending].started
      ensures venueId in cache && cache[venueId] == pending
      ensures venueId in old(cache) ==> cache == old(cache) && history.loads == old(history.loads)
      ensures venueId !in old(cache) ==> pending == |old(history.loads)| && |history.loads| == pending + 1
    {
      ApplyInv(history, Call(venueId));
      history := Apply(history, Call(venueId));
      if venueId in cache {
        pending := cache[venueId];
      } else {
        pending := |venues|;
        venues := venues + [venueId];
        cache := cache[venueId := pending];
      }
      assert EntryOk(history, venueId);
    }

    /** The subscriber: a published change drops the venue's promise, and so no later
        call can be answered from before it. */
    method OnMenuChanged(venueId: nat)
      requires Valid()
      modifies this
      ensures Valid() && history == Apply(old(history), Publish(venueId))
      ensures venueId !in cache && Published(history, venueId) == history.version
    {
      ApplyInv(history, Publish(venueId));
      history := Apply(history, Publish(venueId));
      cache := cache - {venueId};
    }

    /** The catch handler of a load: it drops whatever its venue's entry is by then,
        so a failed promise is never handed out again. */
    method OnLoadFailed(load: nat)
      requires Valid() && load < |history.loads| && history.loads[load].progress.Running?
      modifies this
      ensures Valid() && history == Apply(old(history), Fail(load))
      ensures forall v <- cache :: cache[v] != load
    {
      ApplyInv(history, Fail(load));
      history := Apply(history, Fail(load));
      cache := cache - {venues[load]};
      assert forall v <- cache :: EntryOk(history, v);
    }

    /** What goes on elsewhere: the database is written, a load finishes. */
    ghost method Elsewhere(e: Event)
      requires Valid() && (e.Write? || e.Finish?)
      modifies this`history
      ensures Valid() && history == Apply(old(history), e)
    {
      ApplyInv(history, e);
      history := Apply(history, e);
    }
  }
}
