/**
 Starts, stops, timers and collections of containers, and the sink filters that go with them.
 A step is what happens under one lock, or between two of them.
 */
module Lifecycle {
  import opened ProfileTypes
  import Sink = EventSink

  /**
   `arming` are starts that have entered the map but not set their timer, `timers` are set timers,
   `stopCollects` are collections launched by a stop that have not tested the map yet, `active` are
   collections past their map test, `leaving` are those that dropped their filter and will drop their
   map entry; `inserted` is history.
   */
  datatype State = State(
    containers: set<ContainerId>,
    filters: seq<Sink.Filter>,
    arming: multiset<ContainerId>,
    timers: multiset<ContainerId>,
    stopCollects: multiset<ContainerId>,
    active: multiset<ContainerId>,
    leaving: multiset<ContainerId>,
    inserted: set<ContainerId>)

  const START: State := State({}, [], multiset{}, multiset{}, multiset{}, multiset{}, multiset{}, {})

  datatype Step =
    | Insert(id: ContainerId)       // ContainerStarted: map entry and filter, under the lock
    | Arm(id: ContainerId)          // ContainerStarted: set the timer
    | Fire(id: ContainerId)         // the timer's collection tests the map
    | Stop(id: ContainerId)         // ContainerStopped: filter and map entry, under the lock; launch a collection
    | StopCollect(id: ContainerId)  // the launched collection tests the map
    | Rearm(id: ContainerId)        // a collection ends by setting the timer again
    | Quit(id: ContainerId)         // a collection ends without events: no timer
    | Abandon(id: ContainerId)      // final profile or rejected update: drop the filter
    | Leave(id: ContainerId)        // ... and then the map entry

  function FilterOf(id: ContainerId): Sink.Filter { Sink.Filter(AllEventType, id.containerID) }

  /** A step that is not enabled changes nothing. */
  function Next(s: State, step: Step): State {
    var one := multiset{step.id};
    match step
    case Insert(id) =>
      s.(containers := s.containers + {id}, filters := Sink.Added(s.filters, FilterOf(id)),
         arming := s.arming + one, inserted := s.inserted + {id})
    case Arm(id) => if id in s.arming then s.(arming := s.arming - one, timers := s.timers + one) else s
    case Fire(id) =>
      if id !in s.timers then s
      else if id in s.containers then s.(timers := s.timers - one, active := s.active + one)
      else s.(timers := s.timers - one)
    case Stop(id) =>
      var t := s.(stopCollects := s.stopCollects + one);
      if id in s.containers then t.(containers := s.containers - {id}, filters := Sink.Removed(s.filters, FilterOf(id)))
      else t
    case StopCollect(id) =>
      if id !in s.stopCollects then s
      else if id in s.containers then s.(stopCollects := s.stopCollects - one, active := s.active + one)
      else s.(stopCollects := s.stopCollects - one)
    case Rearm(id) => if id in s.active then s.(active := s.active - one, timers := s.timers + one) else s
    case Quit(id) => if id in s.active then s.(active := s.active - one) else s
    case Abandon(id) =>
      if id in s.active then
        s.(active := s.active - one, leaving := s.leaving + one, filters := Sink.Removed(s.filters, FilterOf(id)))
      else s
    case Leave(id) =>
      if id in s.leaving then s.(leaving := s.leaving - one, containers := s.containers - {id}) else s
  }

  function Continue(s: State, steps: seq<Step>): State {
    if steps == [] then s else Next(Continue(s, steps[..|steps| - 1]), steps[|steps| - 1])
  }

  function After(steps: seq<Step>): State { Continue(START, steps) }

  lemma ContinueSnoc(s: State, steps: seq<Step>, last: Step)
    ensures Continue(s, steps + [last]) == Next(Continue(s, steps), last)
  {
    hide Next;
    assert (steps + [last])[..|steps|] == steps;
  }

  lemma {:induction false} ContinueConcat(s: State, steps: seq<Step>, rest: seq<Step>)
    ensures Continue(s, steps + rest) == Continue(Continue(s, steps), rest)
  {
    hide Next;
    if rest == [] {
      assert steps + rest == steps;
    } else {
      ContinueConcat(s, steps, rest[..|rest| - 1]);
      assert (steps + rest)[..|steps + rest| - 1] == steps + rest[..|rest| - 1];
    }
  }

  lemma ThreeSteps(s: State, a: Step, b: Step, c: Step)
    ensures Continue(s, [a, b, c]) == Next(Next(Next(s, a), b), c)
  {
    hide Next;
    ContinueSnoc(s, [], a);
    ContinueSnoc(s, [a], b);
    ContinueSnoc(s, [a, b], c);
    assert [] + [a] == [a] && [a] + [b] == [a, b] && [a, b] + [c] == [a, b, c];
  }

  // ---------- Single writer ----------

  /** The collections of one id that are past their map test. */
  function Writers(s: State, id: ContainerId): nat { s.active[id] + s.leaving[id] }

  /** The start, timers and collections of one id. */
  function Tokens(s: State, id: ContainerId): nat {
    s.arming[id] + s.timers[id] + Writers(s, id)
  }

  /** One token at most, none before the insertion, and no stop-launched collection waits while the id is in the map. */
  ghost predicate OneToken(s: State, id: ContainerId) {
    && Tokens(s, id) <= 1
    && (Tokens(s, id) > 0 || id in s.containers ==> id in s.inserted)
    && (id in s.stopCollects ==> id !in s.containers)
  }

  /** The id was not inserted before, and no collection launched by a stop of it has still to test the map. */
  predicate InsertIsSafe(s: State, id: ContainerId) {
    id !in s.inserted && id !in s.stopCollects
  }

  lemma TokensStayOne(s: State, step: Step, id: ContainerId)
    requires OneToken(s, id) && (step == Insert(id) ==> InsertIsSafe(s, id))
    ensures Tokens(Next(s, step), id) <= 1
  {
    hide Sink.Removed, Sink.Added;
  }

  lemma TokensStayInserted(s: State, step: Step, id: ContainerId)
    requires Tokens(s, id) > 0 || id in s.containers ==> id in s.inserted
    ensures Tokens(Next(s, step), id) > 0 || id in Next(s, step).containers ==> id in Next(s, step).inserted
  {
    hide Sink.Removed, Sink.Added;
  }

  lemma NextKeepsOneToken(s: State, step: Step, id: ContainerId)
    requires OneToken(s, id) && (step == Insert(id) ==> InsertIsSafe(s, id))
    ensures OneToken(Next(s, step), id)
  {
    hide Sink.Removed, Sink.Added, Tokens;
    TokensStayOne(s, step, id);
    TokensStayInserted(s, step, id);
  }

  lemma {:induction false} RestKeepsOneToken(s: State, steps: seq<Step>, id: ContainerId)
    requires OneToken(s, id) && Insert(id) !in steps
    ensures OneToken(Continue(s, steps), id)
  {
    hide OneToken, Next;
    if steps != [] {
      RestKeepsOneToken(s, steps[..|steps| - 1], id);
      NextKeepsOneToken(Continue(s, steps[..|steps| - 1]), steps[|steps| - 1], id);
    }
  }

  /** The run inserts the id at most once, and then safely. */
  ghost predicate InsertsSafely(steps: seq<Step>, id: ContainerId) {
    steps != [] ==>
      && InsertsSafely(steps[..|steps| - 1], id)
      && (steps[|steps| - 1] == Insert(id) ==> InsertIsSafe(After(steps[..|steps| - 1]), id))
  }

  /** At most one collection of the id is past its map test, whatever happens to other ids. */
  lemma {:induction false} SingleWriter(steps: seq<Step>, id: ContainerId)
    requires InsertsSafely(steps, id)
    ensures OneToken(After(steps), id) && Writers(After(steps), id) <= 1
  {
    hide Next, InsertIsSafe;
    if steps != [] {
      SingleWriter(steps[..|steps| - 1], id);
      NextKeepsOneToken(After(steps[..|steps| - 1]), steps[|steps| - 1], id);
    }
  }

  /**
   The order of stop and start is needed: from any state in which a collection launched by a stop is still to test
   the map, inserting that id lets two collections of it pass the test.
   */
  lemma LateInsertBreaksSingleWriter(s: State, id: ContainerId)
    requires id in s.stopCollects
    ensures Writers(Continue(Next(s, Insert(id)), [StopCollect(id), Arm(id), Fire(id)]), id) >= 2
  {
    hide Sink.Added;
    ThreeSteps(Next(s, Insert(id)), StopCollect(id), Arm(id), Fire(id));
  }

  /**
   Inserting a new id keeps the single writer in every continuation exactly if no stop-launched collection is pending.
   */
  lemma InsertIsSafeIff(s: State, id: ContainerId)
    requires OneToken(s, id) && id !in s.inserted
    ensures (forall rest :: Insert(id) !in rest ==> Writers(Continue(Next(s, Insert(id)), rest), id) <= 1)
       <==> id !in s.stopCollects
  {
    var t := Next(s, Insert(id));
    if id in s.stopCollects {
      LateInsertBreaksSingleWriter(s, id);
      var rest := [StopCollect(id), Arm(id), Fire(id)];
      assert Insert(id) !in rest && Writers(Continue(t, rest), id) > 1;
    } else {
      NextKeepsOneToken(s, Insert(id), id);
      forall rest | Insert(id) !in rest
        ensures Writers(Continue(t, rest), id) <= 1
      {
        RestKeepsOneToken(t, rest, id);
      }
    }
  }

  /** A whole run of the bad kind: the id is inserted once, while the collection its stop launched is pending. */
  lemma StopBeforeInsertRun(id: ContainerId)
    ensures Writers(After([Stop(id), Insert(id), StopCollect(id), Arm(id), Fire(id)]), id) == 2
  {
    hide Next, Writers;
    var rest := [StopCollect(id), Arm(id), Fire(id)];
    ContinueConcat(START, [Stop(id), Insert(id)], rest);
    assert [Stop(id), Insert(id)] + rest == [Stop(id), Insert(id), StopCollect(id), Arm(id), Fire(id)];
    ContinueSnoc(START, [], Stop(id));
    ContinueSnoc(START, [Stop(id)], Insert(id));
    assert [] + [Stop(id)] == [Stop(id)] && [Stop(id)] + [Insert(id)] == [Stop(id), Insert(id)];
    BothPassTheTest(id);
    ThreeSteps(Next(Next(START, Stop(id)), Insert(id)), StopCollect(id), Arm(id), Fire(id));
  }

  lemma BothPassTheTest(id: ContainerId)
    ensures var inserted := Next(Next(START, Stop(id)), Insert(id));
            Writers(Next(Next(Next(inserted, StopCollect(id)), Arm(id)), Fire(id)), id) == 2
  {
    hide Sink.Added, Sink.Removed;
  }

  // ---------- Filters ----------

  /** An id is inserted at most once, and no two ids share a ContainerID. */
  ghost predicate InsertIsNew(s: State, id: ContainerId) {
    id !in s.inserted && forall other :: other in s.inserted ==> other.containerID != id.containerID
  }

  ghost predicate InsertsOnce(steps: seq<Step>) {
    steps != [] ==>
      && InsertsOnce(steps[..|steps| - 1])
      && (steps[|steps| - 1].Insert? ==> InsertIsNew(After(steps[..|steps| - 1]), steps[|steps| - 1].id))
  }

  /** Only inserted ids are in the map or have collections. */
  ghost predicate OnlyInserted(s: State) {
    && s.containers <= s.inserted
    && (forall id :: Tokens(s, id) > 0 ==> id in s.inserted)
  }

  ghost predicate IdsDistinct(s: State) {
    forall a, b :: a in s.inserted && b in s.inserted && a.containerID == b.containerID ==> a == b
  }

  /** The filter belongs to an id in the map. */
  ghost predicate Owned(containers: set<ContainerId>, f: Sink.Filter) {
    exists id :: id in containers && f == FilterOf(id)
  }

  ghost predicate FiltersOk(s: State) {
    && (forall i :: 0 <= i < |s.filters| ==> Owned(s.containers, s.filters[i]))
    && (forall i, j :: 0 <= i < j < |s.filters| ==> s.filters[i].containerID != s.filters[j].containerID)
  }

  /** Removing the filter of an inserted id removes every filter with its ContainerID. */
  lemma RemovalIsComplete(s: State, id: ContainerId)
    requires FiltersOk(s) && IdsDistinct(s) && s.containers <= s.inserted && id in s.inserted
    ensures var after := Sink.Removed(s.filters, FilterOf(id));
            && (forall i :: 0 <= i < |after| ==> after[i].containerID != id.containerID)
            && (forall i :: 0 <= i < |after| ==> exists k :: 0 <= k < |s.filters| && after[i] == s.filters[k])
            && (forall i, j :: 0 <= i < j < |after| ==> after[i].containerID != after[j].containerID)
  {
    var n := Sink.FindRemovable(s.filters, FilterOf(id));
    var after := Sink.Removed(s.filters, FilterOf(id));
    if n < |s.filters| {
      assert forall i :: 0 <= i < |after| ==> after[i] == s.filters[if i < n then i else i + 1];
    } else {
      assert forall i :: 0 <= i < |after| ==> !Sink.Removes(FilterOf(id), s.filters[i]);
    }
  }

  /** After the removal the remaining filters belong to the remaining ids. */
  lemma RemovalKeepsFilters(s: State, id: ContainerId, t: State)
    requires FiltersOk(s) && IdsDistinct(s) && s.containers <= s.inserted && id in s.inserted
    requires t.filters == Sink.Removed(s.filters, FilterOf(id)) && s.containers - {id} <= t.containers
    ensures FiltersOk(t)
  {
    RemovalIsComplete(s, id);
    forall i | 0 <= i < |t.filters|
      ensures Owned(t.containers, t.filters[i])
    {
      var k :| 0 <= k < |s.filters| && t.filters[i] == s.filters[k];
      assert Owned(s.containers, s.filters[k]);
      var other :| other in s.containers && s.filters[k] == FilterOf(other);
      assert other != id;
    }
  }

  lemma InsertKeepsFilters(s: State, id: ContainerId)
    requires FiltersOk(s) && s.containers <= s.inserted && InsertIsNew(s, id)
    ensures FiltersOk(Next(s, Insert(id)))
  {
    var t := Next(s, Insert(id));
    forall i | 0 <= i < |s.filters|
      ensures s.filters[i].containerID != id.containerID
      ensures Owned(t.containers, s.filters[i])
    {
      assert Owned(s.containers, s.filters[i]);
      var other :| other in s.containers && s.filters[i] == FilterOf(other);
      assert other in t.containers;
    }
    assert FilterOf(id) !in s.filters;
    assert id in t.containers;
  }

  /** No filter is left for an id once it is leaving. */
  ghost predicate LeavingHasNoFilter(s: State) {
    forall id :: id in s.leaving ==> forall i :: 0 <= i < |s.filters| ==> s.filters[i].containerID != id.containerID
  }

  ghost predicate FilteringOk(s: State) {
    IdsDistinct(s) && FiltersOk(s) && LeavingHasNoFilter(s)
  }

  ghost predicate Ok(s: State) {
    OnlyInserted(s) && FilteringOk(s)
  }

  lemma NextKeepsOnlyInserted(s: State, step: Step)
    requires OnlyInserted(s)
    ensures OnlyInserted(Next(s, step))
  {
    hide Next, Tokens;
    forall id
      ensures Tokens(Next(s, step), id) > 0 || id in Next(s, step).containers ==> id in Next(s, step).inserted
    {
      TokensStayInserted(s, step, id);
    }
  }

  lemma StopKeepsOk(s: State, id: ContainerId)
    requires Ok(s)
    ensures FilteringOk(Next(s, Stop(id)))
  {
    if id in s.containers {
      RemovalKeepsFilters(s, id, Next(s, Stop(id)));
      RemovalIsComplete(s, id);
    }
  }

  lemma AbandonKeepsOk(s: State, id: ContainerId)
    requires Ok(s)
    ensures FilteringOk(Next(s, Abandon(id)))
  {
    hide Sink.Removed, Owned;
    if id in s.active {
      assert Tokens(s, id) > 0;
      RemovalKeepsFilters(s, id, Next(s, Abandon(id)));
      RemovalIsComplete(s, id);
    }
  }

  lemma LeaveKeepsOk(s: State, id: ContainerId)
    requires Ok(s)
    ensures FilteringOk(Next(s, Leave(id)))
  {
    var t := Next(s, Leave(id));
    if id in s.leaving {
      forall i | 0 <= i < |t.filters|
        ensures Owned(t.containers, t.filters[i])
      {
        assert Owned(s.containers, s.filters[i]);
        var other :| other in s.containers && s.filters[i] == FilterOf(other);
        assert other != id;
      }
    }
  }

  lemma InsertKeepsOk(s: State, id: ContainerId)
    requires Ok(s) && InsertIsNew(s, id)
    ensures FilteringOk(Next(s, Insert(id)))
  {
    InsertKeepsFilters(s, id);
    forall other | other in s.leaving
      ensures other.containerID != id.containerID
    {
      assert Tokens(s, other) > 0;
    }
  }

  /** Timers, and collections that have not dropped their filter, do not matter to the filters. */
  lemma TokensDoNotFilter(s: State, arming: multiset<ContainerId>, timers: multiset<ContainerId>,
                          stopCollects: multiset<ContainerId>, active: multiset<ContainerId>)
    requires FilteringOk(s)
    ensures FilteringOk(s.(arming := arming, timers := timers, stopCollects := stopCollects, active := active))
  {
  }

  lemma QuietStepKeepsFiltering(s: State, step: Step)
    requires FilteringOk(s) && (step.Arm? || step.Fire? || step.StopCollect? || step.Rearm? || step.Quit?)
    ensures FilteringOk(Next(s, step))
  {
    hide FilteringOk;
    var one := multiset{step.id};
    match step {
      case Arm(id) =>
        TokensDoNotFilter(s, s.arming - one, s.timers + one, s.stopCollects, s.active);
      case Fire(id) =>
        TokensDoNotFilter(s, s.arming, s.timers - one, s.stopCollects, s.active);
        TokensDoNotFilter(s, s.arming, s.timers - one, s.stopCollects, s.active + one);
      case StopCollect(id) =>
        TokensDoNotFilter(s, s.arming, s.timers, s.stopCollects - one, s.active);
        TokensDoNotFilter(s, s.arming, s.timers, s.stopCollects - one, s.active + one);
      case Rearm(id) =>
        TokensDoNotFilter(s, s.arming, s.timers + one, s.stopCollects, s.active - one);
      case Quit(id) =>
        TokensDoNotFilter(s, s.arming, s.timers, s.stopCollects, s.active - one);
      case _ => assert false;
    }
  }

  lemma NextKeepsOk(s: State, step: Step)
    requires Ok(s) && (step.Insert? ==> InsertIsNew(s, step.id))
    ensures Ok(Next(s, step))
  {
    NextKeepsOnlyInserted(s, step);
    hide Next, OnlyInserted, FilteringOk;
    match step {
      case Insert(id) => InsertKeepsOk(s, id);
      case Stop(id) => StopKeepsOk(s, id);
      case Abandon(id) => AbandonKeepsOk(s, id);
      case Leave(id) => LeaveKeepsOk(s, id);
      case _ => QuietStepKeepsFiltering(s, step);
    }
  }

  lemma StartIsOk()
    ensures Ok(START)
  {
  }

  /** With ids inserted once, in any order with their stops, every filter belongs to an id in the map. */
  lemma {:induction false} FiltersBelongToMap(steps: seq<Step>)
    requires InsertsOnce(steps)
    ensures Ok(After(steps))
    ensures forall f :: f in After(steps).filters ==> Owned(After(steps).containers, f)
  {
    hide Next, InsertIsNew, OnlyInserted;
    StartIsOk();
    if steps != [] {
      FiltersBelongToMap(steps[..|steps| - 1]);
      NextKeepsOk(After(steps[..|steps| - 1]), steps[|steps| - 1]);
    }
  }

  // ---------- Recorded containers are heard ----------

  /** Every id in the map has its filter, unless its collection is just leaving. */
  ghost predicate MapHasFilters(s: State) {
    forall id :: id in s.containers && id !in s.leaving ==> FilterOf(id) in s.filters
  }

  /** Removing the filter of one id leaves those of the others. */
  lemma OthersKeepFilters(s: State, id: ContainerId, other: ContainerId)
    requires IdsDistinct(s) && id in s.inserted && other in s.inserted && other != id && FilterOf(other) in s.filters
    ensures FilterOf(other) in Sink.Removed(s.filters, FilterOf(id))
  {
    var n := Sink.FindRemovable(s.filters, FilterOf(id));
    var k :| 0 <= k < |s.filters| && s.filters[k] == FilterOf(other);
    var after := Sink.Removed(s.filters, FilterOf(id));
    assert k != n;
    if n < |s.filters| {
      assert after[if k < n then k else k - 1] == FilterOf(other);
    }
  }

  lemma StopKeepsMapFilters(s: State, id: ContainerId)
    requires Ok(s) && MapHasFilters(s)
    ensures MapHasFilters(Next(s, Stop(id)))
  {
    hide Sink.Removed, FiltersOk, LeavingHasNoFilter;
    var t := Next(s, Stop(id));
    forall other | other in t.containers && other !in t.leaving
      ensures FilterOf(other) in t.filters
    {
      if id in s.containers {
        OthersKeepFilters(s, id, other);
      }
    }
  }

  lemma AbandonKeepsMapFilters(s: State, id: ContainerId)
    requires Ok(s) && MapHasFilters(s)
    ensures MapHasFilters(Next(s, Abandon(id)))
  {
    hide Sink.Removed, FiltersOk, LeavingHasNoFilter;
    if id in s.active {
      var t := Next(s, Abandon(id));
      assert Tokens(s, id) > 0;
      forall other | other in t.containers && other !in t.leaving
        ensures FilterOf(other) in t.filters
      {
        assert other != id && other !in s.leaving;
        OthersKeepFilters(s, id, other);
      }
    }
  }

  lemma LeaveKeepsMapFilters(s: State, id: ContainerId)
    requires MapHasFilters(s)
    ensures MapHasFilters(Next(s, Leave(id)))
  {
    var t := Next(s, Leave(id));
    forall other | other in t.containers && other !in t.leaving
      ensures FilterOf(other) in t.filters
    {
      if id in s.leaving {
        assert other != id && t.leaving[other] == s.leaving[other];
      }
    }
  }

  lemma QuietStepKeepsMapFilters(s: State, step: Step)
    requires MapHasFilters(s) && !step.Stop? && !step.Abandon? && !step.Leave?
    ensures MapHasFilters(Next(s, step))
  {
    var t := Next(s, step);
    Sink.AddedEffect(s.filters, FilterOf(step.id));
    hide Sink.Added;
    forall other | other in t.containers && other !in t.leaving
      ensures FilterOf(other) in t.filters
    {
      assert t.leaving[other] == s.leaving[other];
    }
  }

  /** With ids inserted once, in any order with their stops, every id in the map that is not leaving has its filter. */
  lemma {:induction false} MapKeepsFilters(steps: seq<Step>)
    requires InsertsOnce(steps)
    ensures MapHasFilters(After(steps))
  {
    hide Next, InsertIsNew, MapHasFilters, Ok;
    StartHasFilters();
    if steps != [] {
      var s, step := After(steps[..|steps| - 1]), steps[|steps| - 1];
      MapKeepsFilters(steps[..|steps| - 1]);
      FiltersBelongToMap(steps[..|steps| - 1]);
      match step {
        case Stop(id) => StopKeepsMapFilters(s, id);
        case Abandon(id) => AbandonKeepsMapFilters(s, id);
        case Leave(id) => LeaveKeepsMapFilters(s, id);
        case _ => QuietStepKeepsMapFilters(s, step);
      }
    }
  }

  lemma StartHasFilters()
    ensures MapHasFilters(START)
  {
  }

  /**
   Events of recorded containers are heard, and no others: with ids inserted once, a filtering sink passes an event
   on if its container is in the map and not leaving, and drops it if no id in the map has its ContainerID.
   */
  lemma RecordedContainersAreHeard(steps: seq<Step>, e: SinkEvent)
    requires InsertsOnce(steps)
    ensures var s := After(steps);
            && ((exists id :: id in s.containers && id !in s.leaving && id.containerID == e.General().containerID) ==>
                  Sink.Passes(true, s.filters, e))
            && (Sink.Passes(true, s.filters, e) ==>
                  exists id :: id in s.containers && id.containerID == e.General().containerID)
  {
    hide After, InsertsOnce, Sink.Passes, Ok;
    MapKeepsFilters(steps);
    FiltersBelongToMap(steps);
    var s := After(steps);
    Sink.PassesIff(s.filters, e);
    if Sink.Passes(true, s.filters, e) {
      var f :| f in s.filters && f.containerID == e.General().containerID;
      assert Owned(s.containers, f);
    }
  }

  // ---------- Stopped containers ----------

  /** A collection starts only if the id is in the map; once it is not, no further collection of it starts. */
  lemma {:induction false} NoWriterAfterStop(s: State, rest: seq<Step>, id: ContainerId)
    requires id !in s.containers && Insert(id) !in rest
    ensures id !in Continue(s, rest).containers && Writers(Continue(s, rest), id) <= Writers(s, id)
  {
    hide Next, Writers;
    if rest != [] {
      NoWriterAfterStop(s, rest[..|rest| - 1], id);
      NoNewWriter(Continue(s, rest[..|rest| - 1]), rest[|rest| - 1], id);
    }
  }

  lemma NoNewWriter(s: State, step: Step, id: ContainerId)
    requires id !in s.containers && step != Insert(id)
    ensures id !in Next(s, step).containers && Writers(Next(s, step), id) <= Writers(s, id)
  {
    hide Sink.Removed, Sink.Added, Next, Writers;
    StaysOut(s, step, id);
    OutsideTheMapNoneStarts(s, step, id);
  }

  lemma StaysOut(s: State, step: Step, id: ContainerId)
    requires id !in s.containers && step != Insert(id)
    ensures id !in Next(s, step).containers
  {
    hide Sink.Removed, Sink.Added;
  }

  lemma OutsideTheMapNoneStarts(s: State, step: Step, id: ContainerId)
    requires id !in s.containers
    ensures Writers(Next(s, step), id) <= Writers(s, id)
  {
    hide Sink.Removed, Sink.Added;
  }

  /** A stop and a leaving collection take the id out of the map. */
  lemma StopForgets(s: State, id: ContainerId)
    ensures id !in Next(s, Stop(id)).containers
    ensures id in s.leaving ==> id !in Next(s, Leave(id)).containers
  {
  }

  /** How starts, timers and collections of an id follow each other. */
  lemma TokenMoves(s: State, id: ContainerId)
    ensures var t := Next(s, Insert(id));
            id in t.containers && t.arming[id] == s.arming[id] + 1
    ensures id in s.arming ==>
              var t := Next(s, Arm(id));
              t.arming[id] == s.arming[id] - 1 && t.timers[id] == s.timers[id] + 1
    ensures id in s.active ==>
              var t := Next(s, Rearm(id));
              t.active[id] == s.active[id] - 1 && t.timers[id] == s.timers[id] + 1 && t.containers == s.containers
    ensures id in s.active ==>
              var t := Next(s, Quit(id));
              t.active[id] == s.active[id] - 1 && t.timers == s.timers && t.containers == s.containers
    ensures id in s.active ==>
              var t := Next(s, Abandon(id));
              t.active[id] == s.active[id] - 1 && t.leaving[id] == s.leaving[id] + 1 && t.timers == s.timers
    ensures id in s.leaving ==> Next(s, Leave(id)).leaving[id] == s.leaving[id] - 1
    ensures Next(s, Stop(id)).stopCollects[id] == s.stopCollects[id] + 1
  {
    hide Sink.Removed, Sink.Added;
  }

  /** A set timer and a launched collection do collect while the id is in the map. */
  lemma RecordedIdCollects(s: State, id: ContainerId)
    requires id in s.containers
    ensures id in s.timers ==> Writers(Next(s, Fire(id)), id) == Writers(s, id) + 1
    ensures id in s.stopCollects ==> Writers(Next(s, StopCollect(id)), id) == Writers(s, id) + 1
  {
  }
}
