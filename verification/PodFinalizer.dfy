/** The finaliser's table of pods: which finalisation timers the update handler starts, and which it can still stop. */
module PodFinalizer {
  import opened Sequences

  function TableKey(podName: string, namespace: string): string { podName + "-" + namespace }

  datatype Entry = Entry(timer: Option<nat>, recording: bool)

  /** What happened to timers, in order: started by the update handler under a key, or stopTimer called for a key. */
  datatype Act = Started(key: string, timer: nat) | StopCalled(key: string)

  /**
   `starting` and `stopping` are update handlers between their two critical sections, by table key;
   `timers` counts all timers started so far, the untracked ones of the add and attach paths included;
   `live` are the update-started timers that were not stopped, with their keys; `acts` is history.
   */
  datatype State = State(
    table: map<string, Entry>,
    starting: multiset<string>,
    stopping: multiset<string>,
    timers: nat,
    live: map<nat, string>,
    acts: seq<Act>)

  const START: State := State(map[], multiset{}, multiset{}, 0, map[], [])

  datatype Step =
    | PodAdded(key: string, ready: bool)
    | UpdateCheck(key: string, ready: bool)
    | UpdateStart(key: string)
    | UpdateStop(key: string)
    | PodDeleted(key: string)
    | AttachTimer
    | MarkRecording(key: string)
    | MarkNotRecording(key: string)

  function StopTimer(s: State, key: string): State {
    var called := s.(acts := s.acts + [StopCalled(key)]);
    if key !in s.table || s.table[key].timer.None? then called
    else called.(table := s.table[key := s.table[key].(timer := None)], live := s.live - {s.table[key].timer.value})
  }

  function StartTimer(s: State, key: string): State {
    if key !in s.table || s.table[key].timer.Some? then s
    else
      s.(table := s.table[key := s.table[key].(timer := Some(s.timers))],
         timers := s.timers + 1,
         live := s.live[s.timers := key],
         acts := s.acts + [Started(key, s.timers)])
  }

  /** One critical section, or one untracked timer start; a step that is not enabled changes nothing. */
  function Next(s: State, step: Step): State {
    match step
    case PodAdded(key, ready) =>
      if key !in s.table then s.(table := s.table[key := Entry(None, false)])
      else if ready then s.(timers := s.timers + 1)
      else s
    case UpdateCheck(key, ready) =>
      if key !in s.table || !s.table[key].recording then s
      else if ready then s.(starting := s.starting + multiset{key})
      else s.(stopping := s.stopping + multiset{key})
    case UpdateStart(key) =>
      if key in s.starting then StartTimer(s.(starting := s.starting - multiset{key}), key) else s
    case UpdateStop(key) =>
      if key in s.stopping then StopTimer(s.(stopping := s.stopping - multiset{key}), key) else s
    case PodDeleted(key) => StopTimer(s, key)
    case AttachTimer => s.(timers := s.timers + 1)
    case MarkRecording(key) =>
      s.(table := s.table[key := if key in s.table then s.table[key].(recording := true) else Entry(None, true)])
    case MarkNotRecording(key) =>
      if key in s.table then s.(table := s.table[key := s.table[key].(recording := false)]) else s
  }

  function After(steps: seq<Step>): State {
    if steps == [] then START else Next(After(steps[..|steps| - 1]), steps[|steps| - 1])
  }

  /** The timers the update handler started for `key` since stopTimer was last called for it. */
  function StartedSinceStop(acts: seq<Act>, key: string): seq<nat> {
    if acts == [] then []
    else
      match acts[|acts| - 1]
      case StopCalled(k) => if k == key then [] else StartedSinceStop(acts[..|acts| - 1], key)
      case Started(k, t) =>
        StartedSinceStop(acts[..|acts| - 1], key) + if k == key then [t] else []
  }

  function TableTimer(s: State, key: string): seq<nat> {
    if key in s.table && s.table[key].timer.Some? then [s.table[key].timer.value] else []
  }

  /** What was started since the last stop is what the table holds. */
  ghost predicate ActsMatchTable(s: State) {
    forall key :: StartedSinceStop(s.acts, key) == TableTimer(s, key)
  }

  /** Every live timer is held by the table under its key. */
  ghost predicate LiveAreHeld(s: State) {
    forall t :: t in s.live ==> t < s.timers && TableTimer(s, s.live[t]) == [t]
  }

  /** Every timer the table holds is live. */
  ghost predicate HeldAreLive(s: State) {
    forall key :: key in s.table && s.table[key].timer.Some? ==>
      s.table[key].timer.value in s.live && s.live[s.table[key].timer.value] == key
  }

  ghost predicate Tracked(s: State) {
    ActsMatchTable(s) && LiveAreHeld(s) && HeldAreLive(s)
  }

  lemma ActsSnoc(acts: seq<Act>, act: Act)
    ensures forall key :: StartedSinceStop(acts + [act], key)
                       == match act
                          case StopCalled(k) => (if k == key then [] else StartedSinceStop(acts, key))
                          case Started(k, t) => StartedSinceStop(acts, key) + (if k == key then [t] else [])
  {
    assert (acts + [act])[..|acts|] == acts;
  }

  lemma StopKeepsTracked(s: State, key: string)
    requires Tracked(s)
    ensures Tracked(StopTimer(s, key))
  {
    hide StartedSinceStop;
    var t := StopTimer(s, key);
    ActsSnoc(s.acts, StopCalled(key));
    forall k
      ensures StartedSinceStop(t.acts, k) == TableTimer(t, k)
    {
      assert StartedSinceStop(s.acts, k) == TableTimer(s, k);
    }
  }

  lemma StartKeepsActs(s: State, key: string)
    requires ActsMatchTable(s) && key in s.table && s.table[key].timer.None?
    ensures ActsMatchTable(StartTimer(s, key))
  {
    hide StartedSinceStop;
    var t := StartTimer(s, key);
    ActsSnoc(s.acts, Started(key, s.timers));
    forall k
      ensures StartedSinceStop(t.acts, k) == TableTimer(t, k)
    {
      assert StartedSinceStop(s.acts, k) == TableTimer(s, k);
    }
  }

  lemma StartKeepsTimers(s: State, key: string)
    requires LiveAreHeld(s) && HeldAreLive(s) && key in s.table && s.table[key].timer.None?
    ensures LiveAreHeld(StartTimer(s, key)) && HeldAreLive(StartTimer(s, key))
  {
    var t := StartTimer(s, key);
    forall n | n in t.live
      ensures n < t.timers && TableTimer(t, t.live[n]) == [n]
    {
      if n != s.timers {
        assert TableTimer(s, s.live[n]) == [n] && s.live[n] != key;
      }
    }
    forall k | k in t.table && t.table[k].timer.Some?
      ensures t.table[k].timer.value in t.live && t.live[t.table[k].timer.value] == k
    {
      if k != key {
        assert s.table[k].timer.value in s.live && s.table[k].timer.value < s.timers;
      }
    }
  }

  lemma StartKeepsTracked(s: State, key: string)
    requires Tracked(s)
    ensures Tracked(StartTimer(s, key))
  {
    hide ActsMatchTable, LiveAreHeld, HeldAreLive;
    if key in s.table && s.table[key].timer.None? {
      StartKeepsActs(s, key);
      StartKeepsTimers(s, key);
    }
  }

  /** A step that leaves every timer in place keeps the tracking. */
  lemma SameTimersTracked(s: State, t: State)
    requires Tracked(s) && t.acts == s.acts && t.live == s.live && s.timers <= t.timers
    requires forall key :: TableTimer(t, key) == TableTimer(s, key)
    ensures Tracked(t)
  {
    hide StartedSinceStop;
    forall key | key in t.table && t.table[key].timer.Some?
      ensures t.table[key].timer.value in t.live && t.live[t.table[key].timer.value] == key
    {
      assert TableTimer(s, key) == [t.table[key].timer.value];
    }
  }

  lemma NextKeepsTracked(s: State, step: Step)
    requires Tracked(s)
    ensures Tracked(Next(s, step))
  {
    hide StartedSinceStop, StartTimer, StopTimer, Tracked;
    match step {
      case UpdateStart(key) =>
        if key in s.starting {
          var t := s.(starting := s.starting - multiset{key});
          SameTimersTracked(s, t);
          StartKeepsTracked(t, key);
        }
      case UpdateStop(key) =>
        if key in s.stopping {
          var t := s.(stopping := s.stopping - multiset{key});
          SameTimersTracked(s, t);
          StopKeepsTracked(t, key);
        }
      case PodDeleted(key) => StopKeepsTracked(s, key);
      case _ => SameTimersTracked(s, Next(s, step));
    }
  }

  /**
   In every interleaving the update handler has started at most one timer per key since stopTimer was last called
   for that key, namely the one the table holds, and every update-started timer that was not stopped is in the table.
   */
  lemma {:induction false} TimersStayTracked(steps: seq<Step>)
    ensures Tracked(After(steps))
    ensures forall key :: |StartedSinceStop(After(steps).acts, key)| <= 1
  {
    if steps != [] {
      TimersStayTracked(steps[..|steps| - 1]);
      NextKeepsTracked(After(steps[..|steps| - 1]), steps[|steps| - 1]);
    }
    forall key
      ensures |StartedSinceStop(After(steps).acts, key)| <= 1
    {
      assert StartedSinceStop(After(steps).acts, key) == TableTimer(After(steps), key);
    }
  }

  // ---------- What an update does ----------

  /** Both critical sections of an update, with nothing in between. */
  function Updated(s: State, key: string, ready: bool): State {
    Next(Next(s, UpdateCheck(key, ready)), if ready then UpdateStart(key) else UpdateStop(key))
  }

  /** A ready pod that is recorded has a live timer afterwards: a new one, or the one it had. */
  lemma ReadyPodHasTimer(s: State, key: string)
    requires Tracked(s) && key in s.table && s.table[key].recording
    ensures var t := Updated(s, key, true);
            && key in t.table && t.table[key].timer.Some? && t.table[key].timer.value in t.live
            && (s.table[key].timer.Some? ==> t.table == s.table && t.live == s.live)
            && (s.table[key].timer.None? ==>
                  t.table == s.table[key := Entry(Some(s.timers), true)] && t.live == s.live[s.timers := key])
  {
    BothSections(s, key, true);
  }

  /** A pod that is not ready has no timer afterwards, and the one it had is stopped. */
  lemma UnreadyPodHasNoTimer(s: State, key: string)
    requires Tracked(s) && key in s.table && s.table[key].recording
    ensures var t := Updated(s, key, false);
            && t.table == s.table[key := Entry(None, true)]
            && t.live == (if s.table[key].timer.Some? then s.live - {s.table[key].timer.value} else s.live)
            && forall n :: n in t.live ==> t.live[n] != key
  {
    hide StartedSinceStop;
    BothSections(s, key, false);
  }

  /** Recording begins and ends with the marks, whatever timer there is. */
  lemma MarksDecide(s: State, key: string)
    ensures var t := Next(s, MarkRecording(key));
            key in t.table && t.table[key].recording && TableTimer(t, key) == TableTimer(s, key) && t.live == s.live
    ensures var t := Next(s, MarkNotRecording(key));
            (key in t.table ==> !t.table[key].recording) && TableTimer(t, key) == TableTimer(s, key) && t.live == s.live
    ensures (key !in s.table || !s.table[key].recording) && key !in s.starting && key !in s.stopping ==>
              Updated(s, key, true) == s && Updated(s, key, false) == s
  {
  }

  /** A new pod gets an entry without a timer; a known one is left as it is, and a timer outside the table if ready. */
  lemma AddingAPod(s: State, key: string, ready: bool)
    ensures var t := Next(s, PodAdded(key, ready));
            && t.table == (if key in s.table then s.table else s.table[key := Entry(None, false)])
            && t.timers == s.timers + (if key in s.table && ready then 1 else 0)
            && t.live == s.live && t.acts == s.acts
    ensures Next(s, AttachTimer) == s.(timers := s.timers + 1)
  {
  }

  /** After a pod is deleted no timer of its key is live. */
  lemma DeletedPodHasNoTimer(s: State, key: string)
    requires Tracked(s)
    ensures var t := Next(s, PodDeleted(key));
            TableTimer(t, key) == [] && forall n :: n in t.live ==> t.live[n] != key
  {
    hide StartedSinceStop;
  }

  /** Without dashes in pod names, different pods have different keys. */
  lemma TableKeysDiffer(podName: string, namespace: string, podName': string, namespace': string)
    requires '-' !in podName && '-' !in podName' && TableKey(podName, namespace) == TableKey(podName', namespace')
    ensures podName == podName' && namespace == namespace'
  {
    DashSplits(podName, namespace, podName', namespace');
  }

  // ---------- The handlers ----------

  class Finalizer {
    var podFinalizerState: map<string, Entry>
    /** The number of timers started so far, which names the next one. */
    var timers: nat
    /** The table together with the history of its timers. */
    ghost var state: State

    ghost predicate Valid()
      reads this
    {
      podFinalizerState == state.table && timers == state.timers
    }

    constructor ()
      ensures Valid() && state == START
    {
      podFinalizerState, timers := map[], 0;
      state := START;
    }

    method HandlePodAddEvent(podName: string, namespace: string, podReady: bool)
      requires Valid()
      modifies this
      ensures Valid() && state == Next(old(state), PodAdded(TableKey(podName, namespace), podReady))
    {
      var key := TableKey(podName, namespace);
      state := Next(state, PodAdded(key, podReady));
      if key !in podFinalizerState {
        podFinalizerState := podFinalizerState[key := Entry(None, false)];
      } else if podReady {
        timers := timers + 1;
      }
    }

    /** Both critical sections of an update, with nothing in between. */
    method HandlePodUpdateEvent(podName: string, namespace: string, podReady: bool)
      requires Valid()
      modifies this
      ensures Valid()
      ensures var key := TableKey(podName, namespace);
              state == if key in old(state).table && old(state).table[key].recording then
                         Next(Next(old(state), UpdateCheck(key, podReady)),
                              if podReady then UpdateStart(key) else UpdateStop(key))
                       else old(state)
    {
      var key := TableKey(podName, namespace);
      if key !in podFinalizerState || !podFinalizerState[key].recording {
        return;
      }
      BothSections(state, key, podReady);
      if podReady {
        state := StartTimer(state, key);
        if podFinalizerState[key].timer.Some? {
          return;
        }
        podFinalizerState := podFinalizerState[key := podFinalizerState[key].(timer := Some(timers))];
        timers := timers + 1;
      } else {
        Stop(key);
      }
    }

    method HandlePodDeleteEvent(podName: string, namespace: string)
      requires Valid()
      modifies this
      ensures Valid() && state == Next(old(state), PodDeleted(TableKey(podName, namespace)))
    {
      Stop(TableKey(podName, namespace));
    }

    method Stop(key: string)
      requires Valid()
      modifies this
      ensures Valid() && state == StopTimer(old(state), key)
    {
      state := StopTimer(state, key);
      if key !in podFinalizerState {
        return;
      }
      var podState := podFinalizerState[key];
      if podState.timer.None? {
        return;
      }
      podFinalizerState := podFinalizerState[key := podState.(timer := None)];
    }

    /** `podReady` is what looking the pod up gave, which is needed only for an attached container. */
    method MarkPodRecording(podName: string, namespace: string, attach: bool, podReady: Option<bool>)
      requires Valid()
      modifies this
      ensures Valid()
      ensures var attached := if attach && podReady == Some(true) then Next(old(state), AttachTimer) else old(state);
              state == if attach && podReady.None? then old(state)
                       else Next(attached, MarkRecording(TableKey(podName, namespace)))
    {
      var key := TableKey(podName, namespace);
      if attach {
        if podReady.None? {
          return;
        }
        if podReady.value {
          timers := timers + 1;
          state := Next(state, AttachTimer);
        }
      }
      state := Next(state, MarkRecording(key));
      if key !in podFinalizerState {
        podFinalizerState := podFinalizerState[key := Entry(None, true)];
      } else {
        podFinalizerState := podFinalizerState[key := podFinalizerState[key].(recording := true)];
      }
    }

    method MarkPodNotRecording(podName: string, namespace: string)
      requires Valid()
      modifies this
      ensures Valid() && state == Next(old(state), MarkNotRecording(TableKey(podName, namespace)))
    {
      var key := TableKey(podName, namespace);
      state := Next(state, MarkNotRecording(key));
      if key in podFinalizerState {
        podFinalizerState := podFinalizerState[key := podFinalizerState[key].(recording := false)];
      }
    }
  }

  /** Running the second section right after the first leaves no handler in between. */
  lemma BothSections(s: State, key: string, ready: bool)
    requires key in s.table && s.table[key].recording
    ensures Next(Next(s, UpdateCheck(key, ready)), if ready then UpdateStart(key) else UpdateStop(key))
         == if ready then StartTimer(s, key) else StopTimer(s, key)
  {
    var one := multiset{key};
    assert s.starting + one - one == s.starting && s.stopping + one - one == s.stopping;
  }
}
