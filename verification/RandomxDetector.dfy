/**
 The RandomX detector: one cache entry per mount namespace, updated event by event, against a
 statement about the whole event trace.
 */
module RandomxDetector {
  import opened Sequences

  const TWO_TO_THE_64: nat := 0x1_0000_0000_0000_0000
  type uint64 = x: nat | x < TWO_TO_THE_64

  const TARGET_RANDOMX_EVENTS_COUNT: nat := 50
  const MAX_SECONDS_BETWEEN_EVENTS: nat := 5
  const MAX_GAP: nat := MAX_SECONDS_BETWEEN_EVENTS * 1_000_000_000

  datatype Event = Event(timestamp: uint64, mntnsId: uint64, pid: nat, comm: string)

  /** What the perf reader returns: it is closed, it fails, it lost samples, or it carries an event. */
  datatype Record = Closed | Failed(message: string) | Lost(samples: nat) | Sample(event: Event)

  /** What the event callback receives. */
  datatype Notice = ReadError(message: string) | LostWarning(samples: nat) | Alert(event: Event)

  /** Go's unsigned subtraction. */
  function Minus(a: uint64, b: uint64): uint64 {
    if a >= b then a - b else a + TWO_TO_THE_64 - b
  }

  /** The subtraction undoes addition modulo 2 to the 64. */
  lemma MinusUndoesPlus(a: uint64, b: uint64)
    ensures (b + Minus(a, b)) % 0x1_0000_0000_0000_0000 == a
    ensures a >= b ==> Minus(a, b) == a - b
  {
  }

  // ---------- The trace specification ----------

  /** The events of one namespace, in order. */
  function Of(trace: seq<Event>, m: uint64): seq<Event> {
    if trace == [] then []
    else
      var rest := Of(trace[..|trace| - 1], m);
      if trace[|trace| - 1].mntnsId == m then rest + [trace[|trace| - 1]] else rest
  }

  /** Event `i` ends 51 consecutive events whose successive gaps are all small. */
  ghost predicate Burst(events: seq<Event>, i: int) {
    && TARGET_RANDOMX_EVENTS_COUNT <= i < |events|
    && forall j :: i - TARGET_RANDOMX_EVENTS_COUNT < j <= i ==> Close(events, j)
  }

  predicate Close(events: seq<Event>, j: int)
    requires 0 < j < |events|
  {
    Minus(events[j].timestamp, events[j - 1].timestamp) <= MAX_GAP
  }

  ghost predicate HasBurst(events: seq<Event>) {
    exists i :: Burst(events, i)
  }

  /** The last event of the trace ends the first burst of its namespace. */
  ghost predicate EndsFirstBurst(trace: seq<Event>) {
    && trace != []
    && var events := Of(trace, trace[|trace| - 1].mntnsId);
       Burst(events, |events| - 1) && forall i :: i < |events| - 1 ==> !Burst(events, i)
  }

  ghost function Alerts(trace: seq<Event>): seq<Event> {
    if trace == [] then []
    else
      var rest := Alerts(trace[..|trace| - 1]);
      if EndsFirstBurst(trace) then rest + [trace[|trace| - 1]] else rest
  }

  lemma {:induction false} OfPrefix(trace: seq<Event>, k: nat, m: uint64)
    requires k <= |trace|
    ensures Of(trace[..k], m) <= Of(trace, m)
    ensures k < |trace| && trace[k].mntnsId == m ==> Of(trace[..k + 1], m) == Of(trace[..k], m) + [trace[k]]
  {
    if k < |trace| {
      assert trace[..k + 1][..k] == trace[..k];
      if k + 1 <= |trace| - 1 {
        assert trace[..|trace| - 1][..k] == trace[..k];
      }
      OfPrefix(trace[..|trace| - 1], k, m);
    } else {
      assert trace[..k] == trace;
    }
  }

  lemma BurstInPrefix(events: seq<Event>, longer: seq<Event>, i: int)
    requires events <= longer && i < |events|
    ensures Burst(events, i) <==> Burst(longer, i)
  {
    if TARGET_RANDOMX_EVENTS_COUNT <= i {
      assert forall j :: i - TARGET_RANDOMX_EVENTS_COUNT < j <= i ==> (Close(events, j) <==> Close(longer, j));
    }
  }

  /** At most one alert per namespace. */
  lemma AtMostOneAlert(trace: seq<Event>, k: nat, l: nat)
    requires k < |trace| && l < |trace| && trace[k].mntnsId == trace[l].mntnsId
    requires EndsFirstBurst(trace[..k + 1]) && EndsFirstBurst(trace[..l + 1])
    ensures k == l
  {
    if k < l {
      LaterIsNotFirst(trace, k, l);
    } else if l < k {
      LaterIsNotFirst(trace, l, k);
    }
  }

  lemma LaterIsNotFirst(trace: seq<Event>, k: nat, l: nat)
    requires k < l < |trace| && trace[k].mntnsId == trace[l].mntnsId
    requires EndsFirstBurst(trace[..k + 1])
    ensures !EndsFirstBurst(trace[..l + 1])
  {
    var m := trace[k].mntnsId;
    var earlier, later := Of(trace[..k + 1], m), Of(trace[..l + 1], m);
    OfPrefix(trace, l, m);
    OfPrefix(trace[..l], k + 1, m);
    assert trace[..l][..k + 1] == trace[..k + 1];
    BurstInPrefix(earlier, later, |earlier| - 1);
  }

  /** A namespace is alerted on exactly when its own events contain a burst, whatever the other namespaces do. */
  lemma {:induction false} AlertedIffBurst(trace: seq<Event>, m: uint64)
    ensures HasBurst(Of(trace, m)) <==> exists a :: a in Alerts(trace) && a.mntnsId == m
  {
    if trace != [] {
      var init, last := trace[..|trace| - 1], trace[|trace| - 1];
      AlertedIffBurst(init, m);
      var before, after := Of(init, m), Of(trace, m);
      if last.mntnsId == m {
        if i :| Burst(before, i) {
          BurstInPrefix(before, after, i);
          assert HasBurst(after);
        }
        if HasBurst(after) && !HasBurst(before) {
          var i :| Burst(after, i);
          assert i == |after| - 1 by {
            if i < |before| { BurstInPrefix(before, after, i); }
          }
          forall j | j < |after| - 1
            ensures !Burst(after, j)
          {
            BurstInPrefix(before, after, j);
          }
          assert last in Alerts(trace);
        }
        assert EndsFirstBurst(trace) ==> HasBurst(after);
      }
      assert forall a :: a in Alerts(trace) ==> a in Alerts(init) || a == last;
      assert forall a :: a in Alerts(init) ==> a in Alerts(trace);
    }
  }

  // ---------- The specification in plain numbers ----------

  /** Time does not go back in any of the events. */
  predicate InOrder(events: seq<Event>) {
    forall j :: 0 < j < |events| ==> events[j - 1].timestamp <= events[j].timestamp
  }

  /** Fifty-one events end at `i` of which each comes at most five seconds after the one before. */
  ghost predicate FiftyOneClose(events: seq<Event>, i: int) {
    && 50 <= i < |events|
    && forall j :: i - 50 < j <= i ==> events[j].timestamp - events[j - 1].timestamp <= 5_000_000_000
  }

  lemma BurstInNumbers(events: seq<Event>, i: int)
    requires InOrder(events)
    ensures Burst(events, i) <==> FiftyOneClose(events, i)
  {
    hide Minus;
    forall j | 0 < j < |events|
      ensures Close(events, j) <==> events[j].timestamp - events[j - 1].timestamp <= 5_000_000_000
    {
      MinusUndoesPlus(events[j].timestamp, events[j - 1].timestamp);
    }
  }

  /** If a namespace's time does not go back, it is alerted on exactly if some 51 of its events are that close. */
  lemma AlertedIffFiftyOneClose(trace: seq<Event>, m: uint64)
    requires InOrder(Of(trace, m))
    ensures (exists a :: a in Alerts(trace) && a.mntnsId == m) <==> exists i :: FiftyOneClose(Of(trace, m), i)
  {
    hide Burst, FiftyOneClose, Of, Alerts;
    AlertedIffBurst(trace, m);
    var events := Of(trace, m);
    forall i
      ensures Burst(events, i) <==> FiftyOneClose(events, i)
    {
      BurstInNumbers(events, i);
    }
    if HasBurst(events) {
      var i :| Burst(events, i);
      assert FiftyOneClose(events, i);
    }
    if i :| FiftyOneClose(events, i) {
      assert Burst(events, i);
    }
  }

  lemma {:induction false} OfOne(events: seq<Event>, m: uint64)
    requires forall e :: e in events ==> e.mntnsId == m
    ensures Of(events, m) == events
  {
    if events != [] {
      OfOne(events[..|events| - 1], m);
      assert events[|events| - 1] in events;
    }
  }

  /** Fifty events of one namespace raise no alert. */
  lemma {:induction false} FewEventsDoNotAlert(events: seq<Event>, m: uint64)
    requires |events| <= 50 && forall e :: e in events ==> e.mntnsId == m
    ensures Alerts(events) == []
  {
    if events != [] {
      FewEventsDoNotAlert(events[..|events| - 1], m);
      assert events[|events| - 1] in events;
      OfOne(events, m);
    }
  }

  /** Fifty-one events raise one alert, at the last, exactly if each comes at most five seconds after the one before. */
  lemma FiftyOneEvents(events: seq<Event>, m: uint64)
    requires |events| == 51 && (forall e :: e in events ==> e.mntnsId == m) && InOrder(events)
    ensures Alerts(events)
         == if forall j :: 0 < j <= 50 ==> events[j].timestamp - events[j - 1].timestamp <= 5_000_000_000
            then [events[50]] else []
  {
    hide Burst, Of;
    OfOne(events, m);
    FewEventsDoNotAlert(events[..50], m);
    assert events[50] in events;
    BurstInNumbers(events, 50);
    forall i | i < 50
      ensures !Burst(events, i)
    {
      BurstInNumbers(events, i);
    }
  }

  // ---------- What a cache entry remembers ----------

  /** The number of events at the end whose successive gaps are all small. */
  function RunLength(events: seq<Event>): (n: nat)
    requires events != []
    ensures 1 <= n <= |events|
  {
    var last := |events| - 1;
    if last == 0 || !Close(events, last) then 1 else RunLength(events[..last]) + 1
  }

  lemma {:induction false} RunLengthMeaning(events: seq<Event>)
    requires events != []
    ensures forall j :: |events| - RunLength(events) < j < |events| ==> Close(events, j)
    ensures RunLength(events) < |events| ==> !Close(events, |events| - RunLength(events))
  {
    var last := |events| - 1;
    if last > 0 && Close(events, last) {
      var init := events[..last];
      RunLengthMeaning(init);
      assert forall j :: 0 < j < last ==> (Close(events, j) <==> Close(init, j));
    }
  }

  lemma LongRunIsBurst(events: seq<Event>)
    requires events != []
    ensures RunLength(events) > TARGET_RANDOMX_EVENTS_COUNT <==> Burst(events, |events| - 1)
  {
    hide Close;
    RunLengthMeaning(events);
    var n := RunLength(events);
    if n <= TARGET_RANDOMX_EVENTS_COUNT < |events| {
      assert !Close(events, |events| - n);
    }
  }

  datatype Entry = Entry(timestamp: uint64, eventsCount: nat, alerted: bool)

  ghost predicate Remembers(entry: Entry, events: seq<Event>) {
    && events != []
    && entry.eventsCount <= TARGET_RANDOMX_EVENTS_COUNT + 1
    && (entry.alerted <==> HasBurst(events))
    && (!entry.alerted ==>
          && entry.timestamp == events[|events| - 1].timestamp
          && entry.eventsCount == RunLength(events))
  }

  ghost predicate CacheRemembers(cache: map<uint64, Entry>, trace: seq<Event>) {
    forall m: uint64 ::
      && (m in cache <==> Of(trace, m) != [])
      && (m in cache ==> Remembers(cache[m], Of(trace, m)))
  }

  function AlertsAmong(notices: seq<Notice>): seq<Event> {
    if notices == [] then []
    else
      var rest := AlertsAmong(notices[..|notices| - 1]);
      match notices[|notices| - 1]
      case Alert(e) => rest + [e]
      case _ => rest
  }

  /** The events delivered before the reader closes or fails. */
  function Delivered(records: seq<Record>): seq<Event> {
    if records == [] || records[0].Closed? || records[0].Failed? then []
    else if records[0].Sample? then [records[0].event] + Delivered(records[1..])
    else Delivered(records[1..])
  }

  // ---------- One event ----------

  /** What the last event of the trace makes the tracer report. */
  ghost function AlertOn(trace: seq<Event>): seq<Notice> {
    if EndsFirstBurst(trace) then [Alert(trace[|trace| - 1])] else []
  }

  /** What the records make the tracer report after `trace`. */
  ghost function Noticed(trace: seq<Event>, records: seq<Record>): seq<Notice>
    decreases |records|
  {
    if records == [] then []
    else
      match records[0]
      case Closed => []
      case Failed(message) => [ReadError(message)]
      case Lost(samples) => [LostWarning(samples)] + Noticed(trace, records[1..])
      case Sample(event) => AlertOn(trace + [event]) + Noticed(trace + [event], records[1..])
  }

  /** The sample losses that are read, in order. */
  function Losses(records: seq<Record>): seq<nat> {
    if records == [] || records[0].Closed? || records[0].Failed? then []
    else if records[0].Lost? then [records[0].samples] + Losses(records[1..])
    else Losses(records[1..])
  }

  /** The failure that ends the reading, if one does. */
  function Failure(records: seq<Record>): seq<string> {
    if records == [] || records[0].Closed? then []
    else if records[0].Failed? then [records[0].message]
    else Failure(records[1..])
  }

  function Warnings(notices: seq<Notice>): seq<nat> {
    if notices == [] then []
    else if notices[0].LostWarning? then [notices[0].samples] + Warnings(notices[1..])
    else Warnings(notices[1..])
  }

  function Errors(notices: seq<Notice>): seq<string> {
    if notices == [] then []
    else if notices[0].ReadError? then [notices[0].message] + Errors(notices[1..])
    else Errors(notices[1..])
  }

  /** Every loss is warned of, in order, and a failure is reported, once, at the end. */
  lemma {:induction false} NoticedLossesAndFailure(trace: seq<Event>, records: seq<Record>)
    ensures Warnings(Noticed(trace, records)) == Losses(records)
    ensures Errors(Noticed(trace, records)) == Failure(records)
    ensures Failure(records) != [] ==>
              var notices := Noticed(trace, records);
              notices != [] && notices[|notices| - 1] == ReadError(Failure(records)[0])
    decreases |records|
  {
    hide AlertOn;
    if records != [] {
      var rest := records[1..];
      match records[0] {
        case Closed =>
        case Failed(message) =>
          assert [ReadError(message)][1..] == [];
        case Lost(samples) =>
          NoticedLossesAndFailure(trace, rest);
          assert ([LostWarning(samples)] + Noticed(trace, rest))[1..] == Noticed(trace, rest);
        case Sample(event) =>
          NoticedLossesAndFailure(trace + [event], rest);
          AlertOnIsAlert(trace + [event]);
          var alert := AlertOn(trace + [event]);
          if alert != [] {
            assert alert[0] in alert && alert == [alert[0]];
            assert (alert + Noticed(trace + [event], rest))[1..] == Noticed(trace + [event], rest);
          } else {
            assert alert + Noticed(trace + [event], rest) == Noticed(trace + [event], rest);
          }
      }
    }
  }

  lemma AlertOnIsAlert(trace: seq<Event>)
    ensures |AlertOn(trace)| <= 1 && forall n :: n in AlertOn(trace) ==> n.Alert?
  {
  }

  lemma OfSnoc(trace: seq<Event>, event: Event)
    ensures forall n: uint64 ::
              Of(trace + [event], n) == if n == event.mntnsId then Of(trace, n) + [event] else Of(trace, n)
    ensures Alerts(trace + [event]) == Alerts(trace) + if EndsFirstBurst(trace + [event]) then [event] else []
  {
    assert (trace + [event])[..|trace|] == trace;
  }

  lemma AlertsAmongSnoc(notices: seq<Notice>, notice: Notice)
    ensures AlertsAmong(notices + [notice])
         == AlertsAmong(notices) + match notice case Alert(e) => [e] case _ => []
  {
    assert (notices + [notice])[..|notices|] == notices;
  }

  /** Appending one event keeps earlier bursts and can only add one at the end. */
  lemma StillBurst(before: seq<Event>, event: Event)
    ensures HasBurst(before + [event]) <==> HasBurst(before) || Burst(before + [event], |before|)
    ensures forall i :: i < |before| ==> (Burst(before + [event], i) <==> Burst(before, i))
  {
    var after := before + [event];
    forall i | i < |before|
      ensures Burst(after, i) <==> Burst(before, i)
    {
      BurstInPrefix(before, after, i);
    }
    if i :| Burst(before, i) {
      assert Burst(after, i);
    }
  }

  lemma AlertedStays(entry: Entry, before: seq<Event>, event: Event)
    requires Remembers(entry, before) && entry.alerted
    ensures Remembers(entry, before + [event])
    ensures exists i :: i < |before| && Burst(before + [event], i)
  {
    StillBurst(before, event);
    var i :| Burst(before, i);
    assert Burst(before + [event], i);
  }

  /** The entry that counting an event leaves, when its namespace was not alerted on before. */
  function Counted(cache: map<uint64, Entry>, event: Event): Entry {
    Entry(
      event.timestamp,
      if event.mntnsId !in cache || Minus(event.timestamp, cache[event.mntnsId].timestamp) > MAX_GAP then 1
      else cache[event.mntnsId].eventsCount + 1,
      false)
  }

  lemma RunGrows(before: seq<Event>, event: Event)
    ensures RunLength(before + [event])
         == if before == [] || Minus(event.timestamp, before[|before| - 1].timestamp) > MAX_GAP then 1
            else RunLength(before) + 1
  {
    var after := before + [event];
    assert after[..|before|] == before;
    assert before != [] ==> after[|before| - 1] == before[|before| - 1] && after[|before|] == event;
  }

  lemma FirstBurstHere(before: seq<Event>, event: Event)
    requires !HasBurst(before)
    ensures var after := before + [event];
            && RunLength(after) <= TARGET_RANDOMX_EVENTS_COUNT + 1
            && (RunLength(after) > TARGET_RANDOMX_EVENTS_COUNT <==> HasBurst(after))
            && (RunLength(after) > TARGET_RANDOMX_EVENTS_COUNT <==> Burst(after, |before|))
            && forall i :: i < |before| ==> !Burst(after, i)
  {
    hide Burst, Close, Minus;
    StillBurst(before, event);
    RunGrows(before, event);
    LongRunIsBurst(before + [event]);
    if before != [] {
      LongRunIsBurst(before);
      assert !Burst(before, |before| - 1);
    }
    assert forall i :: i < |before| ==> !Burst(before, i);
  }

  /** The new count is the length of the current run, and it passes the target exactly when a first burst ends here. */
  lemma CountIsRunLength(cache: map<uint64, Entry>, trace: seq<Event>, event: Event)
    requires CacheRemembers(cache, trace)
    requires event.mntnsId in cache ==> !cache[event.mntnsId].alerted
    ensures var after, count := Of(trace, event.mntnsId) + [event], Counted(cache, event).eventsCount;
            && count == RunLength(after) <= TARGET_RANDOMX_EVENTS_COUNT + 1
            && (count > TARGET_RANDOMX_EVENTS_COUNT <==> HasBurst(after))
            && (count > TARGET_RANDOMX_EVENTS_COUNT <==> EndsFirstBurst(trace + [event]))
  {
    hide Burst, Of, Minus, RunLength;
    var before := Of(trace, event.mntnsId);
    RunGrows(before, event);
    assert !HasBurst(before) by {
      assert event.mntnsId in cache ==> Remembers(cache[event.mntnsId], before);
      assert event.mntnsId !in cache ==> before == [];
      NoBurstInNothing();
    }
    FirstBurstHere(before, event);
    OfSnoc(trace, event);
    assert Of(trace + [event], event.mntnsId) == before + [event];
  }

  lemma NoBurstInNothing()
    ensures !HasBurst([])
  {
  }

  /** Replacing the entry of the event's namespace by one that remembers its events is all a step has to do. */
  lemma KeepsRemembering(cache: map<uint64, Entry>, trace: seq<Event>, event: Event, entry: Entry)
    requires CacheRemembers(cache, trace)
    requires Remembers(entry, Of(trace, event.mntnsId) + [event])
    ensures CacheRemembers(cache[event.mntnsId := entry], trace + [event])
  {
    hide Of, Remembers, Alerts, EndsFirstBurst;
    OfSnoc(trace, event);
    var later := cache[event.mntnsId := entry];
    forall m: uint64
      ensures (m in later <==> Of(trace + [event], m) != [])
          && (m in later ==> Remembers(later[m], Of(trace + [event], m)))
    {
      assert Of(trace + [event], m) == if m == event.mntnsId then Of(trace, m) + [event] else Of(trace, m);
    }
  }

  lemma CountedRemembers(entry: Entry, last: Entry, before: seq<Event>, event: Event)
    requires var after := before + [event];
             && entry == Entry(event.timestamp, RunLength(after), false)
             && entry.eventsCount <= TARGET_RANDOMX_EVENTS_COUNT + 1
             && (entry.eventsCount > TARGET_RANDOMX_EVENTS_COUNT <==> HasBurst(after))
    requires last == entry.(alerted := entry.eventsCount > TARGET_RANDOMX_EVENTS_COUNT)
    ensures Remembers(last, before + [event])
  {
  }

  lemma Overwrite<K, V>(m: map<K, V>, k: K, v: V, w: V)
    ensures m[k := v][k := w] == m[k := w]
    ensures k in m && m[k] == w ==> m[k := w] == m
  {
  }

  /** The cache and the alerts after one event, as the two methods below leave them. */
  lemma StepIsCorrect(cache: map<uint64, Entry>, trace: seq<Event>, event: Event, notices: seq<Notice>)
    requires CacheRemembers(cache, trace) && AlertsAmong(notices) == Alerts(trace)
    ensures var m := event.mntnsId;
            var entry := Counted(cache, event);
            if m in cache && cache[m].alerted then
              CacheRemembers(cache, trace + [event]) && Alerts(trace + [event]) == AlertsAmong(notices)
            else if entry.eventsCount > TARGET_RANDOMX_EVENTS_COUNT then
              && CacheRemembers(cache[m := entry][m := entry.(alerted := true)], trace + [event])
              && Alerts(trace + [event]) == AlertsAmong(notices + [Alert(event)])
            else
              CacheRemembers(cache[m := entry], trace + [event]) && Alerts(trace + [event]) == AlertsAmong(notices)
  {
    hide Of, Alerts, AlertsAmong, Burst, RunLength, Minus;
    var m := event.mntnsId;
    AlertsAmongSnoc(notices, Alert(event));
    OfSnoc(trace, event);
    if m in cache && cache[m].alerted {
      AlertedStays(cache[m], Of(trace, m), event);
      KeepsRemembering(cache, trace, event, cache[m]);
      Overwrite(cache, m, cache[m], cache[m]);
      assert !EndsFirstBurst(trace + [event]);
    } else {
      var entry := Counted(cache, event);
      CountIsRunLength(cache, trace, event);
      var last := if entry.eventsCount > TARGET_RANDOMX_EVENTS_COUNT then entry.(alerted := true) else entry;
      CountedRemembers(entry, last, Of(trace, m), event);
      KeepsRemembering(cache, trace, event, last);
      Overwrite(cache, m, entry, last);
    }
  }

  /** If the alerts among the reports stay those of the trace, the report added is the one due. */
  lemma AlertIsReported(trace: seq<Event>, event: Event, before: seq<Notice>, after: seq<Notice>)
    requires AlertsAmong(before) == Alerts(trace) && AlertsAmong(after) == Alerts(trace + [event])
    requires after == before || after == before + [Alert(event)]
    ensures after == before + AlertOn(trace + [event])
  {
    hide EndsFirstBurst, Of;
    OfSnoc(trace, event);
    AlertsAmongSnoc(before, Alert(event));
    assert |AlertsAmong(before + [Alert(event)])| == |AlertsAmong(before)| + 1;
  }

  // ---------- The tracer ----------

  class Tracer {
    var mntnsToEventCount: map<uint64, Entry>
    /** Calls of the event callback, in order. */
    var notices: seq<Notice>
    /** Values written to the kernel's mount-namespace filter map. */
    var filterMap: map<uint64, nat>
    /** The events handled so far. */
    ghost var trace: seq<Event>

    ghost predicate Valid()
      reads this
    {
      && CacheRemembers(mntnsToEventCount, trace)
      && AlertsAmong(notices) == Alerts(trace)
      && (forall m: uint64 :: m in filterMap <==> m in mntnsToEventCount && mntnsToEventCount[m].alerted)
    }

    constructor ()
      ensures Valid() && trace == [] && notices == []
    {
      mntnsToEventCount := map[];
      notices := [];
      filterMap := map[];
      trace := [];
    }

    /** Count the event, unless its namespace was already alerted on. */
    method Count(event: Event) returns (done: bool)
      modifies this`mntnsToEventCount
      ensures done <==> event.mntnsId in old(mntnsToEventCount) && old(mntnsToEventCount)[event.mntnsId].alerted
      ensures mntnsToEventCount == if done then old(mntnsToEventCount)
                                   else old(mntnsToEventCount)[event.mntnsId := Counted(old(mntnsToEventCount), event)]
    {
      var m := event.mntnsId;
      if m !in mntnsToEventCount {
        mntnsToEventCount := mntnsToEventCount[m := Entry(event.timestamp, 1, false)];
      } else if !mntnsToEventCount[m].alerted {
        if Minus(event.timestamp, mntnsToEventCount[m].timestamp) > MAX_SECONDS_BETWEEN_EVENTS * 1_000_000_000 {
          mntnsToEventCount := mntnsToEventCount[m := Entry(event.timestamp, 1, false)];
        } else {
          mntnsToEventCount :=
            mntnsToEventCount[m := Entry(event.timestamp, mntnsToEventCount[m].eventsCount + 1, false)];
        }
      } else {
        return true;
      }
      return false;
    }

    /** Raise the alert if the count passed the target. */
    method AlertIfDue(event: Event)
      requires event.mntnsId in mntnsToEventCount && !mntnsToEventCount[event.mntnsId].alerted
      modifies this`mntnsToEventCount, this`notices, this`filterMap
      ensures var m, entry := event.mntnsId, old(mntnsToEventCount)[event.mntnsId];
              if entry.eventsCount > TARGET_RANDOMX_EVENTS_COUNT then
                && notices == old(notices) + [Alert(event)]
                && mntnsToEventCount == old(mntnsToEventCount)[m := Entry(event.timestamp, entry.eventsCount, true)]
                && filterMap == old(filterMap)[m := 0]
              else unchanged(this)
    {
      var m := event.mntnsId;
      if mntnsToEventCount[m].eventsCount > TARGET_RANDOMX_EVENTS_COUNT && !mntnsToEventCount[m].alerted {
        notices := notices + [Alert(event)];
        mntnsToEventCount := mntnsToEventCount[m := Entry(event.timestamp, mntnsToEventCount[m].eventsCount, true)];
        filterMap := filterMap[m := 0];
      }
    }

    method Handle(event: Event)
      requires Valid()
      modifies this
      ensures Valid() && trace == old(trace) + [event]
      ensures notices == old(notices) + AlertOn(trace)
    {
      hide CacheRemembers, AlertOn, Alerts, AlertsAmong;
      var done := Count(event);
      if !done {
        AlertIfDue(event);
      }
      trace := trace + [event];
      assert CacheRemembers(mntnsToEventCount, trace) && Alerts(trace) == AlertsAmong(notices) by {
        StepIsCorrect(old(mntnsToEventCount), old(trace), event, old(notices));
      }
      AlertIsReported(old(trace), event, old(notices), notices);
    }

    /** The reading loop; it ends when the reader is closed or fails. */
    method Run(records: seq<Record>)
      requires Valid()
      modifies this
      ensures Valid() && trace == old(trace) + Delivered(records)
      ensures notices == old(notices) + Noticed(old(trace), records)
    {
      hide CacheRemembers, AlertOn, Alerts, AlertsAmong;
      var i := 0;
      assert records[0..] == records;
      while i < |records|
        invariant 0 <= i <= |records|
        invariant Valid()
        invariant trace + Delivered(records[i..]) == old(trace) + Delivered(records)
        invariant notices + Noticed(trace, records[i..]) == old(notices) + Noticed(old(trace), records)
      {
        var record := records[i];
        ghost var rest := records[i + 1..];
        assert records[i..][1..] == rest;
        i := i + 1;
        match record {
          case Closed =>
            return;
          case Failed(message) =>
            AlertsAmongSnoc(notices, ReadError(message));
            notices := notices + [ReadError(message)];
            return;
          case Lost(samples) =>
            Associative(notices, [LostWarning(samples)], Noticed(trace, rest));
            AlertsAmongSnoc(notices, LostWarning(samples));
            notices := notices + [LostWarning(samples)];
          case Sample(event) =>
            Associative(trace, [event], Delivered(rest));
            Associative(notices, AlertOn(trace + [event]), Noticed(trace + [event], rest));
            Handle(event);
        }
      }
    }
  }
}
