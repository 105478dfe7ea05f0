/** The watch cursor: how it moves with the events, what pre-listing notifies, and resumption after disconnects. */
module Watcher {
  import opened Sequences
  import opened ResourceVersion

  /** The types of watch events; an error carries the status code. */
  datatype EventKind = Added | Modified | Deleted | Bookmark | Error(code: int)
  datatype WatchEvent = WatchEvent(kind: EventKind, version: string, id: nat)

  datatype Notice = Add(id: nat) | Update(id: nat) | Delete(id: nat)

  const GONE: int := 410

  // ---------- One event ----------

  function NextCursor(cursor: string, e: WatchEvent): string {
    if e.kind == Error(GONE) then ""
    else if e.version != "" && IsHigher(e.version, cursor) then e.version
    else cursor
  }

  function NoticesOf(e: WatchEvent): seq<Notice> {
    match e.kind
    case Added => [Add(e.id)]
    case Modified => [Update(e.id)]
    case Deleted => [Delete(e.id)]
    case _ => []
  }

  function CursorAfter(cursor: string, events: seq<WatchEvent>): string {
    if events == [] then cursor else NextCursor(CursorAfter(cursor, events[..|events| - 1]), events[|events| - 1])
  }

  function NoticesAfter(events: seq<WatchEvent>): seq<Notice> {
    if events == [] then [] else NoticesAfter(events[..|events| - 1]) + NoticesOf(events[|events| - 1])
  }

  // ---------- The cursor is the numeric maximum since the last reset ----------

  predicate CanonicalOrEmpty(s: string) { s == "" || Canonical(s) }

  /** The versions that count: the starting cursor unless a reset dropped it, and those after the last reset. */
  function Relevant(cursor: string, events: seq<WatchEvent>): seq<string> {
    if events == [] then (if cursor == "" then [] else [cursor])
    else if events[|events| - 1].kind == Error(GONE) then []
    else Relevant(cursor, events[..|events| - 1])
         + if events[|events| - 1].version == "" then [] else [events[|events| - 1].version]
  }

  lemma {:induction false} CursorIsMaximum(cursor: string, events: seq<WatchEvent>)
    requires CanonicalOrEmpty(cursor) && forall e :: e in events ==> CanonicalOrEmpty(e.version)
    ensures var c, relevant := CursorAfter(cursor, events), Relevant(cursor, events);
            && (c == "" <==> relevant == [])
            && (c != "" ==> c in relevant && Canonical(c))
            && (forall v :: v in relevant ==> Canonical(v) && (c != "" ==> Value(v) <= Value(c)))
  {
    if events != [] {
      var init, e := events[..|events| - 1], events[|events| - 1];
      assert e in events;
      CursorIsMaximum(cursor, init);
      var c := CursorAfter(cursor, init);
      if e.version != "" && c != "" {
        IsHigherIsShortlex(e.version, c);
      }
    }
  }

  // ---------- Pre-listing ----------

  datatype Item = Item(version: string, id: nat)

  /** Objects that listing `items` notifies, and the cursor it leaves, from a given cursor. */
  function Listed(cursor: string, items: seq<Item>): (seq<Notice>, string) {
    if items == [] then ([], cursor)
    else
      var (notices, c) := Listed(cursor, items[..|items| - 1]);
      var item := items[|items| - 1];
      if IsHigher(item.version, c) then (notices + [Add(item.id)], item.version) else (notices, c)
  }

  function PreListed(items: seq<Item>): (seq<Notice>, string) { Listed("", items) }

  lemma {:induction false} ListedConcat(cursor: string, xs: seq<Item>, ys: seq<Item>)
    ensures Listed(cursor, xs + ys)
         == (Listed(cursor, xs).0 + Listed(Listed(cursor, xs).1, ys).0, Listed(Listed(cursor, xs).1, ys).1)
  {
    if ys == [] {
      assert xs + ys == xs && Listed(cursor, xs).0 + [] == Listed(cursor, xs).0;
    } else {
      hide IsHigher;
      var init, last := ys[..|ys| - 1], ys[|ys| - 1];
      ListedConcat(cursor, xs, init);
      assert (xs + ys)[..|xs + ys| - 1] == xs + init;
      var (first, c) := Listed(cursor, xs);
      Associative(first, Listed(c, init).0, [Add(last.id)]);
    }
  }

  lemma {:induction false} AfterConcat(cursor: string, xs: seq<WatchEvent>, ys: seq<WatchEvent>)
    ensures CursorAfter(cursor, xs + ys) == CursorAfter(CursorAfter(cursor, xs), ys)
    ensures NoticesAfter(xs + ys) == NoticesAfter(xs) + NoticesAfter(ys)
  {
    if ys == [] {
      assert xs + ys == xs;
    } else {
      hide IsHigher;
      var init, last := ys[..|ys| - 1], ys[|ys| - 1];
      AfterConcat(cursor, xs, init);
      assert (xs + ys)[..|xs + ys| - 1] == xs + init;
      Associative(NoticesAfter(xs), NoticesAfter(init), NoticesOf(last));
    }
  }

  predicate CanonicalItems(items: seq<Item>) {
    forall i :: 0 <= i < |items| ==> Canonical(items[i].version)
  }

  predicate AboveAll(items: seq<Item>, version: string) {
    forall i :: 0 <= i < |items| ==> Value(items[i].version) < Value(version)
  }

  /** Notices for the items above every item before them, across namespaces. */
  function NoticesOfStrictMaxima(items: seq<Item>): seq<Notice> {
    if items == [] then []
    else
      var init, last := items[..|items| - 1], items[|items| - 1];
      NoticesOfStrictMaxima(init) + if AboveAll(init, last.version) then [Add(last.id)] else []
  }

  /** The cursor is a listed version that no listed version exceeds. */
  ghost predicate IsMaximumOf(cursor: string, items: seq<Item>) {
    && Canonical(cursor)
    && (exists i :: 0 <= i < |items| && items[i].version == cursor)
    && (forall i :: 0 <= i < |items| ==> Value(items[i].version) <= Value(cursor))
  }

  lemma MaximumStep(items: seq<Item>, cursor: string, last: Item)
    requires IsMaximumOf(cursor, items) && Canonical(last.version)
    ensures IsHigher(last.version, cursor) <==> AboveAll(items, last.version)
    ensures IsMaximumOf(if IsHigher(last.version, cursor) then last.version else cursor, items + [last])
  {
    hide Value, Canonical;
    IsHigherIsShortlex(last.version, cursor);
    var k :| 0 <= k < |items| && items[k].version == cursor;
    var longer := items + [last];
    assert longer[k].version == cursor;
    assert longer[|items|].version == last.version;
  }

  /** Pre-listing notifies exactly the left-to-right strict maxima and leaves the maximum as cursor. */
  lemma {:induction false} PreListNotifiesStrictMaxima(items: seq<Item>)
    requires CanonicalItems(items)
    ensures PreListed(items).0 == NoticesOfStrictMaxima(items)
    ensures items == [] ==> PreListed(items).1 == ""
    ensures items != [] ==> IsMaximumOf(PreListed(items).1, items)
  {
    hide Value, Canonical;
    if items != [] {
      var init, last := items[..|items| - 1], items[|items| - 1];
      PreListNotifiesStrictMaxima(init);
      assert items == init + [last];
      if init == [] {
        assert items[0].version == last.version;
      } else {
        MaximumStep(init, PreListed(init).1, last);
        CanonicalIsNotEmpty(PreListed(init).1);
      }
    }
  }

  lemma CanonicalIsNotEmpty(s: string)
    requires Canonical(s)
    ensures s != ""
  {
  }

  // ---------- Resumption ----------

  /** The server's log of changes, with strictly increasing versions. */
  ghost predicate IsLog(log: seq<WatchEvent>) {
    && (forall i :: 0 <= i < |log| ==> Canonical(log[i].version))
    && (forall i :: 0 <= i < |log| ==> log[i].kind.Added? || log[i].kind.Modified? || log[i].kind.Deleted?)
    && (forall i, j :: 0 <= i < j < |log| ==> Value(log[i].version) < Value(log[j].version))
  }

  /** The first position whose version is above the cursor. */
  function FirstAbove(log: seq<WatchEvent>, cursor: string): (i: nat)
    ensures i <= |log|
    ensures forall j :: 0 <= j < i ==> Value(log[j].version) <= Value(cursor)
    ensures i < |log| ==> Value(log[i].version) > Value(cursor)
  {
    if log == [] || Value(log[0].version) > Value(cursor) then 0 else 1 + FirstAbove(log[1..], cursor)
  }

  datatype Step = Open | Deliver | SendBookmark(version: string) | Disconnect

  /** `stream` is the position of the next log entry the open stream will send. */
  datatype Client = Client(cursor: string, stream: Option<nat>, handled: seq<WatchEvent>)

  /** A bookmark may name any version below everything the stream has yet to send. */
  predicate BookmarkAllowed(log: seq<WatchEvent>, position: nat, version: string) {
    Canonical(version) && forall i :: position <= i < |log| ==> Value(log[i].version) > Value(version)
  }

  /** One step; a step that is not enabled changes nothing.  A stream opened at the cursor starts after it. */
  function Next(log: seq<WatchEvent>, s: Client, step: Step): Client {
    match step
    case Open => if s.stream.None? then s.(stream := Some(FirstAbove(log, s.cursor))) else s
    case Deliver =>
      if s.stream.Some? && s.stream.value < |log| then
        var e := log[s.stream.value];
        Client(NextCursor(s.cursor, e), Some(s.stream.value + 1), s.handled + [e])
      else s
    case SendBookmark(v) =>
      if s.stream.Some? && BookmarkAllowed(log, s.stream.value, v) then
        s.(cursor := NextCursor(s.cursor, WatchEvent(Bookmark, v, 0)))
      else s
    case Disconnect => s.(stream := None)
  }

  function After(log: seq<WatchEvent>, start: string, steps: seq<Step>): Client {
    if steps == [] then Client(start, None, [])
    else Next(log, After(log, start, steps[..|steps| - 1]), steps[|steps| - 1])
  }

  /** Everything between the starting cursor and the current one was handled, in order, once; nothing else was. */
  ghost predicate Resumed(log: seq<WatchEvent>, start: string, s: Client) {
    && Canonical(s.cursor)
    && FirstAbove(log, start) <= FirstAbove(log, s.cursor)
    && s.handled == log[FirstAbove(log, start)..FirstAbove(log, s.cursor)]
    && (s.stream.Some? ==> s.stream.value == FirstAbove(log, s.cursor))
  }

  lemma FirstAboveIs(log: seq<WatchEvent>, cursor: string, i: nat)
    requires IsLog(log) && i <= |log|
    requires i > 0 ==> Value(log[i - 1].version) <= Value(cursor)
    requires i < |log| ==> Value(log[i].version) > Value(cursor)
    ensures FirstAbove(log, cursor) == i
  {
    hide Value, Canonical;
    assert forall j :: 0 <= j < i ==> Value(log[j].version) <= Value(log[i - 1].version);
    assert forall j :: i <= j < |log| ==> Value(log[j].version) >= Value(log[i].version);
  }

  lemma DeliverResumes(log: seq<WatchEvent>, start: string, s: Client)
    requires IsLog(log) && Resumed(log, start, s)
    requires s.stream.Some? && s.stream.value < |log|
    ensures Resumed(log, start, Next(log, s, Deliver))
  {
    hide Value, Canonical, FirstAbove;
    var k := s.stream.value;
    var e := log[k];
    CanonicalIsNotEmpty(e.version);
    IsHigherIsShortlex(e.version, s.cursor);
    FirstAboveIs(log, e.version, k + 1);
    var lo := FirstAbove(log, start);
    assert log[lo..k] + [e] == log[lo..k + 1];
  }

  lemma BookmarkResumes(log: seq<WatchEvent>, start: string, s: Client, v: string)
    requires IsLog(log) && Resumed(log, start, s)
    requires s.stream.Some? && BookmarkAllowed(log, s.stream.value, v)
    ensures Resumed(log, start, Next(log, s, SendBookmark(v)))
  {
    hide Value, Canonical;
    var k := s.stream.value;
    IsHigherIsShortlex(v, s.cursor);
    if IsHigher(v, s.cursor) {
      FirstAboveIs(log, v, k);
    }
  }

  /**
   Exactly once: over any sequence of openings, deliveries, bookmarks and disconnects, the handled events are
   the contiguous part of the log above the starting cursor and up to the current one, and an open stream
   continues right behind it.
   */
  lemma {:induction false} HandledExactlyOnce(log: seq<WatchEvent>, start: string, steps: seq<Step>)
    requires IsLog(log) && Canonical(start)
    ensures Resumed(log, start, After(log, start, steps))
  {
    hide Value, Canonical;
    if steps != [] {
      var before, step := After(log, start, steps[..|steps| - 1]), steps[|steps| - 1];
      HandledExactlyOnce(log, start, steps[..|steps| - 1]);
      if step.Deliver? && before.stream.Some? && before.stream.value < |log| {
        DeliverResumes(log, start, before);
      } else if step.SendBookmark? && before.stream.Some? && BookmarkAllowed(log, before.stream.value, step.version) {
        BookmarkResumes(log, start, before, step.version);
      }
    }
  }

  /** In terms of versions: an event was handled exactly when its version is between the two cursors. */
  lemma HandledIffBetweenCursors(log: seq<WatchEvent>, start: string, steps: seq<Step>, i: nat)
    requires IsLog(log) && Canonical(start) && i < |log|
    ensures log[i] in After(log, start, steps).handled
       <==> Value(start) < Value(log[i].version) <= Value(After(log, start, steps).cursor)
  {
    hide Value, Canonical;
    HandledExactlyOnce(log, start, steps);
    var s := After(log, start, steps);
    var lo, hi := FirstAbove(log, start), FirstAbove(log, s.cursor);
    AboveIff(log, start, i);
    AboveIff(log, s.cursor, i);
    SliceMember(log, lo, hi, i);
  }

  lemma AboveIff(log: seq<WatchEvent>, cursor: string, i: nat)
    requires IsLog(log) && i < |log|
    ensures FirstAbove(log, cursor) <= i <==> Value(cursor) < Value(log[i].version)
  {
    hide Value, Canonical;
    var k := FirstAbove(log, cursor);
    assert k < i ==> Value(log[k].version) < Value(log[i].version);
  }

  lemma SliceMember(log: seq<WatchEvent>, lo: nat, hi: nat, i: nat)
    requires IsLog(log) && lo <= hi <= |log| && i < |log|
    ensures log[i] in log[lo..hi] <==> lo <= i < hi
  {
    hide Value, Canonical;
    if lo <= i < hi {
      assert log[lo..hi][i - lo] == log[i];
    }
    if log[i] in log[lo..hi] {
      var k :| 0 <= k < hi - lo && log[lo..hi][k] == log[i];
      assert log[lo + k] == log[i];
      assert !(lo + k < i) && !(i < lo + k);
    }
  }

  // ---------- What is notified ----------

  /** The notice tells what happened to the object of the event. */
  predicate Tells(n: Notice, e: WatchEvent) {
    && n.id == e.id
    && (n.Add? <==> e.kind.Added?) && (n.Update? <==> e.kind.Modified?) && (n.Delete? <==> e.kind.Deleted?)
  }

  predicate IsChange(e: WatchEvent) { e.kind.Added? || e.kind.Modified? || e.kind.Deleted? }

  /** The changes among the events, in order. */
  function Changes(events: seq<WatchEvent>): seq<WatchEvent> {
    if events == [] then []
    else
      var rest := Changes(events[..|events| - 1]);
      if IsChange(events[|events| - 1]) then rest + [events[|events| - 1]] else rest
  }

  /** One notice per change, in order, of its kind and about its object; nothing for bookmarks and errors. */
  lemma {:induction false} NoticesTellChanges(events: seq<WatchEvent>)
    ensures |NoticesAfter(events)| == |Changes(events)|
    ensures forall i :: 0 <= i < |Changes(events)| ==> Tells(NoticesAfter(events)[i], Changes(events)[i])
  {
    if events != [] {
      NoticesTellChanges(events[..|events| - 1]);
    }
  }

  /** The versions at which a sequence of streams is requested: each where its predecessors left the cursor. */
  function Requests(cursor: string, streams: seq<seq<WatchEvent>>): (r: seq<string>)
    ensures |r| == |streams|
  {
    if streams == [] then []
    else
      var init := streams[..|streams| - 1];
      Requests(cursor, init) + [CursorAfter(cursor, Flatten(init))]
  }

  // ---------- Streams ----------

  /** What the server may send on a stream: the log from `position` on, and bookmarks for what was sent. */
  ghost predicate Served(log: seq<WatchEvent>, position: nat, stream: seq<WatchEvent>) {
    stream != [] ==>
      var init, last := stream[..|stream| - 1], stream[|stream| - 1];
      var now := position + |Changes(init)|;
      && Served(log, position, init)
      && ((now < |log| && last == log[now]) || (last.kind.Bookmark? && BookmarkAllowed(log, now, last.version)))
  }

  /** Receiving such a stream is a run of deliveries and bookmarks. */
  lemma {:induction false} StreamResumes(log: seq<WatchEvent>, start: string, s: Client, stream: seq<WatchEvent>)
    requires IsLog(log) && Resumed(log, start, s) && s.stream.Some? && Served(log, s.stream.value, stream)
    ensures Resumed(log, start, Client(CursorAfter(s.cursor, stream), Some(s.stream.value + |Changes(stream)|),
                                       s.handled + Changes(stream)))
  {
    hide Value, Canonical, FirstAbove, IsHigher, Resumed;
    if stream == [] {
      assert s.handled + [] == s.handled;
      assert s == Client(s.cursor, s.stream, s.handled);
    } else {
      var init, last := stream[..|stream| - 1], stream[|stream| - 1];
      StreamResumes(log, start, s, init);
      var now := s.stream.value + |Changes(init)|;
      var before := Client(CursorAfter(s.cursor, init), Some(now), s.handled + Changes(init));
      if now < |log| && last == log[now] {
        assert IsChange(last);
        DeliverResumes(log, start, before);
        Associative(s.handled, Changes(init), [last]);
      } else {
        BookmarkResumes(log, start, before, last.version);
      }
    }
  }

  lemma {:induction false} ChangesConcat(xs: seq<WatchEvent>, ys: seq<WatchEvent>)
    ensures Changes(xs + ys) == Changes(xs) + Changes(ys)
  {
    if ys == [] {
      assert xs + ys == xs;
    } else {
      ChangesConcat(xs, ys[..|ys| - 1]);
      assert (xs + ys)[..|xs + ys| - 1] == xs + ys[..|ys| - 1];
    }
  }

  lemma {:induction false} RequestsAre(cursor: string, streams: seq<seq<WatchEvent>>)
    ensures forall n :: 0 <= n < |streams| ==>
              Requests(cursor, streams)[n] == CursorAfter(cursor, Flatten(streams[..n]))
  {
    if streams != [] {
      var init := streams[..|streams| - 1];
      RequestsAre(cursor, init);
      assert forall n :: 0 <= n < |init| ==> init[..n] == streams[..n];
    }
  }

  /** Every stream was served for the version it was requested at. */
  ghost predicate AllServed(log: seq<WatchEvent>, start: string, streams: seq<seq<WatchEvent>>) {
    streams != [] ==>
      var init := streams[..|streams| - 1];
      && AllServed(log, start, init)
      && Served(log, FirstAbove(log, Requests(start, streams)[|init|]), streams[|streams| - 1])
  }

  /**
   Exactly once, for the streams the watcher receives: the changes in them are the contiguous part of the log above
   the starting cursor and up to the cursor they leave.
   */
  lemma {:induction false} StreamsAreHandledExactlyOnce(
    log: seq<WatchEvent>, start: string, streams: seq<seq<WatchEvent>>)
    requires IsLog(log) && Canonical(start) && AllServed(log, start, streams)
    ensures Resumed(log, start, Client(CursorAfter(start, Flatten(streams)), None, Changes(Flatten(streams))))
  {
    hide Value, Canonical, IsHigher, Served;
    if streams != [] {
      var init, last := streams[..|streams| - 1], streams[|streams| - 1];
      StreamsAreHandledExactlyOnce(log, start, init);
      var cursor := CursorAfter(start, Flatten(init));
      var request := Client(cursor, Some(FirstAbove(log, cursor)), Changes(Flatten(init)));
      assert Resumed(log, start, request);
      StreamResumes(log, start, request, last);
      AfterConcat(start, Flatten(init), last);
      ChangesConcat(Flatten(init), last);
    }
  }

  // ---------- The class ----------

  class Watcher {
    const preList: bool
    var lastResourceVersion: string
    var running: bool
    /** Calls of the notification functions, in order. */
    var notices: seq<Notice>
    /** The versions at which streams were requested. */
    var requests: seq<string>

    constructor (preList: bool)
      ensures this.preList == preList && lastResourceVersion == "" && !running && notices == [] && requests == []
    {
      this.preList := preList;
      lastResourceVersion := "";
      running := false;
      notices := [];
      requests := [];
    }

    /** Notify the items of one namespace that are above the cursor. */
    method ListNamespace(items: seq<Item>)
      modifies this`lastResourceVersion, this`notices
      ensures lastResourceVersion == Listed(old(lastResourceVersion), items).1
      ensures notices == old(notices) + Listed(old(lastResourceVersion), items).0
    {
      for i := 0 to |items|
        invariant lastResourceVersion == Listed(old(lastResourceVersion), items[..i]).1
        invariant notices == old(notices) + Listed(old(lastResourceVersion), items[..i]).0
      {
        assert items[..i + 1][..i] == items[..i];
        if IsHigher(items[i].version, lastResourceVersion) {
          lastResourceVersion := items[i].version;
          notices := notices + [Add(items[i].id)];
        }
      }
      assert items[..|items|] == items;
    }

    /** List every namespace in turn. */
    method List(namespaces: seq<seq<Item>>)
      modifies this`lastResourceVersion, this`notices
      ensures var listed := if preList then PreListed(Flatten(namespaces)) else ([], "");
              lastResourceVersion == listed.1 && notices == old(notices) + listed.0
    {
      lastResourceVersion := "";
      if preList {
        for n := 0 to |namespaces|
          invariant lastResourceVersion == PreListed(Flatten(namespaces[..n])).1
          invariant notices == old(notices) + PreListed(Flatten(namespaces[..n])).0
        {
          assert namespaces[..n + 1][..n] == namespaces[..n];
          ghost var before := Flatten(namespaces[..n]);
          ListedConcat("", before, namespaces[n]);
          Associative(old(notices), PreListed(before).0, Listed(lastResourceVersion, namespaces[n]).0);
          ListNamespace(namespaces[n]);
        }
        assert namespaces[..|namespaces|] == namespaces;
      }
    }

    /** The body of the watch loop for one received event. */
    method Handle(e: WatchEvent)
      modifies this`lastResourceVersion, this`notices
      ensures lastResourceVersion == NextCursor(old(lastResourceVersion), e)
      ensures notices == old(notices) + NoticesOf(e)
    {
      if e.version != "" && IsHigher(e.version, lastResourceVersion) {
        lastResourceVersion := e.version;
      }
      match e.kind {
        case Added => notices := notices + [Add(e.id)];
        case Modified => notices := notices + [Update(e.id)];
        case Deleted => notices := notices + [Delete(e.id)];
        case Bookmark =>
        case Error(code) =>
          if code == GONE {
            lastResourceVersion := "";
          }
      }
    }

    /** Receive the events of one stream until it closes. */
    method Receive(events: seq<WatchEvent>)
      modifies this`lastResourceVersion, this`notices
      ensures lastResourceVersion == CursorAfter(old(lastResourceVersion), events)
      ensures notices == old(notices) + NoticesAfter(events)
    {
      for i := 0 to |events|
        invariant lastResourceVersion == CursorAfter(old(lastResourceVersion), events[..i])
        invariant notices == old(notices) + NoticesAfter(events[..i])
      {
        assert events[..i + 1][..i] == events[..i];
        Handle(events[i]);
      }
      assert events[..|events|] == events;
    }

    /** Watch one stream after another; every stream is requested at the cursor its predecessors left. */
    method Watch(streams: seq<seq<WatchEvent>>)
      modifies this
      ensures lastResourceVersion == CursorAfter(old(lastResourceVersion), Flatten(streams))
      ensures notices == old(notices) + NoticesAfter(Flatten(streams))
      ensures requests == old(requests) + Requests(old(lastResourceVersion), streams)
    {
      running := true;
      for n := 0 to |streams|
        invariant lastResourceVersion == CursorAfter(old(lastResourceVersion), Flatten(streams[..n]))
        invariant notices == old(notices) + NoticesAfter(Flatten(streams[..n]))
        invariant requests == old(requests) + Requests(old(lastResourceVersion), streams[..n])
      {
        assert streams[..n + 1][..n] == streams[..n];
        ghost var before := Flatten(streams[..n]);
        AfterConcat(old(lastResourceVersion), before, streams[n]);
        Associative(old(notices), NoticesAfter(before), NoticesAfter(streams[n]));
        Associative(old(requests), Requests(old(lastResourceVersion), streams[..n]), [lastResourceVersion]);
        requests := requests + [lastResourceVersion];
        Receive(streams[n]);
      }
      assert streams[..|streams|] == streams;
    }
  }
}
