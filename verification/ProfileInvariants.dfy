/** What every collection and merge keeps: no redundancy, coverage, size bounds, and extension of what is stored. */
module ProfileInvariants {
  import opened Dedup
  import opened Sequences
  import opened ProfileTypes
  import opened ProfileAlgebra
  import opened IncrementalMerge
  import Capabilities

  // ---------- Merging only extends ----------

  ghost predicate CapabilitiesExtend(a: seq<CapabilitiesCalls>, b: seq<CapabilitiesCalls>) {
    && |a| <= |b|
    && forall i :: 0 <= i < |a| ==> a[i].syscall == b[i].syscall && a[i].capabilities <= b[i].capabilities
  }

  ghost predicate Extends(a: ContainerProfile, b: ContainerProfile) {
    && a.name == b.name
    && a.execs <= b.execs
    && a.opens <= b.opens
    && a.dns <= b.dns
    && a.sysCalls <= b.sysCalls
    && a.networkActivity.incoming <= b.networkActivity.incoming
    && a.networkActivity.outgoing <= b.networkActivity.outgoing
    && CapabilitiesExtend(a.capabilities, b.capabilities)
  }

  /** Network lists grow only while they are below their cap. */
  lemma ConnectionsBounded(stored: seq<NetworkCalls>, added: seq<NetworkCalls>)
    ensures stored <= MergeConnections(stored, added)
    ensures |MergeConnections(stored, added)| <= Max(|stored|, MAX_NETWORK_EVENTS)
    ensures forall c :: c in MergeConnections(stored, added) ==> c in stored || c in added
  {
    GrowUpToIsCut(MAX_NETWORK_EVENTS, SameConnection, stored, added);
    GrowExtends(SameConnection, stored, added);
  }

  lemma MergeOnlyExtends(config: Config, mounts: seq<string>, stored: ContainerProfile, added: ContainerProfile)
    ensures Extends(stored, MergeProfile(config, mounts, stored, added))
  {
    Capabilities.ExtendAllExtends(stored.capabilities, added.capabilities);
    ConnectionsBounded(stored.networkActivity.incoming, added.networkActivity.incoming);
    ConnectionsBounded(stored.networkActivity.outgoing, added.networkActivity.outgoing);
  }

  /** The other containers are untouched; the merged one is the first of its name, or new at the end. */
  lemma MergeTouchesOneContainer(
    config: Config, mounts: seq<string>, containers: seq<ContainerProfile>, added: ContainerProfile)
    ensures var i := FindContainer(containers, added.name);
            var merged := MergeContainers(config, mounts, containers, added);
            && |merged| == Max(|containers|, i + 1)
            && (forall j :: 0 <= j < |containers| && j != i ==> merged[j] == containers[j])
            && (i < |containers| ==> Extends(containers[i], merged[i]))
            && (i == |containers| ==> merged[i] == added)
  {
    var i := FindContainer(containers, added.name);
    if i < |containers| {
      MergeOnlyExtends(config, mounts, containers[i], added);
    }
  }

  // ---------- Opens: irredundant and bounded, whatever the mounts are at each step ----------

  lemma {:induction false} SelectOpensKeepsIrredundant(config: Config, mounts: seq<string>, added: seq<OpenCalls>)
    requires Irredundant(OpenSubsumed, added)
    ensures Irredundant(OpenSubsumed, Select(AdmittedOpen(config, mounts), added))
    ensures |Select(AdmittedOpen(config, mounts), added)| <= |added|
    ensures forall o :: o in Select(AdmittedOpen(config, mounts), added) ==> o in added
  {
    if added != [] {
      var init := added[..|added| - 1];
      SelectOpensKeepsIrredundant(config, mounts, init);
      var kept := Select(AdmittedOpen(config, mounts), init);
      forall i | 0 <= i < |kept|
        ensures !OpenSubsumed(added[|added| - 1], kept[i])
      {
        assert kept[i] in kept && kept[i] in init;
        var k :| 0 <= k < |init| && init[k] == kept[i];
        assert added[k] == kept[i];
      }
    }
  }

  /** What every stored open list satisfies. */
  ghost predicate OpensInvariant(opens: seq<OpenCalls>) {
    Irredundant(OpenSubsumed, opens) && |opens| <= 2 * MAX_OPEN_EVENTS + 1
  }

  lemma MergeKeepsOpensInvariant(
    config: Config, mounts: seq<string>, stored: seq<OpenCalls>, mounts': seq<string>, events: seq<OpenEvent>)
    requires OpensInvariant(stored)
    ensures OpensInvariant(MergeOpens(config, mounts, stored, CollectOpens(config, mounts', events)))
  {
    var added := CollectOpens(config, mounts', events);
    CollectedOpens(config, mounts', events);
    SelectOpensKeepsIrredundant(config, mounts, added);
    UncoveredIrredundant(OpenSubsumed, Select(AdmittedOpen(config, mounts), added), stored);
    UncoveredMembers(OpenSubsumed, Select(AdmittedOpen(config, mounts), added), stored);
  }

  lemma {:induction false} OpensStayIrredundantAndBounded(
    config: Config, mounts: seq<string>, name: string, batches: seq<TotalEvents>)
    ensures StoredAfter(config, mounts, name, batches).Some?
        ==> OpensInvariant(StoredAfter(config, mounts, name, batches).value.opens)
  {
    if batches != [] {
      var init, batch := batches[..|batches| - 1], batches[|batches| - 1];
      OpensStayIrredundantAndBounded(config, mounts, name, init);
      CollectedOpens(config, mounts, batch.openEvents);
      if StoredAfter(config, mounts, name, init).Some? {
        MergeKeepsOpensInvariant(
          config, mounts, StoredAfter(config, mounts, name, init).value.opens, mounts, batch.openEvents);
      }
    }
  }

  // ---------- Opens: covering below the cap ----------

  /** The stored list and every collected list are within the cap, as anyone reading the lists can check. */
  ghost predicate ObservedWithinCap(config: Config, mounts: seq<string>, name: string, batches: seq<TotalEvents>) {
    && StoredAfter(config, mounts, name, batches).Some?
    && |StoredAfter(config, mounts, name, batches).value.opens| <= MAX_OPEN_EVENTS
    && forall i :: 0 <= i < |batches| ==> |CollectOpens(config, mounts, batches[i].openEvents)| <= MAX_OPEN_EVENTS
  }

  /** Within the cap the stored opens are those of the whole stream. */
  lemma {:induction false} ObservedWithinCapRefines(
    config: Config, mounts: seq<string>, name: string, batches: seq<TotalEvents>)
    requires ObservedWithinCap(config, mounts, name, batches)
    ensures StoredAfter(config, mounts, name, batches).value.opens
        == FullOpens(config, mounts, Stream(batches).openEvents)
  {
    hide CollectOpens, FullOpens, UntilFull;
    forall i | 0 <= i < |batches|
      ensures |FullOpens(config, mounts, batches[i].openEvents)| <= MAX_OPEN_EVENTS + 1
    {
      BelowCapUncut(config, mounts, batches[i].openEvents);
    }
    FittingOpensRefine(config, mounts, name, batches);
    UntilFullIsPrefix(config, mounts, batches);
  }

  /** Within the cap, every drained open that no ignore rule matches is subsumed by some stored open. */
  lemma OpensStayCovering(config: Config, mounts: seq<string>, name: string, batches: seq<TotalEvents>, e: OpenEvent)
    requires ObservedWithinCap(config, mounts, name, batches)
    requires e in Stream(batches).openEvents && !IsIgnored(config, mounts, e.pathName)
    ensures Covered(OpenSubsumed, OpenCall(e), StoredAfter(config, mounts, name, batches).value.opens)
    ensures exists o :: o in StoredAfter(config, mounts, name, batches).value.opens
                     && o.path == e.pathName && forall f :: f in e.flags ==> f in o.flags
  {
    var f, events := AdmittedEvent(config, mounts), Stream(batches).openEvents;
    ObservedWithinCapRefines(config, mounts, name, batches);
    RelationsAreOrders();
    SelectIsImage(f, events);
    var i :| 0 <= i < |events| && events[i] == e;
    assert f(events[i]) == Some(OpenCall(e));
    GrowCovers(OpenSubsumed, [], Select(f, events));
    var opens := StoredAfter(config, mounts, name, batches).value.opens;
    var k :| 0 <= k < |opens| && OpenSubsumed(OpenCall(e), opens[k]);
    assert opens[k] in opens;
  }

  // ---------- The bound on stored opens is reached ----------

  function Path(n: nat): (p: string)
    ensures |p| == n
  {
    seq(n, (_: nat) => 'a')
  }

  function DistinctOpens(from: nat, n: nat): seq<OpenEvent> {
    seq(n, (i: nat) => OpenEvent(GeneralEvent("", "", "", ""), Path(from + i), []))
  }

  function OpensOnly(events: seq<OpenEvent>): TotalEvents { TotalEvents([], events, [], [], [], []) }

  const PLAIN: Config := Config(false, [], "")

  lemma {:induction false} SelectDistinct(from: nat, n: nat)
    ensures var calls := Select(AdmittedEvent(PLAIN, []), DistinctOpens(from, n));
            |calls| == n && forall i :: 0 <= i < n ==> |calls[i].path| == from + i
  {
    if n > 0 {
      SelectDistinct(from, n - 1);
      var events := DistinctOpens(from, n);
      assert events[..n - 1] == DistinctOpens(from, n - 1);
      assert AdmittedEvent(PLAIN, [])(events[n - 1]) == Some(OpenCalls(Path(from + (n - 1)), []));
    }
  }

  lemma FullDistinct(from: nat, n: nat)
    ensures |FullOpens(PLAIN, [], DistinctOpens(from, n))| == n
  {
    SelectDistinct(from, n);
    GrowIdempotent(OpenSubsumed, Select(AdmittedEvent(PLAIN, []), DistinctOpens(from, n)));
  }

  /** Two intervals whose opens are all distinct, with and without the caps. */
  lemma TwoIntervals(one: seq<OpenEvent>, two: seq<OpenEvent>)
    requires one != [] && two != []
    requires |FullOpens(PLAIN, [], one)| <= MAX_OPEN_EVENTS && |FullOpens(PLAIN, [], two)| <= MAX_OPEN_EVENTS + 1
    requires |FullOpens(PLAIN, [], one + two)| == |FullOpens(PLAIN, [], one)| + |FullOpens(PLAIN, [], two)|
    ensures var batches := [OpensOnly(one), OpensOnly(two)];
            && StoredAfter(PLAIN, [], "c", batches).Some?
            && |StoredAfter(PLAIN, [], "c", batches).value.opens| == |FullOpens(PLAIN, [], one + two)|
            && Stream(batches).openEvents == one + two
  {
    hide FullOpens, CollectOpens;
    var first, second := OpensOnly(one), OpensOnly(two);
    assert [first, second][..1] == [first] && [first][..0] == [];
    assert Stream([first]).openEvents == one;
    BelowCapUncut(PLAIN, [], one);
    BelowCapUncut(PLAIN, [], two);
    CollectedStayAdmitted(PLAIN, [], two);
    FullOpensOfConcat(PLAIN, [], one, two);
    assert CollectOpens(PLAIN, [], one) == FullOpens(PLAIN, [], one);
    assert CollectOpens(PLAIN, [], two) == FullOpens(PLAIN, [], two);
    assert StoredAfter(PLAIN, [], "c", [first]) == Some(CollectProfile(PLAIN, [], "c", first));
  }

  /**
   Two intervals with 10000 and 10001 distinct opens leave 20001 stored opens, twice the cap plus one,
   while one collection over the same stream keeps 10001: above the cap the refinement fails.
   */
  lemma BoundIsReached()
    ensures var batches := [OpensOnly(DistinctOpens(0, MAX_OPEN_EVENTS)),
                            OpensOnly(DistinctOpens(MAX_OPEN_EVENTS, MAX_OPEN_EVENTS + 1))];
            && StoredAfter(PLAIN, [], "c", batches).Some?
            && |StoredAfter(PLAIN, [], "c", batches).value.opens| == 2 * MAX_OPEN_EVENTS + 1 == 20001
            && |CollectProfile(PLAIN, [], "c", Stream(batches)).opens| == MAX_OPEN_EVENTS + 1 == 10001
  {
    var n := MAX_OPEN_EVENTS;
    var one, two := DistinctOpens(0, n), DistinctOpens(n, n + 1);
    assert one + two == DistinctOpens(0, n + (n + 1));
    FullDistinct(0, n);
    FullDistinct(n, n + 1);
    FullDistinct(0, n + (n + 1));
    TwoIntervals(one, two);
    BelowCapUncut(PLAIN, [], one + two);
  }
}
