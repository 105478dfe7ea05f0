/**
 Collecting a container's events interval by interval and merging each result into the stored
 profile, compared with collecting the whole event stream at once.
 */
module IncrementalMerge {
  import opened Dedup
  import opened Sequences
  import opened ProfileTypes
  import opened ProfileAlgebra

  // ---------- Vocabulary ----------

  /** The opens of a stream without the size cap. */
  function FullOpens(config: Config, mounts: seq<string>, events: seq<OpenEvent>): seq<OpenCalls> {
    Grow(OpenSubsumed, [], Select(AdmittedEvent(config, mounts), events))
  }

  /** No batch passes the cap by more than one on its own, so none of its opens is cut off. */
  ghost predicate BatchesFit(config: Config, mounts: seq<string>, batches: seq<TotalEvents>) {
    forall i :: 0 <= i < |batches| ==> |FullOpens(config, mounts, batches[i].openEvents)| <= MAX_OPEN_EVENTS + 1
  }

  /** The uncapped opens of the shortest prefix of the run that has more than the cap, or else of the whole run. */
  function UntilFull(config: Config, mounts: seq<string>, batches: seq<TotalEvents>): seq<OpenCalls> {
    if batches == [] then []
    else
      var before := UntilFull(config, mounts, batches[..|batches| - 1]);
      if |before| > MAX_OPEN_EVENTS then before else FullOpens(config, mounts, Stream(batches).openEvents)
  }

  /** The batch whose collection created the container's profile. */
  function FirstProcessed(batches: seq<TotalEvents>): Option<TotalEvents> {
    if batches == [] then None
    else
      match FirstProcessed(batches[..|batches| - 1])
      case Some(b) => Some(b)
      case None => if ShouldProcess(batches[|batches| - 1]) then Some(batches[|batches| - 1]) else None
  }

  function ExecsOf(events: TotalEvents): seq<ExecCalls> { Select(ExecCall, events.execEvents) }

  /** Some exec without a path occurs in a batch and again in a later one. */
  predicate EmptyPathRecurs(batches: seq<TotalEvents>) {
    if batches == [] then false
    else
      var init := batches[..|batches| - 1];
      || EmptyPathRecurs(init)
      || RepeatsEmptyPath(ExecsOf(batches[|batches| - 1]), ExecsOf(Stream(init)))
  }

  predicate RepeatsEmptyPath(batch: seq<ExecCalls>, earlier: seq<ExecCalls>) {
    exists i :: 0 <= i < |batch| && batch[i].path == "" && batch[i] in earlier
  }

  // ---------- One step ----------

  /** One more batch: de-duplicate it, then append what is not covered yet. */
  lemma GrowByBatch<T(!new)>(sub: (T, T) -> bool, earlier: seq<T>, batch: seq<T>)
    requires Transitive(sub)
    ensures var s := Grow(sub, [], earlier);
            Grow(sub, [], earlier + batch) == s + Uncovered(sub, Grow(sub, [], batch), s)
  {
    GrowConcat(sub, [], earlier, batch);
    GrowSplits(sub, Grow(sub, [], earlier), batch);
  }

  lemma {:induction false} NothingStoredNothingSeen(
    config: Config, mounts: seq<string>, name: string, batches: seq<TotalEvents>)
    ensures StoredAfter(config, mounts, name, batches).None? <==> !ShouldProcess(Stream(batches))
    ensures StoredAfter(config, mounts, name, batches).None? <==> FirstProcessed(batches).None?
  {
    if batches != [] {
      NothingStoredNothingSeen(config, mounts, name, batches[..|batches| - 1]);
    }
  }

  /** A batch without events adds nothing to the stream. */
  lemma EmptyBatchAddsNothing(a: TotalEvents, b: TotalEvents)
    ensures !ShouldProcess(b) ==> AppendEvents(a, b) == a
    ensures !ShouldProcess(a) ==> AppendEvents(a, b) == b
  {
  }

  // ---------- DNS: always equal ----------

  lemma {:induction false} DnsRefines(config: Config, mounts: seq<string>, name: string, batches: seq<TotalEvents>)
    requires StoredAfter(config, mounts, name, batches).Some?
    ensures StoredAfter(config, mounts, name, batches).value.dns == CollectDns(Stream(batches).dnsEvents)
  {
    var init, batch := batches[..|batches| - 1], batches[|batches| - 1];
    NothingStoredNothingSeen(config, mounts, name, init);
    EmptyBatchAddsNothing(Stream(init), batch);
    if StoredAfter(config, mounts, name, init).Some? {
      DnsRefines(config, mounts, name, init);
      RelationsAreOrders();
      SelectConcat(DnsCall, Stream(init).dnsEvents, batch.dnsEvents);
      GrowByBatch(SameDnsName, Select(DnsCall, Stream(init).dnsEvents), Select(DnsCall, batch.dnsEvents));
    }
  }

  // ---------- Opens: equal up to the interval that passes the cap ----------

  lemma BelowCapUncut(config: Config, mounts: seq<string>, events: seq<OpenEvent>)
    ensures CollectOpens(config, mounts, events)
         == FullOpens(config, mounts, events)[..Min(|FullOpens(config, mounts, events)|, MAX_OPEN_EVENTS + 1)]
  {
    GrowUpToIsCut(MAX_OPEN_EVENTS + 1, OpenSubsumed, [], Select(AdmittedEvent(config, mounts), events));
  }

  lemma FullOpensOfConcat(config: Config, mounts: seq<string>, earlier: seq<OpenEvent>, batch: seq<OpenEvent>)
    ensures var s := FullOpens(config, mounts, earlier);
            && FullOpens(config, mounts, earlier + batch)
            == s + Uncovered(OpenSubsumed, FullOpens(config, mounts, batch), s)
  {
    var f := AdmittedEvent(config, mounts);
    RelationsAreOrders();
    SelectConcat(f, earlier, batch);
    GrowByBatch(OpenSubsumed, Select(f, earlier), Select(f, batch));
  }

  /** Merging a batch that was not cut into a list below the cap. */
  lemma OpensStep(config: Config, mounts: seq<string>, earlier: seq<OpenEvent>, batch: seq<OpenEvent>)
    requires |FullOpens(config, mounts, earlier)| <= MAX_OPEN_EVENTS
    requires |FullOpens(config, mounts, batch)| <= MAX_OPEN_EVENTS + 1
    ensures MergeOpens(config, mounts, FullOpens(config, mounts, earlier), CollectOpens(config, mounts, batch))
         == FullOpens(config, mounts, earlier + batch)
  {
    hide CollectOpens, FullOpens;
    BelowCapUncut(config, mounts, batch);
    assert CollectOpens(config, mounts, batch) == FullOpens(config, mounts, batch);
    FullOpensOfConcat(config, mounts, earlier, batch);
    CollectedStayAdmitted(config, mounts, batch);
  }

  lemma {:induction false} UntilFullIsPrefix(config: Config, mounts: seq<string>, batches: seq<TotalEvents>)
    ensures UntilFull(config, mounts, batches) <= FullOpens(config, mounts, Stream(batches).openEvents)
    ensures |UntilFull(config, mounts, batches)| <= MAX_OPEN_EVENTS ==>
              UntilFull(config, mounts, batches) == FullOpens(config, mounts, Stream(batches).openEvents)
  {
    if batches == [] {
      assert FullOpens(config, mounts, []) == [];
    } else {
      hide FullOpens;
      var init, batch := batches[..|batches| - 1], batches[|batches| - 1];
      UntilFullIsPrefix(config, mounts, init);
      FullOpensOfConcat(config, mounts, Stream(init).openEvents, batch.openEvents);
    }
  }

  /** Without cut batches the stored opens are those of the stream up to the interval that passes the cap. */
  lemma {:induction false} FittingOpensRefine(
    config: Config, mounts: seq<string>, name: string, batches: seq<TotalEvents>)
    requires StoredAfter(config, mounts, name, batches).Some?
    requires BatchesFit(config, mounts, batches)
    ensures StoredAfter(config, mounts, name, batches).value.opens == UntilFull(config, mounts, batches)
  {
    hide FullOpens, CollectOpens, MergeOpens;
    var init, batch := batches[..|batches| - 1], batches[|batches| - 1];
    assert forall i :: 0 <= i < |init| ==> init[i] == batches[i];
    NothingStoredNothingSeen(config, mounts, name, init);
    EmptyBatchAddsNothing(Stream(init), batch);
    UntilFullIsPrefix(config, mounts, init);
    NoOpensNoList(config, mounts);
    BelowCapUncut(config, mounts, batch.openEvents);
    if StoredAfter(config, mounts, name, init).Some? {
      FittingOpensRefine(config, mounts, name, init);
      if ShouldProcess(batch) && |UntilFull(config, mounts, init)| <= MAX_OPEN_EVENTS {
        OpensStep(config, mounts, Stream(init).openEvents, batch.openEvents);
      } else if ShouldProcess(batch) {
        FullListStays(config, mounts, UntilFull(config, mounts, init), CollectOpens(config, mounts, batch.openEvents));
      }
    }
  }

  lemma NoOpensNoList(config: Config, mounts: seq<string>)
    ensures FullOpens(config, mounts, []) == []
  {
  }

  lemma FullListStays(config: Config, mounts: seq<string>, stored: seq<OpenCalls>, added: seq<OpenCalls>)
    requires |stored| > MAX_OPEN_EVENTS
    ensures MergeOpens(config, mounts, stored, added) == stored
  {
  }

  // Any batch: what the cap cuts off does not matter to the run.

  /** The longest beginning of a batch that does not pass the cap by more than one. */
  function Fitting(config: Config, mounts: seq<string>, events: seq<OpenEvent>): seq<OpenEvent> {
    if events == [] || |FullOpens(config, mounts, events)| <= MAX_OPEN_EVENTS + 1 then events
    else Fitting(config, mounts, events[..|events| - 1])
  }

  /** The batches, each cut to its fitting beginning. */
  function FitBatches(config: Config, mounts: seq<string>, batches: seq<TotalEvents>): seq<TotalEvents> {
    if batches == [] then []
    else
      var batch := batches[|batches| - 1];
      FitBatches(config, mounts, batches[..|batches| - 1])
      + [batch.(openEvents := Fitting(config, mounts, batch.openEvents))]
  }

  lemma FullOpensSnoc(config: Config, mounts: seq<string>, events: seq<OpenEvent>)
    requires events != []
    ensures var before := FullOpens(config, mounts, events[..|events| - 1]);
            before <= FullOpens(config, mounts, events) && |FullOpens(config, mounts, events)| <= |before| + 1
  {
    var init, last := events[..|events| - 1], events[|events| - 1];
    var f := AdmittedEvent(config, mounts);
    assert events == init + [last] && [last][..0] == [];
    SelectConcat(f, init, [last]);
    GrowConcat(OpenSubsumed, [], Select(f, init), Select(f, [last]));
    GrowExtends(OpenSubsumed, FullOpens(config, mounts, init), Select(f, [last]));
  }

  /** A collection keeps exactly the opens of the fitting beginning. */
  lemma {:induction false} FittingIsCollected(config: Config, mounts: seq<string>, events: seq<OpenEvent>)
    ensures var fitting := Fitting(config, mounts, events);
            && fitting <= events
            && (fitting == [] <==> events == [])
            && CollectOpens(config, mounts, fitting) == CollectOpens(config, mounts, events)
            && |FullOpens(config, mounts, fitting)| <= MAX_OPEN_EVENTS + 1
  {
    hide FullOpens, CollectOpens;
    NoOpensNoList(config, mounts);
    if events != [] && |FullOpens(config, mounts, events)| > MAX_OPEN_EVENTS + 1 {
      var init := events[..|events| - 1];
      FullOpensSnoc(config, mounts, events);
      BelowCapUncut(config, mounts, events);
      BelowCapUncut(config, mounts, init);
      FittingIsCollected(config, mounts, init);
    }
  }

  /** Cutting the batches changes nothing that is stored, and then no batch is cut off. */
  lemma {:induction false} FitBatchesStoreTheSame(
    config: Config, mounts: seq<string>, name: string, batches: seq<TotalEvents>)
    ensures var fit := FitBatches(config, mounts, batches);
            && |fit| == |batches|
            && BatchesFit(config, mounts, fit)
            && StoredAfter(config, mounts, name, fit) == StoredAfter(config, mounts, name, batches)
  {
    if batches != [] {
      hide FullOpens, CollectOpens, MergeProfile;
      var init, batch := batches[..|batches| - 1], batches[|batches| - 1];
      FitBatchesStoreTheSame(config, mounts, name, init);
      FittingIsCollected(config, mounts, batch.openEvents);
      var fit := FitBatches(config, mounts, batches);
      assert fit[..|fit| - 1] == FitBatches(config, mounts, init);
      assert CollectProfile(config, mounts, name, fit[|fit| - 1]) == CollectProfile(config, mounts, name, batch);
    }
  }

  lemma {:induction false} FitBatchesFit(config: Config, mounts: seq<string>, batches: seq<TotalEvents>)
    requires BatchesFit(config, mounts, batches)
    ensures FitBatches(config, mounts, batches) == batches
  {
    hide FullOpens;
    if batches != [] {
      var init := batches[..|batches| - 1];
      assert forall i :: 0 <= i < |init| ==> init[i] == batches[i];
      FitBatchesFit(config, mounts, init);
      assert Fitting(config, mounts, batches[|batches| - 1].openEvents) == batches[|batches| - 1].openEvents;
      assert batches == init + [batches[|batches| - 1]];
    }
  }

  /** For any batches: the stored opens are those of the fitting beginnings, up to the interval that passes the cap. */
  lemma OpensRefine(config: Config, mounts: seq<string>, name: string, batches: seq<TotalEvents>)
    requires StoredAfter(config, mounts, name, batches).Some?
    ensures StoredAfter(config, mounts, name, batches).value.opens
         == UntilFull(config, mounts, FitBatches(config, mounts, batches))
  {
    hide FullOpens, UntilFull, FitBatches, StoredAfter;
    FitBatchesStoreTheSame(config, mounts, name, batches);
    FittingOpensRefine(config, mounts, name, FitBatches(config, mounts, batches));
  }

  /**
   The stored opens are the one-shot ones exactly when the opens of the fitting beginnings start the opens of the
   stream and reach its end or one above the cap; if no batch is cut, exactly when the cap is passed by one at most.
   */
  lemma {:induction false} OpensRefineIff(config: Config, mounts: seq<string>, name: string, batches: seq<TotalEvents>)
    requires StoredAfter(config, mounts, name, batches).Some?
    ensures var opens := UntilFull(config, mounts, FitBatches(config, mounts, batches));
            var full := FullOpens(config, mounts, Stream(batches).openEvents);
            StoredAfter(config, mounts, name, batches).value.opens
              == CollectOpens(config, mounts, Stream(batches).openEvents)
            <==> opens <= full && |opens| == Min(|full|, MAX_OPEN_EVENTS + 1)
    ensures BatchesFit(config, mounts, batches) ==>
              (StoredAfter(config, mounts, name, batches).value.opens
                 == CollectOpens(config, mounts, Stream(batches).openEvents)
               <==> |UntilFull(config, mounts, batches)| <= MAX_OPEN_EVENTS + 1)
  {
    hide FullOpens, CollectOpens, UntilFull, StoredAfter, BatchesFit;
    OpensRefine(config, mounts, name, batches);
    BelowCapUncut(config, mounts, Stream(batches).openEvents);
    if BatchesFit(config, mounts, batches) {
      FitBatchesFit(config, mounts, batches);
      UntilFullIsPrefix(config, mounts, batches);
    }
  }

  /**
   The exact effect of the caps on one interval: the merged list is what uncapped growth gives if
   and only if no uncovered open was cut off, by the cap on the batch or by the cap on the stored list.
   */
  lemma {:induction false} CapsLoseNothingIff(
    config: Config, mounts: seq<string>, stored: seq<OpenCalls>, events: seq<OpenEvent>)
    ensures var full := FullOpens(config, mounts, events);
            var cut := Min(|full|, MAX_OPEN_EVENTS + 1);
            MergeOpens(config, mounts, stored, CollectOpens(config, mounts, events))
              == Grow(OpenSubsumed, stored, Select(AdmittedEvent(config, mounts), events))
            <==> if |stored| > MAX_OPEN_EVENTS then Uncovered(OpenSubsumed, full, stored) == []
                 else Uncovered(OpenSubsumed, full[cut..], stored) == []
  {
    hide CollectOpens, Grow, Uncovered, Select;
    var full := FullOpens(config, mounts, events);
    var cut := Min(|full|, MAX_OPEN_EVENTS + 1);
    RelationsAreOrders();
    BelowCapUncut(config, mounts, events);
    GrowSplits(OpenSubsumed, stored, Select(AdmittedEvent(config, mounts), events));
    CollectedStayAdmitted(config, mounts, events);
    assert full == full[..cut] + full[cut..];
    UncoveredConcat(OpenSubsumed, full[..cut], full[cut..], stored);
  }

  // ---------- Network: equal up to a cut whose position is known ----------

  lemma ConnectionsStep(earlier: seq<NetworkCalls>, batch: seq<NetworkCalls>, first: nat)
    requires first <= |Grow(SameConnection, [], earlier)|
    ensures var full := Grow(SameConnection, [], earlier);
            var full' := Grow(SameConnection, [], earlier + batch);
            && |full| <= |full'|
            && MergeConnections(full[..Min(|full|, Max(first, MAX_NETWORK_EVENTS))], Grow(SameConnection, [], batch))
            == full'[..Min(|full'|, Max(first, MAX_NETWORK_EVENTS))]
  {
    hide Grow, GrowUpTo;
    var full := Grow(SameConnection, [], earlier);
    var full' := Grow(SameConnection, [], earlier + batch);
    var limit := Max(first, MAX_NETWORK_EVENTS);
    var stored := full[..Min(|full|, limit)];
    RelationsAreOrders();
    GrowConcat(SameConnection, [], earlier, batch);
    GrowExtends(SameConnection, full, batch);
    GrowByDeduplicated(SameConnection, full, batch);
    GrowUpToIsCut(MAX_NETWORK_EVENTS, SameConnection, stored, Grow(SameConnection, [], batch));
    GrowExtends(SameConnection, stored, Grow(SameConnection, [], batch));
    if |full| <= limit {
      assert stored == full;
    } else {
      assert full'[..limit] == stored;
    }
  }

  /**
   The stored connections are those of the whole stream, cut at the cap or at the size of the first batch if that is
   larger.
   */
  lemma {:induction false} ConnectionsRefine(
    config: Config, mounts: seq<string>, name: string, batches: seq<TotalEvents>)
    requires StoredAfter(config, mounts, name, batches).Some?
    ensures FirstProcessed(batches).Some?
    ensures var stored := StoredAfter(config, mounts, name, batches).value.networkActivity;
            var first := FirstProcessed(batches).value.networkEvents;
            var incoming := CollectIncoming(Stream(batches).networkEvents);
            var outgoing := CollectOutgoing(Stream(batches).networkEvents);
            && |CollectIncoming(first)| <= |incoming| && |CollectOutgoing(first)| <= |outgoing|
            && stored.incoming == incoming[..Min(|incoming|, Max(|CollectIncoming(first)|, MAX_NETWORK_EVENTS))]
            && stored.outgoing == outgoing[..Min(|outgoing|, Max(|CollectOutgoing(first)|, MAX_NETWORK_EVENTS))]
  {
    var init, batch := batches[..|batches| - 1], batches[|batches| - 1];
    NothingStoredNothingSeen(config, mounts, name, init);
    NothingStoredNothingSeen(config, mounts, name, batches);
    EmptyBatchAddsNothing(Stream(init), batch);
    if StoredAfter(config, mounts, name, init).Some? {
      ConnectionsRefine(config, mounts, name, init);
      var earlier, first := Stream(init).networkEvents, FirstProcessed(init).value.networkEvents;
      SelectConcat(IncomingCall, earlier, batch.networkEvents);
      SelectConcat(OutgoingCall, earlier, batch.networkEvents);
      ConnectionsStep(Select(IncomingCall, earlier), Select(IncomingCall, batch.networkEvents),
          |CollectIncoming(first)|);
      ConnectionsStep(Select(OutgoingCall, earlier), Select(OutgoingCall, batch.networkEvents),
          |CollectOutgoing(first)|);
    }
  }

  // ---------- Execs: equal as sets, and as sequences exactly when no path-less exec recurs ----------

  lemma {:induction false} NamedAndAllExecs(batch: seq<ExecCalls>, a: seq<ExecCalls>, b: seq<ExecCalls>)
    requires forall e :: e in a <==> e in b
    ensures var named, all := Uncovered(SameNamedExec, batch, a), Uncovered(SameExec, batch, b);
            && |all| <= |named|
            && (|all| == |named| <==> !RepeatsEmptyPath(batch, a))
            && (|all| == |named| ==> all == named)
            && (forall e :: e in named ==> e in a || e in all)
            && (forall e :: e in all ==> e in named)
  {
    if batch != [] {
      var init, last := batch[..|batch| - 1], batch[|batch| - 1];
      NamedAndAllExecs(init, a, b);
      assert Covered(SameExec, last, b) <==> last in b;
      assert Covered(SameNamedExec, last, a) <==> last in a && last.path != "";
      assert RepeatsEmptyPath(batch, a) <==> RepeatsEmptyPath(init, a) || (last.path == "" && last in a) by {
        if i :| 0 <= i < |init| && init[i].path == "" && init[i] in a {
          assert batch[i] == init[i];
        }
        if i :| 0 <= i < |batch| && batch[i].path == "" && batch[i] in a {
          assert i < |init| ==> init[i] == batch[i];
        }
      }
    }
  }

  lemma {:induction false} CollectedExecMembers(calls: seq<ExecCalls>)
    ensures forall e :: e in Grow(SameNamedExec, [], calls) <==> e in calls
  {
    if calls != [] {
      CollectedExecMembers(calls[..|calls| - 1]);
    }
  }

  lemma SameRepeats(a: seq<ExecCalls>, a': seq<ExecCalls>, b: seq<ExecCalls>, b': seq<ExecCalls>)
    requires forall e :: e in a <==> e in a'
    requires forall e :: e in b <==> e in b'
    ensures RepeatsEmptyPath(a, b) <==> RepeatsEmptyPath(a', b')
  {
    if i :| 0 <= i < |a| && a[i].path == "" && a[i] in b {
      assert a[i] in a';
    }
    if i :| 0 <= i < |a'| && a'[i].path == "" && a'[i] in b' {
      assert a'[i] in a;
    }
  }

  lemma {:induction false} ExecsRefine(config: Config, mounts: seq<string>, name: string, batches: seq<TotalEvents>)
    requires StoredAfter(config, mounts, name, batches).Some?
    ensures var stored := StoredAfter(config, mounts, name, batches).value.execs;
            var whole := CollectExecs(Stream(batches).execEvents);
            && (forall e :: e in stored <==> e in whole)
            && |stored| <= |whole|
            && (|stored| == |whole| <==> !EmptyPathRecurs(batches))
            && (stored == whole <==> !EmptyPathRecurs(batches))
  {
    var init, batch := batches[..|batches| - 1], batches[|batches| - 1];
    NothingStoredNothingSeen(config, mounts, name, init);
    EmptyBatchAddsNothing(Stream(init), batch);
    if StoredAfter(config, mounts, name, init).Some? {
      ExecsRefine(config, mounts, name, init);
      RelationsAreOrders();
      var earlier, calls := ExecsOf(Stream(init)), ExecsOf(batch);
      SelectConcat(ExecCall, Stream(init).execEvents, batch.execEvents);
      GrowByBatch(SameNamedExec, earlier, calls);
      var unique := Grow(SameNamedExec, [], calls);
      var whole, stored := Grow(SameNamedExec, [], earlier), StoredAfter(config, mounts, name, init).value.execs;
      NamedAndAllExecs(unique, whole, stored);
      CollectedExecMembers(calls);
      CollectedExecMembers(earlier);
      SameRepeats(unique, calls, whole, earlier);
    } else {
      NoRecurrenceBeforeFirst(config, mounts, name, init);
    }
  }

  lemma {:induction false} NoRecurrenceBeforeFirst(
    config: Config, mounts: seq<string>, name: string, batches: seq<TotalEvents>)
    requires StoredAfter(config, mounts, name, batches).None?
    ensures !EmptyPathRecurs(batches) && ExecsOf(Stream(batches)) == []
  {
    NothingStoredNothingSeen(config, mounts, name, batches);
    if batches != [] {
      NoRecurrenceBeforeFirst(config, mounts, name, batches[..|batches| - 1]);
    }
  }

  // ---------- System calls: equal as sets, and as sequences exactly when none recurs ----------

  /** Some system call of a batch was already in an earlier one. */
  predicate SyscallRecurs(batches: seq<TotalEvents>) {
    if batches == [] then false
    else
      var init := batches[..|batches| - 1];
      || SyscallRecurs(init)
      || Shares(batches[|batches| - 1].syscallEvents, Stream(init).syscallEvents)
  }

  predicate Shares(xs: seq<string>, ys: seq<string>) {
    exists i :: 0 <= i < |xs| && xs[i] in ys
  }

  lemma SharesSnoc(xs: seq<string>, last: string, ys: seq<string>)
    ensures Shares(xs + [last], ys) <==> Shares(xs, ys) || last in ys
  {
    var longer := xs + [last];
    if i :| 0 <= i < |xs| && xs[i] in ys {
      assert longer[i] in ys;
    }
    if last in ys {
      assert longer[|xs|] in ys;
    }
    if i :| 0 <= i < |longer| && longer[i] in ys && i < |xs| {
      assert xs[i] in ys;
    }
  }

  lemma {:induction false} AllUncovered(xs: seq<string>, acc: seq<string>)
    ensures var uncovered := Uncovered(SameSyscall, xs, acc);
            && |uncovered| <= |xs|
            && (|uncovered| == |xs| <==> !Shares(xs, acc))
            && (|uncovered| == |xs| ==> uncovered == xs)
            && (forall x :: x in uncovered <==> x in xs && x !in acc)
  {
    if xs != [] {
      hide Shares;
      var init, last := xs[..|xs| - 1], xs[|xs| - 1];
      AllUncovered(init, acc);
      assert Covered(SameSyscall, last, acc) <==> last in acc;
      assert xs == init + [last];
      SharesSnoc(init, last, acc);
    }
  }

  lemma SharesMembers(xs: seq<string>, ys: seq<string>, zs: seq<string>)
    requires forall y :: y in ys <==> y in zs
    ensures Shares(xs, ys) <==> Shares(xs, zs)
  {
  }

  lemma {:induction false} SyscallsRefine(config: Config, mounts: seq<string>, name: string, batches: seq<TotalEvents>)
    requires StoredAfter(config, mounts, name, batches).Some?
    ensures var stored := StoredAfter(config, mounts, name, batches).value.sysCalls;
            var whole := Stream(batches).syscallEvents;
            && (forall s :: s in stored <==> s in whole)
            && |stored| <= |whole|
            && (|stored| == |whole| <==> !SyscallRecurs(batches))
            && (stored == whole <==> !SyscallRecurs(batches))
  {
    hide CollectOpens, CollectExecs, CollectDns, CollectIncoming, CollectOutgoing, MergeOpens, MergeConnections,
        Uncovered;
    var init, batch := batches[..|batches| - 1], batches[|batches| - 1];
    NothingStoredNothingSeen(config, mounts, name, init);
    EmptyBatchAddsNothing(Stream(init), batch);
    if StoredAfter(config, mounts, name, init).Some? {
      SyscallsRefine(config, mounts, name, init);
      var stored := StoredAfter(config, mounts, name, init).value.sysCalls;
      AllUncovered(batch.syscallEvents, stored);
      SharesMembers(batch.syscallEvents, stored, Stream(init).syscallEvents);
      if stored != Stream(init).syscallEvents && ShouldProcess(batch) {
        assert |stored| < |Stream(init).syscallEvents|;
      }
    } else {
      NoSyscallBeforeFirst(config, mounts, name, init);
    }
  }

  lemma {:induction false} NoSyscallBeforeFirst(
    config: Config, mounts: seq<string>, name: string, batches: seq<TotalEvents>)
    requires StoredAfter(config, mounts, name, batches).None?
    ensures !SyscallRecurs(batches) && Stream(batches).syscallEvents == []
  {
    NothingStoredNothingSeen(config, mounts, name, batches);
    if batches != [] {
      NoSyscallBeforeFirst(config, mounts, name, batches[..|batches| - 1]);
    }
  }

  // ---------- The theorem ----------

  /** What `stored` has in common with one collection over the concatenated batches. */
  ghost predicate RefinesOneShot(
    config: Config, mounts: seq<string>, name: string, batches: seq<TotalEvents>, stored: ContainerProfile)
  {
    && FirstProcessed(batches).Some?
    && var whole := CollectProfile(config, mounts, name, Stream(batches));
       var first := CollectProfile(config, mounts, name, FirstProcessed(batches).value);
       && stored.name == name
       && stored.dns == whole.dns
       && stored.opens == UntilFull(config, mounts, FitBatches(config, mounts, batches))
       && (BatchesFit(config, mounts, batches) ==>
             (stored.opens == whole.opens <==> |UntilFull(config, mounts, batches)| <= MAX_OPEN_EVENTS + 1))
       && (stored.networkActivity.incoming == whole.networkActivity.incoming
           <==> |whole.networkActivity.incoming| <= Max(|first.networkActivity.incoming|, MAX_NETWORK_EVENTS))
       && (stored.networkActivity.outgoing == whole.networkActivity.outgoing
           <==> |whole.networkActivity.outgoing| <= Max(|first.networkActivity.outgoing|, MAX_NETWORK_EVENTS))
       && (forall e :: e in stored.execs <==> e in whole.execs)
       && (stored.execs == whole.execs <==> !EmptyPathRecurs(batches))
       && (forall s :: s in stored.sysCalls <==> s in whole.sysCalls)
       && (stored.sysCalls == whole.sysCalls <==> !SyscallRecurs(batches))
  }

  /** Merging interval by interval refines one collection over the concatenated stream. */
  lemma {:induction false} IncrementalRefinesOneShot(
    config: Config, mounts: seq<string>, name: string, batches: seq<TotalEvents>)
    requires StoredAfter(config, mounts, name, batches).Some?
    ensures RefinesOneShot(config, mounts, name, batches, StoredAfter(config, mounts, name, batches).value)
  {
    hide FullOpens, CollectOpens, UntilFull, FitBatches, BatchesFit, StoredAfter;
    StoredKeepsName(config, mounts, name, batches);
    DnsRefines(config, mounts, name, batches);
    ConnectionsRefine(config, mounts, name, batches);
    ExecsRefine(config, mounts, name, batches);
    SyscallsRefine(config, mounts, name, batches);
    OpensRefine(config, mounts, name, batches);
    OpensRefineIff(config, mounts, name, batches);
  }

  lemma {:induction false} StoredKeepsName(config: Config, mounts: seq<string>, name: string, batches: seq<TotalEvents>)
    ensures StoredAfter(config, mounts, name, batches).Some?
        ==> StoredAfter(config, mounts, name, batches).value.name == name
  {
    if batches != [] {
      StoredKeepsName(config, mounts, name, batches[..|batches| - 1]);
    }
  }
}
