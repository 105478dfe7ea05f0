/**
 Runs of collections of one container, compared with one collection after every interval: exactly which
 intervals make the stored opens and capabilities fall behind.
 */
module IntervalByInterval {
  import opened Dedup
  import opened Sequences
  import opened ProfileTypes
  import opened ProfileAlgebra
  import opened IncrementalMerge
  import Capabilities

  // ---------- Opens ----------

  function OpensOf(config: Config, mounts: seq<string>, name: string, batches: seq<TotalEvents>): seq<OpenCalls> {
    match StoredAfter(config, mounts, name, batches)
    case None => []
    case Some(stored) => stored.opens
  }

  /**
   The interval loses nothing that one collection would keep: its merge stops at the cap's edge or cuts nothing off.
   */
  ghost predicate KeepsPace(config: Config, mounts: seq<string>, stored: seq<OpenCalls>, events: seq<OpenEvent>) {
    |stored| > MAX_OPEN_EVENTS
    || var full := FullOpens(config, mounts, events);
       var merged := MergeOpens(config, mounts, stored, CollectOpens(config, mounts, events));
       && |merged| <= MAX_OPEN_EVENTS + 1
       && (|merged| == MAX_OPEN_EVENTS + 1
           || Uncovered(OpenSubsumed, full[Min(|full|, MAX_OPEN_EVENTS + 1)..], stored) == [])
  }

  lemma {:induction false} UncoveredByNothing<T>(sub: (T, T) -> bool, xs: seq<T>)
    ensures Uncovered(sub, xs, []) == xs
  {
    if xs != [] {
      UncoveredByNothing(sub, xs[..|xs| - 1]);
    }
  }

  /** Merging into nothing is collecting, and merging nothing changes nothing. */
  lemma MergeUnits(config: Config, mounts: seq<string>, stored: seq<OpenCalls>, events: seq<OpenEvent>)
    ensures MergeOpens(config, mounts, [], CollectOpens(config, mounts, events)) == CollectOpens(config, mounts, events)
    ensures CollectOpens(config, mounts, []) == []
    ensures MergeOpens(config, mounts, stored, []) == stored
  {
    CollectedStayAdmitted(config, mounts, events);
    UncoveredByNothing(OpenSubsumed, CollectOpens(config, mounts, events));
  }

  /** One interval more, whether or not there was a profile before, and whether or not there were events. */
  lemma OpensOfSnoc(config: Config, mounts: seq<string>, name: string, batches: seq<TotalEvents>)
    requires batches != []
    ensures OpensOf(config, mounts, name, batches)
         == MergeOpens(config, mounts, OpensOf(config, mounts, name, batches[..|batches| - 1]),
                       CollectOpens(config, mounts, batches[|batches| - 1].openEvents))
  {
    hide CollectOpens, MergeOpens;
    MergeUnits(config, mounts, OpensOf(config, mounts, name, batches[..|batches| - 1]),
        batches[|batches| - 1].openEvents);
  }

  lemma PaceStep(config: Config, mounts: seq<string>, earlier: seq<OpenEvent>, batch: seq<OpenEvent>)
    ensures MergeOpens(config, mounts, CollectOpens(config, mounts, earlier), CollectOpens(config, mounts, batch))
              == CollectOpens(config, mounts, earlier + batch)
       <==> KeepsPace(config, mounts, CollectOpens(config, mounts, earlier), batch)
  {
    hide FullOpens, CollectOpens, Uncovered, MergeOpens;
    var stored, full := CollectOpens(config, mounts, earlier), FullOpens(config, mounts, batch);
    var cut := Min(|full|, MAX_OPEN_EVENTS + 1);
    BelowCapUncut(config, mounts, earlier);
    BelowCapUncut(config, mounts, batch);
    BelowCapUncut(config, mounts, earlier + batch);
    FullOpensOfConcat(config, mounts, earlier, batch);
    if |stored| > MAX_OPEN_EVENTS {
      FullListStays(config, mounts, stored, CollectOpens(config, mounts, batch));
    } else {
      var whole := FullOpens(config, mounts, earlier);
      assert |whole| <= MAX_OPEN_EVENTS && stored == whole[..|whole|] == whole;
      assert full == full[..cut] + full[cut..];
      UncoveredConcat(OpenSubsumed, full[..cut], full[cut..], stored);
      MergeBelowCap(config, mounts, stored, batch);
      var merged := MergeOpens(config, mounts, stored, CollectOpens(config, mounts, batch));
      var rest := Uncovered(OpenSubsumed, full[cut..], stored);
      Associative(stored, Uncovered(OpenSubsumed, full[..cut], stored), rest);
      assert FullOpens(config, mounts, earlier + batch) == merged + rest;
      CutIsFront(merged, rest, MAX_OPEN_EVENTS + 1);
    }
  }

  lemma CutIsFront<T>(front: seq<T>, rest: seq<T>, limit: nat)
    ensures (front + rest)[..Min(|front + rest|, limit)] == front
        <==> |front| <= limit && (|front| == limit || rest == [])
  {
    var cut := (front + rest)[..Min(|front + rest|, limit)];
    if |front| == limit || rest == [] {
      assert |front| <= limit ==> cut == front;
    }
  }

  lemma MergeBelowCap(config: Config, mounts: seq<string>, stored: seq<OpenCalls>, batch: seq<OpenEvent>)
    requires |stored| <= MAX_OPEN_EVENTS
    ensures MergeOpens(config, mounts, stored, CollectOpens(config, mounts, batch))
         == stored + Uncovered(OpenSubsumed, CollectOpens(config, mounts, batch), stored)
  {
    hide CollectOpens, Uncovered;
    CollectedStayAdmitted(config, mounts, batch);
  }

  ghost predicate OpensAreOneShot(
    config: Config, mounts: seq<string>, name: string, batches: seq<TotalEvents>, k: nat)
    requires k <= |batches|
  {
    OpensOf(config, mounts, name, batches[..k]) == CollectOpens(config, mounts, Stream(batches[..k]).openEvents)
  }

  ghost predicate PaceAt(config: Config, mounts: seq<string>, name: string, batches: seq<TotalEvents>, k: nat)
    requires k < |batches|
  {
    KeepsPace(config, mounts, OpensOf(config, mounts, name, batches[..k]), batches[k].openEvents)
  }

  /**
   For any batches: the stored opens are the one-shot opens after every interval exactly if every interval keeps pace.
   */
  lemma {:induction false} OpensKeepPaceIff(
    config: Config, mounts: seq<string>, name: string, batches: seq<TotalEvents>)
    ensures (forall k :: 0 <= k <= |batches| ==> OpensAreOneShot(config, mounts, name, batches, k))
       <==> (forall k :: 0 <= k < |batches| ==> PaceAt(config, mounts, name, batches, k))
  {
    hide CollectOpens, MergeOpens, KeepsPace, OpensOf;
    if batches == [] {
      NothingYet(config, mounts, name);
      assert batches[..0] == [];
    } else {
      var n := |batches| - 1;
      var init := batches[..n];
      OpensKeepPaceIff(config, mounts, name, init);
      assert forall k :: 0 <= k <= n ==> init[..k] == batches[..k];
      assert batches[..n + 1] == batches;
      forall k | 0 <= k <= n
        ensures OpensAreOneShot(config, mounts, name, batches, k) <==> OpensAreOneShot(config, mounts, name, init, k)
      {
      }
      forall k | 0 <= k < n
        ensures PaceAt(config, mounts, name, batches, k) <==> PaceAt(config, mounts, name, init, k)
      {
      }
      OpensOfSnoc(config, mounts, name, batches);
      if OpensAreOneShot(config, mounts, name, init, n) {
        PaceStep(config, mounts, Stream(init).openEvents, batches[n].openEvents);
        assert OpensAreOneShot(config, mounts, name, batches, n + 1) <==> PaceAt(config, mounts, name, batches, n);
      }
    }
  }

  lemma NothingYet(config: Config, mounts: seq<string>, name: string)
    ensures OpensOf(config, mounts, name, []) == CollectOpens(config, mounts, Stream([]).openEvents)
  {
  }

  // ---------- Capabilities ----------

  function CapsOf(
    config: Config, mounts: seq<string>, name: string, batches: seq<TotalEvents>): seq<CapabilitiesCalls>

  {
    match StoredAfter(config, mounts, name, batches)
    case None => []
    case Some(stored) => stored.capabilities
  }

  ghost predicate SamePairs(a: seq<CapabilitiesCalls>, b: seq<CapabilitiesCalls>) {
    forall s, c :: Capabilities.Has(a, s, c) <==> Capabilities.Has(b, s, c)
  }

  lemma {:induction false} AllAreNew(added: seq<CapabilitiesCalls>)
    ensures Capabilities.NewSyscalls([], added) == added && Capabilities.ExtendAll([], added) == []
  {
    if added != [] {
      AllAreNew(added[..|added| - 1]);
    }
  }

  lemma CapsOfSnoc(config: Config, mounts: seq<string>, name: string, batches: seq<TotalEvents>)
    requires batches != []
    ensures CapsOf(config, mounts, name, batches)
         == Capabilities.Merge(CapsOf(config, mounts, name, batches[..|batches| - 1]),
                               Capabilities.Group(batches[|batches| - 1].capabilitiesEvents))
  {
    hide CollectOpens, MergeOpens;
    var added := Capabilities.Group(batches[|batches| - 1].capabilitiesEvents);
    AllAreNew(added);
    assert [] + added == added;
    var stored := CapsOf(config, mounts, name, batches[..|batches| - 1]);
    assert stored + [] == stored;
  }

  /** System calls stay distinct in the stored list, and every stored pair was observed. */
  lemma {:induction false} CapsAreObserved(config: Config, mounts: seq<string>, name: string, batches: seq<TotalEvents>)
    ensures Capabilities.DistinctSyscalls(CapsOf(config, mounts, name, batches))
    ensures forall s, c :: Capabilities.Has(CapsOf(config, mounts, name, batches), s, c)
                       ==> Capabilities.Has(Capabilities.Group(Stream(batches).capabilitiesEvents), s, c)
  {
    hide Capabilities.Has, Capabilities.Merge, Capabilities.Group, CapsOf, StoredAfter;
    if batches == [] {
      NoCapsYet(config, mounts, name);
    } else {
      var init, batch := batches[..|batches| - 1], batches[|batches| - 1];
      CapsAreObserved(config, mounts, name, init);
      CapsOfSnoc(config, mounts, name, batches);
      Capabilities.GroupIsExact(batch.capabilitiesEvents);
      var stored, added := CapsOf(config, mounts, name, init), Capabilities.Group(batch.capabilitiesEvents);
      Capabilities.MergeKeepsDistinct(stored, added);
      GroupOfConcat(Stream(init).capabilitiesEvents, batch.capabilitiesEvents);
      forall s, c | Capabilities.Has(Capabilities.Merge(stored, added), s, c)
        ensures Capabilities.Has(stored, s, c) || Capabilities.Has(added, s, c)
      {
        Capabilities.ComesFrom(stored, added, s, c);
      }
    }
  }

  lemma NoCapsYet(config: Config, mounts: seq<string>, name: string)
    ensures CapsOf(config, mounts, name, []) == [] == Capabilities.Group(Stream([]).capabilitiesEvents)
    ensures forall s, c :: !Capabilities.Has([], s, c)
    ensures Capabilities.DistinctSyscalls([])
  {
  }

  /** Grouping a concatenation records the pairs of both sides. */
  lemma GroupOfConcat(earlier: seq<CapabilitiesEvent>, batch: seq<CapabilitiesEvent>)
    ensures forall s, c ::
              Capabilities.Has(Capabilities.Group(earlier + batch), s, c)
              <==> (Capabilities.Has(Capabilities.Group(earlier), s, c)
                    || Capabilities.Has(Capabilities.Group(batch), s, c))
  {
    hide Capabilities.Has, Capabilities.Group;
    Capabilities.GroupIsExact(earlier);
    Capabilities.GroupIsExact(batch);
    Capabilities.GroupIsExact(earlier + batch);
    var all := earlier + batch;
    forall s, c
      ensures Capabilities.Has(Capabilities.Group(all), s, c)
         <==> Capabilities.Has(Capabilities.Group(earlier), s, c) || Capabilities.Has(Capabilities.Group(batch), s, c)
    {
      if k :| 0 <= k < |earlier| && earlier[k].syscall == s && earlier[k].capabilityName == c {
        assert all[k].syscall == s && all[k].capabilityName == c;
      }
      if k :| 0 <= k < |batch| && batch[k].syscall == s && batch[k].capabilityName == c {
        assert all[|earlier| + k].syscall == s && all[|earlier| + k].capabilityName == c;
      }
      if k :| 0 <= k < |all| && all[k].syscall == s && all[k].capabilityName == c {
        if k < |earlier| {
          assert earlier[k].syscall == s && earlier[k].capabilityName == c;
        } else {
          assert batch[k - |earlier|].syscall == s && batch[k - |earlier|].capabilityName == c;
        }
      }
    }
  }

  ghost predicate CapsAreOneShot(config: Config, mounts: seq<string>, name: string, batches: seq<TotalEvents>, k: nat)
    requires k <= |batches|
  {
    SamePairs(CapsOf(config, mounts, name, batches[..k]), Capabilities.Group(Stream(batches[..k]).capabilitiesEvents))
  }

  ghost predicate FewNewAt(config: Config, mounts: seq<string>, name: string, batches: seq<TotalEvents>, k: nat)
    requires k < |batches|
  {
    Capabilities.AtMostOneNewEach(CapsOf(config, mounts, name, batches[..k]),
                                  Capabilities.Group(batches[k].capabilitiesEvents))
  }

  /** If the stored pairs were the observed ones, one more interval keeps them so exactly if it offers few enough. */
  lemma CapsStep(config: Config, mounts: seq<string>, name: string, batches: seq<TotalEvents>)
    requires batches != []
    requires var init := batches[..|batches| - 1];
             SamePairs(CapsOf(config, mounts, name, init), Capabilities.Group(Stream(init).capabilitiesEvents))
    ensures SamePairs(CapsOf(config, mounts, name, batches), Capabilities.Group(Stream(batches).capabilitiesEvents))
       <==> Capabilities.AtMostOneNewEach(CapsOf(config, mounts, name, batches[..|batches| - 1]),
                                          Capabilities.Group(batches[|batches| - 1].capabilitiesEvents))
  {
    hide Capabilities.Has, Capabilities.Merge, Capabilities.Group, Capabilities.AtMostOneNewEach, CapsOf, StoredAfter;
    var init, batch := batches[..|batches| - 1], batches[|batches| - 1];
    var stored, added := CapsOf(config, mounts, name, init), Capabilities.Group(batch.capabilitiesEvents);
    CapsOfSnoc(config, mounts, name, batches);
    CapsAreObserved(config, mounts, name, init);
    CapsAreObserved(config, mounts, name, batches);
    Capabilities.GroupIsExact(batch.capabilitiesEvents);
    GroupOfConcat(Stream(init).capabilitiesEvents, batch.capabilitiesEvents);
    Capabilities.UnionIffAtMostOneNewEach(stored, added);
  }

  /** For any batches: the stored pairs are the observed ones after every interval exactly if no interval offers two. */
  lemma {:induction false} CapsKeepPaceIff(config: Config, mounts: seq<string>, name: string, batches: seq<TotalEvents>)
    ensures (forall k :: 0 <= k <= |batches| ==> CapsAreOneShot(config, mounts, name, batches, k))
       <==> (forall k :: 0 <= k < |batches| ==> FewNewAt(config, mounts, name, batches, k))
  {
    hide Capabilities.Group, Capabilities.AtMostOneNewEach, CapsOf, SamePairs;
    if batches == [] {
      NoPairsYet(config, mounts, name);
      assert batches[..0] == [];
    } else {
      var n := |batches| - 1;
      var init := batches[..n];
      CapsKeepPaceIff(config, mounts, name, init);
      assert forall k :: 0 <= k <= n ==> init[..k] == batches[..k];
      assert batches[..n + 1] == batches;
      forall k | 0 <= k <= n
        ensures CapsAreOneShot(config, mounts, name, batches, k) <==> CapsAreOneShot(config, mounts, name, init, k)
      {
      }
      forall k | 0 <= k < n
        ensures FewNewAt(config, mounts, name, batches, k) <==> FewNewAt(config, mounts, name, init, k)
      {
      }
      if CapsAreOneShot(config, mounts, name, init, n) {
        CapsStep(config, mounts, name, batches);
        assert CapsAreOneShot(config, mounts, name, batches, n + 1) <==> FewNewAt(config, mounts, name, batches, n);
      }
    }
  }

  lemma NoPairsYet(config: Config, mounts: seq<string>, name: string)
    ensures SamePairs(CapsOf(config, mounts, name, []), Capabilities.Group(Stream([]).capabilitiesEvents))
  {
  }
}
