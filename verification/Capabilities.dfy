/** How capability events are grouped by system call, and what merging two such groupings keeps and loses. */
module Capabilities {
  import opened ProfileTypes

  /** Index of the first entry for `syscall`, or the length of the list. */
  function Find(caps: seq<CapabilitiesCalls>, syscall: string): (i: nat)
    ensures i <= |caps|
    ensures i < |caps| ==> caps[i].syscall == syscall
    ensures forall j :: 0 <= j < i ==> caps[j].syscall != syscall
  {
    if caps == [] then 0
    else if caps[0].syscall == syscall then 0
    else 1 + Find(caps[1..], syscall)
  }

  ghost predicate DistinctSyscalls(caps: seq<CapabilitiesCalls>) {
    forall i, j :: 0 <= i < j < |caps| ==> caps[i].syscall != caps[j].syscall
  }

  ghost predicate Distinct(xs: seq<string>) {
    forall i, j :: 0 <= i < j < |xs| ==> xs[i] != xs[j]
  }

  /** The grouping records `capability` under `syscall`. */
  ghost predicate Has(caps: seq<CapabilitiesCalls>, syscall: string, capability: string) {
    exists i :: 0 <= i < |caps| && caps[i].syscall == syscall && capability in caps[i].capabilities
  }

  // ---------- Grouping the events of one batch ----------

  function AddEvent(caps: seq<CapabilitiesCalls>, event: CapabilitiesEvent): seq<CapabilitiesCalls> {
    var i := Find(caps, event.syscall);
    if i == |caps| then caps + [CapabilitiesCalls([event.capabilityName], event.syscall)]
    else if event.capabilityName in caps[i].capabilities then caps
    else caps[i := caps[i].(capabilities := caps[i].capabilities + [event.capabilityName])]
  }

  function Group(events: seq<CapabilitiesEvent>): seq<CapabilitiesCalls> {
    if events == [] then []
    else AddEvent(Group(events[..|events| - 1]), events[|events| - 1])
  }

  lemma AddEventIsExact(caps: seq<CapabilitiesCalls>, event: CapabilitiesEvent)
    requires DistinctSyscalls(caps) && forall i :: 0 <= i < |caps| ==> Distinct(caps[i].capabilities)
    ensures var after := AddEvent(caps, event);
            && DistinctSyscalls(after)
            && (forall i :: 0 <= i < |after| ==> Distinct(after[i].capabilities))
            && (forall s, c ::
                  Has(after, s, c) <==> Has(caps, s, c) || (s == event.syscall && c == event.capabilityName))
  {
    var after, n := AddEvent(caps, event), Find(caps, event.syscall);
    assert after[n].syscall == event.syscall && event.capabilityName in after[n].capabilities;
    forall s, c | Has(caps, s, c)
      ensures Has(after, s, c)
    {
      var j :| 0 <= j < |caps| && caps[j].syscall == s && c in caps[j].capabilities;
      assert after[j].syscall == s && c in after[j].capabilities;
    }
    forall s, c | Has(after, s, c) && !(s == event.syscall && c == event.capabilityName)
      ensures Has(caps, s, c)
    {
      var j :| 0 <= j < |after| && after[j].syscall == s && c in after[j].capabilities;
      assert caps[j].syscall == s && c in caps[j].capabilities;
    }
  }

  /** A batch is grouped without repeating a system call or a capability, and records exactly its events. */
  lemma {:induction false} GroupIsExact(events: seq<CapabilitiesEvent>)
    ensures DistinctSyscalls(Group(events))
    ensures forall i :: 0 <= i < |Group(events)| ==> Distinct(Group(events)[i].capabilities)
    ensures forall s, c :: Has(Group(events), s, c)
                      <==> exists k :: 0 <= k < |events| && events[k].syscall == s && events[k].capabilityName == c
  {
    if events != [] {
      var n := |events| - 1;
      var init, event := events[..n], events[n];
      GroupIsExact(init);
      AddEventIsExact(Group(init), event);
      hide AddEvent, Has, DistinctSyscalls, Distinct;
      forall s, c
        ensures Has(Group(events), s, c)
           <==> exists k :: 0 <= k < |events| && events[k].syscall == s && events[k].capabilityName == c
      {
        assert forall k :: 0 <= k < n ==> init[k] == events[k];
        if k :| 0 <= k < |events| && events[k].syscall == s && events[k].capabilityName == c && k < n {
          assert init[k].syscall == s && init[k].capabilityName == c;
        }
        if k :| 0 <= k < n && init[k].syscall == s && init[k].capabilityName == c {
          assert events[k].syscall == s && events[k].capabilityName == c;
        }
        assert (s == event.syscall && c == event.capabilityName)
            ==> events[n].syscall == s && events[n].capabilityName == c;
      }
    }
  }

  // ---------- Merging a fresh grouping into a stored one ----------

  /**
   The last entry of `added` that `have` lacks.  The merge appends every missing capability to the
   same copy of the old list, so each append overwrites the one before it.
   */
  function LastMissing(have: seq<string>, added: seq<string>): (r: seq<string>)
    ensures |r| <= 1
    ensures r == [] <==> forall c :: c in added ==> c in have
    ensures r != [] ==> r[0] in added && r[0] !in have
  {
    if added == [] then []
    else if added[|added| - 1] !in have then [added[|added| - 1]]
    else LastMissing(have, added[..|added| - 1])
  }

  /** Behind the entry that survives, everything was there before. */
  lemma {:induction false} LastMissingIsLast(have: seq<string>, added: seq<string>)
    ensures LastMissing(have, added) != [] ==>
              exists k :: 0 <= k < |added| && added[k] == LastMissing(have, added)[0] && AllIn(added[k + 1..], have)
  {
    if added != [] {
      var n := |added| - 1;
      var init := added[..n];
      LastMissingIsLast(have, init);
      if added[n] in have && LastMissing(have, init) != [] {
        var k :| 0 <= k < |init| && init[k] == LastMissing(have, init)[0] && AllIn(init[k + 1..], have);
        assert added[k + 1..] == init[k + 1..] + [added[n]];
        assert added[k] == init[k] && AllIn(added[k + 1..], have);
      } else if added[n] !in have {
        assert added[n + 1..] == [];
      }
    }
  }

  predicate AllIn(xs: seq<string>, ys: seq<string>) {
    forall x :: x in xs ==> x in ys
  }

  /** Extend the first stored entry of the same system call; leave the list alone when there is none. */
  function Extend(stored: seq<CapabilitiesCalls>, added: CapabilitiesCalls): seq<CapabilitiesCalls> {
    var i := Find(stored, added.syscall);
    if i == |stored| then stored
    else stored[i := stored[i].(capabilities :=
                  stored[i].capabilities + LastMissing(stored[i].capabilities, added.capabilities))]
  }

  lemma NothingToExtend(stored: seq<CapabilitiesCalls>, added: CapabilitiesCalls)
    requires Find(stored, added.syscall) == |stored|
    ensures Extend(stored, added) == stored
  {
  }

  function ExtendAll(stored: seq<CapabilitiesCalls>, added: seq<CapabilitiesCalls>): seq<CapabilitiesCalls> {
    if added == [] then stored
    else Extend(ExtendAll(stored, added[..|added| - 1]), added[|added| - 1])
  }

  /** The fresh entries whose system call is not stored yet. */
  function NewSyscalls(stored: seq<CapabilitiesCalls>, added: seq<CapabilitiesCalls>): seq<CapabilitiesCalls> {
    if added == [] then []
    else
      var rest := NewSyscalls(stored, added[..|added| - 1]);
      if Find(stored, added[|added| - 1].syscall) == |stored| then rest + [added[|added| - 1]] else rest
  }

  function Merge(stored: seq<CapabilitiesCalls>, added: seq<CapabilitiesCalls>): seq<CapabilitiesCalls> {
    ExtendAll(stored, added) + NewSyscalls(stored, added)
  }

  lemma {:induction false} FindDependsOnSyscalls(a: seq<CapabilitiesCalls>, b: seq<CapabilitiesCalls>, syscall: string)
    requires |a| == |b| && forall i :: 0 <= i < |a| ==> a[i].syscall == b[i].syscall
    ensures Find(a, syscall) == Find(b, syscall)
  {
    if a != [] {
      FindDependsOnSyscalls(a[1..], b[1..], syscall);
    }
  }

  lemma {:induction false} FindIn(caps: seq<CapabilitiesCalls>, last: CapabilitiesCalls, syscall: string)
    ensures Find(caps + [last], syscall)
         == if Find(caps, syscall) < |caps| || last.syscall == syscall then Find(caps, syscall) else |caps| + 1
  {
    if caps == [] {
      assert Find([last][1..], syscall) == 0;
    } else {
      FindIn(caps[1..], last, syscall);
      assert (caps + [last])[1..] == caps[1..] + [last];
    }
  }

  /** Merging only extends: positions and system calls stay, and every stored capability list is a prefix. */
  lemma {:induction false} ExtendAllExtends(stored: seq<CapabilitiesCalls>, added: seq<CapabilitiesCalls>)
    ensures |ExtendAll(stored, added)| == |stored|
    ensures forall i :: 0 <= i < |stored| ==>
              && ExtendAll(stored, added)[i].syscall == stored[i].syscall
              && stored[i].capabilities <= ExtendAll(stored, added)[i].capabilities
  {
    if added != [] {
      ExtendAllExtends(stored, added[..|added| - 1]);
    }
  }

  lemma {:induction false} NewSyscallsMembers(stored: seq<CapabilitiesCalls>, added: seq<CapabilitiesCalls>)
    ensures forall c :: c in NewSyscalls(stored, added) ==> c in added && Find(stored, c.syscall) == |stored|
    ensures forall c :: c in added && Find(stored, c.syscall) == |stored| ==> c in NewSyscalls(stored, added)
  {
    if added != [] {
      NewSyscallsMembers(stored, added[..|added| - 1]);
    }
  }

  /** What the fresh grouping offers to the stored entry at `i`: nothing unless `i` is the first of its system call. */
  function Offered(stored: seq<CapabilitiesCalls>, added: seq<CapabilitiesCalls>, i: nat): seq<string>
    requires i < |stored|
  {
    var k := Find(added, stored[i].syscall);
    if k < |added| && Find(stored, stored[i].syscall) == i then added[k].capabilities else []
  }

  /** When fresh system calls are distinct, each stored entry gains exactly the last offered capability it lacked. */
  lemma {:induction false} EntryGainsLastMissing(stored: seq<CapabilitiesCalls>, added: seq<CapabilitiesCalls>, i: nat)
    requires DistinctSyscalls(added) && i < |stored|
    ensures |ExtendAll(stored, added)| == |stored|
    ensures ExtendAll(stored, added)[i]
         == stored[i].(capabilities := stored[i].capabilities
                                     + LastMissing(stored[i].capabilities, Offered(stored, added, i)))
  {
    ExtendAllExtends(stored, added);
    if added == [] {
      assert stored[i].capabilities + [] == stored[i].capabilities;
    } else {
      var init, last := added[..|added| - 1], added[|added| - 1];
      assert forall j :: 0 <= j < |init| ==> init[j] == added[j];
      EntryGainsLastMissing(stored, init, i);
      ExtendAllExtends(stored, init);
      var before := ExtendAll(stored, init);
      FindDependsOnSyscalls(before, stored, last.syscall);
      FindIn(init, last, stored[i].syscall);
      assert added == init + [last];
      if last.syscall == stored[i].syscall {
        assert Find(init, last.syscall) == |init|;
        assert before[i] == stored[i] by {
          assert stored[i].capabilities + [] == stored[i].capabilities;
        }
      }
    }
  }

  /** Nothing recorded on either side is lost. */
  ghost predicate UnionAchieved(stored: seq<CapabilitiesCalls>, added: seq<CapabilitiesCalls>) {
    forall s, c :: Has(stored, s, c) || Has(added, s, c) ==> Has(Merge(stored, added), s, c)
  }

  /** Every stored system call is offered at most one capability it lacks. */
  ghost predicate AtMostOneNewEach(stored: seq<CapabilitiesCalls>, added: seq<CapabilitiesCalls>) {
    forall i, k, c, d ::
      && 0 <= i < |stored| && 0 <= k < |added| && added[k].syscall == stored[i].syscall
      && c in added[k].capabilities && !Has(stored, added[k].syscall, c)
      && d in added[k].capabilities && !Has(stored, added[k].syscall, d)
      ==> c == d
  }

  /** Entries for one system call stay unique through any number of merges. */
  lemma MergeKeepsDistinct(stored: seq<CapabilitiesCalls>, added: seq<CapabilitiesCalls>)
    requires DistinctSyscalls(stored) && DistinctSyscalls(added)
    ensures DistinctSyscalls(Merge(stored, added))
  {
    ExtendAllExtends(stored, added);
    NewSyscallsDistinct(stored, added);
    var kept, extra := ExtendAll(stored, added), NewSyscalls(stored, added);
    forall i, j | 0 <= i < |kept| && 0 <= j < |extra|
      ensures kept[i].syscall != extra[j].syscall
    {
      assert extra[j] in extra;
      assert stored[i].syscall == kept[i].syscall;
    }
  }

  lemma {:induction false} NewSyscallsDistinct(stored: seq<CapabilitiesCalls>, added: seq<CapabilitiesCalls>)
    requires DistinctSyscalls(added)
    ensures DistinctSyscalls(NewSyscalls(stored, added))
    ensures forall c :: c in NewSyscalls(stored, added) ==> c in added && Find(stored, c.syscall) == |stored|
  {
    hide Find;
    if added != [] {
      var init := added[..|added| - 1];
      NewSyscallsDistinct(stored, init);
      var rest := NewSyscalls(stored, init);
      assert forall i, j :: 0 <= i < j < |init| ==> init[i].syscall != init[j].syscall;
      forall i | 0 <= i < |rest|
        ensures rest[i].syscall != added[|added| - 1].syscall
      {
        assert rest[i] in rest && rest[i] in init;
        var k :| 0 <= k < |init| && init[k] == rest[i];
        assert added[k] == rest[i];
      }
    }
  }

  /** The exact condition under which the merge is a union. */
  lemma UnionIffAtMostOneNewEach(stored: seq<CapabilitiesCalls>, added: seq<CapabilitiesCalls>)
    requires DistinctSyscalls(stored) && DistinctSyscalls(added)
    ensures UnionAchieved(stored, added) <==> AtMostOneNewEach(stored, added)
  {
    if AtMostOneNewEach(stored, added) {
      forall s, c | Has(stored, s, c) || Has(added, s, c)
        ensures Has(Merge(stored, added), s, c)
      {
        FewNewAreKept(stored, added, s, c);
      }
    }
    if UnionAchieved(stored, added) {
      forall i, k, c, d |
        && 0 <= i < |stored| && 0 <= k < |added| && added[k].syscall == stored[i].syscall
        && c in added[k].capabilities && !Has(stored, added[k].syscall, c)
        && d in added[k].capabilities && !Has(stored, added[k].syscall, d)
        ensures c == d
      {
        assert Has(added, added[k].syscall, c) && Has(added, added[k].syscall, d);
        KeptIsLastMissing(stored, added, i, c);
        KeptIsLastMissing(stored, added, i, d);
      }
    }
  }

  lemma FewNewAreKept(stored: seq<CapabilitiesCalls>, added: seq<CapabilitiesCalls>, s: string, c: string)
    requires DistinctSyscalls(stored) && DistinctSyscalls(added) && AtMostOneNewEach(stored, added)
    requires Has(stored, s, c) || Has(added, s, c)
    ensures Has(Merge(stored, added), s, c)
  {
    hide ExtendAll, NewSyscalls, LastMissing;
    var merged := Merge(stored, added);
    ExtendAllExtends(stored, added);
    if Has(stored, s, c) {
      var i :| 0 <= i < |stored| && stored[i].syscall == s && c in stored[i].capabilities;
      assert merged[i].syscall == s && c in merged[i].capabilities;
    } else {
      var k :| 0 <= k < |added| && added[k].syscall == s && c in added[k].capabilities;
      var i := Find(stored, s);
      if i == |stored| {
        NewSyscallsMembers(stored, added);
        assert added[k] in added;
        assert added[k] in NewSyscalls(stored, added);
        assert added[k] in merged;
      } else {
        EntryGainsLastMissing(stored, added, i);
        assert Find(added, s) == k;
        var gained := LastMissing(stored[i].capabilities, added[k].capabilities);
        assert c !in stored[i].capabilities;
        assert gained != [];
        assert !Has(stored, s, gained[0]);
        assert gained[0] == c;
        assert merged[i].syscall == s && c in merged[i].capabilities;
      }
    }
  }

  /** A capability that is new for the stored entry `i` survives the merge only as the last missing one. */
  lemma KeptIsLastMissing(stored: seq<CapabilitiesCalls>, added: seq<CapabilitiesCalls>, i: nat, c: string)
    requires DistinctSyscalls(stored) && DistinctSyscalls(added) && i < |stored|
    requires !Has(stored, stored[i].syscall, c) && Has(Merge(stored, added), stored[i].syscall, c)
    ensures [c] == LastMissing(stored[i].capabilities, Offered(stored, added, i))
  {
    hide ExtendAll, NewSyscalls, LastMissing;
    var s := stored[i].syscall;
    var kept, extra := ExtendAll(stored, added), NewSyscalls(stored, added);
    EntryGainsLastMissing(stored, added, i);
    ExtendAllExtends(stored, added);
    NewSyscallsMembers(stored, added);
    assert Find(stored, s) == i;
    var merged := Merge(stored, added);
    var k :| 0 <= k < |merged| && merged[k].syscall == s && c in merged[k].capabilities;
    assert kept[k].syscall == stored[k].syscall;
    assert k == i;
    assert c !in stored[i].capabilities;
  }

  /** Merging invents nothing. */
  lemma ComesFrom(stored: seq<CapabilitiesCalls>, added: seq<CapabilitiesCalls>, s: string, c: string)
    requires Has(Merge(stored, added), s, c)
    ensures Has(stored, s, c) || Has(added, s, c)
  {
    var kept, extra := ExtendAll(stored, added), NewSyscalls(stored, added);
    var merged := kept + extra;
    var j :| 0 <= j < |merged| && merged[j].syscall == s && c in merged[j].capabilities;
    if j < |kept| {
      ExtendedComesFrom(stored, added, j, c);
    } else {
      NewSyscallsMembers(stored, added);
      assert merged[j] in extra && merged[j] in added;
      var k :| 0 <= k < |added| && added[k] == merged[j];
    }
  }

  lemma {:induction false} ExtendedComesFrom(
    stored: seq<CapabilitiesCalls>, added: seq<CapabilitiesCalls>, j: nat, c: string)
    requires j < |ExtendAll(stored, added)| && c in ExtendAll(stored, added)[j].capabilities
    ensures var s := ExtendAll(stored, added)[j].syscall;
            Has(stored, s, c) || Has(added, s, c)
  {
    if added != [] {
      var init, last := added[..|added| - 1], added[|added| - 1];
      var before := ExtendAll(stored, init);
      ExtendAllExtends(stored, init);
      ExtendAllExtends(stored, added);
      if c in before[j].capabilities {
        ExtendedComesFrom(stored, init, j, c);
        if Has(init, before[j].syscall, c) {
          var k :| 0 <= k < |init| && init[k].syscall == before[j].syscall && c in init[k].capabilities;
          assert added[k] == init[k];
        }
      } else {
        assert added[|added| - 1].syscall == before[j].syscall && c in last.capabilities;
      }
    } else {
      assert stored[j].syscall == stored[j].syscall;
    }
  }
}
