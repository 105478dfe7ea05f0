/** Aggregating the profiles of a workload's pods: per container name, a union modulo the Equals methods. */
module Controller {
  import opened Dedup
  import opened Sequences
  import opened ProfileTypes
  import ProfileAlgebra

  // ---------- The Equals methods ----------

  /** Execs are compared by path and arguments; environment and upper layer are ignored. */
  predicate ExecEquals(a: ExecCalls, b: ExecCalls) { a.path == b.path && a.args == b.args }
  predicate OpenEquals(a: OpenCalls, b: OpenCalls) { a.path == b.path && a.flags == b.flags }
  predicate CapabilitiesEquals(a: CapabilitiesCalls, b: CapabilitiesCalls) {
    a.syscall == b.syscall && a.capabilities == b.capabilities
  }
  predicate DnsEquals(a: DnsCalls, b: DnsCalls) { a.dnsName == b.dnsName && a.addresses == b.addresses }
  predicate NetworkEquals(a: NetworkCalls, b: NetworkCalls) {
    a.protocol == b.protocol && a.port == b.port && a.dstEndpoint == b.dstEndpoint
  }
  predicate SyscallEquals(a: string, b: string) { a == b }

  /** Equals ignores the environment and the layer of an exec, and nothing else of anything. */
  lemma EqualsMeaning()
    ensures forall a, b :: ExecEquals(a, b) <==> a.(upperLayer := b.upperLayer, envs := b.envs) == b
    ensures forall a, b :: OpenEquals(a, b) <==> a == b
    ensures forall a, b :: CapabilitiesEquals(a, b) <==> a == b
    ensures forall a, b :: DnsEquals(a, b) <==> a == b
    ensures forall a, b :: NetworkEquals(a, b) <==> a == b
    ensures forall a, b :: SyscallEquals(a, b) <==> a == b
  {
  }

  lemma EqualsAreEquivalences()
    ensures Equivalence(ExecEquals) && Equivalence(OpenEquals) && Equivalence(CapabilitiesEquals)
    ensures Equivalence(DnsEquals) && Equivalence(NetworkEquals) && Equivalence(SyscallEquals)
  {
  }

  // ---------- The merge ----------

  function MergeContainer(a: ContainerProfile, b: ContainerProfile): ContainerProfile {
    a.(sysCalls := Grow(SyscallEquals, a.sysCalls, b.sysCalls),
       execs := Grow(ExecEquals, a.execs, b.execs),
       capabilities := Grow(CapabilitiesEquals, a.capabilities, b.capabilities),
       opens := Grow(OpenEquals, a.opens, b.opens),
       dns := Grow(DnsEquals, a.dns, b.dns),
       networkActivity := NetworkActivity(
         Grow(NetworkEquals, a.networkActivity.incoming, b.networkActivity.incoming),
         Grow(NetworkEquals, a.networkActivity.outgoing, b.networkActivity.outgoing)))
  }

  function AddContainer(m: map<string, ContainerProfile>, c: ContainerProfile): map<string, ContainerProfile> {
    if c.name in m then m[c.name := MergeContainer(m[c.name], c)] else m[c.name := c]
  }

  function Aggregated(containers: seq<ContainerProfile>): map<string, ContainerProfile> {
    if containers == [] then map[]
    else AddContainer(Aggregated(containers[..|containers| - 1]), containers[|containers| - 1])
  }

  // ---------- Unions of lists ----------

  /** The first list as it is, grown by the others. */
  function Union<T>(eq: (T, T) -> bool, lists: seq<seq<T>>): seq<T> {
    if lists == [] then []
    else if |lists| == 1 then lists[0]
    else Grow(eq, Union(eq, lists[..|lists| - 1]), lists[|lists| - 1])
  }

  /** Every entry has a representative, and nothing else is in the union. */
  ghost predicate IsUnion<T(!new)>(eq: (T, T) -> bool, union: seq<T>, lists: seq<seq<T>>) {
    && (forall k, x :: 0 <= k < |lists| && x in lists[k] ==> Covered(eq, x, union))
    && (forall y :: y in union ==> exists k :: 0 <= k < |lists| && y in lists[k])
  }

  lemma {:induction false} UnionIsUnion<T(!new)>(eq: (T, T) -> bool, lists: seq<seq<T>>)
    requires Equivalence(eq)
    ensures IsUnion(eq, Union(eq, lists), lists)
    ensures (forall k :: 0 <= k < |lists| ==> Irredundant(eq, lists[k])) ==> Irredundant(eq, Union(eq, lists))
  {
    if |lists| == 1 {
      var only := lists[0];
      forall x | x in only
        ensures Covered(eq, x, only)
      {
        var i :| 0 <= i < |only| && only[i] == x;
        assert eq(x, only[i]);
      }
    } else if |lists| > 1 {
      var n := |lists| - 1;
      var before := Union(eq, lists[..n]);
      UnionIsUnion(eq, lists[..n]);
      GrowCovers(eq, before, lists[n]);
      GrowExtends(eq, before, lists[n]);
      forall k, x | 0 <= k < |lists| && x in lists[k]
        ensures Covered(eq, x, Union(eq, lists))
      {
        if k < n {
          assert lists[..n][k] == lists[k];
          assert Covered(eq, x, before);
        }
      }
      forall y | y in Union(eq, lists)
        ensures exists k :: 0 <= k < |lists| && y in lists[k]
      {
        if y in before {
          var k :| 0 <= k < n && y in lists[..n][k];
          assert y in lists[k];
        } else {
          assert y in lists[n];
        }
      }
      if forall k :: 0 <= k < |lists| ==> Irredundant(eq, lists[k]) {
        assert forall k :: 0 <= k < n ==> Irredundant(eq, lists[..n][k]);
        GrowIrredundant(eq, before, lists[n]);
      }
    }
  }

  /** Two unions of the same lists, in any order and with any repetitions, agree up to Equals and order. */
  ghost predicate SameUpTo<T(!new)>(eq: (T, T) -> bool, a: seq<T>, b: seq<T>) {
    && (forall x :: x in a ==> Covered(eq, x, b))
    && (forall x :: x in b ==> Covered(eq, x, a))
  }

  lemma UnionOrderIrrelevant<T(!new)>(eq: (T, T) -> bool, lists: seq<seq<T>>, lists': seq<seq<T>>)
    requires Equivalence(eq)
    requires forall l :: l in lists <==> l in lists'
    ensures SameUpTo(eq, Union(eq, lists), Union(eq, lists'))
    ensures (forall l :: l in lists ==> Irredundant(eq, l)) ==> |Union(eq, lists)| == |Union(eq, lists')|
  {
    UnionIsUnion(eq, lists);
    UnionIsUnion(eq, lists');
    UnionWithin(eq, lists, lists');
    UnionWithin(eq, lists', lists);
    if forall l :: l in lists ==> Irredundant(eq, l) {
      assert forall k :: 0 <= k < |lists| ==> lists[k] in lists;
      assert forall k :: 0 <= k < |lists'| ==> lists'[k] in lists';
      MutualCoverSameLength(eq, Union(eq, lists), Union(eq, lists'));
      MutualCoverSameLength(eq, Union(eq, lists'), Union(eq, lists));
    }
  }

  lemma UnionWithin<T(!new)>(eq: (T, T) -> bool, lists: seq<seq<T>>, lists': seq<seq<T>>)
    requires IsUnion(eq, Union(eq, lists), lists) && IsUnion(eq, Union(eq, lists'), lists')
    requires forall l :: l in lists ==> l in lists'
    ensures forall x :: x in Union(eq, lists) ==> Covered(eq, x, Union(eq, lists'))
  {
    forall x | x in Union(eq, lists)
      ensures Covered(eq, x, Union(eq, lists'))
    {
      var k :| 0 <= k < |lists| && x in lists[k];
      assert lists[k] in lists;
      var k' :| 0 <= k' < |lists'| && lists'[k'] == lists[k];
    }
  }

  // ---------- The aggregate is a union, list by list ----------

  /** The containers of that name, in order. */
  function Named(containers: seq<ContainerProfile>, name: string): seq<ContainerProfile> {
    if containers == [] then []
    else
      var rest := Named(containers[..|containers| - 1], name);
      if containers[|containers| - 1].name == name then rest + [containers[|containers| - 1]] else rest
  }

  function Lists<T>(part: ContainerProfile -> seq<T>, containers: seq<ContainerProfile>): seq<seq<T>> {
    if containers == [] then []
    else Lists(part, containers[..|containers| - 1]) + [part(containers[|containers| - 1])]
  }

  function Execs(c: ContainerProfile): seq<ExecCalls> { c.execs }
  function Opens(c: ContainerProfile): seq<OpenCalls> { c.opens }
  function Dns(c: ContainerProfile): seq<DnsCalls> { c.dns }
  function CapabilitiesOf(c: ContainerProfile): seq<CapabilitiesCalls> { c.capabilities }
  function Syscalls(c: ContainerProfile): seq<string> { c.sysCalls }
  function Incoming(c: ContainerProfile): seq<NetworkCalls> { c.networkActivity.incoming }
  function Outgoing(c: ContainerProfile): seq<NetworkCalls> { c.networkActivity.outgoing }

  ghost predicate UnionOfParts(p: ContainerProfile, containers: seq<ContainerProfile>) {
    && p.execs == Union(ExecEquals, Lists(Execs, containers))
    && p.opens == Union(OpenEquals, Lists(Opens, containers))
    && p.dns == Union(DnsEquals, Lists(Dns, containers))
    && p.capabilities == Union(CapabilitiesEquals, Lists(CapabilitiesOf, containers))
    && p.sysCalls == Union(SyscallEquals, Lists(Syscalls, containers))
    && p.networkActivity.incoming == Union(NetworkEquals, Lists(Incoming, containers))
    && p.networkActivity.outgoing == Union(NetworkEquals, Lists(Outgoing, containers))
  }

  lemma UnionSnoc<T>(
    eq: (T, T) -> bool, part: ContainerProfile -> seq<T>, containers: seq<ContainerProfile>, last: ContainerProfile)
    ensures Union(eq, Lists(part, containers + [last]))
         == if containers == [] then part(last) else Grow(eq, Union(eq, Lists(part, containers)), part(last))
  {
    assert (containers + [last])[..|containers|] == containers;
    var lists := Lists(part, containers);
    assert (lists + [part(last)])[..|lists|] == lists;
    ListsLength(part, containers);
  }

  lemma {:induction false} ListsLength<T>(part: ContainerProfile -> seq<T>, containers: seq<ContainerProfile>)
    ensures |Lists(part, containers)| == |containers|
    ensures forall k :: 0 <= k < |containers| ==> Lists(part, containers)[k] == part(containers[k])
  {
    if containers != [] {
      ListsLength(part, containers[..|containers| - 1]);
    }
  }

  lemma {:induction false} AggregateIsUnion(containers: seq<ContainerProfile>, name: string)
    ensures name in Aggregated(containers) <==> Named(containers, name) != []
    ensures name in Aggregated(containers) ==>
              && Aggregated(containers)[name].name == name
              && UnionOfParts(Aggregated(containers)[name], Named(containers, name))
  {
    if containers != [] {
      var init, last := containers[..|containers| - 1], containers[|containers| - 1];
      AggregateIsUnion(init, name);
      if last.name == name {
        UnionPartsSnoc(Named(init, name), last);
      }
    }
  }

  lemma UnionPartsSnoc(containers: seq<ContainerProfile>, last: ContainerProfile)
    ensures containers == [] ==> UnionOfParts(last, containers + [last])
    ensures forall p :: containers != [] && UnionOfParts(p, containers)
                    ==> UnionOfParts(MergeContainer(p, last), containers + [last])
  {
    UnionSnoc(ExecEquals, Execs, containers, last);
    UnionSnoc(OpenEquals, Opens, containers, last);
    UnionSnoc(DnsEquals, Dns, containers, last);
    UnionSnoc(CapabilitiesEquals, CapabilitiesOf, containers, last);
    UnionSnoc(SyscallEquals, Syscalls, containers, last);
    UnionSnoc(NetworkEquals, Incoming, containers, last);
    UnionSnoc(NetworkEquals, Outgoing, containers, last);
  }

  lemma {:induction false} NamedMembers(containers: seq<ContainerProfile>, name: string)
    ensures forall c :: c in Named(containers, name) <==> c in containers && c.name == name
  {
    if containers != [] {
      NamedMembers(containers[..|containers| - 1], name);
    }
  }

  lemma {:induction false} FlattenMembers(pods: seq<seq<ContainerProfile>>)
    ensures forall c :: c in Flatten(pods) <==> exists i :: 0 <= i < |pods| && c in pods[i]
  {
    if pods != [] {
      var n := |pods| - 1;
      FlattenMembers(pods[..n]);
      forall c
        ensures c in Flatten(pods) <==> exists i :: 0 <= i < |pods| && c in pods[i]
      {
        if c in Flatten(pods[..n]) {
          var i :| 0 <= i < n && c in pods[..n][i];
          assert c in pods[i];
        }
        if i :| 0 <= i < |pods| && c in pods[i] && i < n {
          assert c in pods[..n][i];
        }
      }
    }
  }

  /** The two profiles agree up to Equals and order in every list. */
  ghost predicate SameProfile(a: ContainerProfile, b: ContainerProfile) {
    && a.name == b.name
    && SameUpTo(ExecEquals, a.execs, b.execs)
    && SameUpTo(OpenEquals, a.opens, b.opens)
    && SameUpTo(DnsEquals, a.dns, b.dns)
    && SameUpTo(CapabilitiesEquals, a.capabilities, b.capabilities)
    && SameUpTo(SyscallEquals, a.sysCalls, b.sysCalls)
    && SameUpTo(NetworkEquals, a.networkActivity.incoming, b.networkActivity.incoming)
    && SameUpTo(NetworkEquals, a.networkActivity.outgoing, b.networkActivity.outgoing)
  }

  /**
   Every entry of every input container of that name has a representative, and every output entry is an input entry.
   */
  ghost predicate RepresentsExactly(p: ContainerProfile, containers: seq<ContainerProfile>) {
    && IsUnion(ExecEquals, p.execs, Lists(Execs, containers))
    && IsUnion(OpenEquals, p.opens, Lists(Opens, containers))
    && IsUnion(DnsEquals, p.dns, Lists(Dns, containers))
    && IsUnion(CapabilitiesEquals, p.capabilities, Lists(CapabilitiesOf, containers))
    && IsUnion(SyscallEquals, p.sysCalls, Lists(Syscalls, containers))
    && IsUnion(NetworkEquals, p.networkActivity.incoming, Lists(Incoming, containers))
    && IsUnion(NetworkEquals, p.networkActivity.outgoing, Lists(Outgoing, containers))
  }

  lemma AggregateRepresentsExactly(pods: seq<seq<ContainerProfile>>, name: string)
    ensures name in Aggregated(Flatten(pods)) <==> exists i, c :: 0 <= i < |pods| && c in pods[i] && c.name == name
    ensures name in Aggregated(Flatten(pods)) ==>
              RepresentsExactly(Aggregated(Flatten(pods))[name], Named(Flatten(pods), name))
  {
    var containers := Flatten(pods);
    var named := Named(containers, name);
    FlattenMembers(pods);
    NamedMembers(containers, name);
    AggregateIsUnion(containers, name);
    if named != [] {
      assert named[0] in named;
    }
    EqualsAreEquivalences();
    UnionIsUnion(ExecEquals, Lists(Execs, named));
    UnionIsUnion(OpenEquals, Lists(Opens, named));
    UnionIsUnion(DnsEquals, Lists(Dns, named));
    UnionIsUnion(CapabilitiesEquals, Lists(CapabilitiesOf, named));
    UnionIsUnion(SyscallEquals, Lists(Syscalls, named));
    UnionIsUnion(NetworkEquals, Lists(Incoming, named));
    UnionIsUnion(NetworkEquals, Lists(Outgoing, named));
  }

  // ---------- Multiplicities in a union ----------

  /** An entry is in the union as often as in the first list, or once if only later lists have it. */
  lemma {:induction false} UnionOccurrences<T(!new)>(eq: (T, T) -> bool, lists: seq<seq<T>>, x: T)
    requires Equivalence(eq) && lists != []
    ensures Occurrences(eq, x, Union(eq, lists))
         == if Covered(eq, x, lists[0]) then Occurrences(eq, x, lists[0])
            else if Covered(eq, x, Flatten(lists)) then 1 else 0
  {
    var init, last := lists[..|lists| - 1], lists[|lists| - 1];
    OccursIffCovered(eq, x, lists[0]);
    if init == [] {
      assert Flatten(init) == [] && Flatten(lists) == [] + last == last;
    } else {
      UnionOccurrences(eq, init, x);
      OccursIffCovered(eq, x, Union(eq, init));
      GrowOccurrences(eq, x, Union(eq, init), last);
      CoveredConcat(eq, x, Flatten(init), last);
      if Covered(eq, x, lists[0]) {
        FirstInFlatten(eq, init, x);
      }
    }
  }

  lemma {:induction false} FirstInFlatten<T>(eq: (T, T) -> bool, lists: seq<seq<T>>, x: T)
    requires lists != [] && Covered(eq, x, lists[0])
    ensures Covered(eq, x, Flatten(lists))
  {
    var init := lists[..|lists| - 1];
    CoveredConcat(eq, x, Flatten(init), lists[|lists| - 1]);
    if init != [] {
      FirstInFlatten(eq, init, x);
    }
  }

  /** How often an entry counts when the list is the first of a union. */
  function Repeats<T>(eq: (T, T) -> bool, x: T, first: seq<T>): nat { Max(1, Occurrences(eq, x, first)) }

  ghost predicate SameRepeats<T(!new)>(eq: (T, T) -> bool, first: seq<T>, first': seq<T>) {
    forall x :: Repeats(eq, x, first) == Repeats(eq, x, first')
  }

  /** Unions of the same lists agree, multiplicities included, exactly if their first lists repeat the same entries. */
  lemma UnionsAgreeIff<T(!new)>(eq: (T, T) -> bool, lists: seq<seq<T>>, lists': seq<seq<T>>)
    requires Equivalence(eq) && lists != [] && lists' != []
    requires forall x :: Covered(eq, x, Flatten(lists)) <==> Covered(eq, x, Flatten(lists'))
    ensures SameMultiplicities(eq, Union(eq, lists), Union(eq, lists')) <==> SameRepeats(eq, lists[0], lists'[0])
  {
    hide Union;
    forall x
      ensures Occurrences(eq, x, Union(eq, lists)) == Occurrences(eq, x, Union(eq, lists'))
         <==> Repeats(eq, x, lists[0]) == Repeats(eq, x, lists'[0])
    {
      UnionOccurrences(eq, lists, x);
      UnionOccurrences(eq, lists', x);
      OccursIffCovered(eq, x, lists[0]);
      OccursIffCovered(eq, x, lists'[0]);
      if Covered(eq, x, lists[0]) { FirstInFlatten(eq, lists, x); }
      if Covered(eq, x, lists'[0]) { FirstInFlatten(eq, lists', x); }
    }
  }

  /** The entries of a list beyond one per class. */
  function Surplus<T>(eq: (T, T) -> bool, xs: seq<T>): int { |xs| - |Grow(eq, [], xs)| }

  /** The union has one entry per class of its entries, plus the surplus of the first list. */
  lemma {:induction false} UnionLength<T(!new)>(eq: (T, T) -> bool, lists: seq<seq<T>>)
    requires Equivalence(eq) && lists != []
    ensures |Union(eq, lists)| == |Grow(eq, [], Flatten(lists))| + Surplus(eq, lists[0])
    ensures forall x :: Covered(eq, x, Union(eq, lists)) <==> Covered(eq, x, Grow(eq, [], Flatten(lists)))
  {
    var init, last := lists[..|lists| - 1], lists[|lists| - 1];
    if init == [] {
      assert Flatten(init) == [] && Flatten(lists) == [] + last == last;
      forall x
        ensures Covered(eq, x, last) <==> Covered(eq, x, Grow(eq, [], last))
      {
        GrowOccurrences(eq, x, [], last);
        OccursIffCovered(eq, x, Grow(eq, [], last));
      }
    } else {
      UnionLength(eq, init);
      GrowConcat(eq, [], Flatten(init), last);
      GrowthDependsOnCover(eq, Union(eq, init), Grow(eq, [], Flatten(init)), last);
    }
  }

  /** Unions of the same lists are equally long exactly if their first lists have the same surplus. */
  lemma UnionLengthsAgreeIff<T(!new)>(eq: (T, T) -> bool, lists: seq<seq<T>>, lists': seq<seq<T>>)
    requires Equivalence(eq) && lists != [] && lists' != []
    requires forall x :: Covered(eq, x, Flatten(lists)) <==> Covered(eq, x, Flatten(lists'))
    ensures |Union(eq, lists)| == |Union(eq, lists')| <==> Surplus(eq, lists[0]) == Surplus(eq, lists'[0])
  {
    UnionLength(eq, lists);
    UnionLength(eq, lists');
    var a, b := Grow(eq, [], Flatten(lists)), Grow(eq, [], Flatten(lists'));
    forall x
      ensures Occurrences(eq, x, a) == Occurrences(eq, x, b)
    {
      GrowOccurrences(eq, x, [], Flatten(lists));
      GrowOccurrences(eq, x, [], Flatten(lists'));
    }
    SameMultiplicitiesSameLength(eq, a, b);
  }

  lemma SameLists<T>(part: ContainerProfile -> seq<T>, a: seq<ContainerProfile>, b: seq<ContainerProfile>)
    requires forall c :: c in a <==> c in b
    ensures forall l :: l in Lists(part, a) <==> l in Lists(part, b)
  {
    ListsWithin(part, a, b);
    ListsWithin(part, b, a);
  }

  lemma ListsWithin<T>(part: ContainerProfile -> seq<T>, a: seq<ContainerProfile>, b: seq<ContainerProfile>)
    requires forall c :: c in a ==> c in b
    ensures forall l :: l in Lists(part, a) ==> l in Lists(part, b)
  {
    ListsLength(part, a);
    ListsLength(part, b);
    forall l | l in Lists(part, a)
      ensures l in Lists(part, b)
    {
      var k :| 0 <= k < |Lists(part, a)| && Lists(part, a)[k] == l;
      assert a[k] in a;
      var k' :| 0 <= k' < |b| && b[k'] == a[k];
      assert Lists(part, b)[k'] == l;
    }
  }

  lemma SamePart<T(!new)>(
    eq: (T, T) -> bool, part: ContainerProfile -> seq<T>, a: seq<ContainerProfile>, b: seq<ContainerProfile>)
    requires Equivalence(eq) && forall c :: c in a <==> c in b
    ensures SameUpTo(eq, Union(eq, Lists(part, a)), Union(eq, Lists(part, b)))
  {
    SameLists(part, a, b);
    UnionOrderIrrelevant(eq, Lists(part, a), Lists(part, b));
  }

  /** For one list of two outputs: when they agree with all multiplicities, and when they are equally long. */
  ghost predicate AgreesExactly<T(!new)>(
    eq: (T, T) -> bool, part: ContainerProfile -> seq<T>,
    p: ContainerProfile, p': ContainerProfile, first: ContainerProfile, first': ContainerProfile)
  {
    && (SameMultiplicities(eq, part(p), part(p')) <==> SameRepeats(eq, part(first), part(first')))
    && (|part(p)| == |part(p')| <==> Surplus(eq, part(first)) == Surplus(eq, part(first')))
  }

  lemma PartAgreesExactly<T(!new)>(
    eq: (T, T) -> bool, part: ContainerProfile -> seq<T>, a: seq<ContainerProfile>, b: seq<ContainerProfile>,
    p: ContainerProfile, p': ContainerProfile)
    requires Equivalence(eq) && a != [] && b != [] && forall c :: c in a <==> c in b
    requires part(p) == Union(eq, Lists(part, a)) && part(p') == Union(eq, Lists(part, b))
    ensures AgreesExactly(eq, part, p, p', a[0], b[0])
  {
    var lists, lists' := Lists(part, a), Lists(part, b);
    SameLists(part, a, b);
    ListsLength(part, a);
    ListsLength(part, b);
    forall x
      ensures Covered(eq, x, Flatten(lists)) <==> Covered(eq, x, Flatten(lists'))
    {
      FlattenCovers(eq, lists, x);
      FlattenCovers(eq, lists', x);
    }
    UnionsAgreeIff(eq, lists, lists');
    UnionLengthsAgreeIff(eq, lists, lists');
  }

  lemma {:induction false} FlattenCovers<T>(eq: (T, T) -> bool, lists: seq<seq<T>>, x: T)
    ensures Covered(eq, x, Flatten(lists)) <==> exists l :: l in lists && Covered(eq, x, l)
  {
    if lists != [] {
      var init, last := lists[..|lists| - 1], lists[|lists| - 1];
      FlattenCovers(eq, init, x);
      CoveredConcat(eq, x, Flatten(init), last);
      assert lists == init + [last];
      assert last in lists;
    }
  }

  /** Permuting the pods changes no name, and no list except for its order, its representatives and its repetitions. */
  lemma PodOrderIrrelevant(pods: seq<seq<ContainerProfile>>, pods': seq<seq<ContainerProfile>>, name: string)
    requires multiset(pods) == multiset(pods')
    ensures name in Aggregated(Flatten(pods)) <==> name in Aggregated(Flatten(pods'))
    ensures name in Aggregated(Flatten(pods)) ==>
              SameProfile(Aggregated(Flatten(pods))[name], Aggregated(Flatten(pods'))[name])
  {
    var a, b := Named(Flatten(pods), name), Named(Flatten(pods'), name);
    PermutedNamed(pods, pods', name);
    AggregateIsUnion(Flatten(pods), name);
    AggregateIsUnion(Flatten(pods'), name);
    EqualsAreEquivalences();
    SamePart(ExecEquals, Execs, a, b);
    SamePart(OpenEquals, Opens, a, b);
    SamePart(DnsEquals, Dns, a, b);
    SamePart(CapabilitiesEquals, CapabilitiesOf, a, b);
    SamePart(SyscallEquals, Syscalls, a, b);
    SamePart(NetworkEquals, Incoming, a, b);
    SamePart(NetworkEquals, Outgoing, a, b);
  }

  /** The seven lists of two outputs, given the first input containers of the two orders. */
  ghost predicate ProfilesAgreeExactly(
    p: ContainerProfile, p': ContainerProfile, first: ContainerProfile, first': ContainerProfile)
  {
    && AgreesExactly(ExecEquals, Execs, p, p', first, first')
    && AgreesExactly(OpenEquals, Opens, p, p', first, first')
    && AgreesExactly(DnsEquals, Dns, p, p', first, first')
    && AgreesExactly(CapabilitiesEquals, CapabilitiesOf, p, p', first, first')
    && AgreesExactly(SyscallEquals, Syscalls, p, p', first, first')
    && AgreesExactly(NetworkEquals, Incoming, p, p', first, first')
    && AgreesExactly(NetworkEquals, Outgoing, p, p', first, first')
  }

  /**
   Permuting the pods gives the same list up to Equals and order, multiplicities included, exactly if the
   first containers of that name in the two orders repeat the same entries.
   */
  lemma PodOrderIrrelevantIff(pods: seq<seq<ContainerProfile>>, pods': seq<seq<ContainerProfile>>, name: string)
    requires multiset(pods) == multiset(pods') && name in Aggregated(Flatten(pods))
    ensures name in Aggregated(Flatten(pods')) && Named(Flatten(pods), name) != [] && Named(Flatten(pods'), name) != []
    ensures ProfilesAgreeExactly(Aggregated(Flatten(pods))[name], Aggregated(Flatten(pods'))[name],
                                 Named(Flatten(pods), name)[0], Named(Flatten(pods'), name)[0])
  {
    hide AgreesExactly, Union, Lists;
    var a, b := Named(Flatten(pods), name), Named(Flatten(pods'), name);
    PermutedNamed(pods, pods', name);
    AggregateIsUnion(Flatten(pods), name);
    AggregateIsUnion(Flatten(pods'), name);
    EqualsAreEquivalences();
    var p, p' := Aggregated(Flatten(pods))[name], Aggregated(Flatten(pods'))[name];
    PartAgreesExactly(ExecEquals, Execs, a, b, p, p');
    PartAgreesExactly(OpenEquals, Opens, a, b, p, p');
    PartAgreesExactly(DnsEquals, Dns, a, b, p, p');
    PartAgreesExactly(CapabilitiesEquals, CapabilitiesOf, a, b, p, p');
    PartAgreesExactly(SyscallEquals, Syscalls, a, b, p, p');
    PartAgreesExactly(NetworkEquals, Incoming, a, b, p, p');
    PartAgreesExactly(NetworkEquals, Outgoing, a, b, p, p');
  }

  ghost predicate NothingTwice(c: ContainerProfile) {
    && Irredundant(ExecEquals, c.execs) && Irredundant(OpenEquals, c.opens) && Irredundant(DnsEquals, c.dns)
    && Irredundant(CapabilitiesEquals, c.capabilities) && Irredundant(SyscallEquals, c.sysCalls)
    && Irredundant(NetworkEquals, c.networkActivity.incoming) && Irredundant(NetworkEquals, c.networkActivity.outgoing)
  }

  ghost predicate SameMultisets(p: ContainerProfile, p': ContainerProfile) {
    && SameMultiplicities(ExecEquals, p.execs, p'.execs)
    && SameMultiplicities(OpenEquals, p.opens, p'.opens)
    && SameMultiplicities(DnsEquals, p.dns, p'.dns)
    && SameMultiplicities(CapabilitiesEquals, p.capabilities, p'.capabilities)
    && SameMultiplicities(SyscallEquals, p.sysCalls, p'.sysCalls)
    && SameMultiplicities(NetworkEquals, p.networkActivity.incoming, p'.networkActivity.incoming)
    && SameMultiplicities(NetworkEquals, p.networkActivity.outgoing, p'.networkActivity.outgoing)
  }

  lemma NoRepeats<T(!new)>(eq: (T, T) -> bool, first: seq<T>, first': seq<T>)
    requires Equivalence(eq) && Irredundant(eq, first) && Irredundant(eq, first')
    ensures SameRepeats(eq, first, first')
  {
    forall x
      ensures Repeats(eq, x, first) == Repeats(eq, x, first')
    {
      IrredundantOccurs(eq, x, first);
      IrredundantOccurs(eq, x, first');
    }
  }

  /**
   In particular, if no input container of that name repeats an entry, all seven lists agree up to Equals and order.
   */
  lemma PodOrderIrrelevantWithoutRepeats(
    pods: seq<seq<ContainerProfile>>, pods': seq<seq<ContainerProfile>>, name: string)
    requires multiset(pods) == multiset(pods') && name in Aggregated(Flatten(pods))
    requires forall c :: c in Flatten(pods) && c.name == name ==> NothingTwice(c)
    ensures name in Aggregated(Flatten(pods'))
    ensures SameMultisets(Aggregated(Flatten(pods))[name], Aggregated(Flatten(pods'))[name])
  {
    hide SameMultiplicities, SameRepeats, Irredundant, Aggregated;
    PodOrderIrrelevantIff(pods, pods', name);
    PermutedNamed(pods, pods', name);
    NamedMembers(Flatten(pods), name);
    NamedMembers(Flatten(pods'), name);
    EqualsAreEquivalences();
    var first, first' := Named(Flatten(pods), name)[0], Named(Flatten(pods'), name)[0];
    assert first in Named(Flatten(pods), name) && first' in Named(Flatten(pods'), name);
    NoRepeats(ExecEquals, first.execs, first'.execs);
    NoRepeats(OpenEquals, first.opens, first'.opens);
    NoRepeats(DnsEquals, first.dns, first'.dns);
    NoRepeats(CapabilitiesEquals, first.capabilities, first'.capabilities);
    NoRepeats(SyscallEquals, first.sysCalls, first'.sysCalls);
    NoRepeats(NetworkEquals, first.networkActivity.incoming, first'.networkActivity.incoming);
    NoRepeats(NetworkEquals, first.networkActivity.outgoing, first'.networkActivity.outgoing);
  }

  /** The pods' order shows: one pod collected an exec without a path twice, the other once. */
  lemma PodOrderShows(config: Config, name: string, e: ExecveEvent)
    requires e.pathName == ""
    ensures var twice := ProfileAlgebra.CollectProfile(config, [], name, ExecsOnly([e, e]));
            var once := ProfileAlgebra.CollectProfile(config, [], name, ExecsOnly([e]));
            && Aggregated(Flatten([[twice], [once]])).Keys == Aggregated(Flatten([[once], [twice]])).Keys == {name}
            && |Aggregated(Flatten([[twice], [once]]))[name].execs| == 2
            && |Aggregated(Flatten([[once], [twice]]))[name].execs| == 1
  {
    hide Aggregated, Flatten, Grow, ProfileAlgebra.CollectExecs, ProfileAlgebra.CollectOpens;
    var twice := ProfileAlgebra.CollectProfile(config, [], name, ExecsOnly([e, e]));
    var once := ProfileAlgebra.CollectProfile(config, [], name, ExecsOnly([e]));
    var x := ExecCalls("", e.upperLayer, e.args, e.env);
    CollectedTwice(e, x);
    MergedOnce(x);
    TwoPods(twice, once);
    TwoPods(once, twice);
    assert twice.execs == [x, x] && once.execs == [x];
    assert MergeContainer(twice, once).execs == [x, x] && MergeContainer(once, twice).execs == [x];
  }

  lemma MergedOnce(x: ExecCalls)
    ensures Grow(ExecEquals, [x, x], [x]) == [x, x] && Grow(ExecEquals, [x], [x, x]) == [x]
  {
    assert [x, x][..1] == [x] && [x][..0] == [];
    assert ExecEquals(x, [x][0]) && ExecEquals(x, [x, x][0]);
    assert Covered(ExecEquals, x, [x]) && Covered(ExecEquals, x, [x, x]);
    assert Grow(ExecEquals, [x], [x]) == [x];
  }

  function ExecsOnly(events: seq<ExecveEvent>): TotalEvents { TotalEvents(events, [], [], [], [], []) }

  lemma CollectedTwice(e: ExecveEvent, x: ExecCalls)
    requires e.pathName == "" && ProfileAlgebra.ExecCall(e) == Some(x)
    ensures ProfileAlgebra.CollectExecs([e, e]) == [x, x] && ProfileAlgebra.CollectExecs([e]) == [x]
  {
    var f := ProfileAlgebra.ExecCall;
    assert [e, e][..1] == [e] && [e][..0] == [];
    assert Select(f, [e]) == [x];
    assert Select(f, [e, e]) == [x] + [x] == [x, x];
    assert [x, x][..1] == [x] && [x][..0] == [];
    var sub := ProfileAlgebra.SameNamedExec;
    assert !Covered(sub, x, []) && !Covered(sub, x, [x]);
    assert Grow(sub, [], [x]) == Add(sub, [], x) == [] + [x] == [x];
    assert Grow(sub, [], [x, x]) == Add(sub, [x], x) == [x, x];
  }

  lemma TwoPods(a: ContainerProfile, b: ContainerProfile)
    requires a.name == b.name
    ensures Aggregated(Flatten([[a], [b]])) == map[a.name := MergeContainer(a, b)]
  {
    hide MergeContainer;
    assert [[a], [b]][..1] == [[a]] && [[a]][..0] == [];
    assert Flatten([[a]]) == [] + [a] == [a] && Flatten([[a], [b]]) == [a] + [b] == [a, b];
    assert [a, b][..1] == [a] && [a][..0] == [];
    assert Aggregated([a]) == map[a.name := a];
  }

  lemma PermutedNamed(pods: seq<seq<ContainerProfile>>, pods': seq<seq<ContainerProfile>>, name: string)
    requires multiset(pods) == multiset(pods')
    ensures forall c :: c in Flatten(pods) <==> c in Flatten(pods')
    ensures forall c :: c in Named(Flatten(pods), name) <==> c in Named(Flatten(pods'), name)
    ensures Named(Flatten(pods), name) == [] <==> Named(Flatten(pods'), name) == []
  {
    PermutedFlatten(pods, pods');
    PermutedFlatten(pods', pods);
    NamedMembers(Flatten(pods), name);
    NamedMembers(Flatten(pods'), name);
    var a, b := Named(Flatten(pods), name), Named(Flatten(pods'), name);
    if a != [] { assert a[0] in b; }
    if b != [] { assert b[0] in a; }
  }

  lemma PermutedFlatten(pods: seq<seq<ContainerProfile>>, pods': seq<seq<ContainerProfile>>)
    requires multiset(pods) == multiset(pods')
    ensures forall c :: c in Flatten(pods) ==> c in Flatten(pods')
  {
    FlattenMembers(pods);
    FlattenMembers(pods');
    forall c | c in Flatten(pods)
      ensures c in Flatten(pods')
    {
      var i :| 0 <= i < |pods| && c in pods[i];
      assert pods[i] in multiset(pods');
      var j :| 0 <= j < |pods'| && pods'[j] == pods[i];
    }
  }

  // ---------- The loops ----------

  /** The seven inner loops have this shape; `contains` is the flag variable. */
  method AppendMissing<T(!new)>(eq: (T, T) -> bool, stored: seq<T>, added: seq<T>) returns (merged: seq<T>)
    requires Symmetric(eq)
    ensures merged == Grow(eq, stored, added)
  {
    merged := stored;
    for i := 0 to |added|
      invariant merged == Grow(eq, stored, added[..i])
    {
      assert added[..i + 1][..i] == added[..i];
      var contains := false;
      for j := 0 to |merged|
        invariant !contains && forall k :: 0 <= k < j ==> !eq(added[i], merged[k])
      {
        if eq(merged[j], added[i]) {
          contains := true;
          break;
        }
      }
      if !contains {
        merged := merged + [added[i]];
      }
    }
    assert added[..|added|] == added;
  }

  method Merge(mapContainer: ContainerProfile, container: ContainerProfile) returns (merged: ContainerProfile)
    ensures merged == MergeContainer(mapContainer, container)
  {
    EqualsAreEquivalences();
    var sysCalls := AppendMissing(SyscallEquals, mapContainer.sysCalls, container.sysCalls);
    var execs := AppendMissing(ExecEquals, mapContainer.execs, container.execs);
    var capabilities := AppendMissing(CapabilitiesEquals, mapContainer.capabilities, container.capabilities);
    var opens := AppendMissing(OpenEquals, mapContainer.opens, container.opens);
    var dns := AppendMissing(DnsEquals, mapContainer.dns, container.dns);
    var incoming :=
      AppendMissing(NetworkEquals, mapContainer.networkActivity.incoming, container.networkActivity.incoming);
    var outgoing :=
      AppendMissing(NetworkEquals, mapContainer.networkActivity.outgoing, container.networkActivity.outgoing);
    merged := mapContainer.(sysCalls := sysCalls, execs := execs, capabilities := capabilities, opens := opens,
                            dns := dns, networkActivity := NetworkActivity(incoming, outgoing));
  }

  lemma AggregatedSnoc(containers: seq<ContainerProfile>, last: ContainerProfile)
    ensures Aggregated(containers + [last]) == AddContainer(Aggregated(containers), last)
  {
    hide MergeContainer, AddContainer;
    assert (containers + [last])[..|containers|] == containers;
  }

  /** The loop over one pod's containers. */
  method AddPod(
    containersMap: map<string, ContainerProfile>, containers: seq<ContainerProfile>,
    ghost before: seq<ContainerProfile>)
    returns (merged: map<string, ContainerProfile>)
    requires containersMap == Aggregated(before)
    ensures merged == Aggregated(before + containers)
  {
    hide Aggregated, MergeContainer;
    merged := containersMap;
    assert before + containers[..0] == before;
    for i := 0 to |containers|
      invariant merged == Aggregated(before + containers[..i])
    {
      assert before + containers[..i + 1] == before + containers[..i] + [containers[i]];
      AggregatedSnoc(before + containers[..i], containers[i]);
      var container := containers[i];
      if container.name in merged {
        var mapContainer := Merge(merged[container.name], container);
        merged := merged[container.name := mapContainer];
      } else {
        merged := merged[container.name := container];
      }
    }
    assert containers[..|containers|] == containers;
  }

  method Aggregate(pods: seq<seq<ContainerProfile>>) returns (containersMap: map<string, ContainerProfile>)
    ensures containersMap == Aggregated(Flatten(pods))
  {
    containersMap := map[];
    for n := 0 to |pods|
      invariant containersMap == Aggregated(Flatten(pods[..n]))
    {
      assert pods[..n + 1][..n] == pods[..n];
      containersMap := AddPod(containersMap, pods[n], Flatten(pods[..n]));
    }
    assert pods[..|pods|] == pods;
  }
}
