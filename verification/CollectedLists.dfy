/**
 What one collection keeps of its events and one merge adds to a stored container, in terms of paths, flags,
 names and packet types.
 */
module CollectedLists {
  import opened Dedup
  import opened Sequences
  import opened ProfileTypes
  import opened ProfileAlgebra

  // ---------- Opens ----------

  predicate StartsWithOneOf(path: string, prefixes: seq<string>) {
    exists i :: 0 <= i < |prefixes| && |prefixes[i]| <= |path| && path[..|prefixes[i]|] == prefixes[i]
  }

  predicate Ignored(config: Config, mounts: seq<string>, path: string) {
    StartsWithOneOf(path, config.ignorePrefixes) || (config.ignoreMounts && StartsWithOneOf(path, mounts))
  }

  /** Some listed open has the path and every flag. */
  predicate HasPathAndFlags(opens: seq<OpenCalls>, path: string, flags: seq<string>) {
    exists i :: 0 <= i < |opens| && opens[i].path == path && forall f :: f in flags ==> f in opens[i].flags
  }

  lemma IgnoredIff(config: Config, mounts: seq<string>, path: string)
    ensures IsIgnored(config, mounts, path) <==> Ignored(config, mounts, path)
  {
  }

  lemma CoveredIff(o: OpenCalls, opens: seq<OpenCalls>)
    ensures Covered(OpenSubsumed, o, opens) <==> HasPathAndFlags(opens, o.path, o.flags)
  {
  }

  /** Collected opens come from events, are not ignored, and none has its path and flags in an earlier one. */
  lemma OpensAre(config: Config, mounts: seq<string>, events: seq<OpenEvent>)
    ensures var opens := CollectOpens(config, mounts, events);
            && |opens| <= 10001
            && (forall o :: o in opens ==> !Ignored(config, mounts, o.path))
            && (forall o :: o in opens ==> exists e :: e in events && o == OpenCalls(e.pathName, e.flags))
            && (forall i :: 0 <= i < |opens| ==> !HasPathAndFlags(opens[..i], opens[i].path, opens[i].flags))
  {
    hide CollectOpens, IsIgnored, Ignored;
    var opens := CollectOpens(config, mounts, events);
    CollectedOpens(config, mounts, events);
    forall o | o in opens
      ensures !Ignored(config, mounts, o.path) && exists e :: e in events && o == OpenCalls(e.pathName, e.flags)
    {
      IgnoredIff(config, mounts, o.path);
      var e :| e in events && OpenCall(e) == o;
      assert o == OpenCalls(e.pathName, e.flags);
    }
  }

  /** Within the cap every open that is not ignored has its path and flags in an open that is kept. */
  lemma OpensKept(config: Config, mounts: seq<string>, events: seq<OpenEvent>)
    ensures var opens := CollectOpens(config, mounts, events);
            |opens| <= 10000 ==> forall e :: e in events && !Ignored(config, mounts, e.pathName) ==>
                                   HasPathAndFlags(opens, e.pathName, e.flags)
  {
    hide GrowUpTo, Grow, Select, IsIgnored, Ignored, HasPathAndFlags, Covered;
    var f, opens := AdmittedEvent(config, mounts), CollectOpens(config, mounts, events);
    var calls := Select(f, events);
    GrowUpToIsCut(10001, OpenSubsumed, [], calls);
    RelationsAreOrders();
    GrowCovers(OpenSubsumed, [], calls);
    SelectIsImage(f, events);
    if |opens| <= 10000 {
      assert opens == Grow(OpenSubsumed, [], calls);
      forall e | e in events && !Ignored(config, mounts, e.pathName)
        ensures HasPathAndFlags(opens, e.pathName, e.flags)
      {
        IgnoredIff(config, mounts, e.pathName);
        var i :| 0 <= i < |events| && events[i] == e;
        assert f(events[i]) == Some(OpenCall(e));
        assert OpenCall(e) in calls;
        CoveredIff(OpenCall(e), opens);
      }
    }
  }

  /** A merge into a list within the cap appends exactly the opens that are neither ignored nor listed already. */
  lemma OpensMerged(config: Config, mounts: seq<string>, stored: seq<OpenCalls>, added: seq<OpenCalls>)
    ensures var merged := MergeOpens(config, mounts, stored, added);
            && stored <= merged
            && (|stored| > 10000 ==> merged == stored)
            && (|stored| <= 10000 ==>
                  forall o ::
                    o in merged[|stored|..]
                    <==> o in added && !Ignored(config, mounts, o.path) && !HasPathAndFlags(stored, o.path, o.flags))
  {
    hide Uncovered, Select;
    var f := AdmittedOpen(config, mounts);
    UncoveredMembers(OpenSubsumed, Select(f, added), stored);
    SelectIsImage(f, added);
    forall o
      ensures o in Select(f, added) <==> o in added && !Ignored(config, mounts, o.path)
      ensures Covered(OpenSubsumed, o, stored) <==> HasPathAndFlags(stored, o.path, o.flags)
    {
      IgnoredIff(config, mounts, o.path);
      CoveredIff(o, stored);
      if o in added && !Ignored(config, mounts, o.path) {
        var i :| 0 <= i < |added| && added[i] == o;
        assert f(added[i]) == Some(o);
      }
      if o in Select(f, added) {
        var i :| 0 <= i < |added| && f(added[i]) == Some(o);
        assert added[i] == o;
      }
    }
  }

  // ---------- Execs ----------

  function ValueOf(e: ExecveEvent): ExecCalls { ExecCalls(e.pathName, e.upperLayer, e.args, e.env) }

  function Times(events: seq<ExecveEvent>, x: ExecCalls): nat {
    if events == [] then 0
    else Times(events[..|events| - 1], x) + if ValueOf(events[|events| - 1]) == x then 1 else 0
  }

  /** Every exec is kept: once if it has a path, as often as it occurred if it has none. */
  lemma {:induction false} ExecsKept(events: seq<ExecveEvent>, x: ExecCalls)
    ensures multiset(CollectExecs(events))[x]
         == if x.path == "" then Times(events, x) else if Times(events, x) > 0 then 1 else 0
  {
    if events != [] {
      var init, last := events[..|events| - 1], events[|events| - 1];
      ExecsKept(init, x);
      ExecsKept(init, ValueOf(last));
      var execs := CollectExecs(init);
      assert ExecCall(last) == Some(ValueOf(last));
      assert CollectExecs(events) == Add(SameNamedExec, execs, ValueOf(last));
      assert Covered(SameNamedExec, ValueOf(last), execs) <==> last.pathName != "" && ValueOf(last) in execs by {
        if last.pathName != "" && ValueOf(last) in execs {
          var k :| 0 <= k < |execs| && execs[k] == ValueOf(last);
          assert SameNamedExec(ValueOf(last), execs[k]);
        }
      }
    }
  }

  // ---------- DNS ----------

  predicate Named(dns: seq<DnsCalls>, name: string) {
    exists i :: 0 <= i < |dns| && dns[i].dnsName == name
  }

  lemma NamedIff(d: DnsCalls, dns: seq<DnsCalls>)
    ensures Covered(SameDnsName, d, dns) <==> Named(dns, d.dnsName)
  {
  }

  /** Event `i` is the first one of its name. */
  predicate FirstOfName(events: seq<DnsEvent>, i: nat)
    requires i < |events|
  {
    forall j :: 0 <= j < i ==> events[j].dnsName != events[i].dnsName
  }

  /** Every name is listed, once, with the addresses of its first event. */
  ghost predicate FirstOfEachName(events: seq<DnsEvent>, dns: seq<DnsCalls>) {
    && (forall i :: 0 <= i < |events| ==> Named(dns, events[i].dnsName))
    && (forall k :: 0 <= k < |dns| ==> IsFirst(events, dns[k]))
    && (forall k :: 0 <= k < |dns| ==> !Named(dns[..k], dns[k].dnsName))
  }

  predicate IsFirst(events: seq<DnsEvent>, d: DnsCalls) {
    exists i :: 0 <= i < |events| && FirstOfName(events, i) && d == DnsCalls(events[i].dnsName, events[i].addresses)
  }

  lemma FirstStays(events: seq<DnsEvent>, last: DnsEvent, d: DnsCalls)
    requires IsFirst(events, d)
    ensures IsFirst(events + [last], d)
  {
    var longer := events + [last];
    var i :| 0 <= i < |events| && FirstOfName(events, i) && d == DnsCalls(events[i].dnsName, events[i].addresses);
    assert longer[i] == events[i] && FirstOfName(longer, i);
  }

  lemma RepeatedName(events: seq<DnsEvent>, dns: seq<DnsCalls>, last: DnsEvent)
    requires FirstOfEachName(events, dns) && Named(dns, last.dnsName)
    ensures FirstOfEachName(events + [last], dns)
  {
    hide Named, IsFirst;
    forall k | 0 <= k < |dns|
      ensures IsFirst(events + [last], dns[k])
    {
      FirstStays(events, last, dns[k]);
    }
  }

  lemma NamedSnoc(dns: seq<DnsCalls>, d: DnsCalls, name: string)
    ensures Named(dns + [d], name) <==> Named(dns, name) || d.dnsName == name
  {
    var longer := dns + [d];
    if k :| 0 <= k < |dns| && dns[k].dnsName == name {
      assert longer[k].dnsName == name;
    }
    assert longer[|dns|] == d;
    if k :| 0 <= k < |longer| && longer[k].dnsName == name && k < |dns| {
      assert dns[k].dnsName == name;
    }
  }

  lemma NewName(events: seq<DnsEvent>, dns: seq<DnsCalls>, last: DnsEvent)
    requires FirstOfEachName(events, dns) && !Named(dns, last.dnsName)
    ensures FirstOfEachName(events + [last], dns + [DnsCalls(last.dnsName, last.addresses)])
  {
    hide Named;
    var d := DnsCalls(last.dnsName, last.addresses);
    var longer, listed := events + [last], dns + [d];
    forall i | 0 <= i < |longer|
      ensures Named(listed, longer[i].dnsName)
    {
      NamedSnoc(dns, d, longer[i].dnsName);
    }
    FirstIfUnnamed(events, last, dns);
    assert FirstOfName(longer, |events|);
    forall k | 0 <= k < |listed|
      ensures IsFirst(longer, listed[k])
    {
      if k < |dns| {
        FirstStays(events, last, dns[k]);
      }
    }
    forall k | 0 <= k < |listed|
      ensures !Named(listed[..k], listed[k].dnsName)
    {
      assert listed[..k] == dns[..k];
      assert dns[..|dns|] == dns;
    }
  }

  /** For every name the first event's addresses are kept, and only these. */
  lemma {:induction false} DnsKept(events: seq<DnsEvent>)
    ensures FirstOfEachName(events, CollectDns(events))
  {
    if events != [] {
      hide FirstOfEachName, Named;
      var init, last := events[..|events| - 1], events[|events| - 1];
      DnsKept(init);
      var before, d := CollectDns(init), DnsCalls(last.dnsName, last.addresses);
      assert DnsCall(last) == Some(d) && events == init + [last];
      NamedIff(d, before);
      if Named(before, last.dnsName) {
        RepeatedName(init, before, last);
      } else {
        NewName(init, before, last);
      }
    }
  }

  lemma FirstIfUnnamed(events: seq<DnsEvent>, last: DnsEvent, dns: seq<DnsCalls>)
    requires (forall i :: 0 <= i < |events| ==> Named(dns, events[i].dnsName)) && !Named(dns, last.dnsName)
    ensures forall j :: 0 <= j < |events| ==> events[j].dnsName != last.dnsName
  {
    hide Named;
  }

  // ---------- Connections ----------

  /** The packets of the type are kept, once per protocol, port and endpoint. */
  lemma ConnectionsKept(events: seq<NetworkEvent>, n: NetworkCalls)
    ensures multiset(CollectIncoming(events))[n] == if Connects(events, "HOST", n) then 1 else 0
    ensures multiset(CollectOutgoing(events))[n] == if Connects(events, "OUTGOING", n) then 1 else 0
  {
    hide Grow, Select;
    OncePerConnection(Select(IncomingCall, events), n);
    OncePerConnection(Select(OutgoingCall, events), n);
    SelectIsImage(IncomingCall, events);
    SelectIsImage(OutgoingCall, events);
    assert n in Select(IncomingCall, events) <==> Connects(events, "HOST", n) by {
      if i :| 0 <= i < |events| && events[i].packetType == "HOST" && CallOf(events[i]) == n {
        assert IncomingCall(events[i]) == Some(n);
      }
      if n in Select(IncomingCall, events) {
        var i :| 0 <= i < |events| && IncomingCall(events[i]) == Some(n);
        assert events[i].packetType == "HOST" && CallOf(events[i]) == n;
      }
    }
    assert n in Select(OutgoingCall, events) <==> Connects(events, "OUTGOING", n) by {
      if i :| 0 <= i < |events| && events[i].packetType == "OUTGOING" && CallOf(events[i]) == n {
        assert OutgoingCall(events[i]) == Some(n);
      }
      if n in Select(OutgoingCall, events) {
        var i :| 0 <= i < |events| && OutgoingCall(events[i]) == Some(n);
        assert events[i].packetType == "OUTGOING" && CallOf(events[i]) == n;
      }
    }
  }

  function CallOf(e: NetworkEvent): NetworkCalls { NetworkCalls(e.protocol, e.port, e.dstEndpoint) }

  predicate Connects(events: seq<NetworkEvent>, packetType: string, n: NetworkCalls) {
    exists i :: 0 <= i < |events| && events[i].packetType == packetType && CallOf(events[i]) == n
  }

  lemma {:induction false} OncePerConnection(calls: seq<NetworkCalls>, n: NetworkCalls)
    ensures multiset(Grow(SameConnection, [], calls))[n] == if n in calls then 1 else 0
  {
    if calls != [] {
      var init, last := calls[..|calls| - 1], calls[|calls| - 1];
      OncePerConnection(init, n);
      OncePerConnection(init, last);
      var g := Grow(SameConnection, [], init);
      assert Covered(SameConnection, last, g) <==> last in g by {
        if last in g {
          var k :| 0 <= k < |g| && g[k] == last;
          assert SameConnection(last, g[k]);
        }
      }
    }
  }

  // ---------- One merge ----------

  /** What a merge leaves in every list but the opens and the capabilities. */
  lemma ListsMerged(config: Config, mounts: seq<string>, stored: ContainerProfile, added: ContainerProfile)
    ensures var merged := MergeProfile(config, mounts, stored, added);
            && (forall x :: x in merged.execs <==> x in stored.execs || x in added.execs)
            && (forall d :: d in merged.dns <==> d in stored.dns || (d in added.dns && !Named(stored.dns, d.dnsName)))
            && (forall s :: s in merged.sysCalls <==> s in stored.sysCalls || s in added.sysCalls)
            && ConnectionsMerged(
                 stored.networkActivity.incoming, added.networkActivity.incoming, merged.networkActivity.incoming)
            && ConnectionsMerged(
                 stored.networkActivity.outgoing, added.networkActivity.outgoing, merged.networkActivity.outgoing)
  {
    hide Uncovered, MergeConnections, Covered;
    UncoveredMembers(SameExec, added.execs, stored.execs);
    UncoveredMembers(SameDnsName, added.dns, stored.dns);
    UncoveredMembers(SameSyscall, added.sysCalls, stored.sysCalls);
    forall x
      ensures Covered(SameExec, x, stored.execs) <==> x in stored.execs
    {
      SameIsMember(SameExec, x, stored.execs);
    }
    forall s
      ensures Covered(SameSyscall, s, stored.sysCalls) <==> s in stored.sysCalls
    {
      SameIsMember(SameSyscall, s, stored.sysCalls);
    }
    forall d
      ensures Covered(SameDnsName, d, stored.dns) <==> Named(stored.dns, d.dnsName)
    {
      NamedIff(d, stored.dns);
    }
    MergedConnections(stored.networkActivity.incoming, added.networkActivity.incoming);
    MergedConnections(stored.networkActivity.outgoing, added.networkActivity.outgoing);
  }

  lemma SameIsMember<T(!new)>(same: (T, T) -> bool, x: T, xs: seq<T>)
    requires forall a, b {:trigger same(a, b)} :: same(a, b) <==> a == b
    ensures Covered(same, x, xs) <==> x in xs
  {
    if x in xs {
      var k :| 0 <= k < |xs| && xs[k] == x;
      assert same(x, xs[k]);
    }
    if k :| 0 <= k < |xs| && same(x, xs[k]) {
      assert xs[k] == x;
    }
  }

  /** A union as long as it stays below 10000; above, nothing is added. */
  ghost predicate ConnectionsMerged(stored: seq<NetworkCalls>, added: seq<NetworkCalls>, merged: seq<NetworkCalls>) {
    && stored <= merged
    && (forall n :: n in merged ==> n in stored || n in added)
    && (|merged| < 10000 ==> forall n :: n in added ==> n in merged)
    && (|stored| >= 10000 ==> merged == stored)
    && |merged| <= Max(|stored|, 10000)
  }

  lemma {:induction false} MergedConnections(stored: seq<NetworkCalls>, added: seq<NetworkCalls>)
    ensures ConnectionsMerged(stored, added, MergeConnections(stored, added))
  {
    if added != [] {
      var init, last := added[..|added| - 1], added[|added| - 1];
      MergedConnections(stored, init);
      SameIsMember(SameConnection, last, MergeConnections(stored, init));
    }
  }
}
