/** Starting and stopping the tracing of a container: reference counts kept in step with the kernel's filter maps. */
module ContainerTracing {
  import opened ProfileTypes

  /** Which control a tracing state offers; `StartTraceContainer` tests them in this order. */
  datatype Control = Gadget | Attachable | Neither

  /** `wiring` says what each event type offers; a type that was never set up offers nothing. */
  type Wiring = map<EventType, Control>

  datatype Slot = Slot(eventType: EventType, mntns: nat)

  /** A missing reference count reads as 0; a missing filter entry is no entry. */
  datatype Counters = Counters(refs: map<Slot, int>, filters: map<Slot, nat>)

  datatype AttachCall = Attach(eventType: EventType, pid: nat) | Detach(eventType: EventType, pid: nat)

  const ALL_TRACED: seq<EventType> :=
    [NetworkEventType, DnsEventType, ExecveEventType, CapabilitiesEventType, OpenEventType]

  function TypesOf(eventType: EventType): seq<EventType> {
    if eventType == AllEventType then ALL_TRACED else [eventType]
  }

  function ControlOf(wiring: Wiring, t: EventType): Control {
    if t in wiring then wiring[t] else Neither
  }

  function Ref(c: Counters, slot: Slot): int {
    if slot in c.refs then c.refs[slot] else 0
  }

  function StartOne(c: Counters, slot: Slot): Counters {
    Counters(c.refs[slot := Ref(c, slot) + 1], c.filters[slot := 1])
  }

  function StopOne(c: Counters, slot: Slot): Counters {
    if Ref(c, slot) == 0 then c
    else Counters(c.refs[slot := Ref(c, slot) - 1], if Ref(c, slot) == 1 then c.filters[slot := 0] else c.filters)
  }

  datatype Op = Op(start: bool, mntns: nat, eventType: EventType)

  /** Process the event types in order, up to the first that cannot be traced. */
  function Process(wiring: Wiring, c: Counters, types: seq<EventType>, start: bool, mntns: nat): Counters
    decreases |types|
  {
    if types == [] || ControlOf(wiring, types[0]) == Neither then c
    else Process(wiring, ProcessOne(wiring, c, types[0], start, mntns), types[1..], start, mntns)
  }

  function ProcessOne(wiring: Wiring, c: Counters, t: EventType, start: bool, mntns: nat): Counters {
    if ControlOf(wiring, t) != Gadget then c
    else if start then StartOne(c, Slot(t, mntns)) else StopOne(c, Slot(t, mntns))
  }

  /** The Attach or Detach calls of one request: one per attachable type, up to the first untraceable one. */
  function Attachments(wiring: Wiring, types: seq<EventType>, pid: nat, start: bool): seq<AttachCall> {
    if types == [] || ControlOf(wiring, types[0]) == Neither then []
    else AttachmentOf(wiring, types[0], pid, start) + Attachments(wiring, types[1..], pid, start)
  }

  function AttachmentOf(wiring: Wiring, t: EventType, pid: nat, start: bool): seq<AttachCall> {
    if ControlOf(wiring, t) != Attachable then [] else if start then [Attach(t, pid)] else [Detach(t, pid)]
  }

  predicate Succeeds(wiring: Wiring, types: seq<EventType>) {
    forall i :: 0 <= i < |types| ==> ControlOf(wiring, types[i]) != Neither
  }

  function Apply(wiring: Wiring, c: Counters, op: Op): Counters {
    Process(wiring, c, TypesOf(op.eventType), op.start, op.mntns)
  }

  function After(wiring: Wiring, ops: seq<Op>): Counters {
    if ops == [] then Counters(map[], map[])
    else Apply(wiring, After(wiring, ops[..|ops| - 1]), ops[|ops| - 1])
  }

  // ---------- The closed form ----------

  /** The call gets as far as `t`: it covers `t`, and every type before it can be traced. */
  predicate Reaches(wiring: Wiring, types: seq<EventType>, t: EventType) {
    exists i :: 0 <= i < |types| && types[i] == t && forall j :: 0 <= j <= i ==> ControlOf(wiring, types[j]) != Neither
  }

  predicate Counts(wiring: Wiring, op: Op, slot: Slot) {
    op.mntns == slot.mntns && Reaches(wiring, TypesOf(op.eventType), slot.eventType)
  }

  /** Starts minus stops. */
  function Balance(wiring: Wiring, ops: seq<Op>, slot: Slot): int {
    if ops == [] then 0
    else
      Balance(wiring, ops[..|ops| - 1], slot)
      + if !Counts(wiring, ops[|ops| - 1], slot) then 0 else if ops[|ops| - 1].start then 1 else -1
  }

  /** The least balance of any prefix, the empty one included. */
  function Lowest(wiring: Wiring, ops: seq<Op>, slot: Slot): (low: int)
    ensures low <= 0 && low <= Balance(wiring, ops, slot)
  {
    if ops == [] then 0
    else
      var low := Lowest(wiring, ops[..|ops| - 1], slot);
      if Balance(wiring, ops, slot) < low then Balance(wiring, ops, slot) else low
  }

  lemma {:induction false} LowestIsMinimum(wiring: Wiring, ops: seq<Op>, slot: Slot)
    ensures forall k :: 0 <= k <= |ops| ==> Lowest(wiring, ops, slot) <= Balance(wiring, ops[..k], slot)
    ensures exists k :: 0 <= k <= |ops| && Lowest(wiring, ops, slot) == Balance(wiring, ops[..k], slot)
  {
    assert ops[..|ops|] == ops;
    if ops == [] {
      assert Balance(wiring, ops[..0], slot) == 0;
    } else {
      var init := ops[..|ops| - 1];
      LowestIsMinimum(wiring, init, slot);
      assert forall k :: 0 <= k <= |init| ==> init[..k] == ops[..k];
      var k :| 0 <= k <= |init| && Lowest(wiring, init, slot) == Balance(wiring, init[..k], slot);
      assert Balance(wiring, ops[..k], slot) == Lowest(wiring, init, slot);
    }
  }

  /** A call changes the slot of a gadget it reaches once, and no other slot. */
  lemma {:induction false} ProcessSlot(
    wiring: Wiring, c: Counters, types: seq<EventType>, start: bool, mntns: nat, slot: Slot)
    requires forall i, j :: 0 <= i < j < |types| ==> types[i] != types[j]
    requires ControlOf(wiring, slot.eventType) == Gadget
    ensures var c' := Process(wiring, c, types, start, mntns);
            var reached := mntns == slot.mntns && Reaches(wiring, types, slot.eventType);
            var one := if !reached then c else if start then StartOne(c, slot) else StopOne(c, slot);
            && Ref(c', slot) == Ref(one, slot)
            && (slot in c'.filters <==> slot in one.filters)
            && (slot in c'.filters ==> c'.filters[slot] == one.filters[slot])
    decreases |types|
  {
    if types != [] && ControlOf(wiring, types[0]) != Neither {
      ProcessSlot(wiring, ProcessOne(wiring, c, types[0], start, mntns), types[1..], start, mntns, slot);
      ReachesStep(wiring, types, slot.eventType);
    }
  }

  lemma ReachesStep(wiring: Wiring, types: seq<EventType>, t: EventType)
    requires types != [] && ControlOf(wiring, types[0]) != Neither
    requires forall i, j :: 0 <= i < j < |types| ==> types[i] != types[j]
    ensures Reaches(wiring, types, t) <==> types[0] == t || Reaches(wiring, types[1..], t)
    ensures types[0] == t ==> !Reaches(wiring, types[1..], t)
  {
    if i :| 0 <= i < |types| && types[i] == t && i > 0
            && forall j :: 0 <= j <= i ==> ControlOf(wiring, types[j]) != Neither
    {
      assert types[1..][i - 1] == t;
      assert forall j :: 0 <= j <= i - 1 ==> ControlOf(wiring, types[1..][j]) != Neither;
    }
    if i :| && 0 <= i < |types[1..]| && types[1..][i] == t
            && (forall j :: 0 <= j <= i ==> ControlOf(wiring, types[1..][j]) != Neither) {
      assert types[i + 1] == t;
      forall j | 0 <= j <= i + 1
        ensures ControlOf(wiring, types[j]) != Neither
      {
        if j > 0 { assert types[1..][j - 1] == types[j]; }
      }
    }
  }

  /** The count of a gadget's slot is the balance lifted by its lowest point, and the filter entry follows it. */
  lemma {:induction false} CountIsLiftedBalance(wiring: Wiring, ops: seq<Op>, slot: Slot)
    requires ControlOf(wiring, slot.eventType) == Gadget
    ensures Ref(After(wiring, ops), slot) == Balance(wiring, ops, slot) - Lowest(wiring, ops, slot) >= 0
    ensures var filters := After(wiring, ops).filters;
            && (slot in filters && filters[slot] == 1 <==> Ref(After(wiring, ops), slot) > 0)
            && (slot in filters ==> filters[slot] <= 1)
  {
    hide Reaches, Process, ProcessOne;
    if ops != [] {
      var init, op := ops[..|ops| - 1], ops[|ops| - 1];
      CountIsLiftedBalance(wiring, init, slot);
      ProcessSlot(wiring, After(wiring, init), TypesOf(op.eventType), op.start, op.mntns, slot);
    }
  }

  /** Once started, a namespace keeps its entry in the filter map: stopping writes 0 and deletes nothing. */
  lemma {:induction false} EntryStays(wiring: Wiring, ops: seq<Op>, slot: Slot)
    requires ControlOf(wiring, slot.eventType) == Gadget
    ensures slot in After(wiring, ops).filters
       <==> exists k :: 0 <= k < |ops| && ops[k].start && Counts(wiring, ops[k], slot)
  {
    hide Reaches, Process, ProcessOne, Balance, Lowest;
    if ops != [] {
      var n := |ops| - 1;
      var init, op := ops[..n], ops[n];
      EntryStays(wiring, init, slot);
      CountIsLiftedBalance(wiring, init, slot);
      ProcessSlot(wiring, After(wiring, init), TypesOf(op.eventType), op.start, op.mntns, slot);
      assert forall k :: 0 <= k < n ==> init[k] == ops[k];
      if k :| 0 <= k < |ops| && ops[k].start && Counts(wiring, ops[k], slot) && k < n {
        assert init[k].start && Counts(wiring, init[k], slot);
      }
    }
  }

  /** Used only through AllEventType, the three gadgets of that list have equal counts at all times. */
  lemma {:induction false} AllKeepsCountsEqual(wiring: Wiring, ops: seq<Op>, mntns: nat)
    requires forall op :: op in ops ==> op.eventType == AllEventType
    requires ControlOf(wiring, ExecveEventType) == ControlOf(wiring, CapabilitiesEventType)
        == ControlOf(wiring, OpenEventType) == Gadget
    ensures var c := After(wiring, ops);
            Ref(c, Slot(ExecveEventType, mntns)) == Ref(c, Slot(CapabilitiesEventType, mntns))
                == Ref(c, Slot(OpenEventType, mntns))
  {
    hide Process, Reaches;
    if ops != [] {
      var init, op := ops[..|ops| - 1], ops[|ops| - 1];
      assert op in ops;
      AllKeepsCountsEqual(wiring, init, mntns);
      var c := After(wiring, init);
      AllReachesTogether(wiring);
      ProcessSlot(wiring, c, ALL_TRACED, op.start, op.mntns, Slot(ExecveEventType, mntns));
      ProcessSlot(wiring, c, ALL_TRACED, op.start, op.mntns, Slot(CapabilitiesEventType, mntns));
      ProcessSlot(wiring, c, ALL_TRACED, op.start, op.mntns, Slot(OpenEventType, mntns));
    }
  }

  lemma AllReachesTogether(wiring: Wiring)
    requires ControlOf(wiring, ExecveEventType) == ControlOf(wiring, CapabilitiesEventType)
        == ControlOf(wiring, OpenEventType) == Gadget
    ensures Reaches(wiring, ALL_TRACED, ExecveEventType) <==> Reaches(wiring, ALL_TRACED, CapabilitiesEventType)
    ensures Reaches(wiring, ALL_TRACED, ExecveEventType) <==> Reaches(wiring, ALL_TRACED, OpenEventType)
  {
    var traceable := ControlOf(wiring, NetworkEventType) != Neither && ControlOf(wiring, DnsEventType) != Neither;
    if traceable {
      assert ALL_TRACED[2] == ExecveEventType && ALL_TRACED[3] == CapabilitiesEventType
          && ALL_TRACED[4] == OpenEventType;
    } else {
      assert ALL_TRACED[0] == NetworkEventType && ALL_TRACED[1] == DnsEventType;
    }
  }

  // ---------- Attaching ----------

  /** The call that attaches or detaches one type. */
  function CallFor(t: EventType, pid: nat, start: bool): AttachCall {
    if start then Attach(t, pid) else Detach(t, pid)
  }

  /** A request makes one call for every attachable type it reaches, of the right kind, and no other. */
  lemma {:induction false} AttachmentsAre(wiring: Wiring, types: seq<EventType>, pid: nat, start: bool)
    requires forall i, j :: 0 <= i < j < |types| ==> types[i] != types[j]
    ensures forall call ::
              multiset(Attachments(wiring, types, pid, start))[call]
              == if ControlOf(wiring, call.eventType) == Attachable && Reaches(wiring, types, call.eventType)
                    && call == CallFor(call.eventType, pid, start) then 1 else 0
    decreases |types|
  {
    if types == [] {
    } else if ControlOf(wiring, types[0]) == Neither {
      forall t
        ensures !Reaches(wiring, types, t)
      {
      }
    } else {
      hide Reaches;
      AttachmentsAre(wiring, types[1..], pid, start);
      forall t
        ensures Reaches(wiring, types, t) <==> types[0] == t || Reaches(wiring, types[1..], t)
        ensures types[0] == t ==> !Reaches(wiring, types[1..], t)
      {
        ReachesStep(wiring, types, t);
      }
    }
  }

  /** How the tracing state is set up: network and DNS are attached, the others are filtered by mount namespace. */
  const SETUP: Wiring :=
    map[NetworkEventType := Attachable, DnsEventType := Attachable, ExecveEventType := Gadget,
        CapabilitiesEventType := Gadget, OpenEventType := Gadget, RandomXEventType := Gadget,
        SyscallEventType := Neither]

  /** Tracing a container attaches network and DNS to its process and counts exec, capabilities and open once. */
  lemma StartingAContainer(c: Counters, mntns: nat, pid: nat, t: EventType)
    requires t.ExecveEventType? || t.CapabilitiesEventType? || t.OpenEventType?
    ensures Succeeds(SETUP, TypesOf(AllEventType))
    ensures Attachments(SETUP, TypesOf(AllEventType), pid, true)
         == [Attach(NetworkEventType, pid), Attach(DnsEventType, pid)]
    ensures Attachments(SETUP, TypesOf(AllEventType), pid, false)
         == [Detach(NetworkEventType, pid), Detach(DnsEventType, pid)]
    ensures var started := Apply(SETUP, c, Op(true, mntns, AllEventType));
            Ref(started, Slot(t, mntns)) == Ref(c, Slot(t, mntns)) + 1
            && Slot(t, mntns) in started.filters && started.filters[Slot(t, mntns)] == 1
  {
    hide Process, Reaches, Attachments;
    ProcessSlot(SETUP, c, ALL_TRACED, true, mntns, Slot(t, mntns));
    AllReached(t);
    AttachesAll(pid, true);
    AttachesAll(pid, false);
  }

  lemma AllReached(t: EventType)
    requires t in ALL_TRACED
    ensures Reaches(SETUP, ALL_TRACED, t)
  {
    var i :| 0 <= i < |ALL_TRACED| && ALL_TRACED[i] == t;
    assert forall j :: 0 <= j < |ALL_TRACED| ==> ControlOf(SETUP, ALL_TRACED[j]) != Neither;
  }

  lemma AttachesAll(pid: nat, start: bool)
    ensures Attachments(SETUP, ALL_TRACED, pid, start)
         == [CallFor(NetworkEventType, pid, start), CallFor(DnsEventType, pid, start)]
  {
    var rest := ALL_TRACED[2..];
    assert rest == [ExecveEventType, CapabilitiesEventType, OpenEventType] && rest[1..][1..][1..] == [];
    assert Attachments(SETUP, rest[1..][1..], pid, start) == [];
    assert Attachments(SETUP, rest[1..], pid, start) == [];
    assert Attachments(SETUP, rest, pid, start) == [];
    assert ALL_TRACED[1..][1..] == rest;
    assert Attachments(SETUP, ALL_TRACED[1..], pid, start) == [CallFor(DnsEventType, pid, start)];
  }

  lemma UntraceableDoesNothing(wiring: Wiring, c: Counters, t: EventType, start: bool, mntns: nat, pid: nat)
    requires ControlOf(wiring, t) == Neither
    ensures ProcessOne(wiring, c, t, start, mntns) == c
    ensures AttachmentOf(wiring, t, pid, start) == []
  {
  }

  // ---------- The class ----------

  class Tracer {
    var running: bool
    var wiring: Wiring
    var counters: Counters
    /** Calls of Attach and Detach, in order. */
    var attachCalls: seq<AttachCall>

    constructor (wiring: Wiring)
      ensures !running && this.wiring == wiring && counters == Counters(map[], map[]) && attachCalls == []
    {
      running := false;
      this.wiring := wiring;
      counters := Counters(map[], map[]);
      attachCalls := [];
    }

    /** One turn of the starting loop: write 1 to the filter and count, or attach. */
    method StartType(t: EventType, mntns: nat, pid: nat) returns (ok: bool)
      modifies this`counters, this`attachCalls
      ensures ok <==> ControlOf(wiring, t) != Neither
      ensures counters == ProcessOne(wiring, old(counters), t, true, mntns)
      ensures attachCalls == old(attachCalls) + AttachmentOf(wiring, t, pid, true)
    {
      match ControlOf(wiring, t) {
        case Gadget =>
          var slot := Slot(t, mntns);
          counters := counters.(filters := counters.filters[slot := 1]);
          counters := counters.(refs := counters.refs[slot := Ref(counters, slot) + 1]);
          return true;
        case Attachable =>
          attachCalls := attachCalls + [Attach(t, pid)];
          return true;
        case Neither =>
          return false;
      }
    }

    /** One turn of the stopping loop: count down unless at zero, write 0 to the filter on reaching zero, or detach. */
    method StopType(t: EventType, mntns: nat, pid: nat) returns (ok: bool)
      modifies this`counters, this`attachCalls
      ensures ok <==> ControlOf(wiring, t) != Neither
      ensures counters == ProcessOne(wiring, old(counters), t, false, mntns)
      ensures attachCalls == old(attachCalls) + AttachmentOf(wiring, t, pid, false)
    {
      match ControlOf(wiring, t) {
        case Gadget =>
          var slot := Slot(t, mntns);
          if Ref(counters, slot) != 0 {
            counters := counters.(refs := counters.refs[slot := Ref(counters, slot) - 1]);
            if Ref(counters, slot) == 0 {
              counters := counters.(filters := counters.filters[slot := 0]);
            }
          }
          return true;
        case Attachable =>
          attachCalls := attachCalls + [Detach(t, pid)];
          return true;
        case Neither =>
          return false;
      }
    }

    /** The loop over event types that both requests run. */
    method HandleTypes(types: seq<EventType>, start: bool, mntns: nat, pid: nat) returns (ok: bool)
      modifies this`counters, this`attachCalls
      ensures ok <==> Succeeds(wiring, types)
      ensures counters == Process(wiring, old(counters), types, start, mntns)
      ensures attachCalls == old(attachCalls) + Attachments(wiring, types, pid, start)
    {
      hide ProcessOne, AttachmentOf, Ref;
      ghost var calls: seq<AttachCall> := [];
      assert types[0..] == types;
      for i := 0 to |types|
        invariant Process(wiring, counters, types[i..], start, mntns)
            == Process(wiring, old(counters), types, start, mntns)
        invariant attachCalls == old(attachCalls) + calls
        invariant calls + Attachments(wiring, types[i..], pid, start) == Attachments(wiring, types, pid, start)
        invariant forall j :: 0 <= j < i ==> ControlOf(wiring, types[j]) != Neither
      {
        assert types[i..][1..] == types[i + 1..];
        ghost var before := counters;
        if start {
          ok := StartType(types[i], mntns, pid);
        } else {
          ok := StopType(types[i], mntns, pid);
        }
        if !ok {
          UntraceableDoesNothing(wiring, before, types[i], start, mntns, pid);
          assert calls + [] == calls;
          return;
        }
        ghost var call := AttachmentOf(wiring, types[i], pid, start);
        assert calls + (call + Attachments(wiring, types[i + 1..], pid, start))
            == (calls + call) + Attachments(wiring, types[i + 1..], pid, start);
        calls := calls + call;
      }
      assert types[|types|..] == [] && calls + [] == calls;
      return true;
    }

    method StartTraceContainer(mntns: nat, pid: nat, eventType: EventType) returns (ok: bool)
      modifies this`counters, this`attachCalls
      ensures ok <==> running && Succeeds(wiring, TypesOf(eventType))
      ensures counters == if running then Apply(wiring, old(counters), Op(true, mntns, eventType)) else old(counters)
      ensures attachCalls
           == old(attachCalls) + if running then Attachments(wiring, TypesOf(eventType), pid, true) else []
    {
      if !running {
        return false;
      }
      ok := HandleTypes(TypesOf(eventType), true, mntns, pid);
    }

    method StopTraceContainer(mntns: nat, pid: nat, eventType: EventType) returns (ok: bool)
      modifies this`counters, this`attachCalls
      ensures ok <==> running && Succeeds(wiring, TypesOf(eventType))
      ensures counters == if running then Apply(wiring, old(counters), Op(false, mntns, eventType)) else old(counters)
      ensures attachCalls
           == old(attachCalls) + if running then Attachments(wiring, TypesOf(eventType), pid, false) else []
    {
      if !running {
        return false;
      }
      ok := HandleTypes(TypesOf(eventType), false, mntns, pid);
    }
  }
}
