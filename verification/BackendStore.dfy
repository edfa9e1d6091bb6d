/** models/diego_process_backend_set.go: the backends of each Diego process, fed by instance events
    and replaced by reconciliation. Here every operation runs to its end before the next one;
    BackendInterleaving takes Insert apart. */
module BackendStore {
  import opened Models
  import opened Sequences
  import opened GoSlices

  const SSH_PORT: uint32 := 2222
  const RUNNING := "RUNNING"

  datatype Presence = Ordinary | Evacuating | Suspect

  datatype PortMapping = PortMapping(containerPort: uint32, hostPort: uint32)

  datatype LRP = LRP(
    processGuid: DiegoProcessGUID,
    presence: Presence,
    state: string,
    address: string,
    instanceAddress: string,
    ports: seq<PortMapping>)

  // ----- processActualLRP

  predicate Serving(lrp: LRP)
  {
    lrp.presence != Evacuating && lrp.state == RUNNING
  }

  predicate IsAppPort(p: PortMapping) { p.containerPort != SSH_PORT }

  /** The last port mapping that is not for ssh; both ports are zero without one. */
  function AppPort(ports: seq<PortMapping>): PortMapping
  {
    var i := LastIndex(ports, IsAppPort);
    if i >= 0 then ports[i] else PortMapping(0, 0)
  }

  /** The backend a process offers on the host network (internal false) or on the container network
      (internal true). */
  function Offered(lrp: LRP, internal: bool): Option<Backend>
  {
    var p := AppPort(lrp.ports);
    if !Serving(lrp) then None
    else if internal then
      if p.containerPort == 0 then None
      else Some(Backend(lrp.instanceAddress, p.containerPort, p.containerPort))
    else
      if p.hostPort == 0 then None
      else Some(Backend(lrp.address, p.hostPort, p.containerPort))
  }

  /** Port mapping i is the last one whose container port is not that of ssh. */
  predicate IsLastAppPort(ports: seq<PortMapping>, i: nat)
  {
    && i < |ports| && ports[i].containerPort != 2222
    && forall j | i < j < |ports| :: ports[j].containerPort == 2222
  }

  /** The process runs and is not evacuating, and b has its address and the ports of its last port mapping
      that is not for ssh: on the host network the host port, on the container network the container
      port, which must not be zero. */
  predicate IsOffered(lrp: LRP, internal: bool, b: Backend)
  {
    && lrp.presence != Evacuating && lrp.state == "RUNNING"
    && exists i | 0 <= i < |lrp.ports| :: IsLastAppPort(lrp.ports, i)
         && b.containerPort == lrp.ports[i].containerPort
         && b.port == (if internal then lrp.ports[i].containerPort else lrp.ports[i].hostPort) != 0
         && b.address == if internal then lrp.instanceAddress else lrp.address
  }

  lemma OfferedIff(lrp: LRP, internal: bool, b: Backend)
    ensures Offered(lrp, internal) == Some(b) <==> IsOffered(lrp, internal, b)
  {
    var i := LastIndex(lrp.ports, IsAppPort);
    if i >= 0 { assert IsLastAppPort(lrp.ports, i); }
    if j: nat :| IsLastAppPort(lrp.ports, j) { assert i >= j; assert IsAppPort(lrp.ports[j]); }
  }

  /** On either network the backend that the process offers, or None if it offers none. */
  method ProcessActualLRP(lrp: LRP) returns (external: Option<Backend>, internal: Option<Backend>)
    ensures external == Offered(lrp, false) && internal == Offered(lrp, true)
    ensures forall b :: external == Some(b) <==> IsOffered(lrp, false, b)
    ensures forall b :: internal == Some(b) <==> IsOffered(lrp, true, b)
  {
    forall b, i ensures Offered(lrp, i) == Some(b) <==> IsOffered(lrp, i, b) { OfferedIff(lrp, i, b); }
    var appHostPort: uint32, appContainerPort: uint32 := 0, 0;
    external, internal := None, None;
    if lrp.presence == Evacuating { return; }
    if lrp.state != RUNNING { return; }
    for i := 0 to |lrp.ports|
      invariant PortMapping(appContainerPort, appHostPort) == AppPort(lrp.ports[..i])
    {
      var port := lrp.ports[i];
      assert lrp.ports[..i + 1] == lrp.ports[..i] + [port];
      LastIndexSnoc(lrp.ports[..i], port, IsAppPort);
      if port.containerPort != SSH_PORT {
        appHostPort := port.hostPort;
        appContainerPort := port.containerPort;
      }
    }
    assert lrp.ports[..|lrp.ports|] == lrp.ports;
    if appHostPort != 0 {
      external := Some(Backend(lrp.address, appHostPort, appContainerPort));
    }
    if appContainerPort != 0 {
      internal := Some(Backend(lrp.instanceAddress, appContainerPort, appContainerPort));
    }
  }

  // ----- the store

  datatype Sets = Sets(external: seq<Backend>, internal: seq<Backend>)
  {
    function Get(isInternal: bool): seq<Backend> { if isInternal then internal else external }

    function With(isInternal: bool, list: seq<Backend>): Sets
    {
      if isInternal then this.(internal := list) else this.(external := list)
    }
  }

  type Content = map<DiegoProcessGUID, Sets>

  /** The list of a process; empty when the store does not know it. */
  function Lookup(content: Content, guid: DiegoProcessGUID, internal: bool): seq<Backend>
  {
    if guid in content then content[guid].Get(internal) else []
  }

  function Prepared(content: Content, guid: DiegoProcessGUID): Content
  {
    if guid in content then content else content[guid := Sets([], [])]
  }

  function Appended(content: Content, guid: DiegoProcessGUID, internal: bool, b: Backend): Content
    requires guid in content
  {
    content[guid := content[guid].With(internal, content[guid].Get(internal) + [b])]
  }

  function Inserted(content: Content, guid: DiegoProcessGUID, internal: bool, b: Option<Backend>): Content
  {
    match b
    case None => content
    case Some(backend) =>
      var prepared := Prepared(content, guid);
      if backend in prepared[guid].Get(internal) then prepared
      else Appended(prepared, guid, internal, backend)
  }

  function Created(content: Content, lrp: LRP): Content
  {
    Inserted(Inserted(content, lrp.processGuid, false, Offered(lrp, false)),
             lrp.processGuid, true, Offered(lrp, true))
  }

  /** One Created event per process, in order. */
  function CreatedAll(content: Content, lrps: seq<LRP>): Content
  {
    if lrps == [] then content else Created(CreatedAll(content, lrps[..|lrps| - 1]), lrps[|lrps| - 1])
  }

  // ----- the store in memory

  /** The two lists of a process, as slices. */
  datatype Slots = Slots(external: Slice<Backend>, internal: Slice<Backend>)
  {
    function Get(isInternal: bool): Slice<Backend> { if isInternal then internal else external }

    function With(isInternal: bool, list: Slice<Backend>): Slots
    {
      if isInternal then this.(internal := list) else this.(external := list)
    }
  }

  datatype Owner = Owner(guid: DiegoProcessGUID, internal: bool)

  class Store {
    var content: map<DiegoProcessGUID, Slots>
    // the lists, whatever the arrays they are in
    ghost var value: Content
    // the list that each array was made for
    ghost var owners: map<array<Backend>, Owner>

    ghost predicate Valid()
      reads this, owners.Keys
    {
      && value.Keys == content.Keys
      && forall g, i: bool | g in content :: Holds(g, i)
    }

    /** The slice holds the list, and its array was made for no other. */
    ghost predicate Holds(g: DiegoProcessGUID, i: bool)
      requires g in content && g in value
      reads this, owners.Keys
    {
      var s := content[g].Get(i);
      && s.backing in owners && owners[s.backing] == Owner(g, i)
      && GoSlices.Valid(s) && Contents(s) == value[g].Get(i)
    }

    constructor ()
      ensures Valid() && value == map[] && owners == map[]
    {
      content, value, owners := map[], map[], map[];
    }

    /** The first locked section. */
    method Prepare(guid: DiegoProcessGUID)
      requires Valid()
      modifies this
      ensures Valid() && guid in content
      ensures value == Prepared(old(value), guid)
      ensures forall a | a in owners :: a in old(owners) || fresh(a)
    {
      if guid !in content {
        var external, internal := new Backend[0], new Backend[0];
        content := content[guid := Slots(Slice(external, 0), Slice(internal, 0))];
        value := value[guid := Sets([], [])];
        owners := owners[external := Owner(guid, false)][internal := Owner(guid, true)];
        forall g, i: bool | g in content ensures Holds(g, i) {
          assert g != guid ==> g in old(content) && old(Holds(g, i));
        }
      }
    }

    /** The second locked section. */
    method AppendBackend(guid: DiegoProcessGUID, isInternal: bool, b: Backend)
      requires Valid() && guid in content
      modifies this, owners.Keys
      ensures Valid()
      ensures value == Appended(old(value), guid, isInternal, b)
      ensures forall a | a in owners :: a in old(owners) || fresh(a)
    {
      assert Holds(guid, isInternal);
      var slice := Append(content[guid].Get(isInternal), [b], Any);
      content := content[guid := content[guid].With(isInternal, slice)];
      value := Appended(value, guid, isInternal, b);
      owners := owners[slice.backing := Owner(guid, isInternal)];
      forall g, i: bool | g in content ensures Holds(g, i) {
        assert g in old(content) && old(Holds(g, i));
      }
    }

    /** The two locked sections and the unlocked search between them. */
    method Insert(guid: DiegoProcessGUID, isInternal: bool, additionalBackend: Option<Backend>)
      requires Valid()
      modifies this, owners.Keys
      ensures Valid()
      ensures value == Inserted(old(value), guid, isInternal, additionalBackend)
      ensures forall a | a in owners :: a in old(owners) || fresh(a)
    {
      if additionalBackend == None { return; }
      Prepare(guid);
      assert Holds(guid, isInternal);
      var backends := content[guid].external;
      if isInternal {
        backends := content[guid].internal;
      }
      for i := 0 to backends.len
        invariant additionalBackend.value !in backends.backing[..i]
      {
        if backends.backing[i] == additionalBackend.value { return; }
      }
      AppendBackend(guid, isInternal, additionalBackend.value);
    }

    /** Inserts what the process offers on either network. */
    method InsertBoth(lrp: LRP)
      requires Valid()
      modifies this, owners.Keys
      ensures Valid()
      ensures value == Created(old(value), lrp)
      ensures forall a | a in owners :: a in old(owners) || fresh(a)
    {
      var external, internal := ProcessActualLRP(lrp);
      Insert(lrp.processGuid, false, external);
      Insert(lrp.processGuid, true, internal);
    }

    method Remove(guid: DiegoProcessGUID)
      requires Valid()
      modifies this
      ensures Valid() && owners == old(owners)
      ensures value == old(value) - {guid}
    {
      content := content - {guid};
      value := value - {guid};
      forall g, i: bool | g in content ensures Holds(g, i) { assert old(Holds(g, i)); }
    }
  }

  datatype Event = CreatedEvent(lrp: LRP) | RemovedEvent(guid: DiegoProcessGUID) | StreamError | Unhandled
                 | Reconcile(lrps: Option<seq<LRP>>)

  /** The store, and whether the event loop still listens: an unhandled event ends it. */
  datatype State = State(content: Content, listening: bool)

  function Step(s: State, e: Event): State
  {
    match e
    case CreatedEvent(lrp) => if s.listening then s.(content := Created(s.content, lrp)) else s
    case RemovedEvent(guid) => if s.listening then s.(content := s.content - {guid}) else s
    case StreamError => s
    case Unhandled => s.(listening := false)
    case Reconcile(None) => s
    case Reconcile(Some(lrps)) => s.(content := CreatedAll(map[], lrps))
  }

  class DiegoBackendSetRepo {
    var store: Store
    var listening: bool

    ghost predicate Valid()
      reads this, store, store.owners.Keys
    {
      store.Valid()
    }

    ghost function Contents(): State
      reads this, store
    {
      State(store.value, listening)
    }

    constructor ()
      ensures Valid() && Contents() == State(map[], true) && fresh(store) && store.owners == map[]
    {
      store := new Store();
      listening := true;
    }

    /** One turn of the event loop. */
    method CollectEvent(event: Event)
      requires Valid() && !event.Reconcile?
      modifies this, store, store.owners.Keys
      ensures Valid() && store == old(store)
      ensures Contents() == Step(old(Contents()), event)
      ensures forall a | a in store.owners :: a in old(store.owners) || fresh(a)
    {
      if !listening { return; }
      match event {
        case CreatedEvent(lrp) =>
          store.InsertBoth(lrp);
        case RemovedEvent(guid) =>
          store.Remove(guid);
        case StreamError =>
        case Unhandled =>
          listening := false;
      }
    }

    /** One tick of the reconcile loop; None is a failed query. The replacement is built apart and
        swapped in. */
    method ReconcileLRPs(lrps: Option<seq<LRP>>)
      requires Valid()
      modifies store
      ensures Valid() && Contents() == Step(old(Contents()), Reconcile(lrps))
      ensures forall a | a in store.owners :: a in old(store.owners) || fresh(a)
    {
      if lrps == None { return; }
      var replacement := new Store();
      for i := 0 to |lrps.value|
        invariant fresh(replacement) && replacement.Valid() && forall a | a in replacement.owners :: fresh(a)
        invariant replacement.value == CreatedAll(map[], lrps.value[..i])
        invariant store.content == old(store.content)
      {
        replacement.InsertBoth(lrps.value[i]);
        assert lrps.value[..i + 1][..i] == lrps.value[..i];
      }
      assert lrps.value[..|lrps.value|] == lrps.value;
      store.content := replacement.content;
      store.value, store.owners := replacement.value, replacement.owners;
      forall g, i: bool | g in store.content ensures store.Holds(g, i) { assert replacement.Holds(g, i); }
    }

    method Get(guid: DiegoProcessGUID) returns (backends: Slice<Backend>)
      requires Valid()
      ensures GoSlices.Valid(backends) && GoSlices.Contents(backends) == Lookup(store.value, guid, false)
    {
      if guid in store.content {
        assert store.Holds(guid, false);
        return store.content[guid].external;
      }
      var none := new Backend[0];
      return Slice(none, 0);
    }

    method GetInternalBackends(guid: DiegoProcessGUID) returns (backends: Slice<Backend>)
      requires Valid()
      ensures GoSlices.Valid(backends) && GoSlices.Contents(backends) == Lookup(store.value, guid, true)
    {
      if guid in store.content {
        assert store.Holds(guid, true);
        return store.content[guid].internal;
      }
      var none := new Backend[0];
      return Slice(none, 0);
    }
  }

  // ----- the store as a function of its history

  function Run(events: seq<Event>): State
  {
    if events == [] then State(map[], true) else Step(Run(events[..|events| - 1]), events[|events| - 1])
  }

  /** The events that take effect: successful reconciliations, and instance events up to the first
      unhandled one. */
  function Effective(events: seq<Event>): seq<Event>
  {
    if events == [] then []
    else
      var front, e := events[..|events| - 1], events[|events| - 1];
      if (e.Reconcile? && e.lrps.Some?) || ((e.CreatedEvent? || e.RemovedEvent?) && Unhandled !in front)
      then Effective(front) + [e]
      else Effective(front)
  }

  /** What the processes offer for guid, in order. */
  function Offers(lrps: seq<LRP>, guid: DiegoProcessGUID, internal: bool): seq<Backend>
  {
    if lrps == [] then []
    else
      var front, lrp := Offers(lrps[..|lrps| - 1], guid, internal), lrps[|lrps| - 1];
      if lrp.processGuid == guid && Offered(lrp, internal).Some? then front + [Offered(lrp, internal).value] else front
  }

  function CreatedLRPs(events: seq<Event>): seq<LRP>
  {
    if events == [] then []
    else
      var front, e := CreatedLRPs(events[..|events| - 1]), events[|events| - 1];
      if e.CreatedEvent? then front + [e.lrp] else front
  }

  /** The events that discard everything known of guid. */
  function Resets(guid: DiegoProcessGUID): Event -> bool
  {
    (e: Event) => (e.RemovedEvent? && e.guid == guid) || (e.Reconcile? && e.lrps.Some?)
  }

  /** The processes reported since the last reset of guid: those of the reconcile list when that is
      the reset, then those created. */
  function Reported(events: seq<Event>, guid: DiegoProcessGUID): seq<LRP>
  {
    var i := LastIndex(events, Resets(guid));
    (if i >= 0 && events[i].Reconcile? then events[i].lrps.value else []) + CreatedLRPs(events[i + 1..])
  }

  lemma InsertedLookup(content: Content, guid: DiegoProcessGUID, internal: bool, b: Option<Backend>,
                       g: DiegoProcessGUID, i: bool)
    ensures var before := Lookup(content, g, i);
      Lookup(Inserted(content, guid, internal, b), g, i) ==
        if g == guid && i == internal && b.Some? && b.value !in before then before + [b.value] else before
  {
  }

  lemma CreatedLookup(content: Content, lrp: LRP, g: DiegoProcessGUID, i: bool)
    ensures var before := Lookup(content, g, i);
      Lookup(Created(content, lrp), g, i) ==
        if g == lrp.processGuid && Offered(lrp, i).Some? && Offered(lrp, i).value !in before
        then before + [Offered(lrp, i).value] else before
  {
    InsertedLookup(content, lrp.processGuid, false, Offered(lrp, false), g, i);
    InsertedLookup(Inserted(content, lrp.processGuid, false, Offered(lrp, false)),
                   lrp.processGuid, true, Offered(lrp, true), g, i);
  }

  lemma {:induction false} CreatedAllLookup(lrps: seq<LRP>, g: DiegoProcessGUID, i: bool)
    ensures Lookup(CreatedAll(map[], lrps), g, i) == Dedup(Offers(lrps, g, i))
  {
    if lrps != [] {
      var front, lrp := lrps[..|lrps| - 1], lrps[|lrps| - 1];
      CreatedAllLookup(front, g, i);
      CreatedLookup(CreatedAll(map[], front), lrp, g, i);
      DedupNext(front, lrp, g, i);
    }
  }

  lemma DedupNext(lrps: seq<LRP>, lrp: LRP, g: DiegoProcessGUID, i: bool)
    ensures var before := Dedup(Offers(lrps, g, i));
      Dedup(Offers(lrps + [lrp], g, i)) ==
        if g == lrp.processGuid && Offered(lrp, i).Some? && Offered(lrp, i).value !in before
        then before + [Offered(lrp, i).value] else before
  {
    assert (lrps + [lrp])[..|lrps + [lrp]| - 1] == lrps;
    if Offered(lrp, i).Some? {
      var offers, b := Offers(lrps, g, i), Offered(lrp, i).value;
      assert (offers + [b])[..|offers + [b]| - 1] == offers;
    }
  }

  lemma NothingReported(guid: DiegoProcessGUID)
    ensures Reported([], guid) == []
  {
    var none: seq<Event> := [];
    assert LastIndex(none, Resets(guid)) == -1;
    assert none[0..] == [];
  }

  lemma ReportedReset(events: seq<Event>, e: Event, guid: DiegoProcessGUID)
    requires Resets(guid)(e)
    ensures Reported(events + [e], guid) == if e.Reconcile? then e.lrps.value else []
  {
    LastIndexSnoc(events, e, Resets(guid));
    assert (events + [e])[|events| + 1..] == [];
  }

  lemma CreatedLRPsNext(events: seq<Event>, e: Event)
    ensures CreatedLRPs(events + [e]) == CreatedLRPs(events) + if e.CreatedEvent? then [e.lrp] else []
  {
    assert (events + [e])[..|events + [e]| - 1] == events;
  }

  lemma SuffixNext(events: seq<Event>, e: Event, i: nat)
    requires i <= |events|
    ensures (events + [e])[i..] == events[i..] + [e]
    ensures i > 0 ==> (events + [e])[i - 1] == events[i - 1]
  {
  }

  lemma ReportedNext(events: seq<Event>, e: Event, guid: DiegoProcessGUID)
    requires !Resets(guid)(e)
    ensures Reported(events + [e], guid) ==
            Reported(events, guid) + if e.CreatedEvent? then [e.lrp] else []
  {
    LastIndexSnoc(events, e, Resets(guid));
    var i := LastIndex(events, Resets(guid));
    SuffixNext(events, e, i + 1);
    CreatedLRPsNext(events[i + 1..], e);
  }

  predicate TakesEffect(s: State, e: Event)
  {
    (e.Reconcile? && e.lrps.Some?) || ((e.CreatedEvent? || e.RemovedEvent?) && s.listening)
  }

  lemma CreatedRefines(content: Content, lrps: seq<LRP>, lrp: LRP, guid: DiegoProcessGUID, internal: bool)
    requires Lookup(content, guid, internal) == Dedup(Offers(lrps, guid, internal))
    ensures Lookup(Created(content, lrp), guid, internal) == Dedup(Offers(lrps + [lrp], guid, internal))
  {
    CreatedLookup(content, lrp, guid, internal);
    DedupNext(lrps, lrp, guid, internal);
  }

  lemma StepRefines(s: State, eff: seq<Event>, e: Event, guid: DiegoProcessGUID, internal: bool)
    requires TakesEffect(s, e)
    requires Lookup(s.content, guid, internal) == Dedup(Offers(Reported(eff, guid), guid, internal))
    ensures Lookup(Step(s, e).content, guid, internal) ==
            Dedup(Offers(Reported(eff + [e], guid), guid, internal))
  {
    var before, after := Reported(eff, guid), Reported(eff + [e], guid);
    if Resets(guid)(e) {
      ReportedReset(eff, e, guid);
      if e.Reconcile? { CreatedAllLookup(e.lrps.value, guid, internal); } else { assert after == []; }
    } else {
      ReportedNext(eff, e, guid);
      if e.CreatedEvent? {
        assert after == before + [e.lrp];
        CreatedRefines(s.content, before, e.lrp, guid, internal);
      } else {
        assert after == before;
      }
    }
  }

  lemma {:induction false} ListeningUntilUnhandled(events: seq<Event>)
    ensures Run(events).listening <==> Unhandled !in events
  {
    if events != [] {
      ListeningUntilUnhandled(events[..|events| - 1]);
      assert events == events[..|events| - 1] + [events[|events| - 1]];
    }
  }

  lemma NoEffect(s: State, e: Event, guid: DiegoProcessGUID, internal: bool)
    requires !TakesEffect(s, e)
    ensures Lookup(Step(s, e).content, guid, internal) == Lookup(s.content, guid, internal)
  {
  }

  /** Over every sequential run each list is the first-occurrence de-duplication of what has been
      offered for its process since the last reconciliation or removal. */
  lemma {:induction false} StoreRefinesHistory(events: seq<Event>, guid: DiegoProcessGUID, internal: bool)
    ensures Lookup(Run(events).content, guid, internal) ==
            Dedup(Offers(Reported(Effective(events), guid), guid, internal))
  {
    if events == [] {
      NothingReported(guid);
    } else {
      var front, e := events[..|events| - 1], events[|events| - 1];
      var s, eff := Run(front), Effective(front);
      StoreRefinesHistory(front, guid, internal);
      ListeningUntilUnhandled(front);
      if TakesEffect(s, e) {
        assert Effective(events) == eff + [e];
        StepRefines(s, eff, e, guid, internal);
      } else {
        assert Effective(events) == eff;
        NoEffect(s, e, guid, internal);
      }
    }
  }

  /** Reconciling with a list leaves what replaying its processes as Created events on an empty
      store would. */
  lemma {:induction false} ReconcileIsReplay(lrps: seq<LRP>)
    ensures Run([Reconcile(Some(lrps))]).content ==
            Run(seq(|lrps|, i requires 0 <= i < |lrps| => CreatedEvent(lrps[i]))).content
    ensures Run(seq(|lrps|, i requires 0 <= i < |lrps| => CreatedEvent(lrps[i]))).listening
  {
    var replay := seq(|lrps|, i requires 0 <= i < |lrps| => CreatedEvent(lrps[i]));
    assert [Reconcile(Some(lrps))][..0] == [];
    assert Run([Reconcile(Some(lrps))]).content == CreatedAll(map[], lrps);
    if lrps != [] {
      var front := lrps[..|lrps| - 1];
      ReconcileIsReplay(front);
      assert [Reconcile(Some(front))][..0] == [];
      assert Run([Reconcile(Some(front))]).content == CreatedAll(map[], front);
      assert replay[..|replay| - 1] == seq(|front|, i requires 0 <= i < |front| => CreatedEvent(front[i]));
    }
  }

  /** A backend is stored for a process if and only if a reported process of that GUID, which runs and is
      not evacuating, offers it; it is stored once, and never for the ssh port. */
  lemma StoredBackendsServe(events: seq<Event>, guid: DiegoProcessGUID, internal: bool)
    ensures var list := Lookup(Run(events).content, guid, internal);
      && Distinct(list)
      && (forall b | b in list :: b.containerPort != 2222 && b.port != 0)
      && forall b :: b in list <==>
           exists lrp | lrp in Reported(Effective(events), guid) ::
             lrp.processGuid == guid && IsOffered(lrp, internal, b)
  {
    var reported := Reported(Effective(events), guid);
    StoreRefinesHistory(events, guid, internal);
    DedupFacts(Offers(reported, guid, internal));
    forall b
      ensures b in Offers(reported, guid, internal) <==>
              exists lrp | lrp in reported :: lrp.processGuid == guid && IsOffered(lrp, internal, b)
    {
      OffersIff(reported, guid, internal, b);
    }
  }

  lemma {:induction false} OffersIff(lrps: seq<LRP>, guid: DiegoProcessGUID, internal: bool, b: Backend)
    ensures b in Offers(lrps, guid, internal) <==>
            exists lrp | lrp in lrps :: lrp.processGuid == guid && IsOffered(lrp, internal, b)
  {
    if lrps != [] {
      var front, last := lrps[..|lrps| - 1], lrps[|lrps| - 1];
      OffersIff(front, guid, internal, b);
      OfferedIff(last, internal, b);
      assert lrps == front + [last];
      if lrp :| lrp in front && lrp.processGuid == guid && IsOffered(lrp, internal, b) { assert lrp in lrps; }
      if last.processGuid == guid && IsOffered(last, internal, b) { assert last in lrps; }
    }
  }
}
