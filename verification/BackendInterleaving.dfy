/** models/diego_process_backend_set.go with its two goroutines: the event loop, whose Insert takes
    the lock twice, and the reconcile loop, which swaps the whole content in one locked step. */
module BackendInterleaving {
  import opened Models
  import opened Sequences
  import opened BackendStore

  datatype Insertion = Insertion(guid: DiegoProcessGUID, internal: bool, backend: Backend)

  /** todo: the Insert calls the current event has still to start. pending: the Insert call between
      its two locked sections. faulted: the append found no entry and dereferenced nil. */
  datatype Machine = Machine(
    content: Content,
    todo: seq<Insertion>,
    pending: Option<Insertion>,
    listening: bool,
    faulted: bool)

  const START := Machine(map[], [], None, true, false)

  datatype Action = Receive(event: Event) | FirstSection | SecondSection | Swap(lrps: seq<LRP>)

  function InsertionsOf(lrp: LRP, internal: bool): seq<Insertion>
  {
    match Offered(lrp, internal)
    case None => []
    case Some(b) => [Insertion(lrp.processGuid, internal, b)]
  }

  predicate Enabled(m: Machine, a: Action)
  {
    && !m.faulted
    && match a
       case Receive(e) => m.todo == [] && m.pending == None && m.listening && !e.Reconcile?
       case FirstSection => m.todo != [] && m.pending == None
       case SecondSection => m.pending.Some?
       case Swap(_) => true
  }

  function Do(m: Machine, a: Action): Machine
    requires Enabled(m, a)
  {
    match a
    case Receive(CreatedEvent(lrp)) => m.(todo := InsertionsOf(lrp, false) + InsertionsOf(lrp, true))
    case Receive(RemovedEvent(guid)) => m.(content := m.content - {guid})
    case Receive(StreamError) => m
    case Receive(Unhandled) => m.(listening := false)
    case FirstSection =>
      var i := m.todo[0];
      var prepared := Prepared(m.content, i.guid);
      var found := i.backend in prepared[i.guid].Get(i.internal);
      m.(content := prepared, todo := m.todo[1..], pending := if found then None else Some(i))
    case SecondSection =>
      var i := m.pending.value;
      if i.guid in m.content
      then m.(content := Appended(m.content, i.guid, i.internal, i.backend), pending := None)
      else m.(pending := None, faulted := true)
    case Swap(lrps) => m.(content := CreatedAll(map[], lrps))
  }

  /** The machine after a schedule, if every action of it is enabled when it is taken. */
  function Execute(actions: seq<Action>): Option<Machine>
  {
    if actions == [] then Some(START)
    else
      match Execute(actions[..|actions| - 1])
      case None => None
      case Some(m) =>
        var a := actions[|actions| - 1];
        if Enabled(m, a) then Some(Do(m, a)) else None
  }

  predicate Runs(actions: seq<Action>) { Execute(actions).Some? }

  function After(actions: seq<Action>): Machine
    requires Runs(actions)
  {
    Execute(actions).value
  }

  lemma Then(actions: seq<Action>, a: Action)
    requires Runs(actions) && Enabled(After(actions), a)
    ensures Runs(actions + [a]) && After(actions + [a]) == Do(After(actions), a)
  {
    assert (actions + [a])[..|actions + [a]| - 1] == actions;
  }

  // ----- only serving backends are ever stored

  predicate Reports(a: Action, lrp: LRP)
  {
    a == Receive(CreatedEvent(lrp)) || (a.Swap? && lrp in a.lrps)
  }

  /** Some action reported a running, non-evacuating process that offers this backend. */
  ghost predicate Justified(actions: seq<Action>, i: Insertion)
  {
    exists k, lrp :: 0 <= k < |actions| && Reports(actions[k], lrp)
      && lrp.processGuid == i.guid && IsOffered(lrp, i.internal, i.backend)
  }

  lemma JustifiedMonotone(actions: seq<Action>, a: Action, i: Insertion)
    requires Justified(actions, i)
    ensures Justified(actions + [a], i)
  {
    var k, lrp :| 0 <= k < |actions| && Reports(actions[k], lrp)
      && lrp.processGuid == i.guid && IsOffered(lrp, i.internal, i.backend);
    assert (actions + [a])[k] == actions[k];
  }

  lemma JustifiedNow(actions: seq<Action>, a: Action, lrp: LRP, i: Insertion)
    requires Reports(a, lrp)
    requires lrp.processGuid == i.guid && Offered(lrp, i.internal) == Some(i.backend)
    ensures Justified(actions + [a], i)
  {
    OfferedIff(lrp, i.internal, i.backend);
    assert (actions + [a])[|actions|] == a;
  }

  predicate Holds(m: Machine, i: Insertion)
  {
    || i.backend in Lookup(m.content, i.guid, i.internal)
    || i in m.todo
    || m.pending == Some(i)
  }

  /** Whatever an action makes the machine hold, it held before or the action reports. */
  lemma HoldsFrom(m: Machine, a: Action, i: Insertion) returns (lrp: Option<LRP>)
    requires Enabled(m, a) && Holds(Do(m, a), i)
    ensures lrp == None ==> Holds(m, i)
    ensures lrp.Some? ==> Reports(a, lrp.value) && lrp.value.processGuid == i.guid
                          && Offered(lrp.value, i.internal) == Some(i.backend)
  {
    lrp := None;
    match a {
      case Receive(CreatedEvent(l)) => if i in Do(m, a).todo { lrp := Some(l); }
      case Receive(_) =>
      case FirstSection =>
        if m.pending == None && Do(m, a).pending == Some(i) { assert i in m.todo; }
      case SecondSection =>
      case Swap(lrps) =>
        if i.backend in Lookup(Do(m, a).content, i.guid, i.internal) {
          CreatedAllLookup(lrps, i.guid, i.internal);
          DedupFacts(Offers(lrps, i.guid, i.internal));
          OffersIff(lrps, i.guid, i.internal, i.backend);
          var l :| l in lrps && l.processGuid == i.guid && IsOffered(l, i.internal, i.backend);
          OfferedIff(l, i.internal, i.backend);
          lrp := Some(l);
        }
    }
  }

  /** Over every schedule, with swaps anywhere, the store holds only backends of reported running,
      non-evacuating processes, for container ports other than ssh. */
  lemma {:induction false} OnlyServingBackends(actions: seq<Action>, i: Insertion)
    requires Runs(actions) && Holds(After(actions), i)
    ensures Justified(actions, i) && i.backend.containerPort != 2222 && i.backend.port != 0
  {
    if actions != [] {
      var front, a := actions[..|actions| - 1], actions[|actions| - 1];
      assert actions == front + [a];
      var lrp := HoldsFrom(After(front), a, i);
      if lrp.Some? {
        JustifiedNow(front, a, lrp.value, i);
      } else {
        OnlyServingBackends(front, i);
        JustifiedMonotone(front, a, i);
      }
    }
  }

  // ----- duplicates and faults

  predicate AllDistinct(content: Content)
  {
    forall g | g in content :: Distinct(content[g].external) && Distinct(content[g].internal)
  }

  /** No swap falls between the two sections of an Insert. */
  ghost predicate NoSwapInsideInsert(actions: seq<Action>)
    requires Runs(actions)
  {
    forall k | 0 <= k < |actions| && actions[k].Swap? ::
      Runs(actions[..k]) && After(actions[..k]).pending == None
  }

  /** The entry a pending append needs is there, and its backend is not in the list yet. */
  predicate PendingReady(m: Machine)
  {
    m.pending.Some? ==>
      var i := m.pending.value;
      i.guid in m.content && i.backend !in m.content[i.guid].Get(i.internal)
  }

  lemma SwapDistinct(lrps: seq<LRP>)
    ensures AllDistinct(CreatedAll(map[], lrps))
  {
    var content := CreatedAll(map[], lrps);
    forall g | g in content ensures Distinct(content[g].external) && Distinct(content[g].internal) {
      CreatedAllLookup(lrps, g, false);
      CreatedAllLookup(lrps, g, true);
      DedupFacts(Offers(lrps, g, false));
      DedupFacts(Offers(lrps, g, true));
    }
  }

  lemma StepDistinct(m: Machine, a: Action)
    requires Enabled(m, a) && AllDistinct(m.content) && PendingReady(m)
    requires a.Swap? ==> m.pending == None
    ensures AllDistinct(Do(m, a).content) && PendingReady(Do(m, a)) && !Do(m, a).faulted
  {
    match a {
      case Receive(_) =>
      case FirstSection =>
      case SecondSection =>
      case Swap(lrps) => SwapDistinct(lrps);
    }
  }

  /** In a schedule where no swap falls inside an Insert, every list stays duplicate-free and
      nothing faults. */
  lemma {:induction false} DistinctWithoutInnerSwap(actions: seq<Action>)
    requires Runs(actions) && NoSwapInsideInsert(actions)
    ensures AllDistinct(After(actions).content) && PendingReady(After(actions)) && !After(actions).faulted
  {
    if actions != [] {
      var front, a := actions[..|actions| - 1], actions[|actions| - 1];
      forall k | 0 <= k < |front| && front[k].Swap?
        ensures Runs(front[..k]) && After(front[..k]).pending == None
      {
        assert front[..k] == actions[..k] && actions[k].Swap?;
      }
      DistinctWithoutInnerSwap(front);
      StepDistinct(After(front), a);
    }
  }

  /** With or without swaps: an append faults exactly when its entry is gone, and otherwise keeps
      the lists duplicate-free exactly when its backend is not in the list. */
  lemma AppendIff(m: Machine)
    requires Enabled(m, SecondSection) && AllDistinct(m.content)
    ensures var i, n := m.pending.value, Do(m, SecondSection);
      && (n.faulted <==> i.guid !in m.content)
      && (AllDistinct(n.content) <==> i.backend !in Lookup(m.content, i.guid, i.internal))
  {
    var i, n := m.pending.value, Do(m, SecondSection);
    if i.guid in m.content && i.backend in Lookup(m.content, i.guid, i.internal) {
      var list := m.content[i.guid].Get(i.internal);
      var k :| 0 <= k < |list| && list[k] == i.backend;
      var after := n.content[i.guid].Get(i.internal);
      assert after[k] == after[|list|];
    }
  }

  // ----- exactly when a schedule stays clean

  predicate Clean(m: Machine)
  {
    !m.faulted && AllDistinct(m.content)
  }

  /** Nothing faults and nothing is stored twice at any point of the schedule. */
  ghost predicate AlwaysClean(actions: seq<Action>)
  {
    forall k | 0 <= k <= |actions| :: Execute(actions[..k]).Some? && Clean(Execute(actions[..k]).value)
  }

  /** The list offers something for the process of the pending backend, but not that backend. */
  predicate Spares(lrps: seq<LRP>, i: Insertion)
  {
    && (Offers(lrps, i.guid, false) != [] || Offers(lrps, i.guid, true) != [])
    && i.backend !in Offers(lrps, i.guid, i.internal)
  }

  function PendingAfter(actions: seq<Action>): Option<Insertion>
  {
    match Execute(actions)
    case None => None
    case Some(m) => m.pending
  }

  /** The append at k does not follow a swap, or the list swapped in spares its backend. */
  predicate SparedAt(actions: seq<Action>, k: nat)
    requires 0 < k < |actions|
  {
    actions[k] == SecondSection && actions[k - 1].Swap? && PendingAfter(actions[..k]).Some? ==>
      Spares(actions[k - 1].lrps, PendingAfter(actions[..k]).value)
  }

  ghost predicate SwapsSpare(actions: seq<Action>)
  {
    forall k | 0 < k < |actions| :: SparedAt(actions, k)
  }

  lemma {:induction false} CreatedAllKnows(lrps: seq<LRP>, g: DiegoProcessGUID)
    ensures g in CreatedAll(map[], lrps) <==> Offers(lrps, g, false) != [] || Offers(lrps, g, true) != []
  {
    if lrps != [] { CreatedAllKnows(lrps[..|lrps| - 1], g); }
  }

  lemma SwapLeaves(lrps: seq<LRP>, i: Insertion)
    ensures var content := CreatedAll(map[], lrps);
      Spares(lrps, i) <==> i.guid in content && i.backend !in Lookup(content, i.guid, i.internal)
  {
    CreatedAllKnows(lrps, i.guid);
    CreatedAllLookup(lrps, i.guid, i.internal);
    DedupFacts(Offers(lrps, i.guid, i.internal));
  }

  /** Only an append can spoil a clean machine. */
  lemma OnlyAppendsSpoil(m: Machine, a: Action)
    requires Enabled(m, a) && Clean(m) && a != SecondSection
    ensures Clean(Do(m, a))
  {
    if a.Swap? { SwapDistinct(a.lrps); }
  }

  /** What comes right before an append. */
  lemma BeforeAppend(front: seq<Action>)
    requires Runs(front) && Enabled(After(front), SecondSection)
    ensures front != [] && var m := After(front);
      if front[|front| - 1].Swap? then m.content == CreatedAll(map[], front[|front| - 1].lrps) else PendingReady(m)
  {
    var before, a := front[..|front| - 1], front[|front| - 1];
    assert Execute(before).Some? && After(front) == Do(After(before), a);
  }

  lemma AppendCleanIff(front: seq<Action>)
    requires Runs(front) && Enabled(After(front), SecondSection) && Clean(After(front))
    ensures Clean(Do(After(front), SecondSection)) <==> SparedAt(front + [SecondSection], |front|)
  {
    var m, actions := After(front), front + [SecondSection];
    BeforeAppend(front);
    AppendIff(m);
    assert actions[..|front|] == front;
    if front[|front| - 1].Swap? { SwapLeaves(front[|front| - 1].lrps, m.pending.value); }
  }

  lemma CleanNext(front: seq<Action>, a: Action)
    requires Runs(front + [a])
    ensures Runs(front) && Enabled(After(front), a) && After(front + [a]) == Do(After(front), a)
    ensures AlwaysClean(front + [a]) <==> AlwaysClean(front) && Clean(Do(After(front), a))
  {
    var actions := front + [a];
    assert actions[..|actions| - 1] == front && actions[..|actions|] == actions;
    forall k | 0 <= k <= |front| ensures actions[..k] == front[..k] {}
  }

  lemma SpareNext(front: seq<Action>, a: Action)
    ensures SwapsSpare(front + [a]) <==> SwapsSpare(front) && (front != [] ==> SparedAt(front + [a], |front|))
  {
    var actions := front + [a];
    forall k | 0 < k < |front| ensures SparedAt(actions, k) <==> SparedAt(front, k) {
      assert actions[..k] == front[..k];
    }
  }

  /** A schedule faults or stores something twice if and only if some append comes right after a swap
      whose list offers nothing for its process, or offers its very backend. */
  lemma {:induction false} AlwaysCleanIff(actions: seq<Action>)
    requires Runs(actions)
    ensures AlwaysClean(actions) <==> SwapsSpare(actions)
  {
    if actions != [] {
      var front, a := actions[..|actions| - 1], actions[|actions| - 1];
      assert actions == front + [a];
      CleanNext(front, a);
      SpareNext(front, a);
      AlwaysCleanIff(front);
      if AlwaysClean(front) {
        assert front[..|front|] == front;
        if a == SecondSection { AppendCleanIff(front); } else { OnlyAppendsSpoil(After(front), a); }
      }
    }
  }

  // ----- schedules that refine the sequential store

  predicate Quiet(m: Machine) { m.todo == [] && m.pending == None }

  /** No swap falls between the start and the end of the handling of an event. */
  ghost predicate NoSwapInsideEvent(actions: seq<Action>)
    requires Runs(actions)
  {
    forall k | 0 <= k < |actions| && actions[k].Swap? :: Runs(actions[..k]) && Quiet(After(actions[..k]))
  }

  /** The events handled and the reconciliations made, in the order they took place. */
  function EventsOf(actions: seq<Action>): seq<Event>
  {
    if actions == [] then []
    else
      var front := EventsOf(actions[..|actions| - 1]);
      match actions[|actions| - 1]
      case Receive(e) => front + [e]
      case Swap(lrps) => front + [Reconcile(Some(lrps))]
      case _ => front
  }

  function InsertAll(content: Content, todo: seq<Insertion>): Content
    decreases |todo|
  {
    if todo == [] then content
    else InsertAll(Inserted(content, todo[0].guid, todo[0].internal, Some(todo[0].backend)), todo[1..])
  }

  /** The content once the current event has been handled to its end. */
  function Completed(m: Machine): Content
  {
    InsertAll(m.content, (if m.pending.Some? then [m.pending.value] else []) + m.todo)
  }

  lemma CreatedIsInsertAll(content: Content, lrp: LRP)
    ensures InsertAll(content, InsertionsOf(lrp, false) + InsertionsOf(lrp, true)) == Created(content, lrp)
  {
    var x, y := InsertionsOf(lrp, false), InsertionsOf(lrp, true);
    if x == [] { assert x + y == y; } else { assert (x + y)[1..] == y; }
    assert y != [] ==> y[1..] == [];
    assert forall c :: InsertAll(c, y) == Inserted(c, lrp.processGuid, true, Offered(lrp, true));
  }

  lemma StepRefines(m: Machine, a: Action, s: State)
    requires Enabled(m, a) && PendingReady(m)
    requires s == State(Completed(m), m.listening)
    requires a.Swap? ==> Quiet(m)
    ensures State(Completed(Do(m, a)), Do(m, a).listening) ==
            match a
            case Receive(e) => Step(s, e)
            case Swap(lrps) => Step(s, Reconcile(Some(lrps)))
            case _ => s
  {
    match a {
      case Receive(CreatedEvent(lrp)) =>
        CreatedIsInsertAll(m.content, lrp);
        assert [] + Do(m, a).todo == Do(m, a).todo;
      case Receive(_) =>
      case FirstSection =>
        assert [] + m.todo == m.todo;
        assert [m.todo[0]] + m.todo[1..] == m.todo;
        assert [] + m.todo[1..] == m.todo[1..];
      case SecondSection =>
        var i := m.pending.value;
        assert ([i] + m.todo)[1..] == m.todo;
        assert [] + m.todo == m.todo;
      case Swap(_) =>
    }
  }

  /** A schedule where no swap falls inside the handling of an event leaves, once the last event is
      handled, what the sequential store holds after the same events in the same order. */
  lemma {:induction false} ScheduleRefinesSequential(actions: seq<Action>)
    requires Runs(actions) && NoSwapInsideEvent(actions)
    ensures PendingReady(After(actions)) && AllDistinct(After(actions).content)
    ensures State(Completed(After(actions)), After(actions).listening) == BackendStore.Run(EventsOf(actions))
    ensures Quiet(After(actions)) ==> After(actions).content == BackendStore.Run(EventsOf(actions)).content
  {
    if actions != [] {
      var front, a := actions[..|actions| - 1], actions[|actions| - 1];
      forall k | 0 <= k < |front| && front[k].Swap? ensures Runs(front[..k]) && Quiet(After(front[..k])) {
        assert front[..k] == actions[..k] && actions[k].Swap?;
      }
      ScheduleRefinesSequential(front);
      StepDistinct(After(front), a);
      StepRefines(After(front), a, BackendStore.Run(EventsOf(front)));
      RunNext(EventsOf(front), a);
    }
  }

  lemma RunNext(events: seq<Event>, a: Action)
    ensures a.Receive? ==> BackendStore.Run(events + [a.event]) == Step(BackendStore.Run(events), a.event)
    ensures a.Swap? ==> BackendStore.Run(events + [Reconcile(Some(a.lrps))]) ==
                        Step(BackendStore.Run(events), Reconcile(Some(a.lrps)))
  {
    if a.Receive? { assert (events + [a.event])[..|events|] == events; }
    if a.Swap? { assert (events + [Reconcile(Some(a.lrps))])[..|events|] == events; }
  }

  // Two schedules in which a swap falls inside an Insert.

  const APP := LRP("p", Ordinary, RUNNING, "10.0.0.1", "10.1.0.1", [PortMapping(8080, 61000)])
  const BACKEND := Backend("10.0.0.1", 61000, 8080)
  const INSERTION := Insertion("p", false, BACKEND)

  lemma AppOffers()
    ensures Offered(APP, false) == Some(BACKEND)
    ensures Offered(APP, true) == Some(Backend("10.1.0.1", 8080, 8080))
  {
    assert APP.ports[0] == PortMapping(8080, 61000);
  }

  lemma Pending() returns (m: Machine)
    ensures Runs([Receive(CreatedEvent(APP)), FirstSection])
    ensures m == After([Receive(CreatedEvent(APP)), FirstSection])
    ensures m.pending == Some(INSERTION) && !m.faulted
  {
    AppOffers();
    Then([], Receive(CreatedEvent(APP)));
    assert After([]) == START;
    var one := [] + [Receive(CreatedEvent(APP))];
    assert After(one).todo[0] == INSERTION;
    Then(one, FirstSection);
    assert one + [FirstSection] == [Receive(CreatedEvent(APP)), FirstSection];
    m := After(one + [FirstSection]);
  }

  /** Reconciling with an empty list inside an Insert makes the append fault. */
  lemma SwapInsideInsertFaults()
    ensures var s := [Receive(CreatedEvent(APP)), FirstSection, Swap([]), SecondSection];
      Runs(s) && After(s).faulted
  {
    var m := Pending();
    var two := [Receive(CreatedEvent(APP)), FirstSection];
    Then(two, Swap([]));
    Then(two + [Swap([])], SecondSection);
    assert two + [Swap([])] + [SecondSection] ==
           [Receive(CreatedEvent(APP)), FirstSection, Swap([]), SecondSection];
  }

  /** Reconciling with the very process inside its Insert stores its backend twice. */
  lemma SwapInsideInsertDuplicates()
    ensures var s := [Receive(CreatedEvent(APP)), FirstSection, Swap([APP]), SecondSection];
      Runs(s) && Lookup(After(s).content, "p", false) == [BACKEND, BACKEND]
  {
    AppOffers();
    var m := Pending();
    var two := [Receive(CreatedEvent(APP)), FirstSection];
    Then(two, Swap([APP]));
    assert [APP][..0] == [];
    assert CreatedAll(map[], [APP]) == Created(map[], APP);
    CreatedLookup(map[], APP, "p", false);
    Then(two + [Swap([APP])], SecondSection);
    assert two + [Swap([APP])] + [SecondSection] ==
           [Receive(CreatedEvent(APP)), FirstSection, Swap([APP]), SecondSection];
  }
}
