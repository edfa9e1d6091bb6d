/** snapshot/snapshot.go: the loop that publishes a new snapshot of the mesh configuration whenever
    the collected routes or the policies have changed. */
module Snapshots {
  import opened Models
  import opened LeftoverWeights
  import opened Sequences
  import opened SidecarHosts

  /** A Go slice as reflect.DeepEqual sees it: nil differs from empty. Collect never returns an empty
      slice that is not nil, so routes are plain sequences. */
  datatype PolicyList = Nil | Items(items: seq<Policy>)

  /** The answer of the policy server; without a client the policies stay nil. */
  datatype Answer = NoClient | Failed | Fetched(policies: PolicyList)

  datatype Tick = Tick(routes: Routes, answer: Answer)

  datatype Input = Input(routes: Routes, policies: PolicyList)

  /** The kinds of resources a snapshot holds; from AuthenticationPolicies on they are always empty. */
  datatype Kind = Gateways | SidecarConfigs | VirtualServiceConfigs | DestinationRules | ServiceEntries
                | AuthenticationPolicies | AuthorizationPolicies | ClusterRbacConfigs | EnvoyFilters
                | HTTPAPISpecBindings | HTTPAPISpecs | MeshPolicies | QuotaSpecBindings | QuotaSpecs
                | ServiceRoleBindings | ServiceRoles | RbacConfigs

  const UNUSED: set<Kind> := {AuthenticationPolicies, AuthorizationPolicies, ClusterRbacConfigs, EnvoyFilters,
                              HTTPAPISpecBindings, HTTPAPISpecs, MeshPolicies, QuotaSpecBindings, QuotaSpecs,
                              ServiceRoleBindings, ServiceRoles, RbacConfigs}

  /** The bodies of the resources, as functions of what the loop passes to the builders. */
  datatype Config<Body> = Config(
    gateways: Body,
    sidecars: (Routes, PolicyList) -> Body,
    virtualServices: Routes -> Body,
    destinationRules: Routes -> Body,
    serviceEntries: Routes -> Body,
    empty: Body)

  datatype Versioned<Body> = Versioned(version: nat, body: Body)

  type Shot<Body> = map<Kind, Versioned<Body>>

  predicate Has<Body(==)>(shot: Shot<Body>, kind: Kind, version: nat, body: Body)
  {
    kind in shot && shot[kind] == Versioned(version, body)
  }

  /** The snapshot of the given version, with the bodies that a loop without a cache would publish for
      the input: the gateways and the unused kinds carry version 1 at all times. */
  predicate IsShotOf<Body(==)>(shot: Shot<Body>, config: Config<Body>, input: Input, version: nat)
  {
    && Has(shot, Gateways, 1, config.gateways)
    && Has(shot, SidecarConfigs, version, config.sidecars(input.routes, input.policies))
    && Has(shot, VirtualServiceConfigs, version, config.virtualServices(input.routes))
    && Has(shot, DestinationRules, version, config.destinationRules(input.routes))
    && Has(shot, ServiceEntries, version, config.serviceEntries(input.routes))
    && forall kind: Kind | !kind.Gateways? && !kind.SidecarConfigs? && !kind.VirtualServiceConfigs?
                           && !kind.DestinationRules? && !kind.ServiceEntries? ::
         Has(shot, kind, 1, config.empty)
  }

  datatype State<Body> = State(
    cachedRoutes: Routes,
    cachedPolicies: PolicyList,
    ver: nat,
    initialized: bool,
    builder: Shot<Body>,
    published: seq<Shot<Body>>)

  function Start<Body>(): State<Body>
  {
    State([], Nil, 0, false, map[], [])
  }

  function SetUnused<Body>(builder: Shot<Body>, empty: Body): Shot<Body>
  {
    builder + map kind | kind in UNUSED :: Versioned(1, empty)
  }

  /** What the builder holds after all kinds have been set on top of what it held before. */
  function Rebuilt<Body>(builder: Shot<Body>, config: Config<Body>, input: Input, version: nat): Shot<Body>
  {
    SetUnused(
      builder[Gateways := Versioned(1, config.gateways)]
             [SidecarConfigs := Versioned(version, config.sidecars(input.routes, input.policies))]
             [VirtualServiceConfigs := Versioned(version, config.virtualServices(input.routes))]
             [DestinationRules := Versioned(version, config.destinationRules(input.routes))]
             [ServiceEntries := Versioned(version, config.serviceEntries(input.routes))],
      config.empty)
  }

  /** The input of a tick; None when the policy server failed. */
  function InputOf(tick: Tick): Option<Input>
  {
    match tick.answer
    case NoClient => Some(Input(tick.routes, Nil))
    case Failed => None
    case Fetched(policies) => Some(Input(tick.routes, policies))
  }

  function Step<Body>(config: Config<Body>, s: State<Body>, tick: Tick): State<Body>
  {
    match InputOf(tick)
    case None => s
    case Some(input) =>
      if s.initialized && input == Input(s.cachedRoutes, s.cachedPolicies) then s
      else
        var shot := Rebuilt(s.builder, config, input, s.ver + 1);
        State(input.routes, input.policies, s.ver + 1, true, shot, s.published + [shot])
  }

  class Snapshot<Body> {
    const config: Config<Body>
    var cachedRoutes: Routes
    var cachedPolicies: PolicyList
    var ver: nat
    var initialized: bool
    var builder: Shot<Body>
    // the snapshots handed to the setter
    var published: seq<Shot<Body>>

    ghost function Contents(): State<Body>
      reads this
    {
      State(cachedRoutes, cachedPolicies, ver, initialized, builder, published)
    }

    constructor (config: Config<Body>)
      ensures Contents() == Start() && this.config == config
    {
      this.config := config;
      cachedRoutes, cachedPolicies, ver, initialized := [], Nil, 0, false;
      builder, published := map[], [];
    }

    method Set(kind: Kind, version: nat, body: Body)
      modifies this`builder
      ensures builder == old(builder)[kind := Versioned(version, body)]
    {
      builder := builder[kind := Versioned(version, body)];
    }

    method SetEmpty()
      modifies this`builder
      ensures builder == SetUnused(old(builder), config.empty)
    {
      builder := builder + map kind | kind in UNUSED :: Versioned(1, config.empty);
    }

    method Increment() returns (version: nat)
      modifies this`ver
      ensures ver == old(ver) + 1 == version
    {
      ver := ver + 1;
      version := ver;
    }

    /** Sets every kind of resource in the builder. */
    method Rebuild(input: Input, version: nat)
      modifies this`builder
      ensures builder == Rebuilt(old(builder), config, input, version)
    {
      Set(Gateways, 1, config.gateways);
      Set(SidecarConfigs, version, config.sidecars(input.routes, input.policies));
      Set(VirtualServiceConfigs, version, config.virtualServices(input.routes));
      Set(DestinationRules, version, config.destinationRules(input.routes));
      Set(ServiceEntries, version, config.serviceEntries(input.routes));
      SetEmpty();
    }

    /** The body of the loop for one tick. */
    method OnTick(tick: Tick)
      modifies this
      ensures Contents() == Step(config, old(Contents()), tick)
    {
      var routes := tick.routes;
      var policies := Nil;
      if tick.answer != NoClient {
        if tick.answer == Failed { return; }
        policies := tick.answer.policies;
      }
      if initialized && routes == cachedRoutes && policies == cachedPolicies { return; }

      var newVersion := Increment();
      cachedRoutes := routes;
      cachedPolicies := policies;
      Rebuild(Input(routes, policies), newVersion);
      published := published + [builder];
      initialized := true;
    }
  }

  // ----- runs

  function Run<Body>(config: Config<Body>, ticks: seq<Tick>): State<Body>
  {
    if ticks == [] then Start() else Step(config, Run(config, ticks[..|ticks| - 1]), ticks[|ticks| - 1])
  }

  /** The inputs of the successful ticks. */
  function Inputs(ticks: seq<Tick>): seq<Input>
  {
    if ticks == [] then []
    else
      match InputOf(ticks[|ticks| - 1])
      case None => Inputs(ticks[..|ticks| - 1])
      case Some(input) => Inputs(ticks[..|ticks| - 1]) + [input]
  }

  function Answered(): Tick -> bool
  {
    (tick: Tick) => tick.answer != Failed
  }

  /** The routes and policies of the tick; without a client the policies are nil. */
  predicate IsInput(input: Input, tick: Tick)
  {
    && input.routes == tick.routes
    && (tick.answer == NoClient ==> input.policies == Nil)
    && (tick.answer.Fetched? ==> input.policies == tick.answer.policies)
  }

  /** Every tick but the failed ones makes an input, of its routes and policies. */
  lemma {:induction false} InputsAre(ticks: seq<Tick>)
    ensures var answered := Filter(ticks, Answered());
      |Inputs(ticks)| == |answered| && forall i | 0 <= i < |answered| :: IsInput(Inputs(ticks)[i], answered[i])
  {
    if ticks != [] { InputsAre(ticks[..|ticks| - 1]); }
  }

  /** A sequence without the immediate repetitions. */
  function Changes<T(==)>(s: seq<T>): seq<T>
  {
    if s == [] then []
    else
      var front := Changes(s[..|s| - 1]);
      if front != [] && front[|front| - 1] == s[|s| - 1] then front else front + [s[|s| - 1]]
  }

  /** Changes leaves no two equal neighbours, and ends where the sequence ends. */
  lemma {:induction false} ChangesFacts<T>(s: seq<T>)
    ensures forall i | 0 <= i < |Changes(s)| - 1 :: Changes(s)[i] != Changes(s)[i + 1]
    ensures s != [] ==> Changes(s) != [] && Changes(s)[|Changes(s)| - 1] == s[|s| - 1]
    ensures s == [] ==> Changes(s) == []
  {
    if s != [] { ChangesFacts(s[..|s| - 1]); }
  }

  lemma RebuiltIsShot<Body>(builder: Shot<Body>, config: Config<Body>, input: Input, version: nat)
    ensures IsShotOf(Rebuilt(builder, config, input, version), config, input, version)
  {
    assert Gateways !in UNUSED && SidecarConfigs !in UNUSED && VirtualServiceConfigs !in UNUSED;
    assert DestinationRules !in UNUSED && ServiceEntries !in UNUSED;
  }

  /** The state after the given changes: one publication for each, the last one cached. */
  predicate Published<Body(==)>(config: Config<Body>, s: State<Body>, changes: seq<Input>)
  {
    && s.ver == |s.published| == |changes|
    && (s.initialized <==> changes != [])
    && (changes != [] ==> Input(s.cachedRoutes, s.cachedPolicies) == changes[|changes| - 1])
    && AreShotsOf(s.published, config, changes)
  }

  predicate AreShotsOf<Body(==)>(published: seq<Shot<Body>>, config: Config<Body>, changes: seq<Input>)
    requires |published| == |changes|
  {
    forall k | 0 <= k < |changes| :: IsShotOf(published[k], config, changes[k], k + 1)
  }

  lemma OneMoreShot<Body>(published: seq<Shot<Body>>, config: Config<Body>, changes: seq<Input>,
                          shot: Shot<Body>, input: Input)
    requires |published| == |changes| && AreShotsOf(published, config, changes)
    requires IsShotOf(shot, config, input, |changes| + 1)
    ensures AreShotsOf(published + [shot], config, changes + [input])
  {
  }

  lemma PublishedNext<Body>(config: Config<Body>, s: State<Body>, changes: seq<Input>, tick: Tick, input: Input)
    requires Published(config, s, changes) && InputOf(tick) == Some(input)
    ensures Published(config, Step(config, s, tick),
                      if changes != [] && changes[|changes| - 1] == input then changes else changes + [input])
  {
    var shot := Rebuilt(s.builder, config, input, s.ver + 1);
    assert AreShotsOf(s.published + [shot], config, changes + [input]) by {
      RebuiltIsShot(s.builder, config, input, s.ver + 1);
      OneMoreShot(s.published, config, changes, shot, input);
    }
  }

  /** The cached loop refines the plain one: what it publishes is, one version after the other, what
      is built from each change of the inputs of the successful ticks. */
  lemma {:induction false} PublishesChanges<Body>(config: Config<Body>, ticks: seq<Tick>)
    ensures Published(config, Run(config, ticks), Changes(Inputs(ticks)))
  {
    if ticks != [] {
      var front, tick := ticks[..|ticks| - 1], ticks[|ticks| - 1];
      PublishesChanges(config, front);
      if InputOf(tick).Some? {
        assert Inputs(ticks)[..|Inputs(ticks)| - 1] == Inputs(front);
        PublishedNext(config, Run(config, front), Changes(Inputs(front)), tick, InputOf(tick).value);
      }
    }
  }

  /** Consecutive publications come from different inputs, and after a successful tick the last
      publication has the bodies of that very tick, whatever was cached. */
  lemma PublicationsAreCurrent<Body>(config: Config<Body>, ticks: seq<Tick>)
    ensures var s, changes := Run(config, ticks), Changes(Inputs(ticks));
      && |s.published| == |changes|
      && (forall k | 0 <= k < |changes| - 1 :: changes[k] != changes[k + 1])
      && (ticks != [] && ticks[|ticks| - 1].answer != Failed ==>
            && s.published != []
            && var tick := ticks[|ticks| - 1];
               var policies := if tick.answer == NoClient then Nil else tick.answer.policies;
               IsShotOf(s.published[|s.published| - 1], config, Input(tick.routes, policies), |s.published|))
  {
    PublishesChanges(config, ticks);
    ChangesFacts(Inputs(ticks));
    var s, changes := Run(config, ticks), Changes(Inputs(ticks));
    if ticks != [] && InputOf(ticks[|ticks| - 1]).Some? {
      var last := |changes| - 1;
      assert Inputs(ticks)[|Inputs(ticks)| - 1] == InputOf(ticks[|ticks| - 1]).value;
      assert IsShotOf(s.published[last], config, changes[last], last + 1);
    }
  }

  /** A failed answer of the policy server, wherever it falls, leaves no trace. */
  lemma {:induction false} FailedTicksVanish<Body>(config: Config<Body>,
                                                   before: seq<Tick>, failed: Tick, after: seq<Tick>)
    requires failed.answer == Failed
    ensures Run(config, before + [failed] + after) == Run(config, before + after)
  {
    if after == [] {
      assert before + [failed] + after == before + [failed] && before + after == before;
      assert (before + [failed])[..|before|] == before;
    } else {
      var front, last := after[..|after| - 1], after[|after| - 1];
      FailedTicksVanish(config, before, failed, front);
      assert before + [failed] + after == (before + [failed] + front) + [last];
      assert before + after == (before + front) + [last];
      assert ((before + [failed] + front) + [last])[..|before + [failed] + front|] == before + [failed] + front;
      assert ((before + front) + [last])[..|before + front|] == before + front;
    }
  }
}
