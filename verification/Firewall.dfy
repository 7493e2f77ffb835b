/**
 * The firewall reconcile of firewall.go. Every call to firewalld may fail, and a failed
 * add or remove may or may not have taken effect; the history keeps the state after each
 * add and remove call, so it shows every intermediate state and counts the calls.
 */
module Firewall {
  import opened Wrappers
  import opened Text
  import opened Net
  import opened FirewallRules
  import opened FirewallState

  method Listing<T(==)>(s: set<T>) returns (l: seq<T>)
    ensures forall x :: x in l <==> x in s
  {
    l := [];
    var rest := s;
    while rest != {}
      invariant forall x :: x in s <==> x in l || x in rest
      decreases |rest|
    {
      var x :| x in rest;
      l, rest := l + [x], rest - {x};
    }
  }

  class Firewalld {
    var state: State
    const defaultZone: string
    ghost var history: seq<State>
    ghost var failures: nat

    ghost predicate Valid()
      reads this
    {
      history != [] && history[|history| - 1] == state && state.PairsOnly()
    }

    constructor (initial: State, zone: string)
      requires initial.PairsOnly()
      ensures Valid() && state == initial && defaultZone == zone && history == [initial]
    {
      state, defaultZone, history, failures := initial, zone, [initial], 0;
    }

    // Runtime calls substitute the default zone for an empty zone name.
    function Resolve(zone: string): string {
      if zone == "" then defaultZone else zone
    }

    method GetDefaultZone() returns (r: Option<string>)
      requires Valid()
      modifies this`failures
      ensures Valid() && failures == old(failures) + (if r.None? then 1 else 0)
      ensures r.Some? ==> r.value == defaultZone
    {
      if * {
        failures := failures + 1;
        return None;
      }
      return Some(defaultZone);
    }

    method ListZones(h: Half) returns (r: Option<seq<string>>)
      requires Valid()
      modifies this`failures
      ensures Valid() && failures == old(failures) + (if r.None? then 1 else 0)
      ensures r.Some? ==> forall z :: z in r.value <==> z in state.Get(h)
    {
      if * {
        failures := failures + 1;
        return None;
      }
      var l := Listing(state.Get(h).Keys);
      return Some(l);
    }

    method ListItems(h: Half, zone: string) returns (r: Option<seq<Item>>)
      requires Valid()
      modifies this`failures
      ensures Valid() && failures == old(failures) + (if r.None? then 1 else 0)
      ensures r.Some? ==> zone in state.Get(h) && forall it :: it in r.value <==> it in state.Get(h)[zone]
    {
      if zone !in state.Get(h) {
        failures := failures + 1;
        return None;
      }
      if * {
        failures := failures + 1;
        return None;
      }
      var l := Listing(state.Get(h)[zone]);
      return Some(l);
    }

    method Query(h: Half, zone: string, item: Item) returns (r: Option<bool>)
      requires Valid()
      modifies this`failures
      ensures Valid() && failures == old(failures) + (if r.None? then 1 else 0)
      ensures r.Some? ==> zone in state.Get(h) && r.value == (item in state.Get(h)[zone])
    {
      if zone !in state.Get(h) {
        failures := failures + 1;
        return None;
      }
      if * {
        failures := failures + 1;
        return None;
      }
      return Some(item in state.Get(h)[zone]);
    }

    // An add call fails on an unknown zone or an item already there, or for reasons of its
    // own; in the last case it may have been carried out all the same.
    method Add(h: Half, zone: string, item: Item) returns (ok: bool)
      requires Valid()
      requires item.Port? ==> |item.entry| == 2
      modifies this
      ensures Valid() && history == old(history) + [state] && failures == old(failures) + (if ok then 0 else 1)
      ensures state == old(state) ||
              (zone in old(state).Get(h) && state == old(state).With(h, zone, old(state).Get(h)[zone] + {item}))
      ensures ok ==> zone in state.Get(h) && item in state.Get(h)[zone]
    {
      ok := false;
      if zone in state.Get(h) && item !in state.Get(h)[zone] {
        if * {
          state := state.With(h, zone, state.Get(h)[zone] + {item});
          ok := *;
        }
      }
      history := history + [state];
      if !ok { failures := failures + 1; }
    }

    method Remove(h: Half, zone: string, item: Item) returns (ok: bool)
      requires Valid()
      modifies this
      ensures Valid() && history == old(history) + [state] && failures == old(failures) + (if ok then 0 else 1)
      ensures state == old(state) ||
              (zone in old(state).Get(h) && state == old(state).With(h, zone, old(state).Get(h)[zone] - {item}))
      ensures ok ==> zone in state.Get(h) && item !in state.Get(h)[zone]
    {
      ok := false;
      if zone in state.Get(h) && item in state.Get(h)[zone] {
        if * {
          state := state.With(h, zone, state.Get(h)[zone] - {item});
          ok := *;
        }
      }
      history := history + [state];
      if !ok { failures := failures + 1; }
    }
  }

  // item is what opening declaration p puts into zone, as named by the declaration.
  ghost predicate Opens(plan: Plan, p: PortConfig, zone: string, item: Item) {
    p in plan.ports && OpenItem(plan.net, p) == Ok(item) && zone == TrimSpace(p.zone)
  }

  method AddDeclared(fw: Firewalld, h: Half, zone: string, item: Item, ghost plan: Plan, ghost p: PortConfig)
    returns (ok: bool)
    requires fw.Valid() && plan.defaultZone == fw.defaultZone
    requires p in plan.ports && OpenItem(plan.net, p) == Ok(item) && zone == plan.Zone(p)
    modifies fw
    ensures fw.Valid() && plan.Extends(Adding, old(fw.history), fw.history)
    ensures fw.failures == old(fw.failures) + (if ok then 0 else 1)
    ensures old(fw.state).Within(fw.state)
    ensures ok ==> plan.OpenIn(h, fw.state, p)
  {
    hide OpenItem, Plan.Zone, PortKey;
    assert item.Port? ==> |item.entry| == 2 by {
      OpeningAgreesWithComparing(plan.net, p);
    }
    ok := fw.Add(h, zone, item);
    AddedIsOpening(plan, p, h, item, old(fw.state), fw.state);
    ExtendsByOne(plan, Adding, old(fw.history), fw.state);
    hide Plan.Extends;
  }

  // queryPort/addPort and queryRichRule/addRichRule on the runtime configuration.
  method OpenRuntime(fw: Firewalld, zone: string, item: Item, ghost plan: Plan, ghost p: PortConfig) returns (ok: bool)
    requires fw.Valid() && plan.defaultZone == fw.defaultZone && Opens(plan, p, zone, item)
    modifies fw
    ensures fw.Valid() && plan.Extends(Adding, old(fw.history), fw.history)
    ensures fw.failures == old(fw.failures) + (if ok then 0 else 1)
    ensures old(fw.state).Within(fw.state)
    ensures ok ==> plan.OpenIn(Runtime, fw.state, p)
    ensures old(plan.OpenIn(Runtime, fw.state, p)) ==> fw.history == old(fw.history)
  {
    hide OpenItem;
    var target := fw.Resolve(zone);
    var enabled := fw.Query(Runtime, target, item);
    if enabled.None? { return false; }
    if enabled.value { return true; }
    ok := AddDeclared(fw, Runtime, target, item, plan, p);
  }

  // ensurePermanentFirewallPort and ensurePermanentFirewallRichRule.
  method EnsurePermanent(fw: Firewalld, zone: string, item: Item, ghost plan: Plan, ghost p: PortConfig)
    returns (ok: bool)
    requires fw.Valid() && plan.defaultZone == fw.defaultZone && Opens(plan, p, zone, item)
    modifies fw
    ensures fw.Valid() && plan.Extends(Adding, old(fw.history), fw.history)
    ensures fw.failures == old(fw.failures) + (if ok then 0 else 1)
    ensures old(fw.state).Within(fw.state)
    ensures ok ==> plan.OpenIn(Permanent, fw.state, p)
    ensures old(plan.OpenIn(Permanent, fw.state, p)) ==> fw.history == old(fw.history)
  {
    hide OpenItem;
    var zoneName := zone;
    if zoneName == "" {
      var d := fw.GetDefaultZone();
      if d.None? { return false; }
      zoneName := d.value;
    }
    var enabled := fw.Query(Permanent, zoneName, item);
    if enabled.None? { return false; }
    if enabled.value { return true; }
    ok := AddDeclared(fw, Permanent, zoneName, item, plan, p);
  }

  method OpenDeclaredPort(fw: Firewalld, net: NetText, port: PortConfig, ghost plan: Plan) returns (ok: bool)
    requires fw.Valid() && plan.defaultZone == fw.defaultZone && plan.net == net && port in plan.ports
    modifies fw
    ensures fw.Valid() && plan.Extends(Adding, old(fw.history), fw.history)
    ensures old(fw.state).Within(fw.state)
    ensures fw.failures == old(fw.failures) + (if ok || OpenItem(net, port).Err? then 0 else 1)
    ensures ok ==> OpenItem(net, port).Ok?
    ensures ok ==> plan.IsOpen(fw.state, port)
    ensures old(plan.IsOpen(fw.state, port)) ==> fw.history == old(fw.history)
  {
    hide OpenItem, Plan.Zone, Plan.Extends, State.Within, Plan.OpenIn, TrimSpace;
    ExtendsRefl(plan, Adding, fw.history);
    WithinRefl(fw.state);
    var zone := TrimSpace(port.zone);
    var built := OpenItem(net, port);
    if built.Err? { return false; }
    var item := built.value;
    ok := OpenRuntime(fw, zone, item, plan, port);
    if ok {
      label afterOpen:
      ok := EnsurePermanent(fw, zone, item, plan, port);
      ExtendsTransitive(plan, Adding, old(fw.history), old@afterOpen(fw.history), fw.history);
      WithinTransitive(old(fw.state), old@afterOpen(fw.state), fw.state);
      OpenInStays(plan, Runtime, old@afterOpen(fw.state), fw.state, port);
    }
  }

  // Every declaration says what to open: its source, if it has one, can be read.
  predicate AllBuild(net: NetText, ports: seq<PortConfig>) {
    forall i | 0 <= i < |ports| :: OpenItem(net, ports[i]).Ok?
  }

  lemma NoneBuild(net: NetText)
    ensures AllBuild(net, [])
  {
  }

  lemma BuildsOneMore(net: NetText, ports: seq<PortConfig>, i: nat)
    requires i < |ports| && AllBuild(net, ports[..i])
    ensures AllBuild(net, ports[..i + 1]) <==> OpenItem(net, ports[i]).Ok?
    ensures AllBuild(net, ports) ==> OpenItem(net, ports[i]).Ok?
  {
    hide OpenItem;
    assert ports[..i + 1] == ports[..i] + [ports[i]] && ports[..i + 1][i] == ports[i];
  }

  method OpenDeclaredPorts(fw: Firewalld, net: NetText, ports: seq<PortConfig>, ghost plan: Plan) returns (ok: bool)
    requires fw.Valid() && plan == Plan(net, ports, fw.defaultZone)
    modifies fw
    ensures fw.Valid() && plan.Extends(Adding, old(fw.history), fw.history)
    ensures fw.failures >= old(fw.failures)
    ensures ok <==> fw.failures == old(fw.failures) && AllBuild(net, ports)
    ensures ok ==> plan.AllOpen(fw.state)
    ensures old(plan.AllOpen(fw.state)) ==> fw.history == old(fw.history)
  {
    hide Plan.IsOpen, Plan.Extends, State.Within, OpenItem, AllBuild;
    ExtendsRefl(plan, Adding, fw.history);
    NoneBuild(net);
    for i := 0 to |ports|
      invariant fw.Valid() && plan.Extends(Adding, old(fw.history), fw.history)
      invariant fw.failures == old(fw.failures) && AllBuild(net, ports[..i])
      invariant forall j | 0 <= j < i :: plan.IsOpen(fw.state, ports[j])
      invariant old(plan.AllOpen(fw.state)) ==> fw.history == old(fw.history)
    {
      label next:
      ok := OpenDeclaredPort(fw, net, ports[i], plan);
      ExtendsTransitive(plan, Adding, old(fw.history), old@next(fw.history), fw.history);
      BuildsOneMore(net, ports, i);
      if !ok { return; }
      forall j | 0 <= j < i ensures plan.IsOpen(fw.state, ports[j]) {
        OpenStaysOpen(plan, old@next(fw.state), fw.state, ports[j]);
      }
    }
    assert ports[..|ports|] == ports;
    ok := true;
  }

  function Lookup(m: map<string, DeclaredZone>, zone: string): DeclaredZone {
    if zone in m then m[zone] else DeclaredZone({}, {})
  }

  // declaredFirewallPorts: fills the per-zone sets declaration by declaration.
  method DeclaredPorts(net: NetText, ports: seq<PortConfig>, defaultZone: string)
    returns (r: Result<map<string, DeclaredZone>, RuleError>)
    ensures r.Ok? <==> forall p | p in ports && !IsPlain(p) :: CompareRule(net, p).Ok?
    ensures r.Ok? ==> forall z :: Lookup(r.value, z) == DeclaredAt(net, ports, defaultZone, z)
  {
    hide ZoneOf, IsPlain, CompareRule, PortKey, DeclaredAt;
    var declared := map[];
    EmptyDeclared(net, defaultZone);
    for i := 0 to |ports|
      invariant forall p | p in ports[..i] && !IsPlain(p) :: CompareRule(net, p).Ok?
      invariant forall z :: Lookup(declared, z) == DeclaredAt(net, ports[..i], defaultZone, z)
    {
      var port := ports[i];
      var zone := ZoneOf(port, defaultZone);
      var zoneDeclared := Lookup(declared, zone);
      var plain := IsPlain(port);
      var rule := CompareRule(net, port);
      if plain {
        zoneDeclared := zoneDeclared.(ports := zoneDeclared.ports + {PortKey(port.port, port.protocol)});
      } else {
        if rule.Err? {
          assert port in ports && !IsPlain(port);
          return Err(rule.error);
        }
        zoneDeclared := zoneDeclared.(richRules := zoneDeclared.richRules + {rule.value});
      }
      assert ports[..i + 1] == ports[..i] + [port];
      ghost var before := declared;
      declared := declared[zone := zoneDeclared];
      forall z ensures Lookup(declared, z) == DeclaredAt(net, ports[..i + 1], defaultZone, z) {
        DeclaredOneMore(net, ports[..i], port, defaultZone, z);
        assert Lookup(before, z) == DeclaredAt(net, ports[..i], defaultZone, z);
      }
    }
    assert ports[..|ports|] == ports;
    return Ok(declared);
  }

  lemma EmptyDeclared(net: NetText, defaultZone: string)
    ensures forall z :: DeclaredAt(net, [], defaultZone, z) == DeclaredZone({}, {})
  {
  }

  lemma DeclaredOneMore(net: NetText, ports: seq<PortConfig>, p: PortConfig, defaultZone: string, z: string)
    ensures var d, e := DeclaredAt(net, ports, defaultZone, z), DeclaredAt(net, ports + [p], defaultZone, z);
            if ZoneOf(p, defaultZone) != z then e == d
            else if IsPlain(p) then e == d.(ports := d.ports + {PortKey(p.port, p.protocol)})
            else if CompareRule(net, p).Ok? then e == d.(richRules := d.richRules + {CompareRule(net, p).value})
            else e == d
  {
    hide ZoneOf, IsPlain, CompareRule, PortKey;
  }

  // Removes one undeclared item.
  method RemoveUndeclared(fw: Firewalld, h: Half, zone: string, item: Item, ghost plan: Plan) returns (ok: bool)
    requires fw.Valid() && plan.AllOpen(fw.state) && !Allowed(plan.Declared(zone), item)
    modifies fw
    ensures fw.Valid() && plan.Extends(Removing, old(fw.history), fw.history)
    ensures fw.failures == old(fw.failures) + (if ok then 0 else 1)
    ensures fw.state.Within(old(fw.state)) && plan.AllOpen(fw.state)
    ensures ok ==> zone in fw.state.Get(h) && item !in fw.state.Get(h)[zone]
  {
    hide Allowed, Plan.Declared, Plan.AllOpen;
    ok := fw.Remove(h, zone, item);
    RemovedIsPruning(plan, h, zone, item, old(fw.state), fw.state);
    ExtendsByOne(plan, Removing, old(fw.history), fw.state);
    hide Plan.Extends;
  }

  // One item of a prune loop: skip what may stay, remove the rest.
  datatype Kind = Ports | RichRules | Services

  predicate OfKind(kind: Kind, item: Item) {
    match kind
    case Ports => item.Port?
    case RichRules => item.Rule?
    case Services => item.Service?
  }

  predicate Skip(kind: Kind, declared: DeclaredZone, item: Item) {
    match item
    case Port(e) => kind != Ports || |e| != 2 || PortKey(e[0], e[1]) in declared.ports
    case Rule(text) => kind != RichRules || text in declared.richRules
    case Service(_) => kind != Services
  }

  lemma SkipMeansAllowed(kind: Kind, declared: DeclaredZone, item: Item)
    ensures Skip(kind, declared, item) <==> !OfKind(kind, item) || Allowed(declared, item)
  {
    hide PortKey;
  }

  lemma ConvergedZone(plan: Plan, s: State, h: Half, zone: string, item: Item)
    requires zone in s.Get(h) && item in s.Get(h)[zone] && plan.Converged(s)
    ensures Allowed(plan.Declared(zone), item)
  {
    hide Plan.Declared, Allowed, Plan.AllOpen;
    assert plan.ZoneClean(h, s, zone);
  }

  // The body of a prune loop.
  method PruneItem(fw: Firewalld, h: Half, zone: string, kind: Kind, declared: DeclaredZone, item: Item,
      ghost plan: Plan) returns (ok: bool)
    requires fw.Valid() && plan.AllOpen(fw.state) && declared == plan.Declared(zone)
    requires zone in fw.state.Get(h)
    modifies fw
    ensures fw.Valid() && plan.Extends(Removing, old(fw.history), fw.history)
    ensures fw.failures == old(fw.failures) + (if ok then 0 else 1)
    ensures fw.state.Within(old(fw.state)) && plan.AllOpen(fw.state)
    ensures zone in fw.state.Get(h) && fw.state.Get(h)[zone] <= old(fw.state).Get(h)[zone]
    ensures ok ==> item !in fw.state.Get(h)[zone] || Skip(kind, declared, item)
    ensures old(plan.Converged(fw.state) && item in fw.state.Get(h)[zone]) ==>
              fw.history == old(fw.history) && fw.state == old(fw.state)
  {
    hide *;
    if Skip(kind, declared, item) {
      ExtendsNow(fw, plan);
      WithinRefl(fw.state);
      return true;
    }
    SkipMeansAllowed(kind, declared, item);
    if plan.Converged(fw.state) && item in fw.state.Get(h)[zone] {
      ConvergedZone(plan, fw.state, h, zone, item);
    }
    ok := RemoveUndeclared(fw, h, zone, item, plan);
    WithinZone(fw.state, old(fw.state), h, zone);
  }

  // The six prune loops: one kind of entry of one zone in one configuration. The loop
  // walks the listing taken before it, while the live set shrinks.
  method PruneZoneKind(fw: Firewalld, h: Half, zone: string, kind: Kind, declared: DeclaredZone, ghost plan: Plan)
    returns (ok: bool)
    requires fw.Valid() && plan.defaultZone == fw.defaultZone
    requires plan.AllOpen(fw.state) && declared == plan.Declared(zone)
    modifies fw
    ensures fw.Valid() && plan.Extends(Removing, old(fw.history), fw.history)
    ensures fw.failures == old(fw.failures) + (if ok then 0 else 1)
    ensures fw.state.Within(old(fw.state)) && plan.AllOpen(fw.state)
    ensures ok ==>
              && zone in fw.state.Get(h)
              && forall it | it in fw.state.Get(h)[zone] && OfKind(kind, it) :: Allowed(declared, it)
    ensures old(plan.Converged(fw.state)) ==> fw.history == old(fw.history)
  {
    hide *;
    ExtendsNow(fw, plan);
    WithinRefl(fw.state);
    var listing := fw.ListItems(h, zone);
    if listing.None? { return false; }
    var current := listing.value;
    for i := 0 to |current|
      invariant fw.Valid() && plan.Extends(Removing, old(fw.history), fw.history)
      invariant fw.state.Within(old(fw.state)) && plan.AllOpen(fw.state)
      invariant zone in fw.state.Get(h) && fw.state.Get(h)[zone] <= old(fw.state).Get(h)[zone]
      invariant fw.failures == old(fw.failures)
      invariant forall j | 0 <= j < i :: current[j] in fw.state.Get(h)[zone] ==> Skip(kind, declared, current[j])
      invariant old(plan.Converged(fw.state)) ==> fw.history == old(fw.history) && fw.state == old(fw.state)
    {
      label next:
      ok := PruneItem(fw, h, zone, kind, declared, current[i], plan);
      ExtendsTransitive(plan, Removing, old(fw.history), old@next(fw.history), fw.history);
      WithinTransitive(fw.state, old@next(fw.state), old(fw.state));
      if !ok { return; }
    }
    forall it | it in fw.state.Get(h)[zone] ensures OfKind(kind, it) ==> Allowed(declared, it) {
      SkipMeansAllowed(kind, declared, it);
      assert it in current;
    }
    ok := true;
  }

  lemma ExtendsNow(fw: Firewalld, plan: Plan)
    requires fw.Valid()
    ensures plan.Extends(Removing, fw.history, fw.history)
  {
    ExtendsRefl(plan, Removing, fw.history);
  }

  // pruneRuntimeZone and prunePermanentZone.
  method PruneZone(fw: Firewalld, h: Half, zone: string, declared: DeclaredZone, ghost plan: Plan) returns (ok: bool)
    requires fw.Valid() && plan.defaultZone == fw.defaultZone
    requires plan.AllOpen(fw.state) && declared == plan.Declared(zone)
    modifies fw
    ensures fw.Valid() && plan.Extends(Removing, old(fw.history), fw.history)
    ensures fw.failures == old(fw.failures) + (if ok then 0 else 1)
    ensures fw.state.Within(old(fw.state)) && plan.AllOpen(fw.state)
    ensures ok ==> plan.ZoneClean(h, fw.state, zone)
    ensures old(plan.Converged(fw.state)) ==> fw.history == old(fw.history)
  {
    hide Plan.AllOpen, Plan.Declared, Allowed, Plan.Step;
    ok := PruneZoneKind(fw, h, zone, Ports, declared, plan);
    if !ok { return; }
    label ports:
    ok := PruneZoneKind(fw, h, zone, RichRules, declared, plan);
    ExtendsTransitive(plan, Removing, old(fw.history), old@ports(fw.history), fw.history);
    WithinTransitive(fw.state, old@ports(fw.state), old(fw.state));
    if !ok { return; }
    label rules:
    assert fw.state.Get(h)[zone] <= old@ports(fw.state).Get(h)[zone];
    ok := PruneZoneKind(fw, h, zone, Services, declared, plan);
    ExtendsTransitive(plan, Removing, old(fw.history), old@rules(fw.history), fw.history);
    WithinTransitive(fw.state, old@rules(fw.state), old(fw.state));
    if ok {
      assert fw.state.Get(h)[zone] <= old@rules(fw.state).Get(h)[zone];
      forall it | it in fw.state.Get(h)[zone] ensures Allowed(declared, it) {
        assert OfKind(Ports, it) || OfKind(RichRules, it) || OfKind(Services, it);
      }
    }
  }

  // removeUnmanagedRuntimeRules and removeUnmanagedPermanentRules.
  method PruneHalf(fw: Firewalld, h: Half, declared: map<string, DeclaredZone>, ghost plan: Plan) returns (ok: bool)
    requires fw.Valid() && plan.defaultZone == fw.defaultZone && plan.AllOpen(fw.state)
    requires forall z :: Lookup(declared, z) == plan.Declared(z)
    modifies fw
    ensures fw.Valid() && plan.Extends(Removing, old(fw.history), fw.history)
    ensures fw.failures == old(fw.failures) + (if ok then 0 else 1)
    ensures fw.state.Within(old(fw.state)) && plan.AllOpen(fw.state)
    ensures ok ==> forall z | z in fw.state.Get(h) :: plan.ZoneClean(h, fw.state, z)
    ensures old(plan.Converged(fw.state)) ==> fw.history == old(fw.history)
  {
    hide Plan.AllOpen, Plan.Declared, Plan.ZoneClean, Plan.Converged, Plan.Step;
    var listing := fw.ListZones(h);
    if listing.None? { return false; }
    var zones := listing.value;
    for i := 0 to |zones|
      invariant fw.Valid() && plan.Extends(Removing, old(fw.history), fw.history)
      invariant fw.state.Within(old(fw.state)) && plan.AllOpen(fw.state)
      invariant fw.failures == old(fw.failures)
      invariant forall j | 0 <= j < i :: plan.ZoneClean(h, fw.state, zones[j])
      invariant old(plan.Converged(fw.state)) ==> fw.history == old(fw.history)
    {
      label next:
      ok := PruneZone(fw, h, zones[i], Lookup(declared, zones[i]), plan);
      ExtendsTransitive(plan, Removing, old(fw.history), old@next(fw.history), fw.history);
      WithinTransitive(fw.state, old@next(fw.state), old(fw.state));
      if !ok { return; }
      forall j | 0 <= j < i ensures plan.ZoneClean(h, fw.state, zones[j]) {
        CleanStaysClean(plan, h, old@next(fw.state), fw.state, zones[j]);
      }
    }
    ok := true;
  }

  method RemoveUnmanagedRules(fw: Firewalld, declared: map<string, DeclaredZone>, ghost plan: Plan) returns (ok: bool)
    requires fw.Valid() && plan.defaultZone == fw.defaultZone && plan.AllOpen(fw.state)
    requires forall z :: Lookup(declared, z) == plan.Declared(z)
    modifies fw
    ensures fw.Valid() && plan.Extends(Removing, old(fw.history), fw.history)
    ensures fw.failures == old(fw.failures) + (if ok then 0 else 1)
    ensures ok ==> plan.Converged(fw.state)
    ensures old(plan.Converged(fw.state)) ==> fw.history == old(fw.history)
  {
    ok := PruneHalf(fw, Runtime, declared, plan);
    if !ok { return; }
    label runtime:
    ok := PruneHalf(fw, Permanent, declared, plan);
    hide Plan.AllOpen, Plan.Declared, Plan.ZoneClean, Plan.Step;
    ExtendsTransitive(plan, Removing, old(fw.history), old@runtime(fw.history), fw.history);
    if ok {
      forall z | z in fw.state.runtime ensures plan.ZoneClean(Runtime, fw.state, z) {
        assert z in old@runtime(fw.state).Get(Runtime);
        CleanStaysClean(plan, Runtime, old@runtime(fw.state), fw.state, z);
      }
      forall z | z in fw.state.permanent ensures plan.ZoneClean(Permanent, fw.state, z) {
        assert z in fw.state.Get(Permanent);
      }
    }
  }

  // configureFirewallPorts. When firewalld cannot be started, an empty list is a success
  // that changes nothing and a non-empty one a failure that changes nothing.
  method ConfigureFirewallPorts(fw: Firewalld, net: NetText, ports: seq<PortConfig>, running: bool) returns (ok: bool)
    requires fw.Valid()
    modifies fw
    ensures fw.Valid()
    ensures !running ==> fw.history == old(fw.history) && fw.failures == old(fw.failures) && ok == (ports == [])
    ensures Plan(net, ports, fw.defaultZone).Extends(Either, old(fw.history), fw.history)
    ensures fw.failures >= old(fw.failures)
    ensures running ==> (ok <==> fw.failures == old(fw.failures) && AllBuild(net, ports))
    ensures running && ok ==> Plan(net, ports, fw.defaultZone).Converged(fw.state)
    ensures old(Plan(net, ports, fw.defaultZone).Converged(fw.state)) ==> fw.history == old(fw.history)
  {
    if !running {
      return ports == [];
    }
    var d := fw.GetDefaultZone();
    if d.None? { return false; }
    ghost var plan := Plan(net, ports, fw.defaultZone);
    hide OpenItem, DeclaredAt, Plan.Converged, Plan.Step, Plan.IsOpen;
    ok := OpenDeclaredPorts(fw, net, ports, plan);
    label afterOpen:
    ConvergedIsOpen(plan, old(fw.state));
    AddingIsEither(plan, old(fw.history), fw.history);
    if !ok { return; }
    var declared := DeclaredPorts(net, ports, d.value);
    if declared.Err? {
      OpenedRulesBuild(plan, fw.state);
      assert false;
    }
    assert forall z :: Lookup(declared.value, z) == plan.Declared(z);
    ok := RemoveUnmanagedRules(fw, declared.value, plan);
    OpenThenPrune(plan, old(fw.history), old@afterOpen(fw.history), fw.history);
  }

  lemma ConvergedIsOpen(plan: Plan, s: State)
    ensures plan.Converged(s) ==> plan.AllOpen(s)
  {
  }

  lemma AddingIsEither(plan: Plan, a: seq<State>, b: seq<State>)
    requires plan.Extends(Adding, a, b)
    ensures plan.Extends(Either, a, b)
  {
    hide Plan.Opening, Plan.Pruning;
  }

  // Grouping the declarations cannot fail once every one of them has been opened.
  lemma OpenedRulesBuild(plan: Plan, s: State)
    requires plan.AllOpen(s)
    ensures forall p | p in plan.ports && !IsPlain(p) :: CompareRule(plan.net, p).Ok?
  {
    forall p | p in plan.ports && !IsPlain(p) ensures CompareRule(plan.net, p).Ok? {
      OpeningAgreesWithComparing(plan.net, p);
      assert plan.IsOpen(s, p);
      hide OpenItem, CompareRule, IsPlain;
    }
  }
}
