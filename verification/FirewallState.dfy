/**
 * States of firewalld and the steps a reconcile may take between them. A run is the
 * sequence of states its add and remove calls went through.
 */
module FirewallState {
  import opened Wrappers
  import opened Net
  import opened FirewallRules

  datatype Half = Runtime | Permanent

  type Zones = map<string, set<Item>>

  datatype State = State(runtime: Zones, permanent: Zones) {
    function Get(h: Half): Zones {
      if h.Runtime? then runtime else permanent
    }

    function With(h: Half, zone: string, items: set<Item>): State {
      if h.Runtime? then this.(runtime := runtime[zone := items])
      else this.(permanent := permanent[zone := items])
    }

    // The permanent configuration only ever holds (port, protocol) pairs.
    ghost predicate PairsOnly() {
      forall z, e | z in permanent && Port(e) in permanent[z] :: |e| == 2
    }

    ghost predicate SameZones(t: State) {
      runtime.Keys == t.runtime.Keys && permanent.Keys == t.permanent.Keys
    }

    // Every zone of t holds at least what this state holds.
    ghost predicate Within(t: State) {
      SameZones(t) && forall h, z | z in Get(h) :: Get(h)[z] <= t.Get(h)[z]
    }
  }

  // What a reconcile is asked for, and the default zone it runs under.
  datatype Plan = Plan(net: NetText, ports: seq<PortConfig>, defaultZone: string) {
    function Declared(zone: string): DeclaredZone {
      DeclaredAt(net, ports, defaultZone, zone)
    }

    function Zone(p: PortConfig): string {
      ZoneOf(p, defaultZone)
    }

    // The declaration p is open in one of the two configurations.
    predicate OpenIn(h: Half, s: State, p: PortConfig) {
      OpenItem(net, p).Ok? && Zone(p) in s.Get(h) && OpenItem(net, p).value in s.Get(h)[Zone(p)]
    }

    predicate IsOpen(s: State, p: PortConfig) {
      OpenIn(Runtime, s, p) && OpenIn(Permanent, s, p)
    }

    predicate AllOpen(s: State) {
      forall p | p in ports :: IsOpen(s, p)
    }

    // An opening step adds at most declared items, each to the zone it is declared for.
    ghost predicate Opening(a: State, b: State) {
      && a.Within(b)
      && forall h, z, it | z in a.Get(h) && it in b.Get(h)[z] && it !in a.Get(h)[z] ::
           exists p :: p in ports && Zone(p) == z && OpenItem(net, p) == Ok(it)
    }

    // A pruning step happens with everything declared open, and removes undeclared items.
    ghost predicate Pruning(a: State, b: State) {
      && AllOpen(a)
      && b.Within(a)
      && forall h, z, it | z in a.Get(h) && it in a.Get(h)[z] && it !in b.Get(h)[z] ::
           !Allowed(Declared(z), it)
    }

    ghost predicate Step(phase: Phase, a: State, b: State) {
      match phase
      case Adding => Opening(a, b)
      case Removing => Pruning(a, b)
      case Either => Opening(a, b) || Pruning(a, b)
    }

    // later extends earlier by steps of the given phase.
    ghost predicate Extends(phase: Phase, earlier: seq<State>, later: seq<State>) {
      && 0 < |earlier| <= |later| && later[..|earlier|] == earlier
      && forall k | |earlier| - 1 <= k < |later| - 1 :: Step(phase, later[k], later[k + 1])
    }

    // A zone holds exactly what is declared for it, ports compared by key.
    predicate ZoneClean(h: Half, s: State, z: string) {
      z in s.Get(h) && forall it | it in s.Get(h)[z] :: Allowed(Declared(z), it)
    }

    predicate Converged(s: State) {
      && AllOpen(s)
      && (forall z | z in s.runtime :: ZoneClean(Runtime, s, z))
      && (forall z | z in s.permanent :: ZoneClean(Permanent, s, z))
    }
  }

  datatype Phase = Adding | Removing | Either

  // What an operator sees of a zone: keys of the well-formed ports, rules and services.
  datatype ZoneView = ZoneView(ports: set<string>, rules: set<string>, services: set<string>)

  function View(items: set<Item>): ZoneView {
    ZoneView(
      set it | it in items && it.Port? && |it.entry| == 2 :: PortKey(it.entry[0], it.entry[1]),
      set it | it in items && it.Rule? :: it.text,
      set it | it in items && it.Service? :: it.name)
  }

  lemma ExtendsTransitive(plan: Plan, phase: Phase, a: seq<State>, b: seq<State>, c: seq<State>)
    requires plan.Extends(phase, a, b) && plan.Extends(phase, b, c)
    ensures plan.Extends(phase, a, c)
  {
    assert c[..|a|] == b[..|a|];
    forall k | |a| - 1 <= k < |c| - 1 ensures plan.Step(phase, c[k], c[k + 1]) {
      if k < |b| - 1 {
        assert c[k] == b[k] && c[k + 1] == b[k + 1];
      }
    }
  }

  lemma ExtendsByOne(plan: Plan, phase: Phase, h: seq<State>, s: State)
    requires h != [] && plan.Step(phase, h[|h| - 1], s)
    ensures plan.Extends(phase, h, h + [s])
  {
    hide Plan.Step;
  }

  lemma ExtendsRefl(plan: Plan, phase: Phase, h: seq<State>)
    requires h != []
    ensures plan.Extends(phase, h, h)
  {
  }

  // Adding a declaration's own item to its own zone is an opening step.
  lemma AddedIsOpening(plan: Plan, p: PortConfig, h: Half, item: Item, a: State, b: State)
    requires p in plan.ports && OpenItem(plan.net, p) == Ok(item)
    requires b == a || (plan.Zone(p) in a.Get(h) && b == a.With(h, plan.Zone(p), a.Get(h)[plan.Zone(p)] + {item}))
    ensures plan.Opening(a, b)
  {
    hide OpenItem, ZoneOf;
  }

  // Openings first, removals after: together one run.
  lemma OpenThenPrune(plan: Plan, a: seq<State>, b: seq<State>, c: seq<State>)
    requires plan.Extends(Adding, a, b) && plan.Extends(Removing, b, c)
    ensures plan.Extends(Either, a, c)
  {
    assert plan.Extends(Either, a, b) && plan.Extends(Either, b, c);
    ExtendsTransitive(plan, Either, a, b, c);
  }

  lemma WithinRefl(a: State)
    ensures a.Within(a)
  {
  }

  lemma WithinZone(a: State, b: State, h: Half, z: string)
    requires a.Within(b) && (z in a.Get(h) || z in b.Get(h))
    ensures z in a.Get(h) && z in b.Get(h) && a.Get(h)[z] <= b.Get(h)[z]
  {
  }

  lemma WithinTransitive(a: State, b: State, c: State)
    requires a.Within(b) && b.Within(c)
    ensures a.Within(c)
  {
    forall h, z | z in a.Get(h) ensures a.Get(h)[z] <= c.Get(h)[z] {
      assert z in b.Get(h);
    }
  }

  lemma OpenInStays(plan: Plan, h: Half, a: State, b: State, p: PortConfig)
    requires plan.OpenIn(h, a, p) && a.Within(b)
    ensures plan.OpenIn(h, b, p)
  {
    hide OpenItem, ZoneOf;
  }

  lemma OpenStaysOpen(plan: Plan, a: State, b: State, p: PortConfig)
    requires plan.IsOpen(a, p) && a.Within(b)
    ensures plan.IsOpen(b, p)
  {
    hide OpenItem, ZoneOf, DeclaredAt, Allowed;
  }

  lemma CleanStaysClean(plan: Plan, h: Half, a: State, b: State, z: string)
    requires plan.ZoneClean(h, a, z) && b.Within(a)
    ensures plan.ZoneClean(h, b, z)
  {
    assert b.Get(h)[z] <= a.Get(h)[z];
  }

  // One step, whichever it is, keeps a declared item that was there.
  lemma StepKeepsDeclared(plan: Plan, a: State, b: State, p: PortConfig, h: Half)
    requires plan.Step(Either, a, b)
    requires p in plan.ports && plan.OpenIn(h, a, p)
    ensures plan.OpenIn(h, b, p)
  {
    hide OpenItem, ZoneOf, DeclaredAt, Allowed;
    OpenedIsAllowed(plan.net, plan.ports, plan.defaultZone, p);
    var z, it := plan.Zone(p), OpenItem(plan.net, p).value;
    assert plan.Pruning(a, b) ==> it in b.Get(h)[z] || !Allowed(plan.Declared(z), it);
  }

  // Removing an undeclared item is a pruning step, and leaves everything declared open.
  lemma RemovedIsPruning(plan: Plan, h: Half, zone: string, item: Item, a: State, b: State)
    requires plan.AllOpen(a) && !Allowed(plan.Declared(zone), item)
    requires b == a || (zone in a.Get(h) && b == a.With(h, zone, a.Get(h)[zone] - {item}))
    ensures plan.Pruning(a, b) && plan.AllOpen(b)
  {
    hide Plan.IsOpen, Allowed, Plan.Declared;
    assert plan.Pruning(a, b);
    forall p | p in plan.ports ensures plan.IsOpen(b, p) {
      assert plan.IsOpen(a, p);
      StillOpen(plan, a, b, p);
    }
  }

  lemma StillOpen(plan: Plan, a: State, b: State, p: PortConfig)
    requires plan.Step(Either, a, b) && p in plan.ports && plan.IsOpen(a, p)
    ensures plan.IsOpen(b, p)
  {
    hide Plan.Step, Plan.OpenIn;
    StepKeepsDeclared(plan, a, b, p, Runtime);
    StepKeepsDeclared(plan, a, b, p, Permanent);
  }

  // Along any run, cut short wherever it may be, a declared item once present stays.
  lemma {:induction false} DeclaredNeverLost(plan: Plan, start: seq<State>, run: seq<State>, i: nat, j: nat,
      p: PortConfig, h: Half)
    requires plan.Extends(Either, start, run)
    requires |start| - 1 <= i <= j < |run|
    requires p in plan.ports && plan.OpenIn(h, run[i], p)
    ensures plan.OpenIn(h, run[j], p)
    decreases j
  {
    hide Plan.Step, Plan.OpenIn;
    if i < j {
      DeclaredNeverLost(plan, start, run, i, j - 1, p, h);
      StepKeepsDeclared(plan, run[j - 1], run[j], p, h);
    }
  }

  // Nothing at all is removed before every declaration is open in both configurations,
  // and from then on every declaration stays open.
  lemma RemovalOnlyWhenAllOpen(plan: Plan, start: seq<State>, run: seq<State>, k: nat, h: Half, z: string, it: Item)
    requires plan.Extends(Either, start, run)
    requires |start| - 1 <= k < |run| - 1
    requires z in run[k].Get(h) && it in run[k].Get(h)[z]
    requires z !in run[k + 1].Get(h) || it !in run[k + 1].Get(h)[z]
    ensures !Allowed(plan.Declared(z), it)
    ensures forall j | k <= j < |run| :: plan.AllOpen(run[j])
  {
    hide OpenItem, ZoneOf, DeclaredAt, Allowed;
    assert plan.Step(Either, run[k], run[k + 1]);
    assert plan.Pruning(run[k], run[k + 1]);
    forall j, p | k <= j < |run| && p in plan.ports ensures plan.IsOpen(run[j], p) {
      assert plan.IsOpen(run[k], p);
      DeclaredNeverLost(plan, start, run, k, j, p, Runtime);
      DeclaredNeverLost(plan, start, run, k, j, p, Permanent);
    }
  }

  lemma DeclaredKeysShown(plan: Plan, s: State, h: Half, z: string, key: string)
    requires plan.AllOpen(s) && z in s.Get(h) && key in plan.Declared(z).ports
    ensures key in View(s.Get(h)[z]).ports
  {
    hide OpenItem, ZoneOf, PortKey, IsPlain;
    var p :| p in plan.ports && plan.Zone(p) == z && IsPlain(p) && key == PortKey(p.port, p.protocol);
    OpeningAgreesWithComparing(plan.net, p);
    assert plan.IsOpen(s, p);
    var item := OpenItem(plan.net, p).value;
    assert item in s.Get(h)[z] && item.Port? && |item.entry| == 2;
  }

  lemma DeclaredRulesShown(plan: Plan, s: State, h: Half, z: string, rule: string)
    requires plan.AllOpen(s) && z in s.Get(h) && rule in plan.Declared(z).richRules
    ensures rule in View(s.Get(h)[z]).rules
  {
    hide OpenItem, ZoneOf, CompareRule, IsPlain;
    var p :| p in plan.ports && plan.Zone(p) == z && !IsPlain(p) && CompareRule(plan.net, p) == Ok(rule);
    OpeningAgreesWithComparing(plan.net, p);
    assert plan.IsOpen(s, p);
    var item := OpenItem(plan.net, p).value;
    assert item in s.Get(h)[z] && item == Rule(rule);
  }

  // A converged zone shows exactly the declared keys, exactly the declared rules, no service.
  lemma ConvergedView(plan: Plan, s: State, h: Half, z: string)
    requires plan.Converged(s) && z in s.Get(h)
    ensures View(s.Get(h)[z]) == ZoneView(plan.Declared(z).ports, plan.Declared(z).richRules, {})
  {
    hide DeclaredAt, PortKey, Plan.AllOpen;
    var d, v := plan.Declared(z), View(s.Get(h)[z]);
    forall key | key in d.ports ensures key in v.ports {
      DeclaredKeysShown(plan, s, h, z, key);
    }
    forall rule | rule in d.richRules ensures rule in v.rules {
      DeclaredRulesShown(plan, s, h, z, rule);
    }
    assert plan.ZoneClean(h, s, z);
  }

  // firewalld's reload: the runtime configuration becomes the permanent one.
  function Reload(s: State): State {
    State(s.permanent, s.permanent)
  }

  // After convergence a reload shows an operator no difference in any zone.
  lemma ReloadChangesNothing(plan: Plan, s: State, z: string)
    requires plan.Converged(s) && z in s.runtime && z in s.permanent
    ensures View(Reload(s).runtime[z]) == View(s.runtime[z])
    ensures plan.Converged(Reload(s))
  {
    ConvergedView(plan, s, Runtime, z);
    ConvergedView(plan, s, Permanent, z);
    forall p | p in plan.ports ensures plan.IsOpen(Reload(s), p) {
      assert plan.IsOpen(s, p);
    }
    forall y | y in s.permanent ensures plan.ZoneClean(Runtime, Reload(s), y) {
      assert plan.ZoneClean(Permanent, s, y);
    }
    forall y | y in s.permanent ensures plan.ZoneClean(Permanent, Reload(s), y) {
      assert plan.ZoneClean(Permanent, s, y);
    }
  }

  // The outcome depends on the plan alone: whatever two histories led there, two converged
  // firewalls show the same zone the same way.
  lemma OutcomeDependsOnPlanOnly(plan: Plan, s: State, t: State, h: Half, g: Half, z: string)
    requires plan.Converged(s) && plan.Converged(t)
    requires z in s.Get(h) && z in t.Get(g)
    ensures View(s.Get(h)[z]) == View(t.Get(g)[z])
  {
    ConvergedView(plan, s, h, z);
    ConvergedView(plan, t, g, z);
  }
}
