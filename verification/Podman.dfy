/**
 * The container reconcile of podman.go and the container phase of orchestration.go. Every
 * call to Podman may fail, and a failed call may or may not have taken effect; the history
 * keeps the state after each call that may change something.
 */
module Podman {
  import opened Wrappers
  import opened ContainerConfig
  import opened PodmanState

  datatype Instance = Instance(id: string, box: Container) {
    // The same container, in whatever run state.
    predicate Like(other: Instance) {
      id == other.id && box.spec == other.box.spec
    }
  }

  // Podman keeps container names unique; images are the references in local storage.
  datatype State = State(containers: map<string, Instance>, images: set<string>) {
    function View(): World {
      World(map n | n in containers :: containers[n].box, images)
    }

    predicate Holds(name: string, other: State) {
      if name in containers then name in other.containers && containers[name] == other.containers[name]
      else name !in other.containers
    }

    // Everything but the named container is as in the other state.
    ghost predicate SameElse(other: State, name: string) {
      forall n | n != name :: Holds(n, other)
    }

    function SetState(name: string, state: string): State
      requires name in containers
    {
      var x := containers[name];
      this.(containers := containers[name := x.(box := x.box.(state := state))])
    }
  }

  /* ---- the steps a run may take ---- */

  // A call made while reconciling c: made only while c's container is not up to date, it
  // touches that container alone, brings in at most its image, and lets the container go
  // only when the image is there. A container that stays keeps its id and settings; one that
  // comes has the settings c asks for.
  ghost predicate Touches(digest: Digest, c: Config, a: State, b: State) {
    && !Current(digest, a.View(), c)
    && a.SameElse(b, c.name)
    && a.images <= b.images <= a.images + {c.image}
    && (c.name in a.containers && c.name !in b.containers ==> c.image in a.images)
    && (c.name in a.containers && c.name in b.containers ==> a.containers[c.name].Like(b.containers[c.name]))
    && (c.name !in a.containers && c.name in b.containers ==>
      c.Valid() && b.containers[c.name].box.spec == Desired(digest, c))
  }

  // Stopping an unmanaged container changes its run state and nothing else.
  ghost predicate Stops(configs: seq<Config>, a: State, b: State) {
    a == b || exists n, st :: n in a.containers && !Declared(configs, n) && b == a.SetState(n, st)
  }

  // Which calls a stretch of a run is made of: those that stop unmanaged containers, those
  // that reconcile one container, those that reconcile any declared one, or all of these.
  datatype Part =
    | Stopping(configs: seq<Config>)
    | Reconciling(config: Config)
    | ReconcilingAny(configs: seq<Config>)
    | Phase(configs: seq<Config>)

  ghost predicate Step(digest: Digest, part: Part, a: State, b: State) {
    match part
    case Stopping(configs) => Stops(configs, a, b)
    case Reconciling(c) => Touches(digest, c, a, b)
    case ReconcilingAny(configs) => TouchesAny(digest, configs, a, b)
    case Phase(configs) => Stops(configs, a, b) || TouchesAny(digest, configs, a, b)
  }

  ghost predicate TouchesAny(digest: Digest, configs: seq<Config>, a: State, b: State) {
    exists i :: 0 <= i < |configs| && Touches(digest, configs[i], a, b)
  }

  // later extends earlier by calls of that part.
  ghost predicate Extends(digest: Digest, part: Part, earlier: seq<State>, later: seq<State>) {
    && 0 < |earlier| <= |later| && later[..|earlier|] == earlier
    && forall k | |earlier| - 1 <= k < |later| - 1 :: Step(digest, part, later[k], later[k + 1])
  }

  lemma ExtendsRefl(digest: Digest, part: Part, h: seq<State>)
    requires h != []
    ensures Extends(digest, part, h, h)
  {
  }

  lemma ExtendsByOne(digest: Digest, part: Part, start: seq<State>, h: seq<State>, s: State)
    requires Extends(digest, part, start, h) && Step(digest, part, h[|h| - 1], s)
    ensures Extends(digest, part, start, h + [s])
  {
    hide Step;
  }

  lemma ExtendsTransitive(digest: Digest, part: Part, a: seq<State>, b: seq<State>, c: seq<State>)
    requires Extends(digest, part, a, b) && Extends(digest, part, b, c)
    ensures Extends(digest, part, a, c)
  {
    hide Step;
    assert c[..|a|] == b[..|a|];
    forall k | |a| - 1 <= k < |c| - 1 ensures Step(digest, part, c[k], c[k + 1]) {
      if k < |b| - 1 {
        assert c[k] == b[k] && c[k + 1] == b[k + 1];
      }
    }
  }

  // The narrower parts are parts of the wider ones.
  predicate Within(narrow: Part, wide: Part) {
    || narrow == wide
    || (narrow.Stopping? && wide == Phase(narrow.configs))
    || (narrow.ReconcilingAny? && wide == Phase(narrow.configs))
    || (narrow.Reconciling? && wide.ReconcilingAny? && narrow.config in wide.configs)
  }

  lemma Widen(digest: Digest, narrow: Part, wide: Part, a: seq<State>, b: seq<State>)
    requires Within(narrow, wide) && Extends(digest, narrow, a, b)
    ensures Extends(digest, wide, a, b)
  {
    hide Touches, Stops;
  }

  // While unmanaged containers are being stopped no declared container changes in any way,
  // and no image comes or goes, however the stopping ends.
  lemma {:induction false} StoppingSparesDeclared(digest: Digest, configs: seq<Config>,
      start: seq<State>, run: seq<State>, i: nat, j: nat, name: string)
    requires Extends(digest, Stopping(configs), start, run) && |start| - 1 <= i <= j < |run|
    requires Declared(configs, name)
    ensures run[i].Holds(name, run[j]) && run[i].images == run[j].images
    decreases j
  {
    hide Declared, Stops;
    if i < j {
      StoppingSparesDeclared(digest, configs, start, run, i, j - 1, name);
      assert Step(digest, Stopping(configs), run[j - 1], run[j]);
      StopSpares(configs, run[j - 1], run[j], name);
    }
  }

  lemma StopSpares(configs: seq<Config>, a: State, b: State, name: string)
    requires Stops(configs, a, b) && Declared(configs, name)
    ensures a.Holds(name, b) && a.images == b.images
  {
    hide Declared;
  }

  // While one container is being reconciled no other one changes in any way, at no point,
  // however the reconcile ends.
  lemma {:induction false} ReconcilingSparesOthers(digest: Digest, c: Config,
      start: seq<State>, run: seq<State>, i: nat, j: nat)
    requires Extends(digest, Reconciling(c), start, run) && |start| - 1 <= i <= j < |run|
    ensures run[i].SameElse(run[j], c.name)
    decreases j
  {
    hide Current, Desired, State.SameElse;
    if i < j {
      ReconcilingSparesOthers(digest, c, start, run, i, j - 1);
      assert Step(digest, Reconciling(c), run[j - 1], run[j]);
      SameElseTransitive(run[i], run[j - 1], run[j], c.name);
    } else {
      SameElseRefl(run[i], c.name);
    }
  }

  // While declared containers are being reconciled no other one changes in any way.
  lemma {:induction false} ReconcilingSparesUndeclared(digest: Digest, configs: seq<Config>,
      start: seq<State>, run: seq<State>, i: nat, j: nat, name: string)
    requires Extends(digest, ReconcilingAny(configs), start, run) && |start| - 1 <= i <= j < |run|
    requires !Declared(configs, name)
    ensures run[i].Holds(name, run[j])
    decreases j
  {
    hide Current, Desired, TouchesAny;
    if i < j {
      ReconcilingSparesUndeclared(digest, configs, start, run, i, j - 1, name);
      assert Step(digest, ReconcilingAny(configs), run[j - 1], run[j]);
      TouchSpares(digest, configs, run[j - 1], run[j], name);
    }
  }

  lemma TouchSpares(digest: Digest, configs: seq<Config>, a: State, b: State, name: string)
    requires TouchesAny(digest, configs, a, b) && !Declared(configs, name)
    ensures a.Holds(name, b)
  {
    hide Current, Desired;
    var i :| 0 <= i < |configs| && Touches(digest, configs[i], a, b);
    assert configs[i].name != name;
  }

  lemma SameElseRefl(a: State, name: string)
    ensures a.SameElse(a, name)
  {
  }

  lemma SameElseTransitive(a: State, b: State, c: State, name: string)
    requires a.SameElse(b, name) && b.SameElse(c, name)
    ensures a.SameElse(c, name)
  {
    forall n | n != name ensures a.Holds(n, c) {
      assert a.Holds(n, b) && b.Holds(n, c);
    }
  }

  // Along any run, cut short wherever it may be, a declared container that is up to date
  // keeps its identity: same id, same everything.
  lemma {:induction false} CurrentKeepsIdentity(digest: Digest, configs: seq<Config>, start: seq<State>,
      run: seq<State>, i: nat, j: nat, k: nat)
    requires Extends(digest, Phase(configs), start, run) && NamesAgree(digest, configs)
    requires |start| - 1 <= i <= j < |run| && k < |configs|
    requires Current(digest, run[i].View(), configs[k])
    ensures Current(digest, run[j].View(), configs[k])
    ensures run[j].containers[configs[k].name] == run[i].containers[configs[k].name]
    decreases j
  {
    hide Current, Step, NamesAgree;
    CurrentIsThere(digest, run[i], configs[k]);
    if i < j {
      CurrentKeepsIdentity(digest, configs, start, run, i, j - 1, k);
      StepKeepsCurrent(digest, configs, run[j - 1], run[j], k);
    }
  }

  lemma CurrentIsThere(digest: Digest, s: State, c: Config)
    requires Current(digest, s.View(), c)
    ensures c.name in s.containers
  {
  }

  lemma StepKeepsCurrent(digest: Digest, configs: seq<Config>, a: State, b: State, k: nat)
    requires Step(digest, Phase(configs), a, b) && NamesAgree(digest, configs) && k < |configs|
    requires Current(digest, a.View(), configs[k])
    ensures Current(digest, b.View(), configs[k])
    ensures configs[k].name in a.containers && configs[k].name in b.containers
    ensures b.containers[configs[k].name] == a.containers[configs[k].name]
  {
    hide ConfigHash, Desired;
    var name := configs[k].name;
    if Stops(configs, a, b) {
      NamedDeclared(configs, k);
    } else {
      var i :| 0 <= i < |configs| && Touches(digest, configs[i], a, b);
      assert configs[i].name != name;
      assert a.Holds(name, b);
    }
  }

  // Agreement is needed: where declarations sharing a name differ in their hash, the one
  // that is up to date is fair game for the other, whose first step may remove it.
  lemma DisagreementCostsIdentity(digest: Digest, configs: seq<Config>, a: State, i: nat, k: nat) returns (b: State)
    requires i < |configs| && k < |configs| && configs[i].name == configs[k].name
    requires ConfigHash(digest, configs[i]) != ConfigHash(digest, configs[k])
    requires Current(digest, a.View(), configs[k]) && configs[i].image in a.images
    ensures Extends(digest, Phase(configs), [a], [a, b]) && configs[k].name !in b.containers
  {
    hide ConfigHash, Desired;
    b := a.(containers := a.containers - {configs[k].name});
    assert Touches(digest, configs[i], a, b);
  }

  // Along any run images only come, and a container nobody declared is at most stopped: it
  // stays, under its id and with its settings.
  lemma {:induction false} UnmanagedAreOnlyStopped(digest: Digest, configs: seq<Config>, start: seq<State>,
      run: seq<State>, i: nat, j: nat, name: string)
    requires Extends(digest, Phase(configs), start, run) && |start| - 1 <= i <= j < |run|
    ensures run[i].images <= run[j].images
    ensures !Declared(configs, name) && name in run[i].containers ==>
              && name in run[j].containers && run[j].containers[name].id == run[i].containers[name].id
              && run[j].containers[name].box.spec == run[i].containers[name].box.spec
    ensures !Declared(configs, name) && name !in run[i].containers ==> name !in run[j].containers
    decreases j
  {
    hide Step, Declared;
    if i < j {
      UnmanagedAreOnlyStopped(digest, configs, start, run, i, j - 1, name);
      StepKeepsUnmanaged(digest, configs, run[j - 1], run[j], name);
    }
  }

  lemma StepKeepsUnmanaged(digest: Digest, configs: seq<Config>, a: State, b: State, name: string)
    requires Step(digest, Phase(configs), a, b)
    ensures a.images <= b.images
    ensures !Declared(configs, name) && name in a.containers ==>
              && name in b.containers && b.containers[name].id == a.containers[name].id
              && b.containers[name].box.spec == a.containers[name].box.spec
    ensures !Declared(configs, name) && name !in a.containers ==> name !in b.containers
  {
    hide Current;
    if !Stops(configs, a, b) {
      var i :| 0 <= i < |configs| && Touches(digest, configs[i], a, b);
      if !Declared(configs, name) {
        assert configs[i].name != name && a.Holds(name, b);
      }
    }
  }

  // A container goes only to make room for the one declared under its name, whose image is
  // already there, and only while it is not up to date. Containers are told apart by id, so
  // one that is replaced under its name has gone too.
  lemma RemovedOnlyWithImage(digest: Digest, configs: seq<Config>, start: seq<State>, run: seq<State>, k: nat,
      name: string)
    returns (i: nat)
    requires Extends(digest, Phase(configs), start, run) && |start| - 1 <= k < |run| - 1
    requires name in run[k].containers
    requires name !in run[k + 1].containers || run[k + 1].containers[name].id != run[k].containers[name].id
    ensures i < |configs| && configs[i].name == name && configs[i].image in run[k].images
    ensures !Current(digest, run[k].View(), configs[i])
  {
    hide Current, Desired;
    var a, b := run[k], run[k + 1];
    assert Step(digest, Phase(configs), a, b) && !Stops(configs, a, b);
    i :| i < |configs| && Touches(digest, configs[i], a, b);
    assert configs[i].name != name ==> a.Holds(name, b);
  }

  // Labels that were honest stay so at every point of a run, whatever fails in it.
  lemma {:induction false} RunStaysHonest(digest: Digest, configs: seq<Config>, start: seq<State>,
      run: seq<State>, k: nat)
    requires Extends(digest, Phase(configs), start, run) && |start| - 1 <= k < |run|
    requires Honest(digest, run[|start| - 1].View())
    ensures Honest(digest, run[k].View())
    decreases k
  {
    hide Step, Honest;
    if |start| - 1 < k {
      RunStaysHonest(digest, configs, start, run, k - 1);
      StepStaysHonest(digest, configs, run[k - 1], run[k]);
    }
  }

  lemma StepStaysHonest(digest: Digest, configs: seq<Config>, a: State, b: State)
    requires Step(digest, Phase(configs), a, b) && Honest(digest, a.View())
    ensures Honest(digest, b.View())
  {
    hide Step, Desired;
    forall n | n in b.View().view && HASH_LABEL in b.View().view[n].spec.labels
      ensures exists d: Config :: d.Valid() && b.View().view[n].spec == Desired(digest, d)
    {
      SpecComesFrom(digest, configs, a, b, n);
      if n in a.containers {
        assert a.View().view[n].spec == b.View().view[n].spec;
      }
    }
  }

  // A container's settings after a step are those it had, or those a config asks for.
  lemma SpecComesFrom(digest: Digest, configs: seq<Config>, a: State, b: State, n: string)
    requires Step(digest, Phase(configs), a, b) && n in b.containers
    ensures n in a.containers ==> b.containers[n].box.spec == a.containers[n].box.spec
    ensures n !in a.containers ==> exists d: Config :: d.Valid() && b.containers[n].box.spec == Desired(digest, d)
  {
    hide Current, Desired, Declared;
    if !Stops(configs, a, b) {
      var i :| 0 <= i < |configs| && Touches(digest, configs[i], a, b);
      assert n != configs[i].name ==> a.Holds(n, b);
    }
  }

  // So at any point, after whatever has failed, a container left alone because its hash
  // matches has the very spec its config asks for.
  lemma LeftAloneIsAsDeclared(digest: Digest, configs: seq<Config>, start: seq<State>, run: seq<State>, k: nat,
      c: Config)
    requires CollisionFree(digest) && Extends(digest, Phase(configs), start, run) && |start| - 1 <= k < |run|
    requires Honest(digest, run[|start| - 1].View()) && c.Valid() && Current(digest, run[k].View(), c)
    ensures run[k].View().view[c.name].spec == Desired(digest, c)
  {
    hide Extends, Honest, Current, Desired;
    RunStaysHonest(digest, configs, start, run, k);
    CurrentHasDesiredSpec(digest, run[k].View(), c);
  }

  /* ---- the API ---- */

  datatype Inspect = Inspect(running: Option<bool>, labels: Option<map<string, string>>)

  datatype Listed = Listed(id: string, names: seq<string>, state: string)

  function ContainerUpToDate(inspect: Inspect, desiredHash: string): bool {
    && inspect.running == Some(true)
    && inspect.labels.Some?
    && (if HASH_LABEL in inspect.labels.value then inspect.labels.value[HASH_LABEL] else "") == desiredHash
  }

  ghost predicate DistinctIds(s: State) {
    forall m, n | m in s.containers && n in s.containers && m != n :: s.containers[m].id != s.containers[n].id
  }

  function ListedAs(s: State, name: string): Listed
    requires name in s.containers
  {
    Listed(s.containers[name].id, [name], s.containers[name].box.state)
  }

  predicate Lists(l: Listed, s: State) {
    |l.names| == 1 && l.names[0] in s.containers && l == ListedAs(s, l.names[0])
  }

  lemma ListedIsListed(s: State, name: string)
    requires name in s.containers
    ensures Lists(ListedAs(s, name), s)
  {
  }

  // Exactly the containers of s, in any order.
  ghost predicate IsListing(listing: seq<Listed>, s: State) {
    (forall n | n in s.containers :: ListedAs(s, n) in listing) && forall l | l in listing :: Lists(l, s)
  }

  class Client {
    var state: State
    var used: set<string>
    ghost var history: seq<State>
    ghost var failures: nat

    ghost predicate Valid()
      reads this
    {
      && history != [] && history[|history| - 1] == state
      && (forall n | n in state.containers :: state.containers[n].id in used)
      && DistinctIds(state)
    }

    constructor (initial: State)
      requires DistinctIds(initial)
      ensures Valid() && state == initial && history == [initial]
    {
      state := initial;
      used := set n | n in initial.containers :: initial.containers[n].id;
      history, failures := [initial], 0;
    }

    method Exists(name: string) returns (r: Option<bool>)
      requires Valid()
      modifies this`failures
      ensures Valid() && failures == old(failures) + (if r.None? then 1 else 0)
      ensures r.Some? ==> r.value == (name in state.containers)
    {
      if * {
        failures := failures + 1;
        return None;
      }
      return Some(name in state.containers);
    }

    method InspectContainer(name: string) returns (r: Option<Inspect>)
      requires Valid()
      modifies this`failures
      ensures Valid() && failures == old(failures) + (if r.None? then 1 else 0)
      ensures r.Some? ==>
                && name in state.containers
                && r.value == Inspect(Some(state.containers[name].box.state == "running"),
                  Some(state.containers[name].box.spec.labels))
    {
      if name !in state.containers {
        failures := failures + 1;
        return None;
      }
      if * {
        failures := failures + 1;
        return None;
      }
      var box := state.containers[name].box;
      return Some(Inspect(Some(box.state == "running"), Some(box.spec.labels)));
    }

    method ImageExists(image: string) returns (r: Option<bool>)
      requires Valid()
      modifies this`failures
      ensures Valid() && failures == old(failures) + (if r.None? then 1 else 0)
      ensures r.Some? ==> r.value == (image in state.images)
    {
      if * {
        failures := failures + 1;
        return None;
      }
      return Some(image in state.images);
    }

    method List() returns (r: Option<seq<Listed>>)
      requires Valid()
      modifies this`failures
      ensures Valid() && failures == old(failures) + (if r.None? then 1 else 0)
      ensures r.Some? ==> IsListing(r.value, state)
    {
      hide ListedAs, Lists, DistinctIds;
      if * {
        failures := failures + 1;
        return None;
      }
      var rest, l: seq<Listed> := state.containers.Keys, [];
      while rest != {}
        invariant rest <= state.containers.Keys
        invariant forall n | n in state.containers && n !in rest :: ListedAs(state, n) in l
        invariant forall x | x in l :: Lists(x, state)
        invariant failures == old(failures)
        decreases |rest|
      {
        var n :| n in rest;
        ListedIsListed(state, n);
        l := l + [ListedAs(state, n)];
        rest := rest - {n};
      }
      return Some(l);
    }

    method Pull(image: string) returns (ok: bool)
      requires Valid()
      modifies this
      ensures Valid() && history == old(history) + [state] && used == old(used)
      ensures failures == old(failures) + (if ok then 0 else 1)
      ensures state == old(state) || state == old(state).(images := old(state).images + {image})
      ensures ok ==> image in state.images
    {
      ok := false;
      if * {
        state := state.(images := state.images + {image});
        ok := *;
      }
      history := history + [state];
      if !ok { failures := failures + 1; }
    }

    // A forced remove may also fail half way, leaving the container in another run state.
    method Remove(name: string) returns (ok: bool)
      requires Valid()
      modifies this
      ensures Valid() && history == old(history) + [state] && used == old(used)
      ensures failures == old(failures) + (if ok then 0 else 1)
      ensures || state == old(state)
              || state == old(state).(containers := old(state).containers - {name})
              || (name in old(state).containers && exists st :: state == old(state).SetState(name, st))
      ensures ok ==> state == old(state).(containers := old(state).containers - {name})
    {
      ok := false;
      if name in state.containers {
        if * {
          state := state.(containers := state.containers - {name});
          ok := *;
        } else if * {
          var st: string := *;
          state := state.SetState(name, st);
        }
      }
      history := history + [state];
      if !ok { failures := failures + 1; }
    }

    // Creating needs the image in storage and a free name; the new id was never used before.
    method Create(spec: Spec) returns (r: Option<string>)
      requires Valid()
      modifies this
      ensures Valid() && history == old(history) + [state]
      ensures failures == old(failures) + (if r.None? then 1 else 0)
      ensures || state == old(state)
              || (&& spec.name !in old(state).containers && spec.image in old(state).images
                  && exists id :: id !in old(used) &&
                       state == old(state).(containers :=
                         old(state).containers[spec.name := Instance(id, Container(spec, "created"))]))
      ensures r.Some? ==>
                && spec.name !in old(state).containers && r.value !in old(used)
                && state == old(state).(containers :=
                  old(state).containers[spec.name := Instance(r.value, Container(spec, "created"))])
    {
      r := None;
      var id: string := *;
      if id !in used && spec.name !in state.containers && spec.image in state.images {
        if * {
          state := state.(containers := state.containers[spec.name := Instance(id, Container(spec, "created"))]);
          used := used + {id};
          if * {
            r := Some(id);
          }
        }
      }
      history := history + [state];
      if r.None? { failures := failures + 1; }
    }

    // Starting and stopping address the container by id; a failed call may leave it in any
    // run state.
    method SetRunState(id: string, target: string) returns (ok: bool)
      requires Valid()
      modifies this
      ensures Valid() && history == old(history) + [state] && used == old(used)
      ensures failures == old(failures) + (if ok then 0 else 1)
      ensures ChangedRunState(old(state), state, id)
      ensures ok ==> Reached(old(state), state, id, target)
    {
      ok := false;
      if exists n :: n in state.containers && state.containers[n].id == id {
        var n :| n in state.containers && state.containers[n].id == id;
        ok := *;
        var st: string := *;
        state := state.SetState(n, if ok then target else st);
      }
      history := history + [state];
      if !ok { failures := failures + 1; }
    }

    method Start(id: string) returns (ok: bool)
      requires Valid()
      modifies this
      ensures Valid() && history == old(history) + [state] && used == old(used)
      ensures failures == old(failures) + (if ok then 0 else 1)
      ensures ChangedRunState(old(state), state, id)
      ensures ok ==> Reached(old(state), state, id, "running")
    {
      ok := SetRunState(id, "running");
    }

    method Stop(id: string) returns (ok: bool)
      requires Valid()
      modifies this
      ensures Valid() && history == old(history) + [state] && used == old(used)
      ensures failures == old(failures) + (if ok then 0 else 1)
      ensures ChangedRunState(old(state), state, id)
      ensures ok ==> Reached(old(state), state, id, "exited")
    {
      ok := SetRunState(id, "exited");
    }
  }

  // At most the run state of the container with this id differs.
  ghost predicate ChangedRunState(a: State, b: State, id: string) {
    a == b || exists n, st :: n in a.containers && a.containers[n].id == id && b == a.SetState(n, st)
  }

  ghost predicate Reached(a: State, b: State, id: string, target: string) {
    exists n :: n in a.containers && a.containers[n].id == id && b == a.SetState(n, target)
  }

  /* ---- reconciling one container ---- */

  lemma TouchIsStep(digest: Digest, c: Config, start: seq<State>, h: seq<State>, a: State, b: State)
    requires Touches(digest, c, a, b)
    requires Extends(digest, Reconciling(c), start, h) && h[|h| - 1] == a
    ensures Extends(digest, Reconciling(c), start, h + [b])
  {
    hide Touches;
    ExtendsByOne(digest, Reconciling(c), start, h, b);
  }

  method EnsureImage(p: Client, digest: Digest, c: Config) returns (ok: bool)
    requires p.Valid() && !Current(digest, p.state.View(), c)
    modifies p
    ensures p.Valid() && Extends(digest, Reconciling(c), old(p.history), p.history)
    ensures p.failures == old(p.failures) + (if ok then 0 else 1)
    ensures p.state.containers == old(p.state.containers)
    ensures p.state.images == old(p.state.images) || p.state.images == old(p.state.images) + {c.image}
    ensures ok ==> c.image in p.state.images
  {
    hide UpToDate;
    ExtendsRefl(digest, Reconciling(c), p.history);
    var present := p.ImageExists(c.image);
    if present.None? { return false; }
    ok := true;
    if !present.value {
      ok := p.Pull(c.image);
      assert Touches(digest, c, old(p.state), p.state);
      TouchIsStep(digest, c, old(p.history), old(p.history), old(p.state), p.state);
    }
  }

  method RemoveOld(p: Client, digest: Digest, c: Config) returns (ok: bool)
    requires p.Valid() && !Current(digest, p.state.View(), c)
    requires c.image in p.state.images
    modifies p
    ensures p.Valid() && Extends(digest, Reconciling(c), old(p.history), p.history)
    ensures p.failures == old(p.failures) + (if ok then 0 else 1)
    ensures old(p.state).SameElse(p.state, c.name)
    ensures ok ==> p.state == old(p.state).(containers := old(p.state).containers - {c.name})
  {
    hide UpToDate;
    ok := p.Remove(c.name);
    assert Touches(digest, c, old(p.state), p.state);
    ExtendsRefl(digest, Reconciling(c), old(p.history));
    TouchIsStep(digest, c, old(p.history), old(p.history), old(p.state), p.state);
  }

  method CreateNew(p: Client, digest: Digest, c: Config, spec: Spec) returns (r: Option<string>)
    requires p.Valid() && !Current(digest, p.state.View(), c)
    requires c.Valid() && spec == Desired(digest, c)
    modifies p
    ensures p.Valid() && Extends(digest, Reconciling(c), old(p.history), p.history)
    ensures p.failures == old(p.failures) + (if r.Some? then 0 else 1)
    ensures old(p.state).SameElse(p.state, c.name)
    ensures r.Some? ==>
              c.name !in old(p.state.containers) &&
              p.state == old(p.state).(containers :=
                old(p.state).containers[c.name := Instance(r.value, Container(spec, "created"))])
  {
    hide UpToDate, Current, Desired, Extends, DistinctIds;
    SpecNamesContainer(digest, c);
    r := p.Create(spec);
    assert Touches(digest, c, old(p.state), p.state);
    ExtendsRefl(digest, Reconciling(c), old(p.history));
    TouchIsStep(digest, c, old(p.history), old(p.history), old(p.state), p.state);
  }

  lemma RanTouches(digest: Digest, c: Config, id: string, a: State, b: State)
    requires !Current(digest, a.View(), c) && ChangedRunState(a, b, id)
    requires c.name in a.containers && a.containers[c.name].id == id && DistinctIds(a)
    ensures Touches(digest, c, a, b) && (Reached(a, b, id, "running") ==> b == a.SetState(c.name, "running"))
  {
    hide Current;
  }

  method StartNew(p: Client, digest: Digest, c: Config, id: string) returns (ok: bool)
    requires p.Valid() && !Current(digest, p.state.View(), c)
    requires c.name in p.state.containers && p.state.containers[c.name].id == id
    modifies p
    ensures p.Valid() && Extends(digest, Reconciling(c), old(p.history), p.history)
    ensures p.failures == old(p.failures) + (if ok then 0 else 1)
    ensures old(p.state).SameElse(p.state, c.name)
    ensures ok ==> p.state == old(p.state).SetState(c.name, "running")
  {
    hide Current, Extends, ChangedRunState, Reached, DistinctIds;
    ok := p.Start(id);
    RanTouches(digest, c, id, old(p.state), p.state);
    ExtendsRefl(digest, Reconciling(c), old(p.history));
    TouchIsStep(digest, c, old(p.history), old(p.history), old(p.state), p.state);
  }

  method CreateAndStart(p: Client, digest: Digest, c: Config, spec: Spec) returns (ok: bool)
    requires p.Valid() && !Current(digest, p.state.View(), c)
    requires c.Valid() && spec == Desired(digest, c)
    modifies p
    ensures p.Valid() && Extends(digest, Reconciling(c), old(p.history), p.history)
    ensures p.failures == old(p.failures) + (if ok then 0 else 1)
    ensures old(p.state).SameElse(p.state, c.name)
    ensures ok ==> Replaced(old(p.state), p.state, c.name, Container(spec, "running"))
  {
    hide Extends, Current, State.SameElse, Desired;
    SpecNamesContainer(digest, c);
    var created := CreateNew(p, digest, c, spec);
    if created.None? { return false; }
    label created:
    CreatedIsNotCurrent(digest, p.state, c);
    ok := StartNew(p, digest, c, created.value);
    ExtendsTransitive(digest, Reconciling(c), old(p.history), old@created(p.history), p.history);
    SameElseTransitive(old(p.state), old@created(p.state), p.state, c.name);
    if ok {
      assert p.state.containers ==
        old(p.state.containers)[c.name := Instance(created.value, Container(spec, "running"))];
    }
  }

  // The named container is box under some id; nothing else differs.
  ghost predicate Replaced(a: State, b: State, name: string, box: Container) {
    exists id :: b == a.(containers := a.containers[name := Instance(id, box)])
  }

  // From "not up to date" on: pull if needed, remove the old container, create, start.
  method Recreate(p: Client, digest: Digest, c: Config, spec: Spec, present: bool) returns (ok: bool)
    requires p.Valid() && !Current(digest, p.state.View(), c)
    requires c.Valid() && spec == Desired(digest, c) && present == (c.name in p.state.containers)
    modifies p
    ensures p.Valid() && Extends(digest, Reconciling(c), old(p.history), p.history)
    ensures p.failures == old(p.failures) + (if ok then 0 else 1)
    ensures old(p.state).SameElse(p.state, c.name)
    ensures ok ==> p.state.View() == Reconciled(digest, old(p.state.View()), c)
  {
    SpecNamesContainer(digest, c);
    hide *;
    ok := EnsureImage(p, digest, c);
    PullKeepsContainers(digest, old(p.state), p.state, c);
    if !ok { return; }
    label pulled:
    if present {
      ok := RemoveOld(p, digest, c);
      ExtendsTransitive(digest, Reconciling(c), old(p.history), old@pulled(p.history), p.history);
      SameElseTransitive(old(p.state), old@pulled(p.state), p.state, c.name);
      if !ok { return; }
    }
    GoneIsNotCurrent(digest, p.state, c);
    label removed:
    ok := CreateAndStart(p, digest, c, spec);
    ExtendsTransitive(digest, Reconciling(c), old(p.history), old@removed(p.history), p.history);
    SameElseTransitive(old(p.state), old@removed(p.state), p.state, c.name);
    if ok {
      ReplacedIsReconciled(digest, old(p.state), old@removed(p.state), p.state, c);
    }
  }

  lemma PullKeepsContainers(digest: Digest, a: State, b: State, c: Config)
    requires b.containers == a.containers
    ensures a.SameElse(b, c.name)
    ensures Current(digest, b.View(), c) == Current(digest, a.View(), c)
  {
    hide UpToDate;
  }

  lemma GoneIsNotCurrent(digest: Digest, s: State, c: Config)
    ensures c.name !in s.containers ==> !Current(digest, s.View(), c)
  {
    hide UpToDate;
  }

  lemma ReplacedIsReconciled(digest: Digest, a: State, m: State, b: State, c: Config)
    requires c.Valid() && !Current(digest, a.View(), c)
    requires m.containers == a.containers || m.containers == a.containers - {c.name}
    requires m.images == a.images + {c.image} || (m.images == a.images && c.image in a.images)
    requires Replaced(m, b, c.name, Container(Desired(digest, c), "running"))
    ensures b.View() == Reconciled(digest, a.View(), c)
  {
    hide Desired, Current;
    var w := Reconciled(digest, a.View(), c);
    assert b.View().view == w.view;
    assert b.images == w.images;
  }

  lemma SpecNamesContainer(digest: Digest, c: Config)
    requires c.Valid()
    ensures Desired(digest, c).name == c.name
  {
  }

  lemma CreatedIsNotCurrent(digest: Digest, s: State, c: Config)
    requires c.name in s.containers && s.containers[c.name].box.state == "created"
    ensures !Current(digest, s.View(), c)
  {
    hide HasHash;
  }

  method ReconcileContainer(p: Client, digest: Digest, c: Config) returns (ok: bool)
    requires p.Valid() && c.Valid()
    modifies p
    ensures p.Valid() && Extends(digest, Reconciling(c), old(p.history), p.history)
    ensures p.failures == old(p.failures) + (if ok then 0 else 1)
    ensures old(p.state).SameElse(p.state, c.name)
    ensures ok ==> p.state.View() == Reconciled(digest, old(p.state.View()), c)
    ensures old(Current(digest, p.state.View(), c)) ==> p.history == old(p.history) && p.state == old(p.state)
    ensures ok ==> RunsWith(p.state.View(), c.name, digest(HashText(c)))
    ensures old(RunsWith(p.state.View(), c.name, digest(HashText(c)))) ==> p.history == old(p.history)
    ensures ok && !old(RunsWith(p.state.View(), c.name, digest(HashText(c)))) ==>
              Renewed(digest, c, p.state.View().view[c.name].spec) && c.image in p.state.images
  {
    ReconciledInFull(digest, p.state.View(), c);
    CurrentInFull(digest, p.state.View(), c);
    hide Desired, Extends, SpecOf, ConfigHash, UpToDate, ContainerUpToDate, DistinctIds;
    ExtendsRefl(digest, Reconciling(c), p.history);
    var spec := DesiredSpec(digest, c);
    var desiredHash := ConfigHash(digest, c);
    var present := p.Exists(c.name);
    if present.None? { return false; }
    if present.value {
      var inspect := p.InspectContainer(c.name);
      if inspect.None? { return false; }
      UpToDateIsCurrent(digest, p.state, c, inspect.value);
      if ContainerUpToDate(inspect.value, desiredHash) {
        return true;
      }
    }
    ok := Recreate(p, digest, c, spec, present.value);
  }

  // The settings asked for, and the hash among the labels and alone there.
  ghost predicate Renewed(digest: Digest, c: Config, spec: Spec) {
    && SpecAsked(spec.(labels := map[]), c)
    && spec.labels == map["edgecommander.config-hash" := digest(HashText(c))]
  }

  // createSpec, with the config's hash added to the labels.
  method DesiredSpec(digest: Digest, c: Config) returns (spec: Spec)
    requires c.Valid()
    ensures spec == Desired(digest, c)
  {
    hide ConfigHash;
    spec := CreateSpec(c);
    spec := spec.(labels := spec.labels[HASH_LABEL := ConfigHash(digest, c)]);
  }

  lemma UpToDateIsCurrent(digest: Digest, s: State, c: Config, inspect: Inspect)
    requires c.name in s.containers
    requires var box := s.containers[c.name].box;
             inspect == Inspect(Some(box.state == "running"), Some(box.spec.labels))
    ensures ContainerUpToDate(inspect, ConfigHash(digest, c)) <==> Current(digest, s.View(), c)
  {
    hide ConfigHash;
  }

  /* ---- the container phase ---- */

  function ContainerIsConfigured(container: Listed, names: set<string>): bool {
    exists i :: 0 <= i < |container.names| && container.names[i] in names
  }

  function AtRest(configs: seq<Config>, name: string, x: Instance): Instance {
    if !Declared(configs, name) && NeedsStop(x.box.state) then x.(box := x.box.(state := "exited")) else x
  }

  // The containers listed in done are at rest, the others as they were.
  ghost predicate StoppedUpTo(configs: seq<Config>, done: seq<Listed>, a: State, b: State) {
    && b.images == a.images && b.containers.Keys == a.containers.Keys
    && (forall n | n in a.containers ::
         b.containers[n] == if InList(done, n) then AtRest(configs, n, a.containers[n]) else a.containers[n])
  }

  predicate InList(done: seq<Listed>, n: string) {
    exists l :: l in done && l.names == [n]
  }

  lemma InListAppend(done: seq<Listed>, l: Listed, n: string)
    ensures InList(done + [l], n) <==> InList(done, n) || l.names == [n]
  {
    var all := done + [l];
    assert l in all;
    if InList(done, n) {
      var x :| x in done && x.names == [n];
      assert x in all;
    }
  }

  lemma StoppedOneMore(configs: seq<Config>, done: seq<Listed>, l: Listed, a: State, b: State, c: State)
    requires StoppedUpTo(configs, done, a, b) && Lists(l, a)
    requires var n := l.names[0];
             if !Declared(configs, n) && NeedsStop(l.state) then n in b.containers && c == b.SetState(n, "exited")
             else c == b
    ensures StoppedUpTo(configs, done + [l], a, c)
  {
    hide Declared, NeedsStop, InList;
    forall n | n in a.containers
      ensures c.containers[n] == if InList(done + [l], n) then AtRest(configs, n, a.containers[n]) else a.containers[n]
    {
      InListAppend(done, l, n);
    }
  }

  lemma AllListedStopped(configs: seq<Config>, listed: seq<Listed>, a: State, b: State)
    requires StoppedUpTo(configs, listed, a, b)
    requires IsListing(listed, a)
    ensures b.View() == Stopped(a.View(), configs) && Halted(configs, a, b)
  {
    hide Declared, NeedsStop, AtRest, Halted;
    forall n | n in a.containers ensures b.containers[n] == AtRest(configs, n, a.containers[n]) {
      assert ListedAs(a, n) in listed && ListedAs(a, n).names == [n];
    }
    AllAtRest(configs, a, b);
    AtRestIsHalted(configs, a, b);
  }

  lemma AtRestIsHalted(configs: seq<Config>, a: State, b: State)
    requires b.images == a.images && b.containers.Keys == a.containers.Keys
    requires forall n | n in a.containers :: b.containers[n] == AtRest(configs, n, a.containers[n])
    ensures Halted(configs, a, b)
  {
    hide NeedsStop, Resting;
    forall n | n in a.containers
      ensures Declared(configs, n) <==> exists c | c in configs :: c.name == n
      ensures NeedsStop(a.containers[n].box.state) <==> !Resting(a.containers[n].box.state)
    {
      RestingInFull(a.containers[n].box.state);
    }
  }

  lemma AllAtRest(configs: seq<Config>, a: State, b: State)
    requires b.images == a.images && b.containers.Keys == a.containers.Keys
    requires forall n | n in a.containers :: b.containers[n] == AtRest(configs, n, a.containers[n])
    ensures b.View() == Stopped(a.View(), configs)
  {
    hide Declared, NeedsStop;
  }

  // With ids distinct, stopping by id stops the container meant.
  lemma StopIsStep(digest: Digest, configs: seq<Config>, name: string, h: seq<State>, a: State, b: State)
    requires h != [] && h[|h| - 1] == a
    requires name in a.containers && !Declared(configs, name) && ChangedRunState(a, b, a.containers[name].id)
    requires DistinctIds(a)
    ensures Extends(digest, Stopping(configs), h, h + [b])
    ensures SameIds(a, b)
    ensures Reached(a, b, a.containers[name].id, "exited") ==> b == a.SetState(name, "exited")
  {
    hide Declared;
    assert Stops(configs, a, b);
    hide Stops;
    ExtendsRefl(digest, Stopping(configs), h);
    ExtendsByOne(digest, Stopping(configs), h, h, b);
  }

  ghost predicate SameIds(a: State, b: State) {
    a.containers.Keys == b.containers.Keys && forall n | n in a.containers :: a.containers[n].id == b.containers[n].id
  }

  lemma StopIsNeeded(configs: seq<Config>, s: State, name: string)
    requires name in s.containers && !Declared(configs, name) && NeedsStop(s.containers[name].box.state)
    ensures Stopped(s.View(), configs) != s.View()
  {
    ExitedNeedsNoStop();
    hide NeedsStop, Declared;
    assert Stopped(s.View(), configs).view[name] != s.View().view[name];
  }

  // One turn of the stop loop.
  method StopIfUnmanaged(p: Client, digest: Digest, configs: seq<Config>, names: set<string>, container: Listed,
      ghost start: State, ghost done: seq<Listed>)
    returns (ok: bool)
    requires p.Valid() && Lists(container, start) && StoppedUpTo(configs, done, start, p.state)
    requires forall n :: n in names <==> Declared(configs, n)
    requires SameIds(start, p.state)
    modifies p
    ensures p.Valid() && Extends(digest, Stopping(configs), old(p.history), p.history)
    ensures p.failures == old(p.failures) + (if ok || container.id == "" then 0 else 1)
    ensures SameIds(start, p.state)
    ensures ok ==> StoppedUpTo(configs, done + [container], start, p.state)
    ensures Stopped(start.View(), configs) == start.View() ==> p.history == old(p.history)
  {
    var name := container.names[0];
    ExtendsRefl(digest, Stopping(configs), p.history);
    assert ContainerIsConfigured(container, names) <==> Declared(configs, name);
    hide Extends, NeedsStop, Declared, ContainerIsConfigured, StoppedUpTo, DistinctIds, ChangedRunState, Reached;
    if ContainerIsConfigured(container, names) || !NeedsStop(container.state) {
      StoppedOneMore(configs, done, container, start, p.state, p.state);
      return true;
    }
    if container.id == "" {
      return false;
    }
    StopIsNeeded(configs, start, name);
    hide Stopped;
    assert name in p.state.containers && p.state.containers[name].id == container.id;
    ok := p.Stop(container.id);
    StopIsStep(digest, configs, name, old(p.history), old(p.state), p.state);
    if ok {
      StoppedOneMore(configs, done, container, start, old(p.state), p.state);
    }
  }

  // stopUnmanagedContainers: the listing is taken once; every unmanaged container in it that
  // is not at rest is stopped.
  method StopUnmanagedContainers(p: Client, digest: Digest, configs: seq<Config>) returns (ok: bool)
    requires p.Valid()
    modifies p
    ensures p.Valid() && Extends(digest, Stopping(configs), old(p.history), p.history)
    ensures p.failures >= old(p.failures) && (ok ==> p.failures == old(p.failures))
    ensures old(HasIds(p.state)) ==> p.failures == old(p.failures) + (if ok then 0 else 1)
    ensures ok ==> p.state.View() == Stopped(old(p.state.View()), configs)
    ensures ok ==> Halted(configs, old(p.state), p.state)
    ensures Stopped(old(p.state.View()), configs) == old(p.state.View()) ==> p.history == old(p.history)
  {
    hide *;
    ExtendsNow(p, digest, Stopping(configs));
    var configuredNames := NamesOf(configs);
    var listing := p.List();
    if listing.None? { return false; }
    var existing := listing.value;
    ghost var start := p.state;
    NothingStoppedYet(configs, start);
    NamesAreDeclared(configs);
    for i := 0 to |existing|
      invariant p.Valid() && Extends(digest, Stopping(configs), old(p.history), p.history)
      invariant p.failures == old(p.failures)
      invariant SameIds(start, p.state)
      invariant StoppedUpTo(configs, existing[..i], start, p.state)
      invariant Stopped(start.View(), configs) == start.View() ==> p.history == old(p.history)
    {
      label next:
      ListedOne(existing, start, i);
      ListedId(existing[i], start);
      ok := StopIfUnmanaged(p, digest, configs, configuredNames, existing[i], start, existing[..i]);
      ExtendsTransitive(digest, Stopping(configs), old(p.history), old@next(p.history), p.history);
      if !ok { return; }
      assert existing[..i + 1] == existing[..i] + [existing[i]];
    }
    ok := true;
    assert existing[..|existing|] == existing;
    AllListedStopped(configs, existing, start, p.state);
  }

  // Every container that is not declared and was in none of the states of rest has exited;
  // otherwise everything is as it was.
  ghost predicate Halted(configs: seq<Config>, a: State, b: State) {
    && b.images == a.images && b.containers.Keys == a.containers.Keys
    && forall n | n in a.containers ::
         var x, y := a.containers[n], b.containers[n];
         && y.id == x.id && y.box.spec == x.box.spec
         && y.box.state ==
              if (exists c | c in configs :: c.name == n) || Resting(x.box.state) then x.box.state else "exited"
  }

  lemma ExtendsNow(p: Client, digest: Digest, part: Part)
    requires p.Valid()
    ensures Extends(digest, part, p.history, p.history)
  {
    ExtendsRefl(digest, part, p.history);
  }

  // No container without an id: the one case in which the loop gives up without a call.
  predicate HasIds(s: State) {
    forall n | n in s.containers :: s.containers[n].id != ""
  }

  lemma ListedId(l: Listed, s: State)
    requires Lists(l, s)
    ensures HasIds(s) ==> l.id != ""
  {
  }

  lemma ListedOne(listing: seq<Listed>, s: State, i: nat)
    requires IsListing(listing, s) && i < |listing|
    ensures Lists(listing[i], s)
  {
  }

  function NamesOf(configs: seq<Config>): set<string> {
    set i | 0 <= i < |configs| :: configs[i].name
  }

  lemma NamesAreDeclared(configs: seq<Config>)
    ensures forall n :: n in NamesOf(configs) <==> Declared(configs, n)
  {
  }

  lemma NothingStoppedYet(configs: seq<Config>, s: State)
    ensures StoppedUpTo(configs, [], s, s) && SameIds(s, s)
  {
  }

  lemma OthersKeepVerdict(digest: Digest, a: State, b: State, name: string, c: Config)
    requires a.SameElse(b, name) && c.name != name && Current(digest, a.View(), c)
    ensures Current(digest, b.View(), c)
  {
    hide ConfigHash;
    assert a.Holds(c.name, b);
  }

  lemma ReconciledIsCurrent(digest: Digest, w: World, c: Config)
    requires c.Valid()
    ensures Current(digest, Reconciled(digest, w, c), c)
  {
    hide ConfigHash, SpecOf;
  }

  // configs[i] is the last of its name among the first n.
  predicate LastAmong(configs: seq<Config>, i: nat, n: nat)
    requires n <= |configs|
  {
    i < n && forall j | i < j < n :: configs[j].name != configs[i].name
  }

  // Of the first n declarations, every one that did not fail and was not overruled by a
  // later one of the same name is up to date.
  ghost predicate Settled(digest: Digest, configs: seq<Config>, n: nat, failed: seq<nat>, w: World)
    requires n <= |configs|
  {
    forall i: nat | LastAmong(configs, i, n) && i !in failed :: Current(digest, w, configs[i])
  }

  // The indices of failures among the first n declarations, each once, in order.
  predicate Failures(failed: seq<nat>, n: nat) {
    && (forall i | 0 <= i < |failed| :: failed[i] < n)
    && (forall i, j | 0 <= i < j < |failed| :: failed[i] < failed[j])
  }

  lemma SettledOneMore(digest: Digest, configs: seq<Config>, n: nat, failed: seq<nat>, a: State, b: State,
      failed': seq<nat>)
    requires n < |configs| && Settled(digest, configs, n, failed, a.View()) && a.SameElse(b, configs[n].name)
    requires failed' == failed + [n] || (failed' == failed && Current(digest, b.View(), configs[n]))
    ensures Settled(digest, configs, n + 1, failed', b.View())
  {
    hide Current, State.SameElse;
    assert n in failed + [n] by {
      assert (failed + [n])[|failed|] == n;
    }
    forall i: nat | LastAmong(configs, i, n + 1) && i !in failed' ensures Current(digest, b.View(), configs[i]) {
      if i < n {
        assert i !in failed && LastAmong(configs, i, n);
        OthersKeepVerdict(digest, a, b, configs[n].name, configs[i]);
      }
    }
  }

  ghost predicate AllCurrent(digest: Digest, w: World, configs: seq<Config>) {
    forall i | 0 <= i < |configs| :: Current(digest, w, configs[i])
  }

  lemma OneOfAll(digest: Digest, w: World, configs: seq<Config>, i: nat)
    requires i < |configs|
    ensures AllCurrent(digest, w, configs) ==> Current(digest, w, configs[i])
  {
  }

  lemma PrefixReconciled(digest: Digest, w: World, configs: Configs, n: nat)
    requires n < |configs|
    ensures AllReconciled(digest, w, configs[..n + 1]) ==
      Reconciled(digest, AllReconciled(digest, w, configs[..n]), configs[n])
  {
    hide Reconciled, Config.Valid;
    assert configs[..n + 1][..n] == configs[..n];
  }

  lemma NothingReconciledYet(digest: Digest, configs: Configs, w: World)
    ensures Settled(digest, configs, 0, [], w) && Failures([], 0) && AllReconciled(digest, w, configs[..0]) == w
  {
  }

  lemma OneMoreFailure(failed: seq<nat>, n: nat)
    requires Failures(failed, n)
    ensures Failures(failed, n + 1) && Failures(failed + [n], n + 1)
  {
  }

  lemma OneOfAny(digest: Digest, configs: seq<Config>, i: nat, a: seq<State>, b: seq<State>)
    requires i < |configs| && Extends(digest, Reconciling(configs[i]), a, b)
    ensures Extends(digest, ReconcilingAny(configs), a, b)
  {
    hide Extends;
    Widen(digest, Reconciling(configs[i]), ReconcilingAny(configs), a, b);
  }

  // Reconciles every declared container, whatever happens to the others, and reports which
  // ones failed.
  method ReconcileContainers(p: Client, digest: Digest, configs: Configs) returns (failed: seq<nat>)
    requires p.Valid()
    modifies p
    ensures p.Valid() && Extends(digest, ReconcilingAny(configs), old(p.history), p.history)
    ensures p.failures == old(p.failures) + |failed|
    ensures Failures(failed, |configs|) && Settled(digest, configs, |configs|, failed, p.state.View())
    ensures failed == [] ==> p.state.View() == AllReconciled(digest, old(p.state.View()), configs)
    ensures AllCurrent(digest, old(p.state.View()), configs) ==> p.history == old(p.history)
  {
    hide *;
    failed := [];
    ExtendsNow(p, digest, ReconcilingAny(configs));
    NothingReconciledYet(digest, configs, p.state.View());
    assert configs[..|configs|] == configs;
    for i := 0 to |configs|
      invariant p.Valid() && Extends(digest, ReconcilingAny(configs), old(p.history), p.history)
      invariant p.failures == old(p.failures) + |failed|
      invariant Failures(failed, i) && Settled(digest, configs, i, failed, p.state.View())
      invariant failed == [] ==> p.state.View() == AllReconciled(digest, old(p.state.View()), configs[..i])
      invariant AllCurrent(digest, old(p.state.View()), configs) ==>
        p.history == old(p.history) && p.state == old(p.state)
    {
      label next:
      ghost var before := p.state;
      OneOfAll(digest, old(p.state.View()), configs, i);
      var ok := ReconcileContainer(p, digest, configs[i]);
      OneOfAny(digest, configs, i, old@next(p.history), p.history);
      ExtendsTransitive(digest, ReconcilingAny(configs), old(p.history), old@next(p.history), p.history);
      ReconciledIsCurrent(digest, before.View(), configs[i]);
      PrefixReconciled(digest, old(p.state.View()), configs, i);
      OneMoreFailure(failed, i);
      SettledOneMore(digest, configs, i, failed, before, p.state, if ok then failed else failed + [i]);
      if !ok {
        failed := failed + [i];
      }
    }
  }

  // First only calls that stop, then only calls that reconcile.
  ghost predicate StopsThenReconciles(digest: Digest, configs: seq<Config>, earlier: seq<State>, later: seq<State>) {
    exists m: nat :: m <= |later|
      && Extends(digest, Stopping(configs), earlier, later[..m])
      && Extends(digest, ReconcilingAny(configs), later[..m], later)
  }

  lemma FirstThenSecond(digest: Digest, configs: seq<Config>, a: seq<State>, b: seq<State>, c: seq<State>)
    requires Extends(digest, Stopping(configs), a, b) && Extends(digest, ReconcilingAny(configs), b, c)
    ensures StopsThenReconciles(digest, configs, a, c) && Extends(digest, Phase(configs), a, c)
  {
    assert c[..|b|] == b;
    hide Step;
    Widen(digest, Stopping(configs), Phase(configs), a, b);
    Widen(digest, ReconcilingAny(configs), Phase(configs), b, c);
    ExtendsTransitive(digest, Phase(configs), a, b, c);
  }

  // The container part of applyConfig: stop what is not declared, then reconcile the rest.
  // A failure to stop ends the phase; otherwise the failures are counted.
  method ContainerPhase(p: Client, digest: Digest, configs: Configs) returns (stopped: bool, failed: seq<nat>)
    requires p.Valid()
    modifies p
    ensures p.Valid() && Extends(digest, Phase(configs), old(p.history), p.history)
    ensures StopsThenReconciles(digest, configs, old(p.history), p.history)
    ensures p.failures >= old(p.failures) + |failed| && (stopped ==> p.failures == old(p.failures) + |failed|)
    ensures old(HasIds(p.state)) ==> p.failures == old(p.failures) + |failed| + (if stopped then 0 else 1)
    ensures Failures(failed, |configs|) && (stopped ==> Settled(digest, configs, |configs|, failed, p.state.View()))
    ensures stopped && failed == [] ==>
              p.state.View() == AllReconciled(digest, Stopped(old(p.state.View()), configs), configs)
    ensures stopped && failed == [] ==> PhaseDone(digest, configs, p.state.View())
    ensures Idle(digest, old(p.state.View()), configs) ==> p.history == old(p.history)
  {
    hide Extends, Current, Stopped, AllReconciled, Settled, StopsThenReconciles, PhaseDone;
    PhaseInFull(digest, p.state.View(), configs);
    failed := [];
    stopped := StopUnmanagedContainers(p, digest, configs);
    label atRest:
    if stopped {
      failed := ReconcileContainers(p, digest, configs);
    } else {
      ExtendsNow(p, digest, ReconcilingAny(configs));
    }
    FirstThenSecond(digest, configs, old(p.history), old@atRest(p.history), p.history);
  }

  // Nothing to stop and nothing to recreate.
  ghost predicate Idle(digest: Digest, w: World, configs: seq<Config>) {
    Stopped(w, configs) == w && AllCurrent(digest, w, configs)
  }

  // The world a successful phase leaves is idle, so that running the phase again, successfully
  // or not, issues no stop, pull, remove, create or start, exactly when declarations sharing
  // a name share their hash.
  lemma SuccessIsIdleIffNamesAgree(digest: Digest, w: World, configs: Configs)
    ensures Idle(digest, AllReconciled(digest, Stopped(w, configs), configs), configs) <==> NamesAgree(digest, configs)
  {
    hide Stopped, AllReconciled, Current, NamesAgree;
    StoppedStays(digest, w, configs);
    AllCurrentIffNamesAgree(digest, Stopped(w, configs), configs);
  }
}
