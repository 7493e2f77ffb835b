/**
 * What Podman holds, seen by container name, and what one reconcile of one declared
 * container makes of it. Container ids do not appear here: they are Podman's to choose.
 */
module PodmanState {
  import opened Text
  import opened ContainerConfig

  const HASH_LABEL := "edgecommander.config-hash"

  type Digest = string -> string

  // SHA-256 in hexadecimal, taken as free of collisions.
  ghost predicate CollisionFree(digest: Digest) {
    forall x, y :: digest(x) != "" && (digest(x) == digest(y) ==> x == y)
  }

  function ConfigHash(digest: Digest, c: Config): string {
    digest(HashText(c))
  }

  datatype Container = Container(spec: Spec, state: string)

  function Desired(digest: Digest, c: Config): Spec
    requires c.Valid()
  {
    SpecOf(c).(labels := map[HASH_LABEL := ConfigHash(digest, c)])
  }

  predicate HasHash(x: Container, hash: string) {
    (if HASH_LABEL in x.spec.labels then x.spec.labels[HASH_LABEL] else "") == hash
  }

  // containerUpToDate: running, and created from this config.
  predicate UpToDate(x: Container, hash: string) {
    x.state == "running" && HasHash(x, hash)
  }

  predicate NeedsStop(state: string) {
    ToLower(state) !in ["created", "configured", "dead", "exited", "removing", "stopped"]
  }

  type Configs = cs: seq<Config> | forall i | 0 <= i < |cs| :: cs[i].Valid()

  predicate Declared(configs: seq<Config>, name: string) {
    exists i :: 0 <= i < |configs| && configs[i].name == name
  }

  datatype World = World(view: map<string, Container>, images: set<string>)

  predicate Current(digest: Digest, w: World, c: Config) {
    c.name in w.view && UpToDate(w.view[c.name], ConfigHash(digest, c))
  }

  function Fresh(digest: Digest, c: Config): Container
    requires c.Valid()
  {
    Container(Desired(digest, c), "running")
  }

  // A successful reconcile of one container.
  function Reconciled(digest: Digest, w: World, c: Config): World
    requires c.Valid()
  {
    if Current(digest, w, c) then w
    else World(w.view[c.name := Fresh(digest, c)], w.images + {c.image})
  }

  function Stopped(w: World, configs: seq<Config>): World {
    w.(view := map n | n in w.view ::
         if !Declared(configs, n) && NeedsStop(w.view[n].state) then w.view[n].(state := "exited") else w.view[n])
  }

  // The declared containers, one after another.
  function AllReconciled(digest: Digest, w: World, configs: Configs): World
    decreases |configs|
  {
    if configs == [] then w
    else Reconciled(digest, AllReconciled(digest, w, configs[..|configs| - 1]), configs[|configs| - 1])
  }

  predicate DistinctNames(configs: seq<Config>) {
    forall i, j | 0 <= i < j < |configs| :: configs[i].name != configs[j].name
  }

  function Pulled(digest: Digest, w: World, configs: seq<Config>): set<string> {
    set i | 0 <= i < |configs| && !Current(digest, w, configs[i]) :: configs[i].image
  }

  // Every container judged by itself against the world w it all started from.
  function Outcome(digest: Digest, w: World, c: Config): Container
    requires c.Valid()
  {
    if Current(digest, w, c) then w.view[c.name] else Fresh(digest, c)
  }

  ghost predicate Independently(digest: Digest, w: World, configs: Configs, r: World) {
    && r.images == w.images + Pulled(digest, w, configs)
    && (forall n :: n in r.view <==> n in w.view || Declared(configs, n))
    && (forall i | 0 <= i < |configs| ::
          configs[i].name in r.view && r.view[configs[i].name] == Outcome(digest, w, configs[i]))
    && (forall n | n in w.view && !Declared(configs, n) :: n in r.view && r.view[n] == w.view[n])
  }

  lemma DeclaredAppend(init: seq<Config>, last: Config, n: string)
    ensures Declared(init + [last], n) <==> Declared(init, n) || n == last.name
  {
    var all := init + [last];
    if Declared(init, n) {
      var i :| 0 <= i < |init| && init[i].name == n;
      assert all[i].name == n;
    }
    assert all[|init|].name == last.name;
  }

  lemma PulledAppend(digest: Digest, w: World, init: seq<Config>, last: Config)
    ensures Pulled(digest, w, init + [last]) == Pulled(digest, w, init)
      + (if Current(digest, w, last) then {} else {last.image})
  {
    hide Current;
    var all := init + [last];
    forall image | image in Pulled(digest, w, init) ensures image in Pulled(digest, w, all) {
      var i :| 0 <= i < |init| && !Current(digest, w, init[i]) && init[i].image == image;
      assert all[i] == init[i];
    }
    assert all[|init|] == last;
  }

  lemma SameVerdict(digest: Digest, w: World, r: World, c: Config)
    requires c.name in r.view <==> c.name in w.view
    requires c.name in w.view ==> r.view[c.name] == w.view[c.name]
    ensures Current(digest, r, c) <==> Current(digest, w, c)
    ensures Current(digest, r, c) ==> c.name in r.view
  {
  }

  lemma OneMore(digest: Digest, w: World, init: Configs, last: Config, r: World)
    requires last.Valid() && !Declared(init, last.name) && Independently(digest, w, init, r)
    ensures Independently(digest, w, init + [last], Reconciled(digest, r, last))
  {
    hide Config.Valid, Desired, Current, Pulled, Declared;
    var all: Configs := init + [last];
    forall n ensures Declared(all, n) <==> Declared(init, n) || n == last.name {
      DeclaredAppend(init, last, n);
    }
    PulledAppend(digest, w, init, last);
    SameVerdict(digest, w, r, last);
    var r' := Reconciled(digest, r, last);
    assert r'.images == w.images + Pulled(digest, w, all);
    assert forall n :: n in r'.view <==> n in r.view || n == last.name;
    forall i | 0 <= i < |all| ensures all[i].name in r'.view && r'.view[all[i].name] == Outcome(digest, w, all[i]) {
      if i < |init| {
        NamedDeclared(init, i);
        assert all[i] == init[i];
      }
    }
  }

  lemma NamedDeclared(configs: seq<Config>, i: nat)
    requires i < |configs|
    ensures Declared(configs, configs[i].name)
  {
  }

  // With distinct names every container is judged against the state before the first.
  lemma {:induction false} ReconciledIndependently(digest: Digest, w: World, configs: Configs)
    requires DistinctNames(configs)
    ensures Independently(digest, w, configs, AllReconciled(digest, w, configs))
    decreases |configs|
  {
    hide Config.Valid, Reconciled, Independently, DistinctNames, Declared;
    if configs != [] {
      var k := |configs| - 1;
      var init: Configs, last := configs[..k], configs[k];
      LastIsNew(configs);
      ReconciledIndependently(digest, w, init);
      OneMore(digest, w, init, last, AllReconciled(digest, w, init));
      assert configs == init + [last];
    } else {
      NothingDeclared(digest, w);
    }
  }

  lemma LastIsNew(configs: seq<Config>)
    requires DistinctNames(configs) && configs != []
    ensures DistinctNames(configs[..|configs| - 1])
    ensures !Declared(configs[..|configs| - 1], configs[|configs| - 1].name)
  {
  }

  lemma NothingDeclared(digest: Digest, w: World)
    ensures Independently(digest, w, [], w)
  {
  }

  // Two lists declaring the same containers, in whatever order, end in the same world.
  lemma OrderDoesNotMatter(digest: Digest, w: World, a: Configs, b: Configs)
    requires DistinctNames(a) && DistinctNames(b)
    requires forall c :: c in a <==> c in b
    ensures AllReconciled(digest, Stopped(w, a), a) == AllReconciled(digest, Stopped(w, b), b)
  {
    SameDeclared(a, b);
    SameDeclared(b, a);
    var s := Stopped(w, a);
    SameStopped(w, a, b);
    ReconciledIndependently(digest, s, a);
    ReconciledIndependently(digest, s, b);
    SamePulled(digest, s, a, b);
    SamePulled(digest, s, b, a);
    SameOutcome(digest, s, a, b, AllReconciled(digest, s, a), AllReconciled(digest, s, b));
  }

  lemma SameStopped(w: World, a: seq<Config>, b: seq<Config>)
    requires forall n :: Declared(a, n) <==> Declared(b, n)
    ensures Stopped(w, a) == Stopped(w, b)
  {
    hide Declared, NeedsStop;
  }

  lemma SameOutcome(digest: Digest, w: World, a: Configs, b: Configs, ra: World, rb: World)
    requires Independently(digest, w, a, ra) && Independently(digest, w, b, rb)
    requires Pulled(digest, w, a) == Pulled(digest, w, b)
    requires forall c | c in a :: c in b
    requires forall n :: Declared(a, n) <==> Declared(b, n)
    ensures ra == rb
  {
    hide Pulled, Outcome;
    forall n | n in ra.view ensures ra.view[n] == rb.view[n] {
      if Declared(a, n) {
        var i :| 0 <= i < |a| && a[i].name == n;
        assert a[i] in b;
        var j :| 0 <= j < |b| && b[j] == a[i];
      }
    }
    assert ra.view.Keys == rb.view.Keys;
  }

  lemma SameDeclared(a: seq<Config>, b: seq<Config>)
    requires forall c | c in a :: c in b
    ensures forall n | Declared(a, n) :: Declared(b, n)
  {
    forall n | Declared(a, n) ensures Declared(b, n) {
      var i :| 0 <= i < |a| && a[i].name == n;
      assert a[i] in b;
    }
  }

  lemma SamePulled(digest: Digest, w: World, a: seq<Config>, b: seq<Config>)
    requires forall c | c in a :: c in b
    ensures Pulled(digest, w, a) <= Pulled(digest, w, b)
  {
    hide Current;
    forall image | image in Pulled(digest, w, a) ensures image in Pulled(digest, w, b) {
      var i :| 0 <= i < |a| && !Current(digest, w, a[i]) && a[i].image == image;
      assert a[i] in b;
    }
  }

  // Every config-hash label in use names a config the container was really created from.
  ghost predicate Honest(digest: Digest, w: World) {
    forall n | n in w.view && HASH_LABEL in w.view[n].spec.labels ::
      exists d: Config :: d.Valid() && w.view[n].spec == Desired(digest, d)
  }

  // Successful or not, what a phase does to the world as a whole keeps labels honest.
  lemma {:induction false} PhaseStaysHonest(digest: Digest, w: World, configs: Configs)
    requires Honest(digest, w)
    ensures Honest(digest, Stopped(w, configs)) && Honest(digest, AllReconciled(digest, w, configs))
    decreases |configs|
  {
    hide SpecOf, ConfigHash, NeedsStop, Declared, Config.Valid;
    if configs != [] {
      var k := |configs| - 1;
      PhaseStaysHonest(digest, w, configs[..k]);
      ReconciledStaysHonest(digest, AllReconciled(digest, w, configs[..k]), configs[k]);
    }
  }

  lemma ReconciledStaysHonest(digest: Digest, w: World, c: Config)
    requires c.Valid() && Honest(digest, w)
    ensures Honest(digest, Reconciled(digest, w, c))
  {
    hide SpecOf, ConfigHash;
  }

  // Leaving a hash-matching container alone never skips a change of spec.
  lemma CurrentHasDesiredSpec(digest: Digest, w: World, c: Config)
    requires c.Valid() && CollisionFree(digest) && Honest(digest, w) && Current(digest, w, c)
    ensures w.view[c.name].spec == Desired(digest, c)
  {
    hide SpecOf, HashText;
    var x := w.view[c.name];
    var d: Config :| d.Valid() && x.spec == Desired(digest, d);
    assert x.spec.labels[HASH_LABEL] == ConfigHash(digest, d) == ConfigHash(digest, c);
    SameTextSameSpec(c, d);
  }

  // After a whole successful phase from an honest world, every declared container runs from
  // exactly the spec its config describes.
  lemma {:induction false} DeclaredRunAsDeclared(digest: Digest, w: World, configs: Configs, i: nat)
    requires CollisionFree(digest) && Honest(digest, w) && NamesAgree(digest, configs) && i < |configs|
    ensures var r := AllReconciled(digest, Stopped(w, configs), configs);
            configs[i].name in r.view && r.view[configs[i].name] == Container(Desired(digest, configs[i]), "running")
  {
    hide Desired, AllReconciled, HasHash, Stopped, Honest, Config.Valid, CollisionFree;
    var r := AllReconciled(digest, Stopped(w, configs), configs);
    PhaseStaysHonest(digest, w, configs);
    PhaseStaysHonest(digest, Stopped(w, configs), configs);
    AllCurrentIffNamesAgree(digest, Stopped(w, configs), configs);
    CurrentHasDesiredSpec(digest, r, configs[i]);
  }

  // A phase leaves containers nobody declared as they were.
  lemma {:induction false} UndeclaredUntouched(digest: Digest, w: World, configs: Configs, n: string)
    requires !Declared(configs, n)
    ensures var r := AllReconciled(digest, w, configs);
            (n in r.view <==> n in w.view) && (n in w.view ==> r.view[n] == w.view[n])
    decreases |configs|
  {
    hide Current, Fresh, Config.Valid;
    if configs != [] {
      var k := |configs| - 1;
      assert configs[k].name != n;
      assert !Declared(configs[..k], n);
      UndeclaredUntouched(digest, w, configs[..k], n);
    }
  }

  // After a phase nothing is left to stop.
  lemma StoppedStays(digest: Digest, w: World, configs: Configs)
    ensures var r := AllReconciled(digest, Stopped(w, configs), configs); Stopped(r, configs) == r
  {
    hide Declared, NeedsStop, AllReconciled;
    ExitedNeedsNoStop();
    var r := AllReconciled(digest, Stopped(w, configs), configs);
    forall n | n in r.view && !Declared(configs, n) ensures !NeedsStop(r.view[n].state) {
      UndeclaredUntouched(digest, Stopped(w, configs), configs, n);
    }
    assert Stopped(r, configs).view == r.view;
  }

  // The last declaration of a name always gets its way.
  lemma {:induction false} LastDeclarationWins(digest: Digest, w: World, configs: Configs, i: nat)
    requires i < |configs| && forall j | i < j < |configs| :: configs[j].name != configs[i].name
    ensures Current(digest, AllReconciled(digest, w, configs), configs[i])
    decreases |configs|
  {
    hide SpecOf, ConfigHash, Config.Valid;
    var k := |configs| - 1;
    if i < k {
      var init: Configs := configs[..k];
      LastDeclarationWins(digest, w, init, i);
      var r := AllReconciled(digest, w, init);
      SameVerdict(digest, r, Reconciled(digest, r, configs[k]), configs[i]);
    }
  }

  lemma LastOfName(configs: seq<Config>, i: nat) returns (k: nat)
    requires i < |configs|
    ensures i <= k < |configs| && configs[k].name == configs[i].name
    ensures forall j | k < j < |configs| :: configs[j].name != configs[i].name
  {
    k := |configs| - 1;
    while configs[k].name != configs[i].name
      invariant i <= k < |configs|
      invariant forall j | k < j < |configs| :: configs[j].name != configs[i].name
      decreases k
    {
      k := k - 1;
    }
  }

  // Nothing stops a config from declaring a name twice.
  ghost predicate NamesAgree(digest: Digest, configs: seq<Config>) {
    forall i, j | 0 <= i < |configs| && 0 <= j < |configs| && configs[i].name == configs[j].name ::
      ConfigHash(digest, configs[i]) == ConfigHash(digest, configs[j])
  }

  // Every declaration ends up current exactly when declarations sharing a name share their
  // hash.
  lemma AllCurrentIffNamesAgree(digest: Digest, w: World, configs: Configs)
    ensures var r := AllReconciled(digest, w, configs);
            (forall i | 0 <= i < |configs| :: Current(digest, r, configs[i])) <==> NamesAgree(digest, configs)
  {
    var r := AllReconciled(digest, w, configs);
    hide ConfigHash, AllReconciled, Config.Valid;
    if NamesAgree(digest, configs) {
      forall i | 0 <= i < |configs| ensures Current(digest, r, configs[i]) {
        var k := LastOfName(configs, i);
        LastDeclarationWins(digest, w, configs, k);
      }
    }
  }

  /* ---- in full ---- */

  // Running, and labelled with this hash.
  predicate RunsWith(w: World, name: string, hash: string) {
    && name in w.view && w.view[name].state == "running"
    && LabelOf(w.view[name].spec, "edgecommander.config-hash") == hash
  }

  function LabelOf(spec: Spec, key: string): string {
    if key in spec.labels then spec.labels[key] else ""
  }

  // One of the states in which a container is left alone.
  predicate Resting(state: string) {
    var s := ToLower(state);
    || s == "created" || s == "configured" || s == "dead" || s == "exited" || s == "removing" || s == "stopped"
  }

  lemma RestingInFull(state: string)
    ensures NeedsStop(state) <==> !Resting(state)
  {
    hide ToLower;
  }

  lemma CurrentInFull(digest: Digest, w: World, c: Config)
    ensures Current(digest, w, c) <==> RunsWith(w, c.name, digest(HashText(c)))
  {
    hide HashText;
  }

  // What reconciling one container comes to: one that runs with its config's hash is left
  // alone; any other runs anew, from its config's image and settings and with its hash.
  lemma ReconciledInFull(digest: Digest, w: World, c: Config)
    requires c.Valid()
    ensures var r, hash := Reconciled(digest, w, c), digest(HashText(c));
            && RunsWith(r, c.name, hash)
            && (RunsWith(w, c.name, hash) ==> r == w)
            && (!RunsWith(w, c.name, hash) ==>
                  && r.view[c.name].spec == SpecOf(c).(labels := map["edgecommander.config-hash" := hash])
                  && SpecAsked(SpecOf(c), c) && c.image in r.images)
  {
    hide HashText, SpecOf, SpecAsked;
    SpecIsAsked(c);
    CurrentInFull(digest, w, c);
  }

  // What a phase comes to: whatever is not declared is in one of the states of rest, and,
  // where declarations sharing a name share their hash, whatever is declared runs with it.
  ghost predicate PhaseDone(digest: Digest, configs: seq<Config>, r: World) {
    && (forall n | n in r.view && (forall c | c in configs :: c.name != n) :: Resting(r.view[n].state))
    && (NamesAgree(digest, configs) ==> forall c | c in configs :: RunsWith(r, c.name, digest(HashText(c))))
  }

  lemma PhaseInFull(digest: Digest, w: World, configs: Configs)
    ensures PhaseDone(digest, configs, AllReconciled(digest, Stopped(w, configs), configs))
  {
    hide NeedsStop, AllReconciled, Resting, RunsWith, HashText, NamesAgree, Current;
    var s := Stopped(w, configs);
    var r := AllReconciled(digest, s, configs);
    forall n | n in r.view && (forall c | c in configs :: c.name != n) ensures Resting(r.view[n].state) {
      assert !Declared(configs, n);
      UndeclaredUntouched(digest, s, configs, n);
      ExitedNeedsNoStop();
      RestingInFull(r.view[n].state);
    }
    AllCurrentIffNamesAgree(digest, s, configs);
    if NamesAgree(digest, configs) {
      forall c | c in configs ensures RunsWith(r, c.name, digest(HashText(c))) {
        CurrentInFull(digest, r, c);
      }
    }
  }

  lemma ExitedNeedsNoStop()
    ensures !NeedsStop("exited")
  {
    LowerLettersFixed("exited");
  }
}
