/**
 * applyConfig of orchestration.go: the three reconcilers in their order, each entered only
 * when the steps before it have succeeded.
 */
module Orchestration {
  import opened Wrappers
  import opened Net
  import R = InterfaceRules
  import N = NMState
  import F = Firewall
  import S = FirewallState
  import opened FirewallRules
  import C = ConfigRules
  import opened ContainerConfig
  import opened PodmanState
  import P = Podman
  import FileSystem
  import W = FileWriter

  datatype NodeConfig = NodeConfig(
    interfaces: seq<R.InterfaceConfig>, routes: seq<R.RouteConfig>, firewallPorts: seq<PortConfig>, containers: Configs)

  // What validateConfig makes sure of, as far as the fields modelled here go.
  ghost predicate Accepted(net: NetText, c: NodeConfig) {
    && N.ValidEntries(net, c.interfaces) && N.ValidRoutes(net, c.routes)
    && (forall i | 0 <= i < |c.firewallPorts| :: C.ValidateDeclaration(net, c.firewallPorts[i]).None?)
    && (forall i | 0 <= i < |c.containers| :: ValidContainer(c.containers[i]))
  }

  // others stands for the checks of the Podman mode, the hostname, folders and files.
  method ValidateConfig(net: NetText, c: NodeConfig, others: bool) returns (ok: bool)
    ensures ok <==> Accepted(net, c) && others
  {
    hide N.ValidEntries, N.ValidRoutes, C.ValidateDeclaration, N.Describes, ValidContainer;
    if !others { return false; }
    var state := N.BuildNMState(net, c.interfaces, c.routes);
    if state.None? { return false; }
    C.FirstOffender(net, c.firewallPorts, 0);
    var offender := C.ValidateDeclarations(net, c.firewallPorts);
    if offender.Some? {
      assert C.ValidateDeclaration(net, c.firewallPorts[offender.value.0]).Some?;
      return false;
    }
    for i := 0 to |c.containers|
      invariant forall j | 0 <= j < i :: ValidContainer(c.containers[j])
    {
      if !ValidContainer(c.containers[i]) { return false; }
    }
    ok := true;
  }

  // The ports of an accepted config reach Podman as the numbers that were written.
  lemma AcceptedPortsArrive(net: NetText, c: NodeConfig, i: nat, j: nat)
    requires Accepted(net, c) && i < |c.containers| && j < |List(c.containers[i].ports)|
    ensures var p, q := List(c.containers[i].ports)[j], SpecOf(c.containers[i]).ports[j];
            q.hostPort == p.hostPort && q.containerPort == p.containerPort
  {
    hide N.ValidEntries, N.ValidRoutes, C.ValidateDeclaration, ValidContainer;
    assert ValidContainer(c.containers[i]);
    SpecKeepsPorts(c.containers[i], j);
  }

  // The document is in place, for readers and across a power loss.
  predicate Committed(fs: FileSystem.Fs, path: FileSystem.Name, document: FileSystem.Bytes)
    requires fs.Valid()
  {
    fs.Content(path) == Some(document) && fs.Holds(path, {Some(document)})
  }

  // The network document is what the declarations describe, or none when nothing is declared.
  ghost predicate NetworkDone(net: NetText, marshal: N.Document -> FileSystem.Bytes, c: NodeConfig, fs: FileSystem.Fs,
      path: FileSystem.Name)
    requires Accepted(net, c)
  {
    && fs.Valid()
    && if c.interfaces == [] && c.routes == [] then fs.Content(path) == None
       else exists d :: N.Describes(net, c.interfaces, c.routes, d) && Committed(fs, path, marshal(d))
  }

  method ConfigureNetwork(d: W.Disk, net: NetText, marshal: N.Document -> FileSystem.Bytes, path: FileSystem.Name,
      c: NodeConfig, ghost docs: set<Option<FileSystem.Bytes>>)
    returns (ok: bool)
    requires d.Valid() && path.Path? && d.fs.Holds(path, docs) && Accepted(net, c)
    modifies d
    ensures d.Valid()
    ensures ok ==> NetworkDone(net, marshal, c, d.fs, path)
    ensures ok <==> d.failures == old(d.failures)
  {
    hide N.ValidEntries, N.ValidRoutes, C.ValidateDeclaration, N.Describes, FileSystem.Fs.Holds, FileSystem.Fs.Valid,
      W.LeavesOnly;
    var declared := !(|c.interfaces| == 0 && |c.routes| == 0);
    var built := None;
    if declared {
      // This cannot fail any more.
      var state := N.BuildNMState(net, c.interfaces, c.routes);
      built := Some(marshal(state.value));
    }
    ghost var accepted, left;
    ok, accepted, left := W.ConfigureHostInterfaces(d, path, declared, built, docs);
    KeptValid(d);
  }

  lemma KeptValid(d: W.Disk)
    requires d.Valid()
    ensures d.fs.Valid()
  {
  }

  lemma AcceptedBuilds(net: NetText, c: NodeConfig)
    requires Accepted(net, c)
    ensures F.AllBuild(net, c.firewallPorts)
  {
    hide C.ValidateDeclaration, OpenItem, N.ValidEntries, N.ValidRoutes, ValidContainer;
    C.FirstOffender(net, c.firewallPorts, 0);
    forall i | 0 <= i < |c.firewallPorts| ensures OpenItem(net, c.firewallPorts[i]).Ok? {
      C.AcceptedNeverFails(net, c.firewallPorts, c.firewallPorts[i]);
    }
  }

  // applyConfig. The firewall is not touched before the network is as declared, nor Podman
  // before the firewall is; success means all three are. A converged firewall and an idle
  // Podman are left alone. It succeeds exactly when the config is valid and no step and no call failed:
  // others, provisioned, running and connected say how the steps not modelled turn out, which
  // are the rest of the validation, setting up the hostname, folders and files, starting
  // firewalld, and starting and reaching the Podman socket.
  method ApplyConfig(d: W.Disk, fw: F.Firewalld, p: P.Client, net: NetText, digest: Digest,
      marshal: N.Document -> FileSystem.Bytes, path: FileSystem.Name, c: NodeConfig,
      others: bool, provisioned: bool, running: bool, connected: bool, ghost docs: set<Option<FileSystem.Bytes>>)
    returns (ok: bool, failed: seq<nat>)
    requires d.Valid() && fw.Valid() && p.Valid() && path.Path? && d.fs.Holds(path, docs)
    modifies d, fw, p
    ensures d.Valid() && fw.Valid() && p.Valid()
    ensures !(Accepted(net, c) && others) ==>
      !ok && d.history == old(d.history) && fw.history == old(fw.history) && p.history == old(p.history)
    ensures fw.history != old(fw.history) || p.history != old(p.history) || ok ==>
              Accepted(net, c) && NetworkDone(net, marshal, c, d.fs, path)
    ensures p.history != old(p.history) || ok ==> FirewallDone(net, c, fw, running)
    ensures ok ==> failed == []
    ensures ok ==> p.state.View() == AllReconciled(digest, Stopped(old(p.state.View()), c.containers), c.containers)
    ensures old(P.HasIds(p.state)) ==>
              (ok <==>
               && Accepted(net, c) && others && provisioned && (running || c.firewallPorts == []) && connected
               && d.failures == old(d.failures) && fw.failures == old(fw.failures) && p.failures == old(p.failures))
    ensures old(S.Plan(net, c.firewallPorts, fw.defaultZone).Converged(fw.state)) ==> fw.history == old(fw.history)
    ensures P.Idle(digest, old(p.state.View()), c.containers) ==> p.history == old(p.history)
    ensures P.Failures(failed, |c.containers|)
    ensures failed != [] ==> P.Settled(digest, c.containers, |c.containers|, failed, p.state.View())
  {
    hide Accepted, FileSystem.Fs.Holds, NetworkDone, S.Plan.Converged, P.Idle, P.Extends, S.Plan.Extends,
      AllReconciled, Stopped, P.Settled, P.HasIds, F.AllBuild;
    ok, failed := false, [];
    var good := ValidateConfig(net, c, others);
    if !good { return; }
    AcceptedBuilds(net, c);
    if !provisioned { return; }
    var networked := ConfigureNetwork(d, net, marshal, path, c, docs);
    if !networked { return; }
    var firewalled := F.ConfigureFirewallPorts(fw, net, c.firewallPorts, running);
    if !firewalled { return; }
    if !connected { return; }
    var stopped, errors := P.ContainerPhase(p, digest, c.containers);
    failed := if stopped then errors else [];
    ok := stopped && failed == [];
  }

  ghost predicate FirewallDone(net: NetText, c: NodeConfig, fw: F.Firewalld, running: bool)
    reads fw
  {
    if running then S.Plan(net, c.firewallPorts, fw.defaultZone).Converged(fw.state) else c.firewallPorts == []
  }
}
