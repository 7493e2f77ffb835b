/**
 * That the runs of the service are not too few: what loading makes of a file, spelled out, and
 * for each kind of job a run in which it does its work; and that failures, restarts and power
 * losses are as bad as they may be.
 */
module ConvergenceProgress {
  import opened Wrappers
  import opened FileSystem
  import opened Convergence
  import opened ConvergenceInvariant
  import opened ConvergenceSteps
  import opened ConvergenceRuns
  import opened ConvergenceTraces

  // Loading the file leaves the thread holding a config exactly when the file is there and
  // decodes to it; otherwise it is about to give up.
  lemma LoadInFull<C>(v: Service<C>, s: State<C>, id: Id, config: C)
    requires Enabled(v, s, Load(id))
    ensures s.fs.Valid() && id in Do(v, s, Load(id)).threads
    ensures var content, pc := s.fs.Content(Path(v.config)), Do(v, s, Load(id)).threads[id].pc;
            && (pc == Holding(config) <==> content.Some? && v.decode(content.value) == Some(config))
            && (content.None? || v.decode(content.value).None? ==> pc == Returning)
  {
  }

  lemma AcquireIs<C>(v: Service<C>, s: State<C>, id: Id, job: Job)
    requires s.lock.None? && id !in s.threads && JobAllowed(v, job) && Locked(job)
    ensures Leads(v, s, [Start(id, job), Acquire(id)], Acquired(Begun(s, id, job), id))
  {
    hide JobAllowed, Locked;
    var t := LockCanBeTaken(v, s, id, job);
  }

  // With applyMu free and a file that decodes, the startup reconcile can go through, and it
  // hands the config of the file, as its latest version, to configApplier.
  lemma StartupCanFinish<C>(v: Service<C>, s: State<C>, id: Id, config: C) returns (steps: seq<Step>, t: State<C>)
    requires Inv(v, s) && s.lock.None? && id !in s.threads && s.fs.Valid()
    requires s.fs.Content(Path(v.config)).Some? && v.decode(s.fs.Content(Path(v.config)).value) == Some(config)
    ensures steps == [Start(id, Startup), Acquire(id), Load(id), Converge(id), Leave(id)] && Leads(v, s, steps, t)
    ensures t.applied == s.applied + [Applied(config, Last(s))] && t.reached && t.lock.None?
    ensures t.versions == s.versions && t.fs == s.fs
  {
    KnowFloor(v, s);
    hide Inv;
    var locked := Acquired(Begun(s, id, Startup), id);
    AcquireIs(v, s, id, Startup);
    var u := ApplyLoaded(v, locked, id, config);
    t := u;
    var first, rest := [Start(id, Startup), Acquire(id)], [Load(id), Converge(id), Leave(id)];
    LeadsThen(v, s, first, locked, rest, t);
    steps := first + rest;
  }

  lemma ApplyLoaded<C>(v: Service<C>, s: State<C>, id: Id, config: C) returns (t: State<C>)
    requires id in s.threads && s.threads[id] == Thread(Startup, Ready) && s.lock == Some(id) && s.versions != []
    requires s.fs.Valid() && s.fs.Content(Path(v.config)).Some?
    requires v.decode(s.fs.Content(Path(v.config)).value) == Some(config)
    ensures Leads(v, s, [Load(id), Converge(id), Leave(id)], t)
    ensures t.applied == s.applied + [Applied(config, Last(s))] && t.reached && t.lock.None?
    ensures t.versions == s.versions && t.fs == s.fs
  {
    hide Do, Enabled;
    var one := Goto(s, id, Holding(config));
    var two := Converged(one, id, config);
    t := Left(two, id);
    LoadIs(v, s, id, config);
    ConvergeIs(v, one, id, config);
    LeaveIs(v, two, id);
    LeadsStep(v, two, Leave(id), [], t);
    LeadsStep(v, one, Converge(id), [Leave(id)], t);
    LeadsStep(v, s, Load(id), [Converge(id)] + [Leave(id)], t);
    assert [Load(id)] + ([Converge(id)] + [Leave(id)]) == [Load(id), Converge(id), Leave(id)];
  }

  lemma LoadIs<C>(v: Service<C>, s: State<C>, id: Id, config: C)
    requires id in s.threads && s.threads[id] == Thread(Startup, Ready)
    requires s.fs.Valid() && s.fs.Content(Path(v.config)).Some?
    requires v.decode(s.fs.Content(Path(v.config)).value) == Some(config)
    ensures Enabled(v, s, Load(id)) && Do(v, s, Load(id)) == Goto(s, id, Holding(config))
  {
    hide Goto;
  }

  /* ---- the other jobs ---- */

  // What a request may ask to write: a config that decodes and is valid to the config path,
  // an image anywhere but there and at the network document, a network document to its path.
  predicate MayAsk<C>(v: Service<C>, use: Use, dest: string, body: Bytes) {
    match use
    case Upload => dest == v.config && v.decode(body).Some? && v.valid(v.decode(body).value)
    case Image => dest != v.config && dest != v.network
    case Network => dest == v.network
  }

  // The file is the one just written, for readers and after a power loss.
  ghost predicate InPlaceForGood(fs: Fs, dest: string, body: Bytes) {
    && Settled(fs, fs.dir, Path(dest)) && Read(fs, fs.dir, Path(dest)) == Some(body)
    && Settled(fs, fs.disk, Path(dest)) && Read(fs, fs.disk, Path(dest)) == Some(body)
  }

  // Exactly such requests can be made, and each of them can get as far as having its body in
  // place for good; a network document by way of being accepted, the others without.
  lemma WriteCanSucceed<C>(v: Service<C>, s: State<C>, id: Id, use: Use, dest: string, body: Bytes, tmp: nat,
      ino: Inode)
    returns (steps: seq<Step>, t: State<C>)
    requires id !in s.threads && tmp !in s.owner && ino !in s.fs.data && (use == Upload ==> s.lock.None?)
    ensures Enabled(v, s, Start(id, Write(use, dest, body))) <==> MayAsk(v, use, dest, body)
    ensures MayAsk(v, use, dest, body) ==>
              && Leads(v, s, steps, t) && InPlaceForGood(t.fs, dest, body)
              && (Accept(id) in steps <==> use == Network) && (dest, body) in t.cleared
  {
    var job := Write(use, dest, body);
    AskedIsAllowed(v, s, id, use, dest, body);
    hide Enabled, Do, Leads, InPlaceForGood, MayAsk, JobAllowed;
    steps, t := [], s;
    if MayAsk(v, use, dest, body) {
      var begin, ready := WriteCanBegin(v, s, id, job);
      var more, cleared := WriteCanBeCleared(v, ready, id, job, tmp, ino);
      var rest, u := WriteCanLand(v, cleared, id, job, tmp, ino);
      LeadsThen(v, ready, more, cleared, rest, u);
      LeadsThen(v, s, begin, ready, more + rest, u);
      steps, t := begin + (more + rest), u;
    }
  }

  lemma AskedIsAllowed<C>(v: Service<C>, s: State<C>, id: Id, use: Use, dest: string, body: Bytes)
    requires id !in s.threads
    ensures JobAllowed(v, Write(use, dest, body)) <==> MayAsk(v, use, dest, body)
    ensures Enabled(v, s, Start(id, Write(use, dest, body))) <==> MayAsk(v, use, dest, body)
  {
  }

  lemma WriteCanBegin<C>(v: Service<C>, s: State<C>, id: Id, job: Job) returns (steps: seq<Step>, t: State<C>)
    requires id !in s.threads && job.Write? && JobAllowed(v, job) && (job.use == Upload ==> s.lock.None?)
    ensures Leads(v, s, steps, t) && Accept(id) !in steps && t.fs == s.fs && t.owner == s.owner
    ensures id in t.threads && t.threads[id] == Thread(job, Ready)
    ensures job.use != Network ==> (job.dest, job.body) in t.cleared
  {
    hide Do, Enabled, JobAllowed;
    if job.use == Upload {
      t := LockCanBeTaken(v, s, id, job);
      steps := [Start(id, job), Acquire(id)];
    } else {
      t := Begun(s, id, job);
      StartIs(v, s, id, job);
      NoSteps(v, t);
      LeadsStep(v, s, Start(id, job), [], t);
      steps := [Start(id, job)] + [];
    }
  }

  lemma StartIs<C>(v: Service<C>, s: State<C>, id: Id, job: Job)
    requires id !in s.threads && JobAllowed(v, job)
    ensures Enabled(v, s, Start(id, job)) && Do(v, s, Start(id, job)) == Begun(s, id, job)
  {
    hide Begun, JobAllowed;
  }

  // The whole body staged under the temporary name.
  ghost predicate StagedWhole<C>(s: State<C>, id: Id, job: Job, tmp: nat, ino: Inode) {
    && id in s.threads && s.threads[id].job == job && job.Write?
    && Temp(tmp) in s.fs.dir && s.fs.dir[Temp(tmp)] == ino
    && ino in s.fs.data && s.fs.data[ino] == job.body && ino in s.fs.synced
  }

  lemma WriteCanBeCleared<C>(v: Service<C>, s: State<C>, id: Id, job: Job, tmp: nat, ino: Inode)
    returns (steps: seq<Step>, t: State<C>)
    requires id in s.threads && s.threads[id] == Thread(job, Ready) && job.Write?
    requires tmp !in s.owner && ino !in s.fs.data && (job.use != Network ==> (job.dest, job.body) in s.cleared)
    ensures Leads(v, s, steps, t) && (Accept(id) in steps <==> job.use == Network)
    ensures StagedWhole(t, id, job, tmp, ino)
    ensures t.threads[id].pc == Cleared(tmp, ino) && (job.dest, job.body) in t.cleared
  {
    hide Do, Enabled, Leads;
    var synced := WriteCanBeSynced(v, s, id, job, tmp, ino);
    var staging := [Create(id, tmp, ino), Append(id, job.body), Sync(id)];
    if job.use == Network {
      t := Approved(synced, id, job, Complete(tmp, ino));
      AcceptIs(v, synced, id);
      NoSteps(v, t);
      LeadsStep(v, synced, Accept(id), [], t);
      LeadsThen(v, s, staging, synced, [Accept(id)] + [], t);
      steps := staging + ([Accept(id)] + []);
      assert steps[3] == Accept(id);
    } else {
      steps, t := staging, synced;
    }
  }

  lemma WriteCanBeSynced<C>(v: Service<C>, s: State<C>, id: Id, job: Job, tmp: nat, ino: Inode) returns (t: State<C>)
    requires id in s.threads && s.threads[id] == Thread(job, Ready) && job.Write?
    requires tmp !in s.owner && ino !in s.fs.data
    ensures Leads(v, s, [Create(id, tmp, ino), Append(id, job.body), Sync(id)], t) && t.cleared == s.cleared
    ensures StagedWhole(t, id, job, tmp, ino)
    ensures t.threads[id].pc == if job.use == Network then Complete(tmp, ino) else Cleared(tmp, ino)
  {
    hide Do, Enabled, Leads;
    var one := Created(s, id, tmp, ino);
    assert "" + job.body == job.body;
    var two := Appended(one, id, Writing(tmp, ino, ""), job.body);
    t := Synced(two, id, job.use, Writing(tmp, ino, job.body));
    CreateIs(v, s, id, tmp, ino);
    AppendIs(v, one, id, job.body);
    SyncIs(v, two, id);
    NoSteps(v, t);
    LeadsStep(v, two, Sync(id), [], t);
    LeadsStep(v, one, Append(id, job.body), [Sync(id)] + [], t);
    LeadsStep(v, s, Create(id, tmp, ino), [Append(id, job.body)] + ([Sync(id)] + []), t);
    assert [Create(id, tmp, ino)] + ([Append(id, job.body)] + ([Sync(id)] + [])) ==
           [Create(id, tmp, ino), Append(id, job.body), Sync(id)];
  }

  lemma CreateIs<C>(v: Service<C>, s: State<C>, id: Id, tmp: nat, ino: Inode)
    requires id in s.threads && s.threads[id].pc.Ready? && s.threads[id].job.Write?
    requires tmp !in s.owner && ino !in s.fs.data
    ensures Enabled(v, s, Create(id, tmp, ino)) && Do(v, s, Create(id, tmp, ino)) == Created(s, id, tmp, ino)
  {
    hide Created;
  }

  lemma AppendIs<C>(v: Service<C>, s: State<C>, id: Id, chunk: Bytes)
    requires id in s.threads && s.threads[id].pc.Writing? && s.threads[id].job.Write?
    requires s.threads[id].pc.ino in s.fs.data && s.threads[id].pc.sofar + chunk <= s.threads[id].job.body
    ensures Enabled(v, s, Append(id, chunk)) && Do(v, s, Append(id, chunk)) == Appended(s, id, s.threads[id].pc, chunk)
  {
    hide Appended;
  }

  lemma SyncIs<C>(v: Service<C>, s: State<C>, id: Id)
    requires id in s.threads && s.threads[id].pc.Writing? && s.threads[id].job.Write?
    requires s.threads[id].pc.sofar == s.threads[id].job.body
    ensures Enabled(v, s, Sync(id)) && Do(v, s, Sync(id)) == Synced(s, id, s.threads[id].job.use, s.threads[id].pc)
  {
    hide Synced;
  }

  lemma AcceptIs<C>(v: Service<C>, s: State<C>, id: Id)
    requires id in s.threads && s.threads[id].pc.Complete? && s.threads[id].job.Write?
    ensures Enabled(v, s, Accept(id)) && Do(v, s, Accept(id)) == Approved(s, id, s.threads[id].job, s.threads[id].pc)
  {
    hide Approved;
  }

  lemma WriteCanLand<C>(v: Service<C>, s: State<C>, id: Id, job: Job, tmp: nat, ino: Inode)
    returns (steps: seq<Step>, t: State<C>)
    requires StagedWhole(s, id, job, tmp, ino) && s.threads[id].pc == Cleared(tmp, ino)
    requires (job.dest, job.body) in s.cleared
    ensures Leads(v, s, steps, t) && Accept(id) !in steps
    ensures InPlaceForGood(t.fs, job.dest, job.body) && (job.dest, job.body) in t.cleared
  {
    hide Do, Enabled;
    var one := InPlace(v, s, id, job, tmp);
    t := Persisted(v, one, id, job.dest, tmp);
    RenameIs(v, s, id, job, tmp, ino);
    SyncDirIs(v, one, id, job, tmp);
    LeadsStep(v, one, SyncDir(id), [], t);
    LeadsStep(v, s, Rename(id), [SyncDir(id)] + [], t);
    steps := [Rename(id)] + ([SyncDir(id)] + []);
  }

  lemma SyncDirIs<C>(v: Service<C>, s: State<C>, id: Id, job: Job, tmp: nat)
    requires id in s.threads && s.threads[id] == Thread(job, Renamed(tmp)) && job.Write?
    ensures Enabled(v, s, SyncDir(id)) && Do(v, s, SyncDir(id)) == Persisted(v, s, id, job.dest, tmp)
  {
    hide Persisted;
  }

  // When nothing is declared the network document can be withdrawn.
  lemma WithdrawCanHappen<C>(v: Service<C>, s: State<C>, id: Id) returns (t: State<C>)
    requires id !in s.threads
    ensures Leads(v, s, [Start(id, Withdraw), Remove(id)], t) && Path(v.network) !in t.fs.dir && t.withdrawn
  {
    var one := Begun(s, id, Withdraw);
    t := Withdrawn(v, one, id);
    LeadsStep(v, one, Remove(id), [], t);
    LeadsStep(v, s, Start(id, Withdraw), [Remove(id)], t);
    assert [Start(id, Withdraw)] + [Remove(id)] == [Start(id, Withdraw), Remove(id)];
  }

  /* ---- what may go wrong ---- */

  // Any call before the end may fail: before there is a temporary file the job is over, and
  // after that its removal is due, which may succeed or fail in turn.
  lemma AnyCallMayFail<C>(v: Service<C>, s: State<C>, id: Id)
    requires id in s.threads
    ensures var pc := s.threads[id].pc;
            && (pc.Ready? ==> Enabled(v, s, Fail(id)) && Do(v, s, Fail(id)).threads[id].pc == Returning)
            && (pc.Writing? || pc.Complete? || pc.Cleared? || pc.Renamed? ==>
                  Enabled(v, s, Fail(id)) && Do(v, s, Fail(id)).threads[id].pc == Cleaning(pc.tmp, false))
            && (pc.Cleaning? ==> Enabled(v, s, Clean(id, true)) && Enabled(v, s, Clean(id, false)))
  {
    hide Fs.Remove;
  }

  // A restart or a power loss may come at any time and leaves no thread, no lock and no record
  // of what was applied; a restart leaves the files.
  lemma ProcessMayStop<C>(v: Service<C>, s: State<C>, garbage: map<Inode, Bytes>)
    ensures Enabled(v, s, Restart) && Enabled(v, s, PowerLoss(garbage))
    ensures forall t | t in [Do(v, s, Restart), Do(v, s, PowerLoss(garbage))] ::
              t.threads == map[] && t.lock.None? && !t.reached && t.applied == []
    ensures Do(v, s, Restart).fs == s.fs && Do(v, s, PowerLoss(garbage)).fs == s.fs.PowerLoss(garbage)
  {
    hide Fs.PowerLoss;
  }

  // The kernel may write any directory entry back at any time, that one and no other.
  lemma EntriesMayReachDisk<C>(v: Service<C>, s: State<C>, name: Name)
    ensures Enabled(v, s, WriteBack(name))
    ensures var t := Do(v, s, WriteBack(name));
            && t.fs.dir == s.fs.dir && Entry(t.fs.disk, name) == Entry(s.fs.dir, name)
            && (forall n :: n != name ==> Entry(t.fs.disk, n) == Entry(s.fs.disk, n))
            && t.threads == s.threads && t.lock == s.lock && t.applied == s.applied
  {
  }

  // After a power loss a file that was synced is as written, and one that was not may hold
  // anything.
  lemma UnsyncedMayHoldAnything(fs: Fs, ino: Inode, content: Bytes)
    requires ino in fs.data
    ensures ino in fs.synced ==> forall garbage :: fs.PowerLoss(garbage).data[ino] == fs.data[ino]
    ensures ino !in fs.synced ==> fs.PowerLoss(map[ino := content]).data[ino] == content
    ensures forall garbage :: fs.PowerLoss(garbage).dir == fs.disk && fs.PowerLoss(garbage).disk == fs.disk
  {
  }
}
