/**
 * What holds over every run of the service: any interleaving of the startup reconcile, config
 * uploads, image uploads and network commits, with failures, restarts and power losses.
 */
module ConvergenceRuns {
  import opened Wrappers
  import opened FileSystem
  import opened Convergence
  import opened ConvergenceInvariant
  import opened ConvergenceSteps

  lemma InitInv<C>(v: Service<C>, s: State<C>)
    requires Init(v, s)
    ensures Inv(v, s)
  {
    forall path ensures PathWhole(v, s, path) {}
  }

  // Only configs that validateConfig accepts are ever cleared for the config path.
  ghost predicate Fit<C>(v: Service<C>, s: State<C>) {
    forall body | (v.config, body) in s.cleared :: v.Accepts(body)
  }

  lemma ClearedOnlyBy<C>(v: Service<C>, s: State<C>, step: Step)
    requires Enabled(v, s, step)
    ensures Do(v, s, step).first == s.first
    ensures !step.Start? && !step.Accept? ==> Do(v, s, step).cleared == s.cleared
  {
    hide Do, Enabled;
    if step.Create? || step.Append? || step.Sync? || step.Rename? || step.SyncDir? || step.Clean? {
      FileCallClearsNothing(v, s, step);
    } else {
      OtherCallClears(v, s, step);
    }
  }

  lemma FileCallClearsNothing<C>(v: Service<C>, s: State<C>, step: Step)
    requires Enabled(v, s, step)
    requires step.Create? || step.Append? || step.Sync? || step.Rename? || step.SyncDir? || step.Clean?
    ensures Do(v, s, step).first == s.first && Do(v, s, step).cleared == s.cleared
  {
    hide Fs.Create, Fs.Append, Fs.SyncFile, Fs.Rename, Fs.Remove, Fs.WriteBack, AfterWrite, Last, Enabled;
  }

  lemma OtherCallClears<C>(v: Service<C>, s: State<C>, step: Step)
    requires Enabled(v, s, step)
    requires !step.Create? && !step.Append? && !step.Sync? && !step.Rename? && !step.SyncDir? && !step.Clean?
    ensures Do(v, s, step).first == s.first
    ensures !step.Start? && !step.Accept? ==> Do(v, s, step).cleared == s.cleared
  {
    hide Fs.Remove, Fs.WriteBack, Fs.PowerLoss, Loaded, Last, Enabled;
  }

  lemma FitKept<C>(v: Service<C>, s: State<C>, step: Step)
    requires Inv(v, s) && Fit(v, s) && Enabled(v, s, step)
    ensures Fit(v, Do(v, s, step)) && Do(v, s, step).first == s.first
  {
    ClearedOnlyBy(v, s, step);
    KnowApart(v, s);
    if step.Start? {
      hide Inv, Goto;
    } else if step.Accept? {
      Know(v, s, step.id);
      hide Inv, Goto, Holder, Owns, Temps, Private;
    } else {
      hide *;
      hide Do, Enabled, Inv;
      FitSame(v, s, Do(v, s, step));
    }
  }

  lemma KnowApart<C>(v: Service<C>, s: State<C>)
    requires Inv(v, s)
    ensures v.config != v.network
  {
    hide Files, Threads, Temps, Exclusive, Versions, Holders, History;
  }

  lemma FitSame<C>(v: Service<C>, s: State<C>, t: State<C>)
    requires Fit(v, s) && t.cleared == s.cleared
    ensures Fit(v, t)
  {
  }

  lemma {:induction false} RunKeeps<C>(v: Service<C>, s: State<C>, steps: seq<Step>, t: State<C>)
    requires Inv(v, s) && Fit(v, s) && Leads(v, s, steps, t)
    ensures Inv(v, t) && Fit(v, t) && t.first == s.first
    decreases |steps|
  {
    hide Inv, Fit, Do, Enabled;
    if steps != [] {
      StepKeeps(v, s, steps[0]);
      FitKept(v, s, steps[0]);
      RunKeeps(v, Do(v, s, steps[0]), steps[1..], t);
    }
  }

  // What a path holds for readers, and what it holds after a power loss.
  function NowAndAfter(fs: Fs, garbage: map<Inode, Bytes>, path: string): set<Option<Bytes>>
    requires fs.Valid() && fs.PowerLoss(garbage).Valid()
  {
    {fs.Content(Path(path)), fs.PowerLoss(garbage).Content(Path(path))}
  }

  // The config path, whenever it is looked at and whatever a power loss makes of it, holds
  // the document it held at first or a whole one that validateConfig accepted.
  lemma ConfigAlwaysWhole<C>(v: Service<C>, s: State<C>, steps: seq<Step>, t: State<C>, garbage: map<Inode, Bytes>)
    requires Init(v, s) && Leads(v, s, steps, t)
    ensures t.fs.Valid() && t.fs.PowerLoss(garbage).Valid()
    ensures forall document | document in NowAndAfter(t.fs, garbage, v.config) ::
              document == s.fs.Content(Path(v.config)) || (document.Some? && v.Accepts(document.value))
  {
    InitInv(v, s);
    RunKeeps(v, s, steps, t);
    PathContents(v, t, v.config, garbage);
  }

  // A path holds, now and after a power loss, a document it may hold.
  lemma PathContents<C>(v: Service<C>, t: State<C>, path: string, garbage: map<Inode, Bytes>)
    requires Inv(v, t)
    ensures t.fs.Valid() && t.fs.PowerLoss(garbage).Valid()
    ensures MayHold(v, t, path, t.fs.Content(Path(path)))
    ensures MayHold(v, t, path, t.fs.PowerLoss(garbage).Content(Path(path)))
  {
    assert PathWhole(v, t, path);
    PowerLossSettles(t.fs, garbage, path);
    hide Threads, Temps, Exclusive, Versions, Holders, History, MayHold, Fs.PowerLoss;
  }

  // At most one convergence at a time, and none while another thread writes the config.
  lemma OneConvergence<C>(v: Service<C>, s: State<C>, steps: seq<Step>, t: State<C>, a: Id, b: Id)
    requires Init(v, s) && Leads(v, s, steps, t)
    requires a in t.threads && b in t.threads && t.threads[a].pc.Applying?
    requires t.threads[b].pc.Applying?
      || (t.threads[b].job.Write? && t.threads[b].job.use == Upload && !t.threads[b].pc.Waiting?)
    ensures a == b
  {
    InitInv(v, s);
    RunKeeps(v, s, steps, t);
    Know(v, t, a);
    Know(v, t, b);
  }

  // Whenever a convergence has been started since applyMu was last taken, it was given the
  // config that is on disk now; and the configs this process has applied are those of
  // versions of the file that never go back.
  lemma LastAppliedIsOnDisk<C>(v: Service<C>, s: State<C>, steps: seq<Step>, t: State<C>)
    requires Init(v, s) && Leads(v, s, steps, t) && t.reached
    ensures t.fs.Valid() && t.fs.Content(Path(v.config)).Some? && t.applied != []
    ensures v.decode(t.fs.Content(Path(v.config)).value) == Some(t.applied[|t.applied| - 1].config)
  {
    InitInv(v, s);
    RunKeeps(v, s, steps, t);
    hide Threads, Temps, Exclusive, Holders;
  }

  lemma NeverBackToAnOlderConfig<C>(v: Service<C>, s: State<C>, steps: seq<Step>, t: State<C>, i: nat, j: nat)
    requires Init(v, s) && Leads(v, s, steps, t) && i <= j < |t.applied|
    ensures t.applied[i].version <= t.applied[j].version < |t.versions|
    ensures forall k | k in {i, j} ::
              && t.versions[t.applied[k].version].Some?
              && v.decode(t.versions[t.applied[k].version].value) == Some(t.applied[k].config)
  {
    hide Leads;
    InitInv(v, s);
    RunKeeps(v, s, steps, t);
    hide Init, Files, Threads, Temps, Exclusive, Holders, Versions;
  }

  // The startup reconcile in particular: what it is about to apply is what is on disk. That
  // this is no older than any upload written before is ConvergenceTraces.StartupIsNotOlder.
  lemma StartupAppliesTheFile<C>(v: Service<C>, s: State<C>, steps: seq<Step>, t: State<C>, id: Id)
    requires Init(v, s) && Leads(v, s, steps, t) && id in t.threads && t.threads[id].pc.Holding?
    ensures t.fs.Valid() && t.fs.Content(Path(v.config)).Some?
    ensures v.decode(t.fs.Content(Path(v.config)).value) == Some(t.threads[id].pc.config)
  {
    InitInv(v, s);
    RunKeeps(v, s, steps, t);
    Know(v, t, id);
    hide Threads, Temps, Exclusive, Holders, History;
  }

  // A promise of durability is kept for good: the versions up to it never change, and what
  // the config path holds, now or after a power loss, is none older.
  lemma {:induction false} PromiseKept<C>(v: Service<C>, s: State<C>, steps: seq<Step>, t: State<C>)
    requires Inv(v, s) && Fit(v, s) && Leads(v, s, steps, t)
    ensures s.floor <= t.floor <= t.onDisk < |t.versions| && s.floor < |s.versions|
    ensures t.versions[..s.floor + 1] == s.versions[..s.floor + 1]
    decreases |steps|
  {
    KnowFloor(v, s);
    hide Inv, Fit, Do, Enabled;
    if steps != [] {
      var next := Do(v, s, steps[0]);
      StepKeeps(v, s, steps[0]);
      FitKept(v, s, steps[0]);
      StepKeepsPromise(v, s, steps[0]);
      PromiseKept(v, next, steps[1..], t);
      assert t.versions[..s.floor + 1] == t.versions[..next.floor + 1][..s.floor + 1];
      assert next.versions[..s.floor + 1] == next.versions[..next.floor + 1][..s.floor + 1];
    }
  }

  lemma KnowFloor<C>(v: Service<C>, s: State<C>)
    requires Inv(v, s)
    ensures s.floor <= s.onDisk < |s.versions|
  {
    hide Files, Threads, Temps, Exclusive, Holders, History;
  }

  lemma StepKeepsPromise<C>(v: Service<C>, s: State<C>, step: Step)
    requires Inv(v, s) && Enabled(v, s, step)
    ensures var t := Do(v, s, step);
            && s.floor <= t.floor && s.floor < |t.versions|
            && t.versions[..s.floor + 1] == s.versions[..s.floor + 1]
  {
    KnowFloor(v, s);
    VersionsHow(v, s, step);
    hide Inv, Fs.Rename, Fs.WriteBack, Fs.PowerLoss;
    if step.Rename? {
    } else if step.SyncDir? {
    } else if step.PowerLoss? {
    } else {
      hide *;
    }
  }

  // The steps that touch the record of the config's versions.
  lemma VersionsHow<C>(v: Service<C>, s: State<C>, step: Step)
    requires Enabled(v, s, step)
    ensures !step.Rename? && !step.PowerLoss? ==> Do(v, s, step).versions == s.versions
    ensures !step.SyncDir? ==> Do(v, s, step).floor == s.floor
  {
    hide Fs.Create, Fs.Append, Fs.SyncFile, Fs.Rename, Fs.Remove, Fs.WriteBack, Fs.PowerLoss;
  }

  // No step of the run renames a config into place.
  ghost predicate NoConfigRenamed<C>(v: Service<C>, s: State<C>, steps: seq<Step>)
    decreases |steps|
  {
    steps != [] && Enabled(v, s, steps[0]) ==>
      && !(steps[0].Rename? && s.threads[steps[0].id].job.dest == v.config)
      && NoConfigRenamed(v, Do(v, s, steps[0]), steps[1..])
  }

  lemma {:induction false} VersionsOnlyByRename<C>(v: Service<C>, s: State<C>, steps: seq<Step>, t: State<C>)
    requires Leads(v, s, steps, t) && NoConfigRenamed(v, s, steps)
    ensures |t.versions| <= |s.versions|
    decreases |steps|
  {
    if steps != [] {
      var next := Do(v, s, steps[0]);
      FewerVersions(v, s, steps[0]);
      hide Do, Enabled;
      VersionsOnlyByRename(v, next, steps[1..], t);
    }
  }

  lemma FewerVersions<C>(v: Service<C>, s: State<C>, step: Step)
    requires Enabled(v, s, step) && (step.Rename? ==> s.threads[step.id].job.dest != v.config)
    ensures |Do(v, s, step).versions| <= |s.versions|
  {
    VersionsHow(v, s, step);
    hide Fs.Rename, Fs.PowerLoss;
    if step.Rename? {
    } else if step.PowerLoss? {
    } else {
      hide *;
    }
  }

  // Once writeConfigFile has returned nil the config path holds the body it was given, across
  // any later power losses, until another upload renames its own into place.
  lemma ReturnedNilIsDurable<C>(v: Service<C>, s: State<C>, before: seq<Step>, r: State<C>, id: Id,
      after: seq<Step>, t: State<C>, garbage: map<Inode, Bytes>)
    requires Init(v, s) && Leads(v, s, before, r) && Leads(v, r, after, t) && NoConfigRenamed(v, r, after)
    requires id in r.threads && r.threads[id].job.Write? && r.threads[id].job.use == Upload && Kept(r.threads[id].pc)
    ensures t.fs.Valid() && t.fs.PowerLoss(garbage).Valid()
    ensures t.fs.Content(Path(v.config)) == Some(r.threads[id].job.body)
    ensures t.fs.PowerLoss(garbage).Content(Path(v.config)) == Some(r.threads[id].job.body)
  {
    hide Leads, Do, Enabled, NoConfigRenamed, Known, Inv, Fit, Fs.PowerLoss;
    InitInv(v, s);
    InitFit(v, s);
    RunKeeps(v, s, before, r);
    RunKeeps(v, r, after, t);
    PromiseKept(v, r, after, t);
    VersionsOnlyByRename(v, r, after, t);
    UploadHolds(v, r, id);
    assert t.versions[..r.floor + 1][r.floor] == r.versions[..r.floor + 1][r.floor];
    DiskContents(v, t, garbage);
  }

  lemma InitFit<C>(v: Service<C>, s: State<C>)
    requires Init(v, s)
    ensures Fit(v, s)
  {
  }

  // While the upload still holds applyMu, its body is the latest version and durable.
  lemma UploadHolds<C>(v: Service<C>, r: State<C>, id: Id)
    requires Inv(v, r)
    requires id in r.threads && r.threads[id].job.Write? && r.threads[id].job.use == Upload && Kept(r.threads[id].pc)
    ensures |r.versions| == r.floor + 1 && r.versions[r.floor] == Some(r.threads[id].job.body)
  {
    Know(v, r, id);
    hide Inv, Temps, Staging, Owns, JobAllowed;
  }

  lemma DiskContents<C>(v: Service<C>, t: State<C>, garbage: map<Inode, Bytes>)
    requires Inv(v, t)
    ensures t.fs.Valid() && t.fs.PowerLoss(garbage).Valid() && t.onDisk < |t.versions|
    ensures t.fs.Content(Path(v.config)) == t.versions[Last(t)]
    ensures t.fs.PowerLoss(garbage).Content(Path(v.config)) == t.versions[t.onDisk]
  {
    hide Threads, Temps, Exclusive, Holders, History;
    PowerLossSettles(t.fs, garbage, v.config);
  }

  // Any other path: the document it held at first, or one whole document cleared for it. For
  // an image that is a body uploaded to it, for the network document one nmstatectl accepted;
  // the network document may also have been withdrawn.
  lemma PathAlwaysWhole<C>(v: Service<C>, s: State<C>, steps: seq<Step>, t: State<C>, path: string,
      garbage: map<Inode, Bytes>)
    requires Init(v, s) && Leads(v, s, steps, t)
    ensures t.fs.Valid() && t.fs.PowerLoss(garbage).Valid()
    ensures forall document | document in NowAndAfter(t.fs, garbage, path) ::
              || document == s.fs.Content(Path(path))
              || (document.Some? && (path, document.value) in t.cleared)
              || (document.None? && path == v.network && t.withdrawn)
  {
    InitInv(v, s);
    RunKeeps(v, s, steps, t);
    PathContents(v, t, path, garbage);
  }

  // How a document comes to be cleared: uploading it, or nmstatectl accepting it, when it is
  // whole and on disk in the uploader's temporary file.
  lemma ClearedHow<C>(v: Service<C>, s: State<C>, step: Step, path: string, body: Bytes)
    requires Inv(v, s) && Enabled(v, s, step) && (path, body) in Do(v, s, step).cleared && (path, body) !in s.cleared
    ensures if path == v.network then
              && step.Accept? && s.threads[step.id].job == Write(Network, path, body)
              && s.fs.Valid() && s.fs.Content(Temp(s.threads[step.id].pc.tmp)) == Some(body)
              && s.threads[step.id].pc.ino in s.fs.synced
            else
              && step.Start? && step.job.Write? && step.job.use != Network
              && step.job.dest == path && step.job.body == body
  {
    ClearedOnlyBy(v, s, step);
    KnowApart(v, s);
    if step.Accept? {
      Know(v, s, step.id);
      hide Inv, Holder, Owns, Temps;
    } else {
      hide Inv;
    }
  }

  // document is the whole of what the job writes to path.
  predicate PutsInPlace(job: Job, path: string, document: Option<Bytes>) {
    job.Write? && job.dest == path && document == Some(job.body)
  }

  // What processes read at a path changes only by the rename of a call that wrote to it, to
  // the whole of that call's body; by the withdrawal of the network document; or by a power
  // loss. In particular a call that returns before its rename has changed nothing there.
  lemma OnlyRenameChanges<C>(v: Service<C>, s: State<C>, step: Step, path: string)
    requires Inv(v, s) && Enabled(v, s, step)
    ensures s.fs.Valid() && Do(v, s, step).fs.Valid()
    ensures var t := Do(v, s, step);
            t.fs.Content(Path(path)) != s.fs.Content(Path(path)) ==>
              || step.PowerLoss?
              || (step.Rename? && PutsInPlace(s.threads[step.id].job, path, t.fs.Content(Path(path))))
              || (step.Remove? && path == v.network && t.fs.Content(Path(path)) == None)
  {
    StepKeeps(v, s, step);
    KnowPath(v, s, path);
    KnowPath(v, Do(v, s, step), path);
    if step.Rename? || step.Remove? || step.WriteBack? || step.SyncDir? {
      RenameChanges(v, s, step, path);
    } else if !step.PowerLoss? {
      QuietChangesNothing(v, s, step, path);
    }
    hide *;
  }

  lemma KnowPath<C>(v: Service<C>, s: State<C>, path: string)
    requires Inv(v, s)
    ensures s.fs.Valid() && Settled(s.fs, s.fs.dir, Path(path))
  {
    assert PathWhole(v, s, path);
    hide Threads, Temps, Exclusive, Versions, Holders, History, MayHold;
  }

  lemma SameContent(a: Fs, b: Fs, path: string)
    requires a.Valid() && b.Valid() && Settled(a, a.dir, Path(path)) && PathSame(a, b, path)
    ensures b.Content(Path(path)) == a.Content(Path(path))
  {
    assert Read(b, b.dir, Path(path)) == Read(a, a.dir, Path(path));
  }

  lemma RenameChanges<C>(v: Service<C>, s: State<C>, step: Step, path: string)
    requires Inv(v, s) && Enabled(v, s, step) && s.fs.Valid() && Settled(s.fs, s.fs.dir, Path(path))
    requires step.Rename? || step.Remove? || step.WriteBack? || step.SyncDir?
    requires Do(v, s, step).fs.Valid()
    ensures var t := Do(v, s, step);
            t.fs.Content(Path(path)) != s.fs.Content(Path(path)) ==>
              || (step.Rename? && PutsInPlace(s.threads[step.id].job, path, t.fs.Content(Path(path))))
              || (step.Remove? && path == v.network && t.fs.Content(Path(path)) == None)
  {
    hide Do, Enabled, Inv;
    if step.Rename? {
      RenamePutsBody(v, s, step.id, path);
    } else {
      SameEntries(v, s, step);
    }
  }

  lemma RenamePutsBody<C>(v: Service<C>, s: State<C>, id: Id, path: string)
    requires Inv(v, s) && Enabled(v, s, Rename(id)) && s.fs.Valid() && Do(v, s, Rename(id)).fs.Valid()
    ensures var t, job := Do(v, s, Rename(id)), s.threads[id].job;
            && job.Write?
            && t.fs.Content(Path(path)) == if path == job.dest then Some(job.body) else s.fs.Content(Path(path))
  {
    Know(v, s, id);
    hide Inv, Holder, Owns, Temps;
  }

  lemma SameEntries<C>(v: Service<C>, s: State<C>, step: Step)
    requires Enabled(v, s, step) && !step.Rename?
    ensures step.Remove? ==> Do(v, s, step).fs == s.fs.Remove(Path(v.network))
    ensures step.WriteBack? || step.SyncDir? ==>
      Do(v, s, step).fs.dir == s.fs.dir && Do(v, s, step).fs.data == s.fs.data
  {
    hide Fs.Create, Fs.Append, Fs.SyncFile, Fs.Remove, Fs.PowerLoss;
  }

  lemma QuietChangesNothing<C>(v: Service<C>, s: State<C>, step: Step, path: string)
    requires Inv(v, s) && Enabled(v, s, step) && s.fs.Valid() && Settled(s.fs, s.fs.dir, Path(path))
    requires !step.Rename? && !step.Remove? && !step.WriteBack? && !step.SyncDir? && !step.PowerLoss?
    requires Do(v, s, step).fs.Valid()
    ensures Do(v, s, step).fs.Content(Path(path)) == s.fs.Content(Path(path))
  {
    if step.Append? || step.Create? || step.Sync? || step.Clean? {
      ghost var id := step.id;
      Know(v, s, id);
      QuietStepSame(v, s, step, path);
      SameContent(s.fs, Do(v, s, step).fs, path);
      hide *;
    } else {
      hide Inv, Fs.Create, Fs.Append, Fs.SyncFile, Fs.Rename, Fs.Remove, Fs.WriteBack, Fs.PowerLoss;
    }
  }

  lemma QuietStepSame<C>(v: Service<C>, s: State<C>, step: Step, path: string)
    requires (step.Append? || step.Create? || step.Sync? || step.Clean?) && Enabled(v, s, step)
    requires Known(v, s, step.id)
    ensures PathSame(s.fs, Do(v, s, step).fs, path)
  {
    var id := step.id;
    var Thread(job, pc) := s.threads[id];
    hide Holder, PathSame;
    match step
    case Create(_, tmp, ino) => CreateQuiet(v, s, id, tmp, ino);
    case Append(_, chunk) => AppendQuiet(v, s, id, pc, chunk);
    case Sync(_) => SyncQuiet(v, s, id, job, pc);
    case Clean(_, removed) => if removed { RemoveQuiet(v, s, id, job, pc); } else { KeepQuiet(v, s, id, job, pc); }
  }

  // Every temporary file has a running owner that has yet to remove it, unless the removal
  // failed or the process that made it went down; and that is the only way to be left over.
  lemma TempsAreTended<C>(v: Service<C>, s: State<C>, steps: seq<Step>, t: State<C>, tmp: nat)
    requires Init(v, s) && Leads(v, s, steps, t) && Temp(tmp) in t.fs.dir && tmp !in t.leftover
    ensures tmp in t.owner && t.owner[tmp] in t.threads && TempOf(t.threads[t.owner[tmp]].pc) == Some(tmp)
  {
    InitInv(v, s);
    RunKeeps(v, s, steps, t);
  }

  lemma LeftoverHow<C>(v: Service<C>, s: State<C>, step: Step, tmp: nat)
    requires Enabled(v, s, step) && tmp in Do(v, s, step).leftover && tmp !in s.leftover
    ensures (step.Clean? && !step.removed && s.threads[step.id].pc.tmp == tmp) || step.Restart? || step.PowerLoss?
  {
    hide Fs.Create, Fs.Append, Fs.SyncFile, Fs.Rename, Fs.Remove, Fs.WriteBack, Fs.PowerLoss;
  }

  // None of this is for want of runs: with applyMu free, an accepted upload can go through to
  // the end, on disk for good and applied.
  lemma UploadCanFinish<C>(v: Service<C>, s: State<C>, id: Id, body: Bytes, tmp: nat, ino: Inode)
    returns (steps: seq<Step>, t: State<C>)
    requires Inv(v, s) && s.lock.None? && id !in s.threads && v.Accepts(body) && tmp !in s.owner && ino !in s.fs.data
    ensures Leads(v, s, steps, t) && t.lock.None? && t.reached
    ensures t.versions == s.versions + [Some(body)] && t.floor == Last(t)
  {
    var job := Write(Upload, v.config, body);
    KnowFloor(v, s);
    hide Inv;
    var locked := Acquired(Begun(s, id, job), id);
    var more, staged := StagingCanFinish(v, locked, id, body, tmp, ino);
    var rest, u := InstallCanFinish(v, staged, id, body, tmp, ino);
    t := u;
    LeadsThen(v, locked, more, staged, rest, t);
    assert Acquired(Begun(s, id, job), id) == Do(v, Do(v, s, Start(id, job)), Acquire(id));
    LeadsStep(v, Do(v, s, Start(id, job)), Acquire(id), more + rest, t);
    LeadsStep(v, s, Start(id, job), [Acquire(id)] + (more + rest), t);
    steps := [Start(id, job)] + ([Acquire(id)] + (more + rest));
  }

  lemma LeadsStep<C>(v: Service<C>, s: State<C>, step: Step, rest: seq<Step>, t: State<C>)
    requires Enabled(v, s, step) && Leads(v, Do(v, s, step), rest, t)
    ensures Leads(v, s, [step] + rest, t)
  {
    hide Do, Enabled;
    assert ([step] + rest)[1..] == rest;
  }

  lemma {:induction false} LeadsThen<C>(v: Service<C>, s: State<C>, a: seq<Step>, m: State<C>, b: seq<Step>,
      t: State<C>)
    requires Leads(v, s, a, m) && Leads(v, m, b, t)
    ensures Leads(v, s, a + b, t)
    decreases |a|
  {
    hide Do, Enabled;
    if a == [] {
      assert a + b == b;
    } else {
      LeadsThen(v, Do(v, s, a[0]), a[1..], m, b, t);
      assert (a + b)[1..] == a[1..] + b && (a + b)[0] == a[0];
    }
  }

  lemma StagingCanFinish<C>(v: Service<C>, s: State<C>, id: Id, body: Bytes, tmp: nat, ino: Inode)
    returns (steps: seq<Step>, t: State<C>)
    requires id in s.threads && s.threads[id] == Thread(Write(Upload, v.config, body), Ready)
    requires tmp !in s.owner && ino !in s.fs.data
    ensures Leads(v, s, steps, t) && id in t.threads
    ensures t.threads[id] == Thread(Write(Upload, v.config, body), Cleared(tmp, ino))
    ensures Temp(tmp) in t.fs.dir && t.lock == s.lock && t.versions == s.versions && t.applied == s.applied
  {
    var one := Created(s, id, tmp, ino);
    assert "" + body == body;
    var two := Appended(one, id, one.threads[id].pc, body);
    t := Synced(two, id, Upload, two.threads[id].pc);
    LeadsStep(v, two, Sync(id), [], t);
    LeadsStep(v, one, Append(id, body), [Sync(id)], t);
    LeadsStep(v, s, Create(id, tmp, ino), [Append(id, body)] + [Sync(id)], t);
    steps := [Create(id, tmp, ino)] + ([Append(id, body)] + [Sync(id)]);
  }

  lemma InstallCanFinish<C>(v: Service<C>, s: State<C>, id: Id, body: Bytes, tmp: nat, ino: Inode)
    returns (steps: seq<Step>, t: State<C>)
    requires id in s.threads && s.threads[id] == Thread(Write(Upload, v.config, body), Cleared(tmp, ino))
    requires Temp(tmp) in s.fs.dir && s.lock == Some(id) && v.Accepts(body)
    ensures Leads(v, s, steps, t) && t.lock.None? && t.reached
    ensures t.versions == s.versions + [Some(body)] && t.floor == Last(t)
  {
    hide Fs.Rename, Fs.WriteBack;
    var job := Write(Upload, v.config, body);
    var one := InPlace(v, s, id, job, tmp);
    var two := Persisted(v, one, id, v.config, tmp);
    var rest, u := ApplyCanFinish(v, two, id, body, tmp);
    t := u;
    LeadsStep(v, one, SyncDir(id), rest, t);
    LeadsStep(v, s, Rename(id), [SyncDir(id)] + rest, t);
    steps := [Rename(id)] + ([SyncDir(id)] + rest);
  }

  lemma CleanIs<C>(v: Service<C>, s: State<C>, id: Id, job: Job, pc: Pc<C>, removed: bool)
    requires id in s.threads && s.threads[id] == Thread(job, pc) && pc.Cleaning?
    ensures Enabled(v, s, Clean(id, removed)) && Do(v, s, Clean(id, removed)) == Cleaned(v, s, id, job, pc, removed)
  {
    hide Cleaned;
  }

  lemma ConvergeIs<C>(v: Service<C>, s: State<C>, id: Id, config: C)
    requires id in s.threads && s.threads[id].pc == Holding(config) && s.versions != []
    ensures Enabled(v, s, Converge(id)) && Do(v, s, Converge(id)) == Converged(s, id, config)
  {
    hide Converged;
  }

  lemma RenameIs<C>(v: Service<C>, s: State<C>, id: Id, job: Job, tmp: nat, ino: Inode)
    requires id in s.threads && s.threads[id] == Thread(job, Cleared(tmp, ino)) && job.Write? && Temp(tmp) in s.fs.dir
    ensures Enabled(v, s, Rename(id)) && Do(v, s, Rename(id)) == InPlace(v, s, id, job, tmp)
  {
    hide InPlace;
  }

  lemma LeaveIs<C>(v: Service<C>, s: State<C>, id: Id)
    requires id in s.threads && (s.threads[id].pc.Applying? || s.threads[id].pc.Returning?)
    ensures Enabled(v, s, Leave(id)) && Do(v, s, Leave(id)) == Left(s, id)
  {
    hide Left;
  }

  lemma FailIs<C>(v: Service<C>, s: State<C>, id: Id, pc: Pc<C>)
    requires id in s.threads && Fails(s.threads[id].pc) == Some(pc)
    ensures Enabled(v, s, Fail(id)) && Do(v, s, Fail(id)) == Goto(s, id, pc)
  {
    hide Goto;
  }

  lemma ApplyCanFinish<C>(v: Service<C>, s: State<C>, id: Id, body: Bytes, tmp: nat)
    returns (steps: seq<Step>, t: State<C>)
    requires id in s.threads && s.threads[id] == Thread(Write(Upload, v.config, body), Cleaning(tmp, true))
    requires s.lock == Some(id) && v.Accepts(body) && s.versions != []
    ensures Leads(v, s, steps, t) && t.lock.None? && t.reached && t.versions == s.versions && t.floor == s.floor
  {
    hide Fs.Remove, Do, Enabled;
    var one := Cleaned(v, s, id, Write(Upload, v.config, body), Cleaning(tmp, true), true);
    var two := Converged(one, id, v.decode(body).value);
    t := Left(two, id);
    CleanIs(v, s, id, Write(Upload, v.config, body), Cleaning(tmp, true), true);
    ConvergeIs(v, one, id, v.decode(body).value);
    LeaveIs(v, two, id);
    LeadsStep(v, two, Leave(id), [], t);
    LeadsStep(v, one, Converge(id), [Leave(id)], t);
    LeadsStep(v, s, Clean(id, true), [Converge(id)] + [Leave(id)], t);
    steps := [Clean(id, true)] + ([Converge(id)] + [Leave(id)]);
  }
}
