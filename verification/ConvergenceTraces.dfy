/**
 * Where things in a run come from: which step put a document in place, what an upload that
 * was not applied has left behind, and what the startup reconcile cannot have missed.
 */
module ConvergenceTraces {
  import opened Wrappers
  import opened FileSystem
  import opened Convergence
  import opened ConvergenceInvariant
  import opened ConvergenceSteps
  import opened ConvergenceRuns

  /* ---- one upload, from taking applyMu on ---- */

  ghost predicate Uploading<C>(v: Service<C>, s: State<C>, id: Id, body: Bytes) {
    id in s.threads && s.threads[id].job == Write(Upload, v.config, body) && !s.threads[id].pc.Waiting?
  }

  // The rename may still be ahead.
  predicate Ahead<C>(pc: Pc<C>) {
    pc.Ready? || pc.Writing? || pc.Complete? || pc.Cleared?
  }

  // id belongs to one request: it is not given to another one.
  predicate OneRequest(steps: seq<Step>, id: Id) {
    forall k | 0 <= k < |steps| :: !(steps[k].Start? && steps[k].id == id)
  }

  predicate Concerns(step: Step, id: Id) {
    step.WriteBack? || step.Restart? || step.PowerLoss? || step.id == id
  }

  lemma StepOfThread<C>(v: Service<C>, s: State<C>, step: Step)
    requires Enabled(v, s, step) && !step.Start? && !step.WriteBack? && !step.Restart? && !step.PowerLoss?
    ensures step.id in s.threads
  {
  }

  lemma OthersKeepThread<C>(v: Service<C>, s: State<C>, step: Step, id: Id)
    requires Enabled(v, s, step)
    ensures !Concerns(step, id) || step.WriteBack? ==>
              && (id in s.threads <==> id in Do(v, s, step).threads)
              && (id in s.threads ==> Do(v, s, step).threads[id] == s.threads[id])
    ensures id !in s.threads && id in Do(v, s, step).threads ==> step.Start? && step.id == id
    ensures step.Restart? || step.PowerLoss? ==> Do(v, s, step).threads == map[]
  {
    if !step.Start? && !step.WriteBack? && !step.Restart? && !step.PowerLoss? {
      StepOfThread(v, s, step);
    }
    hide Fs.Create, Fs.Append, Fs.SyncFile, Fs.Rename, Fs.Remove, Fs.WriteBack, Fs.PowerLoss, Loaded, AfterWrite, Last,
      Enabled;
  }

  lemma AppliedHow<C>(v: Service<C>, s: State<C>, step: Step)
    requires Enabled(v, s, step) && !step.Converge? && !step.Restart? && !step.PowerLoss?
    ensures Do(v, s, step).applied == s.applied
  {
    hide Fs.Create, Fs.Append, Fs.SyncFile, Fs.Rename, Fs.Remove, Fs.WriteBack, Fs.PowerLoss, Loaded, AfterWrite, Last,
      Enabled;
  }

  // What one of the upload's own steps does to it.
  ghost predicate Proceeds<C>(v: Service<C>, s: State<C>, step: Step, t: State<C>, id: Id, body: Bytes)
    requires id in s.threads
  {
    && Uploading(v, t, id, body) && (step.Rename? ==> Ahead(s.threads[id].pc) && !Ahead(t.threads[id].pc))
    && (!Ahead(s.threads[id].pc) ==> !Ahead(t.threads[id].pc))
    && (step.Converge? ==> t.threads[id].pc.Applying?)
    && (step.SyncDir? || Kept(s.threads[id].pc) ==> Kept(t.threads[id].pc))
  }

  lemma UploadAccepted<C>(v: Service<C>, s: State<C>, id: Id, body: Bytes)
    requires Inv(v, s) && Uploading(v, s, id, body)
    ensures v.Accepts(body)
  {
    Know(v, s, id);
    hide Inv;
  }

  lemma StagingStep<C>(v: Service<C>, s: State<C>, step: Step, id: Id, body: Bytes)
    requires Uploading(v, s, id, body) && Enabled(v, s, step)
    requires (step.Load? || step.Create? || step.Append? || step.Sync? || step.Accept?) && step.id == id
    ensures Proceeds(v, s, step, Do(v, s, step), id, body)
  {
    hide Fs.Create, Fs.Append, Fs.SyncFile;
  }

  lemma InstallStep<C>(v: Service<C>, s: State<C>, step: Step, id: Id, body: Bytes)
    requires Uploading(v, s, id, body) && Enabled(v, s, step) && v.Accepts(body)
    requires (step.Rename? || step.SyncDir? || step.Fail? || step.Clean? || step.Converge?) && step.id == id
    ensures Proceeds(v, s, step, Do(v, s, step), id, body)
  {
    hide Fs.Rename, Fs.WriteBack, Fs.Remove;
  }

  // The steps that end a thread, or are not for an upload under way.
  lemma OtherStep<C>(v: Service<C>, s: State<C>, step: Step, id: Id, body: Bytes)
    requires Uploading(v, s, id, body) && Enabled(v, s, step)
    requires step.Start? || step.Acquire? || step.Remove? || step.Leave? || step.Restart? || step.PowerLoss?
    requires Concerns(step, id)
    ensures id !in Do(v, s, step).threads
  {
    hide Fs.Remove, Fs.PowerLoss;
  }

  lemma OwnStep<C>(v: Service<C>, s: State<C>, step: Step, id: Id, body: Bytes)
    requires Inv(v, s) && Uploading(v, s, id, body) && Enabled(v, s, step)
    requires Concerns(step, id) && !step.WriteBack? && id in Do(v, s, step).threads
    ensures Proceeds(v, s, step, Do(v, s, step), id, body)
  {
    hide Inv, Enabled, Do, Uploading, Proceeds;
    UploadAccepted(v, s, id, body);
    if step.Load? || step.Create? || step.Append? || step.Sync? || step.Accept? {
      StagingStep(v, s, step, id, body);
    } else if step.Rename? || step.SyncDir? || step.Fail? || step.Clean? || step.Converge? {
      InstallStep(v, s, step, id, body);
    } else {
      OtherStep(v, s, step, id, body);
    }
  }

  // No other thread renames a config into place or hands one to configApplier meanwhile.
  lemma OthersWait<C>(v: Service<C>, s: State<C>, step: Step, id: Id, body: Bytes)
    requires Inv(v, s) && Uploading(v, s, id, body) && Enabled(v, s, step)
    ensures step.Converge? ==> step.id == id
    ensures step.Rename? && s.threads[step.id].job.dest == v.config ==> step.id == id
  {
    if step.Converge? || step.Rename? {
      Know(v, s, id);
      Know(v, s, step.id);
      hide Inv, Holder, Owns, Temps, Staging, Settled, Read;
    }
  }

  lemma UploadStep<C>(v: Service<C>, s: State<C>, step: Step, id: Id, body: Bytes)
    requires Inv(v, s) && Uploading(v, s, id, body) && Enabled(v, s, step) && id in Do(v, s, step).threads
    ensures var t := Do(v, s, step);
            && Uploading(v, t, id, body)
            && t.versions == s.versions + (if step == Rename(id) then [Some(body)] else [])
            && (step == Rename(id) ==> Ahead(s.threads[id].pc) && !Ahead(t.threads[id].pc))
            && (!Ahead(s.threads[id].pc) ==> !Ahead(t.threads[id].pc))
            && (t.threads[id].pc.Applying? || t.applied == s.applied)
            && (step == SyncDir(id) || Kept(s.threads[id].pc) ==> Kept(t.threads[id].pc))
  {
    hide Do, Enabled, Inv;
    OthersKeepThread(v, s, step, id);
    OthersWait(v, s, step, id, body);
    VersionsHow(v, s, step);
    if !step.Converge? && !step.Restart? && !step.PowerLoss? {
      AppliedHow(v, s, step);
    }
    if step.Rename? {
      RenameVersionsHow(v, s, step.id);
    }
    if Concerns(step, id) && !step.WriteBack? {
      OwnStep(v, s, step, id, body);
    }
  }

  lemma RenameVersionsHow<C>(v: Service<C>, s: State<C>, id: Id)
    requires Enabled(v, s, Rename(id))
    ensures var job := s.threads[id].job;
            Do(v, s, Rename(id)).versions == s.versions + (if job.dest == v.config then [Some(job.body)] else [])
  {
    hide Fs.Rename;
  }

  lemma {:induction false} GoneForever<C>(v: Service<C>, s: State<C>, steps: seq<Step>, t: State<C>, id: Id)
    requires Leads(v, s, steps, t) && OneRequest(steps, id) && id !in s.threads
    ensures id !in t.threads
    decreases |steps|
  {
    hide Do, Enabled;
    if steps != [] {
      OthersKeepThread(v, s, steps[0], id);
      GoneForever(v, Do(v, s, steps[0]), steps[1..], t, id);
    }
  }

  lemma {:induction false} UploadRun<C>(v: Service<C>, s: State<C>, steps: seq<Step>, t: State<C>, id: Id, body: Bytes)
    requires Inv(v, s) && Leads(v, s, steps, t) && Uploading(v, s, id, body) && OneRequest(steps, id) && id in t.threads
    ensures Inv(v, t) && Uploading(v, t, id, body)
    ensures t.versions == s.versions + (if Rename(id) in steps then [Some(body)] else [])
    ensures Rename(id) in steps ==> Ahead(s.threads[id].pc) && !Ahead(t.threads[id].pc)
    ensures !Ahead(s.threads[id].pc) ==> !Ahead(t.threads[id].pc)
    ensures t.threads[id].pc.Applying? || s.threads[id].pc.Applying? || t.applied == s.applied
    ensures SyncDir(id) in steps || Kept(s.threads[id].pc) ==> Kept(t.threads[id].pc)
    decreases |steps|
  {
    hide Do, Enabled, Inv, Uploading, Ahead;
    if steps != [] {
      var next := Do(v, s, steps[0]);
      assert steps == [steps[0]] + steps[1..];
      StepKeeps(v, s, steps[0]);
      if id !in next.threads {
        GoneForever(v, next, steps[1..], t, id);
      }
      UploadStep(v, s, steps[0], id, body);
      UploadRun(v, next, steps[1..], t, id, body);
      ApplyingStays(v, next, steps[1..], t, id, body);
    }
  }

  lemma {:induction false} ApplyingStays<C>(v: Service<C>, s: State<C>, steps: seq<Step>, t: State<C>, id: Id,
      body: Bytes)
    requires Inv(v, s) && Leads(v, s, steps, t) && Uploading(v, s, id, body) && OneRequest(steps, id) && id in t.threads
    ensures s.threads[id].pc.Applying? ==> t.threads[id].pc.Applying?
    decreases |steps|
  {
    if steps != [] && s.threads[id].pc.Applying? {
      var next := Do(v, s, steps[0]);
      StepKeeps(v, s, steps[0]);
      OthersKeepThread(v, s, steps[0], id);
      if id !in next.threads {
        GoneForever(v, next, steps[1..], t, id);
      }
      UploadStep(v, s, steps[0], id, body);
      assert next.threads[id].pc.Applying? by { hide Inv, Leads; }
      hide Do, Enabled, Inv, Uploading;
      ApplyingStays(v, next, steps[1..], t, id, body);
    }
  }

  // Between taking applyMu and returning without having been applied, an upload has changed
  // what the config path holds exactly when it renamed a different document there; and it
  // has done that without being applied only when the directory's sync did not succeed.
  lemma UnappliedUploadChangesPathIffRenamed<C>(v: Service<C>, i: State<C>, before: seq<Step>, s: State<C>,
      steps: seq<Step>, t: State<C>, id: Id, body: Bytes)
    requires Init(v, i) && Leads(v, i, before, s) && Leads(v, s, steps, t) && OneRequest(steps, id)
    requires Uploading(v, s, id, body) && s.threads[id].pc.Ready? && id in t.threads && t.threads[id].pc.Returning?
    ensures t.applied == s.applied && s.fs.Valid() && t.fs.Valid()
    ensures t.versions != s.versions <==> Rename(id) in steps
    ensures t.fs.Content(Path(v.config)) != s.fs.Content(Path(v.config)) <==>
              Rename(id) in steps && s.fs.Content(Path(v.config)) != Some(body)
    ensures Rename(id) in steps ==> t.fs.Content(Path(v.config)) == Some(body) && SyncDir(id) !in steps
  {
    hide Leads, Init, Inv, Fs.PowerLoss;
    InitInv(v, i);
    InitFit(v, i);
    RunKeeps(v, i, before, s);
    UploadRun(v, s, steps, t, id, body);
    DiskContents(v, s, map[]);
    DiskContents(v, t, map[]);
    KnowFloor(v, s);
  }

  // There are such runs from every reachable state in which applyMu is free: the directory's
  // sync fails after the rename, readers see the new config, applyMu is free again and
  // nothing has been applied.
  lemma RenamedButNotApplied<C>(v: Service<C>, i: State<C>, before: seq<Step>, s: State<C>,
      id: Id, body: Bytes, tmp: nat, ino: Inode, removed: bool)
    returns (steps: seq<Step>, t: State<C>)
    requires Init(v, i) && Leads(v, i, before, s) && s.lock.None?
    requires id !in s.threads && v.Accepts(body) && tmp !in s.owner && ino !in s.fs.data
    ensures Leads(v, s, steps, t) && Rename(id) in steps
    ensures t.lock.None? && !t.reached && t.applied == s.applied && id !in t.threads
    ensures t.fs.Valid() && t.fs.Content(Path(v.config)) == Some(body)
  {
    hide Leads, Init, Inv, Fs.PowerLoss, Do, Enabled;
    var more, r := RenameCanHappen(v, s, id, body, tmp, ino);
    LeadsThen(v, i, before, s, more, r);
    t := FailureKeepsRename(v, i, before + more, r, id, body, tmp, removed);
    var last := [Fail(id), Clean(id, removed), Leave(id)];
    LeadsThen(v, s, more, r, last, t);
    steps := more + last;
  }

  // An upload can get as far as its rename.
  lemma RenameCanHappen<C>(v: Service<C>, s: State<C>, id: Id, body: Bytes, tmp: nat, ino: Inode)
    returns (steps: seq<Step>, t: State<C>)
    requires s.lock.None? && id !in s.threads && v.Accepts(body) && tmp !in s.owner && ino !in s.fs.data
    ensures Leads(v, s, steps, t) && Rename(id) in steps && t.applied == s.applied
    ensures id in t.threads && t.threads[id] == Thread(Write(Upload, v.config, body), Renamed(tmp))
  {
    hide Do, Enabled, Leads, Fs.Rename;
    var job := Write(Upload, v.config, body);
    var locked := LockCanBeTaken(v, s, id, job);
    var more, staged := StagingCanFinish(v, locked, id, body, tmp, ino);
    t := InPlace(v, staged, id, job, tmp);
    RenameIs(v, staged, id, job, tmp, ino);
    NoSteps(v, t);
    LeadsStep(v, staged, Rename(id), [], t);
    LeadsThen(v, locked, more, staged, [Rename(id)] + [], t);
    var first := [Start(id, job), Acquire(id)];
    LeadsThen(v, s, first, locked, more + ([Rename(id)] + []), t);
    steps := first + (more + ([Rename(id)] + []));
  }

  lemma NoSteps<C>(v: Service<C>, s: State<C>)
    ensures Leads(v, s, [], s)
  {
  }

  lemma LockCanBeTaken<C>(v: Service<C>, s: State<C>, id: Id, job: Job) returns (t: State<C>)
    requires s.lock.None? && id !in s.threads && JobAllowed(v, job) && Locked(job)
    ensures Leads(v, s, [Start(id, job), Acquire(id)], t) && t == Acquired(Begun(s, id, job), id)
  {
    var one := Begun(s, id, job);
    t := Acquired(one, id);
    LeadsStep(v, one, Acquire(id), [], t);
    LeadsStep(v, s, Start(id, job), [Acquire(id)], t);
    assert [Start(id, job)] + [Acquire(id)] == [Start(id, job), Acquire(id)];
  }

  // When the directory's sync fails after the rename.
  lemma FailureKeepsRename<C>(v: Service<C>, i: State<C>, before: seq<Step>, s: State<C>,
      id: Id, body: Bytes, tmp: nat, removed: bool)
    returns (t: State<C>)
    requires Init(v, i) && Leads(v, i, before, s)
    requires id in s.threads && s.threads[id] == Thread(Write(Upload, v.config, body), Renamed(tmp))
    ensures Leads(v, s, [Fail(id), Clean(id, removed), Leave(id)], t)
    ensures t.lock.None? && !t.reached && t.applied == s.applied && id !in t.threads
    ensures t.fs.Valid() && t.fs.Content(Path(v.config)) == Some(body)
  {
    hide Leads, Init, Inv, Fs.PowerLoss;
    InitInv(v, i);
    InitFit(v, i);
    RunKeeps(v, i, before, s);
    RenamedIsLatest(v, s, id, body, tmp);
    t := GiveUp(v, s, id, body, tmp, removed);
    RunKeeps(v, s, [Fail(id), Clean(id, removed), Leave(id)], t);
    DiskContents(v, t, map[]);
  }

  lemma GiveUp<C>(v: Service<C>, s: State<C>, id: Id, body: Bytes, tmp: nat, removed: bool) returns (t: State<C>)
    requires id in s.threads && s.threads[id] == Thread(Write(Upload, v.config, body), Renamed(tmp))
    requires s.lock == Some(id)
    ensures Leads(v, s, [Fail(id), Clean(id, removed), Leave(id)], t)
    ensures t.lock.None? && t.reached == s.reached && t.applied == s.applied
    ensures id !in t.threads && t.versions == s.versions
  {
    hide Fs.Remove, Do, Enabled;
    var one := Goto(s, id, Cleaning(tmp, false));
    var two := Cleaned(v, one, id, Write(Upload, v.config, body), Cleaning(tmp, false), removed);
    t := Left(two, id);
    FailIs(v, s, id, Cleaning(tmp, false));
    CleanIs(v, one, id, Write(Upload, v.config, body), Cleaning(tmp, false), removed);
    LeaveIs(v, two, id);
    LeadsStep(v, two, Leave(id), [], t);
    LeadsStep(v, one, Clean(id, removed), [Leave(id)], t);
    LeadsStep(v, s, Fail(id), [Clean(id, removed)] + [Leave(id)], t);
    assert [Fail(id)] + ([Clean(id, removed)] + [Leave(id)]) == [Fail(id), Clean(id, removed), Leave(id)];
  }

  lemma RenamedIsLatest<C>(v: Service<C>, s: State<C>, id: Id, body: Bytes, tmp: nat)
    requires Inv(v, s) && id in s.threads && s.threads[id] == Thread(Write(Upload, v.config, body), Renamed(tmp))
    ensures s.versions != [] && s.versions[Last(s)] == Some(body) && s.lock == Some(id) && !s.reached
  {
    Know(v, s, id);
    hide Inv, Temps, Staging, Owns, JobAllowed;
  }

  // An upload that has been written, applied or not, is one the startup reconcile no longer
  // goes behind: it applies that config or one renamed into place later.
  lemma StartupIsNotOlder<C>(v: Service<C>, i: State<C>, before: seq<Step>, r: State<C>, id: Id, body: Bytes,
      after: seq<Step>, t: State<C>, startup: Id)
    requires Init(v, i) && Leads(v, i, before, r) && Leads(v, r, after, t)
    requires Uploading(v, r, id, body) && Kept(r.threads[id].pc)
    requires startup in t.threads && t.threads[startup].job.Startup? && t.threads[startup].pc.Holding?
    ensures r.floor < |t.versions| && t.versions[r.floor] == Some(body)
    ensures t.versions[Last(t)].Some? && v.decode(t.versions[Last(t)].value) == Some(t.threads[startup].pc.config)
    ensures Last(t) == r.floor ==> v.decode(body) == Some(t.threads[startup].pc.config)
  {
    hide Leads, Init, Inv, NoConfigRenamed, Fs.PowerLoss;
    InitInv(v, i);
    InitFit(v, i);
    RunKeeps(v, i, before, r);
    RunKeeps(v, r, after, t);
    PromiseKept(v, r, after, t);
    UploadHolds(v, r, id);
    assert t.versions[..r.floor + 1][r.floor] == r.versions[..r.floor + 1][r.floor];
    HoldingIsLatest(v, t, startup);
  }

  lemma HoldingIsLatest<C>(v: Service<C>, t: State<C>, id: Id)
    requires Inv(v, t) && id in t.threads && t.threads[id].pc.Holding?
    ensures t.versions != [] && t.versions[Last(t)].Some?
    ensures v.decode(t.versions[Last(t)].value) == Some(t.threads[id].pc.config)
  {
    Know(v, t, id);
    hide Inv, Temps, Staging, Owns, JobAllowed;
  }

  /* ---- where documents come from ---- */

  // At some step of the run nmstatectl accepted body, the whole of a synced temporary file.
  ghost predicate AcceptedIn<C>(v: Service<C>, s: State<C>, steps: seq<Step>, body: Bytes)
    decreases |steps|
  {
    && steps != [] && Enabled(v, s, steps[0])
    && (AcceptedAt(v, s, steps[0], body) || AcceptedIn(v, Do(v, s, steps[0]), steps[1..], body))
  }

  ghost predicate AcceptedAt<C>(v: Service<C>, s: State<C>, step: Step, body: Bytes)
    requires Enabled(v, s, step)
  {
    && step.Accept? && s.threads[step.id].job == Write(Network, v.network, body)
    && s.fs.Valid() && s.fs.Content(Temp(s.threads[step.id].pc.tmp)) == Some(body)
    && s.threads[step.id].pc.ino in s.fs.synced
  }

  // A request of the run uploaded body to path.
  predicate UploadedIn(steps: seq<Step>, path: string, body: Bytes) {
    exists k :: 0 <= k < |steps| && UploadedAt(steps[k], path, body)
  }

  // The run cleared body for path: a network document by being accepted, any other by being
  // uploaded.
  ghost predicate ClearedIn<C>(v: Service<C>, s: State<C>, steps: seq<Step>, path: string, body: Bytes) {
    if path == v.network then AcceptedIn(v, s, steps, body) else UploadedIn(steps, path, body)
  }

  predicate UploadedAt(step: Step, path: string, body: Bytes) {
    step.Start? && step.job.Write? && step.job.use != Network && step.job.dest == path && step.job.body == body
  }

  lemma {:induction false} ClearedInRun<C>(v: Service<C>, s: State<C>, steps: seq<Step>, t: State<C>, path: string,
      body: Bytes)
    requires Inv(v, s) && Leads(v, s, steps, t) && (path, body) in t.cleared && (path, body) !in s.cleared
    ensures ClearedIn(v, s, steps, path, body)
    decreases |steps|
  {
    hide Do, Enabled, Inv, UploadedAt;
    if steps != [] {
      var next := Do(v, s, steps[0]);
      StepKeeps(v, s, steps[0]);
      if (path, body) in next.cleared {
        ClearedNow(v, s, steps, path, body);
      } else {
        ClearedInRun(v, next, steps[1..], t, path, body);
        UploadedLater(steps, path, body);
      }
    }
  }

  lemma ClearedNow<C>(v: Service<C>, s: State<C>, steps: seq<Step>, path: string, body: Bytes)
    requires Inv(v, s) && steps != [] && Enabled(v, s, steps[0])
    requires (path, body) in Do(v, s, steps[0]).cleared && (path, body) !in s.cleared
    ensures ClearedIn(v, s, steps, path, body)
  {
    hide Do, Enabled, Inv;
    ClearedHow(v, s, steps[0], path, body);
    assert path != v.network ==> UploadedAt(steps[0], path, body);
  }

  lemma UploadedLater(steps: seq<Step>, path: string, body: Bytes)
    requires steps != []
    ensures UploadedIn(steps[1..], path, body) ==> UploadedIn(steps, path, body)
  {
    hide UploadedAt;
    if UploadedIn(steps[1..], path, body) {
      var k :| 0 <= k < |steps[1..]| && UploadedAt(steps[1..][k], path, body);
      assert steps[k + 1] == steps[1..][k];
    }
  }

  lemma {:induction false} WithdrawnInRun<C>(v: Service<C>, s: State<C>, steps: seq<Step>, t: State<C>)
    requires Leads(v, s, steps, t) && t.withdrawn && !s.withdrawn
    ensures exists k :: 0 <= k < |steps| && steps[k].Remove?
    decreases |steps|
  {
    hide Do, Enabled;
    if steps != [] {
      var next := Do(v, s, steps[0]);
      if !steps[0].Remove? {
        WithdrawnHow(v, s, steps[0]);
      }
      if next.withdrawn {
        assert steps[0].Remove?;
      } else {
        WithdrawnInRun(v, next, steps[1..], t);
        var k :| 0 <= k < |steps[1..]| && steps[1..][k].Remove?;
        assert steps[k + 1].Remove?;
      }
    }
  }

  lemma WithdrawnHow<C>(v: Service<C>, s: State<C>, step: Step)
    requires Enabled(v, s, step) && !step.Remove?
    ensures Do(v, s, step).withdrawn == s.withdrawn
  {
    hide Fs.Create, Fs.Append, Fs.SyncFile, Fs.Rename, Fs.Remove, Fs.WriteBack, Fs.PowerLoss, Loaded, AfterWrite, Last,
      Enabled;
  }

  // Whatever a path holds at any point of a run, or would after a power loss: its first
  // document; or one uploaded to it in this run, whole; or, for the network document, one
  // that nmstatectl accepted in this run, or none after a withdrawal in this run.
  lemma EveryDocumentHasAnOrigin<C>(v: Service<C>, s: State<C>, steps: seq<Step>, t: State<C>, path: string,
      garbage: map<Inode, Bytes>)
    requires Init(v, s) && Leads(v, s, steps, t)
    ensures t.fs.Valid() && t.fs.PowerLoss(garbage).Valid()
    ensures forall document | document in NowAndAfter(t.fs, garbage, path) ::
              || document == s.fs.Content(Path(path))
              || (document.Some? && ClearedIn(v, s, steps, path, document.value))
              || (document.None? && path == v.network && exists k :: 0 <= k < |steps| && steps[k].Remove?)
  {
    PathAlwaysWhole(v, s, steps, t, path, garbage);
    InitInv(v, s);
    assert s.cleared == {} && !s.withdrawn;
    hide Inv, Leads, AcceptedIn, UploadedIn, Init, Fs.PowerLoss;
    forall document | document in NowAndAfter(t.fs, garbage, path) && document != s.fs.Content(Path(path))
      && document.Some?
      ensures ClearedIn(v, s, steps, path, document.value)
    {
      ClearedInRun(v, s, steps, t, path, document.value);
    }
    if t.withdrawn {
      WithdrawnInRun(v, s, steps, t);
    }
  }
}
