/**
 * Every step of the service keeps the invariant. One call touches one thread and one thing in
 * the file system; the first lemmas say what such a change leaves alone.
 */
module ConvergenceSteps {
  import opened Wrappers
  import opened FileSystem
  import opened Convergence
  import opened ConvergenceInvariant

  // The path reads the same, now and after a power loss.
  ghost predicate PathSame(a: Fs, b: Fs, path: string) {
    var n := Path(path);
    && Entry(b.dir, n) == Entry(a.dir, n) && Entry(b.disk, n) == Entry(a.disk, n)
    && (Settled(a, a.dir, n) ==> Settled(b, b.dir, n) && Read(b, b.dir, n) == Read(a, a.dir, n))
    && (Settled(a, a.disk, n) ==> Settled(b, b.disk, n) && Read(b, b.disk, n) == Read(a, a.disk, n))
  }

  // A file being staged under this temporary name is as it was.
  ghost predicate StagedSame(a: Fs, b: Fs, tmp: nat) {
    forall ino, content | Private(a, tmp, ino, content) ::
      Private(b, tmp, ino, content) && (ino in a.synced ==> ino in b.synced)
  }

  // A call that works on one temporary file only.
  ghost predicate TouchesTemp(a: Fs, b: Fs, tmp: nat) {
    && b.Valid()
    && (forall path :: PathSame(a, b, path))
    && (forall k | k != tmp :: StagedSame(a, b, k))
    && (forall k | k != tmp :: Entry(b.dir, Temp(k)) == Entry(a.dir, Temp(k)))
    && (forall k | k != tmp :: Entry(b.disk, Temp(k)) == Entry(a.disk, Temp(k)))
  }

  lemma CreateTouches(a: Fs, tmp: nat, ino: Inode)
    requires a.Valid() && Temp(tmp) !in a.dir && Temp(tmp) !in a.disk && ino !in a.data
    ensures var b := a.Create(Temp(tmp), ino); TouchesTemp(a, b, tmp) && Private(b, tmp, ino, "")
  {
  }

  lemma AppendTouches(a: Fs, tmp: nat, ino: Inode, content: Bytes, chunk: Bytes)
    requires a.Valid() && Private(a, tmp, ino, content)
    ensures var b := a.Append(ino, chunk); TouchesTemp(a, b, tmp) && Private(b, tmp, ino, content + chunk)
  {
  }

  lemma SyncTouches(a: Fs, tmp: nat, ino: Inode, content: Bytes)
    requires a.Valid() && Private(a, tmp, ino, content)
    ensures var b := a.SyncFile(ino); TouchesTemp(a, b, tmp) && Private(b, tmp, ino, content)
  {
  }

  lemma RemoveTouches(a: Fs, tmp: nat)
    requires a.Valid()
    ensures TouchesTemp(a, a.Remove(Temp(tmp)), tmp)
    ensures Temp(tmp) !in a.Remove(Temp(tmp)).dir && a.Remove(Temp(tmp)).disk == a.disk
  {
  }

  lemma NothingTouches(a: Fs, tmp: nat)
    requires a.Valid()
    ensures TouchesTemp(a, a, tmp)
  {
  }

  // A call that changes what one path leads to.
  ghost predicate TouchesPath(a: Fs, b: Fs, dest: string) {
    && b.Valid()
    && (forall path | path != dest :: PathSame(a, b, path))
    && (forall k :: Temp(k) in b.dir ==> Temp(k) in a.dir)
    && (forall k :: Temp(k) in b.disk ==> Temp(k) in a.dir || Temp(k) in a.disk)
  }

  lemma RenameTouches(a: Fs, tmp: nat, ino: Inode, content: Bytes, dest: string)
    requires a.Valid() && Private(a, tmp, ino, content) && ino in a.synced
    ensures var b := a.Rename(Temp(tmp), Path(dest)); var n := Path(dest);
            && TouchesPath(a, b, dest) && Temp(tmp) !in b.dir && (forall k | k != tmp :: StagedSame(a, b, k))
            && Settled(b, b.dir, n) && Read(b, b.dir, n) == Some(content)
            && (Settled(a, a.disk, n) ==> Settled(b, b.disk, n) && Read(b, b.disk, n) == Read(a, a.disk, n))
  {
  }

  lemma WithdrawTouches(a: Fs, dest: string)
    requires a.Valid()
    ensures var b := a.Remove(Path(dest)); var n := Path(dest);
            && TouchesPath(a, b, dest) && (forall k :: StagedSame(a, b, k))
            && Settled(b, b.dir, n) && Read(b, b.dir, n) == None
            && (Settled(a, a.disk, n) ==> Settled(b, b.disk, n) && Read(b, b.disk, n) == Read(a, a.disk, n))
  {
  }

  lemma WriteBackTouches(a: Fs, dest: string)
    requires a.Valid()
    ensures var b := a.WriteBack(Path(dest)); var n := Path(dest);
            && TouchesPath(a, b, dest) && (forall k :: StagedSame(a, b, k))
            && (Settled(a, a.dir, n) ==>
                  && Settled(b, b.dir, n) && Read(b, b.dir, n) == Read(a, a.dir, n)
                  && Settled(b, b.disk, n) && Read(b, b.disk, n) == Read(a, a.dir, n))
  {
  }

  lemma WriteBackTempTouches(a: Fs, tmp: nat)
    requires a.Valid()
    ensures var b := a.WriteBack(Temp(tmp));
            && b.Valid() && b.dir == a.dir && (forall path :: PathSame(a, b, path)) && (forall k :: StagedSame(a, b, k))
            && (forall k :: Temp(k) in b.disk ==> Temp(k) in a.dir || Temp(k) in a.disk)
  {
  }

  lemma PowerLossSettles(a: Fs, garbage: map<Inode, Bytes>, path: string)
    requires a.Valid() && Settled(a, a.disk, Path(path))
    ensures var b := a.PowerLoss(garbage); var n := Path(path);
            && b.Valid() && b.dir == b.disk == a.disk
            && Settled(b, b.dir, n) && Read(b, b.dir, n) == Read(a, a.disk, n)
  {
  }

  // The records of what has happened only grow.
  predicate Grows<C>(s: State<C>, t: State<C>) {
    && t.first == s.first && s.cleared <= t.cleared && (s.withdrawn ==> t.withdrawn)
    && (forall k | k in s.owner :: OwnerOf(t.owner, k) == Some(s.owner[k]))
    && s.leftover <= t.leftover
  }

  // Thread id goes on to pc; all it does to temporary files is to tmp, its own.
  ghost predicate Goes<C>(v: Service<C>, s: State<C>, t: State<C>, id: Id, pc: Pc<C>, tmp: Option<nat>) {
    && id in s.threads && t.threads == s.threads[id := s.threads[id].(pc := pc)] && t.lock == s.lock
    && !s.threads[id].pc.Waiting? && !pc.Waiting? && (pc.Holding? || pc.Applying? ==> Locked(s.threads[id].job))
    && Grows(s, t)
    && (TempOf(s.threads[id].pc).Some? ==> tmp == TempOf(s.threads[id].pc))
    && (tmp.Some? && tmp.value in s.owner ==> s.owner[tmp.value] == id)
    && (forall k: nat | tmp != Some(k) :: StagedSame(s.fs, t.fs, k))
    && Staging(t, t.threads[id]) && Owns(t, id)
  }

  // The temporary files there are, apart from tmp, are those there were.
  ghost predicate TempsFrom<C>(s: State<C>, t: State<C>, tmp: Option<nat>) {
    && (forall k: nat | tmp != Some(k) && Temp(k) in t.fs.dir :: Temp(k) in s.fs.dir)
    && (forall k: nat | tmp != Some(k) && Temp(k) in t.fs.disk :: Temp(k) in s.fs.dir || Temp(k) in s.fs.disk)
    && (tmp.Some? && Temp(tmp.value) in t.fs.dir ==> Tended(t, tmp.value))
    && (tmp.Some? && (Temp(tmp.value) in t.fs.dir || Temp(tmp.value) in t.fs.disk) ==> tmp.value in t.owner)
    && (forall k | k in t.leftover :: k in t.owner)
  }

  lemma FilesFrame<C>(v: Service<C>, s: State<C>, t: State<C>)
    requires Files(v, s) && t.fs.Valid() && Grows(s, t) && forall path :: PathSame(s.fs, t.fs, path)
    ensures Files(v, t)
  {
    forall path ensures PathWhole(v, t, path) {
      assert PathWhole(v, s, path) && PathSame(s.fs, t.fs, path);
    }
  }

  lemma FilesBut<C>(v: Service<C>, s: State<C>, t: State<C>, dest: string)
    requires Files(v, s) && Grows(s, t) && TouchesPath(s.fs, t.fs, dest) && PathWhole(v, t, dest)
    ensures Files(v, t)
  {
    forall path ensures PathWhole(v, t, path) {
      assert PathWhole(v, s, path);
      assert path != dest ==> PathSame(s.fs, t.fs, path);
    }
  }

  lemma ThreadsGo<C>(v: Service<C>, s: State<C>, t: State<C>, id: Id, pc: Pc<C>, tmp: Option<nat>)
    requires Threads(v, s) && Goes(v, s, t, id, pc, tmp)
    ensures Threads(v, t)
  {
    hide JobAllowed, Private, StagedSame;
    forall other | other in t.threads && other != id
      ensures JobAllowed(v, t.threads[other].job) && Staging(t, t.threads[other]) && Owns(t, other)
    {
      assert Owns(s, other) && Staging(s, s.threads[other]);
      var own := TempOf(s.threads[other].pc);
      if own.Some? {
        assert StagedSame(s.fs, t.fs, own.value);
        StagedStays(s.fs, t.fs, s.threads[other].pc);
      }
    }
  }

  lemma StagedStays<C>(a: Fs, b: Fs, pc: Pc<C>)
    requires TempOf(pc).Some? && StagedSame(a, b, TempOf(pc).value)
    ensures pc.Writing? && Private(a, pc.tmp, pc.ino, pc.sofar) ==> Private(b, pc.tmp, pc.ino, pc.sofar)
    ensures forall content | (pc.Complete? || pc.Cleared?) && Private(a, pc.tmp, pc.ino, content) ::
              Private(b, pc.tmp, pc.ino, content) && (pc.ino in a.synced ==> pc.ino in b.synced)
  {
    hide Private;
  }

  lemma TempsGo<C>(v: Service<C>, s: State<C>, t: State<C>, id: Id, pc: Pc<C>, tmp: Option<nat>)
    requires Temps(s) && Goes(v, s, t, id, pc, tmp) && TempsFrom(s, t, tmp)
    ensures Temps(t)
  {
    hide Staging, StagedSame, Private;
    forall k: nat | Temp(k) in t.fs.dir ensures Tended(t, k) {
      if tmp != Some(k) {
        assert Tended(s, k);
      }
    }
    forall k: nat | Temp(k) in t.fs.dir || Temp(k) in t.fs.disk ensures k in t.owner {
      if tmp != Some(k) {
        assert OwnerOf(t.owner, k) == Some(s.owner[k]);
      }
    }
  }

  lemma ExclusiveGo<C>(v: Service<C>, s: State<C>, t: State<C>, id: Id, pc: Pc<C>, tmp: Option<nat>)
    requires Exclusive(s) && Goes(v, s, t, id, pc, tmp)
    ensures Exclusive(t)
  {
    hide Staging, StagedSame, Private, Owns;
  }

  lemma VersionsFrame<C>(v: Service<C>, s: State<C>, t: State<C>)
    requires Versions(v, s) && PathSame(s.fs, t.fs, v.config)
    requires t.versions == s.versions && t.onDisk == s.onDisk && t.floor == s.floor
    ensures Versions(v, t)
  {
  }

  lemma HoldersGo<C>(v: Service<C>, s: State<C>, t: State<C>, id: Id, pc: Pc<C>, tmp: Option<nat>)
    requires Exclusive(s) && Holders(v, s) && Goes(v, s, t, id, pc, tmp)
    requires if Critical(s.threads[id]) then Holder(v, t, t.threads[id])
             else t.versions == s.versions && t.floor == s.floor && t.reached == s.reached
    ensures Holders(v, t)
  {
    hide Staging, StagedSame, Private, Owns;
    forall other | other in t.threads && Critical(t.threads[other]) ensures Holder(v, t, t.threads[other]) {
      if other != id {
        assert s.lock == Some(other) && Holder(v, s, s.threads[other]);
      }
    }
  }

  lemma HistoryFrame<C>(v: Service<C>, s: State<C>, t: State<C>)
    requires History(v, s) && t.versions == s.versions && t.applied == s.applied && t.reached == s.reached
    ensures History(v, t)
  {
  }

  // A call that leaves the paths, and so the versions of the config, alone.
  ghost predicate Quiet<C>(v: Service<C>, s: State<C>, t: State<C>, id: Id, pc: Pc<C>, tmp: Option<nat>) {
    && Goes(v, s, t, id, pc, tmp) && TempsFrom(s, t, tmp)
    && t.fs.Valid() && (forall path :: PathSame(s.fs, t.fs, path))
    && t.versions == s.versions && t.onDisk == s.onDisk && t.floor == s.floor
    && t.applied == s.applied && t.reached == s.reached
    && (Critical(s.threads[id]) ==> Holder(v, t, t.threads[id]))
  }

  lemma QuietKeeps<C>(v: Service<C>, s: State<C>, t: State<C>, id: Id, pc: Pc<C>, tmp: Option<nat>)
    requires Inv(v, s) && Quiet(v, s, t, id, pc, tmp)
    ensures Inv(v, t)
  {
    FilesFrame(v, s, t);
    ThreadsGo(v, s, t, id, pc, tmp);
    TempsGo(v, s, t, id, pc, tmp);
    ExclusiveGo(v, s, t, id, pc, tmp);
    VersionsFrame(v, s, t);
    HoldersGo(v, s, t, id, pc, tmp);
    assert History(v, t) by { hide *; HistoryFrame(v, s, t); }
    hide *;
  }

  // What the invariant says about one thread.
  ghost predicate Known<C>(v: Service<C>, s: State<C>, id: Id) {
    && id in s.threads && v.config != v.network && s.fs.Valid()
    && JobAllowed(v, s.threads[id].job) && Staging(s, s.threads[id]) && Owns(s, id)
    && (Critical(s.threads[id]) ==> s.lock == Some(id) && Holder(v, s, s.threads[id]))
    && (OnlyLocked(s.threads[id].pc) ==> Locked(s.threads[id].job))
    && Temps(s) && s.versions != [] && Settled(s.fs, s.fs.dir, Path(v.config))
    && Read(s.fs, s.fs.dir, Path(v.config)) == s.versions[Last(s)]
  }

  lemma Know<C>(v: Service<C>, s: State<C>, id: Id)
    requires Inv(v, s) && id in s.threads
    ensures Known(v, s, id)
  {
    hide JobAllowed, Staging, Holder, PathWhole, History, Temps;
  }

  lemma LoadQuiet<C>(v: Service<C>, s: State<C>, id: Id)
    requires Known(v, s, id) && s.threads[id].pc.Ready? && s.threads[id].job.Startup?
    ensures var pc := Loaded(v, s.fs.Content(Path(v.config))); Quiet(v, s, Goto(s, id, pc), id, pc, None)
  {
    hide Private, PathSame;
    NothingTouches(s.fs, 0);
  }

  lemma CreateQuiet<C>(v: Service<C>, s: State<C>, id: Id, tmp: nat, ino: Inode)
    requires Known(v, s, id) && s.threads[id].pc.Ready?
    requires s.threads[id].job.Write? && tmp !in s.owner && ino !in s.fs.data
    ensures Quiet(v, s, Created(s, id, tmp, ino), id, Writing(tmp, ino, ""), Some(tmp))
  {
    hide Fs.Create, Private, PathSame, StagedSame, Fs.Valid, JobAllowed, Read, Settled;
    CreateTouches(s.fs, tmp, ino);
  }

  lemma AppendQuiet<C>(v: Service<C>, s: State<C>, id: Id, pc: Pc<C>, chunk: Bytes)
    requires Known(v, s, id) && s.threads[id].pc == pc && pc.Writing? && pc.ino in s.fs.data
    ensures Quiet(v, s, Appended(s, id, pc, chunk), id, pc.(sofar := pc.sofar + chunk), Some(pc.tmp))
  {
    hide Fs.Append, Private, PathSame, StagedSame, Fs.Valid, JobAllowed, Read, Settled;
    AppendTouches(s.fs, pc.tmp, pc.ino, pc.sofar, chunk);
  }

  lemma SyncQuiet<C>(v: Service<C>, s: State<C>, id: Id, job: Job, pc: Pc<C>)
    requires Known(v, s, id) && s.threads[id] == Thread(job, pc) && pc.Writing? && job.Write? && pc.sofar == job.body
    ensures Quiet(v, s, Synced(s, id, job.use, pc), id, AfterSync(job.use, pc), Some(pc.tmp))
  {
    hide Private, PathSame, StagedSame, Fs.Valid, JobAllowed, Read, Settled;
    SyncTouches(s.fs, pc.tmp, pc.ino, pc.sofar);
  }

  lemma AcceptQuiet<C>(v: Service<C>, s: State<C>, id: Id, job: Job, pc: Pc<C>)
    requires Known(v, s, id) && s.threads[id] == Thread(job, pc) && pc.Complete? && job.Write?
    ensures Quiet(v, s, Approved(s, id, job, pc), id, Cleared(pc.tmp, pc.ino), Some(pc.tmp))
  {
    hide Private, PathSame, StagedSame, Fs.Valid, JobAllowed, Read, Settled;
    NothingTouches(s.fs, pc.tmp);
  }

  lemma FailQuiet<C>(v: Service<C>, s: State<C>, id: Id, pc: Pc<C>)
    requires Known(v, s, id) && Fails(s.threads[id].pc) == Some(pc)
    ensures Quiet(v, s, Goto(s, id, pc), id, pc, TempOf(pc))
  {
    hide Private, PathSame, Fs.Valid, JobAllowed, Read, Settled;
    NothingTouches(s.fs, 0);
  }

  lemma RemoveQuiet<C>(v: Service<C>, s: State<C>, id: Id, job: Job, pc: Pc<C>)
    requires Known(v, s, id) && s.threads[id] == Thread(job, pc) && pc.Cleaning?
    ensures Quiet(v, s, Cleaned(v, s, id, job, pc, true), id, AfterWrite(v, job, pc.ok), Some(pc.tmp))
  {
    hide Fs.Remove, Private, PathSame, StagedSame, Fs.Valid, JobAllowed, Read, Settled;
    RemoveTouches(s.fs, pc.tmp);
  }

  lemma KeepQuiet<C>(v: Service<C>, s: State<C>, id: Id, job: Job, pc: Pc<C>)
    requires Known(v, s, id) && s.threads[id] == Thread(job, pc) && pc.Cleaning?
    ensures Quiet(v, s, Cleaned(v, s, id, job, pc, false), id, AfterWrite(v, job, pc.ok), Some(pc.tmp))
  {
    hide Private, PathSame, StagedSame, Fs.Valid, JobAllowed, Read, Settled;
    NothingTouches(s.fs, pc.tmp);
  }

  // A rename onto a path, the one step by which a document gets there.
  lemma RenameGoes<C>(v: Service<C>, s: State<C>, id: Id, job: Job, pc: Pc<C>)
    requires Known(v, s, id) && s.threads[id] == Thread(job, pc) && pc.Cleared? && job.Write?
    ensures Temp(pc.tmp) in s.fs.dir
    ensures var t := InPlace(v, s, id, job, pc.tmp);
            Goes(v, s, t, id, Renamed(pc.tmp), Some(pc.tmp)) && TempsFrom(s, t, Some(pc.tmp))
  {
    hide Fs.Rename, PathSame, StagedSame, Fs.Valid, Read, Settled;
    RenameTouches(s.fs, pc.tmp, pc.ino, job.body, job.dest);
  }

  lemma RenameFiles<C>(v: Service<C>, s: State<C>, id: Id, job: Job, pc: Pc<C>)
    requires Known(v, s, id) && Files(v, s) && s.threads[id] == Thread(job, pc)
    requires pc.Cleared? && job.Write? && Temp(pc.tmp) in s.fs.dir
    ensures Files(v, InPlace(v, s, id, job, pc.tmp))
  {
    hide Fs.Rename, PathSame, StagedSame, Fs.Valid, Read, Settled, Private;
    RenameTouches(s.fs, pc.tmp, pc.ino, job.body, job.dest);
    var t := InPlace(v, s, id, job, pc.tmp);
    assert PathWhole(v, s, job.dest);
    FilesBut(v, s, t, job.dest);
  }

  lemma RenameVersions<C>(v: Service<C>, s: State<C>, id: Id, job: Job, pc: Pc<C>)
    requires Known(v, s, id) && Versions(v, s) && s.threads[id] == Thread(job, pc)
    requires pc.Cleared? && job.Write? && Temp(pc.tmp) in s.fs.dir
    ensures Versions(v, InPlace(v, s, id, job, pc.tmp))
  {
    hide Fs.Rename, StagedSame, Fs.Valid, Read, Settled, Private, JobAllowed, Temps;
    RenameTouches(s.fs, pc.tmp, pc.ino, job.body, job.dest);
    assert job.dest != v.config ==> PathSame(s.fs, s.fs.Rename(Temp(pc.tmp), Path(job.dest)), v.config);
  }

  lemma RenameHistory<C>(v: Service<C>, s: State<C>, id: Id, job: Job, pc: Pc<C>)
    requires Known(v, s, id) && History(v, s) && s.threads[id] == Thread(job, pc)
    requires pc.Cleared? && job.Write? && Temp(pc.tmp) in s.fs.dir
    ensures History(v, InPlace(v, s, id, job, pc.tmp))
    ensures var t := InPlace(v, s, id, job, pc.tmp);
            if Critical(s.threads[id]) then Holder(v, t, t.threads[id])
            else t.versions == s.versions && t.floor == s.floor && t.reached == s.reached
  {
    hide Fs.Rename, StagedSame, Fs.Valid, Read, Settled, Private, Temps, Staging;
  }

  lemma RenameKeeps<C>(v: Service<C>, s: State<C>, id: Id, job: Job, pc: Pc<C>)
    requires Inv(v, s) && id in s.threads && s.threads[id] == Thread(job, pc)
    requires pc.Cleared? && job.Write? && Temp(pc.tmp) in s.fs.dir
    ensures Inv(v, InPlace(v, s, id, job, pc.tmp))
  {
    hide InPlace, Files, Threads, Temps, Exclusive, Versions, Holders, History, Goes, Known;
    var t := InPlace(v, s, id, job, pc.tmp);
    Know(v, s, id);
    RenameGoes(v, s, id, job, pc);
    RenameFiles(v, s, id, job, pc);
    RenameVersions(v, s, id, job, pc);
    RenameHistory(v, s, id, job, pc);
    ThreadsGo(v, s, t, id, Renamed(pc.tmp), Some(pc.tmp));
    TempsGo(v, s, t, id, Renamed(pc.tmp), Some(pc.tmp));
    ExclusiveGo(v, s, t, id, Renamed(pc.tmp), Some(pc.tmp));
    HoldersGo(v, s, t, id, Renamed(pc.tmp), Some(pc.tmp));
  }

  // Entries reaching the disk.
  lemma WriteBackFiles<C>(v: Service<C>, s: State<C>, name: Name)
    requires Files(v, s)
    ensures Files(v, WrittenBack(v, s, name))
  {
    var t := WrittenBack(v, s, name);
    match name
    case Temp(k) =>
      WriteBackTempTouches(s.fs, k);
      hide Fs.WriteBack, PathWhole, PathSame, StagedSame;
      FilesFrame(v, s, t);
    case Path(dest) =>
      WriteBackTouches(s.fs, dest);
      assert PathWhole(v, s, dest);
      hide Fs.WriteBack, PathSame, StagedSame, Read, Settled;
      FilesBut(v, s, t, dest);
  }

  lemma WriteBackVersions<C>(v: Service<C>, s: State<C>, name: Name)
    requires s.fs.Valid() && Versions(v, s)
    ensures Versions(v, WrittenBack(v, s, name))
  {
    var t := WrittenBack(v, s, name);
    match name
    case Temp(k) =>
      WriteBackTempTouches(s.fs, k);
      assert PathSame(s.fs, t.fs, v.config);
      hide Fs.WriteBack, StagedSame, Read, Settled;
    case Path(dest) =>
      WriteBackTouches(s.fs, dest);
      assert dest != v.config ==> PathSame(s.fs, t.fs, v.config);
      hide Fs.WriteBack, StagedSame, Read, Settled;
  }

  // What a written-back entry changes for threads: nothing.
  lemma WriteBackStays(fs: Fs, name: Name)
    requires fs.Valid()
    ensures var b := fs.WriteBack(name);
            && b.dir == fs.dir && b.Valid() && (forall k :: StagedSame(fs, b, k))
            && (forall k :: Temp(k) in b.disk ==> Temp(k) in fs.dir || Temp(k) in fs.disk)
  {
    match name
    case Temp(k) => WriteBackTempTouches(fs, k);
    case Path(dest) => WriteBackTouches(fs, dest);
  }

  lemma SyncDirGoes<C>(v: Service<C>, s: State<C>, id: Id, job: Job, tmp: nat)
    requires Known(v, s, id) && s.threads[id] == Thread(job, Renamed(tmp)) && job.Write?
    ensures var t := Persisted(v, s, id, job.dest, tmp);
            Goes(v, s, t, id, Cleaning(tmp, true), Some(tmp)) && TempsFrom(s, t, Some(tmp))
  {
    hide Fs.WriteBack, PathSame, StagedSame, Private, Fs.Valid, Read, Settled;
    WriteBackStays(s.fs, Path(job.dest));
  }

  lemma SyncDirHolder<C>(v: Service<C>, s: State<C>, id: Id, job: Job, tmp: nat)
    requires Known(v, s, id) && s.threads[id] == Thread(job, Renamed(tmp)) && job.Write?
    ensures var t := Persisted(v, s, id, job.dest, tmp);
            if Critical(s.threads[id]) then Holder(v, t, t.threads[id])
            else t.versions == s.versions && t.floor == s.floor && t.reached == s.reached
  {
    hide Fs.WriteBack, Temps, Staging, Owns, Fs.Valid, Read, Settled;
  }

  lemma SyncDirVersions<C>(v: Service<C>, s: State<C>, id: Id, job: Job, tmp: nat)
    requires Known(v, s, id) && Versions(v, s) && s.threads[id] == Thread(job, Renamed(tmp)) && job.Write?
    ensures Versions(v, Persisted(v, s, id, job.dest, tmp))
  {
    hide Fs.WriteBack, Temps, Staging, Owns, Fs.Valid, Read, Settled, Holder;
    WriteBackVersions(v, s, Path(job.dest));
  }

  lemma SyncDirKeeps<C>(v: Service<C>, s: State<C>, id: Id, job: Job, tmp: nat)
    requires Inv(v, s) && id in s.threads && s.threads[id] == Thread(job, Renamed(tmp)) && job.Write?
    ensures Inv(v, Persisted(v, s, id, job.dest, tmp))
  {
    var t := Persisted(v, s, id, job.dest, tmp);
    Know(v, s, id);
    SyncDirGoes(v, s, id, job, tmp);
    WriteBackFiles(v, s, Path(job.dest));
    SyncDirVersions(v, s, id, job, tmp);
    SyncDirHolder(v, s, id, job, tmp);
    ThreadsGo(v, s, t, id, Cleaning(tmp, true), Some(tmp));
    TempsGo(v, s, t, id, Cleaning(tmp, true), Some(tmp));
    ExclusiveGo(v, s, t, id, Cleaning(tmp, true), Some(tmp));
    HoldersGo(v, s, t, id, Cleaning(tmp, true), Some(tmp));
    SyncDirRest(v, s, id, job, tmp);
    hide Persisted, Files, Threads, Temps, Exclusive, Versions, Holders, History, Goes, Known;
  }

  lemma SyncDirRest<C>(v: Service<C>, s: State<C>, id: Id, job: Job, tmp: nat)
    requires id in s.threads && job.Write? && History(v, s) && Files(v, WrittenBack(v, s, Path(job.dest)))
    ensures var t := Persisted(v, s, id, job.dest, tmp); History(v, t) && Files(v, t)
  {
    var t := Persisted(v, s, id, job.dest, tmp);
    HistoryFrame(v, s, t);
    var u := WrittenBack(v, s, Path(job.dest));
    assert t.fs == u.fs && t.cleared == u.cleared && t.first == u.first && t.withdrawn == u.withdrawn;
    forall path ensures PathWhole(v, t, path) {
      assert PathWhole(v, u, path);
    }
  }

  lemma WithdrawGoes<C>(v: Service<C>, s: State<C>, id: Id)
    requires Known(v, s, id) && s.threads[id].pc.Ready? && s.threads[id].job.Withdraw?
    ensures var t := Withdrawn(v, s, id); Goes(v, s, t, id, Returning, None) && TempsFrom(s, t, None)
  {
    hide Fs.Remove, PathSame, StagedSame, Private, Fs.Valid, Read, Settled;
    WithdrawTouches(s.fs, v.network);
  }

  lemma WithdrawFiles<C>(v: Service<C>, s: State<C>, id: Id)
    requires Known(v, s, id) && Files(v, s)
    ensures Files(v, Withdrawn(v, s, id))
  {
    hide Fs.Remove, PathSame, StagedSame, Private, Fs.Valid, Read, Settled;
    WithdrawTouches(s.fs, v.network);
    assert PathWhole(v, s, v.network);
    FilesBut(v, s, Withdrawn(v, s, id), v.network);
  }

  lemma WithdrawRest<C>(v: Service<C>, s: State<C>, id: Id)
    requires Known(v, s, id) && Versions(v, s) && History(v, s)
    requires s.threads[id].pc.Ready? && s.threads[id].job.Withdraw?
    ensures var t := Withdrawn(v, s, id);
            && Versions(v, t) && History(v, t) && !Critical(s.threads[id])
            && t.versions == s.versions && t.floor == s.floor && t.reached == s.reached
  {
    WithdrawTouches(s.fs, v.network);
    var t := Withdrawn(v, s, id);
    assert PathSame(s.fs, t.fs, v.config);
    hide Fs.Remove, StagedSame, Private, Fs.Valid, Read, Settled;
    HistoryFrame(v, s, t);
  }

  lemma WithdrawKeeps<C>(v: Service<C>, s: State<C>, id: Id)
    requires Inv(v, s) && id in s.threads && s.threads[id].pc.Ready? && s.threads[id].job.Withdraw?
    ensures Inv(v, Withdrawn(v, s, id))
  {
    var t := Withdrawn(v, s, id);
    Know(v, s, id);
    WithdrawGoes(v, s, id);
    WithdrawFiles(v, s, id);
    WithdrawRest(v, s, id);
    ThreadsGo(v, s, t, id, Returning, None);
    TempsGo(v, s, t, id, Returning, None);
    ExclusiveGo(v, s, t, id, Returning, None);
    HoldersGo(v, s, t, id, Returning, None);
    hide Withdrawn, Files, Threads, Temps, Exclusive, Versions, Holders, History, Goes, Known;
  }

  lemma ConvergeRest<C>(v: Service<C>, s: State<C>, id: Id, config: C)
    requires Known(v, s, id) && s.threads[id].pc == Holding(config) && Versions(v, s) && History(v, s)
    ensures var t := Converged(s, id, config);
            Versions(v, t) && History(v, t) && Critical(s.threads[id]) && Holder(v, t, t.threads[id])
  {
    hide Staging, Owns, Temps, JobAllowed, Settled, Read;
  }

  lemma ConvergeGoes<C>(v: Service<C>, s: State<C>, id: Id, config: C)
    requires Known(v, s, id) && s.threads[id].pc == Holding(config)
    ensures var t := Converged(s, id, config); Goes(v, s, t, id, Applying(config), None) && TempsFrom(s, t, None)
  {
    hide Private, Fs.Valid, Settled, Read, PathSame, Holder;
    NothingTouches(s.fs, 0);
  }

  lemma ConvergeKeeps<C>(v: Service<C>, s: State<C>, id: Id, config: C)
    requires Inv(v, s) && id in s.threads && s.threads[id].pc == Holding(config)
    ensures Inv(v, Converged(s, id, config))
  {
    var t := Converged(s, id, config);
    Know(v, s, id);
    ConvergeGoes(v, s, id, config);
    ConvergeRest(v, s, id, config);
    NothingTouches(s.fs, 0);
    FilesFrame(v, s, t);
    ThreadsGo(v, s, t, id, Applying(config), None);
    TempsGo(v, s, t, id, Applying(config), None);
    ExclusiveGo(v, s, t, id, Applying(config), None);
    HoldersGo(v, s, t, id, Applying(config), None);
    hide *;
  }

  // Steps that change no thread but those named, none of which has a temporary file.
  ghost predicate Others<C>(s: State<C>, t: State<C>, who: set<Id>) {
    && Grows(s, t) && t.owner == s.owner && t.leftover == s.leftover
    && (forall o | o !in who ::
      (o in t.threads <==> o in s.threads) && (o in s.threads ==> t.threads[o] == s.threads[o]))
    && (forall o | o in who && o in s.threads :: TempOf(s.threads[o].pc) == None)
    && (forall o | o in who && o in t.threads :: TempOf(t.threads[o].pc) == None)
    && (forall k :: StagedSame(s.fs, t.fs, k))
    && t.fs.dir == s.fs.dir && (forall k :: Temp(k) in t.fs.disk ==> Temp(k) in s.fs.dir || Temp(k) in s.fs.disk)
  }

  lemma ThreadsOthers<C>(v: Service<C>, s: State<C>, t: State<C>, who: set<Id>)
    requires Threads(v, s) && Others(s, t, who)
    requires forall o | o in who && o in t.threads :: JobAllowed(v, t.threads[o].job) && Staging(t, t.threads[o])
    ensures Threads(v, t)
  {
    hide JobAllowed, Private, StagedSame;
    forall o | o in t.threads && o !in who
      ensures JobAllowed(v, t.threads[o].job) && Staging(t, t.threads[o]) && Owns(t, o)
    {
      assert Owns(s, o) && Staging(s, s.threads[o]);
      var own := TempOf(s.threads[o].pc);
      if own.Some? {
        assert StagedSame(s.fs, t.fs, own.value);
        StagedStays(s.fs, t.fs, s.threads[o].pc);
      }
    }
  }

  lemma TempsOthers<C>(v: Service<C>, s: State<C>, t: State<C>, who: set<Id>)
    requires Temps(s) && Others(s, t, who)
    ensures Temps(t)
  {
    hide StagedSame;
    forall k: nat | Temp(k) in t.fs.dir ensures Tended(t, k) {
      assert Tended(s, k);
    }
  }

  lemma WriteBackOthers<C>(v: Service<C>, s: State<C>, name: Name)
    requires s.fs.Valid()
    ensures Others(s, WrittenBack(v, s, name), {})
  {
    WriteBackStays(s.fs, name);
    hide Fs.WriteBack, Fs.Valid, StagedSame;
  }

  lemma WriteBackKeeps<C>(v: Service<C>, s: State<C>, name: Name)
    requires Inv(v, s)
    ensures Inv(v, WrittenBack(v, s, name))
  {
    var t := WrittenBack(v, s, name);
    WriteBackOthers(v, s, name);
    WriteBackFiles(v, s, name);
    WriteBackVersions(v, s, name);
    hide Fs.WriteBack, Files, Threads, Temps, Versions, StagedSame, Others;
    ThreadsOthers(v, s, t, {});
    TempsOthers(v, s, t, {});
    HistoryFrame(v, s, t);
  }

  // A thread coming, taking the lock or going. The file system is left alone.
  lemma SameFiles<C>(v: Service<C>, s: State<C>, t: State<C>, who: set<Id>)
    requires Files(v, s) && Threads(v, s) && Temps(s) && Versions(v, s) && t.fs == s.fs && Others(s, t, who)
    requires forall o | o in who && o in t.threads :: JobAllowed(v, t.threads[o].job) && Staging(t, t.threads[o])
    requires t.versions == s.versions && t.onDisk == s.onDisk && t.floor == s.floor
    ensures Files(v, t) && Threads(v, t) && Temps(t) && Versions(v, t)
  {
    NothingTouches(s.fs, 0);
    FilesFrame(v, s, t);
    ThreadsOthers(v, s, t, who);
    TempsOthers(v, s, t, who);
    VersionsFrame(v, s, t);
    hide *;
  }

  lemma StartFiles<C>(v: Service<C>, s: State<C>, id: Id, job: Job)
    requires Files(v, s) && Threads(v, s) && Temps(s) && Versions(v, s) && id !in s.threads && JobAllowed(v, job)
    ensures var t := Begun(s, id, job); Files(v, t) && Threads(v, t) && Temps(t) && Versions(v, t)
  {
    hide Files, Threads, Temps, Versions, JobAllowed;
    SameFiles(v, s, Begun(s, id, job), {id});
  }

  lemma StartLock<C>(v: Service<C>, s: State<C>, id: Id, job: Job)
    requires Exclusive(s) && Holders(v, s) && History(v, s) && id !in s.threads
    ensures var t := Begun(s, id, job); Exclusive(t) && Holders(v, t) && History(v, t)
  {
    var t := Begun(s, id, job);
    assert History(v, t) by { hide Exclusive, Holders; HistoryFrame(v, s, t); }
    hide History;
    forall o | o in t.threads && Critical(t.threads[o]) ensures Holder(v, t, t.threads[o]) {
      assert Holder(v, s, s.threads[o]);
    }
  }

  lemma StartKeeps<C>(v: Service<C>, s: State<C>, id: Id, job: Job)
    requires Inv(v, s) && id !in s.threads && JobAllowed(v, job)
    ensures Inv(v, Begun(s, id, job))
  {
    StartFiles(v, s, id, job);
    StartLock(v, s, id, job);
    hide Begun, Files, Threads, Temps, Versions, JobAllowed, Exclusive, Holders, History;
  }

  lemma AcquireFiles<C>(v: Service<C>, s: State<C>, id: Id)
    requires Known(v, s, id) && s.threads[id].pc.Waiting?
    requires Files(v, s) && Threads(v, s) && Temps(s) && Versions(v, s)
    ensures var t := Acquired(s, id); Files(v, t) && Threads(v, t) && Temps(t) && Versions(v, t)
  {
    hide Files, Threads, Temps, Versions, JobAllowed, Holder;
    SameFiles(v, s, Acquired(s, id), {id});
  }

  lemma AcquireLock<C>(v: Service<C>, s: State<C>, id: Id)
    requires Exclusive(s) && Holders(v, s) && History(v, s)
    requires id in s.threads && s.threads[id].pc.Waiting? && s.lock.None?
    ensures var t := Acquired(s, id); Exclusive(t) && Holders(v, t) && History(v, t)
  {
  }

  lemma AcquireKeeps<C>(v: Service<C>, s: State<C>, id: Id)
    requires Inv(v, s) && id in s.threads && s.threads[id].pc.Waiting? && s.lock.None?
    ensures Inv(v, Acquired(s, id))
  {
    Know(v, s, id);
    AcquireFiles(v, s, id);
    AcquireLock(v, s, id);
    hide Acquired, Known, Files, Threads, Temps, Versions, Exclusive, Holders, History;
  }

  lemma LeaveFiles<C>(v: Service<C>, s: State<C>, id: Id)
    requires id in s.threads && TempOf(s.threads[id].pc) == None
    requires Files(v, s) && Threads(v, s) && Temps(s) && Versions(v, s)
    ensures var t := Left(s, id); Files(v, t) && Threads(v, t) && Temps(t) && Versions(v, t)
  {
    hide Files, Threads, Temps, Versions, JobAllowed, Holder;
    SameFiles(v, s, Left(s, id), {id});
  }

  lemma LeaveLock<C>(v: Service<C>, s: State<C>, id: Id)
    requires Exclusive(s) && Holders(v, s) && History(v, s)
    ensures var t := Left(s, id); Exclusive(t) && Holders(v, t) && History(v, t)
  {
    var t := Left(s, id);
    assert History(v, t) by { hide Exclusive, Holders; HistoryFrame(v, s, t); }
    hide History;
    forall o | o in t.threads && Critical(t.threads[o]) ensures Holder(v, t, t.threads[o]) {
      assert Holder(v, s, s.threads[o]);
    }
  }

  lemma LeaveKeeps<C>(v: Service<C>, s: State<C>, id: Id)
    requires Inv(v, s) && id in s.threads && (s.threads[id].pc.Applying? || s.threads[id].pc.Returning?)
    ensures Inv(v, Left(s, id))
  {
    LeaveFiles(v, s, id);
    LeaveLock(v, s, id);
    hide Left, Files, Threads, Temps, Versions, Exclusive, Holders, History;
  }

  lemma RestartKeeps<C>(v: Service<C>, s: State<C>)
    requires Inv(v, s)
    ensures Inv(v, Restarted(s))
  {
    var t := Restarted(s);
    NothingTouches(s.fs, 0);
    assert Temps(t) by { hide Files, Threads, Versions, Holders, Exclusive, History; }
    assert Files(v, t) by {
      hide Threads, Versions, Holders, Exclusive, History;
      forall path ensures PathWhole(v, t, path) {
        assert PathWhole(v, s, path);
      }
    }
    VersionsFrame(v, s, t);
    hide Files, Temps;
  }

  lemma PowerLossKeeps<C>(v: Service<C>, s: State<C>, garbage: map<Inode, Bytes>)
    requires Inv(v, s)
    ensures Inv(v, Rebooted(s, garbage))
  {
    var t := Rebooted(s, garbage);
    PowerLossSettles(s.fs, garbage, v.config);
    assert Temps(t) by { hide Files, Threads, Versions, Holders, Exclusive, History; }
    assert Files(v, t) by {
      hide Threads, Versions, Holders, Exclusive, History, Fs.PowerLoss;
      forall path ensures PathWhole(v, t, path) {
        assert PathWhole(v, s, path);
        PowerLossSettles(s.fs, garbage, path);
      }
    }
    hide Files, Temps, Fs.PowerLoss;
  }

  // The calls that leave the paths alone.
  lemma QuietStepKeeps<C>(v: Service<C>, s: State<C>, step: Step)
    requires Inv(v, s) && Enabled(v, s, step)
    requires step.Load? || step.Create? || step.Append? || step.Sync? || step.Accept? || step.Fail? || step.Clean?
    ensures Inv(v, Do(v, s, step))
  {
    hide Inv, Known, Quiet, Loaded, Created, Appended, Synced, Approved, Cleaned;
    var id, t := step.id, Do(v, s, step);
    var Thread(job, pc) := s.threads[id];
    Know(v, s, id);
    match step
    case Load(_) =>
      LoadQuiet(v, s, id);
      QuietKeeps(v, s, t, id, Loaded(v, s.fs.Content(Path(v.config))), None);
    case Create(_, tmp, ino) =>
      CreateQuiet(v, s, id, tmp, ino);
      QuietKeeps(v, s, t, id, Writing(tmp, ino, ""), Some(tmp));
    case Append(_, chunk) =>
      AppendQuiet(v, s, id, pc, chunk);
      QuietKeeps(v, s, t, id, pc.(sofar := pc.sofar + chunk), Some(pc.tmp));
    case Sync(_) =>
      SyncQuiet(v, s, id, job, pc);
      QuietKeeps(v, s, t, id, AfterSync(job.use, pc), Some(pc.tmp));
    case Accept(_) =>
      AcceptQuiet(v, s, id, job, pc);
      QuietKeeps(v, s, t, id, Cleared(pc.tmp, pc.ino), Some(pc.tmp));
    case Fail(_) =>
      var next := Fails(pc).value;
      FailQuiet(v, s, id, next);
      QuietKeeps(v, s, t, id, next, TempOf(next));
    case Clean(_, removed) =>
      if removed { RemoveQuiet(v, s, id, job, pc); } else { KeepQuiet(v, s, id, job, pc); }
      QuietKeeps(v, s, t, id, AfterWrite(v, job, pc.ok), Some(pc.tmp));
  }

  // Every step keeps the invariant.
  lemma StepKeeps<C>(v: Service<C>, s: State<C>, step: Step)
    requires Inv(v, s) && Enabled(v, s, step)
    ensures Inv(v, Do(v, s, step))
  {
    match step
    case Start(id, job) => StartKeeps(v, s, id, job);
    case Acquire(id) => AcquireKeeps(v, s, id);
    case Rename(id) => Know(v, s, id); RenameKeeps(v, s, id, s.threads[id].job, s.threads[id].pc);
    case SyncDir(id) => SyncDirKeeps(v, s, id, s.threads[id].job, s.threads[id].pc.tmp);
    case Converge(id) => ConvergeKeeps(v, s, id, s.threads[id].pc.config);
    case Leave(id) => LeaveKeeps(v, s, id);
    case Remove(id) => WithdrawKeeps(v, s, id);
    case WriteBack(name) => WriteBackKeeps(v, s, name);
    case Restart => RestartKeeps(v, s);
    case PowerLoss(garbage) => PowerLossKeeps(v, s, garbage);
    case _ => QuietStepKeeps(v, s, step);
  }
}
