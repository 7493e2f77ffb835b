/**
 * What every step of the service keeps.
 */
module ConvergenceInvariant {
  import opened Wrappers
  import opened FileSystem
  import opened Convergence

  // A temporary file that nothing but its own name leads to.
  ghost predicate Private(fs: Fs, tmp: nat, ino: Inode, content: Bytes) {
    && Entry(fs.dir, Temp(tmp)) == Some(ino) && ino in fs.data && fs.data[ino] == content
    && (forall n | n in fs.dir && fs.dir[n] == ino :: n == Temp(tmp))
    && (forall n | n in fs.disk && fs.disk[n] == ino :: n == Temp(tmp))
  }

  // The file as read through these entries is on disk, or absent.
  predicate Settled(fs: Fs, entries: Entries, name: Name) {
    name in entries ==> entries[name] in fs.synced && entries[name] in fs.data
  }

  function Read(fs: Fs, entries: Entries, name: Name): Option<Bytes>
    requires Settled(fs, entries, name)
  {
    if name in entries then Some(fs.data[entries[name]]) else None
  }

  // The documents a path may hold: the initial one, one cleared for it, or none once the
  // network document has been withdrawn.
  ghost predicate MayHold<C>(v: Service<C>, s: State<C>, path: string, document: Option<Bytes>) {
    || (s.first.Valid() && document == s.first.Content(Path(path)))
    || (document.Some? && (path, document.value) in s.cleared)
    || (document.None? && path == v.network && s.withdrawn)
  }

  ghost predicate PathWhole<C>(v: Service<C>, s: State<C>, path: string) {
    && Settled(s.fs, s.fs.dir, Path(path)) && MayHold(v, s, path, Read(s.fs, s.fs.dir, Path(path)))
    && Settled(s.fs, s.fs.disk, Path(path)) && MayHold(v, s, path, Read(s.fs, s.fs.disk, Path(path)))
  }

  ghost predicate Files<C>(v: Service<C>, s: State<C>) {
    s.fs.Valid() && forall path :: PathWhole(v, s, path)
  }

  // What a thread that is staging a file relies on. Uploads are fit for their destination
  // from the start, network documents once they have been accepted.
  ghost predicate Staging<C>(s: State<C>, t: Thread<C>) {
    && (t.job.Write? && t.job.use != Network ==> (t.job.dest, t.job.body) in s.cleared)
    && match t.pc
    case Writing(tmp, ino, sofar) => t.job.Write? && Private(s.fs, tmp, ino, sofar)
    case Complete(tmp, ino) =>
      t.job.Write? && t.job.use == Network && Private(s.fs, tmp, ino, t.job.body) && ino in s.fs.synced
    case Cleared(tmp, ino) =>
      && t.job.Write? && Private(s.fs, tmp, ino, t.job.body) && ino in s.fs.synced
      && (t.job.dest, t.job.body) in s.cleared
    case Renamed(tmp) => t.job.Write?
    case Cleaning(tmp, ok) => t.job.Write?
    case _ => true
  }

  function TempOf<C>(pc: Pc<C>): Option<nat> {
    match pc
    case Writing(tmp, _, _) => Some(tmp)
    case Complete(tmp, _) => Some(tmp)
    case Cleared(tmp, _) => Some(tmp)
    case Renamed(tmp) => Some(tmp)
    case Cleaning(tmp, _) => Some(tmp)
    case _ => None
  }

  ghost predicate Owns<C>(s: State<C>, id: Id) {
    id in s.threads && (TempOf(s.threads[id].pc).Some? ==> OwnerOf(s.owner, TempOf(s.threads[id].pc).value) == Some(id))
  }

  function OwnerOf(owner: map<nat, Id>, tmp: nat): Option<Id> {
    if tmp in owner then Some(owner[tmp]) else None
  }

  ghost predicate Threads<C>(v: Service<C>, s: State<C>) {
    forall id | id in s.threads :: JobAllowed(v, s.threads[id].job) && Staging(s, s.threads[id]) && Owns(s, id)
  }

  // Every temporary file belongs to a running thread that will remove it, unless its removal
  // has failed or the process that made it is gone.
  ghost predicate Tended<C>(s: State<C>, tmp: nat) {
    || tmp in s.leftover
    || (tmp in s.owner && s.owner[tmp] in s.threads && TempOf(s.threads[s.owner[tmp]].pc) == Some(tmp))
  }

  ghost predicate Temps<C>(s: State<C>) {
    && (forall k | Temp(k) in s.fs.dir :: Tended(s, k))
    && (forall k | Temp(k) in s.fs.dir || Temp(k) in s.fs.disk :: k in s.owner)
    && (forall k | k in s.leftover :: k in s.owner)
  }

  // Inside applyMu.
  predicate Critical<C>(t: Thread<C>) {
    Locked(t.job) && !t.pc.Waiting?
  }

  // Only the jobs that take applyMu get here.
  predicate OnlyLocked<C>(pc: Pc<C>) {
    pc.Waiting? || pc.Holding? || pc.Applying?
  }

  ghost predicate Exclusive<C>(s: State<C>) {
    && (forall id | id in s.threads && Critical(s.threads[id]) :: s.lock == Some(id))
    && (forall id | id in s.threads && OnlyLocked(s.threads[id].pc) :: Locked(s.threads[id].job))
    && (s.lock.Some? ==> s.lock.value in s.threads && Critical(s.threads[s.lock.value]))
  }

  ghost predicate Versions<C>(v: Service<C>, s: State<C>) {
    && s.versions != [] && s.floor <= s.onDisk < |s.versions|
    && Settled(s.fs, s.fs.dir, Path(v.config)) && Read(s.fs, s.fs.dir, Path(v.config)) == s.versions[Last(s)]
    && Settled(s.fs, s.fs.disk, Path(v.config)) && Read(s.fs, s.fs.disk, Path(v.config)) == s.versions[s.onDisk]
  }

  // writeConfigFile has succeeded.
  predicate Kept<C>(pc: Pc<C>) {
    match pc
    case Cleaning(_, ok) => ok
    case Holding(_) => true
    case Applying(_) => true
    case _ => false
  }

  // What the holder of applyMu knows about the config file.
  ghost predicate Holder<C>(v: Service<C>, s: State<C>, t: Thread<C>) {
    && (t.job.Write? && (t.pc.Renamed? || Kept(t.pc)) ==> s.versions != [] && s.versions[Last(s)] == Some(t.job.body))
    && (t.job.Write? && Kept(t.pc) ==> s.floor == Last(s))
    && (t.pc.Holding? || t.pc.Applying? ==>
          s.versions != [] && s.versions[Last(s)].Some? && v.decode(s.versions[Last(s)].value) == Some(t.pc.config))
    && (t.pc.Applying? ==> s.reached)
    && (!t.pc.Applying? && !t.pc.Returning? ==> !s.reached)
  }

  ghost predicate Holders<C>(v: Service<C>, s: State<C>) {
    forall id | id in s.threads && Critical(s.threads[id]) :: Holder(v, s, s.threads[id])
  }

  // The configs applied by this process are those of versions of the file, never going back;
  // after a convergence the latest.
  ghost predicate History<C>(v: Service<C>, s: State<C>) {
    && (forall i | 0 <= i < |s.applied| ::
          && s.applied[i].version < |s.versions| && s.versions[s.applied[i].version].Some?
          && v.decode(s.versions[s.applied[i].version].value) == Some(s.applied[i].config))
    && (forall i, j | 0 <= i < j < |s.applied| :: s.applied[i].version <= s.applied[j].version)
    && (s.reached ==> s.applied != [] && s.applied[|s.applied| - 1].version == Last(s))
  }

  ghost predicate Inv<C>(v: Service<C>, s: State<C>) {
    && v.config != v.network
    && Files(v, s) && Threads(v, s) && Temps(s) && Exclusive(s) && Versions(v, s) && Holders(v, s) && History(v, s)
  }
}
