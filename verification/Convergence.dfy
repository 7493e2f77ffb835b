/**
 * The service as a whole: the startup reconcile, any number of config uploads taking applyMu,
 * image uploads that take no lock, and commits of network documents, all interleaved call by
 * call. Any call may fail, the process may be restarted and power may be lost at any point.
 */
module Convergence {
  import opened Wrappers
  import opened FileSystem

  type Id = nat

  // Where things are kept, and how the bytes of a config are read and judged.
  datatype Service<!C> = Service(config: string, network: string, decode: Bytes -> Option<C>, valid: C -> bool) {
    predicate Accepts(body: Bytes) {
      decode(body).Some? && valid(decode(body).value)
    }
  }

  datatype Use = Upload | Image | Network

  // Startup is runService, Write a request that stages body and renames it onto dest, and
  // Withdraw the removal of the network document when nothing is declared.
  datatype Job = Startup | Write(use: Use, dest: string, body: Bytes) | Withdraw

  // Config uploads have been validated by the time they wait for the lock. The three kinds
  // of destination are different files.
  predicate JobAllowed<C>(v: Service<C>, job: Job) {
    job.Write? ==>
      match job.use
      case Upload => job.dest == v.config && v.Accepts(job.body)
      case Image => job.dest != v.config && job.dest != v.network
      case Network => job.dest == v.network
  }

  // The jobs that hold applyMu from their first step to their last.
  predicate Locked(job: Job) {
    job.Startup? || (job.Write? && job.use == Upload)
  }

  datatype Pc<C> =
    | Waiting                                           // for applyMu
    | Ready
    | Writing(tmp: nat, ino: Inode, sofar: Bytes)
    | Complete(tmp: nat, ino: Inode)                    // a network document to be applied
    | Cleared(tmp: nat, ino: Inode)                     // synced, and fit for the destination
    | Renamed(tmp: nat)
    | Cleaning(tmp: nat, ok: bool)                      // the deferred removal is due
    | Holding(config: C)                                // about to call configApplier
    | Applying(config: C)
    | Returning

  datatype Thread<C> = Thread(job: Job, pc: Pc<C>)

  // One call of configApplier, and which version of the config file it was made for.
  datatype Applied<C> = Applied(config: C, version: nat)

  datatype State<C> = State(
    fs: Fs,
    threads: map<Id, Thread<C>>,
    lock: Option<Id>,
    reached: bool,                       // the last holder of applyMu called configApplier
    applied: seq<Applied<C>>,            // by this process
    // The rest records what has happened, for the statements below.
    first: Fs,
    cleared: set<(string, Bytes)>,       // documents uploaded for, or accepted at, a destination
    withdrawn: bool,
    versions: seq<Option<Bytes>>,        // of the config file, as processes have seen them
    onDisk: nat,                         // the version a power loss would leave
    floor: nat,                          // the last version a write has promised to be durable
    owner: map<nat, Id>,                 // who created which temporary file
    leftover: set<nat>)                  // temporary files nobody will remove

  datatype Step =
    | Start(id: Id, job: Job)
    | Acquire(id: Id)
    | Load(id: Id)
    | Create(id: Id, tmp: nat, ino: Inode)
    | Append(id: Id, chunk: Bytes)
    | Sync(id: Id)
    | Accept(id: Id)
    | Rename(id: Id)
    | SyncDir(id: Id)
    | Fail(id: Id)
    | Clean(id: Id, removed: bool)
    | Converge(id: Id)
    | Leave(id: Id)
    | Remove(id: Id)
    | WriteBack(name: Name)
    | Restart
    | PowerLoss(garbage: map<Inode, Bytes>)

  predicate Init<C>(v: Service<C>, s: State<C>) {
    && v.config != v.network
    && s.fs.Valid() && s.fs.disk == s.fs.dir && s.fs.synced == s.fs.data.Keys
    && (forall n | n in s.fs.dir :: n.Path?)
    && s.threads == map[] && s.lock == None && !s.reached && s.applied == []
    && s.first == s.fs && s.cleared == {} && !s.withdrawn
    && s.versions == [s.fs.Content(Path(v.config))] && s.onDisk == 0 && s.floor == 0
    && s.owner == map[] && s.leftover == {}
  }

  predicate Enabled<C>(v: Service<C>, s: State<C>, step: Step) {
    match step
    case Start(id, job) => id !in s.threads && JobAllowed(v, job)
    case Acquire(id) => id in s.threads && s.threads[id].pc.Waiting? && s.lock.None?
    case Load(id) => id in s.threads && s.threads[id].pc.Ready? && s.threads[id].job.Startup? && s.fs.Valid()
    case Create(id, tmp, ino) =>
      id in s.threads && s.threads[id].pc.Ready? && s.threads[id].job.Write? && tmp !in s.owner && ino !in s.fs.data
    case Append(id, chunk) =>
      && id in s.threads && s.threads[id].pc.Writing? && s.threads[id].job.Write?
      && s.threads[id].pc.ino in s.fs.data && s.threads[id].pc.sofar + chunk <= s.threads[id].job.body
    case Sync(id) =>
      && id in s.threads && s.threads[id].pc.Writing? && s.threads[id].job.Write?
      && s.threads[id].pc.sofar == s.threads[id].job.body
    case Accept(id) => id in s.threads && s.threads[id].pc.Complete? && s.threads[id].job.Write?
    case Rename(id) =>
      id in s.threads && s.threads[id].pc.Cleared? && s.threads[id].job.Write? && Temp(s.threads[id].pc.tmp) in s.fs.dir
    case SyncDir(id) => id in s.threads && s.threads[id].pc.Renamed? && s.threads[id].job.Write?
    case Fail(id) => id in s.threads && Fails(s.threads[id].pc).Some?
    case Clean(id, removed) => id in s.threads && s.threads[id].pc.Cleaning?
    case Converge(id) => id in s.threads && s.threads[id].pc.Holding? && s.versions != []
    case Leave(id) => id in s.threads && (s.threads[id].pc.Applying? || s.threads[id].pc.Returning?)
    case Remove(id) => id in s.threads && s.threads[id].pc.Ready? && s.threads[id].job.Withdraw?
    case WriteBack(name) => true
    case Restart => true
    case PowerLoss(garbage) => true
  }

  // Where a failing call leads: once there is a temporary file, to its removal.
  function Fails<C>(pc: Pc<C>): Option<Pc<C>> {
    match pc
    case Ready => Some(Returning)
    case Writing(tmp, ino, sofar) => Some(Cleaning(tmp, false))
    case Complete(tmp, ino) => Some(Cleaning(tmp, false))
    case Cleared(tmp, ino) => Some(Cleaning(tmp, false))
    case Renamed(tmp) => Some(Cleaning(tmp, false))
    case _ => None
  }

  function Goto<C>(s: State<C>, id: Id, pc: Pc<C>): State<C>
    requires id in s.threads
  {
    s.(threads := s.threads[id := s.threads[id].(pc := pc)])
  }

  function Last<C>(s: State<C>): nat {
    if s.versions == [] then 0 else |s.versions| - 1
  }

  function Begun<C>(s: State<C>, id: Id, job: Job): State<C> {
    s.(threads := s.threads[id := Thread(job, if Locked(job) then Waiting else Ready)],
       cleared := s.cleared + if job.Write? && job.use != Network then {(job.dest, job.body)} else {})
  }

  function Acquired<C>(s: State<C>, id: Id): State<C>
    requires id in s.threads
  {
    Goto(s, id, Ready).(lock := Some(id), reached := false)
  }

  // What run makes of the file it loads.
  function Loaded<C>(v: Service<C>, document: Option<Bytes>): Pc<C> {
    if document.Some? && v.decode(document.value).Some? then Holding(v.decode(document.value).value) else Returning
  }

  function Created<C>(s: State<C>, id: Id, tmp: nat, ino: Inode): State<C>
    requires id in s.threads
  {
    Goto(s, id, Writing(tmp, ino, "")).(fs := s.fs.Create(Temp(tmp), ino), owner := s.owner[tmp := id])
  }

  function Appended<C>(s: State<C>, id: Id, pc: Pc<C>, chunk: Bytes): State<C>
    requires id in s.threads && pc.Writing? && pc.ino in s.fs.data
  {
    Goto(s, id, pc.(sofar := pc.sofar + chunk)).(fs := s.fs.Append(pc.ino, chunk))
  }

  // A network document has yet to be applied.
  function AfterSync<C>(use: Use, pc: Pc<C>): Pc<C>
    requires pc.Writing?
  {
    if use == Network then Complete(pc.tmp, pc.ino) else Cleared(pc.tmp, pc.ino)
  }

  function Synced<C>(s: State<C>, id: Id, use: Use, pc: Pc<C>): State<C>
    requires id in s.threads && pc.Writing?
  {
    Goto(s, id, AfterSync(use, pc)).(fs := s.fs.SyncFile(pc.ino))
  }

  // nmstatectl has accepted the document.
  function Approved<C>(s: State<C>, id: Id, job: Job, pc: Pc<C>): State<C>
    requires id in s.threads && job.Write? && pc.Complete?
  {
    Goto(s, id, Cleared(pc.tmp, pc.ino)).(cleared := s.cleared + {(job.dest, job.body)})
  }

  function InPlace<C>(v: Service<C>, s: State<C>, id: Id, job: Job, tmp: nat): State<C>
    requires id in s.threads && job.Write? && Temp(tmp) in s.fs.dir
  {
    Goto(s, id, Renamed(tmp)).(
      fs := s.fs.Rename(Temp(tmp), Path(job.dest)),
      versions := if job.dest == v.config then s.versions + [Some(job.body)] else s.versions)
  }

  // Other entries of the directory reach the disk by steps of their own.
  function Persisted<C>(v: Service<C>, s: State<C>, id: Id, dest: string, tmp: nat): State<C>
    requires id in s.threads
  {
    var floor := if dest == v.config then Last(s) else s.floor;
    Goto(WrittenBack(v, s, Path(dest)), id, Cleaning(tmp, true)).(floor := floor)
  }

  // A config upload goes on to the apply when its write succeeded.
  function AfterWrite<C>(v: Service<C>, job: Job, ok: bool): Pc<C> {
    if ok && Locked(job) && job.Write? && v.decode(job.body).Some? then Holding(v.decode(job.body).value) else Returning
  }

  function Cleaned<C>(v: Service<C>, s: State<C>, id: Id, job: Job, pc: Pc<C>, removed: bool): State<C>
    requires id in s.threads && pc.Cleaning?
  {
    if removed then Goto(s, id, AfterWrite(v, job, pc.ok)).(fs := s.fs.Remove(Temp(pc.tmp)))
    else Goto(s, id, AfterWrite(v, job, pc.ok)).(leftover := s.leftover + {pc.tmp})
  }

  function Converged<C>(s: State<C>, id: Id, config: C): State<C>
    requires id in s.threads
  {
    Goto(s, id, Applying(config)).(applied := s.applied + [Applied(config, Last(s))], reached := true)
  }

  function Left<C>(s: State<C>, id: Id): State<C> {
    s.(threads := s.threads - {id}, lock := if s.lock == Some(id) then None else s.lock)
  }

  function Withdrawn<C>(v: Service<C>, s: State<C>, id: Id): State<C>
    requires id in s.threads
  {
    Goto(s, id, Returning).(fs := s.fs.Remove(Path(v.network)), withdrawn := true)
  }

  function WrittenBack<C>(v: Service<C>, s: State<C>, name: Name): State<C> {
    s.(fs := s.fs.WriteBack(name), onDisk := if name == Path(v.config) then Last(s) else s.onDisk)
  }

  // A new process: no threads, applyMu free, no temporary file anyone remembers.
  function Restarted<C>(s: State<C>): State<C> {
    s.(threads := map[], lock := None, reached := false, applied := [], leftover := s.leftover + s.owner.Keys)
  }

  function Rebooted<C>(s: State<C>, garbage: map<Inode, Bytes>): State<C> {
    Restarted(s).(fs := s.fs.PowerLoss(garbage),
      versions := if s.onDisk < |s.versions| then s.versions[..s.onDisk + 1] else s.versions)
  }

  function Do<C>(v: Service<C>, s: State<C>, step: Step): State<C>
    requires Enabled(v, s, step)
  {
    match step
    case Start(id, job) => Begun(s, id, job)
    case Acquire(id) => Acquired(s, id)
    case Load(id) => Goto(s, id, Loaded(v, s.fs.Content(Path(v.config))))
    case Create(id, tmp, ino) => Created(s, id, tmp, ino)
    case Append(id, chunk) => Appended(s, id, s.threads[id].pc, chunk)
    case Sync(id) => Synced(s, id, s.threads[id].job.use, s.threads[id].pc)
    case Accept(id) => Approved(s, id, s.threads[id].job, s.threads[id].pc)
    case Rename(id) => InPlace(v, s, id, s.threads[id].job, s.threads[id].pc.tmp)
    case SyncDir(id) => Persisted(v, s, id, s.threads[id].job.dest, s.threads[id].pc.tmp)
    case Fail(id) => Goto(s, id, Fails(s.threads[id].pc).value)
    case Clean(id, removed) => Cleaned(v, s, id, s.threads[id].job, s.threads[id].pc, removed)
    case Converge(id) => Converged(s, id, s.threads[id].pc.config)
    case Leave(id) => Left(s, id)
    case Remove(id) => Withdrawn(v, s, id)
    case WriteBack(name) => WrittenBack(v, s, name)
    case Restart => Restarted(s)
    case PowerLoss(garbage) => Rebooted(s, garbage)
  }

  // Every run of the service: from s the steps lead to t.
  ghost predicate Leads<C>(v: Service<C>, s: State<C>, steps: seq<Step>, t: State<C>)
    decreases |steps|
  {
    if steps == [] then s == t
    else Enabled(v, s, steps[0]) && Leads(v, Do(v, s, steps[0]), steps[1..], t)
  }
}
