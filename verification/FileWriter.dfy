/**
 * The crash-safe writers of fileio.go, and the commit protocol of configureHostInterfaces
 * that is built the same way. Every system call may fail; the history holds every state of
 * the file system in which power may be lost.
 */
module FileWriter {
  import opened Wrappers
  import opened FileSystem

  class Disk {
    var fs: Fs
    var used: set<nat>
    ghost var history: seq<Fs>
    // Calls that failed, and temporary files whose removal failed.
    ghost var failures: nat
    ghost var unremoved: set<nat>

    ghost predicate Valid()
      reads this
    {
      && history != [] && history[|history| - 1] == fs && fs.Valid()
      && (forall k | Temp(k) in fs.dir :: k in used)
      && unremoved <= used
    }

    constructor (initial: Fs)
      requires initial.Valid() && forall k :: Temp(k) !in initial.dir
      ensures Valid() && fs == initial && history == [initial]
    {
      fs, used, history := initial, {}, [initial];
      failures, unremoved := 0, {};
    }

    // A system call has brought the file system to next; before the following call the
    // kernel may write back any directory entries.
    method Reach(next: Fs)
      requires Valid() && next.Valid() && forall k | Temp(k) in next.dir :: k in used
      modifies this`fs, this`history
      ensures Valid() && used == old(used) && next.FlushesTo(fs) && history == old(history) + [next, fs]
    {
      var now := WriteBacks(next);
      fs, history := now, history + [next, now];
    }

    // Since the history had length n, every state kept one of the documents under dest.
    ghost predicate KeptSince(n: nat, dest: Name, docs: set<Option<Bytes>>)
      reads this
    {
      n <= |history| && forall k | n <= k < |history| :: history[k].Valid() && history[k].Holds(dest, docs)
    }
  }

  // The kernel writes back whichever entries it likes.
  method WriteBacks(next: Fs) returns (now: Fs)
    requires next.Valid()
    ensures now.Valid() && next.FlushesTo(now)
  {
    now := next;
    var rest := next.dir.Keys + next.disk.Keys;
    while rest != {}
      invariant now.Valid() && next.FlushesTo(now)
      decreases |rest|
    {
      hide *;
      var name :| name in rest;
      rest := rest - {name};
      if * {
        WriteBackFlushes(next, now, name);
        now := now.WriteBack(name);
      }
    }
  }

  // What every call below preserves: the destination's documents, all along.
  ghost predicate Kept(d: Disk, start: seq<Fs>, dest: Name, docs: set<Option<Bytes>>)
    reads d
  {
    d.Valid() && start <= d.history && d.KeptSince(|start|, dest, docs) && d.fs.Holds(dest, docs)
  }

  lemma KeptWider(d: Disk, start: seq<Fs>, dest: Name, docs: set<Option<Bytes>>, more: set<Option<Bytes>>)
    requires Kept(d, start, dest, docs) && docs <= more
    ensures Kept(d, start, dest, more)
  {
  }

  // One system call: moves to next, whose documents are the given ones.
  method Call(d: Disk, next: Fs, ghost start: seq<Fs>, ghost dest: Name, ghost docs: set<Option<Bytes>>)
    requires Kept(d, start, dest, docs) && next.Valid() && next.Holds(dest, docs)
    requires forall k | Temp(k) in next.dir :: k in d.used
    modifies d`fs, d`history
    ensures Kept(d, start, dest, docs) && next.FlushesTo(d.fs) && d.used == old(d.used)
    ensures d.history == old(d.history) + [next, d.fs]
  {
    d.Reach(next);
    FlushKeepsDocument(next, d.fs, dest, docs);
  }

  // os.CreateTemp: a fresh name and an empty file.
  method CreateTemp(d: Disk, ghost start: seq<Fs>, ghost dest: Name, ghost docs: set<Option<Bytes>>)
    returns (tmp: Option<nat>, ino: Inode)
    requires Kept(d, start, dest, docs) && dest.Path?
    modifies d
    ensures Kept(d, start, dest, docs)
    ensures tmp.None? ==> d.fs == old(d.fs)
    ensures d.failures == old(d.failures) + (if tmp.None? then 1 else 0) && d.unremoved == old(d.unremoved)
    ensures tmp.Some? ==> Staged(d.fs, dest, Temp(tmp.value), ino, "") && tmp.value !in old(d.used)
    ensures tmp.Some? ==> d.fs.dir == old(d.fs.dir)[Temp(tmp.value) := ino] && Untouched(old(d.fs), d.fs, dest)
  {
    var number: int, unused: int := *, *;
    tmp, ino := None, 0;
    if 0 <= number && 0 <= unused && number !in d.used && unused !in d.fs.data {
      if * {
        d.used := d.used + {number};
        CreateStages(d.fs, dest, Temp(number), unused, docs);
        var next := d.fs.Create(Temp(number), unused);
        Call(d, next, start, dest, docs);
        FlushKeepsStaged(next, d.fs, dest, Temp(number), unused, "");
        tmp, ino := Some(number), unused;
        return;
      }
    }
    d.failures := d.failures + 1;
  }

  // Writes data to the staged file; a failed write may leave any part of it.
  method Write(d: Disk, tmp: nat, ino: Inode, data: Bytes, ghost content: Bytes, ghost start: seq<Fs>,
      ghost dest: Name, ghost docs: set<Option<Bytes>>)
    returns (ok: bool, ghost now: Bytes)
    requires Kept(d, start, dest, docs) && Staged(d.fs, dest, Temp(tmp), ino, content)
    modifies d
    ensures Kept(d, start, dest, docs) && Staged(d.fs, dest, Temp(tmp), ino, now)
    ensures d.fs.dir == old(d.fs.dir) && Untouched(old(d.fs), d.fs, dest)
    ensures d.failures == old(d.failures) + (if ok then 0 else 1) && d.unremoved == old(d.unremoved)
    ensures ok ==> now == content + data
  {
    ok := *;
    var part: int := *;
    var written := if !ok && 0 <= part < |data| then data[..part] else data;
    now := content + written;
    AppendStages(d.fs, dest, Temp(tmp), ino, content, written, docs);
    var next := d.fs.Append(ino, written);
    Call(d, next, start, dest, docs);
    FlushKeepsStaged(next, d.fs, dest, Temp(tmp), ino, now);
    if !ok { d.failures := d.failures + 1; }
  }

  method SyncFile(d: Disk, tmp: nat, ino: Inode, ghost content: Bytes, ghost start: seq<Fs>, ghost dest: Name,
      ghost docs: set<Option<Bytes>>)
    returns (ok: bool)
    requires Kept(d, start, dest, docs) && Staged(d.fs, dest, Temp(tmp), ino, content)
    modifies d
    ensures Kept(d, start, dest, docs) && Staged(d.fs, dest, Temp(tmp), ino, content)
    ensures d.fs.dir == old(d.fs.dir) && Untouched(old(d.fs), d.fs, dest)
    ensures d.failures == old(d.failures) + (if ok then 0 else 1) && d.unremoved == old(d.unremoved)
    ensures ok ==> ino in d.fs.synced
  {
    ok := *;
    if !ok {
      d.failures := d.failures + 1;
    } else {
      SyncStages(d.fs, dest, Temp(tmp), ino, content, docs);
      var next := d.fs.SyncFile(ino);
      Call(d, next, start, dest, docs);
      FlushKeepsStaged(next, d.fs, dest, Temp(tmp), ino, content);
    }
  }

  // os.Rename either happens or fails without effect.
  method Rename(d: Disk, tmp: nat, ino: Inode, dest: Name, ghost content: Bytes, ghost start: seq<Fs>,
      ghost docs: set<Option<Bytes>>)
    returns (ok: bool)
    requires Kept(d, start, dest, docs) && Staged(d.fs, dest, Temp(tmp), ino, content)
    requires ino in d.fs.synced && dest.Path?
    modifies d
    ensures ok ==> Kept(d, start, dest, docs + {Some(content)}) && d.fs.Gives(d.fs.dir, dest, {Some(content)})
    ensures ok ==> d.fs.dir == (old(d.fs.dir) - {Temp(tmp)})[dest := ino]
    ensures !ok ==> Kept(d, start, dest, docs) && d.fs == old(d.fs)
    ensures d.failures == old(d.failures) + (if ok then 0 else 1)
    ensures d.unremoved == old(d.unremoved) && d.used == old(d.used)
  {
    ok := *;
    if !ok {
      d.failures := d.failures + 1;
    } else {
      RenameReplaces(d.fs, dest, Temp(tmp), ino, content, docs);
      KeptWider(d, start, dest, docs, docs + {Some(content)});
      var next := d.fs.Rename(Temp(tmp), dest);
      Call(d, next, start, dest, docs + {Some(content)});
    }
  }

  method SyncDir(d: Disk, dest: Name, ghost doc: Option<Bytes>, ghost start: seq<Fs>, ghost docs: set<Option<Bytes>>)
    returns (ok: bool)
    requires Kept(d, start, dest, docs) && d.fs.Gives(d.fs.dir, dest, {doc}) && doc in docs
    modifies d
    ensures Kept(d, start, dest, docs) && d.fs.dir == old(d.fs.dir) && d.fs.Gives(d.fs.dir, dest, {doc})
    ensures ok ==> d.fs.Holds(dest, {doc})
    ensures d.failures == old(d.failures) + (if ok then 0 else 1)
    ensures d.unremoved == old(d.unremoved) && d.used == old(d.used)
  {
    ok := *;
    if !ok {
      d.failures := d.failures + 1;
    } else {
      SyncDirSettles(d.fs, dest, {doc});
      var next := d.fs.SyncDir();
      Call(d, next, start, dest, docs);
      FlushKeepsDocument(next, d.fs, dest, {doc});
    }
  }

  // The deferred, best-effort removal of the temporary file: nothing to do once renamed.
  method RemoveTemp(d: Disk, tmp: nat, ghost body: Bytes, ghost start: seq<Fs>, ghost dest: Name,
      ghost docs: set<Option<Bytes>>)
    returns (gone: bool)
    requires Kept(d, start, dest, docs) && dest.Path? && tmp in d.used
    modifies d
    ensures Kept(d, start, dest, docs) && Untouched(old(d.fs), d.fs, dest)
    ensures d.failures == old(d.failures) && d.unremoved == old(d.unremoved) + if gone then {} else {tmp}
    ensures old(d.fs.Holds(dest, {Some(body)})) ==> d.fs.Holds(dest, {Some(body)})
    ensures gone ==> d.fs.dir == old(d.fs.dir) - {Temp(tmp)}
    ensures !gone ==> d.fs == old(d.fs)
  {
    gone := *;
    if gone {
      var next := d.fs.Remove(Temp(tmp));
      Call(d, next, start, dest, docs);
      FlushKeepsDocument(next, d.fs, dest, {Some(body)});
    } else {
      d.unremoved := d.unremoved + {tmp};
    }
  }

  // The document a write may have left behind: none unless the rename was reached.
  function Left(docs: set<Option<Bytes>>, renamed: bool, body: Bytes): set<Option<Bytes>> {
    if renamed then docs + {Some(body)} else docs
  }

  // Stages data in a temporary file: create, write chunk by chunk, sync, close. The source
  // of the chunks may break off before the end.
  method Stage(d: Disk, chunks: seq<Bytes>, complete: bool, ghost start: seq<Fs>, ghost dest: Name,
      ghost docs: set<Option<Bytes>>)
    returns (tmp: Option<nat>, ino: Inode, ok: bool, written: nat)
    requires Kept(d, start, dest, docs) && dest.Path?
    modifies d
    ensures Kept(d, start, dest, docs)
    ensures tmp.None? ==> !ok && d.fs == old(d.fs)
    ensures tmp.Some? ==> tmp.value !in old(d.used) && d.fs.dir == old(d.fs.dir)[Temp(tmp.value) := ino]
    ensures tmp.Some? ==> Untouched(old(d.fs), d.fs, dest) && tmp.value in d.used
    ensures ok <==> complete && d.failures == old(d.failures)
    ensures d.unremoved == old(d.unremoved)
    ensures ok ==>
              && complete && tmp.Some? && Staged(d.fs, dest, Temp(tmp.value), ino, Concat(chunks)) && ino in d.fs.synced
              && written == |Concat(chunks)|
  {
    ok, written := false, 0;
    tmp, ino := CreateTemp(d, start, dest, docs);
    if tmp.None? { return; }
    ghost var content := "";
    for i := 0 to |chunks|
      invariant Kept(d, start, dest, docs) && Staged(d.fs, dest, Temp(tmp.value), ino, content)
      invariant d.fs.dir == old(d.fs.dir)[Temp(tmp.value) := ino] && Untouched(old(d.fs), d.fs, dest)
      invariant content == Concat(chunks[..i]) && written == |content|
      invariant d.failures == old(d.failures) && d.unremoved == old(d.unremoved)
    {
      hide Kept, Staged;
      ok, content := Write(d, tmp.value, ino, chunks[i], content, start, dest, docs);
      if !ok { return; }
      written := written + |chunks[i]|;
      assert chunks[..i + 1][..i] == chunks[..i];
    }
    assert chunks[..|chunks|] == chunks;
    hide Kept, Staged;
    if !complete { return tmp, ino, false, written; }
    ok := SyncFile(d, tmp.value, ino, content, start, dest, docs);
    var closed: bool := *;
    if !closed { d.failures := d.failures + 1; }
    ok := ok && closed;
  }

  function Concat(chunks: seq<Bytes>): Bytes {
    if chunks == [] then "" else Concat(chunks[..|chunks| - 1]) + chunks[|chunks| - 1]
  }

  // The tail both writers share: rename into place, sync the directory, clean up.
  method Install(d: Disk, tmp: nat, ino: Inode, dest: Name, ghost body: Bytes, ghost start: seq<Fs>,
      ghost docs: set<Option<Bytes>>)
    returns (ok: bool, ghost renamed: bool)
    requires Kept(d, start, dest, docs) && Staged(d.fs, dest, Temp(tmp), ino, body) && ino in d.fs.synced && dest.Path?
    modifies d
    ensures Kept(d, start, dest, Left(docs, renamed, body))
    ensures !renamed ==> !ok && d.fs == old(d.fs)
    ensures renamed ==> d.fs.dir == (old(d.fs.dir) - {Temp(tmp)})[dest := ino]
    ensures renamed ==> d.fs.Gives(d.fs.dir, dest, {Some(body)})
    ensures ok ==> renamed && d.fs.Holds(dest, {Some(body)})
    ensures d.failures == old(d.failures) + (if ok then 0 else 1)
    ensures d.unremoved == old(d.unremoved) && d.used == old(d.used)
  {
    hide Kept, Staged, Fs.Gives, Fs.Holds;
    ok := Rename(d, tmp, ino, dest, body, start, docs);
    renamed := ok;
    if ok {
      ok := SyncDir(d, dest, Some(body), start, docs + {Some(body)});
    }
  }

  // The entries a write leaves besides the destination: those there were, and its temporary
  // file if it could not be removed.
  ghost predicate LeavesOnly(before: Entries, after: Entries, dest: Name, left: Option<Name>) {
    && (forall n | n != dest && n in before :: n in after && after[n] == before[n])
    && (forall n | n != dest && n in after :: n in before || Some(n) == left)
  }

  lemma NothingStaged(before: Entries, dest: Name)
    ensures LeavesOnly(before, before, dest, None)
  {
  }

  lemma StagedThenTidied(before: Entries, dest: Name, tmp: Name, ino: Inode)
    requires tmp !in before
    ensures var staged := before[tmp := ino];
            && LeavesOnly(before, staged, dest, Some(tmp))
            && LeavesOnly(before, staged - {tmp}, dest, None)
            && LeavesOnly(before, (staged - {tmp})[dest := ino], dest, None)
            && LeavesOnly(before, (staged - {tmp})[dest := ino] - {tmp}, dest, None)
  {
  }

  // writeConfigFile and streamToFileAtomic. The body arrives in chunks (for a config in one)
  // from a source that may break off. At every moment power may be lost, the destination
  // holds one of the documents it held, or the whole body; once the call has succeeded it
  // holds the body, now and after any power loss. A call that fails before its rename leaves
  // what processes see there untouched.
  method WriteAtomically(d: Disk, dest: Name, chunks: seq<Bytes>, complete: bool, ghost docs: set<Option<Bytes>>)
    returns (ok: bool, written: nat, ghost renamed: bool, ghost left: Option<Name>)
    requires d.Valid() && dest.Path? && d.fs.Holds(dest, docs)
    modifies d
    ensures Kept(d, old(d.history), dest, Left(docs, renamed, Concat(chunks)))
    ensures ok <==> complete && d.failures == old(d.failures)
    ensures ok ==> renamed && written == |Concat(chunks)| && d.fs.Holds(dest, {Some(Concat(chunks))})
    ensures d.fs.Content(dest) == if renamed then Some(Concat(chunks)) else old(d.fs.Content(dest))
    ensures LeavesOnly(old(d.fs.dir), d.fs.dir, dest, left)
    ensures left.Some? ==> !renamed && left.value.Temp? && left.value.number in d.unremoved - old(d.used)
  {
    ghost var start, before := d.history, d.fs;
    KeptFromStart(d, dest, docs);
    hide Kept, Concat, Staged, LeavesOnly;
    renamed, left := false, None;
    var tmp, ino, staged, n := Stage(d, chunks, complete, start, dest, docs);
    written := n;
    if tmp.None? {
      NothingStaged(before.dir, dest);
      return false, written, false, None;
    }
    StagedThenTidied(before.dir, dest, Temp(tmp.value), ino);
    ok := false;
    if staged {
      ok, renamed := Install(d, tmp.value, ino, dest, Concat(chunks), start, docs);
    }
    var gone := RemoveTemp(d, tmp.value, Concat(chunks), start, dest, Left(docs, renamed, Concat(chunks)));
    left := if gone || renamed then None else Some(Temp(tmp.value));
  }

  // What keeping means when power is lost: at whatever moment of the call, and whatever
  // becomes of unsynced files, the destination then holds one of the documents.
  lemma KeptSurvivesPowerLoss(d: Disk, start: seq<Fs>, dest: Name, docs: set<Option<Bytes>>, k: nat,
      garbage: map<Inode, Bytes>)
    requires Kept(d, start, dest, docs) && |start| <= k < |d.history|
    ensures d.history[k].Valid() && d.history[k].PowerLoss(garbage).Valid()
    ensures d.history[k].Content(dest) in docs && d.history[k].PowerLoss(garbage).Content(dest) in docs
  {
    assert d.history[k].Valid() && d.history[k].Holds(dest, docs);
    CrashKeepsDocument(d.history[k], garbage, dest, docs);
  }

  lemma KeptFromStart(d: Disk, dest: Name, docs: set<Option<Bytes>>)
    requires d.Valid() && d.fs.Holds(dest, docs)
    ensures Kept(d, d.history, dest, docs)
  {
  }

  // From the n-th state on no power loss leaves the file.
  ghost predicate GoneForGood(history: seq<Fs>, n: nat, dest: Name) {
    forall k, garbage | n <= k < |history| :: dest !in history[k].PowerLoss(garbage).dir
  }

  lemma RemovedForGood(a: Fs, b: Fs, history: seq<Fs>, dest: Name)
    requires a.Valid() && a.Remove(dest).FlushesTo(b)
    ensures GoneForGood(history + [a.Remove(dest), b], |history|, dest) <==> dest !in a.disk
  {
    var removed := a.Remove(dest);
    var all := history + [removed, b];
    RemovalSettlesIffNotOnDisk(a, dest);
    assert all[|history|] == removed && all[|history| + 1] == b && removed.FlushesTo(removed);
    assert all[|history|].PowerLoss(map[]).dir == a.disk;
    if dest !in a.disk {
      forall k, garbage | |history| <= k < |all| ensures dest !in all[k].PowerLoss(garbage).dir {
        assert all[k] == removed || all[k] == b;
      }
    }
  }

  // os.Remove of the destination itself: afterwards there is no file, though until the
  // directory reaches the disk a power loss brings the old document back.
  method RemoveDocument(d: Disk, dest: Name, ghost start: seq<Fs>, ghost docs: set<Option<Bytes>>) returns (ok: bool)
    requires Kept(d, start, dest, docs) && dest.Path?
    modifies d
    ensures Kept(d, start, dest, docs + {None})
    ensures ok ==> (GoneForGood(d.history, |old(d.history)|, dest) <==> dest !in old(d.fs.disk))
    ensures ok ==> d.fs.dir == old(d.fs.dir) - {dest}
    ensures !ok ==> d.fs == old(d.fs)
    ensures d.failures == old(d.failures) + (if ok then 0 else 1)
  {
    ok := *;
    KeptWider(d, start, dest, docs, docs + {None});
    if ok {
      var next := d.fs.Remove(dest);
      Call(d, next, start, dest, docs + {None});
      RemovedForGood(old(d.fs), d.fs, old(d.history), dest);
    } else {
      d.failures := d.failures + 1;
    }
  }

  // nmstatectl apply, on the file as it is now: it may refuse, and it changes no file here.
  method Apply(d: Disk, tmp: nat, ghost ino: Inode, ghost document: Bytes) returns (accepted: Option<Bytes>)
    requires d.Valid() && Entry(d.fs.dir, Temp(tmp)) == Some(ino) && d.fs.data[ino] == document
    modifies d`failures
    ensures accepted.Some? ==> accepted == Some(document)
    ensures d.failures == old(d.failures) + (if accepted.Some? then 0 else 1)
  {
    accepted := None;
    if * {
      accepted := d.fs.Content(Temp(tmp));
    } else {
      d.failures := d.failures + 1;
    }
  }

  // The document is staged, applied and only then renamed into place.
  method CommitDocument(d: Disk, dest: Name, document: Bytes, ghost docs: set<Option<Bytes>>)
    returns (ok: bool, ghost accepted: Option<Bytes>, ghost left: Option<Name>)
    requires d.Valid() && dest.Path? && d.fs.Holds(dest, docs)
    modifies d
    ensures Kept(d, old(d.history), dest, WithAccepted(docs, accepted))
    ensures accepted.Some? ==> accepted == Some(document)
    ensures d.fs.Content(dest) == old(d.fs.Content(dest)) || (accepted.Some? && d.fs.Content(dest) == accepted)
    ensures ok ==> accepted.Some? && d.fs.Holds(dest, {accepted})
    ensures ok <==> d.failures == old(d.failures)
    ensures LeavesOnly(old(d.fs.dir), d.fs.dir, dest, left)
    ensures left.Some? ==> left.value.Temp? && left.value.number in d.unremoved - old(d.used)
  {
    ghost var start, before := d.history, d.fs;
    KeptFromStart(d, dest, docs);
    NothingStaged(before.dir, dest);
    hide Kept, Concat, Staged, LeavesOnly, Fs.Gives;
    ok, accepted, left := false, None, None;
    var tmp, ino, staged, _ := Stage(d, [document], true, start, dest, docs);
    if tmp.None? { return; }
    StagedThenTidied(before.dir, dest, Temp(tmp.value), ino);
    ghost var renamed, after := false, docs;
    if staged {
      ConcatOne(document);
      ok, accepted, renamed := ApplyStaged(d, tmp.value, ino, dest, document, start, docs);
      after := WithAccepted(docs, accepted);
    }
    var gone := RemoveTemp(d, tmp.value, document, start, dest, after);
    left := if gone || renamed then None else Some(Temp(tmp.value));
  }

  function WithAccepted(docs: set<Option<Bytes>>, accepted: Option<Bytes>): set<Option<Bytes>> {
    if accepted.Some? then docs + {accepted} else docs
  }

  // The apply comes before the rename, never after.
  method ApplyStaged(d: Disk, tmp: nat, ino: Inode, dest: Name, document: Bytes, ghost start: seq<Fs>,
      ghost docs: set<Option<Bytes>>)
    returns (ok: bool, ghost accepted: Option<Bytes>, ghost renamed: bool)
    requires Kept(d, start, dest, docs) && Staged(d.fs, dest, Temp(tmp), ino, document)
    requires ino in d.fs.synced && dest.Path?
    modifies d
    ensures Kept(d, start, dest, WithAccepted(docs, accepted))
    ensures accepted.Some? ==> accepted == Some(document)
    ensures !renamed ==> !ok && d.fs == old(d.fs)
    ensures renamed ==> accepted.Some? && d.fs.Gives(d.fs.dir, dest, {accepted})
    ensures renamed ==> d.fs.dir == (old(d.fs.dir) - {Temp(tmp)})[dest := ino]
    ensures ok ==> renamed && d.fs.Holds(dest, {accepted})
    ensures d.failures == old(d.failures) + (if ok then 0 else 1)
    ensures d.unremoved == old(d.unremoved) && d.used == old(d.used)
  {
    ok, accepted, renamed := false, None, false;
    var applied := Apply(d, tmp, ino, document);
    if applied.Some? {
      accepted := applied;
      KeptWider(d, start, dest, docs, docs + {applied});
      hide Kept, Staged, Fs.Gives, Fs.Holds;
      ok, renamed := Install(d, tmp, ino, dest, document, start, docs + {applied});
      assert Left(docs + {applied}, renamed, document) == docs + {applied};
    }
  }

  lemma ConcatOne(document: Bytes)
    ensures Concat([document]) == document
  {
    assert Concat([document][..0]) == "";
  }

  // configureHostInterfaces. When interfaces or routes are declared there is a document to
  // apply, unless building it fails. The canonical path only ever changes to a document
  // nmstatectl has accepted, whole, or to nothing when nothing is declared.
  method ConfigureHostInterfaces(d: Disk, dest: Name, declared: bool, built: Option<Bytes>,
      ghost docs: set<Option<Bytes>>)
    returns (ok: bool, ghost accepted: Option<Bytes>, ghost left: Option<Name>)
    requires d.Valid() && dest.Path? && d.fs.Holds(dest, docs)
    modifies d
    ensures Kept(d, old(d.history), dest, docs + if declared && accepted.None? then {} else {accepted})
    ensures accepted.Some? ==> declared && accepted == built
    ensures || d.fs.Content(dest) == old(d.fs.Content(dest))
            || ((declared <==> accepted.Some?) && d.fs.Content(dest) == accepted)
    ensures ok ==> (declared <==> accepted.Some?) && d.fs.Content(dest) == accepted
    ensures ok && declared ==> d.fs.Holds(dest, {accepted})
    ensures ok && !declared ==> (GoneForGood(d.history, |old(d.history)|, dest) <==> dest !in old(d.fs.disk))
    ensures declared && built.None? ==> !ok && d.history == old(d.history)
    ensures ok <==> (declared ==> built.Some?) && d.failures == old(d.failures)
    ensures LeavesOnly(old(d.fs.dir), d.fs.dir, dest, left)
  {
    KeptFromStart(d, dest, docs);
    hide Kept, GoneForGood;
    ok, accepted, left := false, None, None;
    if !declared {
      ok := RemoveDocument(d, dest, d.history, docs);
    } else if built.Some? {
      ok, accepted, left := CommitDocument(d, dest, built.value, docs);
      // Setting the transmit queue lengths comes last.
      if ok {
        ok := *;
        if !ok { d.failures := d.failures + 1; }
      }
    }
  }
}
