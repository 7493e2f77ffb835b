/**
 * One directory as running processes see it and as it would be found after a power loss.
 * Directory entries reach the disk when the directory is synced or, one by one, whenever
 * the kernel likes; the contents of a file are certain to be on disk only once it is synced.
 */
module FileSystem {
  import opened Wrappers

  type Bytes = string

  type Inode = nat

  // Temporary names are numbered and never collide with the names files are kept under.
  datatype Name = Path(path: string) | Temp(number: nat)

  type Entries = map<Name, Inode>

  function Entry(entries: Entries, name: Name): Option<Inode> {
    if name in entries then Some(entries[name]) else None
  }

  datatype Fs = Fs(dir: Entries, disk: Entries, data: map<Inode, Bytes>, synced: set<Inode>) {
    predicate Valid() {
      && (forall n | n in dir :: dir[n] in data)
      && (forall n | n in disk :: disk[n] in data)
    }

    function Create(name: Name, ino: Inode): Fs {
      this.(dir := dir[name := ino], data := data[ino := ""], synced := synced - {ino})
    }

    function Append(ino: Inode, chunk: Bytes): Fs
      requires ino in data
    {
      this.(data := data[ino := data[ino] + chunk], synced := synced - {ino})
    }

    function SyncFile(ino: Inode): Fs {
      this.(synced := synced + {ino})
    }

    function Rename(from: Name, to: Name): Fs
      requires from in dir
    {
      this.(dir := (dir - {from})[to := dir[from]])
    }

    function Remove(name: Name): Fs {
      this.(dir := dir - {name})
    }

    function SyncDir(): Fs {
      this.(disk := dir)
    }

    // The kernel writes one directory entry back of its own accord.
    function WriteBack(name: Name): Fs {
      this.(disk := if name in dir then disk[name := dir[name]] else disk - {name})
    }

    // Any number of entries written back.
    ghost predicate FlushesTo(after: Fs) {
      && after == this.(disk := after.disk)
      && forall n :: Entry(after.disk, n) == Entry(disk, n) || Entry(after.disk, n) == Entry(dir, n)
    }

    // What a process reading the file gets.
    function Content(name: Name): Option<Bytes>
      requires Valid()
    {
      if name in dir then Some(data[dir[name]]) else None
    }

    // After a power loss the directory is what was on disk, and a file that was not synced
    // holds anything: what, if not what was written, the garbage says.
    function PowerLoss(garbage: map<Inode, Bytes>): Fs {
      Fs(disk, disk, map i | i in data :: if i in synced || i !in garbage then data[i] else garbage[i], data.Keys)
    }

    // Read through these entries, the name gives one of the documents, whole and on disk.
    // The document None stands for there being no file.
    predicate Gives(entries: Entries, name: Name, docs: set<Option<Bytes>>) {
      if name in entries then entries[name] in synced && entries[name] in data && Some(data[entries[name]]) in docs
      else None in docs
    }

    // One of the documents now, and one of them after a power loss.
    predicate Holds(name: Name, docs: set<Option<Bytes>>) {
      Gives(dir, name, docs) && Gives(disk, name, docs)
    }
  }

  // A power loss, whenever it comes, leaves one of the documents.
  lemma CrashKeepsDocument(a: Fs, garbage: map<Inode, Bytes>, name: Name, docs: set<Option<Bytes>>)
    requires a.Valid() && a.Holds(name, docs)
    ensures var b := a.PowerLoss(garbage); b.Valid() && b.Holds(name, docs) && b.Content(name) in docs
  {
  }

  // So do the kernel's own write-backs.
  lemma FlushKeepsDocument(a: Fs, b: Fs, name: Name, docs: set<Option<Bytes>>)
    requires a.Valid() && a.FlushesTo(b)
    ensures b.Valid()
    ensures a.Holds(name, docs) ==> b.Holds(name, docs)
  {
    forall n | n in b.disk ensures b.disk[n] in b.data {
      assert Entry(b.disk, n) == Entry(a.disk, n) || Entry(b.disk, n) == Entry(a.dir, n);
    }
    assert Entry(b.disk, name) == Entry(a.disk, name) || Entry(b.disk, name) == Entry(a.dir, name);
  }

  lemma WriteBackFlushes(a: Fs, b: Fs, name: Name)
    requires a.FlushesTo(b) && b.Valid()
    ensures b.WriteBack(name).Valid() && a.FlushesTo(b.WriteBack(name))
  {
    forall n
      ensures Entry(b.WriteBack(name).disk, n) == Entry(a.disk, n)
        || Entry(b.WriteBack(name).disk, n) == Entry(a.dir, n)
    {
      assert Entry(b.disk, n) == Entry(a.disk, n) || Entry(b.disk, n) == Entry(a.dir, n);
    }
  }

  // What processes read under this name is the same in both.
  predicate Untouched(a: Fs, b: Fs, name: Name) {
    && Entry(a.dir, name) == Entry(b.dir, name)
    && (name in a.dir ==> a.dir[name] in a.data && a.dir[name] in b.data && b.data[a.dir[name]] == a.data[a.dir[name]])
  }

  // A file being staged: reachable under its temporary name, and under no circumstances
  // through the destination.
  predicate Staged(fs: Fs, dest: Name, tmp: Name, ino: Inode, content: Bytes) {
    && Entry(fs.dir, tmp) == Some(ino) && dest != tmp
    && ino in fs.data && fs.data[ino] == content
    && Entry(fs.dir, dest) != Some(ino) && Entry(fs.disk, dest) != Some(ino)
  }

  lemma FlushKeepsStaged(a: Fs, b: Fs, dest: Name, tmp: Name, ino: Inode, content: Bytes)
    requires a.FlushesTo(b) && Staged(a, dest, tmp, ino, content)
    ensures Staged(b, dest, tmp, ino, content)
  {
    assert Entry(b.disk, dest) == Entry(a.disk, dest) || Entry(b.disk, dest) == Entry(a.dir, dest);
  }

  lemma CreateStages(a: Fs, dest: Name, tmp: Name, ino: Inode, docs: set<Option<Bytes>>)
    requires a.Valid() && a.Holds(dest, docs) && dest != tmp && tmp !in a.dir && ino !in a.data
    ensures var b := a.Create(tmp, ino); b.Valid() && b.Holds(dest, docs) && Staged(b, dest, tmp, ino, "")
  {
  }

  lemma AppendStages(a: Fs, dest: Name, tmp: Name, ino: Inode, content: Bytes, chunk: Bytes, docs: set<Option<Bytes>>)
    requires a.Valid() && a.Holds(dest, docs) && Staged(a, dest, tmp, ino, content)
    ensures var b := a.Append(ino, chunk);
            b.Valid() && b.Holds(dest, docs) && Staged(b, dest, tmp, ino, content + chunk)
  {
  }

  lemma SyncStages(a: Fs, dest: Name, tmp: Name, ino: Inode, content: Bytes, docs: set<Option<Bytes>>)
    requires a.Valid() && a.Holds(dest, docs) && Staged(a, dest, tmp, ino, content)
    ensures var b := a.SyncFile(ino); b.Valid() && b.Holds(dest, docs) && Staged(b, dest, tmp, ino, content)
  {
  }

  // Renaming a synced file onto the destination: from then on it is the old document or the
  // new one that a power loss leaves; processes see the new one.
  lemma RenameReplaces(a: Fs, dest: Name, tmp: Name, ino: Inode, content: Bytes, docs: set<Option<Bytes>>)
    requires a.Valid() && a.Holds(dest, docs) && Staged(a, dest, tmp, ino, content) && ino in a.synced
    ensures var b := a.Rename(tmp, dest);
            && b.Valid() && b.Holds(dest, docs + {Some(content)}) && b.Gives(b.dir, dest, {Some(content)})
            && tmp !in b.dir
  {
  }

  // Syncing the directory settles which of the two it is.
  lemma SyncDirSettles(a: Fs, dest: Name, docs: set<Option<Bytes>>)
    requires a.Valid() && a.Gives(a.dir, dest, docs)
    ensures var b := a.SyncDir(); b.Valid() && b.Holds(dest, docs)
  {
  }

  // Removing a file does not settle its fate. However the kernel writes entries back in the
  // meantime, no power loss brings the file back exactly when it was not on disk before.
  lemma RemovalSettlesIffNotOnDisk(a: Fs, name: Name)
    requires a.Valid()
    ensures (forall f: Fs, garbage | a.Remove(name).FlushesTo(f) :: name !in f.PowerLoss(garbage).dir) <==>
      name !in a.disk
  {
    var b := a.Remove(name);
    assert b.FlushesTo(b) && b.PowerLoss(map[]).dir == a.disk;
    if name !in a.disk {
      forall f: Fs, garbage | b.FlushesTo(f) ensures name !in f.PowerLoss(garbage).dir {
        assert Entry(f.disk, name) == Entry(b.disk, name) || Entry(f.disk, name) == Entry(b.dir, name);
      }
    }
  }
}
