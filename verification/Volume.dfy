/** A small file system: what is there now, and what a crash may leave of it. */
module Volume {
  import opened Records

  type Ino = nat

  /** Entry names: chosen by a caller, private to one operation, or members of a snapshot. */
  datatype Name = Public(text: string) | Temporary(token: nat) | DatabaseFile | ManifestFile | MarkerFile

  /** The bytes of a synchronized file survive a crash; others may become anything. */
  datatype File = File(bytes: Bytes, synced: bool)

  /** After a crash a directory has at least the entries that are certain and at most those that are
      possible: everything it has had since it was last synchronized. */
  datatype Dir = Dir(entries: map<Name, Ino>, certain: map<Name, Ino>, possible: set<(Name, Ino)>)

  datatype Disk = Disk(files: map<Ino, File>, dirs: map<Ino, Dir>)

  /** The directory in which all targets of the competing operations are made. */
  const ROOT: Ino := 0

  const NEW_DIR := Dir(map[], map[], {})

  predicate DirOk(d: Dir) {
    && (forall n :: n in d.certain ==> n in d.entries && d.entries[n] == d.certain[n])
    && (forall n :: n in d.entries ==> (n, d.entries[n]) in d.possible)
  }

  predicate DiskOk(disk: Disk) {
    ROOT in disk.dirs && forall i :: i in disk.dirs ==> DirOk(disk.dirs[i])
  }

  predicate Unused(disk: Disk, ino: Ino) { ino !in disk.files && ino !in disk.dirs }

  // ---------- Effects of system calls ----------

  function AddEntry(d: Dir, name: Name, ino: Ino): Dir {
    Dir(d.entries[name := ino], d.certain, d.possible + {(name, ino)})
  }

  function RemoveEntry(d: Dir, name: Name): Dir {
    Dir(d.entries - {name}, d.certain - {name}, d.possible)
  }

  function Settle(d: Dir): Dir {
    Dir(d.entries, d.entries, set n | n in d.entries :: (n, d.entries[n]))
  }

  function SetDir(disk: Disk, ino: Ino, d: Dir): Disk { disk.(dirs := disk.dirs[ino := d]) }

  function SetFile(disk: Disk, ino: Ino, f: File): Disk { disk.(files := disk.files[ino := f]) }

  function MakeDir(disk: Disk, parent: Ino, name: Name, ino: Ino): Disk
    requires parent in disk.dirs
  {
    disk.(dirs := disk.dirs[ino := NEW_DIR][parent := AddEntry(disk.dirs[parent], name, ino)])
  }

  function MakeFile(disk: Disk, dir: Ino, name: Name, ino: Ino): Disk
    requires dir in disk.dirs
  {
    SetDir(SetFile(disk, ino, File([], false)), dir, AddEntry(disk.dirs[dir], name, ino))
  }

  // ---------- Crashes ----------

  predicate Survives(d: Dir, d': Dir) {
    && d' == Settle(d')
    && (forall n :: n in d.certain ==> n in d'.entries && d'.entries[n] == d.certain[n])
    && (forall n :: n in d'.entries ==> (n, d'.entries[n]) in d.possible)
  }

  predicate Crash(disk: Disk, disk': Disk) {
    && disk'.dirs.Keys == disk.dirs.Keys && disk'.files.Keys == disk.files.Keys
    && (forall i :: i in disk.dirs ==> Survives(disk.dirs[i], disk'.dirs[i]))
    && (forall i :: i in disk.files && disk.files[i].synced ==> disk'.files[i].bytes == disk.files[i].bytes)
  }

  /** A crash can replace the bytes of a file that is not synchronized by any others. */
  lemma CrashMayGarble(disk: Disk, ino: Ino, bytes: Bytes)
    requires ino in disk.files && !disk.files[ino].synced && forall i :: i in disk.dirs ==> DirOk(disk.dirs[i])
    ensures exists disk' :: Crash(disk, disk') && disk'.files[ino].bytes == bytes
  {
    var dirs := map i | i in disk.dirs :: Settle(disk.dirs[i]);
    assert Crash(disk, Disk(disk.files[ino := File(bytes, false)], dirs));
  }

  /** It can lose every entry that is not certain, and bring back every one that is possible. */
  lemma CrashMayForget(disk: Disk, dir: Ino, name: Name)
    requires dir in disk.dirs && name !in disk.dirs[dir].certain && forall i :: i in disk.dirs ==> DirOk(disk.dirs[i])
    ensures exists disk' :: Crash(disk, disk') && name !in disk'.dirs[dir].entries
    ensures forall ino :: (name, ino) in disk.dirs[dir].possible ==>
              exists disk' :: Crash(disk, disk') && name in disk'.dirs[dir].entries && disk'.dirs[dir].entries[name] == ino
  {
    var d := disk.dirs[dir];
    OnlyCertain(d);
    hide DirOk, Survives, Crash;
    var lost := CrashOf(disk, dir, Settle(Dir(d.certain, map[], {})));
    assert name !in lost.dirs[dir].entries;
    forall ino | (name, ino) in d.possible
      ensures exists disk' :: Crash(disk, disk') && name in disk'.dirs[dir].entries && disk'.dirs[dir].entries[name] == ino
    {
      CertainAndOne(d, name, ino);
      var back := CrashOf(disk, dir, Settle(Dir(d.certain[name := ino], map[], {})));
      assert name in back.dirs[dir].entries;
    }
  }

  /** One directory becomes something that it may become; all others are settled as they are. */
  lemma CrashOf(disk: Disk, dir: Ino, d': Dir) returns (disk': Disk)
    requires dir in disk.dirs && Survives(disk.dirs[dir], d') && forall i :: i in disk.dirs ==> DirOk(disk.dirs[i])
    ensures Crash(disk, disk') && disk'.dirs[dir] == d'
  {
    disk' := Disk(disk.files, (map i | i in disk.dirs :: Settle(disk.dirs[i]))[dir := d']);
    forall i | i in disk.dirs
      ensures Survives(disk.dirs[i], Settle(disk.dirs[i]))
    {
    }
    hide DirOk, Survives, Settle;
  }

  lemma CertainAndOne(d: Dir, name: Name, ino: Ino)
    requires DirOk(d) && name !in d.certain && (name, ino) in d.possible
    ensures Survives(d, Settle(Dir(d.certain[name := ino], map[], {})))
  {
  }

  lemma OnlyCertain(d: Dir)
    requires DirOk(d)
    ensures Survives(d, Settle(Dir(d.certain, map[], {})))
  {
  }

  // ---------- Verification of a generation ----------

  /** The database that a manifest declares: its length and digest. */
  const DeclaredDatabase: Bytes -> Option<(nat, Digest)>

  /** The manifest that a completion marker names. */
  const NamedManifest: Bytes -> Option<Digest>

  predicate IsDeclared(manifest: Bytes, database: Bytes) {
    DeclaredDatabase(manifest) == Some((|database|, Sha256(database)))
  }

  datatype Report = NotFound | Incomplete | Damaged | Verified

  const MEMBERS: set<Name> := {DatabaseFile, ManifestFile, MarkerFile}

  predicate HasMembers(disk: Disk, dir: Ino, names: set<Name>) {
    && dir in disk.dirs && disk.dirs[dir].entries.Keys == names
    && forall n :: n in names ==> disk.dirs[dir].entries[n] in disk.files
  }

  function Content(disk: Disk, dir: Ino, name: Name): Bytes
    requires dir in disk.dirs && name in disk.dirs[dir].entries && disk.dirs[dir].entries[name] in disk.files
  {
    disk.files[disk.dirs[dir].entries[name]].bytes
  }

  /** The three members fit together and to the expected manifest. */
  predicate Complete(disk: Disk, dir: Ino, expected: Digest) {
    && HasMembers(disk, dir, MEMBERS)
    && Sha256(Content(disk, dir, ManifestFile)) == expected
    && NamedManifest(Content(disk, dir, MarkerFile)) == Some(expected)
    && IsDeclared(Content(disk, dir, ManifestFile), Content(disk, dir, DatabaseFile))
  }

  /** What verifying the generation of this name reports. */
  function Verify(disk: Disk, name: Name, expected: Digest): Report
    requires ROOT in disk.dirs
  {
    var root := disk.dirs[ROOT];
    if name !in root.entries || root.entries[name] !in disk.dirs then NotFound
    else
      var dir := root.entries[name];
      var members := disk.dirs[dir].entries.Keys;
      if |members| > 3 then Damaged
      else if !(MEMBERS <= members) then Incomplete
      else if Complete(disk, dir, expected) then Verified
      else Damaged
  }
}
