/** What holds of an operation and the disk between any two steps. */
module PublicationInvariant {
  import opened Records
  import opened Volume
  import opened Publication

  // ---------- The inodes of an operation ----------

  predicate Used(disk: Disk, ino: Ino) { !Unused(disk, ino) }

  /** An operation writes only what it has made itself, and the root. */
  ghost predicate Holdings(disk: Disk, o: Job) {
    && o.target.Public? && DiskOk(disk)
    && ROOT !in o.owned && (forall i :: i in o.owned ==> Used(disk, i))
    && o.touched <= o.owned + {ROOT}
    && (o.pc == 0 ==> o.owned == {} && o.touched == {})
    && (HasScratch(o) ==> o.scratch in o.owned && o.scratch in disk.dirs && o.scratchName.Temporary?)
    && (HasCopy(o) ==> o.copy in o.owned && o.copy in disk.files)
    && (At(o) > 0 ==> o.dir in o.owned && o.dir in disk.dirs && Linked(disk, ROOT, o.target, o.dir))
    && (At(o) > TempAt(o) ==> o.temp in o.owned && o.temp in disk.dirs && o.temp != o.dir && o.tempName.Temporary?)
    && (forall m :: m in o.made ==> o.made[m] in o.owned && o.made[m] in disk.files)
    && (forall m, n :: m in o.made && n in o.made && o.made[m] == o.made[n] ==> m == n)
    && Separate(o)
  }

  /** The private directory and file of a creation are made. */
  predicate HasScratch(o: Job) { Stages(o) && o.pc > 1 }
  predicate HasCopy(o: Job) { Stages(o) && o.pc > 2 }

  /** They are none of the directories and files of the generation. */
  predicate Separate(o: Job) {
    && (HasScratch(o) && At(o) > 0 ==> o.scratch != o.dir)
    && (HasScratch(o) && At(o) > TempAt(o) ==> o.scratch != o.temp)
    && (HasCopy(o) ==> forall m :: m in o.made ==> o.made[m] != o.copy)
  }

  predicate Linked(disk: Disk, dir: Ino, name: Name, ino: Ino) {
    dir in disk.dirs && name in disk.dirs[dir].entries && disk.dirs[dir].entries[name] == ino
  }

  predicate Certain(disk: Disk, dir: Ino, name: Name, ino: Ino) {
    dir in disk.dirs && name in disk.dirs[dir].certain && disk.dirs[dir].certain[name] == ino
  }

  predicate Has(entries: map<Name, Ino>, o: Job, member: Name) {
    member in o.made && member in entries && entries[member] == o.made[member]
  }

  predicate Filled(files: map<Ino, File>, o: Job, member: Name) {
    member in o.made && o.made[member] in files && Right(o, member, files[o.made[member]].bytes)
  }

  predicate Synced(files: map<Ino, File>, o: Job, member: Name) {
    Filled(files, o, member) && files[o.made[member]].synced
  }

  // ---------- Sealing ----------

  /** Which members have been created. */
  predicate SealMade(o: Job) {
    o.made.Keys == if At(o) > 11 then {DatabaseFile, ManifestFile, MarkerFile}
                   else if At(o) > 4 then {DatabaseFile, ManifestFile} else if At(o) > 1 then {DatabaseFile} else {}
  }

  /** The bytes of the members, by position in the program. */
  predicate SealFiles(o: Job, files: map<Ino, File>) {
    && (At(o) > 2 ==> Filled(files, o, DatabaseFile)) && (At(o) > 3 ==> Synced(files, o, DatabaseFile))
    && (At(o) > 5 ==> Filled(files, o, ManifestFile)) && (At(o) > 6 ==> Synced(files, o, ManifestFile))
    && (At(o) > 12 ==> Filled(files, o, MarkerFile)) && (At(o) > 13 ==> Synced(files, o, MarkerFile))
  }

  /** The names that a generation can have at all. The marker appears only by the publishing link. */
  predicate SealEntry(o: Job, e: (Name, Ino)) {
    && e.0 in o.made && o.made[e.0] == e.1
    && (e.0 == MarkerFile ==> At(o) > 14)
  }

  /** The generation directory, by position in the program. */
  predicate SealDir(o: Job, g: Dir) {
    && (At(o) > 1 ==> Has(g.entries, o, DatabaseFile)) && (At(o) > 4 ==> Has(g.entries, o, ManifestFile))
    && (At(o) > 14 ==> Has(g.entries, o, MarkerFile))
    && (At(o) > 8 ==> Has(g.certain, o, DatabaseFile) && Has(g.certain, o, ManifestFile))
    && (At(o) > 17 ==> Has(g.certain, o, MarkerFile))
    && forall e :: e in g.possible ==> SealEntry(o, e)
  }

  // ---------- Restoring ----------

  predicate RestoreMade(o: Job) { o.made.Keys == if At(o) > 2 then {DatabaseFile} else {} }

  predicate RestoreFiles(o: Job, files: map<Ino, File>) {
    (At(o) > 3 ==> Filled(files, o, DatabaseFile)) && (At(o) > 4 ==> Synced(files, o, DatabaseFile))
  }

  /** The public database appears only by the publishing link. */
  predicate RestoreEntry(o: Job, e: (Name, Ino)) {
    (e.0.Temporary? && At(o) > 1) || (e.0 == DatabaseFile && At(o) > 7 && DatabaseFile in o.made && e.1 == o.made[DatabaseFile])
  }

  predicate RestoreDir(o: Job, g: Dir) {
    && (At(o) > 7 ==> Has(g.entries, o, DatabaseFile))
    && (At(o) > 10 ==> Has(g.certain, o, DatabaseFile))
    && (forall n :: n in g.entries ==> n == DatabaseFile || (n == o.tempName && 1 < At(o) <= 9))
    && forall e :: e in g.possible ==> RestoreEntry(o, e)
  }

  // ---------- Both ----------

  predicate MadeInOrder(o: Job) { if o.protocol.Seal? then SealMade(o) else RestoreMade(o) }

  predicate FilesInOrder(o: Job, files: map<Ino, File>) {
    if o.protocol.Seal? then SealFiles(o, files) else RestoreFiles(o, files)
  }

  predicate DirInOrder(o: Job, g: Dir) { if o.protocol.Seal? then SealDir(o, g) else RestoreDir(o, g) }

  /** The private directories hold no names but those of members made there. */
  predicate ScratchesInOrder(disk: Disk, o: Job) {
    && (HasScratch(o) && !HasCopy(o) ==> o.scratch in disk.dirs && disk.dirs[o.scratch].entries == map[])
    && (At(o) > TempAt(o) ==> o.temp in disk.dirs && forall n :: n in disk.dirs[o.temp].entries ==> n in o.made)
  }

  /** The position after which the name of the target is certain. */
  function RootSynced(o: Job): nat { if o.protocol.Restore? then 11 else 9 }

  ghost predicate InPlace(disk: Disk, o: Job) {
    && Holdings(disk, o) && o.pc <= Calls(o)
    && MadeInOrder(o) && FilesInOrder(o, disk.files) && ScratchesInOrder(disk, o)
    && (At(o) > 0 ==> o.dir in disk.dirs && DirInOrder(o, disk.dirs[o.dir]))
    && (At(o) > RootSynced(o) ==> Certain(disk, ROOT, o.target, o.dir))
  }

  // ---------- What is reported ----------

  predicate Reported(o: Job) {
    && (o.outcome.None? ==> o.pc < Calls(o) && (o.attempted <==> At(o) > PublishAt(o)))
    && (o.outcome == Some(Published) ==> o.pc == Calls(o))
    && (o.outcome == Some(NotPublished) ==> At(o) <= PublishAt(o))
    && (o.outcome == Some(TargetExists) ==> At(o) <= 0 || (o.collided && o.protocol.Seal? && At(o) == TempAt(o)))
    && (o.outcome == Some(Ambiguous) ==> At(o) >= PublishAt(o))
  }

  lemma FreshHolds(disk: Disk, o: Job)
    requires DiskOk(disk) && Fresh(o)
    ensures InPlace(disk, o) && Reported(o)
  {
  }

  // ---------- One call keeps the order of members, files and directory ----------

  /** `n` is `o` after one more call that made `made` of its inodes. */
  predicate Next(o: Job, n: Job, made: map<Name, Ino>) {
    && n.protocol == o.protocol && n.manifest == o.manifest && n.marker == o.marker
    && n.pc == o.pc + 1 && n.made == made && (At(o) > TempAt(o) ==> n.tempName == o.tempName)
  }

  /** Where members are created. */
  lemma CreatesAt(o: Job)
    requires Running(o)
    ensures o.protocol.Seal? ==> (Current(o).Create? <==> At(o) == 1 || At(o) == 4 || At(o) == 11)
    ensures o.protocol.Seal? && At(o) == 1 ==> Current(o) == Create(DatabaseFile)
    ensures o.protocol.Seal? && At(o) == 4 ==> Current(o) == Create(ManifestFile)
    ensures o.protocol.Seal? && At(o) == 11 ==> Current(o) == Create(MarkerFile)
    ensures o.protocol.Restore? ==> (Current(o).Create? <==> At(o) == 2)
    ensures o.protocol.Restore? && At(o) == 2 ==> Current(o) == Create(DatabaseFile)
  {
  }

  lemma MadeKeeps(o: Job, c: Choice)
    requires MadeInOrder(o) && Running(o)
    ensures MadeInOrder(Advance(o, Current(o), c))
  {
    hide Current, Running;
    CreatesAt(o);
    Positions(o);
    NextAdvance(o, Current(o), c);
    hide Advance;
  }

  lemma FilesAfterCreate(o: Job, n: Job, files: map<Ino, File>, m: Name, ino: Ino)
    requires FilesInOrder(o, files) && MadeInOrder(o) && Running(o) && Current(o) == Create(m)
    requires ino !in files && Next(o, n, o.made[m := ino])
    ensures FilesInOrder(n, files[ino := File([], false)])
  {
    hide Right;
    RightSame(o, n);
  }

  lemma FilesAfterFill(o: Job, n: Job, files: map<Ino, File>, m: Name)
    requires FilesInOrder(o, files) && MadeInOrder(o) && Running(o) && Current(o) == Fill(m)
    requires Filled(files, o, m) && Next(o, n, o.made)
    ensures FilesInOrder(n, files)
  {
    hide Right;
    RightSame(o, n);
  }

  lemma RightSame(o: Job, n: Job)
    requires n.manifest == o.manifest && n.marker == o.marker
    ensures forall m, bytes :: Right(n, m, bytes) <==> Right(o, m, bytes)
  {
  }

  lemma FilesAfterSync(o: Job, n: Job, files: map<Ino, File>, m: Name)
    requires FilesInOrder(o, files) && MadeInOrder(o) && Running(o) && Current(o) == SyncMember(m)
    requires m in o.made && o.made[m] in files && Next(o, n, o.made)
    requires forall k, l :: k in o.made && l in o.made && o.made[k] == o.made[l] ==> k == l
    ensures FilesInOrder(n, files[o.made[m] := files[o.made[m]].(synced := true)])
  {
    hide Right;
    RightSame(o, n);
  }

  lemma FilesAfterOther(o: Job, n: Job, files: map<Ino, File>)
    requires FilesInOrder(o, files) && MadeInOrder(o) && Running(o) && Next(o, n, o.made)
    requires !Current(o).Create? && !Current(o).Fill? && !Current(o).SyncMember?
    ensures FilesInOrder(n, files)
  {
    hide Right;
    RightSame(o, n);
  }

  lemma DirAfterCreate(o: Job, n: Job, g: Dir, m: Name, ino: Ino)
    requires DirInOrder(o, g) && MadeInOrder(o) && Running(o) && Current(o) == Create(m) && At(o) > 0
    requires Next(o, n, o.made[m := ino])
    ensures DirInOrder(n, if o.protocol.Seal? && m != MarkerFile then AddEntry(g, m, ino) else g)
  {
  }

  lemma DirAfterSync(o: Job, n: Job, g: Dir)
    requires DirInOrder(o, g) && MadeInOrder(o) && Running(o) && Current(o) == SyncTarget && DirOk(g)
    requires Next(o, n, o.made)
    ensures DirInOrder(n, Settle(g))
  {
    SyncPositions(o);
    hide Current, Running;
  }

  lemma SyncPositions(o: Job)
    requires Running(o) && Current(o) == SyncTarget
    ensures if o.protocol.Seal? then At(o) == 8 || At(o) == 17 else At(o) == 10
  {
  }

  lemma DirAfterPublish(o: Job, n: Job, g: Dir, m: Name)
    requires DirInOrder(o, g) && MadeInOrder(o) && Running(o) && Current(o) == Publish(m)
    requires Next(o, n, o.made)
    ensures DirInOrder(n, AddEntry(g, m, o.made[m]))
  {
  }

  /** Making and removing the private directory of a restore happens inside the target. */
  lemma DirAfterTemp(o: Job, n: Job, g: Dir, name: Name, ino: Ino)
    requires DirInOrder(o, g) && MadeInOrder(o) && Running(o) && At(o) > 0 && o.protocol.Restore? && name.Temporary?
    requires Next(o, n, o.made) && n.tempName == name
    ensures Current(o) == MakeTemp ==> DirInOrder(n, AddEntry(g, name, ino))
    ensures Current(o) == RemoveTemp ==> DirInOrder(n, RemoveEntry(g, name))
  {
  }

  lemma DirAfterOther(o: Job, n: Job, g: Dir)
    requires DirInOrder(o, g) && MadeInOrder(o) && Running(o) && At(o) > 0 && Next(o, n, o.made)
    requires !Current(o).Create? && !Current(o).Publish? && Current(o) != SyncTarget
    requires o.protocol.Restore? ==> Current(o) != MakeTemp && Current(o) != RemoveTemp
    ensures DirInOrder(n, g)
  {
  }

  // ---------- One call keeps directories well formed and holdings exclusive ----------

  lemma DirsOk(d: Dir, name: Name, ino: Ino)
    requires DirOk(d)
    ensures name !in d.entries ==> DirOk(AddEntry(d, name, ino))
    ensures DirOk(RemoveEntry(d, name)) && DirOk(Settle(d)) && DirOk(NEW_DIR)
  {
  }

  lemma SetDirOk(disk: Disk, ino: Ino, d: Dir)
    requires DiskOk(disk) && DirOk(d)
    ensures DiskOk(SetDir(disk, ino, d))
  {
    hide DirOk;
  }

  lemma SetFileOk(disk: Disk, ino: Ino, f: File)
    requires DiskOk(disk)
    ensures DiskOk(SetFile(disk, ino, f))
  {
    hide DirOk;
  }

  lemma MakeDirOk(disk: Disk, parent: Ino, name: Name, ino: Ino)
    requires DiskOk(disk) && parent in disk.dirs && Unused(disk, ino) && name !in disk.dirs[parent].entries
    ensures DiskOk(MakeDir(disk, parent, name, ino))
  {
    hide DirOk, AddEntry;
    DirsOk(disk.dirs[parent], name, ino);
  }

  lemma EffectOk(disk: Disk, o: Job, a: Action, c: Choice)
    requires DiskOk(disk) && Enabled(disk, o, a, c)
    ensures DiskOk(Effect(disk, o, a, c))
  {
    hide DirOk, AddEntry, RemoveEntry, Settle, DiskOk, SetDir, SetFile, Complete, HasMembers, IsDeclared;
    DiskOkMeans(disk);
    match a
    case MakeScratch => MakeDirOk(disk, ROOT, Temporary(c.token), c.ino);
    case CreateCopy =>
      DirsOk(disk.dirs[o.scratch], DatabaseFile, c.ino);
      SetFileOk(disk, c.ino, File([], false));
      SetDirOk(SetFile(disk, c.ino, File([], false)), o.scratch, AddEntry(disk.dirs[o.scratch], DatabaseFile, c.ino));
    case MakeTarget => MakeDirOk(disk, ROOT, o.target, c.ino);
    case MakeTemp => MakeDirOk(disk, TempParent(o), Temporary(c.token), c.ino);
    case Create(m) =>
      DirsOk(disk.dirs[Where(o, m)], m, c.ino);
      SetFileOk(disk, c.ino, File([], false));
      SetDirOk(SetFile(disk, c.ino, File([], false)), Where(o, m), AddEntry(disk.dirs[Where(o, m)], m, c.ino));
    case SyncMember(m) => SetFileOk(disk, o.made[m], disk.files[o.made[m]].(synced := true));
    case SyncTarget =>
      DirsOk(disk.dirs[o.dir], ManifestFile, 0);
      SetDirOk(disk, o.dir, Settle(disk.dirs[o.dir]));
    case SyncRoot =>
      DirsOk(disk.dirs[ROOT], ManifestFile, 0);
      SetDirOk(disk, ROOT, Settle(disk.dirs[ROOT]));
    case Publish(m) =>
      DirsOk(disk.dirs[o.dir], m, o.made[m]);
      SetDirOk(disk, o.dir, AddEntry(disk.dirs[o.dir], m, o.made[m]));
    case RemoveStaged(m) =>
      DirsOk(disk.dirs[o.temp], m, 0);
      SetDirOk(disk, o.temp, RemoveEntry(disk.dirs[o.temp], m));
    case RemoveTemp =>
      DirsOk(disk.dirs[TempParent(o)], o.tempName, 0);
      SetDirOk(disk, TempParent(o), RemoveEntry(disk.dirs[TempParent(o)], o.tempName));
    case RemoveCopy =>
      DirsOk(disk.dirs[o.scratch], DatabaseFile, 0);
      SetDirOk(disk, o.scratch, RemoveEntry(disk.dirs[o.scratch], DatabaseFile));
    case RemoveScratch =>
      DirsOk(disk.dirs[ROOT], o.scratchName, 0);
      SetDirOk(disk, ROOT, RemoveEntry(disk.dirs[ROOT], o.scratchName));
    case _ =>
  }

  lemma DiskOkMeans(disk: Disk)
    requires DiskOk(disk)
    ensures ROOT in disk.dirs && forall i :: i in disk.dirs ==> DirOk(disk.dirs[i])
  {
    hide DirOk;
  }

  /** What a step of `o` may change on the disk: nothing outside its own inodes, except that the root
      gains names, loses private ones, or is synchronized. */
  ghost predicate Confined(disk: Disk, disk': Disk, owned: set<Ino>) {
    && ROOT in disk.dirs && DiskOk(disk')
    && (forall i :: i in disk.files && i !in owned ==> i in disk'.files && disk'.files[i] == disk.files[i])
    && (forall i :: i in disk.dirs && i !in owned && i != ROOT ==> i in disk'.dirs && disk'.dirs[i] == disk.dirs[i])
    && (forall i :: Used(disk, i) ==> Used(disk', i))
    && (forall i :: Used(disk', i) && !Used(disk, i) ==> i in owned)
    && RootKept(disk.dirs[ROOT], disk'.dirs[ROOT])
  }

  /** Public names stay, and stay certain. */
  predicate RootKept(r: Dir, r': Dir) {
    && (forall n :: n in r.entries && n.Public? ==> n in r'.entries && r'.entries[n] == r.entries[n])
    && (forall n :: n in r.certain && n.Public? ==> n in r'.certain && r'.certain[n] == r.certain[n])
  }

  lemma RootChanges(r: Dir, name: Name, ino: Ino)
    requires DirOk(r)
    ensures name !in r.entries ==> RootKept(r, AddEntry(r, name, ino))
    ensures !name.Public? ==> RootKept(r, RemoveEntry(r, name))
    ensures RootKept(r, Settle(r)) && RootKept(r, r)
  {
  }

  /** Changing a directory: one of the operation's own, or the root without losing public names. */
  lemma ConfinedDir(disk: Disk, i: Ino, d: Dir, owned: set<Ino>)
    requires ROOT in disk.dirs && i in disk.dirs && DiskOk(SetDir(disk, i, d)) && ROOT !in owned
    requires i in owned || (i == ROOT && RootKept(disk.dirs[ROOT], d))
    ensures Confined(disk, SetDir(disk, i, d), owned)
  {
    hide DirOk;
  }

  lemma ConfinedFile(disk: Disk, i: Ino, f: File, owned: set<Ino>)
    requires ROOT in disk.dirs && DiskOk(SetFile(disk, i, f)) && i in owned && ROOT !in owned
    ensures Confined(disk, SetFile(disk, i, f), owned)
  {
    hide DirOk;
  }

  lemma ConfinedMakeDir(disk: Disk, parent: Ino, name: Name, ino: Ino, owned: set<Ino>)
    requires DiskOk(disk) && parent in disk.dirs && Unused(disk, ino) && name !in disk.dirs[parent].entries
    requires ino in owned && ROOT !in owned && (parent in owned || parent == ROOT)
    ensures Confined(disk, MakeDir(disk, parent, name, ino), owned)
  {
    MakeDirOk(disk, parent, name, ino);
    DiskOkMeans(disk);
    RootChanges(disk.dirs[ROOT], name, ino);
    hide DirOk, AddEntry, RootKept, DiskOk;
  }

  lemma ConfinedMakeFile(disk: Disk, dir: Ino, name: Name, ino: Ino, owned: set<Ino>)
    requires ROOT in disk.dirs && dir in disk.dirs && Unused(disk, ino) && DiskOk(MakeFile(disk, dir, name, ino))
    requires ino in owned && ROOT !in owned && dir in owned
    ensures Confined(disk, MakeFile(disk, dir, name, ino), owned)
  {
    hide DirOk, AddEntry;
  }

  /** The new directory or file is made in the root or in a directory of the operation. */
  lemma MakingConfined(disk: Disk, o: Job, a: Action, c: Choice)
    requires DiskOk(disk) && Enabled(disk, o, a, c) && ROOT !in o.owned
    requires a.MakeScratch? || a.CreateCopy? || a.MakeTarget? || a.MakeTemp? || a.Create?
    requires a.CreateCopy? ==> o.scratch in o.owned
    requires a.MakeTemp? && o.protocol.Restore? ==> o.dir in o.owned
    requires a.Create? ==> Where(o, a.member) in o.owned
    ensures Confined(disk, Effect(disk, o, a, c), Advance(o, a, c).owned)
  {
    hide Confined, MakeDir, MakeFile, DiskOk, Complete, HasMembers, IsDeclared;
    DiskOkMeans(disk);
    EffectOk(disk, o, a, c);
    var owned := Advance(o, a, c).owned;
    match a
    case MakeScratch => ConfinedMakeDir(disk, ROOT, Temporary(c.token), c.ino, owned);
    case CreateCopy => ConfinedMakeFile(disk, o.scratch, DatabaseFile, c.ino, owned);
    case MakeTarget => ConfinedMakeDir(disk, ROOT, o.target, c.ino, owned);
    case MakeTemp => ConfinedMakeDir(disk, TempParent(o), Temporary(c.token), c.ino, owned);
    case Create(m) => ConfinedMakeFile(disk, Where(o, m), m, c.ino, owned);
    case _ =>
  }

  lemma SyncingConfined(disk: Disk, o: Job, a: Action, c: Choice)
    requires DiskOk(disk) && Enabled(disk, o, a, c) && ROOT !in o.owned && (a.SyncMember? || a.SyncTarget? || a.SyncRoot?)
    requires a.SyncMember? && a.member in o.made ==> o.made[a.member] in o.owned
    requires a.SyncTarget? ==> o.dir in o.owned
    ensures Confined(disk, Effect(disk, o, a, c), Advance(o, a, c).owned)
  {
    hide Confined, SetDir, SetFile, DiskOk, DirOk, RootKept, Complete, HasMembers, IsDeclared;
    DiskOkMeans(disk);
    EffectOk(disk, o, a, c);
    RootChanges(disk.dirs[ROOT], o.tempName, c.ino);
    match a
    case SyncMember(m) => ConfinedFile(disk, o.made[m], disk.files[o.made[m]].(synced := true), o.owned);
    case SyncTarget => ConfinedDir(disk, o.dir, Settle(disk.dirs[o.dir]), o.owned);
    case SyncRoot => ConfinedDir(disk, ROOT, Settle(disk.dirs[ROOT]), o.owned);
    case _ =>
  }

  lemma LinkingConfined(disk: Disk, o: Job, a: Action, c: Choice)
    requires DiskOk(disk) && Enabled(disk, o, a, c) && ROOT !in o.owned
    requires a.Publish? || a.RemoveStaged? || a.RemoveTemp? || a.RemoveCopy? || a.RemoveScratch?
    requires a.RemoveCopy? ==> o.scratch in o.owned
    requires a.RemoveScratch? ==> o.scratchName.Temporary?
    requires a.Publish? || (a.RemoveTemp? && o.protocol.Restore?) ==> o.dir in o.owned
    requires a.RemoveStaged? ==> o.temp in o.owned
    requires a.RemoveTemp? ==> o.tempName.Temporary?
    ensures Confined(disk, Effect(disk, o, a, c), Advance(o, a, c).owned)
  {
    hide Confined, SetDir, DiskOk, DirOk, RootKept, Complete, HasMembers, IsDeclared;
    DiskOkMeans(disk);
    EffectOk(disk, o, a, c);
    RootChanges(disk.dirs[ROOT], o.tempName, c.ino);
    RootChanges(disk.dirs[ROOT], o.scratchName, c.ino);
    match a
    case RemoveCopy => ConfinedDir(disk, o.scratch, RemoveEntry(disk.dirs[o.scratch], DatabaseFile), o.owned);
    case RemoveScratch => ConfinedDir(disk, ROOT, RemoveEntry(disk.dirs[ROOT], o.scratchName), o.owned);
    case Publish(m) => ConfinedDir(disk, o.dir, AddEntry(disk.dirs[o.dir], m, o.made[m]), o.owned);
    case RemoveStaged(m) => ConfinedDir(disk, o.temp, RemoveEntry(disk.dirs[o.temp], m), o.owned);
    case RemoveTemp => ConfinedDir(disk, TempParent(o), RemoveEntry(disk.dirs[TempParent(o)], o.tempName), o.owned);
    case _ =>
  }

  lemma CheckingConfined(disk: Disk, o: Job, a: Action, c: Choice)
    requires DiskOk(disk) && Enabled(disk, o, a, c) && (a.Fill? || a.ReadBack? || a.FinalCheck? || a.CheckAbsent? || a.FillCopy?)
    ensures Confined(disk, Effect(disk, o, a, c), Advance(o, a, c).owned)
  {
    hide Confined, Enabled;
    ConfinedNothing(disk, o.owned);
  }

  lemma EffectConfined(disk: Disk, o: Job, c: Choice)
    requires InPlace(disk, o) && Running(o) && Enabled(disk, o, Current(o), c)
    ensures Confined(disk, Effect(disk, o, Current(o), c), Advance(o, Current(o), c).owned)
  {
    hide *;
    InPlaceMeans(disk, o);
    OwnedMeans(disk, o);
    Positions(o);
    TempParentIs(o);
    var a := Current(o);
    match a
    case MakeScratch => MakingConfined(disk, o, a, c);
    case CreateCopy => MakingConfined(disk, o, a, c);
    case RemoveCopy => LinkingConfined(disk, o, a, c);
    case RemoveScratch => LinkingConfined(disk, o, a, c);
    case MakeTarget => MakingConfined(disk, o, a, c);
    case MakeTemp => MakingConfined(disk, o, a, c);
    case Create(_) => MakingConfined(disk, o, a, c);
    case SyncMember(_) => SyncingConfined(disk, o, a, c);
    case SyncTarget => SyncingConfined(disk, o, a, c);
    case SyncRoot => SyncingConfined(disk, o, a, c);
    case Publish(_) => LinkingConfined(disk, o, a, c);
    case RemoveStaged(_) => LinkingConfined(disk, o, a, c);
    case RemoveTemp => LinkingConfined(disk, o, a, c);
    case _ => CheckingConfined(disk, o, a, c);
  }

  lemma TempParentIs(o: Job)
    ensures o.protocol.Restore? ==> TempAt(o) > 0
    ensures PublishAt(o) > 0
  {
  }

  lemma ConfinedNothing(disk: Disk, owned: set<Ino>)
    requires DiskOk(disk)
    ensures Confined(disk, disk, owned)
  {
    hide DirOk;
  }

  /** Is the member first made in the private directory? */
  predicate Staged(o: Job, member: Name) { o.protocol.Restore? || member == MarkerFile }

  /** Where in the program each kind of call stands. */
  lemma Positions(o: Job)
    requires Running(o)
    ensures Current(o).MakeTarget? <==> At(o) == 0
    ensures Current(o).MakeTemp? <==> At(o) == TempAt(o)
    ensures Current(o).Create? ==> At(o) > 0
    ensures Current(o).Create? ==> Where(o, Current(o).member) == if Staged(o, Current(o).member) then o.temp else o.dir
    ensures Current(o).Create? && Staged(o, Current(o).member) ==> At(o) > TempAt(o)
    ensures Current(o).SyncTarget? || Current(o).Publish? ==> At(o) > 0
    ensures Current(o).RemoveStaged? || Current(o).RemoveTemp? ==> At(o) > TempAt(o)
    ensures Current(o).Publish? <==> At(o) == PublishAt(o)
    ensures Current(o).CreateCopy? || Current(o).RemoveCopy? || Current(o).RemoveScratch? || Current(o).FillCopy? ==> HasScratch(o)
    ensures Current(o).FillCopy? || Current(o).RemoveCopy? || Current(o).RemoveScratch? ==> HasCopy(o)
    ensures Current(o).MakeScratch? <==> Stages(o) && o.pc == 1
    ensures Current(o).CreateCopy? <==> Stages(o) && o.pc == 2
  {
  }

  lemma KeysGrow(disk: Disk, o: Job, a: Action, c: Choice)
    requires Enabled(disk, o, a, c)
    ensures var d := Effect(disk, o, a, c);
            && disk.dirs.Keys <= d.dirs.Keys && disk.files.Keys <= d.files.Keys
            && (a.MakeScratch? || a.MakeTarget? || a.MakeTemp? ==> c.ino in d.dirs)
            && (a.CreateCopy? || a.Create? ==> c.ino in d.files)
  {
    hide AddEntry, RemoveEntry, Settle, Complete, HasMembers, IsDeclared;
  }

  lemma HoldingsAfter(disk: Disk, o: Job, c: Choice)
    requires InPlace(disk, o) && Running(o) && Enabled(disk, o, Current(o), c)
    ensures Holdings(Effect(disk, o, Current(o), c), Advance(o, Current(o), c))
  {
    hide *;
    var d, n := Effect(disk, o, Current(o), c), Advance(o, Current(o), c);
    EffectConfined(disk, o, c);
    OwnedAfter(disk, o, c);
    DirsAfter(disk, o, c);
    MembersAfter(disk, o, c);
    ScratchAfter(disk, o, c);
    SeparateAfter(disk, o, c);
    CopyPositions(o);
    NextAdvance(o, Current(o), c);
    NextMeans(o, n);
    if At(n) > 0 {
      TargetStays(disk, o, c);
    }
    ConfinedDisk(disk, d, n.owned);
    HoldingsFrom(d, n);
  }

  lemma ConfinedDisk(disk: Disk, disk': Disk, owned: set<Ino>)
    requires Confined(disk, disk', owned)
    ensures DiskOk(disk')
  {
    hide RootKept, DiskOk;
  }

  lemma HoldingsFrom(d: Disk, n: Job)
    requires n.target.Public? && DiskOk(d) && ROOT !in n.owned && (forall i :: i in n.owned ==> Used(d, i))
    requires n.touched <= n.owned + {ROOT} && n.pc > 0
    requires HasScratch(n) ==> n.scratch in n.owned && n.scratch in d.dirs && n.scratchName.Temporary?
    requires HasCopy(n) ==> n.copy in n.owned && n.copy in d.files
    requires At(n) > 0 ==> n.dir in n.owned && n.dir in d.dirs && Linked(d, ROOT, n.target, n.dir)
    requires At(n) > TempAt(n) ==> n.temp in n.owned && n.temp in d.dirs && n.temp != n.dir && n.tempName.Temporary?
    requires forall m :: m in n.made ==> n.made[m] in n.owned && n.made[m] in d.files
    requires forall m, k :: m in n.made && k in n.made && n.made[m] == n.made[k] ==> m == k
    requires Separate(n)
    ensures Holdings(d, n)
  {
    hide Used, Separate, Linked, DiskOk, At, TempAt, HasScratch, HasCopy;
  }

  /** The private directory and file of a creation. */
  lemma ScratchAfter(disk: Disk, o: Job, c: Choice)
    requires InPlace(disk, o) && Running(o) && Enabled(disk, o, Current(o), c)
    ensures var n, d := Advance(o, Current(o), c), Effect(disk, o, Current(o), c);
            && (HasScratch(n) ==> n.scratch in n.owned && n.scratch in d.dirs && n.scratchName.Temporary?)
            && (HasCopy(n) ==> n.copy in n.owned && n.copy in d.files)
  {
    hide *;
    OwnedMeans(disk, o);
    CopyPositions(o);
    KeysGrow(disk, o, Current(o), c);
    ScratchFrom(o, Current(o), c, Effect(disk, o, Current(o), c).dirs.Keys, Effect(disk, o, Current(o), c).files.Keys);
  }

  lemma ScratchFrom(o: Job, a: Action, c: Choice, dirs: set<Ino>, files: set<Ino>)
    requires HasScratch(o) ==> o.scratch in o.owned && o.scratch in dirs && o.scratchName.Temporary?
    requires HasCopy(o) ==> o.copy in o.owned && o.copy in files
    requires (a.MakeScratch? <==> Stages(o) && o.pc == 1) && (a.CreateCopy? <==> Stages(o) && o.pc == 2)
    requires (a.MakeScratch? ==> c.ino in dirs) && (a.CreateCopy? ==> c.ino in files)
    ensures var n := Advance(o, a, c);
            && (HasScratch(n) ==> n.scratch in n.owned && n.scratch in dirs && n.scratchName.Temporary?)
            && (HasCopy(n) ==> n.copy in n.owned && n.copy in files)
  {
    AdvanceNames(o, a, c);
    hide Advance;
  }

  lemma SeparateAfter(disk: Disk, o: Job, c: Choice)
    requires InPlace(disk, o) && Running(o) && Enabled(disk, o, Current(o), c)
    ensures Separate(Advance(o, Current(o), c))
  {
    hide *;
    OwnedMeans(disk, o);
    CopyPositions(o);
    NewNames(disk, o, Current(o), c);
    UsedIsNotUnused(disk);
    MadeFirst(disk, o);
    SeparateFrom(o, Current(o), c);
  }

  lemma UsedIsNotUnused(disk: Disk)
    ensures forall i :: Used(disk, i) <==> !Unused(disk, i)
  {
  }

  lemma CopyPositions(o: Job)
    requires Running(o)
    ensures Current(o).MakeScratch? ==> Stages(o) && o.pc == 1
    ensures Current(o).CreateCopy? ==> Stages(o) && o.pc == 2
    ensures Stages(o) && o.pc == 1 ==> Current(o).MakeScratch?
    ensures Stages(o) && o.pc == 2 ==> Current(o).CreateCopy?
    ensures Current(o).MakeTarget? <==> At(o) == 0
    ensures Current(o).MakeTemp? <==> At(o) == TempAt(o)
    ensures Current(o).Create? ==> At(o) > 0
  {
  }

  /** Something new is none of what there was. */
  lemma SeparateFrom(o: Job, a: Action, c: Choice)
    requires Separate(o) && (At(o) <= 1 ==> o.made == map[])
    requires a.MakeScratch? || a.CreateCopy? || a.MakeTarget? || a.MakeTemp? || a.Create? ==> c.ino !in o.owned
    requires HasScratch(o) ==> o.scratch in o.owned
    requires HasCopy(o) ==> o.copy in o.owned
    requires At(o) > 0 ==> o.dir in o.owned
    requires At(o) > TempAt(o) ==> o.temp in o.owned
    requires a.MakeScratch? ==> Stages(o) && o.pc == 1
    requires a.CreateCopy? ==> Stages(o) && o.pc == 2
    requires Stages(o) && o.pc == 1 ==> a.MakeScratch?
    requires Stages(o) && o.pc == 2 ==> a.CreateCopy?
    requires a.MakeTarget? <==> At(o) == 0
    requires a.MakeTemp? <==> At(o) == TempAt(o)
    requires forall m :: m in o.made ==> o.made[m] in o.owned
    ensures Separate(Advance(o, a, c))
  {
    AdvanceNames(o, a, c);
    hide Advance;
  }

  lemma AdvanceNames(o: Job, a: Action, c: Choice)
    ensures var n := Advance(o, a, c);
            && n.protocol == o.protocol && n.pc == o.pc + 1
            && n.scratch == (if a.MakeScratch? then c.ino else o.scratch)
            && n.copy == (if a.CreateCopy? then c.ino else o.copy)
            && n.dir == (if a.MakeTarget? then c.ino else o.dir)
            && n.temp == (if a.MakeTemp? then c.ino else o.temp)
            && n.made == (if a.Create? then o.made[a.member := c.ino] else o.made)
            && n.owned == (if a.MakeScratch? || a.CreateCopy? || a.MakeTarget? || a.MakeTemp? || a.Create?
                           then o.owned + {c.ino} else o.owned)
            && n.tempName == (if a.MakeTemp? then Temporary(c.token) else o.tempName)
            && n.scratchName == (if a.MakeScratch? then Temporary(c.token) else o.scratchName)
  {
  }

  /** Members are made after the private copy. */
  lemma MadeFirst(disk: Disk, o: Job)
    requires InPlace(disk, o)
    ensures At(o) <= 1 ==> o.made == map[]
  {
    hide Holdings, FilesInOrder, DirInOrder, ScratchesInOrder;
  }

  lemma OwnedAfter(disk: Disk, o: Job, c: Choice)
    requires InPlace(disk, o) && Running(o) && Enabled(disk, o, Current(o), c)
    ensures var n := Advance(o, Current(o), c);
            n.target == o.target && n.target.Public? && n.pc == o.pc + 1 && ROOT !in n.owned && n.touched <= n.owned + {ROOT}
    ensures forall i :: i in Advance(o, Current(o), c).owned ==> Used(Effect(disk, o, Current(o), c), i)
  {
    hide InPlace, Holdings, Current, Enabled, Effect, DiskOk, RootKept, Running, FilesInOrder, DirInOrder, MadeInOrder, Confined, Certain;
    OwnedUsed(disk, o, c);
    OwnedNames(disk, o, c);
  }

  lemma OwnedNames(disk: Disk, o: Job, c: Choice)
    requires InPlace(disk, o) && Running(o) && Enabled(disk, o, Current(o), c)
    ensures var n := Advance(o, Current(o), c);
            n.target == o.target && n.target.Public? && n.pc == o.pc + 1 && ROOT !in n.owned && n.touched <= n.owned + {ROOT}
  {
    hide InPlace, Holdings, Current, Enabled, Effect, DiskOk, RootKept, Running, FilesInOrder, DirInOrder, MadeInOrder, Confined, Certain;
    Positions(o);
    OwnedMeans(disk, o);
    NewNames(disk, o, Current(o), c);
    TouchedAfter(o, c);
  }

  lemma TouchedAfter(o: Job, c: Choice)
    requires o.touched <= o.owned + {ROOT} && (At(o) > 0 ==> o.dir in o.owned) && (At(o) > TempAt(o) ==> o.temp in o.owned)
    requires HasScratch(o) ==> o.scratch in o.owned
    requires Running(o) && forall m :: m in o.made ==> o.made[m] in o.owned
    ensures Advance(o, Current(o), c).touched <= Advance(o, Current(o), c).owned + {ROOT}
  {
    Positions(o);
    hide Current, Running;
  }

  /** What the operation holds, without what it has put there. */
  lemma OwnedMeans(disk: Disk, o: Job)
    requires InPlace(disk, o)
    ensures o.target.Public? && ROOT in disk.dirs && ROOT !in o.owned && o.touched <= o.owned + {ROOT}
    ensures forall i :: i in o.owned ==> Used(disk, i)
    ensures At(o) > 0 ==> o.dir in o.owned && o.dir in disk.dirs
    ensures At(o) > TempAt(o) ==> o.temp in o.owned && o.temp in disk.dirs && o.temp != o.dir && o.tempName.Temporary?
    ensures forall m :: m in o.made ==> o.made[m] in o.owned && o.made[m] in disk.files
    ensures forall m, n :: m in o.made && n in o.made && o.made[m] == o.made[n] ==> m == n
    ensures HasScratch(o) ==> o.scratch in o.owned && o.scratch in disk.dirs && o.scratchName.Temporary?
    ensures HasCopy(o) ==> o.copy in o.owned && o.copy in disk.files
    ensures Separate(o)
  {
  }

  lemma OwnedUsed(disk: Disk, o: Job, c: Choice)
    requires InPlace(disk, o) && Running(o) && Enabled(disk, o, Current(o), c)
    ensures forall i :: i in Advance(o, Current(o), c).owned ==> Used(Effect(disk, o, Current(o), c), i)
  {
    hide InPlace, Holdings, Current, Enabled, Effect, DiskOk, RootKept, Running, FilesInOrder, DirInOrder, MadeInOrder, Confined, Certain;
    OwnedMeans(disk, o);
    KeysGrow(disk, o, Current(o), c);
  }

  lemma DirsAfter(disk: Disk, o: Job, c: Choice)
    requires InPlace(disk, o) && Running(o) && Enabled(disk, o, Current(o), c)
    ensures var n, d := Advance(o, Current(o), c), Effect(disk, o, Current(o), c);
            && (At(n) > 0 ==> n.dir in n.owned && n.dir in d.dirs)
            && (At(n) > TempAt(n) ==> n.temp in n.owned && n.temp in d.dirs && n.temp != n.dir && n.tempName.Temporary?)
  {
    hide *;
    OwnedMeans(disk, o);
    CopyPositions(o);
    ScratchPositions(o);
    KeysGrow(disk, o, Current(o), c);
    NewNames(disk, o, Current(o), c);
    UsedIsNotUnused(disk);
    DirsFrom(o, Current(o), c, Effect(disk, o, Current(o), c).dirs.Keys);
  }

  lemma DirsFrom(o: Job, a: Action, c: Choice, dirs: set<Ino>)
    requires At(o) > 0 ==> o.dir in o.owned && o.dir in dirs
    requires At(o) > TempAt(o) ==> o.temp in o.owned && o.temp in dirs && o.temp != o.dir && o.tempName.Temporary?
    requires (a.MakeTarget? <==> At(o) == 0) && (a.MakeTemp? <==> At(o) == TempAt(o)) && TempAt(o) > 0
    requires a.MakeTarget? || a.MakeTemp? ==> c.ino in dirs && c.ino !in o.owned
    ensures var n := Advance(o, a, c);
            && (At(n) > 0 ==> n.dir in n.owned && n.dir in dirs)
            && (At(n) > TempAt(n) ==> n.temp in n.owned && n.temp in dirs && n.temp != n.dir && n.tempName.Temporary?)
  {
    AdvanceNames(o, a, c);
    hide Advance;
  }

  lemma MembersAfter(disk: Disk, o: Job, c: Choice)
    requires InPlace(disk, o) && Running(o) && Enabled(disk, o, Current(o), c)
    ensures var n, d := Advance(o, Current(o), c), Effect(disk, o, Current(o), c);
            && (forall m :: m in n.made ==> n.made[m] in n.owned && n.made[m] in d.files)
            && (forall m, k :: m in n.made && k in n.made && n.made[m] == n.made[k] ==> m == k)
  {
    hide *;
    OwnedMeans(disk, o);
    KeysGrow(disk, o, Current(o), c);
    NewNames(disk, o, Current(o), c);
    UsedIsNotUnused(disk);
    MembersFrom(o, Current(o), c, disk.files.Keys, Effect(disk, o, Current(o), c).files.Keys);
  }

  lemma MembersFrom(o: Job, a: Action, c: Choice, before: set<Ino>, files: set<Ino>)
    requires before <= files && forall m :: m in o.made ==> o.made[m] in o.owned && o.made[m] in before
    requires forall m, k :: m in o.made && k in o.made && o.made[m] == o.made[k] ==> m == k
    requires a.Create? ==> c.ino in files && c.ino !in o.owned
    ensures var n := Advance(o, a, c);
            && (forall m :: m in n.made ==> n.made[m] in n.owned && n.made[m] in files)
            && (forall m, k :: m in n.made && k in n.made && n.made[m] == n.made[k] ==> m == k)
  {
    AdvanceNames(o, a, c);
    hide Advance;
  }

  lemma HoldingsMean(disk: Disk, o: Job)
    requires InPlace(disk, o)
    ensures Holdings(disk, o)
  {
  }

  lemma NewNames(disk: Disk, o: Job, a: Action, c: Choice)
    requires Enabled(disk, o, a, c)
    ensures a.MakeScratch? || a.CreateCopy? || a.MakeTarget? || a.MakeTemp? || a.Create? ==> Unused(disk, c.ino)
    ensures a.SyncMember? ==> a.member in o.made
  {
    hide Complete, HasMembers, IsDeclared;
  }

  lemma TargetStays(disk: Disk, o: Job, c: Choice)
    requires InPlace(disk, o) && Running(o) && At(o) >= 0 && Enabled(disk, o, Current(o), c)
    ensures Linked(Effect(disk, o, Current(o), c), ROOT, o.target, Advance(o, Current(o), c).dir)
  {
    hide *;
    EffectConfined(disk, o, c);
    Positions(o);
    if At(o) == 0 {
      TargetLinked(disk, o, c);
    } else {
      TargetWas(disk, o);
      NextAdvance(o, Current(o), c);
      StaysLinked(disk, Effect(disk, o, Current(o), c), Advance(o, Current(o), c).owned, o);
    }
  }

  lemma TargetLinked(disk: Disk, o: Job, c: Choice)
    requires Enabled(disk, o, MakeTarget, c)
    ensures Linked(Effect(disk, o, MakeTarget, c), ROOT, o.target, Advance(o, MakeTarget, c).dir)
  {
  }

  lemma TargetWas(disk: Disk, o: Job)
    requires InPlace(disk, o) && At(o) > 0
    ensures Linked(disk, ROOT, o.target, o.dir) && o.target.Public?
  {
  }

  lemma StaysLinked(disk: Disk, disk': Disk, owned: set<Ino>, o: Job)
    requires Confined(disk, disk', owned) && Linked(disk, ROOT, o.target, o.dir) && o.target.Public?
    ensures Linked(disk', ROOT, o.target, o.dir)
  {
    hide DirOk;
  }

  lemma EffectFiles(disk: Disk, o: Job, a: Action, c: Choice)
    requires Enabled(disk, o, a, c)
    ensures var files := Effect(disk, o, a, c).files;
            match a
            case CreateCopy => files == disk.files[c.ino := File([], false)]
            case Create(m) => files == disk.files[c.ino := File([], false)] && c.ino !in disk.files
            case Fill(m) => files == disk.files && Filled(disk.files, o, m)
            case SyncMember(m) =>
              m in o.made && o.made[m] in disk.files && files == disk.files[o.made[m] := disk.files[o.made[m]].(synced := true)]
            case _ => files == disk.files
  {
    hide AddEntry, RemoveEntry, Settle, Complete, HasMembers, IsDeclared;
  }

  /** Before the target is made nothing is said about members. */
  lemma FilesEarly(o: Job, n: Job, files: map<Ino, File>)
    requires Stages(o) && o.pc == 2 && Next(o, n, o.made)
    ensures FilesInOrder(n, files)
  {
    hide Filled, Synced;
  }

  lemma FilesAfter(disk: Disk, o: Job, c: Choice)
    requires InPlace(disk, o) && Running(o) && Enabled(disk, o, Current(o), c)
    ensures FilesInOrder(Advance(o, Current(o), c), Effect(disk, o, Current(o), c).files)
  {
    hide *;
    var a := Current(o);
    var n := Advance(o, a, c);
    InPlaceMeans(disk, o);
    EffectFiles(disk, o, a, c);
    CopyPositions(o);
    NextAdvance(o, a, c);
    match a
    case CreateCopy => FilesEarly(o, n, disk.files[c.ino := File([], false)]);
    case Create(m) => FilesAfterCreate(o, n, disk.files, m, c.ino);
    case Fill(m) => FilesAfterFill(o, n, disk.files, m);
    case SyncMember(m) => FilesAfterSync(o, n, disk.files, m);
    case _ => FilesAfterOther(o, n, disk.files);
  }

  lemma InPlaceMeans(disk: Disk, o: Job)
    requires InPlace(disk, o)
    ensures MadeInOrder(o) && FilesInOrder(o, disk.files) && DiskOk(disk)
    ensures forall k, l :: k in o.made && l in o.made && o.made[k] == o.made[l] ==> k == l
    ensures At(o) > 0 ==> o.dir in disk.dirs && DirInOrder(o, disk.dirs[o.dir]) && o.dir != ROOT
    ensures At(o) > RootSynced(o) ==> Certain(disk, ROOT, o.target, o.dir)
    ensures ScratchesInOrder(disk, o)
  {
  }

  /** What a call does to the target directory. */
  lemma EffectDir(disk: Disk, o: Job, a: Action, c: Choice)
    requires Enabled(disk, o, a, c) && !a.MakeTarget? && o.dir in disk.dirs && o.dir != ROOT
    requires a.RemoveStaged? || (a.Create? && Staged(o, a.member)) ==> o.temp != o.dir
    requires a.CreateCopy? || a.RemoveCopy? ==> o.scratch != o.dir
    ensures var g, d := disk.dirs[o.dir], Effect(disk, o, a, c);
            && o.dir in d.dirs
            && match a
               case MakeTemp => d.dirs[o.dir] == if o.protocol.Restore? then AddEntry(g, Temporary(c.token), c.ino) else g
               case Create(m) => d.dirs[o.dir] == if o.protocol.Seal? && m != MarkerFile then AddEntry(g, m, c.ino) else g
               case SyncTarget => d.dirs[o.dir] == Settle(g)
               case Publish(m) => m in o.made && d.dirs[o.dir] == AddEntry(g, m, o.made[m])
               case RemoveTemp => d.dirs[o.dir] == if o.protocol.Restore? then RemoveEntry(g, o.tempName) else g
               case _ => d.dirs[o.dir] == g
  {
    hide AddEntry, RemoveEntry, Settle, Complete, HasMembers, IsDeclared;
  }

  lemma NextAdvance(o: Job, a: Action, c: Choice)
    requires a.MakeTemp? ==> At(o) <= TempAt(o)
    ensures Next(o, Advance(o, a, c), if a.Create? then o.made[a.member := c.ino] else o.made)
    ensures !a.MakeTarget? ==> Advance(o, a, c).dir == o.dir
    ensures Advance(o, a, c).tempName == if a.MakeTemp? then Temporary(c.token) else o.tempName
  {
  }

  lemma DirAfter(disk: Disk, o: Job, c: Choice)
    requires InPlace(disk, o) && Running(o) && Enabled(disk, o, Current(o), c) && At(o) > 0
    ensures var n, d := Advance(o, Current(o), c), Effect(disk, o, Current(o), c);
            n.dir in d.dirs && DirInOrder(n, d.dirs[n.dir])
  {
    hide InPlace, Holdings, Current, Enabled, Effect, Advance, DiskOk, DirOk, Running, FilesInOrder, DirInOrder, MadeInOrder, Certain,
         AddEntry, RemoveEntry, Settle;
    var a := Current(o);
    InPlaceMeans(disk, o);
    var n, g := Advance(o, a, c), disk.dirs[o.dir];
    OwnedMeans(disk, o);
    DiskOkMeans(disk);
    Positions(o);
    NextAdvance(o, a, c);
    EffectDir(disk, o, a, c);
    match a
    case MakeTarget => assert false;
    case MakeTemp =>
      if o.protocol.Restore? {
        DirAfterTemp(o, n, g, Temporary(c.token), c.ino);
      } else {
        DirAfterOther(o, n, g);
      }
    case Create(m) => DirAfterCreate(o, n, g, m, c.ino);
    case SyncTarget => DirAfterSync(o, n, g);
    case Publish(m) => DirAfterPublish(o, n, g, m);
    case RemoveTemp =>
      if o.protocol.Restore? {
        DirAfterTemp(o, n, g, o.tempName, c.ino);
      } else {
        DirAfterOther(o, n, g);
      }
    case _ => DirAfterOther(o, n, g);
  }

  lemma DirMade(disk: Disk, o: Job, c: Choice)
    requires Enabled(disk, o, MakeTarget, c) && At(o) == 0
    ensures var n, d := Advance(o, MakeTarget, c), Effect(disk, o, MakeTarget, c);
            n.dir in d.dirs && DirInOrder(n, d.dirs[n.dir])
  {
  }

  lemma RootAfter(disk: Disk, o: Job, c: Choice)
    requires InPlace(disk, o) && Running(o) && Enabled(disk, o, Current(o), c)
    requires At(Advance(o, Current(o), c)) > RootSynced(o)
    ensures Certain(Effect(disk, o, Current(o), c), ROOT, o.target, Advance(o, Current(o), c).dir)
  {
    hide *;
    RootPosition(o);
    Positions(o);
    NextAdvance(o, Current(o), c);
    NextMeans(o, Advance(o, Current(o), c));
    if Current(o) == SyncRoot {
      TargetStays(disk, o, c);
      SettledRoot(disk, o, c);
    } else {
      EffectConfined(disk, o, c);
      InPlaceMeans(disk, o);
      OwnedMeans(disk, o);
      StaysCertain(disk, Effect(disk, o, Current(o), c), Advance(o, Current(o), c).owned, o);
    }
  }

  lemma NextMeans(o: Job, n: Job)
    ensures forall made :: Next(o, n, made) ==> At(n) == At(o) + 1 && n.pc == o.pc + 1 && n.protocol == o.protocol
  {
  }

  lemma StaysCertain(disk: Disk, disk': Disk, owned: set<Ino>, o: Job)
    requires Confined(disk, disk', owned) && Certain(disk, ROOT, o.target, o.dir) && o.target.Public?
    ensures Certain(disk', ROOT, o.target, o.dir)
  {
    hide DirOk;
  }

  lemma RootPosition(o: Job)
    requires Running(o)
    ensures At(o) == RootSynced(o) ==> Current(o) == SyncRoot
    ensures Current(o).MakeTarget? <==> At(o) == 0
    ensures RootSynced(o) > 0
  {
  }

  lemma SettledRoot(disk: Disk, o: Job, c: Choice)
    requires Enabled(disk, o, SyncRoot, c) && Linked(Effect(disk, o, SyncRoot, c), ROOT, o.target, o.dir)
    ensures Certain(Effect(disk, o, SyncRoot, c), ROOT, o.target, o.dir)
  {
  }

  /** What a call does to the private directories. */
  lemma ScratchesAfter(disk: Disk, o: Job, c: Choice)
    requires InPlace(disk, o) && Running(o) && Enabled(disk, o, Current(o), c)
    ensures ScratchesInOrder(Effect(disk, o, Current(o), c), Advance(o, Current(o), c))
  {
    hide *;
    InPlaceMeans(disk, o);
    OwnedMeans(disk, o);
    CopyPositions(o);
    ScratchPositions(o);
    ScratchesFrom(disk, o, Current(o), c);
  }

  lemma ScratchPositions(o: Job)
    requires Running(o)
    ensures Current(o).SyncTarget? || Current(o).Publish? ==> At(o) > 0
    ensures Current(o).RemoveStaged? || Current(o).RemoveTemp? ==> At(o) > TempAt(o)
    ensures Current(o).RemoveCopy? ==> HasScratch(o) && At(o) > TempAt(o)
    ensures Current(o).Create? && At(o) <= TempAt(o) ==> !Staged(o, Current(o).member)
    ensures TempAt(o) > 0
  {
  }

  lemma ScratchesFrom(disk: Disk, o: Job, a: Action, c: Choice)
    requires Enabled(disk, o, a, c) && ScratchesInOrder(disk, o) && Separate(o)
    requires HasScratch(o) ==> o.scratch in disk.dirs && o.scratch != ROOT
    requires At(o) > 0 ==> o.dir in disk.dirs && o.dir != ROOT
    requires At(o) > TempAt(o) ==> o.temp in disk.dirs && o.temp != ROOT && o.temp != o.dir
    requires a.MakeScratch? <==> Stages(o) && o.pc == 1
    requires a.CreateCopy? <==> Stages(o) && o.pc == 2
    requires a.MakeTarget? <==> At(o) == 0
    requires a.MakeTemp? <==> At(o) == TempAt(o)
    requires a.SyncTarget? || a.Publish? || a.Create? ==> At(o) > 0
    requires a.RemoveStaged? || a.RemoveTemp? ==> At(o) > TempAt(o)
    requires a.RemoveCopy? ==> HasScratch(o) && At(o) > TempAt(o)
    requires a.Create? && At(o) <= TempAt(o) ==> !Staged(o, a.member)
    requires TempAt(o) > 0
    ensures ScratchesInOrder(Effect(disk, o, a, c), Advance(o, a, c))
  {
    AdvanceNames(o, a, c);
    TempContents(disk, o, a, c);
    hide Complete, HasMembers, IsDeclared;
  }

  lemma TempContents(disk: Disk, o: Job, a: Action, c: Choice)
    requires Enabled(disk, o, a, c)
    ensures var d := Effect(disk, o, a, c);
            && (a.MakeScratch? || a.MakeTemp? ==> c.ino in d.dirs && d.dirs[c.ino].entries == map[])
  {
    hide Complete, HasMembers, IsDeclared, Settle, RemoveEntry;
  }

  /** Every call that takes effect keeps everything in place. */
  lemma EffectInPlace(disk: Disk, o: Job, c: Choice)
    requires InPlace(disk, o) && Running(o) && Enabled(disk, o, Current(o), c)
    ensures InPlace(Effect(disk, o, Current(o), c), Advance(o, Current(o), c))
  {
    hide *;
    var n, d := Advance(o, Current(o), c), Effect(disk, o, Current(o), c);
    HoldingsAfter(disk, o, c);
    InPlaceMeans(disk, o);
    MadeKeeps(o, c);
    FilesAfter(disk, o, c);
    CopyPositions(o);
    NextAdvance(o, Current(o), c);
    NextMeans(o, n);
    SameTarget(o, Current(o), c);
    if At(o) == 0 {
      DirMade(disk, o, c);
    } else if At(o) > 0 {
      DirAfter(disk, o, c);
    }
    ScratchesAfter(disk, o, c);
    if At(n) > RootSynced(o) {
      RootAfter(disk, o, c);
    }
    InPlaceFrom(d, n, o);
  }

  lemma SameTarget(o: Job, a: Action, c: Choice)
    ensures Advance(o, a, c).target == o.target
  {
  }

  lemma InPlaceFrom(d: Disk, n: Job, o: Job)
    requires Running(o) && n.pc == o.pc + 1 && n.protocol == o.protocol && n.target == o.target
    requires Holdings(d, n) && MadeInOrder(n) && FilesInOrder(n, d.files) && ScratchesInOrder(d, n)
    requires At(n) > 0 ==> n.dir in d.dirs && DirInOrder(n, d.dirs[n.dir])
    requires At(n) > RootSynced(o) ==> Certain(d, ROOT, o.target, n.dir)
    ensures InPlace(d, n)
  {
    hide Holdings, MadeInOrder, FilesInOrder, DirInOrder, ScratchesInOrder;
  }

  // ---------- The names that an operation needs in its own directories are free ----------

  lemma CreatedOnce(o: Job)
    requires MadeInOrder(o) && Running(o) && Current(o).Create?
    ensures Current(o).member !in o.made
  {
    hide Current, Running;
    CreatesAt(o);
  }

  lemma NoOtherEntries(o: Job, g: Dir, m: Name)
    requires DirInOrder(o, g) && DirOk(g)
    requires if o.protocol.Seal? then m !in o.made || (m == MarkerFile && At(o) <= 14) else m == DatabaseFile && At(o) <= 7
    ensures m !in g.entries
  {
    forall n | n in g.entries
      ensures n != m
    {
      assert (n, g.entries[n]) in g.possible;
    }
  }

  lemma PublishPosition(o: Job)
    requires Running(o) && Current(o).Publish?
    ensures At(o) == PublishAt(o) && At(o) > 0
    ensures Current(o).member == if o.protocol.Seal? then MarkerFile else DatabaseFile
  {
  }

  /** Exclusive creation of a member and the publishing link never find their name taken: what an
      operation needs in the directories it has made itself is free. Only the name of the target, or
      a random private name, can be taken. */
  lemma OwnNamesAreFree(disk: Disk, o: Job, c: Choice)
    requires InPlace(disk, o) && Running(o) && Occupied(disk, o, Current(o), c)
    ensures Collides(Current(o)) || Current(o).CheckAbsent? || Current(o).MakeTarget?
    ensures Current(o).MakeTemp? ==> o.protocol.Seal?
  {
    InPlaceMeans(disk, o);
    OwnedMeans(disk, o);
    DiskOkMeans(disk);
    CopyPositions(o);
    hide InPlace, Current, Running, FilesInOrder, DirInOrder, MadeInOrder, DirOk, DiskOk, Certain;
    var a := Current(o);
    match a
    case Create(m) =>
      CreatedOnce(o);
      Positions(o);
      if !Staged(o, m) {
        NoOtherEntries(o, disk.dirs[o.dir], m);
      }
    case Publish(m) =>
      PublishPosition(o);
      NoOtherEntries(o, disk.dirs[o.dir], m);
    case MakeTemp =>
      if o.protocol.Restore? {
        NewTargetIsEmpty(o, disk.dirs[o.dir]);
      }
    case _ =>
  }

  lemma NewTargetIsEmpty(o: Job, g: Dir)
    requires o.protocol.Restore? && DirInOrder(o, g) && DirOk(g) && At(o) <= 1
    ensures forall n :: n !in g.entries
  {
    NoOtherEntries(o, g, DatabaseFile);
  }
}
