/** Sealing a snapshot generation and restoring a database, as steps over the file system that any
    number of operations take in any order. Every call may fail, before or after taking effect. */
module Publication {
  import opened Records
  import opened Volume

  // ---------- What an operation does, call by call ----------

  datatype Action =
    | CheckAbsent                // the name of the target is looked up
    | MakeScratch                // exclusive mkdir of a private directory beside the target
    | CreateCopy                 // exclusive creation of the database copy in it
    | FillCopy
    | MakeTarget                 // exclusive mkdir of the target
    | MakeTemp                   // exclusive mkdir of a private directory
    | Create(member: Name)       // exclusive creation of a file
    | Fill(member: Name)         // the file has its bytes, block by block
    | SyncMember(member: Name)
    | ReadBack                   // what has been written is read and compared
    | SyncTarget
    | SyncRoot
    | Publish(member: Name)      // the hard link that publishes
    | RemoveStaged(member: Name)
    | RemoveTemp
    | FinalCheck
    | RemoveCopy
    | RemoveScratch

  /** A generation is created locally or published to remote storage; a database is restored. */
  datatype Protocol = Seal(remote: bool) | Restore

  const SEAL_CALLS := 20
  const RESTORE_CALLS := 13

  /** What comes before the exclusive mkdir. `create` first writes the database into a private directory
      of the output root; `publish` and `restore` prepare theirs elsewhere. */
  function Preparation(protocol: Protocol, pc: nat): Action {
    match pc
    case 0 => CheckAbsent
    case 1 => MakeScratch
    case 2 => CreateCopy
    case _ => FillCopy
  }

  /** `_seal_archive`: only the link of the marker publishes. */
  function SealAction(pc: nat): Action {
    match pc
    case 0 => MakeTarget
    case 1 => Create(DatabaseFile)
    case 2 => Fill(DatabaseFile)
    case 3 => SyncMember(DatabaseFile)
    case 4 => Create(ManifestFile)
    case 5 => Fill(ManifestFile)
    case 6 => SyncMember(ManifestFile)
    case 7 => ReadBack
    case 8 => SyncTarget
    case 9 => SyncRoot
    case 10 => MakeTemp
    case 11 => Create(MarkerFile)
    case 12 => Fill(MarkerFile)
    case 13 => SyncMember(MarkerFile)
    case 14 => Publish(MarkerFile)
    case 15 => RemoveStaged(MarkerFile)
    case 16 => RemoveTemp
    case 17 => SyncTarget
    case 18 => SyncRoot
    case _ => FinalCheck
  }

  /** `restore`, after the snapshot has been validated. */
  function RestoreAction(pc: nat): Action {
    match pc
    case 0 => MakeTarget
    case 1 => MakeTemp
    case 2 => Create(DatabaseFile)
    case 3 => Fill(DatabaseFile)
    case 4 => SyncMember(DatabaseFile)
    case 5 => ReadBack
    case 6 => SyncMember(DatabaseFile)
    case 7 => Publish(DatabaseFile)
    case 8 => RemoveStaged(DatabaseFile)
    case 9 => RemoveTemp
    case 10 => SyncTarget
    case 11 => SyncRoot
    case _ => FinalCheck
  }

  datatype Outcome = Published | NotPublished | TargetExists | Ambiguous

  /** One operation: what it is to publish, how far it is, and the inodes it has made. */
  datatype Job = Job(
    protocol: Protocol, target: Name, manifest: Bytes, marker: Bytes,
    pc: nat, scratch: Ino, scratchName: Name, copy: Ino, dir: Ino, temp: Ino, tempName: Name, made: map<Name, Ino>,
    owned: set<Ino>, touched: set<Ino>, attempted: bool, collided: bool, outcome: Option<Outcome>)

  /** Does the operation stage the database beside its target? */
  predicate Stages(o: Job) { o.protocol == Seal(false) }

  /** The number of calls before the exclusive mkdir. */
  function Base(o: Job): nat {
    match o.protocol
    case Seal(remote) => if remote then 0 else 4
    case Restore => 1
  }

  /** The position, counted from the exclusive mkdir. */
  function At(o: Job): int { o.pc - Base(o) }

  function Calls(o: Job): nat {
    match o.protocol
    case Seal(remote) => if remote then SEAL_CALLS else 4 + SEAL_CALLS + 2
    case Restore => 1 + RESTORE_CALLS
  }

  /** The position of the call that makes the private directory of the publishing link. */
  function TempAt(o: Job): nat { if o.protocol.Restore? then 1 else 10 }

  /** The position of the publishing link. */
  function PublishAt(o: Job): nat { if o.protocol.Restore? then 7 else 14 }

  /** What an operation starts as. */
  function Started(protocol: Protocol, target: Name, manifest: Bytes, marker: Bytes): Job {
    Job(protocol, target, manifest, marker, 0, 0, Temporary(0), 0, 0, 0, Temporary(0), map[], {}, {}, false, false, None)
  }

  /** An operation that has not made its first call. */
  predicate Fresh(o: Job) {
    && o.pc == 0 && o.made == map[] && o.owned == {} && o.touched == {} && !o.attempted && !o.collided && o.outcome == None
    && o.target.Public?
  }

  /** The directory in which a member is created. */
  function Where(o: Job, member: Name): Ino {
    if o.protocol.Restore? || member == MarkerFile then o.temp else o.dir
  }

  /** The parent of the private directory. */
  function TempParent(o: Job): Ino { if o.protocol.Restore? then o.dir else ROOT }

  /** The bytes of the member are those that belong there. */
  predicate Right(o: Job, member: Name, bytes: Bytes) {
    match member
    case DatabaseFile => IsDeclared(o.manifest, bytes)
    case ManifestFile => bytes == o.manifest
    case MarkerFile => bytes == o.marker
    case _ => false
  }

  /** What an operation publishes fits together: the marker names the manifest. */
  predicate WellBound(o: Job) { NamedManifest(o.marker) == Some(Sha256(o.manifest)) }

  // ---------- One call ----------

  /** What is chosen from outside: the inode of something new and the random private name. */
  datatype Choice = Choice(ino: Ino, token: nat)

  predicate MemberThere(disk: Disk, o: Job, member: Name) {
    && member in o.made && o.made[member] in disk.files
  }

  /** The call can take effect. */
  predicate Enabled(disk: Disk, o: Job, a: Action, c: Choice) {
    match a
    case CheckAbsent => ROOT in disk.dirs && o.target !in disk.dirs[ROOT].entries
    case MakeScratch => ROOT in disk.dirs && Unused(disk, c.ino) && Temporary(c.token) !in disk.dirs[ROOT].entries
    case CreateCopy => o.scratch in disk.dirs && Unused(disk, c.ino) && DatabaseFile !in disk.dirs[o.scratch].entries
    case FillCopy => o.copy in disk.files && IsDeclared(o.manifest, disk.files[o.copy].bytes)
    case MakeTarget => ROOT in disk.dirs && Unused(disk, c.ino) && o.target !in disk.dirs[ROOT].entries
    case MakeTemp =>
      && TempParent(o) in disk.dirs && Unused(disk, c.ino)
      && Temporary(c.token) !in disk.dirs[TempParent(o)].entries
    case Create(m) => Where(o, m) in disk.dirs && Unused(disk, c.ino) && m !in disk.dirs[Where(o, m)].entries
    case Fill(m) => MemberThere(disk, o, m) && Right(o, m, disk.files[o.made[m]].bytes)
    case SyncMember(m) => MemberThere(disk, o, m)
    case ReadBack => forall m :: m in o.made ==> o.made[m] in disk.files && Right(o, m, disk.files[o.made[m]].bytes)
    case SyncTarget => o.dir in disk.dirs
    case SyncRoot => ROOT in disk.dirs
    case Publish(m) => o.dir in disk.dirs && MemberThere(disk, o, m) && m !in disk.dirs[o.dir].entries
    case RemoveStaged(m) => o.temp in disk.dirs
    case RemoveTemp => TempParent(o) in disk.dirs
    case FinalCheck =>
      if o.protocol.Restore? then
        HasMembers(disk, o.dir, {DatabaseFile}) && IsDeclared(o.manifest, Content(disk, o.dir, DatabaseFile))
      else Complete(disk, o.dir, Sha256(o.manifest))
    case RemoveCopy => o.scratch in disk.dirs
    case RemoveScratch => ROOT in disk.dirs
  }

  /** The effect of the call on the disk. */
  function Effect(disk: Disk, o: Job, a: Action, c: Choice): Disk
    requires Enabled(disk, o, a, c)
  {
    match a
    case MakeScratch => MakeDir(disk, ROOT, Temporary(c.token), c.ino)
    case CreateCopy => MakeFile(disk, o.scratch, DatabaseFile, c.ino)
    case MakeTarget => MakeDir(disk, ROOT, o.target, c.ino)
    case MakeTemp => MakeDir(disk, TempParent(o), Temporary(c.token), c.ino)
    case Create(m) => MakeFile(disk, Where(o, m), m, c.ino)
    case SyncMember(m) => SetFile(disk, o.made[m], disk.files[o.made[m]].(synced := true))
    case SyncTarget => SetDir(disk, o.dir, Settle(disk.dirs[o.dir]))
    case SyncRoot => SetDir(disk, ROOT, Settle(disk.dirs[ROOT]))
    case Publish(m) => SetDir(disk, o.dir, AddEntry(disk.dirs[o.dir], m, o.made[m]))
    case RemoveStaged(m) => SetDir(disk, o.temp, RemoveEntry(disk.dirs[o.temp], m))
    case RemoveTemp => SetDir(disk, TempParent(o), RemoveEntry(disk.dirs[TempParent(o)], o.tempName))
    case RemoveCopy => SetDir(disk, o.scratch, RemoveEntry(disk.dirs[o.scratch], DatabaseFile))
    case RemoveScratch => SetDir(disk, ROOT, RemoveEntry(disk.dirs[ROOT], o.scratchName))
    case _ => disk
  }

  /** What the operation knows after the call has taken effect. */
  function Advance(o: Job, a: Action, c: Choice): Job {
    var next := o.(pc := o.pc + 1);
    match a
    case MakeScratch =>
      next.(scratch := c.ino, scratchName := Temporary(c.token), owned := o.owned + {c.ino}, touched := o.touched + {ROOT})
    case CreateCopy => next.(copy := c.ino, owned := o.owned + {c.ino}, touched := o.touched + {o.scratch, c.ino})
    case MakeTarget => next.(dir := c.ino, owned := o.owned + {c.ino}, touched := o.touched + {ROOT})
    case MakeTemp =>
      next.(temp := c.ino, tempName := Temporary(c.token), owned := o.owned + {c.ino}, touched := o.touched + {TempParent(o)})
    case Create(m) =>
      next.(made := o.made[m := c.ino], owned := o.owned + {c.ino}, touched := o.touched + {Where(o, m), c.ino})
    case SyncMember(m) => if m in o.made then next.(touched := o.touched + {o.made[m]}) else next
    case SyncTarget => next.(touched := o.touched + {o.dir})
    case SyncRoot => next.(touched := o.touched + {ROOT})
    case Publish(m) => next.(touched := o.touched + {o.dir}, attempted := true)
    case RemoveStaged(m) => next.(touched := o.touched + {o.temp})
    case RemoveTemp => next.(touched := o.touched + {TempParent(o)})
    case RemoveCopy => next.(touched := o.touched + {o.scratch})
    case RemoveScratch => next.(touched := o.touched + {ROOT})
    case _ => next
  }

  /** How an operation that fails is reported. */
  function Failed(o: Job): Job {
    o.(outcome := Some(if o.attempted then Ambiguous else NotPublished))
  }

  predicate Running(o: Job) { o.outcome.None? && o.pc < Calls(o) }

  function Current(o: Job): Action {
    if At(o) < 0 then Preparation(o.protocol, o.pc)
    else if o.protocol.Restore? then RestoreAction(At(o))
    else if At(o) < SEAL_CALLS then SealAction(At(o))
    else if At(o) == SEAL_CALLS then RemoveCopy
    else RemoveScratch
  }

  /** The call takes effect and returns; after the last one the operation has published. */
  ghost predicate Works(disk: Disk, o: Job, disk': Disk, o': Job) {
    && Running(o)
    && exists c ::
         && Enabled(disk, o, Current(o), c) && disk' == Effect(disk, o, Current(o), c)
         && o' == (var n := Advance(o, Current(o), c); if n.pc == Calls(o) then n.(outcome := Some(Published)) else n)
  }

  /** The call takes effect, but its acknowledgement is lost or a later check fails. */
  ghost predicate RaisesAfter(disk: Disk, o: Job, disk': Disk, o': Job) {
    && Running(o)
    && exists c ::
         && Enabled(disk, o, Current(o), c) && disk' == Effect(disk, o, Current(o), c)
         && o' == Failed(Advance(o, Current(o), c))
  }

  /** The call fails without effect. A link that fails is known to have had none only on a local file
      system; there the operation is not reported as ambiguous. */
  predicate RaisesBefore(disk: Disk, o: Job, disk': Disk, o': Job) {
    && Running(o) && disk' == disk
    && if Current(o).Publish? then
         || o' == Failed(o.(attempted := true))
         || (o.protocol != Seal(true) && o' == Failed(o))
       else o' == Failed(o)
  }

  /** The call needs a name that is there already. */
  predicate Occupied(disk: Disk, o: Job, a: Action, c: Choice) {
    match a
    case CheckAbsent => ROOT in disk.dirs && o.target in disk.dirs[ROOT].entries
    case MakeTarget => ROOT in disk.dirs && o.target in disk.dirs[ROOT].entries
    case MakeScratch => ROOT in disk.dirs && Temporary(c.token) in disk.dirs[ROOT].entries
    case MakeTemp => TempParent(o) in disk.dirs && Temporary(c.token) in disk.dirs[TempParent(o)].entries
    case CreateCopy => o.scratch in disk.dirs && DatabaseFile in disk.dirs[o.scratch].entries
    case Create(m) => Where(o, m) in disk.dirs && m in disk.dirs[Where(o, m)].entries
    case Publish(m) => o.dir in disk.dirs && m in disk.dirs[o.dir].entries
    case _ => false
  }

  /** A random private name, not a name of the target, was taken. */
  predicate Collides(a: Action) { a.MakeScratch? || a.MakeTemp? }

  /** A name is taken: everything but the link on remote storage is then known to have had no effect. */
  ghost predicate FindsTaken(disk: Disk, o: Job, disk': Disk, o': Job) {
    && Running(o) && disk' == disk && !(Current(o).Publish? && o.protocol == Seal(true))
    && (exists c :: Occupied(disk, o, Current(o), c))
    && o' == o.(outcome := Some(TargetExists), collided := Collides(Current(o)))
  }

  /** While a file is being filled it may hold anything: a part of its bytes, or what a changing source gave. */
  ghost predicate Writes(disk: Disk, o: Job, disk': Disk, o': Job) {
    && Running(o)
    && (Current(o).FillCopy? || (Current(o).Fill? && MemberThere(disk, o, Current(o).member)))
    && var ino := if Current(o).FillCopy? then o.copy else o.made[Current(o).member];
       && ino in disk.files
       && (exists bytes :: disk' == SetFile(disk, ino, File(bytes, false)))
       && o' == o.(touched := o.touched + {ino})
  }

  /** Cleaning up after a failure: entries of a private directory, or its own name. */
  ghost predicate TidiesIn(disk: Disk, dir: Ino, parent: Ino, name: Name, disk': Disk) {
    && dir in disk.dirs && parent in disk.dirs
    && ((exists n :: disk' == SetDir(disk, dir, RemoveEntry(disk.dirs[dir], n)))
        || disk' == SetDir(disk, parent, RemoveEntry(disk.dirs[parent], name)))
  }

  ghost predicate Tidies(disk: Disk, o: Job, disk': Disk, o': Job) {
    && o.outcome.Some? && o.outcome.value != Published
    && ((At(o) > TempAt(o) && TidiesIn(disk, o.temp, TempParent(o), o.tempName, disk')
         && o' == o.(touched := o.touched + {o.temp, TempParent(o)}))
        || (Stages(o) && o.pc > 1 && TidiesIn(disk, o.scratch, ROOT, o.scratchName, disk')
            && o' == o.(touched := o.touched + {o.scratch, ROOT})))
  }

  ghost predicate Step(disk: Disk, o: Job, disk': Disk, o': Job) {
    || Works(disk, o, disk', o') || RaisesAfter(disk, o, disk', o') || RaisesBefore(disk, o, disk', o')
    || FindsTaken(disk, o, disk', o') || Writes(disk, o, disk', o') || Tidies(disk, o, disk', o')
  }
}
