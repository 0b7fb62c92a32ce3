/** All interleavings of sealing and restoring operations, with failures anywhere and a crash at any
    moment. */
module PublicationRuns {
  import opened Records
  import opened Volume
  import opened Publication
  import opened PublicationInvariant

  // ---------- A step keeps the invariant of its own operation ----------

  /** The same operation apart from what it reports. */
  predicate SameWork(o: Job, o': Job) {
    o' == o.(touched := o'.touched, attempted := o'.attempted, collided := o'.collided, outcome := o'.outcome)
  }

  lemma SameWorkInPlace(disk: Disk, o: Job, o': Job)
    requires InPlace(disk, o) && SameWork(o, o') && o'.touched <= o'.owned + {ROOT} && (o.pc == 0 ==> o'.touched == {})
    ensures InPlace(disk, o')
  {
    hide DiskOk, Right;
    RightSame(o, o');
  }

  lemma AdvanceReport(o: Job, a: Action, c: Choice)
    ensures var n := Advance(o, a, c);
            && n.attempted == (o.attempted || a.Publish?) && n.collided == o.collided && n.outcome == o.outcome
            && n.pc == o.pc + 1 && n.protocol == o.protocol
  {
  }

  lemma ReportedAfter(o: Job, c: Choice)
    requires Reported(o) && Running(o)
    ensures var n := Advance(o, Current(o), c);
            && Reported(Failed(n))
            && Reported(if n.pc == Calls(o) then n.(outcome := Some(Published)) else n)
  {
    Positions(o);
    AdvanceReport(o, Current(o), c);
    hide Current, Advance;
  }

  lemma ReportedBefore(o: Job)
    requires Reported(o) && Running(o)
    ensures Reported(Failed(o)) || Current(o).Publish?
    ensures Current(o).Publish? ==> Reported(Failed(o.(attempted := true))) && Reported(Failed(o))
  {
    Positions(o);
    hide Current;
  }

  lemma ReportedTaken(o: Job)
    requires Reported(o) && Running(o)
    requires Collides(Current(o)) || Current(o).CheckAbsent? || Current(o).MakeTarget?
    requires Current(o).MakeTemp? ==> o.protocol.Seal?
    ensures Reported(o.(outcome := Some(TargetExists), collided := Collides(Current(o))))
  {
    Positions(o);
    EarlyPositions(o);
    hide Current;
  }

  lemma EarlyPositions(o: Job)
    requires Running(o)
    ensures Current(o).CheckAbsent? || Current(o).MakeTarget? || Current(o).MakeScratch? ==> At(o) <= 0
    ensures TempAt(o) < PublishAt(o)
  {
  }

  ghost predicate Kept(disk: Disk, disk': Disk, o': Job) {
    InPlace(disk', o') && Reported(o') && Confined(disk, disk', o'.owned)
  }

  lemma WorksKeeps(disk: Disk, o: Job, disk': Disk, o': Job)
    requires InPlace(disk, o) && Reported(o) && (Works(disk, o, disk', o') || RaisesAfter(disk, o, disk', o'))
    ensures Kept(disk, disk', o')
  {
    hide InPlace, Reported, Enabled, Effect, Confined, Current, Holdings;
    var c :| Enabled(disk, o, Current(o), c) && disk' == Effect(disk, o, Current(o), c)
      && (o' == Failed(Advance(o, Current(o), c))
          || o' == (var n := Advance(o, Current(o), c); if n.pc == Calls(o) then n.(outcome := Some(Published)) else n));
    var n := Advance(o, Current(o), c);
    EffectInPlace(disk, o, c);
    EffectConfined(disk, o, c);
    ReportedAfter(o, c);
    OwnedMeans(disk', n);
    CopyPositions(o);
    NextAdvance(o, Current(o), c);
    SameWorkInPlace(disk', n, o');
  }

  lemma FailsKeeps(disk: Disk, o: Job, disk': Disk, o': Job)
    requires InPlace(disk, o) && Reported(o) && (RaisesBefore(disk, o, disk', o') || FindsTaken(disk, o, disk', o'))
    ensures Kept(disk, disk', o')
  {
    if FindsTaken(disk, o, disk', o') {
      var c :| Occupied(disk, o, Current(o), c);
      OwnNamesAreFree(disk, o, c);
      ReportedTaken(o);
    }
    hide InPlace, Reported, Enabled, Confined, Current, Holdings, DiskOk;
    InPlaceMeans(disk, o);
    OwnedMeans(disk, o);
    ConfinedNothing(disk, o.owned);
    ReportedBefore(o);
    NothingTouched(disk, o);
    SameWorkInPlace(disk, o, o');
  }

  lemma NothingTouched(disk: Disk, o: Job)
    requires InPlace(disk, o)
    ensures o.pc == 0 ==> o.touched == {} && o.owned == {}
  {
  }

  lemma FilesAfterWrite(o: Job, files: map<Ino, File>, m: Name, f: File)
    requires FilesInOrder(o, files) && MadeInOrder(o) && Running(o) && Current(o) == Fill(m) && m in o.made
    requires forall k, l :: k in o.made && l in o.made && o.made[k] == o.made[l] ==> k == l
    ensures FilesInOrder(o, files[o.made[m] := f]) && At(o) > 0
  {
    hide Right;
  }

  lemma FilesAfterCopy(o: Job, files: map<Ino, File>, f: File)
    requires FilesInOrder(o, files) && Separate(o) && HasCopy(o)
    ensures FilesInOrder(o, files[o.copy := f])
  {
    hide Right;
  }

  lemma WritesKeeps(disk: Disk, o: Job, disk': Disk, o': Job)
    requires InPlace(disk, o) && Reported(o) && Writes(disk, o, disk', o')
    ensures Kept(disk, disk', o')
  {
    hide InPlace, Reported, Enabled, Confined, Current, Holdings, DiskOk, FilesInOrder, MadeInOrder, DirInOrder, Running, Certain,
         Separate, HasCopy, HasScratch, ScratchesInOrder;
    InPlaceMeans(disk, o);
    OwnedMeans(disk, o);
    Positions(o);
    var ino := if Current(o).FillCopy? then o.copy else o.made[Current(o).member];
    var bytes :| disk' == SetFile(disk, ino, File(bytes, false));
    if Current(o).FillCopy? {
      FilesAfterCopy(o, disk.files, File(bytes, false));
      CopyPosition(o);
    } else {
      FilesAfterWrite(o, disk.files, Current(o).member, File(bytes, false));
    }
    SetFileOk(disk, ino, File(bytes, false));
    ConfinedFile(disk, ino, File(bytes, false), o.owned);
    SameReport(o, o');
    WrittenInPlace(disk, o, ino, File(bytes, false));
    SameWorkInPlace(disk', o, o');
  }

  lemma CopyPosition(o: Job)
    ensures HasCopy(o) || At(o) > 0 ==> o.pc > 0
  {
  }

  lemma SameReport(o: Job, o': Job)
    requires Reported(o) && o' == o.(touched := o'.touched)
    ensures Reported(o')
  {
  }

  lemma WrittenInPlace(disk: Disk, o: Job, ino: Ino, f: File)
    requires InPlace(disk, o) && ino in disk.files && DiskOk(SetFile(disk, ino, f))
    requires FilesInOrder(o, disk.files[ino := f])
    ensures InPlace(SetFile(disk, ino, f), o)
  {
    hide FilesInOrder, DirInOrder, MadeInOrder, DirOk;
  }

  /** What cleaning up removes: something from a private directory, or its name. */
  predicate Removes(o: Job, i: Ino, name: Name) {
    || (At(o) > TempAt(o) && (i == o.temp || (i == TempParent(o) && name == o.tempName)))
    || (HasScratch(o) && (i == o.scratch || (i == ROOT && name == o.scratchName)))
  }

  lemma DirAfterTidy(o: Job, g: Dir, name: Name)
    requires DirInOrder(o, g) && MadeInOrder(o) && name.Temporary?
    ensures DirInOrder(o, RemoveEntry(g, name))
  {
  }

  lemma TidiesOne(disk: Disk, o: Job, disk': Disk, o': Job) returns (i: Ino, name: Name)
    requires Tidies(disk, o, disk', o')
    ensures i in disk.dirs && disk' == SetDir(disk, i, RemoveEntry(disk.dirs[i], name)) && Removes(o, i, name)
  {
    hide SetDir, RemoveEntry, At, TempAt, TempParent;
    if At(o) > TempAt(o) && TidiesIn(disk, o.temp, TempParent(o), o.tempName, disk') {
      if n :| disk' == SetDir(disk, o.temp, RemoveEntry(disk.dirs[o.temp], n)) {
        return o.temp, n;
      }
      return TempParent(o), o.tempName;
    }
    if n :| disk' == SetDir(disk, o.scratch, RemoveEntry(disk.dirs[o.scratch], n)) {
      return o.scratch, n;
    }
    return ROOT, o.scratchName;
  }

  lemma RemovesOwn(disk: Disk, o: Job, i: Ino, name: Name)
    requires InPlace(disk, o) && Removes(o, i, name)
    ensures i in o.owned || (i == ROOT && name.Temporary?)
    ensures i == ROOT ==> name.Temporary?
    ensures At(o) > 0 && i == o.dir ==> name.Temporary?
    ensures o.pc > 0
  {
    OwnedMeans(disk, o);
    hide InPlace;
  }

  lemma TidiesKeeps(disk: Disk, o: Job, disk': Disk, o': Job)
    requires InPlace(disk, o) && Reported(o) && Tidies(disk, o, disk', o')
    ensures Kept(disk, disk', o')
  {
    hide *;
    InPlaceMeans(disk, o);
    OwnedMeans(disk, o);
    DiskOkMeans(disk);
    var i, name := TidiesOne(disk, o, disk', o');
    RemovesOwn(disk, o, i, name);
    DirsOk(disk.dirs[i], name, 0);
    SetDirOk(disk, i, RemoveEntry(disk.dirs[i], name));
    RootChanges(disk.dirs[ROOT], name, 0);
    ConfinedDir(disk, i, RemoveEntry(disk.dirs[i], name), o.owned);
    TidyTouches(disk, o, disk', o');
    SameReport(o, o');
    TidyInPlace(disk, o, i, name);
    SameWorkInPlace(disk', o, o');
    KeptFrom(disk, disk', o');
  }

  lemma KeptFrom(disk: Disk, disk': Disk, o': Job)
    requires InPlace(disk', o') && Reported(o') && Confined(disk, disk', o'.owned)
    ensures Kept(disk, disk', o')
  {
  }

  lemma TidyTouches(disk: Disk, o: Job, disk': Disk, o': Job)
    requires InPlace(disk, o) && Tidies(disk, o, disk', o')
    ensures o' == o.(touched := o'.touched) && o'.touched <= o'.owned + {ROOT} && SameWork(o, o')
  {
    OwnedMeans(disk, o);
    hide InPlace, TidiesIn, SetDir, RemoveEntry;
  }

  lemma TidyInPlace(disk: Disk, o: Job, i: Ino, name: Name)
    requires InPlace(disk, o) && Removes(o, i, name) && i in disk.dirs && DiskOk(SetDir(disk, i, RemoveEntry(disk.dirs[i], name)))
    ensures InPlace(SetDir(disk, i, RemoveEntry(disk.dirs[i], name)), o)
  {
    hide *;
    InPlaceMeans(disk, o);
    DiskOkMeans(disk);
    RemovesOwn(disk, o, i, name);
    var d := RemoveEntry(disk.dirs[i], name);
    if At(o) > 0 && i == o.dir {
      DirAfterTidy(o, disk.dirs[o.dir], name);
    }
    RootChanges(disk.dirs[ROOT], name, 0);
    FewerEntries(disk.dirs[i], name);
    ScratchesAfterTidy(disk, o, i, d);
    SetDirInPlace(disk, o, i, d);
  }

  lemma FewerEntries(g: Dir, name: Name)
    ensures RemoveEntry(g, name).entries.Keys <= g.entries.Keys
  {
  }

  lemma ScratchesAfterTidy(disk: Disk, o: Job, i: Ino, d: Dir)
    requires ScratchesInOrder(disk, o) && i in disk.dirs && d.entries.Keys <= disk.dirs[i].entries.Keys
    ensures ScratchesInOrder(SetDir(disk, i, d), o)
  {
    hide At, TempAt, HasScratch, HasCopy;
    if i == o.scratch && disk.dirs[i].entries == map[] {
      assert d.entries.Keys == {};
    }
  }

  lemma SetDirInPlace(disk: Disk, o: Job, i: Ino, d: Dir)
    requires InPlace(disk, o) && i in disk.dirs && DiskOk(SetDir(disk, i, d))
    requires i == ROOT ==> RootKept(disk.dirs[ROOT], d)
    requires At(o) > 0 && i == o.dir ==> DirInOrder(o, d)
    requires ScratchesInOrder(SetDir(disk, i, d), o)
    ensures InPlace(SetDir(disk, i, d), o)
  {
    hide FilesInOrder, DirInOrder, MadeInOrder, DirOk, ScratchesInOrder, Separate, HasScratch, HasCopy, At, TempAt;
  }

  lemma StepKeeps(disk: Disk, o: Job, disk': Disk, o': Job)
    requires InPlace(disk, o) && Reported(o) && Step(disk, o, disk', o')
    ensures Kept(disk, disk', o')
  {
    hide InPlace, Reported, Kept, Works, RaisesAfter, RaisesBefore, FindsTaken, Writes, Tidies;
    if Works(disk, o, disk', o') || RaisesAfter(disk, o, disk', o') {
      WorksKeeps(disk, o, disk', o');
    } else if RaisesBefore(disk, o, disk', o') || FindsTaken(disk, o, disk', o') {
      FailsKeeps(disk, o, disk', o');
    } else if Writes(disk, o, disk', o') {
      WritesKeeps(disk, o, disk', o');
    } else {
      TidiesKeeps(disk, o, disk', o');
    }
  }

  // ---------- A step leaves every other operation in place ----------

  lemma FilesElsewhere(q: Job, files: map<Ino, File>, files': map<Ino, File>)
    requires FilesInOrder(q, files) && forall m :: m in q.made && q.made[m] in files ==> q.made[m] in files' && files'[q.made[m]] == files[q.made[m]]
    ensures FilesInOrder(q, files')
  {
    hide Right;
  }

  lemma OthersKeep(disk: Disk, disk': Disk, owned: set<Ino>, q: Job)
    requires InPlace(disk, q) && Confined(disk, disk', owned) && q.owned !! owned
    ensures InPlace(disk', q)
  {
    hide InPlace, Holdings, FilesInOrder, DirInOrder, MadeInOrder, DirOk, DiskOk, Confined, Linked, Certain, Used, RootKept;
    InPlaceMeans(disk, q);
    OwnedMeans(disk, q);
    ConfinedMeans(disk, disk', owned);
    FilesElsewhere(q, disk.files, disk'.files);
    HoldingsElsewhere(disk, disk', owned, q);
    ScratchesElsewhere(disk, disk', q);
    InPlaceElsewhere(disk, disk', q);
  }

  lemma ConfinedMeans(disk: Disk, disk': Disk, owned: set<Ino>)
    requires Confined(disk, disk', owned)
    ensures ROOT in disk.dirs && DiskOk(disk') && ROOT in disk'.dirs && RootKept(disk.dirs[ROOT], disk'.dirs[ROOT])
    ensures forall i :: i in disk.files && i !in owned ==> i in disk'.files && disk'.files[i] == disk.files[i]
    ensures forall i :: i in disk.dirs && i !in owned && i != ROOT ==> i in disk'.dirs && disk'.dirs[i] == disk.dirs[i]
    ensures forall i :: Used(disk, i) ==> Used(disk', i)
    ensures forall i :: Used(disk', i) && !Used(disk, i) ==> i in owned
  {
    hide RootKept, DirOk;
  }

  lemma HoldingsElsewhere(disk: Disk, disk': Disk, owned: set<Ino>, q: Job)
    requires InPlace(disk, q) && Confined(disk, disk', owned) && q.owned !! owned
    ensures Holdings(disk', q)
  {
    hide FilesInOrder, DirInOrder, MadeInOrder, DirOk;
  }

  lemma ScratchesElsewhere(disk: Disk, disk': Disk, q: Job)
    requires ScratchesInOrder(disk, q)
    requires HasScratch(q) ==> q.scratch in disk.dirs && q.scratch in disk'.dirs && disk'.dirs[q.scratch] == disk.dirs[q.scratch]
    requires At(q) > TempAt(q) ==> q.temp in disk.dirs && q.temp in disk'.dirs && disk'.dirs[q.temp] == disk.dirs[q.temp]
    ensures ScratchesInOrder(disk', q)
  {
  }

  lemma InPlaceElsewhere(disk: Disk, disk': Disk, q: Job)
    requires InPlace(disk, q) && Holdings(disk', q) && FilesInOrder(q, disk'.files) && ScratchesInOrder(disk', q)
    requires ROOT in disk.dirs && ROOT in disk'.dirs && RootKept(disk.dirs[ROOT], disk'.dirs[ROOT])
    requires At(q) > 0 ==> q.dir in disk.dirs && q.dir in disk'.dirs && disk'.dirs[q.dir] == disk.dirs[q.dir]
    ensures InPlace(disk', q)
  {
    hide FilesInOrder, DirInOrder, MadeInOrder, DirOk, DiskOk, ScratchesInOrder;
  }

  // ---------- Many operations on one root ----------

  datatype System = System(disk: Disk, jobs: map<nat, Job>)

  /** Public names have never been removed, so none is possible that is not there. */
  predicate Settled(root: Dir) {
    forall e :: e in root.possible && e.0.Public? ==> e.0 in root.entries && root.entries[e.0] == e.1
  }

  ghost predicate Inv(s: System) {
    && DiskOk(s.disk) && Settled(s.disk.dirs[ROOT])
    && (forall p :: p in s.jobs ==> InPlace(s.disk, s.jobs[p]) && Reported(s.jobs[p]))
    && (forall p, q :: p in s.jobs && q in s.jobs && p != q ==> s.jobs[p].owned !! s.jobs[q].owned)
  }

  /** Directory entries name what exists, and never the root. */
  predicate Wired(disk: Disk) {
    forall i, n :: i in disk.dirs && n in disk.dirs[i].entries ==>
      disk.dirs[i].entries[n] != ROOT && Used(disk, disk.dirs[i].entries[n])
  }

  predicate Init(s: System) {
    && DiskOk(s.disk) && Settled(s.disk.dirs[ROOT]) && Wired(s.disk)
    && forall p :: p in s.jobs ==> Fresh(s.jobs[p])
  }

  /** Some operation takes a step; the others wait. */
  ghost predicate SystemStep(s: System, s': System) {
    && s'.jobs.Keys == s.jobs.Keys
    && exists p :: p in s.jobs && Step(s.disk, s.jobs[p], s'.disk, s'.jobs[p]) && s'.jobs == s.jobs[p := s'.jobs[p]]
  }

  ghost predicate Run(states: seq<System>) {
    && states != [] && Init(states[0])
    && forall i, j :: 0 <= i < j < |states| && j == i + 1 ==> SystemStep(states[i], states[j])
  }

  lemma AdvanceOwned(disk: Disk, o: Job, a: Action, c: Choice)
    requires Enabled(disk, o, a, c)
    ensures forall i :: i in Advance(o, a, c).owned && i !in o.owned ==> Unused(disk, i)
  {
    NewNames(disk, o, a, c);
    hide Enabled;
  }

  lemma OthersOwnNothingNew(disk: Disk, o: Job, disk': Disk, o': Job)
    requires RaisesBefore(disk, o, disk', o') || FindsTaken(disk, o, disk', o') || Writes(disk, o, disk', o') || Tidies(disk, o, disk', o')
    ensures o'.owned == o.owned
  {
    hide Current, Running, SetDir, SetFile, RemoveEntry;
  }

  /** What an operation has newly made was unused before. */
  lemma OwnedGrow(disk: Disk, o: Job, disk': Disk, o': Job)
    requires Step(disk, o, disk', o')
    ensures forall i :: i in o'.owned && i !in o.owned ==> Unused(disk, i)
  {
    hide Effect, Enabled, Current, RaisesBefore, FindsTaken, Writes, Tidies;
    if Works(disk, o, disk', o') || RaisesAfter(disk, o, disk', o') {
      var c :| Enabled(disk, o, Current(o), c) && disk' == Effect(disk, o, Current(o), c)
        && (o' == Failed(Advance(o, Current(o), c))
            || o' == (var n := Advance(o, Current(o), c); if n.pc == Calls(o) then n.(outcome := Some(Published)) else n));
      AdvanceOwned(disk, o, Current(o), c);
      var n := Advance(o, Current(o), c);
      assert o' == Failed(n) || o' == n.(outcome := Some(Published)) || o' == n;
    } else {
      OthersOwnNothingNew(disk, o, disk', o');
    }
  }

  lemma RootStaysSettled(disk: Disk, o: Job, disk': Disk, o': Job)
    requires InPlace(disk, o) && Step(disk, o, disk', o') && Settled(disk.dirs[ROOT])
    ensures ROOT in disk'.dirs && Settled(disk'.dirs[ROOT])
  {
    hide InPlace, Enabled, Effect, Advance, Current, Settled, RaisesBefore, FindsTaken, Writes, Tidies, Holdings, DiskOk;
    if Works(disk, o, disk', o') || RaisesAfter(disk, o, disk', o') {
      var c :| Enabled(disk, o, Current(o), c) && disk' == Effect(disk, o, Current(o), c);
      SettledEffect(disk, o, c);
    } else {
      SettledOtherwise(disk, o, disk', o');
    }
  }

  lemma SettledOtherwise(disk: Disk, o: Job, disk': Disk, o': Job)
    requires InPlace(disk, o) && Settled(disk.dirs[ROOT])
    requires RaisesBefore(disk, o, disk', o') || FindsTaken(disk, o, disk', o') || Writes(disk, o, disk', o') || Tidies(disk, o, disk', o')
    ensures ROOT in disk'.dirs && Settled(disk'.dirs[ROOT])
  {
    hide InPlace, Settled, Current, Running, Holdings, DiskOk, RemoveEntry, Tidies, At, TempAt, TempParent, Removes;
    OwnedMeans(disk, o);
    if Tidies(disk, o, disk', o') {
      var i, name := TidiesOne(disk, o, disk', o');
      RemovesOwn(disk, o, i, name);
      SettledChanges(disk.dirs[ROOT], name, 0);
    }
  }

  lemma SettledChanges(r: Dir, name: Name, ino: Ino)
    requires Settled(r)
    ensures name !in r.entries || !name.Public? ==> Settled(AddEntry(r, name, ino))
    ensures !name.Public? ==> Settled(RemoveEntry(r, name))
    ensures Settled(Settle(r))
  {
  }

  lemma SettledEffect(disk: Disk, o: Job, c: Choice)
    requires InPlace(disk, o) && Running(o) && Enabled(disk, o, Current(o), c) && Settled(disk.dirs[ROOT])
    ensures ROOT in Effect(disk, o, Current(o), c).dirs && Settled(Effect(disk, o, Current(o), c).dirs[ROOT])
  {
    hide *;
    OwnedMeans(disk, o);
    Positions(o);
    TempParentIs(o);
    SettledAt(disk, o, Current(o), c);
  }

  lemma SettledAt(disk: Disk, o: Job, a: Action, c: Choice)
    requires ROOT in disk.dirs && Enabled(disk, o, a, c) && Settled(disk.dirs[ROOT])
    requires a.Create? ==> Where(o, a.member) != ROOT
    requires a.SyncTarget? || a.Publish? || (o.protocol.Restore? && (a.MakeTemp? || a.RemoveTemp?)) ==> o.dir != ROOT
    requires a.RemoveStaged? ==> o.temp != ROOT
    requires a.RemoveTemp? ==> o.tempName.Temporary?
    requires a.CreateCopy? || a.RemoveCopy? ==> o.scratch != ROOT
    requires a.RemoveScratch? ==> o.scratchName.Temporary?
    ensures ROOT in Effect(disk, o, a, c).dirs && Settled(Effect(disk, o, a, c).dirs[ROOT])
  {
    SettledChanges(disk.dirs[ROOT], o.target, c.ino);
    SettledChanges(disk.dirs[ROOT], Temporary(c.token), c.ino);
    SettledChanges(disk.dirs[ROOT], o.tempName, 0);
    SettledChanges(disk.dirs[ROOT], o.scratchName, 0);
    hide Settled, AddEntry, RemoveEntry, Settle, Complete, HasMembers, IsDeclared;
  }

  lemma InitInv(s: System)
    requires Init(s)
    ensures Inv(s)
  {
    hide InPlace, Reported, DiskOk, Settled;
    forall p | p in s.jobs
      ensures InPlace(s.disk, s.jobs[p]) && Reported(s.jobs[p])
    {
      FreshHolds(s.disk, s.jobs[p]);
    }
  }

  lemma SystemStepKeeps(s: System, s': System)
    requires Inv(s) && SystemStep(s, s')
    ensures Inv(s')
  {
    hide InPlace, Reported, DiskOk, Settled, Step, Confined, Kept, Used;
    var p :| p in s.jobs && Step(s.disk, s.jobs[p], s'.disk, s'.jobs[p]) && s'.jobs == s.jobs[p := s'.jobs[p]];
    var o, o' := s.jobs[p], s'.jobs[p];
    StepKeeps(s.disk, o, s'.disk, o');
    KeptMeans(s.disk, s'.disk, o');
    ConfinedMeans(s.disk, s'.disk, o'.owned);
    RootStaysSettled(s.disk, o, s'.disk, o');
    OwnedGrow(s.disk, o, s'.disk, o');
    forall q | q in s.jobs && q != p
      ensures s.jobs[q].owned !! o'.owned && InPlace(s'.disk, s.jobs[q])
    {
      OwnedMeans(s.disk, s.jobs[q]);
      UsedMeans(s.disk);
      OthersKeep(s.disk, s'.disk, o'.owned, s.jobs[q]);
    }
  }

  lemma UsedMeans(disk: Disk)
    ensures forall i :: Used(disk, i) <==> !Unused(disk, i)
  {
  }

  lemma KeptMeans(disk: Disk, disk': Disk, o': Job)
    requires Kept(disk, disk', o')
    ensures InPlace(disk', o') && Reported(o') && Confined(disk, disk', o'.owned)
  {
  }

  /** The invariant holds in every state of every run. */
  lemma {:induction false} RunKeepsInv(states: seq<System>, n: nat)
    requires Run(states) && n < |states|
    ensures Inv(states[n])
  {
    hide Inv, SystemStep, Init;
    if n == 0 {
      InitInv(states[0]);
    } else {
      RunKeepsInv(states, n - 1);
      SystemStepKeeps(states[n - 1], states[n]);
    }
  }

  // ---------- What an operation is asked to do never changes ----------

  predicate SameRequest(o: Job, o': Job) {
    o'.protocol == o.protocol && o'.target == o.target && o'.manifest == o.manifest && o'.marker == o.marker
  }

  lemma AdvanceSameRequest(o: Job, a: Action, c: Choice)
    ensures SameRequest(o, Advance(o, a, c))
  {
  }

  lemma StepSameRequest(disk: Disk, o: Job, disk': Disk, o': Job)
    requires Step(disk, o, disk', o')
    ensures SameRequest(o, o')
  {
    hide Effect, Enabled, Current, Running, SetDir, SetFile, RemoveEntry;
    if Works(disk, o, disk', o') || RaisesAfter(disk, o, disk', o') {
      var c :| Enabled(disk, o, Current(o), c) && disk' == Effect(disk, o, Current(o), c)
        && (o' == Failed(Advance(o, Current(o), c))
            || o' == (var n := Advance(o, Current(o), c); if n.pc == Calls(o) then n.(outcome := Some(Published)) else n));
      AdvanceSameRequest(o, Current(o), c);
      var n := Advance(o, Current(o), c);
      assert o' == Failed(n) || o' == n.(outcome := Some(Published)) || o' == n;
      hide Advance;
    }
  }

  lemma {:induction false} RunSameRequests(states: seq<System>, n: nat, p: nat)
    requires Run(states) && n < |states| && p in states[0].jobs
    ensures p in states[n].jobs && SameRequest(states[0].jobs[p], states[n].jobs[p])
  {
    hide Step, Init;
    if n > 0 {
      RunSameRequests(states, n - 1, p);
      var s, s' := states[n - 1], states[n];
      assert SystemStep(s, s');
      var q :| q in s.jobs && Step(s.disk, s.jobs[q], s'.disk, s'.jobs[q]) && s'.jobs == s.jobs[q := s'.jobs[q]];
      StepSameRequest(s.disk, s.jobs[q], s'.disk, s'.jobs[q]);
    }
  }
}
