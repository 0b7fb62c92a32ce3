/** Which names an operation gives to its own directories and files, over whole runs: what it has made
    is reachable only through its own directories, its target and its private names. */
module PublicationNames {
  import opened Records
  import opened Volume
  import opened Publication
  import opened PublicationInvariant
  import opened PublicationRuns

  /** Where an operation may have entered something of its own. */
  predicate OwnPlace(o: Job, i: Ino, n: Name) {
    i in o.owned || (i == ROOT && (n.Public? ==> n == o.target && At(o) > 0))
  }

  /** No other directory names what the operation has made. */
  ghost predicate Apart(disk: Disk, o: Job) {
    forall i, n :: i in disk.dirs && n in disk.dirs[i].entries && disk.dirs[i].entries[n] in o.owned ==> OwnPlace(o, i, n)
  }

  predicate HasEntry(disk: Disk, i: Ino, n: Name, x: Ino) {
    i in disk.dirs && n in disk.dirs[i].entries && disk.dirs[i].entries[n] == x
  }

  /** What a step enters is the operation's own, in its own places. */
  ghost predicate AddsOwn(disk: Disk, disk': Disk, o': Job) {
    forall i, n :: i in disk'.dirs && n in disk'.dirs[i].entries ==>
      var x := disk'.dirs[i].entries[n];
      HasEntry(disk, i, n, x) || (x in o'.owned && OwnPlace(o', i, n))
  }

  /** One entry more, or one entry less, or a directory made durable. */
  lemma SetDirAdds(disk: Disk, i: Ino, d: Dir, o': Job, name: Name)
    requires i in disk.dirs
    requires forall n :: n in d.entries ==>
               || (n in disk.dirs[i].entries && disk.dirs[i].entries[n] == d.entries[n])
               || (n == name && d.entries[n] in o'.owned && OwnPlace(o', i, n))
    ensures AddsOwn(disk, SetDir(disk, i, d), o')
  {
    hide OwnPlace;
  }

  lemma MakeDirAdds(disk: Disk, parent: Ino, name: Name, ino: Ino, o': Job)
    requires parent in disk.dirs && Unused(disk, ino) && ino in o'.owned && OwnPlace(o', parent, name)
    ensures AddsOwn(disk, MakeDir(disk, parent, name, ino), o')
  {
    hide OwnPlace;
  }

  lemma MakeFileAdds(disk: Disk, dir: Ino, name: Name, ino: Ino, o': Job)
    requires dir in disk.dirs && ino in o'.owned && OwnPlace(o', dir, name)
    ensures AddsOwn(disk, MakeFile(disk, dir, name, ino), o')
  {
    hide OwnPlace;
  }

  lemma NothingAdded(disk: Disk, disk': Disk, o': Job)
    requires disk'.dirs == disk.dirs
    ensures AddsOwn(disk, disk', o')
  {
  }

  lemma EntriesAfter(d: Dir, name: Name, ino: Ino)
    ensures AddEntry(d, name, ino).entries == d.entries[name := ino]
    ensures RemoveEntry(d, name).entries == d.entries - {name}
    ensures Settle(d).entries == d.entries
  {
  }

  lemma AdvanceOwns(o: Job, a: Action, c: Choice)
    ensures var n := Advance(o, a, c);
            && n.target == o.target && n.protocol == o.protocol && At(n) == At(o) + 1 && o.owned <= n.owned
            && (a.MakeScratch? || a.CreateCopy? || a.MakeTarget? || a.MakeTemp? || a.Create? ==> c.ino in n.owned)
  {
  }

  /** The places in which calls enter something. */
  lemma EffectAdds(disk: Disk, o: Job, a: Action, c: Choice)
    requires Enabled(disk, o, a, c) && ROOT !in o.owned
    requires a.MakeTarget? ==> At(o) == 0
    requires a.CreateCopy? ==> o.scratch in o.owned
    requires a.MakeTemp? && o.protocol.Restore? ==> o.dir in o.owned
    requires a.Create? ==> Where(o, a.member) in o.owned
    requires a.Publish? && a.member in o.made ==> o.dir in o.owned && o.made[a.member] in o.owned
    ensures AddsOwn(disk, Effect(disk, o, a, c), Advance(o, a, c))
  {
    hide AddsOwn, MakeDir, MakeFile, SetDir, AddEntry, RemoveEntry, Settle, Complete, HasMembers, IsDeclared, Unused, Advance;
    var o' := Advance(o, a, c);
    AdvanceOwns(o, a, c);
    match a
    case MakeScratch => MakeDirAdds(disk, ROOT, Temporary(c.token), c.ino, o');
    case CreateCopy => MakeFileAdds(disk, o.scratch, DatabaseFile, c.ino, o');
    case MakeTarget => MakeDirAdds(disk, ROOT, o.target, c.ino, o');
    case MakeTemp => MakeDirAdds(disk, TempParent(o), Temporary(c.token), c.ino, o');
    case Create(m) => MakeFileAdds(disk, Where(o, m), m, c.ino, o');
    case SyncMember(m) => FileSet(disk, o.made[m], disk.files[o.made[m]].(synced := true), o');
    case SyncTarget =>
      EntriesAfter(disk.dirs[o.dir], o.target, 0);
      SetDirAdds(disk, o.dir, Settle(disk.dirs[o.dir]), o', o.target);
    case SyncRoot =>
      EntriesAfter(disk.dirs[ROOT], o.target, 0);
      SetDirAdds(disk, ROOT, Settle(disk.dirs[ROOT]), o', o.target);
    case Publish(m) =>
      EntriesAfter(disk.dirs[o.dir], m, o.made[m]);
      SetDirAdds(disk, o.dir, AddEntry(disk.dirs[o.dir], m, o.made[m]), o', m);
    case RemoveStaged(m) =>
      EntriesAfter(disk.dirs[o.temp], m, 0);
      SetDirAdds(disk, o.temp, RemoveEntry(disk.dirs[o.temp], m), o', m);
    case RemoveTemp =>
      EntriesAfter(disk.dirs[TempParent(o)], o.tempName, 0);
      SetDirAdds(disk, TempParent(o), RemoveEntry(disk.dirs[TempParent(o)], o.tempName), o', o.tempName);
    case RemoveCopy =>
      EntriesAfter(disk.dirs[o.scratch], DatabaseFile, 0);
      SetDirAdds(disk, o.scratch, RemoveEntry(disk.dirs[o.scratch], DatabaseFile), o', DatabaseFile);
    case RemoveScratch =>
      EntriesAfter(disk.dirs[ROOT], o.scratchName, 0);
      SetDirAdds(disk, ROOT, RemoveEntry(disk.dirs[ROOT], o.scratchName), o', o.scratchName);
    case _ => NothingAdded(disk, disk, o');
  }

  lemma FileSet(disk: Disk, ino: Ino, f: File, o': Job)
    ensures AddsOwn(disk, SetFile(disk, ino, f), o')
  {
    NothingAdded(disk, SetFile(disk, ino, f), o');
  }

  /** Only the owner's places count, so a later report of the same operation adds the same. */
  lemma AddsSame(disk: Disk, disk': Disk, n: Job, o': Job)
    requires AddsOwn(disk, disk', n) && o'.owned == n.owned && o'.target == n.target && o'.pc == n.pc && o'.protocol == n.protocol
    ensures AddsOwn(disk, disk', o')
  {
  }

  lemma WorksAdds(disk: Disk, o: Job, disk': Disk, o': Job)
    requires InPlace(disk, o) && (Works(disk, o, disk', o') || RaisesAfter(disk, o, disk', o'))
    ensures AddsOwn(disk, disk', o') && o.owned <= o'.owned && o'.target == o.target && At(o') > At(o)
  {
    hide InPlace, Enabled, Effect, Current, AddsOwn, Advance, Running;
    var c :| Enabled(disk, o, Current(o), c) && disk' == Effect(disk, o, Current(o), c)
      && (o' == Failed(Advance(o, Current(o), c))
          || o' == (var n := Advance(o, Current(o), c); if n.pc == Calls(o) then n.(outcome := Some(Published)) else n));
    OwnedMeans(disk, o);
    Positions(o);
    TempParentIs(o);
    AdvanceOwns(o, Current(o), c);
    EffectAdds(disk, o, Current(o), c);
    var n := Advance(o, Current(o), c);
    assert o' == Failed(n) || o' == n.(outcome := Some(Published)) || o' == n;
    AddsSame(disk, disk', n, o');
  }

  lemma OtherwiseAdds(disk: Disk, o: Job, disk': Disk, o': Job)
    requires RaisesBefore(disk, o, disk', o') || FindsTaken(disk, o, disk', o') || Writes(disk, o, disk', o') || Tidies(disk, o, disk', o')
    ensures AddsOwn(disk, disk', o') && o'.owned == o.owned && o'.target == o.target && At(o') == At(o)
  {
    hide Current, Running, AddsOwn, RemoveEntry, SetDir, Occupied, TidiesIn;
    if Tidies(disk, o, disk', o') {
      var i, name := TidiesOne(disk, o, disk', o');
      EntriesAfter(disk.dirs[i], name, 0);
      SetDirAdds(disk, i, RemoveEntry(disk.dirs[i], name), o', name);
    } else {
      NothingAdded(disk, disk', o');
    }
  }

  lemma StepAdds(disk: Disk, o: Job, disk': Disk, o': Job)
    requires InPlace(disk, o) && Step(disk, o, disk', o')
    ensures AddsOwn(disk, disk', o') && o.owned <= o'.owned && o'.target == o.target && At(o') >= At(o)
  {
    hide InPlace, Works, RaisesAfter, RaisesBefore, FindsTaken, Writes, Tidies, AddsOwn, At;
    if Works(disk, o, disk', o') || RaisesAfter(disk, o, disk', o') {
      WorksAdds(disk, o, disk', o');
    } else {
      OtherwiseAdds(disk, o, disk', o');
    }
  }

  // ---------- Kept by every step ----------

  lemma WiredAfter(disk: Disk, disk': Disk, o': Job)
    requires Wired(disk) && AddsOwn(disk, disk', o') && ROOT !in o'.owned
    requires forall i :: Used(disk, i) ==> Used(disk', i)
    requires forall i :: i in o'.owned ==> Used(disk', i)
    ensures Wired(disk')
  {
    hide Used, OwnPlace;
  }

  lemma ApartSelf(disk: Disk, o: Job, disk': Disk, o': Job)
    requires Wired(disk) && Apart(disk, o) && AddsOwn(disk, disk', o')
    requires o.owned <= o'.owned && o'.target == o.target && At(o') >= At(o)
    requires forall i :: i in o'.owned && i !in o.owned ==> !Used(disk, i)
    ensures Apart(disk', o')
  {
    hide Used, At;
    forall i, n | i in disk'.dirs && n in disk'.dirs[i].entries && disk'.dirs[i].entries[n] in o'.owned
      ensures OwnPlace(o', i, n)
    {
      var x := disk'.dirs[i].entries[n];
      if HasEntry(disk, i, n, x) {
        assert Used(disk, disk.dirs[i].entries[n]);
        assert OwnPlace(o, i, n);
      }
    }
  }

  lemma ApartOther(disk: Disk, disk': Disk, o': Job, q: Job)
    requires Apart(disk, q) && AddsOwn(disk, disk', o') && q.owned !! o'.owned
    ensures Apart(disk', q)
  {
    hide OwnPlace;
  }

  /** The name that an operation found taken is still there. */
  ghost predicate TakenStays(disk: Disk, o: Job) {
    o.outcome == Some(TargetExists) && !o.collided ==> ROOT in disk.dirs && o.target in disk.dirs[ROOT].entries
  }

  ghost predicate Named(s: System) {
    && Inv(s) && Wired(s.disk)
    && forall p :: p in s.jobs ==> Apart(s.disk, s.jobs[p]) && TakenStays(s.disk, s.jobs[p])
  }

  lemma TakenKept(disk: Disk, disk': Disk, q: Job)
    requires TakenStays(disk, q) && q.target.Public? && ROOT in disk.dirs && ROOT in disk'.dirs && RootKept(disk.dirs[ROOT], disk'.dirs[ROOT])
    ensures TakenStays(disk', q)
  {
  }

  lemma StillTaken(disk: Disk, o: Job, disk': Disk, o': Job)
    requires InPlace(disk, o) && Reported(o) && Step(disk, o, disk', o') && TakenStays(disk, o)
    requires ROOT in disk.dirs && ROOT in disk'.dirs && RootKept(disk.dirs[ROOT], disk'.dirs[ROOT])
    ensures TakenStays(disk', o')
  {
    hide InPlace, Reported, Works, RaisesAfter, RaisesBefore, Writes, Tidies, Current, Running, RootKept;
    OwnedMeans(disk, o);
    if FindsTaken(disk, o, disk', o') {
      var c :| Occupied(disk, o, Current(o), c);
      OwnNamesAreFree(disk, o, c);
    } else {
      NotNewlyTaken(disk, o, disk', o');
      if o'.outcome == Some(TargetExists) {
        TakenKept(disk, disk', o);
      }
    }
  }

  lemma NotNewlyTaken(disk: Disk, o: Job, disk': Disk, o': Job)
    requires Step(disk, o, disk', o') && !FindsTaken(disk, o, disk', o')
    ensures o'.outcome == Some(TargetExists) ==> o.outcome == o'.outcome && o'.collided == o.collided && o'.target == o.target
  {
    hide FindsTaken, Effect, Enabled, Current, TidiesIn, SetFile, At, Calls, Stages;
    if Works(disk, o, disk', o') || RaisesAfter(disk, o, disk', o') {
      var c :| Enabled(disk, o, Current(o), c) && disk' == Effect(disk, o, Current(o), c)
        && (o' == Failed(Advance(o, Current(o), c))
            || o' == (var n := Advance(o, Current(o), c); if n.pc == Calls(o) then n.(outcome := Some(Published)) else n));
      AdvanceReport(o, Current(o), c);
      hide Advance;
    }
  }

  lemma InitNamed(s: System)
    requires Init(s)
    ensures Named(s)
  {
    InitInv(s);
    hide Inv, Settled, DiskOk, Wired, OwnPlace;
  }

  lemma SystemStepNamed(s: System, s': System)
    requires Named(s) && SystemStep(s, s')
    ensures Named(s')
  {
    hide InPlace, Reported, DiskOk, Settled, Step, Confined, Kept, Used, Wired, Apart, TakenStays, AddsOwn, RootKept, At;
    SystemStepKeeps(s, s');
    var p :| p in s.jobs && Step(s.disk, s.jobs[p], s'.disk, s'.jobs[p]) && s'.jobs == s.jobs[p := s'.jobs[p]];
    var o, o' := s.jobs[p], s'.jobs[p];
    StepKeeps(s.disk, o, s'.disk, o');
    KeptMeans(s.disk, s'.disk, o');
    ConfinedMeans(s.disk, s'.disk, o'.owned);
    OwnedMeans(s'.disk, o');
    OwnedGrow(s.disk, o, s'.disk, o');
    UsedMeans(s.disk);
    StepAdds(s.disk, o, s'.disk, o');
    WiredAfter(s.disk, s'.disk, o');
    ApartSelf(s.disk, o, s'.disk, o');
    StillTaken(s.disk, o, s'.disk, o');
    forall q | q in s.jobs && q != p
      ensures Apart(s'.disk, s.jobs[q]) && TakenStays(s'.disk, s.jobs[q])
    {
      OwnedMeans(s.disk, s.jobs[q]);
      assert s'.jobs[q] == s.jobs[q];
      ApartOther(s.disk, s'.disk, o', s.jobs[q]);
      TakenKept(s.disk, s'.disk, s.jobs[q]);
    }
  }

  /** In every state of every run, what an operation has made is named only where the operation may
      enter it, and a target that was found taken is still taken. */
  lemma {:induction false} RunKeepsNamed(states: seq<System>, n: nat)
    requires Run(states) && n < |states|
    ensures Named(states[n])
  {
    hide Named, SystemStep, Init;
    if n == 0 {
      InitNamed(states[0]);
    } else {
      RunKeepsNamed(states, n - 1);
      SystemStepNamed(states[n - 1], states[n]);
    }
  }
}
