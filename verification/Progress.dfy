/** What an operation can still achieve: whatever has happened so far, an operation that has not failed
    and whose target is free or its own can go on and publish. */
module Progress {
  import opened Records
  import opened Volume
  import opened Publication
  import opened PublicationInvariant
  import opened PublicationRuns
  import opened Snapshots

  // ---------- Continuations ----------

  /** A continuation in which operation `p` takes every step and the others wait. */
  ghost predicate Alone(states: seq<System>, p: nat) {
    && states != []
    && forall i, j :: 0 <= i < j < |states| && j == i + 1 ==> StepBy(states[i], p, states[j])
  }

  ghost predicate StepBy(s: System, p: nat, s': System) {
    && p in s.jobs && s'.jobs.Keys == s.jobs.Keys
    && Step(s.disk, s.jobs[p], s'.disk, s'.jobs[p]) && s'.jobs == s.jobs[p := s'.jobs[p]]
  }

  function Last(states: seq<System>): System
    requires states != []
  {
    states[|states| - 1]
  }

  /** One continuation after the other; the second begins where the first ends. */
  lemma Joined(first: seq<System>, second: seq<System>, p: nat)
    requires Alone(first, p) && Alone(second, p) && second[0] == Last(first)
    ensures Alone(first + second[1..], p) && (first + second[1..])[0] == first[0]
        && Last(first + second[1..]) == Last(second)
  {
    hide StepBy;
    var all := first + second[1..];
    forall i, j | 0 <= i < j < |all| && j == i + 1
      ensures StepBy(all[i], p, all[j])
    {
      if j >= |first| {
        assert all[j] == second[j - |first| + 1] && all[i] == second[i - |first| + 1];
      }
    }
  }

  /** What a run goes on with belongs to a run. */
  lemma Continued(states: seq<System>, more: seq<System>, p: nat)
    requires Run(states) && Alone(more, p) && more[0] == Last(states)
    ensures Run(states + more[1..]) && Last(states + more[1..]) == Last(more)
  {
    hide StepBy, SystemStep, Init;
    var all := states + more[1..];
    forall i, j | 0 <= i < j < |all| && j == i + 1
      ensures SystemStep(all[i], all[j])
    {
      if j >= |states| {
        assert all[j] == more[j - |states| + 1] && all[i] == more[i - |states| + 1];
        StepByIsStep(all[i], p, all[j]);
      }
    }
  }

  lemma AloneStarts(path: seq<System>, p: nat)
    requires Alone(path, p)
    ensures path != []
  {
  }

  lemma StepByIsStep(s: System, p: nat, s': System)
    requires StepBy(s, p, s')
    ensures SystemStep(s, s')
  {
    hide Step;
  }

  // ---------- What the next call needs ----------

  /** The operation has not failed, its request can be met, and its target is its own or free. */
  ghost predicate Ready(disk: Disk, o: Job, database: Bytes) {
    && Running(o) && ROOT in disk.dirs
    && (o.protocol.Seal? ==> WellBound(o)) && IsDeclared(o.manifest, database)
    && (At(o) <= 0 ==> o.target !in disk.dirs[ROOT].entries)
  }

  /** An inode and a random name that nobody uses. */
  predicate Unclaimed(disk: Disk, c: Choice) {
    Unused(disk, c.ino) && forall i :: i in disk.dirs ==> Temporary(c.token) !in disk.dirs[i].entries
  }

  lemma {:induction false} Above(inos: set<Ino>) returns (n: nat)
    ensures forall i :: i in inos ==> i < n
  {
    if inos == {} {
      n := 0;
    } else {
      var i :| i in inos;
      var m := Above(inos - {i});
      n := if m <= i then i + 1 else m;
      assert forall j :: j in inos ==> j == i || j in inos - {i};
    }
  }

  function Tokens(names: set<Name>): (tokens: set<nat>)
    ensures forall n :: n in names && n.Temporary? ==> n.token in tokens
  {
    set n | n in names && n.Temporary? :: n.token
  }

  function AllNames(disk: Disk): set<Name> {
    set i, n | i in disk.dirs && n in disk.dirs[i].entries :: n
  }

  lemma SomethingUnclaimed(disk: Disk) returns (c: Choice)
    ensures Unclaimed(disk, c)
  {
    var ino := Above(disk.files.Keys + disk.dirs.Keys);
    var token := Above(Tokens(AllNames(disk)));
    c := Choice(ino, token);
  }

  /** The bytes that a file must have before the call that fills it returns. */
  function Wanted(o: Job, database: Bytes): Bytes {
    if Current(o) == Fill(ManifestFile) then o.manifest else if Current(o) == Fill(MarkerFile) then o.marker else database
  }

  /** The file that the next call fills. */
  predicate Filling(o: Job) { Current(o).FillCopy? || Current(o).Fill? }

  function Target(o: Job): Ino {
    if Current(o).Fill? && Current(o).member in o.made then o.made[Current(o).member] else o.copy
  }

  predicate HasWanted(disk: Disk, o: Job, database: Bytes) {
    Filling(o) ==> Target(o) in disk.files && disk.files[Target(o)].bytes == Wanted(o, database)
  }

  lemma MembersNeeded(o: Job)
    requires Running(o) && MadeInOrder(o)
    ensures Current(o).Fill? || Current(o).SyncMember? || Current(o).Publish? ==> Current(o).member in o.made
    ensures Current(o).Fill? ==> Current(o).member in MEMBERS
    ensures Current(o).CheckAbsent? ==> At(o) <= 0
  {
  }

  /** Before the target there are the four calls of a creation, or the first of a restore. */
  lemma Early(o: Job)
    requires Running(o) && At(o) < 0
    ensures Current(o).CheckAbsent? || Current(o).MakeScratch? || Current(o).CreateCopy? || Current(o).FillCopy?
  {
  }

  lemma FilledIsRight(o: Job, m: Name, database: Bytes)
    requires Current(o) == Fill(m) && m in MEMBERS && IsDeclared(o.manifest, database)
    ensures Right(o, m, Wanted(o, database))
  {
    hide IsDeclared, Current;
  }

  lemma ReadyMeans(disk: Disk, o: Job, database: Bytes)
    requires Ready(disk, o, database)
    ensures Running(o) && ROOT in disk.dirs && IsDeclared(o.manifest, database)
    ensures o.protocol.Seal? ==> WellBound(o)
    ensures At(o) <= 0 ==> o.target !in disk.dirs[ROOT].entries
  {
  }

  lemma FillEnabled(disk: Disk, o: Job, database: Bytes, c: Choice)
    requires Filling(o) && HasWanted(disk, o, database) && IsDeclared(o.manifest, database)
    requires Current(o).Fill? ==> Current(o).member in o.made && Current(o).member in MEMBERS
    ensures Enabled(disk, o, Current(o), c)
  {
    hide Current, IsDeclared;
    if Current(o).Fill? {
      FilledIsRight(o, Current(o).member, database);
    }
  }

  lemma OtherEnabled(disk: Disk, o: Job, c: Choice)
    requires !Filling(o) && Current(o) != ReadBack && Current(o) != FinalCheck && Unclaimed(disk, c) && ROOT in disk.dirs
    requires Occupied(disk, o, Current(o), c) ==> Collides(Current(o)) || Current(o).CheckAbsent? || Current(o).MakeTarget?
    requires Current(o).CheckAbsent? || Current(o).MakeTarget? ==> o.target !in disk.dirs[ROOT].entries
    requires Current(o).CreateCopy? || Current(o).RemoveCopy? ==> o.scratch in disk.dirs
    requires Current(o).MakeTemp? || Current(o).RemoveTemp? ==> TempParent(o) in disk.dirs
    requires Current(o).Create? ==> Where(o, Current(o).member) in disk.dirs
    requires Current(o).Fill? || Current(o).SyncMember? || Current(o).Publish? ==> MemberThere(disk, o, Current(o).member)
    requires Current(o).SyncTarget? || Current(o).Publish? ==> o.dir in disk.dirs
    requires Current(o).RemoveStaged? ==> o.temp in disk.dirs
    ensures Enabled(disk, o, Current(o), c)
  {
    hide Current, Where, TempParent, MemberThere;
  }

  /** With the right bytes in the file that is being filled, the next call can take effect. */
  lemma NextIsEnabled(disk: Disk, o: Job, database: Bytes, c: Choice)
    requires InPlace(disk, o) && Ready(disk, o, database) && HasWanted(disk, o, database) && Unclaimed(disk, c)
    ensures Enabled(disk, o, Current(o), c)
  {
    hide *;
    ReadyMeans(disk, o, database);
    InPlaceMeans(disk, o);
    OwnedMeans(disk, o);
    CopyPositions(o);
    Positions(o);
    MembersNeeded(o);
    TempParentIs(o);
    if Current(o) == ReadBack || Current(o) == FinalCheck {
      if o.protocol.Seal? {
        SealChecksSucceed(disk, o, c);
      } else {
        RestoreChecksSucceed(disk, o, c);
      }
    } else if Filling(o) {
      FillEnabled(disk, o, database, c);
    } else {
      if Occupied(disk, o, Current(o), c) {
        OwnNamesAreFree(disk, o, c);
      }
      PlacesAreThere(disk, o);
      OtherEnabled(disk, o, c);
    }
  }

  lemma PlacesAreThere(disk: Disk, o: Job)
    requires InPlace(disk, o) && Running(o)
    ensures Current(o).CreateCopy? || Current(o).RemoveCopy? ==> o.scratch in disk.dirs
    ensures Current(o).MakeTemp? || Current(o).RemoveTemp? ==> TempParent(o) in disk.dirs
    ensures Current(o).Create? ==> Where(o, Current(o).member) in disk.dirs
    ensures Current(o).Fill? || Current(o).SyncMember? || Current(o).Publish? ==> MemberThere(disk, o, Current(o).member)
    ensures Current(o).SyncTarget? || Current(o).Publish? ==> o.dir in disk.dirs
    ensures Current(o).RemoveStaged? ==> o.temp in disk.dirs
  {
    hide InPlace, Current, Running, HasScratch, HasCopy, Separate;
    InPlaceMeans(disk, o);
    OwnedMeans(disk, o);
    CopyPositions(o);
    Positions(o);
    MembersNeeded(o);
    RemovesLate(o);
  }

  lemma RemovesLate(o: Job)
    requires Running(o)
    ensures Current(o).RemoveTemp? ==> At(o) > TempAt(o)
    ensures o.protocol.Restore? && (Current(o).MakeTemp? || Current(o).RemoveTemp?) ==> At(o) > 0
  {
  }

  // ---------- One call further ----------

  /** The state after a step of operation `p`. */
  function After(s: System, p: nat, disk: Disk, o: Job): System { System(disk, s.jobs[p := o]) }

  lemma AfterStep(s: System, p: nat, disk: Disk, o: Job) returns (t: System)
    requires Inv(s) && p in s.jobs && Step(s.disk, s.jobs[p], disk, o)
    ensures t.disk == disk && p in t.jobs && t.jobs[p] == o
    ensures StepBy(s, p, t) && Inv(t)
  {
    t := After(s, p, disk, o);
    hide Step, Inv;
    StepByIsStep(s, p, After(s, p, disk, o));
    SystemStepKeeps(s, After(s, p, disk, o));
  }

  /** The file that is being filled gets its bytes. */
  lemma WriteWanted(disk: Disk, o: Job, database: Bytes)
    requires InPlace(disk, o) && Ready(disk, o, database) && Filling(o)
    ensures var disk', o' := SetFile(disk, Target(o), File(Wanted(o, database), false)), o.(touched := o.touched + {Target(o)});
            Step(disk, o, disk', o') && Ready(disk', o', database) && HasWanted(disk', o', database)
  {
    ReadyMeans(disk, o, database);
    PlacesAreThere(disk, o);
    OwnedMeans(disk, o);
    Positions(o);
    WriteIsStep(disk, o, Wanted(o, database));
    WriteKeepsReady(disk, o, database);
    hide InPlace, Ready, HasWanted, Current, Works, RaisesAfter, RaisesBefore, FindsTaken, Writes, Tidies, SetFile;
  }

  lemma WriteIsStep(disk: Disk, o: Job, bytes: Bytes)
    requires Running(o) && Filling(o)
    requires Current(o).FillCopy? ==> o.copy in disk.files
    requires Current(o).Fill? ==> MemberThere(disk, o, Current(o).member)
    ensures Writes(disk, o, SetFile(disk, Target(o), File(bytes, false)), o.(touched := o.touched + {Target(o)}))
  {
    hide Current, Running, SetFile;
  }

  lemma WriteKeepsReady(disk: Disk, o: Job, database: Bytes)
    requires Ready(disk, o, database) && Filling(o)
    ensures var disk', o' := SetFile(disk, Target(o), File(Wanted(o, database), false)), o.(touched := o.touched + {Target(o)});
            Ready(disk', o', database) && HasWanted(disk', o', database)
  {
    SameCall(o, o.touched + {Target(o)});
    hide Current, IsDeclared;
  }

  lemma SameCall(o: Job, touched: set<Ino>)
    ensures Current(o.(touched := touched)) == Current(o)
  {
  }

  /** The job after its call has worked. */
  function Worked(o: Job, c: Choice): Job {
    var n := Advance(o, Current(o), c);
    if n.pc == Calls(o) then n.(outcome := Some(Published)) else n
  }

  lemma WorkedStep(disk: Disk, o: Job, c: Choice)
    requires Running(o) && Enabled(disk, o, Current(o), c)
    ensures Step(disk, o, Effect(disk, o, Current(o), c), Worked(o, c))
  {
    hide Enabled, Effect, Current, Running, Advance;
    assert Works(disk, o, Effect(disk, o, Current(o), c), Worked(o, c));
  }

  /** Until the target is made, nothing takes its name. */
  lemma TargetStaysFree(disk: Disk, o: Job, c: Choice)
    requires InPlace(disk, o) && Running(o) && Enabled(disk, o, Current(o), c) && At(o) < 0
    requires ROOT in disk.dirs && o.target !in disk.dirs[ROOT].entries
    ensures var d := Effect(disk, o, Current(o), c); ROOT in d.dirs && o.target !in d.dirs[ROOT].entries
  {
    OwnedMeans(disk, o);
    Positions(o);
    Early(o);
    hide InPlace, Current, Running, At, HasScratch, HasCopy, Separate;
  }

  lemma StillReady(disk: Disk, o: Job, database: Bytes, c: Choice)
    requires InPlace(disk, o) && Ready(disk, o, database) && Enabled(disk, o, Current(o), c)
    ensures Calls(Worked(o, c)) == Calls(o)
    ensures if o.pc + 1 == Calls(o) then Worked(o, c).outcome == Some(Published)
            else Worked(o, c).pc == o.pc + 1 && Ready(Effect(disk, o, Current(o), c), Worked(o, c), database)
  {
    var n, d := Advance(o, Current(o), c), Effect(disk, o, Current(o), c);
    AdvanceSameRequest(o, Current(o), c);
    AdvanceReport(o, Current(o), c);
    EffectInPlace(disk, o, c);
    OwnedMeans(d, n);
    if At(o) < 0 {
      TargetStaysFree(disk, o, c);
    }
    hide InPlace, Enabled, Effect, Advance, Current, IsDeclared;
  }

  /** With the right bytes in place the next call works. */
  lemma CallWorksNow(s: System, p: nat, database: Bytes) returns (t: System)
    requires Inv(s) && p in s.jobs && Ready(s.disk, s.jobs[p], database) && HasWanted(s.disk, s.jobs[p], database)
    ensures StepBy(s, p, t) && Inv(t) && p in t.jobs
    ensures var o, n := s.jobs[p], t.jobs[p];
            if o.pc + 1 == Calls(o) then n.outcome == Some(Published)
            else Calls(n) == Calls(o) && n.pc == o.pc + 1 && Ready(t.disk, n, database)
  {
    JobInPlace(s, p);
    var o := s.jobs[p];
    var c := SomethingUnclaimed(s.disk);
    NextIsEnabled(s.disk, o, database, c);
    ReadyMeans(s.disk, o, database);
    WorkedStep(s.disk, o, c);
    StillReady(s.disk, o, database, c);
    var disk', o' := Effect(s.disk, o, Current(o), c), Worked(o, c);
    t := AfterStep(s, p, disk', o');
    hide Inv, Ready, StepBy, Effect, Worked, Current, Enabled, HasWanted;
  }

  /** The file that is to be filled can be given its bytes. */
  lemma Prepared(s: System, p: nat, database: Bytes) returns (t: System)
    requires Inv(s) && p in s.jobs && Ready(s.disk, s.jobs[p], database) && !HasWanted(s.disk, s.jobs[p], database)
    ensures StepBy(s, p, t) && Inv(t) && p in t.jobs
    ensures Ready(t.disk, t.jobs[p], database) && HasWanted(t.disk, t.jobs[p], database)
    ensures t.jobs[p].pc == s.jobs[p].pc && Calls(t.jobs[p]) == Calls(s.jobs[p])
  {
    hide *;
    JobInPlace(s, p);
    var o := s.jobs[p];
    NothingWanted(s.disk, o, database);
    WriteWanted(s.disk, o, database);
    var disk', o' := SetFile(s.disk, Target(o), File(Wanted(o, database), false)), o.(touched := o.touched + {Target(o)});
    SameCalls(o, o'.touched);
    t := AfterStep(s, p, disk', o');
  }

  lemma SameCalls(o: Job, touched: set<Ino>)
    ensures Calls(o.(touched := touched)) == Calls(o)
  {
  }

  /** The next call can be made to work: then the operation is one call further, or has published. */
  lemma CallWorks(s: System, p: nat, database: Bytes) returns (path: seq<System>)
    requires Inv(s) && p in s.jobs && Ready(s.disk, s.jobs[p], database)
    ensures Alone(path, p) && path[0] == s && Inv(Last(path)) && p in Last(path).jobs
    ensures var o, n := s.jobs[p], Last(path).jobs[p];
            if o.pc + 1 == Calls(o) then n.outcome == Some(Published)
            else Calls(n) == Calls(o) && n.pc == o.pc + 1 && Ready(Last(path).disk, n, database)
  {
    hide Inv, Ready, StepBy, HasWanted, Calls;
    if HasWanted(s.disk, s.jobs[p], database) {
      var u := CallWorksNow(s, p, database);
      path := [s, u];
    } else {
      var t := Prepared(s, p, database);
      var u := CallWorksNow(t, p, database);
      path := [s, t, u];
    }
  }

  lemma NothingWanted(disk: Disk, o: Job, database: Bytes)
    ensures !HasWanted(disk, o, database) ==> Filling(o)
  {
  }

  /** An operation that has not failed, whose target is free or its own, can publish: whatever has
      happened before, some continuation in which the others wait ends with "published". */
  lemma {:induction false} CanStillPublish(s: System, p: nat, database: Bytes) returns (path: seq<System>)
    requires Inv(s) && p in s.jobs && Ready(s.disk, s.jobs[p], database)
    ensures Alone(path, p) && path[0] == s && p in Last(path).jobs && Last(path).jobs[p].outcome == Some(Published)
    decreases Calls(s.jobs[p]) - s.jobs[p].pc
  {
    ReadyMeans(s.disk, s.jobs[p], database);
    hide Inv, Ready, Alone;
    path := CallWorks(s, p, database);
    if s.jobs[p].pc + 1 != Calls(s.jobs[p]) {
      var rest := CanStillPublish(Last(path), p, database);
      Joined(path, rest, p);
      path := path + rest[1..];
    }
  }

  /** In particular in every run, with any other operations: it can be continued to a publication. */
  lemma RunCanPublish(states: seq<System>, p: nat, database: Bytes)
    requires Run(states) && p in Last(states).jobs && Ready(Last(states).disk, Last(states).jobs[p], database)
    ensures exists more :: Run(states + more) && p in Last(states + more).jobs
                           && Last(states + more).jobs[p].outcome == Some(Published)
  {
    hide Ready, Inv, Alone, SystemStep, Init;
    RunKeepsInv(states, |states| - 1);
    var path := CanStillPublish(Last(states), p, database);
    assert path != [] by { AloneStarts(path, p); }
    Continued(states, path, p);
    assert Run(states + path[1..]);
  }

  /** An operation that is started on a disk without its target, and that nothing disturbs, publishes. */
  lemma UndisturbedPublishes(disk: Disk, o: Job, database: Bytes)
    requires DiskOk(disk) && Settled(disk.dirs[ROOT]) && Wired(disk) && Fresh(o) && o.target !in disk.dirs[ROOT].entries
    requires (o.protocol.Seal? ==> WellBound(o)) && IsDeclared(o.manifest, database)
    ensures exists states, p: nat :: Run(states) && states[0] == System(disk, map[p := o]) && p in Last(states).jobs
                                     && Last(states).jobs[p].outcome == Some(Published)
  {
    var s := System(disk, map[0 := o]);
    assert Init(s);
    assert Run([s]);
    FreshIsReady(disk, o, database);
    hide Ready, Run, Inv, Alone, Init;
    InitInv(s);
    var path := CanStillPublish(s, 0, database);
    Continued([s], path, 0);
    assert [s] + path[1..] == path;
    var p: nat := 0;
    assert p in Last(path).jobs;
  }

  lemma FreshIsReady(disk: Disk, o: Job, database: Bytes)
    requires DiskOk(disk) && Fresh(o) && o.target !in disk.dirs[ROOT].entries
    requires (o.protocol.Seal? ==> WellBound(o)) && IsDeclared(o.manifest, database)
    ensures Ready(disk, o, database)
  {
    hide DirOk;
  }

  // ---------- When it is too late ----------

  /** The operation has failed, or its target is somebody else's. */
  predicate Late(disk: Disk, o: Job) {
    (o.outcome.Some? && o.outcome != Some(Published)) || (o.outcome.None? && At(o) <= 0 && ROOT in disk.dirs
                                                          && o.target in disk.dirs[ROOT].entries)
  }

  lemma LateStays(disk: Disk, o: Job, disk': Disk, o': Job)
    requires InPlace(disk, o) && Reported(o) && Step(disk, o, disk', o') && Late(disk, o)
    ensures Late(disk', o')
  {
    StepKeeps(disk, o, disk', o');
    KeptMeans(disk, disk', o');
    OwnedMeans(disk, o);
    ConfinedMeans(disk, disk', o'.owned);
    StepSameRequest(disk, o, disk', o');
    if o.outcome.Some? {
      OutcomeStays(disk, o, disk', o');
    } else {
      NoTarget(disk, o, disk', o');
    }
  }

  lemma OutcomeStays(disk: Disk, o: Job, disk': Disk, o': Job)
    requires Step(disk, o, disk', o') && o.outcome.Some?
    ensures o'.outcome == o.outcome
  {
    hide TidiesIn, At, TempAt, Stages;
  }

  /** With its target taken an operation does not get beyond the exclusive mkdir. */
  lemma NoTarget(disk: Disk, o: Job, disk': Disk, o': Job)
    requires Step(disk, o, disk', o') && o.outcome.None? && At(o) <= 0 && ROOT in disk.dirs
        && o.target in disk.dirs[ROOT].entries
    ensures o'.outcome != Some(Published) && At(o') <= 0
  {
    hide Works, RaisesAfter, RaisesBefore, FindsTaken, Writes, Tidies, At;
    if Works(disk, o, disk', o') || RaisesAfter(disk, o, disk', o') {
      NoTargetMade(disk, o, disk', o');
    } else {
      OtherStepsStay(disk, o, disk', o');
    }
  }

  lemma NoTargetMade(disk: Disk, o: Job, disk': Disk, o': Job)
    requires Works(disk, o, disk', o') || RaisesAfter(disk, o, disk', o')
    requires o.outcome.None? && At(o) <= 0 && ROOT in disk.dirs && o.target in disk.dirs[ROOT].entries
    ensures o'.outcome != Some(Published) && At(o') <= 0
  {
    hide Effect;
    var c :| Enabled(disk, o, Current(o), c)
      && (o' == Failed(Advance(o, Current(o), c))
          || o' == (var n := Advance(o, Current(o), c); if n.pc == Calls(o) then n.(outcome := Some(Published)) else n));
    Positions(o);
    AdvanceReport(o, Current(o), c);
    hide Current, Advance;
  }

  lemma OtherStepsStay(disk: Disk, o: Job, disk': Disk, o': Job)
    requires RaisesBefore(disk, o, disk', o') || FindsTaken(disk, o, disk', o') || Writes(disk, o, disk', o') || Tidies(disk, o, disk', o')
    ensures o'.outcome == Some(Published) ==> o.outcome == o'.outcome
    ensures At(o') == At(o)
  {
    OthersStay(disk, o, disk', o');
    hide Current, TidiesIn, Occupied, SetFile, At, TempAt, Stages, TempParent, Running;
  }

  lemma {:induction false} LateNeverPublishes(states: seq<System>, p: nat)
    requires Alone(states, p) && Inv(states[0]) && p in states[0].jobs && Late(states[0].disk, states[0].jobs[p])
    ensures Inv(Last(states)) && p in Last(states).jobs && Late(Last(states).disk, Last(states).jobs[p])
  {
    hide Inv, Step, Late, InPlace, Reported;
    if |states| > 1 {
      var before := states[..|states| - 1];
      LateNeverPublishes(before, p);
      var s, t := Last(before), Last(states);
      assert StepBy(s, p, t);
      JobInPlace(s, p);
      StepByIsStep(s, p, t);
      SystemStepKeeps(s, t);
      LateStays(s.disk, s.jobs[p], t.disk, t.jobs[p]);
    }
  }

  /** In every state that can arise: an operation that has a database to publish can still do so if and
      only if it has not failed and its target is its own or free. */
  lemma CanPublishIff(s: System, p: nat, database: Bytes)
    requires Inv(s) && p in s.jobs && s.jobs[p].outcome != Some(Published) && ROOT in s.disk.dirs
    requires (s.jobs[p].protocol.Seal? ==> WellBound(s.jobs[p])) && IsDeclared(s.jobs[p].manifest, database)
    ensures (exists path :: Alone(path, p) && path[0] == s && p in Last(path).jobs && Last(path).jobs[p].outcome == Some(Published))
            <==> s.jobs[p].outcome.None? && (At(s.jobs[p]) > 0 || s.jobs[p].target !in s.disk.dirs[ROOT].entries)
  {
    var o := s.jobs[p];
    JobInPlace(s, p);
    RunningWhenOpen(o);
    hide Inv, Alone, InPlace, Reported;
    if Late(s.disk, o) {
      forall path | Alone(path, p) && path != [] && path[0] == s && p in Last(path).jobs
        ensures Last(path).jobs[p].outcome != Some(Published)
      {
        LateNeverPublishes(path, p);
      }
    } else {
      var path := CanStillPublish(s, p, database);
      assert Alone(path, p);
    }
  }

  lemma RunningWhenOpen(o: Job)
    requires Reported(o)
    ensures o.outcome.None? ==> Running(o)
  {
  }

  // ---------- Cleaning up ----------

  /** Nothing is left of the private directory of the publishing link. */
  predicate TempGone(disk: Disk, o: Job) {
    && o.temp in disk.dirs && disk.dirs[o.temp].entries == map[]
    && TempParent(o) in disk.dirs && o.tempName !in disk.dirs[TempParent(o)].entries
  }

  lemma TempPlaces(disk: Disk, o: Job)
    requires InPlace(disk, o) && At(o) > TempAt(o)
    ensures o.temp in disk.dirs && TempParent(o) in disk.dirs && o.temp != TempParent(o)
  {
    OwnedMeans(disk, o);
    hide InPlace, Separate;
  }

  /** One entry of the private directory is removed, or its name. */
  lemma TidyStep(disk: Disk, o: Job, disk': Disk)
    requires o.outcome.Some? && o.outcome.value != Published && At(o) > TempAt(o)
    requires TidiesIn(disk, o.temp, TempParent(o), o.tempName, disk')
    ensures Step(disk, o, disk', o.(touched := o.touched + {o.temp, TempParent(o)}))
  {
    hide At, TempAt, TempParent, TidiesIn;
    assert Tidies(disk, o, disk', o.(touched := o.touched + {o.temp, TempParent(o)}));
  }

  lemma SamePlaces(o: Job, touched: set<Ino>)
    ensures var n := o.(touched := touched); At(n) == At(o) && TempAt(n) == TempAt(o) && TempParent(n) == TempParent(o)
  {
  }

  /** A failed operation that has made its private directory. */
  ghost predicate Untidy(s: System, p: nat) {
    && Inv(s) && p in s.jobs && s.jobs[p].outcome.Some? && s.jobs[p].outcome.value != Published
    && At(s.jobs[p]) > TempAt(s.jobs[p]) && s.jobs[p].temp in s.disk.dirs
  }

  function TempEntries(s: System, p: nat): map<Name, Ino>
    requires p in s.jobs && s.jobs[p].temp in s.disk.dirs
  {
    s.disk.dirs[s.jobs[p].temp].entries
  }

  lemma RemoveOne(s: System, p: nat, entry: Name) returns (t: System)
    requires Untidy(s, p) && entry in TempEntries(s, p)
    ensures StepBy(s, p, t) && Untidy(t, p) && t.jobs[p].outcome == s.jobs[p].outcome
    ensures TempEntries(t, p).Keys == TempEntries(s, p).Keys - {entry}
  {
    var o := s.jobs[p];
    JobInPlace(s, p);
    TempPlaces(s.disk, o);
    var disk' := SetDir(s.disk, o.temp, RemoveEntry(s.disk.dirs[o.temp], entry));
    assert disk'.dirs[o.temp].entries.Keys == s.disk.dirs[o.temp].entries.Keys - {entry};
    TidiesEntry(s.disk, o.temp, TempParent(o), o.tempName, entry);
    hide Inv, InPlace, Reported, StepBy, At, TempAt, TempParent, Step, TidiesIn, SetDir, RemoveEntry;
    t := Tidied(s, p, disk');
  }

  lemma RemoveName(s: System, p: nat) returns (t: System)
    requires Untidy(s, p) && TempEntries(s, p) == map[]
    ensures StepBy(s, p, t) && p in t.jobs && t.jobs[p].outcome == s.jobs[p].outcome && TempGone(t.disk, t.jobs[p])
  {
    var o := s.jobs[p];
    JobInPlace(s, p);
    TempPlaces(s.disk, o);
    var parent := TempParent(o);
    var disk' := SetDir(s.disk, parent, RemoveEntry(s.disk.dirs[parent], o.tempName));
    assert disk'.dirs[o.temp] == s.disk.dirs[o.temp] && o.tempName !in disk'.dirs[parent].entries;
    TidiesName(s.disk, o.temp, parent, o.tempName);
    hide Inv, InPlace, Reported, StepBy, At, TempAt, TempParent, Step, TidiesIn, SetDir, RemoveEntry;
    t := Tidied(s, p, disk');
  }

  lemma TidiesEntry(disk: Disk, dir: Ino, parent: Ino, name: Name, entry: Name)
    requires dir in disk.dirs && parent in disk.dirs
    ensures TidiesIn(disk, dir, parent, name, SetDir(disk, dir, RemoveEntry(disk.dirs[dir], entry)))
  {
    hide SetDir, RemoveEntry;
  }

  lemma TidiesName(disk: Disk, dir: Ino, parent: Ino, name: Name)
    requires dir in disk.dirs && parent in disk.dirs
    ensures TidiesIn(disk, dir, parent, name, SetDir(disk, parent, RemoveEntry(disk.dirs[parent], name)))
  {
    hide SetDir, RemoveEntry;
  }

  /** The state after one step of tidying; the operation is otherwise as it was. */
  lemma Tidied(s: System, p: nat, disk': Disk) returns (t: System)
    requires Untidy(s, p) && TidiesIn(s.disk, s.jobs[p].temp, TempParent(s.jobs[p]), s.jobs[p].tempName, disk')
    ensures StepBy(s, p, t) && Inv(t) && t.disk == disk' && p in t.jobs
    ensures var o, n := s.jobs[p], t.jobs[p];
            && n.outcome == o.outcome && n.temp == o.temp && n.tempName == o.tempName
            && TempParent(n) == TempParent(o) && At(n) == At(o) && TempAt(n) == TempAt(o)
  {
    var o := s.jobs[p];
    assert o.outcome.Some? && o.outcome.value != Published && At(o) > TempAt(o) && Inv(s);
    hide *;
    var o' := o.(touched := o.touched + {o.temp, TempParent(o)});
    SamePlaces(o, o'.touched);
    TidyStep(s.disk, o, disk');
    t := AfterStep(s, p, disk', o');
  }

  lemma UntidyMeans(s: System, p: nat)
    requires Untidy(s, p)
    ensures p in s.jobs && s.jobs[p].temp in s.disk.dirs
  {
    hide Inv;
  }

  lemma Longer(s: System, rest: seq<System>, p: nat)
    requires Alone(rest, p) && StepBy(s, p, rest[0])
    ensures Alone([s] + rest, p) && Last([s] + rest) == Last(rest)
  {
    hide StepBy;
  }

  lemma TwoStates(s: System, t: System, p: nat)
    requires StepBy(s, p, t)
    ensures Alone([s, t], p) && Last([s, t]) == t
  {
    hide StepBy;
  }

  /** The continuation leaves nothing of the private directory, and the report as it was. */
  ghost predicate CleansUp(s: System, p: nat, path: seq<System>) {
    && Alone(path, p) && path[0] == s && p in s.jobs && p in Last(path).jobs
    && TempGone(Last(path).disk, Last(path).jobs[p]) && Last(path).jobs[p].outcome == s.jobs[p].outcome
  }

  lemma Cleaner(s: System, p: nat, t: System, path: seq<System>)
    requires StepBy(s, p, t) && p in t.jobs && t.jobs[p].outcome == s.jobs[p].outcome && CleansUp(t, p, path)
    ensures CleansUp(s, p, [s] + path)
  {
    Longer(s, path, p);
    hide StepBy, TempGone, Alone;
  }

  lemma {:induction false} CleansUpAll(s: System, p: nat, n: nat) returns (path: seq<System>)
    requires Untidy(s, p) && n == |TempEntries(s, p).Keys|
    ensures CleansUp(s, p, path)
    decreases n
  {
    UntidyMeans(s, p);
    hide *;
    if entry :| entry in TempEntries(s, p) {
      var t := RemoveOne(s, p, entry);
      path := CleansUpAll(t, p, n - 1);
      Cleaner(s, p, t, path);
      path := [s] + path;
    } else {
      var t := RemoveName(s, p);
      Cleaned(s, p, t);
      path := [s, t];
    }
  }

  lemma Cleaned(s: System, p: nat, t: System)
    requires StepBy(s, p, t) && p in t.jobs && t.jobs[p].outcome == s.jobs[p].outcome && TempGone(t.disk, t.jobs[p])
    ensures CleansUp(s, p, [s, t])
  {
    TwoStates(s, t, p);
    hide StepBy, TempGone, Alone;
  }

  /** An operation that has failed after making its private directory can remove all it has put there,
      and the directory's name. */
  lemma CanCleanUp(s: System, p: nat) returns (path: seq<System>)
    requires Untidy(s, p)
    ensures Alone(path, p) && path[0] == s && p in s.jobs && p in Last(path).jobs
    ensures TempGone(Last(path).disk, Last(path).jobs[p]) && Last(path).jobs[p].outcome == s.jobs[p].outcome
  {
    UntidyMeans(s, p);
    hide Untidy, TempEntries, TempGone, StepBy;
    path := CleansUpAll(s, p, |TempEntries(s, p).Keys|);
  }
}
