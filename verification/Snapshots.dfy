/** What the publication protocol promises: a crash leaves a generation complete or visibly unfinished,
    a reported state is never wrong, and of competing operations at most one publishes. */
module Snapshots {
  import opened Records
  import opened Volume
  import opened Publication
  import opened PublicationInvariant
  import opened PublicationRuns
  import opened PublicationNames

  // ---------- Crashes while sealing ----------

  /** In a crashed disk the directory of a sealing operation, if it has the marker, is complete. */
  lemma GenerationAfterCrash(disk: Disk, o: Job, disk': Disk)
    requires InPlace(disk, o) && o.protocol.Seal? && WellBound(o) && At(o) > 0 && Crash(disk, disk')
    ensures o.dir in disk'.dirs && disk'.dirs[o.dir].entries.Keys <= MEMBERS
    ensures MarkerFile in disk'.dirs[o.dir].entries ==> Complete(disk', o.dir, Sha256(o.manifest))
  {
    InPlaceMeans(disk, o);
    OwnedMeans(disk, o);
    hide InPlace, Holdings, DiskOk, DirOk;
    var g, g' := disk.dirs[o.dir], disk'.dirs[o.dir];
    forall n | n in g'.entries
      ensures n in MEMBERS && n in o.made && g'.entries[n] == o.made[n] && (n == MarkerFile ==> At(o) > 14)
    {
      assert SealEntry(o, (n, g'.entries[n]));
    }
    if MarkerFile in g'.entries {
      CompleteWithMarker(disk, o, disk', g, g');
    }
  }

  lemma CompleteWithMarker(disk: Disk, o: Job, disk': Disk, g: Dir, g': Dir)
    requires o.protocol.Seal? && WellBound(o) && At(o) > 14 && MadeInOrder(o) && SealFiles(o, disk.files) && SealDir(o, g)
    requires Survives(g, g') && MarkerFile in g'.entries && g'.entries.Keys <= MEMBERS
    requires forall n :: n in g'.entries ==> n in o.made && g'.entries[n] == o.made[n]
    requires o.dir in disk'.dirs && disk'.dirs[o.dir] == g'
    requires disk'.files.Keys == disk.files.Keys
    requires forall i :: i in disk.files && disk.files[i].synced ==> disk'.files[i].bytes == disk.files[i].bytes
    ensures Complete(disk', o.dir, Sha256(o.manifest))
  {
    assert Has(g.certain, o, DatabaseFile) && Has(g.certain, o, ManifestFile);
    assert g'.entries.Keys == MEMBERS;
  }

  lemma FewMembers(names: set<Name>)
    requires names <= MEMBERS
    ensures |names| <= 3
  {
    if names != MEMBERS {
      var rest := MEMBERS - names;
      assert names + rest == MEMBERS && |names| + |rest| == |MEMBERS|;
    }
  }

  /** Whatever a crash leaves of a generation: it is not there, or reported as incomplete, or it has its
      marker and verifies. */
  lemma SealedGenerationIsSafe(s: System, p: nat, disk': Disk)
    requires Inv(s) && p in s.jobs && s.jobs[p].protocol.Seal? && WellBound(s.jobs[p]) && At(s.jobs[p]) > 0
    requires Crash(s.disk, disk')
    ensures ROOT in disk'.dirs
    ensures var o := s.jobs[p];
            Verify(disk', o.target, Sha256(o.manifest)) ==
            if o.target !in disk'.dirs[ROOT].entries then NotFound
            else if o.dir in disk'.dirs && MarkerFile in disk'.dirs[o.dir].entries then Verified else Incomplete
  {
    var o := s.jobs[p];
    NameAfterCrash(s, p, disk');
    GenerationAfterCrash(s.disk, o, disk');
    hide Inv, InPlace, Crash, Complete;
    FewMembers(disk'.dirs[o.dir].entries.Keys);
  }

  /** A public name means after a crash what it meant before. */
  lemma NameAfterCrash(s: System, p: nat, disk': Disk)
    requires Inv(s) && p in s.jobs && At(s.jobs[p]) > 0 && Crash(s.disk, disk')
    ensures InPlace(s.disk, s.jobs[p]) && ROOT in disk'.dirs
    ensures s.jobs[p].target in disk'.dirs[ROOT].entries ==> disk'.dirs[ROOT].entries[s.jobs[p].target] == s.jobs[p].dir
  {
    var o := s.jobs[p];
    HoldingsMean(s.disk, o);
    hide InPlace, Reported;
    var root, root' := s.disk.dirs[ROOT], disk'.dirs[ROOT];
    if o.target in root'.entries {
      assert (o.target, root'.entries[o.target]) in root.possible;
    }
  }

  lemma PublishedAt(o: Job)
    requires Reported(o) && o.outcome == Some(Published)
    ensures At(o) >= if o.protocol.Restore? then RESTORE_CALLS else SEAL_CALLS
  {
  }

  lemma JobInPlace(s: System, p: nat)
    requires Inv(s) && p in s.jobs
    ensures InPlace(s.disk, s.jobs[p]) && Reported(s.jobs[p]) && DiskOk(s.disk)
  {
    hide InPlace, Reported, DiskOk, Settled;
  }

  /** What was reported as published is still verified after any crash. */
  lemma PublishedSurvives(s: System, p: nat, disk': Disk)
    requires Inv(s) && p in s.jobs && s.jobs[p].protocol.Seal? && WellBound(s.jobs[p])
    requires s.jobs[p].outcome == Some(Published) && Crash(s.disk, disk')
    ensures ROOT in disk'.dirs && Verify(disk', s.jobs[p].target, Sha256(s.jobs[p].manifest)) == Verified
  {
    hide *;
    var o := s.jobs[p];
    JobInPlace(s, p);
    PublishedAt(o);
    SealRoot(o);
    SealedGenerationIsSafe(s, p, disk');
    InPlaceMeans(s.disk, o);
    MarkerStays(s.disk, o, disk');
    TargetStaysCertain(s.disk, disk', o);
  }

  lemma SealRoot(o: Job)
    requires o.protocol.Seal?
    ensures RootSynced(o) == 9 && SEAL_CALLS == 20
  {
  }

  lemma MarkerStays(disk: Disk, o: Job, disk': Disk)
    requires o.protocol.Seal? && At(o) >= SEAL_CALLS && o.dir in disk.dirs && DirInOrder(o, disk.dirs[o.dir]) && Crash(disk, disk')
    ensures o.dir in disk'.dirs && MarkerFile in disk'.dirs[o.dir].entries
  {
    assert Has(disk.dirs[o.dir].certain, o, MarkerFile);
  }

  lemma TargetStaysCertain(disk: Disk, disk': Disk, o: Job)
    requires Certain(disk, ROOT, o.target, o.dir) && Crash(disk, disk')
    ensures ROOT in disk'.dirs && o.target in disk'.dirs[ROOT].entries
  {
  }

  // ---------- Crashes while restoring ----------

  /** The public database of a restore target is absent or has exactly the declared bytes, and it is
      there if the restore was reported as published. */
  lemma RestoredDatabaseIsSafe(s: System, p: nat, disk': Disk)
    requires Inv(s) && p in s.jobs && s.jobs[p].protocol.Restore? && At(s.jobs[p]) > 0 && Crash(s.disk, disk')
    ensures ROOT in disk'.dirs && s.jobs[p].dir in disk'.dirs
    ensures var o, g := s.jobs[p], disk'.dirs[s.jobs[p].dir];
            && (o.target in disk'.dirs[ROOT].entries ==> disk'.dirs[ROOT].entries[o.target] == o.dir)
            && (DatabaseFile in g.entries ==>
                  g.entries[DatabaseFile] in disk'.files && IsDeclared(o.manifest, disk'.files[g.entries[DatabaseFile]].bytes))
            && (o.outcome == Some(Published) ==> DatabaseFile in g.entries && o.target in disk'.dirs[ROOT].entries)
  {
    var o := s.jobs[p];
    NameAfterCrash(s, p, disk');
    InPlaceMeans(s.disk, o);
    OwnedMeans(s.disk, o);
    assert Reported(o);
    hide Inv, InPlace, Holdings, DiskOk, DirOk;
    var g, g' := s.disk.dirs[o.dir], disk'.dirs[o.dir];
    if DatabaseFile in g'.entries {
      assert RestoreEntry(o, (DatabaseFile, g'.entries[DatabaseFile]));
      assert Synced(s.disk.files, o, DatabaseFile);
    }
    if o.outcome == Some(Published) {
      assert Has(g.certain, o, DatabaseFile);
    }
  }

  // ---------- Honest reports ----------

  /** Published: the marker is linked, and the bytes under the target's name are those that the expected
      manifest declares, in every later state of the run. */
  lemma PublishedIsThere(s: System, p: nat)
    requires Inv(s) && p in s.jobs && s.jobs[p].protocol.Seal? && WellBound(s.jobs[p])
    requires s.jobs[p].outcome == Some(Published)
    ensures ROOT in s.disk.dirs && Verify(s.disk, s.jobs[p].target, Sha256(s.jobs[p].manifest)) == Verified
  {
    hide *;
    var o := s.jobs[p];
    JobInPlace(s, p);
    PublishedAt(o);
    SealRoot(o);
    InPlaceMeans(s.disk, o);
    TargetWas(s.disk, o);
    DiskOkMeans(s.disk);
    SealOrder(o, s.disk);
    PublishedGeneration(s.disk, o);
  }

  lemma SealOrder(o: Job, disk: Disk)
    requires o.protocol.Seal?
    requires FilesInOrder(o, disk.files) && o.dir in disk.dirs && DirInOrder(o, disk.dirs[o.dir])
    ensures SealFiles(o, disk.files) && SealDir(o, disk.dirs[o.dir])
  {
    hide SealFiles, SealDir;
  }

  lemma PublishedGeneration(disk: Disk, o: Job)
    requires o.protocol.Seal? && WellBound(o) && At(o) >= SEAL_CALLS && ROOT in disk.dirs && Linked(disk, ROOT, o.target, o.dir)
    requires MadeInOrder(o) && SealFiles(o, disk.files) && o.dir in disk.dirs && DirOk(disk.dirs[o.dir]) && SealDir(o, disk.dirs[o.dir])
    ensures Verify(disk, o.target, Sha256(o.manifest)) == Verified
  {
    var g := disk.dirs[o.dir];
    forall n | n in g.entries
      ensures n in MEMBERS
    {
      assert SealEntry(o, (n, g.entries[n]));
    }
    assert g.entries.Keys == MEMBERS;
    FewMembers(g.entries.Keys);
  }

  /** Over whole runs: if an operation that was started for an expected manifest reports "published", its
      target verifies against that manifest, then and after any crash. */
  lemma PublishedMeansVerified(states: seq<System>, n: nat, p: nat, expected: Digest, disk': Disk)
    requires Run(states) && n < |states| && p in states[0].jobs
    requires states[0].jobs[p].protocol.Seal? && WellBound(states[0].jobs[p])
    requires Sha256(states[0].jobs[p].manifest) == expected
    requires p in states[n].jobs && states[n].jobs[p].outcome == Some(Published) && Crash(states[n].disk, disk')
    ensures ROOT in states[n].disk.dirs && Verify(states[n].disk, states[0].jobs[p].target, expected) == Verified
    ensures ROOT in disk'.dirs && Verify(disk', states[0].jobs[p].target, expected) == Verified
  {
    hide Inv, Verify, Crash, Run;
    RunKeepsInv(states, n);
    RunSameRequests(states, n, p);
    PublishedIsThere(states[n], p);
    PublishedSurvives(states[n], p, disk');
  }

  /** The name that publishes. */
  function PublicMember(o: Job): Name { if o.protocol.Restore? then DatabaseFile else MarkerFile }

  /** Not published: the link has not taken effect and no crash can make it appear. */
  lemma NotPublishedIsNotThere(s: System, p: nat, disk': Disk)
    requires Inv(s) && p in s.jobs && Crash(s.disk, disk')
    requires s.jobs[p].outcome == Some(NotPublished) || s.jobs[p].outcome == Some(TargetExists)
    requires At(s.jobs[p]) > 0
    ensures var o := s.jobs[p];
            && o.dir in s.disk.dirs && PublicMember(o) !in s.disk.dirs[o.dir].entries
            && o.dir in disk'.dirs && PublicMember(o) !in disk'.dirs[o.dir].entries
  {
    var o := s.jobs[p];
    assert Reported(o) && InPlace(s.disk, o);
    InPlaceMeans(s.disk, o);
    DiskOkMeans(s.disk);
    hide Inv, InPlace;
    var g, m := s.disk.dirs[o.dir], PublicMember(o);
    forall e | e in g.possible
      ensures e.0 != m
    {
      assert if o.protocol.Seal? then SealEntry(o, e) else RestoreEntry(o, e);
    }
    forall n | n in g.entries
      ensures n != m
    {
      assert (n, g.entries[n]) in g.possible;
    }
    forall n | n in disk'.dirs[o.dir].entries
      ensures n != m
    {
      assert (n, disk'.dirs[o.dir].entries[n]) in g.possible;
    }
  }

  /** Once the publishing link may have taken effect, a failure before completion is reported as ambiguous. */
  lemma AmbiguousAfterLink(s: System, p: nat)
    requires Inv(s) && p in s.jobs && At(s.jobs[p]) > 0 && s.jobs[p].outcome.Some?
    requires exists e :: e in s.disk.dirs[s.jobs[p].dir].possible && e.0 == PublicMember(s.jobs[p])
    ensures s.jobs[p].outcome.value == Published || s.jobs[p].outcome.value == Ambiguous
  {
    var o := s.jobs[p];
    assert Reported(o) && InPlace(s.disk, o);
    InPlaceMeans(s.disk, o);
    hide Inv, InPlace;
    var e :| e in s.disk.dirs[o.dir].possible && e.0 == PublicMember(o);
    assert if o.protocol.Seal? then SealEntry(o, e) else RestoreEntry(o, e);
  }

  // ---------- Competing operations ----------

  /** Of all operations on one name, at most one has got hold of it. */
  lemma OneHolder(s: System, p: nat, q: nat)
    requires Inv(s) && p in s.jobs && q in s.jobs && p != q && s.jobs[p].target == s.jobs[q].target
    ensures At(s.jobs[p]) <= 0 || At(s.jobs[q]) <= 0
  {
    HoldingsMean(s.disk, s.jobs[p]);
    HoldingsMean(s.disk, s.jobs[q]);
    hide InPlace, Reported;
    assert At(s.jobs[p]) > 0 ==> s.jobs[p].dir in s.jobs[p].owned;
    assert At(s.jobs[q]) > 0 ==> s.jobs[q].dir in s.jobs[q].owned;
  }

  /** In every run, at most one of the operations on one name publishes. */
  lemma AtMostOnePublishes(states: seq<System>, n: nat, p: nat, q: nat)
    requires Run(states) && n < |states| && p in states[n].jobs && q in states[n].jobs && p != q
    requires states[n].jobs[p].target == states[n].jobs[q].target
    ensures !(states[n].jobs[p].outcome == Some(Published) && states[n].jobs[q].outcome == Some(Published))
  {
    RunKeepsInv(states, n);
    var s := states[n];
    OneHolder(s, p, q);
    assert Reported(s.jobs[p]) && Reported(s.jobs[q]);
  }

  lemma AdvanceTouches(disk: Disk, o: Job, a: Action, c: Choice)
    requires Enabled(disk, o, a, c)
    ensures var d, n := Effect(disk, o, a, c), Advance(o, a, c);
            && (forall i :: i in disk.dirs && i !in n.touched ==> i in d.dirs && d.dirs[i] == disk.dirs[i])
            && (forall i :: i in disk.files && i !in n.touched ==> i in d.files && d.files[i] == disk.files[i])
  {
    hide AddEntry, RemoveEntry, Settle, Complete, HasMembers, IsDeclared;
  }

  /** Nothing that was there before is changed, except what is touched. */
  ghost predicate ChangesOnly(disk: Disk, disk': Disk, touched: set<Ino>) {
    && (forall i :: i in disk.dirs && i !in touched ==> i in disk'.dirs && disk'.dirs[i] == disk.dirs[i])
    && (forall i :: i in disk.files && i !in touched ==> i in disk'.files && disk'.files[i] == disk.files[i])
  }

  lemma WritesTouch(disk: Disk, o: Job, disk': Disk, o': Job)
    requires Writes(disk, o, disk', o')
    ensures ChangesOnly(disk, disk', o'.touched)
  {
    hide Current, Running;
  }

  lemma TidyingTouches(disk: Disk, dir: Ino, parent: Ino, name: Name, disk': Disk, touched: set<Ino>)
    requires TidiesIn(disk, dir, parent, name, disk') && dir in touched && parent in touched
    ensures ChangesOnly(disk, disk', touched)
  {
    hide RemoveEntry;
  }

  lemma OtherStepsTouch(disk: Disk, o: Job, disk': Disk, o': Job)
    requires RaisesBefore(disk, o, disk', o') || FindsTaken(disk, o, disk', o') || Writes(disk, o, disk', o') || Tidies(disk, o, disk', o')
    ensures ChangesOnly(disk, disk', o'.touched)
  {
    hide Current, Running, Writes, TidiesIn, At, TempAt, TempParent, Stages, Occupied, ChangesOnly;
    if Writes(disk, o, disk', o') {
      WritesTouch(disk, o, disk', o');
    } else if Tidies(disk, o, disk', o') {
      if TidiesIn(disk, o.temp, TempParent(o), o.tempName, disk') && o.temp in o'.touched && TempParent(o) in o'.touched {
        TidyingTouches(disk, o.temp, TempParent(o), o.tempName, disk', o'.touched);
      } else {
        TidyingTouches(disk, o.scratch, ROOT, o.scratchName, disk', o'.touched);
      }
    } else {
      NothingChanges(disk, o'.touched);
    }
  }

  lemma NothingChanges(disk: Disk, touched: set<Ino>)
    ensures ChangesOnly(disk, disk, touched)
  {
  }

  /** `touched` leaves nothing out: a directory or file that is not in it is not changed by the step. */
  lemma StepTouches(disk: Disk, o: Job, disk': Disk, o': Job)
    requires Step(disk, o, disk', o')
    ensures forall i :: i in disk.dirs && i !in o'.touched ==> i in disk'.dirs && disk'.dirs[i] == disk.dirs[i]
    ensures forall i :: i in disk.files && i !in o'.touched ==> i in disk'.files && disk'.files[i] == disk.files[i]
  {
    hide Effect, Enabled, Current, RaisesBefore, FindsTaken, Writes, Tidies;
    if Works(disk, o, disk', o') || RaisesAfter(disk, o, disk', o') {
      var c :| Enabled(disk, o, Current(o), c) && disk' == Effect(disk, o, Current(o), c)
        && (o' == Failed(Advance(o, Current(o), c))
            || o' == (var n := Advance(o, Current(o), c); if n.pc == Calls(o) then n.(outcome := Some(Published)) else n));
      AdvanceTouches(disk, o, Current(o), c);
      var n := Advance(o, Current(o), c);
      assert o' == Failed(n) || o' == n.(outcome := Some(Published)) || o' == n;
    } else {
      OtherStepsTouch(disk, o, disk', o');
    }
  }

  // ---------- The operation that comes too late ----------

  lemma {:induction false} TouchedGrows(states: seq<System>, k: nat, n: nat, p: nat)
    requires Run(states) && k <= n < |states| && p in states[n].jobs
    ensures p in states[k].jobs && states[k].jobs[p].touched <= states[n].jobs[p].touched
    decreases n
  {
    hide Step, Init;
    if k < n {
      var s, s' := states[n - 1], states[n];
      assert SystemStep(s, s');
      var q :| q in s.jobs && Step(s.disk, s.jobs[q], s'.disk, s'.jobs[q]) && s'.jobs == s.jobs[q := s'.jobs[q]];
      StepTouchesMore(s.disk, s.jobs[q], s'.disk, s'.jobs[q]);
      TouchedGrows(states, k, n - 1, p);
    }
  }

  lemma AdvanceTouchesMore(o: Job, a: Action, c: Choice)
    ensures o.touched <= Advance(o, a, c).touched
  {
  }

  lemma StepTouchesMore(disk: Disk, o: Job, disk': Disk, o': Job)
    requires Step(disk, o, disk', o')
    ensures o.touched <= o'.touched
  {
    hide Effect, Enabled, Current, Running, Occupied, TidiesIn, SetFile, At, Stages, TempAt, Advance, RaisesBefore, FindsTaken, Writes,
         Tidies;
    if Works(disk, o, disk', o') || RaisesAfter(disk, o, disk', o') {
      var c :| Enabled(disk, o, Current(o), c) && disk' == Effect(disk, o, Current(o), c)
        && (o' == Failed(Advance(o, Current(o), c))
            || o' == (var n := Advance(o, Current(o), c); if n.pc == Calls(o) then n.(outcome := Some(Published)) else n));
      AdvanceTouchesMore(o, Current(o), c);
      var n := Advance(o, Current(o), c);
      assert o' == Failed(n) || o' == n.(outcome := Some(Published)) || o' == n;
    } else {
      OthersTouchMore(disk, o, disk', o');
    }
  }

  lemma OthersTouchMore(disk: Disk, o: Job, disk': Disk, o': Job)
    requires RaisesBefore(disk, o, disk', o') || FindsTaken(disk, o, disk', o') || Writes(disk, o, disk', o') || Tidies(disk, o, disk', o')
    ensures o.touched <= o'.touched
  {
    hide Current, Running, Occupied, TidiesIn, SetFile, At, Stages, TempAt;
  }

  lemma NamedElsewhere(disk: Disk, o: Job, i: Ino, n: Name)
    requires Apart(disk, o) && Wired(disk) && i in disk.dirs && n in disk.dirs[i].entries && !OwnPlace(o, i, n)
    ensures disk.dirs[i].entries[n] !in o.owned && disk.dirs[i].entries[n] != ROOT
  {
    hide OwnPlace, Used;
  }

  /** An operation that reports "target exists" about its own target: exactly if it had made it and then
      drew a private name that was taken. */
  lemma OwnTargetIff(s: System, p: nat)
    requires Named(s) && p in s.jobs && s.jobs[p].outcome == Some(TargetExists)
    ensures ROOT in s.disk.dirs
    ensures var o, root := s.jobs[p], s.disk.dirs[ROOT];
            (o.target in root.entries && root.entries[o.target] in o.owned) <==> o.collided && At(o) > 0
  {
    var o := s.jobs[p];
    JobInPlace(s, p);
    OwnedMeans(s.disk, o);
    assert Apart(s.disk, o);
    hide Inv, InPlace, Named, Used, Apart;
    if At(o) > 0 {
      TargetWas(s.disk, o);
    } else if o.target in s.disk.dirs[ROOT].entries {
      NamedElsewhere(s.disk, o, ROOT, o.target);
    }
  }

  /** Before its own exclusive mkdir an operation has touched only what it has made itself, and the root:
      neither the directory under the target's name, if there is one, nor any file in it. */
  lemma TakenIsForeign(s: System, p: nat)
    requires Named(s) && p in s.jobs && s.jobs[p].outcome == Some(TargetExists) && At(s.jobs[p]) <= 0
    ensures var o := s.jobs[p];
            && o.touched <= o.owned + {ROOT} && ROOT in s.disk.dirs
            && (!o.collided ==> o.target in s.disk.dirs[ROOT].entries)
            && (o.target in s.disk.dirs[ROOT].entries ==>
                  var d := s.disk.dirs[ROOT].entries[o.target];
                  && d !in o.owned + {ROOT}
                  && (d in s.disk.dirs ==> forall m :: m in s.disk.dirs[d].entries ==> s.disk.dirs[d].entries[m] !in o.owned + {ROOT}))
  {
    var o := s.jobs[p];
    JobInPlace(s, p);
    OwnedMeans(s.disk, o);
    assert TakenStays(s.disk, o) && Apart(s.disk, o);
    hide Inv, InPlace, Named, TakenStays, Used;
    if o.target in s.disk.dirs[ROOT].entries {
      NamedElsewhere(s.disk, o, ROOT, o.target);
      var d := s.disk.dirs[ROOT].entries[o.target];
      if d in s.disk.dirs {
        forall m | m in s.disk.dirs[d].entries
          ensures s.disk.dirs[d].entries[m] !in o.owned + {ROOT}
        {
          NamedElsewhere(s.disk, o, d, m);
        }
      }
    }
  }

  /** The step from state `k` on may be one of operation `p`. */
  ghost predicate StepOf(states: seq<System>, k: nat, p: nat) {
    && k + 1 < |states| && p in states[k].jobs && p in states[k + 1].jobs
    && Step(states[k].disk, states[k].jobs[p], states[k + 1].disk, states[k + 1].jobs[p])
  }

  /** The directory, or its absence, is the same on both disks. */
  predicate SameDir(disk: Disk, disk': Disk, i: Ino) {
    (i in disk.dirs <==> i in disk'.dirs) && (i in disk.dirs ==> disk'.dirs[i] == disk.dirs[i])
  }

  predicate SameFile(disk: Disk, disk': Disk, i: Ino) {
    (i in disk.files <==> i in disk'.files) && (i in disk.files ==> disk'.files[i] == disk.files[i])
  }

  /** So is the directory, and every file that it names on the last disk. */
  predicate SameTree(disk: Disk, disk': Disk, d: Ino, last: Disk) {
    && SameDir(disk, disk', d)
    && (d in last.dirs ==> forall m :: m in last.dirs[d].entries ==> SameFile(disk, disk', last.dirs[d].entries[m]))
  }

  /** No step of the operation has made or changed this directory, or what it names in the end. */
  ghost predicate NeverTouches(states: seq<System>, n: nat, p: nat, d: Ino)
    requires n < |states|
  {
    forall k :: 0 <= k < n && StepOf(states, k, p) ==> SameTree(states[k].disk, states[k + 1].disk, d, states[n].disk)
  }

  /** The directory under the name of the target, if there is one, has been left alone by the operation. */
  ghost predicate LeavesTarget(states: seq<System>, n: nat, p: nat)
    requires n < |states| && p in states[n].jobs
  {
    var disk, target := states[n].disk, states[n].jobs[p].target;
    ROOT in disk.dirs && target in disk.dirs[ROOT].entries ==> NeverTouches(states, n, p, disk.dirs[ROOT].entries[target])
  }

  lemma AdvanceMakes(disk: Disk, o: Job, a: Action, c: Choice)
    requires Enabled(disk, o, a, c)
    ensures var d, n := Effect(disk, o, a, c), Advance(o, a, c);
            && (forall i :: i in d.dirs && i !in disk.dirs ==> i in n.owned)
            && (forall i :: i in d.files && i !in disk.files ==> i in n.owned)
  {
    hide AddEntry, RemoveEntry, Settle, Complete, HasMembers, IsDeclared;
  }

  lemma OthersMakeNothing(disk: Disk, o: Job, disk': Disk, o': Job)
    requires RaisesBefore(disk, o, disk', o') || FindsTaken(disk, o, disk', o') || Writes(disk, o, disk', o') || Tidies(disk, o, disk', o')
    ensures disk'.dirs.Keys <= disk.dirs.Keys && disk'.files.Keys <= disk.files.Keys
    ensures o'.owned == o.owned
  {
    hide Current, Running, Occupied, At, TempAt, TempParent, Stages, RemoveEntry;
  }

  /** A step makes nothing but what the operation then owns. */
  lemma StepMakes(disk: Disk, o: Job, disk': Disk, o': Job)
    requires Step(disk, o, disk', o')
    ensures forall i :: i in disk'.dirs && i !in disk.dirs ==> i in o'.owned
    ensures forall i :: i in disk'.files && i !in disk.files ==> i in o'.owned
    ensures o.owned <= o'.owned
  {
    hide Effect, Enabled, Current, Advance, Running, RaisesBefore, FindsTaken, Writes, Tidies;
    if Works(disk, o, disk', o') || RaisesAfter(disk, o, disk', o') {
      var c :| Enabled(disk, o, Current(o), c) && disk' == Effect(disk, o, Current(o), c)
        && (o' == Failed(Advance(o, Current(o), c))
            || o' == (var n := Advance(o, Current(o), c); if n.pc == Calls(o) then n.(outcome := Some(Published)) else n));
      AdvanceMakes(disk, o, Current(o), c);
      AdvanceNames(o, Current(o), c);
      var n := Advance(o, Current(o), c);
      assert o' == Failed(n) || o' == n.(outcome := Some(Published)) || o' == n;
    } else {
      OthersMakeNothing(disk, o, disk', o');
    }
  }

  lemma {:induction false} OwnedGrows(states: seq<System>, k: nat, n: nat, p: nat)
    requires Run(states) && k <= n < |states| && p in states[n].jobs
    ensures p in states[k].jobs && states[k].jobs[p].owned <= states[n].jobs[p].owned
    decreases n
  {
    hide Step, Init;
    if k < n {
      var s, s' := states[n - 1], states[n];
      assert SystemStep(s, s');
      var q :| q in s.jobs && Step(s.disk, s.jobs[q], s'.disk, s'.jobs[q]) && s'.jobs == s.jobs[q := s'.jobs[q]];
      StepMakes(s.disk, s.jobs[q], s'.disk, s'.jobs[q]);
      OwnedGrows(states, k, n - 1, p);
    }
  }

  /** What an operation neither owns nor has touched in the end, none of its steps has made or changed. */
  lemma StepLeaves(states: seq<System>, k: nat, n: nat, p: nat, i: Ino)
    requires Run(states) && k < n < |states| && p in states[n].jobs && StepOf(states, k, p)
    requires i !in states[n].jobs[p].owned && i !in states[n].jobs[p].touched
    ensures SameDir(states[k].disk, states[k + 1].disk, i) && SameFile(states[k].disk, states[k + 1].disk, i)
  {
    hide Run, Step;
    var disk, o, disk', o' := states[k].disk, states[k].jobs[p], states[k + 1].disk, states[k + 1].jobs[p];
    TouchedGrows(states, k + 1, n, p);
    OwnedGrows(states, k + 1, n, p);
    StepTouches(disk, o, disk', o');
    StepMakes(disk, o, disk', o');
  }

  /** The step that makes the target. */
  lemma StepMakesTarget(disk: Disk, o: Job, disk': Disk, o': Job)
    requires Step(disk, o, disk', o')
    ensures At(o) > 0 ==> o'.dir == o.dir && At(o') > 0
    ensures At(o) <= 0 && At(o') > 0 ==> o'.dir !in disk.dirs
  {
    hide Effect, Enabled, Current, Advance, Running, RaisesBefore, FindsTaken, Writes, Tidies;
    if Works(disk, o, disk', o') || RaisesAfter(disk, o, disk', o') {
      var c :| Enabled(disk, o, Current(o), c) && disk' == Effect(disk, o, Current(o), c)
        && (o' == Failed(Advance(o, Current(o), c))
            || o' == (var n := Advance(o, Current(o), c); if n.pc == Calls(o) then n.(outcome := Some(Published)) else n));
      CopyPositions(o);
      AdvanceNames(o, Current(o), c);
      NewNames(disk, o, Current(o), c);
      var n := Advance(o, Current(o), c);
      assert o' == Failed(n) || o' == n.(outcome := Some(Published)) || o' == n;
    } else {
      OthersStay(disk, o, disk', o');
    }
  }

  lemma OthersStay(disk: Disk, o: Job, disk': Disk, o': Job)
    requires RaisesBefore(disk, o, disk', o') || FindsTaken(disk, o, disk', o') || Writes(disk, o, disk', o') || Tidies(disk, o, disk', o')
    ensures o'.dir == o.dir && At(o') == At(o)
  {
    hide Current, Running, Occupied, TidiesIn, SetFile, TempAt, TempParent, Stages;
  }

  /** An operation that has made its target did so in one of its steps. */
  lemma {:induction false} WhenMade(states: seq<System>, n: nat, p: nat) returns (k: nat)
    requires Run(states) && n < |states| && p in states[n].jobs && At(states[n].jobs[p]) > 0
    ensures k < n && StepOf(states, k, p)
    ensures var d := states[n].jobs[p].dir; d !in states[k].disk.dirs && d in states[k + 1].disk.dirs
  {
    hide Step, Inv, InPlace, At;
    if n == 0 {
      FreshIsEarly(states[0].jobs[p]);
    }
    var s, s' := states[n - 1], states[n];
    assert SystemStep(s, s');
    var q :| q in s.jobs && Step(s.disk, s.jobs[q], s'.disk, s'.jobs[q]) && s'.jobs == s.jobs[q := s'.jobs[q]];
    StepMakesTarget(s.disk, s.jobs[q], s'.disk, s'.jobs[q]);
    if At(s.jobs[p]) > 0 {
      k := WhenMade(states, n - 1, p);
      assert p != q ==> s'.jobs[p] == s.jobs[p];
    } else {
      k := n - 1;
      assert p == q;
      RunKeepsInv(states, n);
      JobInPlace(s', p);
      OwnedMeans(s'.disk, s'.jobs[p]);
    }
  }

  lemma FreshIsEarly(o: Job)
    requires Fresh(o)
    ensures At(o) <= 0
  {
  }

  lemma NeverTouchesForeign(states: seq<System>, n: nat, p: nat, d: Ino)
    requires Run(states) && n < |states| && p in states[n].jobs
    requires d !in states[n].jobs[p].owned + states[n].jobs[p].touched
    requires d in states[n].disk.dirs ==>
               forall m :: m in states[n].disk.dirs[d].entries ==>
                 states[n].disk.dirs[d].entries[m] !in states[n].jobs[p].owned + states[n].jobs[p].touched
    ensures NeverTouches(states, n, p, d)
  {
    hide Run, StepOf, SameDir, SameFile;
    forall k | 0 <= k < n && StepOf(states, k, p)
      ensures SameTree(states[k].disk, states[k + 1].disk, d, states[n].disk)
    {
      StepLeaves(states, k, n, p, d);
      if d in states[n].disk.dirs {
        forall m | m in states[n].disk.dirs[d].entries
          ensures SameFile(states[k].disk, states[k + 1].disk, states[n].disk.dirs[d].entries[m])
        {
          StepLeaves(states, k, n, p, states[n].disk.dirs[d].entries[m]);
        }
      }
    }
  }

  lemma LeftAloneBefore(states: seq<System>, n: nat, p: nat)
    requires Run(states) && n < |states| && p in states[n].jobs
    requires states[n].jobs[p].outcome == Some(TargetExists) && At(states[n].jobs[p]) <= 0
    ensures LeavesTarget(states, n, p)
  {
    hide Run, NeverTouches, Named, At;
    RunKeepsNamed(states, n);
    TakenIsForeign(states[n], p);
    var last, o := states[n].disk, states[n].jobs[p];
    if o.target in last.dirs[ROOT].entries {
      NeverTouchesForeign(states, n, p, last.dirs[ROOT].entries[o.target]);
    }
  }

  /** Over whole runs, for an operation that reports "target exists": in all its steps it has left the
      directory under the name alone if and only if its own exclusive mkdir has not succeeded. If it
      has, the directory is its own, and a random private name was taken afterwards. */
  lemma LeftAloneIff(states: seq<System>, n: nat, p: nat)
    requires Run(states) && n < |states| && p in states[n].jobs && states[n].jobs[p].outcome == Some(TargetExists)
    ensures LeavesTarget(states, n, p) <==> At(states[n].jobs[p]) <= 0
    ensures At(states[n].jobs[p]) > 0 ==>
              states[n].jobs[p].collided && Linked(states[n].disk, ROOT, states[n].jobs[p].target, states[n].jobs[p].dir)
              && states[n].jobs[p].dir in states[n].jobs[p].owned
  {
    hide Run, StepOf, Inv, InPlace, At;
    if At(states[n].jobs[p]) <= 0 {
      LeftAloneBefore(states, n, p);
    } else {
      RunKeepsInv(states, n);
      JobInPlace(states[n], p);
      TargetWas(states[n].disk, states[n].jobs[p]);
      OwnedMeans(states[n].disk, states[n].jobs[p]);
      var k := WhenMade(states, n, p);
      assert !SameDir(states[k].disk, states[k + 1].disk, states[n].jobs[p].dir);
    }
  }

  /** The second case arises from every state in which a sealing operation has made its generation and is
      to draw a private name: if the name is taken, it reports "target exists" about its own target. */
  lemma CollisionMeetsOwnTarget(disk: Disk, o: Job, token: nat)
    requires InPlace(disk, o) && Running(o) && o.protocol.Seal? && Current(o).MakeTemp?
    requires Temporary(token) in disk.dirs[ROOT].entries
    ensures Step(disk, o, disk, o.(outcome := Some(TargetExists), collided := true))
    ensures At(o) > 0 && Linked(disk, ROOT, o.target, o.dir) && o.dir in o.owned
  {
    hide InPlace, Current, Running;
    OwnedMeans(disk, o);
    CopyPositions(o);
    SealTempParent(o);
    TargetWas(disk, o);
    assert Occupied(disk, o, Current(o), Choice(0, token));
    assert FindsTaken(disk, o, disk, o.(outcome := Some(TargetExists), collided := true));
  }

  lemma SealTempParent(o: Job)
    requires o.protocol.Seal?
    ensures TempParent(o) == ROOT && TempAt(o) > 0
  {
  }

  // ---------- The operation's own checks ----------

  lemma ReadBackRight(disk: Disk, o: Job)
    requires o.protocol.Seal? && At(o) == 7 && MadeInOrder(o) && SealFiles(o, disk.files)
    ensures forall m :: m in o.made ==> o.made[m] in disk.files && Right(o, m, disk.files[o.made[m]].bytes)
  {
    hide Right;
    assert Filled(disk.files, o, DatabaseFile) && Filled(disk.files, o, ManifestFile);
  }

  lemma CheckPositions(o: Job)
    requires o.protocol.Seal? && Running(o)
    ensures Current(o) == ReadBack ==> At(o) == 7
    ensures Current(o) == FinalCheck ==> At(o) == 19
  {
  }

  lemma ChecksAsk(disk: Disk, o: Job, c: Choice)
    requires o.protocol.Seal?
    ensures Enabled(disk, o, ReadBack, c) <==>
            forall m :: m in o.made ==> o.made[m] in disk.files && Right(o, m, disk.files[o.made[m]].bytes)
    ensures Enabled(disk, o, FinalCheck, c) <==> Complete(disk, o.dir, Sha256(o.manifest))
  {
    hide Right, Complete;
  }

  /** The read-back check and the final check never refuse what the operation itself has built: they can
      only fail if someone else has interfered. */
  lemma SealChecksSucceed(disk: Disk, o: Job, c: Choice)
    requires InPlace(disk, o) && o.protocol.Seal? && WellBound(o) && Running(o)
    requires Current(o) == ReadBack || Current(o) == FinalCheck
    ensures Enabled(disk, o, Current(o), c)
  {
    hide *;
    InPlaceMeans(disk, o);
    CheckPositions(o);
    ChecksAsk(disk, o, c);
    OrderMeans(disk, o);
    if At(o) == 7 {
      ReadBackRight(disk, o);
    } else {
      DiskOkMeans(disk);
      EntriesArePossible(disk.dirs[o.dir]);
      CompleteAtLast(disk, o);
    }
  }

  lemma OrderMeans(disk: Disk, o: Job)
    requires o.protocol.Seal? && FilesInOrder(o, disk.files)
    requires At(o) > 0 ==> o.dir in disk.dirs && DirInOrder(o, disk.dirs[o.dir])
    ensures SealFiles(o, disk.files)
    ensures At(o) > 0 ==> SealDir(o, disk.dirs[o.dir])
  {
    hide SealFiles, SealDir;
  }

  lemma EntriesArePossible(g: Dir)
    requires DirOk(g)
    ensures forall n :: n in g.entries ==> (n, g.entries[n]) in g.possible
  {
  }

  lemma CompleteAtLast(disk: Disk, o: Job)
    requires o.protocol.Seal? && WellBound(o) && At(o) == 19 && o.dir in disk.dirs
    requires MadeInOrder(o) && SealFiles(o, disk.files) && SealDir(o, disk.dirs[o.dir])
    requires forall n :: n in disk.dirs[o.dir].entries ==> (n, disk.dirs[o.dir].entries[n]) in disk.dirs[o.dir].possible
    ensures Complete(disk, o.dir, Sha256(o.manifest))
  {
    forall n | n in disk.dirs[o.dir].entries
      ensures n in MEMBERS
    {
      assert SealEntry(o, (n, disk.dirs[o.dir].entries[n]));
    }
    assert disk.dirs[o.dir].entries.Keys == MEMBERS;
  }

  lemma RestoreCheckPositions(o: Job)
    requires o.protocol.Restore? && Running(o)
    ensures Current(o) == ReadBack ==> At(o) == 5
    ensures Current(o) == FinalCheck ==> At(o) == 12
  {
  }

  lemma RestoreChecksAsk(disk: Disk, o: Job, c: Choice)
    requires o.protocol.Restore?
    ensures Enabled(disk, o, ReadBack, c) <==>
            forall m :: m in o.made ==> o.made[m] in disk.files && Right(o, m, disk.files[o.made[m]].bytes)
    ensures Enabled(disk, o, FinalCheck, c) <==>
            HasMembers(disk, o.dir, {DatabaseFile}) && IsDeclared(o.manifest, Content(disk, o.dir, DatabaseFile))
  {
    hide Right, IsDeclared;
  }

  lemma RestoreBuilt(disk: Disk, o: Job)
    requires o.protocol.Restore? && MadeInOrder(o) && FilesInOrder(o, disk.files)
    requires At(o) > 0 ==> o.dir in disk.dirs && DirInOrder(o, disk.dirs[o.dir])
    ensures At(o) == 5 ==> forall m :: m in o.made ==> o.made[m] in disk.files && Right(o, m, disk.files[o.made[m]].bytes)
    ensures At(o) == 12 ==> HasMembers(disk, o.dir, {DatabaseFile}) && IsDeclared(o.manifest, Content(disk, o.dir, DatabaseFile))
  {
    if At(o) == 12 {
      assert Has(disk.dirs[o.dir].entries, o, DatabaseFile) && Filled(disk.files, o, DatabaseFile);
      assert disk.dirs[o.dir].entries.Keys == {DatabaseFile};
    }
  }

  /** Neither do those of a restore: the staged database reads back right, and the target holds the
      database alone, with the declared bytes, once the private directory is gone. */
  lemma RestoreChecksSucceed(disk: Disk, o: Job, c: Choice)
    requires InPlace(disk, o) && o.protocol.Restore? && Running(o)
    requires Current(o) == ReadBack || Current(o) == FinalCheck
    ensures Enabled(disk, o, Current(o), c)
  {
    hide *;
    InPlaceMeans(disk, o);
    RestoreCheckPositions(o);
    RestoreChecksAsk(disk, o, c);
    RestoreBuilt(disk, o);
  }
}
