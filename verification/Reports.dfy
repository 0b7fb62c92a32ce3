/** What a report of an operation says about its calls: when each failure report can be given, and that a
    publication has gone through its whole program. */
module Reports {
  import opened Records
  import opened Volume
  import opened Publication
  import opened PublicationInvariant
  import opened PublicationRuns
  import opened Snapshots

  // ---------- How a failure is reported ----------

  /** Some step of the operation ends it with this report. */
  ghost predicate MayReport(disk: Disk, o: Job, outcome: Outcome) {
    exists disk', o' :: Step(disk, o, disk', o') && o'.outcome == Some(outcome)
  }

  /** "Not published" can be the answer up to the publishing link, and for the link itself only on a local
      file system; "unknown" can be the answer from the link on. */
  lemma FailureReports(disk: Disk, o: Job)
    requires Running(o) && Reported(o)
    ensures MayReport(disk, o, NotPublished) <==> At(o) < PublishAt(o) || (At(o) == PublishAt(o) && o.protocol != Seal(true))
    ensures MayReport(disk, o, Ambiguous) <==> At(o) >= PublishAt(o)
  {
    Positions(o);
    hide Current, Works, RaisesAfter, FindsTaken, Writes, Tidies, At, PublishAt, MayReport;
    var tried := Failed(o.(attempted := true));
    assert At(o) < PublishAt(o) || (At(o) == PublishAt(o) && o.protocol != Seal(true)) || At(o) > PublishAt(o)
        ==> RaisesBefore(disk, o, disk, Failed(o));
    assert At(o) == PublishAt(o) ==> RaisesBefore(disk, o, disk, tried);
    ReportMade(disk, o, Failed(o));
    ReportMade(disk, o, tried);
    forall disk', o' | Step(disk, o, disk', o')
      ensures o'.outcome == Some(NotPublished) ==> At(o) < PublishAt(o) || (At(o) == PublishAt(o) && o.protocol != Seal(true))
      ensures o'.outcome == Some(Ambiguous) ==> At(o) >= PublishAt(o)
    {
      ReportOf(disk, o, disk', o');
    }
    MayReportMeans(disk, o);
  }

  lemma MayReportMeans(disk: Disk, o: Job)
    ensures forall r :: MayReport(disk, o, r) <==> exists disk', o' :: Step(disk, o, disk', o') && o'.outcome == Some(r)
  {
    hide Step;
  }

  lemma ReportMade(disk: Disk, o: Job, o': Job)
    ensures RaisesBefore(disk, o, disk, o') && o'.outcome.Some? ==> MayReport(disk, o, o'.outcome.value)
  {
    hide RaisesBefore;
    if RaisesBefore(disk, o, disk, o') && o'.outcome.Some? {
      assert Step(disk, o, disk, o');
    }
  }

  /** What a step that ends a running operation reports about the link. */
  lemma ReportOf(disk: Disk, o: Job, disk': Disk, o': Job)
    requires Running(o) && Reported(o) && Step(disk, o, disk', o')
    ensures o'.outcome == Some(NotPublished) ==> At(o) < PublishAt(o) || (At(o) == PublishAt(o) && o.protocol != Seal(true))
    ensures o'.outcome == Some(Ambiguous) ==> At(o) >= PublishAt(o)
  {
    hide Works, RaisesAfter, RaisesBefore, Writes, FindsTaken, Tidies, At, PublishAt, Reported;
    if Works(disk, o, disk', o') || RaisesAfter(disk, o, disk', o') {
      ReportOfCall(disk, o, disk', o');
    } else {
      ReportOfOther(disk, o, disk', o');
    }
  }

  lemma ReportOfCall(disk: Disk, o: Job, disk': Disk, o': Job)
    requires Running(o) && Reported(o) && (Works(disk, o, disk', o') || RaisesAfter(disk, o, disk', o'))
    ensures o'.outcome == Some(NotPublished) ==> At(o) < PublishAt(o)
    ensures o'.outcome == Some(Ambiguous) ==> At(o) >= PublishAt(o)
  {
    hide *;
    Positions(o);
    AttemptedIs(o);
    var n := ByCall(disk, o, disk', o');
    FailedIs(n);
  }

  /** What the operation is after the call, before it is reported. */
  lemma ByCall(disk: Disk, o: Job, disk': Disk, o': Job) returns (n: Job)
    requires Works(disk, o, disk', o') || RaisesAfter(disk, o, disk', o')
    ensures o' == Failed(n) || o' == n.(outcome := Some(Published)) || o' == n
    ensures n.attempted == (o.attempted || Current(o).Publish?) && n.outcome == o.outcome
  {
    hide Effect, Enabled, Current, Running, Advance, Calls, Failed;
    var c :| Enabled(disk, o, Current(o), c)
      && (o' == Failed(Advance(o, Current(o), c))
          || o' == (var n := Advance(o, Current(o), c); if n.pc == Calls(o) then n.(outcome := Some(Published)) else n));
    AdvanceReport(o, Current(o), c);
    n := Advance(o, Current(o), c);
  }

  lemma FailedIs(n: Job)
    ensures Failed(n).outcome == Some(if n.attempted then Ambiguous else NotPublished)
  {
  }

  lemma AttemptedIs(o: Job)
    requires Running(o) && Reported(o)
    ensures o.outcome.None? && (o.attempted <==> At(o) > PublishAt(o))
  {
    hide At, PublishAt;
  }

  lemma ReportOfOther(disk: Disk, o: Job, disk': Disk, o': Job)
    requires Running(o) && Reported(o)
    requires RaisesBefore(disk, o, disk', o') || FindsTaken(disk, o, disk', o') || Writes(disk, o, disk', o') || Tidies(disk, o, disk', o')
    ensures o'.outcome == Some(NotPublished) ==> At(o) < PublishAt(o) || (At(o) == PublishAt(o) && o.protocol != Seal(true))
    ensures o'.outcome == Some(Ambiguous) ==> At(o) >= PublishAt(o)
  {
    Positions(o);
    hide Current, TidiesIn, SetFile, Occupied;
  }

  // ---------- What a published operation has done ----------

  /** Sealing, from the exclusive mkdir to the final check. */
  const SEALING: seq<Action> :=
    [MakeTarget, Create(DatabaseFile), Fill(DatabaseFile), SyncMember(DatabaseFile), Create(ManifestFile), Fill(ManifestFile),
     SyncMember(ManifestFile), ReadBack, SyncTarget, SyncRoot, MakeTemp, Create(MarkerFile), Fill(MarkerFile), SyncMember(MarkerFile),
     Publish(MarkerFile), RemoveStaged(MarkerFile), RemoveTemp, SyncTarget, SyncRoot, FinalCheck]

  const RESTORING: seq<Action> :=
    [MakeTarget, MakeTemp, Create(DatabaseFile), Fill(DatabaseFile), SyncMember(DatabaseFile), ReadBack, SyncMember(DatabaseFile),
     Publish(DatabaseFile), RemoveStaged(DatabaseFile), RemoveTemp, SyncTarget, SyncRoot, FinalCheck]

  /** All calls of an operation in their order. */
  function Program(protocol: Protocol): seq<Action> {
    match protocol
    case Seal(remote) =>
      if remote then SEALING else [CheckAbsent, MakeScratch, CreateCopy, FillCopy] + SEALING + [RemoveCopy, RemoveScratch]
    case Restore => [CheckAbsent] + RESTORING
  }

  lemma SealingIs(pc: nat)
    requires pc < 20
    ensures |SEALING| == 20 && SealAction(pc) == SEALING[pc]
  {
  }

  lemma RestoringIs(pc: nat)
    requires pc < 13
    ensures |RESTORING| == 13 && RestoreAction(pc) == RESTORING[pc]
  {
  }

  lemma CurrentIsNext(o: Job)
    requires Running(o)
    ensures |Program(o.protocol)| == Calls(o) && Current(o) == Program(o.protocol)[o.pc]
  {
    SealingIs(if 0 <= At(o) < 20 then At(o) else 0);
    RestoringIs(if 0 <= At(o) < 13 then At(o) else 0);
    hide SEALING, RESTORING, SealAction, RestoreAction;
  }

  /** At state `k` the call number `q` of the operation worked. */
  ghost predicate CallWorked(states: seq<System>, k: nat, p: nat, q: nat) {
    && k + 1 < |states| && p in states[k].jobs && p in states[k + 1].jobs && states[k].jobs[p].pc == q
    && Works(states[k].disk, states[k].jobs[p], states[k + 1].disk, states[k + 1].jobs[p])
  }

  /** A step that does not end the operation in failure is a call that works, or leaves its position. */
  lemma GoesOn(disk: Disk, o: Job, disk': Disk, o': Job)
    requires Step(disk, o, disk', o') && (o'.outcome.None? || o'.outcome == Some(Published))
    ensures (Works(disk, o, disk', o') && o'.pc == o.pc + 1 && o.outcome.None?) || (o'.pc == o.pc && o'.outcome == o.outcome)
  {
    hide Works, RaisesAfter, RaisesBefore, FindsTaken, Writes, Tidies;
    if RaisesAfter(disk, o, disk', o') {
      RaisingEnds(disk, o, disk', o');
    }
    if Works(disk, o, disk', o') {
      WorkingCounts(disk, o, disk', o');
    } else if !RaisesAfter(disk, o, disk', o') {
      OthersKeepPosition(disk, o, disk', o');
    }
  }

  lemma RaisingEnds(disk: Disk, o: Job, disk': Disk, o': Job)
    requires RaisesAfter(disk, o, disk', o')
    ensures o'.outcome == Some(Ambiguous) || o'.outcome == Some(NotPublished)
  {
    hide Effect, Enabled, Current, Advance, Running;
  }

  lemma WorkingCounts(disk: Disk, o: Job, disk': Disk, o': Job)
    requires Works(disk, o, disk', o')
    ensures o'.pc == o.pc + 1 && o.outcome.None?
  {
    hide Effect, Enabled, Current, Advance, Calls;
    var c :| o' == (var n := Advance(o, Current(o), c); if n.pc == Calls(o) then n.(outcome := Some(Published)) else n);
    AdvanceReport(o, Current(o), c);
  }

  lemma OthersKeepPosition(disk: Disk, o: Job, disk': Disk, o': Job)
    requires RaisesBefore(disk, o, disk', o') || FindsTaken(disk, o, disk', o') || Writes(disk, o, disk', o') || Tidies(disk, o, disk', o')
    ensures o'.outcome.None? || o'.outcome == Some(Published) ==> o'.pc == o.pc && o'.outcome == o.outcome
  {
    hide Current, TidiesIn, SetFile, Occupied, At, TempAt, Stages, TempParent, Running;
  }

  /** Every call before the position of an operation that has not failed has worked, at some earlier state. */
  lemma {:induction false} EveryCallWorked(states: seq<System>, n: nat, p: nat, q: nat) returns (k: nat)
    requires Run(states) && n < |states| && p in states[n].jobs && q < states[n].jobs[p].pc
    requires states[n].jobs[p].outcome.None? || states[n].jobs[p].outcome == Some(Published)
    ensures k < n && CallWorked(states, k, p, q)
  {
    hide Step, Works, Inv;
    NoCallsAtFirst(states, p);
    var s, s' := states[n - 1], states[n];
    assert SystemStep(s, s');
    var r :| r in s.jobs && Step(s.disk, s.jobs[r], s'.disk, s'.jobs[r]) && s'.jobs == s.jobs[r := s'.jobs[r]];
    if r == p {
      GoesOn(s.disk, s.jobs[p], s'.disk, s'.jobs[p]);
    }
    if r == p && s.jobs[p].pc == q && Works(s.disk, s.jobs[p], s'.disk, s'.jobs[p]) {
      k := n - 1;
    } else {
      k := EveryCallWorked(states, n - 1, p, q);
    }
  }

  lemma NoCallsAtFirst(states: seq<System>, p: nat)
    requires Run(states)
    ensures p in states[0].jobs ==> states[0].jobs[p].pc == 0
  {
    hide SystemStep;
  }

  /** In every run: an operation that reports "published" has gone through all calls of its program, in
      this order, read-back and final check included, and each of them worked. */
  lemma PublishedDidAll(states: seq<System>, n: nat, p: nat, q: nat)
    requires Run(states) && n < |states| && p in states[n].jobs && states[n].jobs[p].outcome == Some(Published)
    requires q < |Program(states[n].jobs[p].protocol)|
    ensures exists k: nat :: k < n && CallWorked(states, k, p, q)
                             && Current(states[k].jobs[p]) == Program(states[n].jobs[p].protocol)[q]
  {
    RunKeepsInv(states, n);
    JobInPlace(states[n], p);
    PublishedCalls(states[n].jobs[p]);
    hide Inv, InPlace, Works, Current, Program, SystemStep, Init, Calls;
    var k := EveryCallWorked(states, n, p, q);
    WorkedRuns(states, k, p, q);
    CurrentIsNext(states[k].jobs[p]);
    Requested(states, k, n, p);
  }

  lemma PublishedCalls(o: Job)
    requires Reported(o) && o.outcome == Some(Published)
    ensures o.pc == |Program(o.protocol)|
  {
  }

  lemma WorkedRuns(states: seq<System>, k: nat, p: nat, q: nat)
    requires CallWorked(states, k, p, q)
    ensures k < |states| && p in states[k].jobs && Running(states[k].jobs[p]) && states[k].jobs[p].pc == q
  {
    hide Running, Enabled, Effect, Advance, Current;
  }

  lemma {:induction false} Requested(states: seq<System>, k: nat, n: nat, p: nat)
    requires Run(states) && k <= n < |states| && p in states[k].jobs && p in states[n].jobs
    ensures states[k].jobs[p].protocol == states[n].jobs[p].protocol
  {
    hide SystemStep, Init, Inv;
    FromTheStart(states, k, p);
    FromTheStart(states, n, p);
    RunSameRequests(states, k, p);
    RunSameRequests(states, n, p);
  }

  lemma {:induction false} FromTheStart(states: seq<System>, n: nat, p: nat)
    requires Run(states) && n < |states| && p in states[n].jobs
    ensures p in states[0].jobs
  {
    hide Init, Step;
    if n > 0 {
      assert SystemStep(states[n - 1], states[n]);
      FromTheStart(states, n - 1, p);
    }
  }

  /** What the calls that clean up leave behind. */
  predicate Gone(disk: Disk, o: Job, a: Action) {
    match a
    case RemoveStaged(m) => o.temp in disk.dirs && m !in disk.dirs[o.temp].entries
    case RemoveTemp => TempParent(o) in disk.dirs && o.tempName !in disk.dirs[TempParent(o)].entries
    case RemoveCopy => o.scratch in disk.dirs && DatabaseFile !in disk.dirs[o.scratch].entries
    case RemoveScratch => ROOT in disk.dirs && o.scratchName !in disk.dirs[ROOT].entries
    case _ => true
  }

  lemma EffectGone(disk: Disk, o: Job, a: Action, c: Choice)
    requires Enabled(disk, o, a, c)
    ensures Gone(Effect(disk, o, a, c), Advance(o, a, c), a)
  {
    if a.RemoveStaged? || a.RemoveTemp? || a.RemoveCopy? || a.RemoveScratch? {
      hide Complete, HasMembers, IsDeclared;
    }
  }

  lemma GoneSame(disk: Disk, o: Job, a: Action, outcome: Option<Outcome>)
    requires Gone(disk, o, a)
    ensures Gone(disk, o.(outcome := outcome), a)
  {
  }

  lemma RemovedIsGone(disk: Disk, o: Job, disk': Disk, o': Job)
    requires Works(disk, o, disk', o')
    ensures Gone(disk', o', Current(o))
  {
    hide Current, Calls, Gone, Enabled, Effect, Advance;
    var c :| Enabled(disk, o, Current(o), c) && disk' == Effect(disk, o, Current(o), c)
      && o' == (var n := Advance(o, Current(o), c); if n.pc == Calls(o) then n.(outcome := Some(Published)) else n);
    EffectGone(disk, o, Current(o), c);
    GoneSame(disk', Advance(o, Current(o), c), Current(o), Some(Published));
  }

  /** In every run: an operation that reports "published" has removed the staged member, its private
      directory and, for a creation, the private copy and its directory. */
  lemma PublishedHasTidied(states: seq<System>, n: nat, p: nat, q: nat)
    requires Run(states) && n < |states| && p in states[n].jobs && states[n].jobs[p].outcome == Some(Published)
    requires q < |Program(states[n].jobs[p].protocol)|
    ensures exists k: nat :: k < n && CallWorked(states, k, p, q)
                             && Gone(states[k + 1].disk, states[k + 1].jobs[p], Program(states[n].jobs[p].protocol)[q])
  {
    hide Run, Works, Current, Program, Gone;
    PublishedDidAll(states, n, p, q);
    var k: nat :| k < n && CallWorked(states, k, p, q) && Current(states[k].jobs[p]) == Program(states[n].jobs[p].protocol)[q];
    RemovedIsGone(states[k].disk, states[k].jobs[p], states[k + 1].disk, states[k + 1].jobs[p]);
  }

  // ---------- What "verified" means ----------

  /** A name verifies exactly if its directory has the three members and no more, the manifest has the
      expected digest, the marker names that digest, and the database has the length and the digest that
      the manifest declares. */
  lemma VerifiedIff(disk: Disk, name: Name, expected: Digest)
    requires ROOT in disk.dirs
    ensures Verify(disk, name, expected) == Verified <==>
            && name in disk.dirs[ROOT].entries && disk.dirs[ROOT].entries[name] in disk.dirs
            && var entries := disk.dirs[disk.dirs[ROOT].entries[name]].entries;
               && entries.Keys == {DatabaseFile, ManifestFile, MarkerFile}
               && entries[DatabaseFile] in disk.files && entries[ManifestFile] in disk.files
                   && entries[MarkerFile] in disk.files
               && var database, manifest, marker := disk.files[entries[DatabaseFile]].bytes, disk.files[entries[ManifestFile]].bytes,
                                                    disk.files[entries[MarkerFile]].bytes;
                  && Sha256(manifest) == expected && NamedManifest(marker) == Some(expected)
                  && DeclaredDatabase(manifest) == Some((|database|, Sha256(database)))
  {
    if name in disk.dirs[ROOT].entries && disk.dirs[ROOT].entries[name] in disk.dirs {
      var keys := disk.dirs[disk.dirs[ROOT].entries[name]].entries.Keys;
      if keys == MEMBERS {
        FewMembers(keys);
      }
    }
  }
}
