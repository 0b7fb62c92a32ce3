/** Capturing a snapshot from a source directory that may change between any two calls. */
module Copying {
  import opened Records
  import opened Volume
  import opened Publication
  import opened PublicationRuns
  import opened Snapshots

  const MAX_DATABASE := 1024 * 1024 * 1024
  const COPY_CHUNK := 1024 * 1024

  /** The bytes of a file and what `fstat` tells of its last change. */
  datatype Held = Held(bytes: Bytes, stamp: nat)

  /** What `fstat` tells: the length and the last change. */
  datatype Stat = Stat(size: nat, stamp: nat)

  function StatOf(f: Held): Stat { Stat(|f.bytes|, f.stamp) }

  /** The contents the directory has now, and those that it will have at the next calls. */
  class Source {
    var now: map<Name, Held>
    var later: seq<map<Name, Held>>

    constructor (now: map<Name, Held>, later: seq<map<Name, Held>>)
      ensures this.now == now && this.later == later
    {
      this.now, this.later := now, later;
    }

    /** Nothing changes any more. */
    predicate Steady() reads this { later == [] }

    /** Anything may have happened to the directory since the last call. */
    method Pass()
      modifies this
      ensures old(Steady()) ==> Steady() && now == old(now)
    {
      if later != [] {
        now, later := later[0], later[1..];
      }
    }

    method Members() returns (names: set<Name>)
      modifies this
      ensures names == now.Keys
      ensures old(Steady()) ==> Steady() && now == old(now)
    {
      Pass();
      return now.Keys;
    }

    method Read(name: Name) returns (r: Option<Bytes>)
      modifies this
      ensures r == if name in now then Some(now[name].bytes) else None
      ensures old(Steady()) ==> Steady() && now == old(now)
    {
      Pass();
      return if name in now then Some(now[name].bytes) else None;
    }

    method Look(name: Name) returns (r: Option<Stat>)
      modifies this
      ensures r == if name in now then Some(StatOf(now[name])) else None
      ensures old(Steady()) ==> Steady() && now == old(now)
    {
      Pass();
      return if name in now then Some(StatOf(now[name])) else None;
    }

    /** At most `limit` bytes from an offset; none at the end of the file. */
    method ReadBlock(name: Name, offset: nat, limit: nat) returns (r: Option<Bytes>)
      modifies this
      ensures r == if name in now then Some(Block(now[name].bytes, offset, limit)) else None
      ensures old(Steady()) ==> Steady() && now == old(now)
    {
      Pass();
      return if name in now then Some(Block(now[name].bytes, offset, limit)) else None;
    }
  }

  function Block(data: Bytes, offset: nat, limit: nat): (block: Bytes)
    ensures |block| <= limit
  {
    if offset >= |data| then []
    else data[offset..if offset + limit < |data| then offset + limit else |data|]
  }

  /** `copy_file` with an expected length and digest: what is written has both, whatever the blocks
      that the source gave; and a file that has both and is left alone is copied byte for byte. */
  method CopyFile(source: Source, name: Name, size: nat, digest: Digest) returns (r: Option<Bytes>)
    modifies source
    ensures r.Some? ==> |r.value| == size <= MAX_DATABASE && Sha256(r.value) == digest
    ensures old(source.Steady()) ==> source.Steady() && source.now == old(source.now)
    ensures old(source.Steady()) ==>
              r == if name in source.now && |source.now[name].bytes| == size <= MAX_DATABASE && Sha256(source.now[name].bytes) == digest
                   then Some(source.now[name].bytes) else None
  {
    ghost var steady, file := source.Steady(), source.now;
    var before := source.Look(name);
    if before.None? || before.value.size > MAX_DATABASE || before.value.size != size {
      return None;
    }
    var written: Bytes := [];
    while true
      invariant |written| <= size
      invariant steady ==> source.Steady() && source.now == file && written == file[name].bytes[..|written|]
      decreases size - |written|
    {
      var block := source.ReadBlock(name, |written|, COPY_CHUNK);
      if block.None? {
        return None;
      }
      if block.value == [] {
        break;
      }
      if |written| + |block.value| > size {
        return None;
      }
      ghost var more := |written| + |block.value|;
      assert steady ==> written + block.value == file[name].bytes[..more];
      written := written + block.value;
    }
    assert steady ==> written == file[name].bytes;
    var after := source.Look(name);
    if after != before || |written| != size {
      return None;
    }
    if Sha256(written) != digest {
      return None;
    }
    return Some(written);
  }

  /** The directory holds exactly the three members, the expected manifest, and a marker that names it. */
  predicate Described(files: map<Name, Held>, expected: Digest) {
    && files.Keys == MEMBERS
    && Sha256(files[ManifestFile].bytes) == expected && DeclaredDatabase(files[ManifestFile].bytes).Some?
    && NamedManifest(files[MarkerFile].bytes) == Some(expected)
  }

  /** `_manifest`. The members, the manifest and the marker are read one after the other. */
  method ReadManifest(source: Source, expected: Digest) returns (r: Option<(Bytes, Bytes)>)
    modifies source
    ensures r.Some? ==> Sha256(r.value.0) == expected && NamedManifest(r.value.1) == Some(expected)
    ensures r.Some? ==> DeclaredDatabase(r.value.0).Some?
    ensures old(source.Steady()) ==> source.Steady() && source.now == old(source.now)
    ensures old(source.Steady()) ==>
              r == if Described(source.now, expected)
                   then Some((source.now[ManifestFile].bytes, source.now[MarkerFile].bytes)) else None
  {
    var members := source.Members();
    if members != MEMBERS {
      return None;
    }
    var manifest := source.Read(ManifestFile);
    if manifest.None? || Sha256(manifest.value) != expected || DeclaredDatabase(manifest.value).None? {
      return None;
    }
    var marker := source.Read(MarkerFile);
    if marker.None? || NamedManifest(marker.value) != Some(expected) {
      return None;
    }
    return Some((manifest.value, marker.value));
  }

  datatype Captured = Captured(manifest: Bytes, marker: Bytes, database: Bytes)

  /** The three members fit together and to the expected digest. */
  predicate Fits(c: Captured, expected: Digest) {
    Sha256(c.manifest) == expected && NamedManifest(c.marker) == Some(expected) && IsDeclared(c.manifest, c.database)
  }

  function Members(files: map<Name, Held>): Captured
    requires files.Keys == MEMBERS
  {
    Captured(files[ManifestFile].bytes, files[MarkerFile].bytes, files[DatabaseFile].bytes)
  }

  /** `_validated_snapshot`: the captured bytes fit together even if the source never did, and a source
      that fits and is left alone is captured as it is. */
  method ValidatedSnapshot(source: Source, expected: Digest) returns (r: Option<Captured>)
    modifies source
    ensures r.Some? ==> Fits(r.value, expected)
    ensures old(source.Steady()) ==>
              r == if source.now.Keys == MEMBERS && Fits(Members(source.now), expected)
                      && |source.now[DatabaseFile].bytes| <= MAX_DATABASE
                   then Some(Members(source.now)) else None
  {
    var first := ReadManifest(source, expected);
    if first.None? {
      return None;
    }
    var declared := DeclaredDatabase(first.value.0).value;
    var initial := source.Look(DatabaseFile);
    var database := CopyFile(source, DatabaseFile, declared.0, declared.1);
    if database.None? {
      return None;
    }
    var current := source.Look(DatabaseFile);
    if current != initial {
      return None;
    }
    var again := ReadManifest(source, expected);
    if again != first {
      return None;
    }
    return Some(Captured(first.value.0, first.value.1, database.value));
  }

  // ---------- From a changing source to a verified target ----------

  /** A run in which this operation is one of the competitors. */
  ghost predicate Starts(states: seq<System>, p: nat, job: Job) {
    Run(states) && p in states[0].jobs && states[0].jobs[p] == job
  }

  ghost predicate PublishedIn(states: seq<System>, n: nat, p: nat) {
    n < |states| && p in states[n].jobs && states[n].jobs[p].outcome == Some(Published)
  }

  /** The name verifies against the digest on this disk. */
  predicate Verifies(disk: Disk, target: Name, expected: Digest) {
    ROOT in disk.dirs && Verify(disk, target, expected) == Verified
  }

  /** Whatever the competitors, faults and crashes: once published, the target verifies. */
  ghost predicate PublishesOnly(job: Job, target: Name, expected: Digest) {
    forall states: seq<System>, n: nat, p: nat, disk': Disk ::
      Starts(states, p, job) && PublishedIn(states, n, p) && Crash(states[n].disk, disk') ==>
        Verifies(states[n].disk, target, expected) && Verifies(disk', target, expected)
  }

  /** The public database under the name is one that the manifest declares. */
  predicate Restored(disk: Disk, target: Name, manifest: Bytes) {
    && ROOT in disk.dirs && target in disk.dirs[ROOT].entries
    && var dir := disk.dirs[ROOT].entries[target];
       && dir in disk.dirs && DatabaseFile in disk.dirs[dir].entries && disk.dirs[dir].entries[DatabaseFile] in disk.files
       && IsDeclared(manifest, disk.files[disk.dirs[dir].entries[DatabaseFile]].bytes)
  }

  ghost predicate RestoresOnly(job: Job, target: Name, manifest: Bytes) {
    forall states: seq<System>, n: nat, p: nat, disk': Disk ::
      Starts(states, p, job) && PublishedIn(states, n, p) && Crash(states[n].disk, disk') ==> Restored(disk', target, manifest)
  }

  lemma BoundPublishes(job: Job, expected: Digest)
    requires job.protocol.Seal? && WellBound(job) && Sha256(job.manifest) == expected
    ensures PublishesOnly(job, job.target, expected)
  {
    hide Run, Crash, Verify, WellBound;
    forall states: seq<System>, n: nat, p: nat, disk': Disk | Starts(states, p, job) && PublishedIn(states, n, p) && Crash(states[n].disk, disk')
      ensures Verifies(states[n].disk, job.target, expected) && Verifies(disk', job.target, expected)
    {
      PublishedMeansVerified(states, n, p, expected, disk');
    }
  }

  lemma BoundRestores(job: Job)
    requires job.protocol.Restore?
    ensures RestoresOnly(job, job.target, job.manifest)
  {
    hide Run, Crash, Inv, IsDeclared, At;
    forall states: seq<System>, n: nat, p: nat, disk': Disk | Starts(states, p, job) && PublishedIn(states, n, p) && Crash(states[n].disk, disk')
      ensures Restored(disk', job.target, job.manifest)
    {
      RunKeepsInv(states, n);
      RunSameRequests(states, n, p);
      JobInPlace(states[n], p);
      PublishedAt(states[n].jobs[p]);
      RestoredDatabaseIsSafe(states[n], p, disk');
    }
  }

  /** An operation that is begun from a source, changing or not, is bound to exactly the expected digest.
      In every run in which it takes part, whatever competes with it or fails, and after any crash: if it
      reports "published", its target verifies against that digest, or the restored database is the one
      that the manifest of that digest declares. */
  method Begin(source: Source, protocol: Protocol, target: string, expected: Digest) returns (job: Option<Job>)
    modifies source
    ensures job.Some? ==> Fresh(job.value) && job.value.target == Public(target) && job.value.protocol == protocol
    ensures job.Some? ==> Sha256(job.value.manifest) == expected
    ensures job.Some? && protocol.Seal? ==> PublishesOnly(job.value, Public(target), expected)
    ensures job.Some? && protocol.Restore? ==> RestoresOnly(job.value, Public(target), job.value.manifest)
    ensures old(source.Steady()) ==>
              (job.Some? <==> source.now.Keys == MEMBERS && Fits(Members(source.now), expected)
                              && |source.now[DatabaseFile].bytes| <= MAX_DATABASE)
  {
    hide PublishesOnly, RestoresOnly;
    var captured := ValidatedSnapshot(source, expected);
    if captured.None? {
      return None;
    }
    var begun := Started(protocol, Public(target), captured.value.manifest, captured.value.marker);
    if protocol.Seal? {
      BoundPublishes(begun, expected);
    } else {
      BoundRestores(begun);
    }
    return Some(begun);
  }
}
