/** The executor of an install operation, running beside any number of
    cancellation requests. */
module Executor {
  import opened Wrappers
  import opened Phases
  import opened OperationStore
  import opened Downloads
  import opened InstallPlan

  /** Why a step failed: a cancellation stored by someone else, or an error to record. */
  datatype Failure = Externally | Because(code: ErrorCode)

  class Executor {
    const store: Store
    const op: Operation
    const disk: Disk
    const artifacts: seq<Artifact>
    /** Where each artifact comes from and goes to, or why that is refused. */
    const resolution: Result<seq<Resolved>, ErrorCode>
    /** The fixed content behind each URL. */
    const content: string -> Bytes
    /** Whether bytes have a digest of the form "sha256:<hex>". */
    const matches: (Bytes, string) -> bool
    const hasRegistrar: bool
    const saveEvery: nat
    /** Whether network, disk and registrar do all they are asked and nobody ends the context. */
    const calm: bool
    /** How often Register was called. */
    ghost var registered: nat

    constructor (store: Store, op: Operation, disk: Disk, artifacts: seq<Artifact>,
                 resolution: Result<seq<Resolved>, ErrorCode>, content: string -> Bytes,
                 matches: (Bytes, string) -> bool, hasRegistrar: bool, saveEvery: nat, calm: bool)
      ensures this.store == store && this.op == op && this.disk == disk && this.artifacts == artifacts
      ensures this.resolution == resolution && this.content == content && this.matches == matches
      ensures this.hasRegistrar == hasRegistrar && this.saveEvery == saveEvery && this.calm == calm && registered == 0
    {
      this.store, this.op, this.disk, this.artifacts := store, op, disk, artifacts;
      this.resolution, this.content, this.matches := resolution, content, matches;
      this.hasRegistrar, this.saveEvery, this.calm, registered := hasRegistrar, saveEvery, calm, 0;
    }

    /** The plan once it is resolved. */
    function PlanFor(resolved: seq<Resolved>): Plan {
      Plan(artifacts, resolved, content, matches)
    }

    ghost predicate Reliable() {
      store.readsWork && store.writesWork
    }

    /** The stored history so far is sound. */
    ghost predicate Sound()
      reads store
    {
      && store.Valid() && store.record.Some?
      && (store.readsWork ==> Final(store.history))
      && (Reliable() ==> Legal(store.history) && store.history[0].Queued?)
    }

    /** The executor is under way: nothing terminal is stored but a cancellation
        or its own success, and on a reliable store its phase or a cancellation is stored. */
    ghost predicate Running()
      reads this, store, op
    {
      && Sound()
      && !op.phase.Cancelled? && !op.phase.Failed? && |op.downloaded| == |artifacts|
      && (forall p :: p in store.history && Terminal(p) ==> p.Cancelled? || p == op.phase)
      && (Reliable() ==> store.record.value.phase == op.phase || store.record.value.phase.Cancelled?)
    }

    /** Someone else's cancellation is what is stored. */
    ghost predicate Stopped()
      reads store
    {
      Sound() && store.record.value.phase.Cancelled?
    }

    method Others()
      requires Running()
      modifies store
      ensures Running() && old(store.history) <= store.history
    {
      store.OtherRequests();
    }

    method StopIfCancelled() returns (stop: bool)
      requires Running()
      modifies store
      ensures Running() && old(store.history) <= store.history && (stop ==> Stopped())
      ensures store.readsWork ==> (stop <==> store.record.value.phase.Cancelled?)
    {
      Others();
      var current := store.Load();
      stop := current.Some? && current.value.phase.Cancelled?;
    }

    /** Moves to a phase and stores it, unless a cancellation is stored; savedAt is
        the length of the history when the save was tried. */
    method Advance(phase: Phase, now: int) returns (e: Option<Failure>, ghost savedAt: nat)
      requires Running() && !phase.Cancelled? && !phase.Failed? && CanTransition(op.phase, phase)
      modifies store, op
      ensures old(store.history) <= store.history && savedAt <= |store.history|
      ensures e.None? ==> Running() && op.phase == phase
      ensures e.None? && store.readsWork ==> Cancelled !in store.history[..savedAt]
      ensures e.None? && Reliable() ==>
        savedAt < |store.history| && store.history[savedAt] == phase && store.record.value.phase == phase
      ensures e.Some? ==> e.value.Externally? && Stopped()
    {
      var stop := StopIfCancelled();
      if stop {
        return Some(Externally), |store.history|;
      }
      Others();
      savedAt := |store.history|;
      e := Commit(phase, now);
    }

    /** The change of phase and its save, with nothing stored in between. */
    method Commit(phase: Phase, now: int) returns (e: Option<Failure>)
      requires Running() && !phase.Cancelled? && !phase.Failed? && CanTransition(op.phase, phase)
      modifies store, op
      ensures old(store.history) <= store.history
      ensures e.None? ==> Running() && op.phase == phase
      ensures e.None? && store.readsWork ==> Cancelled !in old(store.history)
      ensures e.None? && Reliable() ==>
        store.history == old(store.history) + [phase] && store.record.value.phase == phase
      ensures e.Some? ==> e.value.Externally? && Stopped()
    {
      var ok := op.TransitionTo(phase, now);
      ghost var before := store.history;
      assert before[|before| - 1] in before;
      var outcome := store.Save(op.Snapshot());
      if outcome.AlreadyTerminal? {
        return Some(Externally);
      }
      return None;
    }

    /** Records how much of an artifact is there; true when someone else has
        finished the operation. */
    method SaveProgress(index: nat, written: nat) returns (stop: bool)
      requires Running() && index < |artifacts|
      modifies store, op
      ensures Running() && op.phase == old(op.phase) && old(store.history) <= store.history && (stop ==> Stopped())
      ensures op.downloaded == old(op.downloaded)[index := written] && op.warnings == old(op.warnings)
        && op.error == old(op.error)
      ensures store.readsWork ==> (stop <==> Blocked(store.record, op.phase))
    {
      Others();
      var now: int := *;
      op.downloaded, op.updatedAt := op.downloaded[index := written], now;
      ghost var before := store.history;
      var outcome := store.Save(op.Snapshot());
      assert before[|before| - 1] in before;
      stop := outcome.AlreadyTerminal?;
    }

    // ----- Downloading -----

    ghost predicate Fails(e: Option<Failure>) {
      e.Some? && e.value.Because?
    }

    /** A failure is the machine's, the network's or the context's. */
    ghost predicate Interrupted(e: Option<Failure>) {
      Fails(e) ==> e.value.code.Internal? || e.value.code.CancelledByContext? || e.value.code.DiskInsufficient?
    }

    /** A failure is such an interruption, or a file is blamed that does not pass its checks. */
    ghost predicate Blames(e: Option<Failure>, plan: Plan, files: Files) {
      Fails(e) && !(e.value.code.Internal? || e.value.code.CancelledByContext? || e.value.code.DiskInsufficient?) ==>
        e.value.code.DigestMismatch? && AnyBlamed(plan, files)
    }

    /** Looks for a cancellation and saves progress; true when the download must stop. */
    method Checkpoint(index: nat, written: nat) returns (stop: bool)
      requires Running() && index < |artifacts|
      modifies store, op
      ensures Running() && op.phase == old(op.phase) && old(store.history) <= store.history && (stop ==> Stopped())
    {
      stop := StopIfCancelled();
      if !stop {
        stop := SaveProgress(index, written);
      }
    }

    /** Reads some of the body and writes it to the partial file. */
    method CopyChunk(part: string, body: Bytes, done: nat) returns (n: nat, end: ReadEnd, ok: bool)
      requires part in disk.files && done <= |body|
      modifies disk
      ensures PlausibleRead(n, end, |body| - done) && part in disk.files && SameBut(old(disk.files), disk.files, part)
      ensures old(disk.files[part]) <= disk.files[part] <= old(disk.files[part]) + body[done..done + n]
      ensures ok ==> disk.files[part] == old(disk.files[part]) + body[done..done + n]
      ensures calm ==> ok && !end.Broken?
    {
      n, end := Read(body, done, calm);
      ok := disk.Append(part, body[done..done + n], calm);
    }

    /** Reads the body into the open partial file, to its end or until something breaks. */
    method ReadBody(index: nat, part: string, body: Bytes, existing: nat) returns (e: Option<Failure>)
      requires Running() && index < |artifacts| && part in disk.files && |disk.files[part]| == existing
      modifies store, op, disk
      ensures part in disk.files && SameBut(old(disk.files), disk.files, part)
      ensures old(disk.files[part]) <= disk.files[part] <= old(disk.files[part]) + body
      ensures old(store.history) <= store.history
      ensures e != Some(Externally) ==> Running() && op.phase == old(op.phase)
      ensures e == Some(Externally) ==> Stopped()
      ensures e.None? ==> disk.files[part] == old(disk.files[part]) + body
      ensures Interrupted(e) && (calm ==> !Fails(e))
    {
      ghost var base := disk.files[part];
      var done: nat, lastSaved: nat := 0, existing;
      while true
        invariant done <= |body| && part in disk.files && SameBut(old(disk.files), disk.files, part)
        invariant disk.files[part] == base + body[..done]
        invariant Running() && op.phase == old(op.phase) && old(store.history) <= store.history
        decreases |body| - done
      {
        var contextDone: bool := *;
        if contextDone && !calm {
          return Some(Because(CancelledByContext));
        }
        ghost var file := disk.files[part];
        var n, end, ok := CopyChunk(part, body, done);
        ReadOn(base, body, done, n, file);
        if !ok {
          return Some(Because(Internal));
        }
        done := done + n;
        if n > 0 && existing + done - lastSaved >= saveEvery {
          var stop := Checkpoint(index, existing + done);
          if stop {
            return Some(Externally);
          }
          lastSaved := existing + done;
        }
        match end
        case AtEnd => break;
        case Broken => return Some(Because(Internal));
        case More =>
      }
      assert body[..|body|] == body;
      return None;
    }

    /** Fetches what is missing of one artifact after the existing bytes of its partial file. */
    method FetchRest(index: nat, r: Resolved) returns (e: Option<Failure>)
      requires Running() && index < |artifacts|
      modifies store, op, disk
      ensures IsPrefix(old(disk.files), r.dest, content(r.url)) ==> IsPrefix(disk.files, r.dest, content(r.url))
      ensures SameBut(old(disk.files), disk.files, Part(r.dest))
      ensures old(store.history) <= store.history
      ensures e != Some(Externally) ==> Running() && op.phase == old(op.phase)
      ensures e == Some(Externally) ==> Stopped()
      ensures e.None? ==> Part(r.dest) in disk.files && |disk.files[Part(r.dest)]| == |content(r.url)|
      ensures e.None? && IsPrefix(old(disk.files), r.dest, content(r.url)) ==>
        disk.files[Part(r.dest)] == content(r.url)
      ensures Interrupted(e) && (calm ==> !Fails(e))
    {
      var part, existing := Part(r.dest), PartSize(disk.files, r.dest);
      var fetched := FetchArtifact(content(r.url), existing, calm);
      if fetched.None? {
        return Some(Because(Internal));
      }
      if fetched.value.restarted {
        op.warnings := op.warnings + [RestartedDownload(index)];
      }
      var openFails: bool := *;
      if openFails && !calm {
        return Some(Because(Internal));
      }
      if !fetched.value.resuming {
        existing := 0;
        disk.files := disk.files[part := []];
      }
      e := ReadBody(index, part, fetched.value.body, existing);
    }

    /** Brings one artifact to its partial file, unless it is installed or its
        partial file is complete; resumes what an earlier attempt left. */
    method DownloadOne(index: nat, r: Resolved) returns (e: Option<Failure>)
      requires Running() && index < |artifacts|
      modifies store, op, disk
      ensures SameBut(old(disk.files), disk.files, Part(r.dest))
      ensures IsPrefix(old(disk.files), r.dest, content(r.url)) ==> IsPrefix(disk.files, r.dest, content(r.url))
      ensures old(store.history) <= store.history
      ensures e != Some(Externally) ==> Running() && op.phase == old(op.phase)
      ensures e == Some(Externally) ==> Stopped()
      ensures Complete(old(disk.files), r.dest, artifacts[index]) ==> e.None? && disk.files == old(disk.files)
      ensures e.None? ==> op.downloaded[index] == DownloadedSize(old(disk.files), disk.files, r.dest, artifacts[index])
      ensures e.None? && !Complete(old(disk.files), r.dest, artifacts[index]) ==>
        Part(r.dest) in disk.files && |disk.files[Part(r.dest)]| == |content(r.url)|
      ensures e.None? && !Complete(old(disk.files), r.dest, artifacts[index]) ==>
        (IsPrefix(old(disk.files), r.dest, content(r.url)) ==> disk.files[Part(r.dest)] == content(r.url))
      ensures Interrupted(e) && (calm ==> !Fails(e))
    {
      var want := artifacts[index].total;
      if want.Some? && r.dest in disk.files && |disk.files[r.dest]| == want.value {
        var _ := SaveProgress(index, want.value);
        return None;
      }
      if want.Some? && PartSize(disk.files, r.dest) >= want.value {
        var _ := SaveProgress(index, PartSize(disk.files, r.dest));
        return None;
      }
      e := FetchRest(index, r);
      if e.Some? {
        return;
      }
      var syncFails: bool := *;
      if syncFails && !calm {
        return Some(Because(Internal));
      }
      var stop := SaveProgress(index, PartSize(disk.files, r.dest));
      return if stop then Some(Externally) else None;
    }

    /** Downloads every artifact. However it ends, destinations are untouched, partial
        files that were prefixes of their content still are, and complete artifacts
        are left alone; when it ends well on a good plan, every artifact is settled. */
    method Download(resolved: seq<Resolved>) returns (e: Option<Failure>)
      requires Running() && |resolved| == |artifacts|
      modifies store, op, disk
      ensures DownloadKeeps(PlanFor(resolved), old(disk.files), disk.files)
      ensures old(store.history) <= store.history
      ensures e != Some(Externally) ==> Running() && op.phase == old(op.phase)
      ensures e == Some(Externally) ==> Stopped()
      ensures e.None? && GoodPlan(PlanFor(resolved)) ==> Settled(PlanFor(resolved), disk.files, |resolved|)
      ensures Interrupted(e) && (calm ==> !Fails(e))
    {
      ghost var plan := PlanFor(resolved);
      ghost var good := GoodPlan(plan);
      for i := 0 to |resolved|
        invariant Running() && op.phase == old(op.phase) && old(store.history) <= store.history
        invariant DownloadKeeps(plan, old(disk.files), disk.files)
        invariant good ==> Settled(plan, disk.files, i)
      {
        ghost var before := disk.files;
        e := DownloadOne(i, resolved[i]);
        assert Fetches(plan, before, disk.files, i);
        OneDownloadKeeps(plan, old(disk.files), before, disk.files, i);
        if e.Some? {
          return;
        }
        if good {
          SettlesNext(plan, before, disk.files, i);
        }
      }
      return None;
    }

    // ----- Verifying and installing -----

    /** Checks size and digest of each artifact's file; a missing digest is noted. */
    method Verify(resolved: seq<Resolved>) returns (e: Option<Failure>, ghost bytes: seq<Bytes>)
      requires Running() && |resolved| == |artifacts|
      modifies op
      ensures Running() && op.phase == old(op.phase) && e != Some(Externally)
      ensures bytes == SourceBytes(PlanFor(resolved), disk.files)
      ensures e.None? <==> Verified(PlanFor(resolved), disk.files, bytes, |resolved|)
      ensures Blames(e, PlanFor(resolved), disk.files)
      ensures e == Some(Because(Internal)) ==>
        exists i :: 0 <= i < |resolved| && Source(disk.files, resolved[i].dest) !in disk.files
      ensures e.Some? ==> e == Some(Because(Internal)) || e == Some(Because(DigestMismatch))
      ensures e.None? ==> forall i :: 0 <= i < |artifacts| && artifacts[i].digest.None? ==> SizeOnly(i) in op.warnings
    {
      ghost var plan := PlanFor(resolved);
      bytes := SourceBytes(plan, disk.files);
      for i := 0 to |resolved|
        invariant Running() && op.phase == old(op.phase)
        invariant Verified(plan, disk.files, bytes, i)
        invariant forall k :: 0 <= k < i && artifacts[k].digest.None? ==> SizeOnly(k) in op.warnings
      {
        var path := Source(disk.files, resolved[i].dest);
        if path !in disk.files {
          return Some(Because(Internal)), bytes;
        }
        var a := artifacts[i];
        if a.total.Some? && |disk.files[path]| != a.total.value {
          assert Blamed(plan, disk.files, i);
          return Some(Because(DigestMismatch)), bytes;
        }
        if a.digest.None? {
          op.warnings := op.warnings + [SizeOnly(i)];
        } else if !matches(disk.files[path], a.digest.value) {
          assert Blamed(plan, disk.files, i);
          return Some(Because(DigestMismatch)), bytes;
        }
      }
      return None, bytes;
    }

    // ----- The whole run -----

    /** Records a failure, unless someone else's cancellation ended the run. */
    method Finish(failure: Failure)
      requires failure.Because? ==> Running()
      requires failure.Externally? ==> Stopped()
      modifies store, op
      ensures Sound() && old(store.history) <= store.history
      ensures Reliable() ==>
        Terminal(store.record.value.phase)
        && (store.record.value.phase.Succeeded? ==> failure.Because? && old(op.phase).Succeeded?)
      ensures failure.Because? && Reliable() && store.record.value.phase.Failed? ==>
        store.record.value.error == Some(failure.code)
    {
      if failure.Externally? {
        return;
      }
      Others();
      var now: int := *;
      var ok := op.Fail(failure.code, now);
      if !ok {
        return;
      }
      var _ := store.Save(op.Snapshot());
    }

    /** The registering phase was saved when the history had length at, and no
        cancellation had been stored before. */
    ghost predicate Entered(h: seq<Phase>, at: nat) {
      at <= |h| && (store.readsWork ==> Cancelled !in h[..at]) && (Reliable() ==> at < |h| && h[at].Registering?)
    }

    /** The attempt's record for a good plan: a spoiled artifact stops it before
        anything is installed, and nothing else does when all is calm. */
    ghost predicate StopsForSpoiled(before: Files, after: Files, e: Option<Failure>, plan: Plan) {
      && (GoodPlan(plan) && AnySpoiled(plan, before) ==> e.Some?)
      && (calm && GoodPlan(plan) && Fails(e) ==>
        AnySpoiled(plan, after) && (Workable(plan, before) ==> AnySpoiled(plan, before))
        && e.value.code.DigestMismatch?)
    }

    /** Everything before the downloads. */
    method Preflight() returns (e: Option<Failure>)
      requires Running() && op.phase.Queued?
      modifies store, op
      ensures old(store.history) <= store.history
      ensures e != Some(Externally) ==> Running() && !op.phase.Succeeded?
      ensures e == Some(Externally) ==> Stopped()
      ensures e.None? ==> op.phase.Downloading? && resolution.Ok?
      ensures calm && Fails(e) ==> resolution.Err? && e == Some(Because(resolution.error))
      ensures Interrupted(e) || (resolution.Err? && e == Some(Because(resolution.error)))
    {
      var now: int := *;
      ghost var saved;
      e, saved := Advance(Preflighting, now);
      if e.Some? {
        return;
      }
      var diskFull: bool := *;
      if diskFull && !calm {
        return Some(Because(DiskInsufficient));
      }
      e, saved := Advance(Resolving, now);
      if e.Some? {
        return;
      }
      if resolution.Err? {
        return Some(Because(resolution.error));
      }
      e, saved := Advance(Downloading, now);
    }

    /** Everything up to the installed files; what failed, if something did. */
    method Prepare() returns (e: Option<Failure>)
      requires Running() && op.phase.Queued? && (resolution.Ok? ==> |resolution.value| == |artifacts|)
      modifies store, op, disk
      ensures old(store.history) <= store.history
      ensures e != Some(Externally) ==> Running() && !op.phase.Succeeded?
      ensures e == Some(Externally) ==> Stopped()
      ensures e.None? ==> op.phase.Installing? && resolution.Ok?
      ensures resolution.Ok? ==> StopsForSpoiled(old(disk.files), disk.files, e, PlanFor(resolution.value))
      ensures resolution.Ok? ==> Blames(e, PlanFor(resolution.value), disk.files)
      ensures resolution.Err? ==> (Interrupted(e) && !(calm && Fails(e))) || e == Some(Because(resolution.error))
      ensures resolution.Ok? ==> Leaves(PlanFor(resolution.value), old(disk.files), disk.files, e.None?)
    {
      e := Preflight();
      if e.None? {
        e := Carry(resolution.value);
      } else if resolution.Ok? {
        DownloadLeaves(PlanFor(resolution.value), disk.files, disk.files);
      }
    }

    /** Downloads, verifies and installs. */
    method Carry(resolved: seq<Resolved>) returns (e: Option<Failure>)
      requires Running() && op.phase.Downloading? && |resolved| == |artifacts|
      modifies store, op, disk
      ensures old(store.history) <= store.history
      ensures e != Some(Externally) ==> Running() && !op.phase.Succeeded?
      ensures e == Some(Externally) ==> Stopped()
      ensures e.None? ==> op.phase.Installing?
      ensures StopsForSpoiled(old(disk.files), disk.files, e, PlanFor(resolved))
      ensures Blames(e, PlanFor(resolved), disk.files)
      ensures Leaves(PlanFor(resolved), old(disk.files), disk.files, e.None?)
    {
      ghost var plan, start := PlanFor(resolved), disk.files;
      e := Download(resolved);
      DownloadLeaves(plan, start, disk.files);
      if e.Some? {
        return;
      }
      ghost var middle := disk.files;
      if GoodPlan(plan) {
        SpoiledStays(plan, start, middle);
      }
      e := VerifyAndInstall(resolved);
      DownloadThenInstall(plan, start, middle, disk.files, e.None?);
    }

    method VerifyAndInstall(resolved: seq<Resolved>) returns (e: Option<Failure>)
      requires Running() && op.phase.Downloading? && |resolved| == |artifacts|
      modifies store, op, disk
      ensures old(store.history) <= store.history
      ensures e != Some(Externally) ==> Running() && !op.phase.Succeeded?
      ensures e == Some(Externally) ==> Stopped()
      ensures e.None? ==> op.phase.Installing?
      ensures AnySpoiled(PlanFor(resolved), old(disk.files)) ==> e.Some?
      ensures
        calm && Fails(e) && GoodPlan(PlanFor(resolved)) && Settled(PlanFor(resolved), old(disk.files), |resolved|) ==>
        AnySpoiled(PlanFor(resolved), old(disk.files)) && e.value.code.DigestMismatch?
      ensures Blames(e, PlanFor(resolved), disk.files)
      ensures InstallLeaves(PlanFor(resolved), old(disk.files), disk.files, e.None?)
    {
      ghost var plan, start := PlanFor(resolved), disk.files;
      NothingInstalled(plan, start);
      if GoodPlan(plan) && Settled(plan, start, |resolved|) {
        SettledVerifies(plan, start);
      }
      ghost var bytes;
      e, bytes := CheckFiles(resolved);
      if e.None? {
        e := InstallVerified(resolved, bytes);
      }
    }

    /** Enters verification and checks every file. */
    method CheckFiles(resolved: seq<Resolved>) returns (e: Option<Failure>, ghost bytes: seq<Bytes>)
      requires Running() && op.phase.Downloading? && |resolved| == |artifacts|
      modifies store, op
      ensures old(store.history) <= store.history && bytes == SourceBytes(PlanFor(resolved), disk.files)
      ensures e != Some(Externally) ==> Running() && op.phase.Verifying?
      ensures e == Some(Externally) ==> Stopped()
      ensures e.None? ==> Verified(PlanFor(resolved), disk.files, bytes, |resolved|)
      ensures Fails(e) ==> !Verified(PlanFor(resolved), disk.files, bytes, |resolved|)
      ensures Blames(e, PlanFor(resolved), disk.files)
      ensures Fails(e) && GoodPlan(PlanFor(resolved)) && Settled(PlanFor(resolved), disk.files, |resolved|) ==>
        e.value.code.DigestMismatch?
    {
      ghost var plan := PlanFor(resolved);
      bytes := SourceBytes(plan, disk.files);
      var now: int := *;
      ghost var saved;
      e, saved := Advance(Verifying, now);
      if e.None? {
        e, bytes := Verify(resolved);
        if GoodPlan(plan) && Settled(plan, disk.files, |resolved|) {
          SettledFilesAreThere(plan, disk.files);
        }
      }
    }

    method InstallVerified(resolved: seq<Resolved>, ghost bytes: seq<Bytes>) returns (e: Option<Failure>)
      requires Running() && op.phase.Verifying? && |resolved| == |artifacts|
      requires bytes == SourceBytes(PlanFor(resolved), disk.files)
        && Verified(PlanFor(resolved), disk.files, bytes, |resolved|)
      modifies store, op, disk
      ensures old(store.history) <= store.history
      ensures e != Some(Externally) ==> Running() && !op.phase.Succeeded?
      ensures e == Some(Externally) ==> Stopped()
      ensures e.None? ==> op.phase.Installing?
      ensures calm && InstallAll(old(disk.files), Dests(PlanFor(resolved))).Some? ==> !Fails(e)
      ensures Interrupted(e)
      ensures InstallLeaves(PlanFor(resolved), old(disk.files), disk.files, e.None?)
    {
      ghost var start := disk.files;
      NothingInstalled(PlanFor(resolved), start);
      var now: int := *;
      ghost var saved;
      e, saved := Advance(Installing, now);
      if e.Some? {
        return;
      }
      var ok := Install(disk, Dests(PlanFor(resolved)), calm);
      InstallLeft(PlanFor(resolved), start, disk.files, bytes, ok);
      return if ok then None else Some(Because(Internal));
    }

    /** Registers at most once and goes through the closing phases. */
    method Register() returns (e: Option<Failure>, ghost enteredAt: nat)
      requires Running() && op.phase.Installing?
      modifies this`registered, store, op
      ensures old(store.history) <= store.history
      ensures e != Some(Externally) ==> Running()
      ensures e == Some(Externally) ==> Stopped()
      ensures Fails(e) ==> !op.phase.Succeeded? && e.value.code.Internal?
      ensures calm ==> !Fails(e)
      ensures e.None? ==> op.phase.Succeeded? && (hasRegistrar ==> registered == old(registered) + 1)
      ensures !hasRegistrar ==> registered == old(registered)
      ensures registered == old(registered) || (registered == old(registered) + 1 && Entered(store.history, enteredAt))
    {
      var now: int := *;
      e, enteredAt := Advance(Registering, now);
      if e.Some? {
        return;
      }
      if hasRegistrar {
        registered := registered + 1;
        var registerFails: bool := *;
        if registerFails && !calm {
          return Some(Because(Internal)), enteredAt;
        }
      }
      e := CloseOut();
    }

    /** The two phases after registration, which only record that they were reached. */
    method CloseOut() returns (e: Option<Failure>)
      requires Running() && op.phase.Registering?
      modifies store, op
      ensures old(store.history) <= store.history && !Fails(e)
      ensures e.None? ==> Running() && op.phase.Succeeded?
      ensures e.Some? ==> Stopped()
    {
      var now: int := *;
      ghost var saved;
      e, saved := Advance(Reloading, now);
      if e.None? {
        e, saved := Advance(Succeeded, now);
      }
    }

    /** Registration and the end of the operation, once everything is installed. */
    method Conclude() returns (ghost enteredAt: nat)
      requires Running() && op.phase.Installing?
      modifies this`registered, store, op
      ensures Sound() && old(store.history) <= store.history
      ensures Reliable() ==> Terminal(store.record.value.phase) && (calm ==> !store.record.value.phase.Failed?)
      ensures Reliable() && store.record.value.phase.Failed? ==> store.record.value.error == Some(Internal)
      ensures registered == old(registered) || (registered == old(registered) + 1 && Entered(store.history, enteredAt))
      ensures Reliable() && store.record.value.phase.Succeeded? && hasRegistrar ==> registered == old(registered) + 1
    {
      var e;
      e, enteredAt := Register();
      if e.Some? {
        Finish(e.value);
      }
    }

    /** The recorded error says what went wrong: a refused source as resolved, a digest
        mismatch only when a file is there that does not pass its checks, and on a
        good plan nothing else when all is calm. */
    ghost predicate RightlyFailed(code: ErrorCode)
      reads disk
    {
      && (code.Internal? || code.CancelledByContext? || code.DiskInsufficient?
          || (if resolution.Err? then code == resolution.error
              else code.DigestMismatch? && AnyBlamed(PlanFor(resolution.value), disk.files)))
      && (calm && resolution.Err? ==> code == resolution.error)
      && (calm && resolution.Ok? && GoodPlan(PlanFor(resolution.value)) ==> code.DigestMismatch?)
    }

    /** How the attempt ended. */
    ghost function End(): Ending
      reads store
      requires store.record.Some?
    {
      Ending(if Reliable() then Some(store.record.value.phase) else None, calm)
    }

    /** Runs the operation from its queued record to its end. Cancellations may be
        stored at any moment between its own reads and writes. */
    method Run() returns (ghost enteredAt: nat)
      requires Running() && op.phase.Queued? && (resolution.Ok? ==> |resolution.value| == |artifacts|)
      modifies this`registered, store, op, disk
      ensures Sound() && old(store.history) <= store.history
      ensures Reliable() ==> Terminal(store.record.value.phase)
      ensures Reliable() && store.record.value.phase.Failed? ==>
        store.record.value.error.Some? && RightlyFailed(store.record.value.error.value)
      ensures registered == old(registered) || (registered == old(registered) + 1 && Entered(store.history, enteredAt))
      ensures registered > old(registered) || (Reliable() && store.record.value.phase.Succeeded?) ==>
        resolution.Ok? && (Apart(Dests(PlanFor(resolution.value))) ==> Installed(PlanFor(resolution.value), disk.files))
      ensures Reliable() && store.record.value.phase.Succeeded? && hasRegistrar ==> registered == old(registered) + 1
      ensures resolution.Ok? ==> Attempt(PlanFor(resolution.value), old(disk.files), disk.files, End())
    {
      var e := Prepare();
      if e.Some? {
        Finish(e.value);
        return 0;
      }
      enteredAt := Conclude();
    }
  }

  lemma ReadOn(base: Bytes, body: Bytes, done: nat, n: nat, file: Bytes)
    requires done + n <= |body| && file == base + body[..done]
    ensures file + body[done..done + n] == base + body[..done + n] <= base + body
  {
    assert body[..done] + body[done..done + n] == body[..done + n];
    assert base + body == (base + body[..done + n]) + body[done + n..];
  }
}
