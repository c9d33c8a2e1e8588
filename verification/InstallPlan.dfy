/** An accepted install plan and what its artifacts' files may look like between
    and after attempts to carry it out. */
module InstallPlan {
  import opened Wrappers
  import opened Phases
  import opened Downloads

  datatype Artifact = Artifact(total: Option<nat>, digest: Option<string>)

  datatype Resolved = Resolved(url: string, dest: string)

  /** The artifacts with where each comes from and goes to, the fixed content behind
      each URL, and whether bytes have a digest of the form "sha256:<hex>". */
  datatype Plan = Plan(artifacts: seq<Artifact>, resolved: seq<Resolved>,
                       content: string -> Bytes, matches: (Bytes, string) -> bool)

  function Dests(p: Plan): seq<string> {
    seq(|p.resolved|, i requires 0 <= i < |p.resolved| => p.resolved[i].dest)
  }

  function Content(p: Plan, i: nat): Bytes
    requires i < |p.resolved|
  {
    p.content(p.resolved[i].url)
  }

  predicate Passes(a: Artifact, matches: (Bytes, string) -> bool, bytes: Bytes) {
    (a.total.Some? ==> |bytes| == a.total.value) && (a.digest.Some? ==> matches(bytes, a.digest.value))
  }

  // ----- One artifact's files -----

  ghost predicate IsPrefix(files: Files, dest: string, content: Bytes) {
    Part(dest) in files ==> files[Part(dest)] <= content
  }

  predicate RightSized(files: Files, dest: string, size: nat) {
    dest in files && |files[dest]| == size
  }

  /** The destination or the partial file already has the declared size. */
  predicate Complete(files: Files, dest: string, a: Artifact) {
    a.total.Some? && (RightSized(files, dest, a.total.value) || PartSize(files, dest) >= a.total.value)
  }

  /** What is recorded as downloaded: the installed file's size or the partial file's. */
  function DownloadedSize(before: Files, after: Files, dest: string, a: Artifact): nat {
    if a.total.Some? && RightSized(before, dest, a.total.value) then a.total.value else PartSize(after, dest)
  }

  /** The file that will be checked and installed is the content. */
  ghost predicate Ready(files: Files, dest: string, content: Bytes) {
    Source(files, dest) in files && files[Source(files, dest)] == content
  }

  /** A partial file is a prefix of the content, and a destination of the right
      size is the content with no unfinished partial file beside it. */
  ghost predicate Resumable(files: Files, dest: string, content: Bytes) {
    && IsPrefix(files, dest, content)
    && (RightSized(files, dest, |content|) ==>
          files[dest] == content && (Part(dest) in files ==> |files[Part(dest)]| == |content|))
  }

  /** The download will leave the artifact alone, because its destination or its
      partial file has the declared size, but the file that is then checked does
      not pass. */
  ghost predicate Spoiled(p: Plan, files: Files, i: nat)
    requires i < |p.resolved| == |p.artifacts|
  {
    var path := Source(files, p.resolved[i].dest);
    && Complete(files, p.resolved[i].dest, p.artifacts[i])
    && !(path in files && Passes(p.artifacts[i], p.matches, files[path]))
  }

  /** Neither the destination nor its partial file changed. */
  ghost predicate SameAt(before: Files, after: Files, dest: string) {
    && (dest in before <==> dest in after) && (dest in before ==> after[dest] == before[dest])
    && (Part(dest) in before <==> Part(dest) in after)
    && (Part(dest) in before ==> after[Part(dest)] == before[Part(dest)])
  }

  // ----- All artifacts' files -----

  /** Artifacts that share a destination share their content. */
  ghost predicate Consistent(p: Plan) {
    forall i, j :: 0 <= i < |p.resolved| && 0 <= j < |p.resolved| && p.resolved[i].dest == p.resolved[j].dest ==>
      Content(p, i) == Content(p, j)
  }

  /** Sizes and digests are those of the content, nothing is empty, artifacts with
      one destination share their content, and no destination is a partial file. */
  ghost predicate GoodPlan(p: Plan) {
    && |p.resolved| == |p.artifacts| && Consistent(p) && FarApart(Dests(p))
    && forall i :: 0 <= i < |p.resolved| ==>
         && |Content(p, i)| > 0 && p.artifacts[i].total == Some(|Content(p, i)|)
         && Passes(p.artifacts[i], p.matches, Content(p, i))
  }

  ghost predicate AllPrefixes(p: Plan, files: Files) {
    forall i :: 0 <= i < |p.resolved| ==> IsPrefix(files, p.resolved[i].dest, Content(p, i))
  }

  ghost predicate AllResumable(p: Plan, files: Files) {
    forall i :: 0 <= i < |p.resolved| ==> Resumable(files, p.resolved[i].dest, Content(p, i))
  }

  /** Each artifact is left alone or has a partial file that can be resumed. */
  ghost predicate Workable(p: Plan, files: Files)
    requires |p.resolved| == |p.artifacts|
  {
    forall i :: 0 <= i < |p.resolved| ==>
      Complete(files, p.resolved[i].dest, p.artifacts[i]) || IsPrefix(files, p.resolved[i].dest, Content(p, i))
  }

  ghost predicate AnySpoiled(p: Plan, files: Files) {
    |p.resolved| == |p.artifacts| && exists i :: 0 <= i < |p.resolved| && Spoiled(p, files, i)
  }

  /** The first n artifacts need no further download. */
  ghost predicate Settled(p: Plan, files: Files, n: nat) {
    n <= |p.resolved| == |p.artifacts| && forall i :: 0 <= i < n ==>
      Complete(files, p.resolved[i].dest, p.artifacts[i])
  }

  ghost predicate AllReady(p: Plan, files: Files) {
    forall i :: 0 <= i < |p.resolved| ==> Ready(files, p.resolved[i].dest, Content(p, i))
  }

  /** A good plan over files from which every artifact can be brought in. */
  ghost predicate GoodStart(p: Plan, files: Files) {
    GoodPlan(p) && AllResumable(p, files)
  }

  /** Every destination holds the content behind its URL. */
  ghost predicate InPlace(p: Plan, files: Files) {
    forall i :: 0 <= i < |p.resolved| ==> p.resolved[i].dest in files && files[p.resolved[i].dest] == Content(p, i)
  }

  /** Every artifact's file is there, holds these bytes and passes its checks. */
  ghost predicate Verified(p: Plan, files: Files, bytes: seq<Bytes>, n: nat) {
    && n <= |bytes| == |p.resolved| == |p.artifacts|
    && forall i :: 0 <= i < n ==>
         var path := Source(files, p.resolved[i].dest);
         path in files && files[path] == bytes[i] && Passes(p.artifacts[i], p.matches, bytes[i])
  }

  function SourceBytes(p: Plan, files: Files): seq<Bytes> {
    seq(|p.resolved|, i requires 0 <= i < |p.resolved| =>
      var path := Source(files, p.resolved[i].dest); if path in files then files[path] else [])
  }

  /** Artifact i's file is there and does not pass its checks. */
  ghost predicate Blamed(p: Plan, files: Files, i: nat)
    requires i < |p.resolved| == |p.artifacts|
  {
    var path := Source(files, p.resolved[i].dest);
    path in files && !Passes(p.artifacts[i], p.matches, files[path])
  }

  ghost predicate AnyBlamed(p: Plan, files: Files) {
    |p.resolved| == |p.artifacts| && exists i :: 0 <= i < |p.resolved| && Blamed(p, files, i)
  }

  /** Every destination holds bytes that pass its artifact's checks. */
  ghost predicate Installed(p: Plan, files: Files) {
    |p.resolved| == |p.artifacts| && forall i :: 0 <= i < |p.resolved| ==>
      p.resolved[i].dest in files && Passes(p.artifacts[i], p.matches, files[p.resolved[i].dest])
  }

  // ----- One download -----

  /** What an attempt to download artifact k may do to the files. */
  ghost predicate Fetches(p: Plan, before: Files, after: Files, k: nat)
    requires k < |p.resolved| == |p.artifacts|
  {
    var d := p.resolved[k].dest;
    && SameBut(before, after, Part(d))
    && (IsPrefix(before, d, Content(p, k)) ==> IsPrefix(after, d, Content(p, k)))
    && (Complete(before, d, p.artifacts[k]) ==> after == before)
  }

  /** Downloads change no destination, keep prefixes, and leave alone whatever is
      complete; what they complete from a prefix is the content. */
  ghost predicate DownloadKeeps(p: Plan, before: Files, after: Files) {
    && (Consistent(p) && AllPrefixes(p, before) ==> AllPrefixes(p, after))
    && (FarApart(Dests(p)) ==> forall i :: 0 <= i < |p.resolved| ==>
          && (p.resolved[i].dest in before <==> p.resolved[i].dest in after)
          && (p.resolved[i].dest in before ==> after[p.resolved[i].dest] == before[p.resolved[i].dest]))
    && (GoodPlan(p) ==> forall i :: 0 <= i < |p.resolved| ==>
          && (Complete(before, p.resolved[i].dest, p.artifacts[i]) ==> SameAt(before, after, p.resolved[i].dest))
          && (IsPrefix(before, p.resolved[i].dest, Content(p, i)) ==>
            IsPrefix(after, p.resolved[i].dest, Content(p, i))))
  }

  lemma DestinationsKept(p: Plan, before: Files, after: Files, k: nat, i: nat)
    requires k < |p.resolved| == |p.artifacts| && Fetches(p, before, after, k) && FarApart(Dests(p)) && i < |p.resolved|
    ensures var d := p.resolved[i].dest; (d in before <==> d in after) && (d in before ==> after[d] == before[d])
  {
    assert Dests(p)[i] == p.resolved[i].dest && Dests(p)[k] == p.resolved[k].dest;
  }

  lemma CompleteKept(p: Plan, before: Files, after: Files, k: nat, i: nat)
    requires k < |p.resolved| == |p.artifacts| && Fetches(p, before, after, k) && GoodPlan(p) && i < |p.resolved|
    requires Complete(before, p.resolved[i].dest, p.artifacts[i])
    ensures SameAt(before, after, p.resolved[i].dest)
  {
    DestinationsKept(p, before, after, k, i);
    if Part(p.resolved[i].dest) == Part(p.resolved[k].dest) {
      PartInjective(p.resolved[i].dest, p.resolved[k].dest);
      assert Content(p, i) == Content(p, k);
      assert Complete(before, p.resolved[k].dest, p.artifacts[k]);
    }
  }

  lemma PrefixKept(p: Plan, before: Files, after: Files, k: nat, i: nat)
    requires k < |p.resolved| == |p.artifacts| && Fetches(p, before, after, k) && Consistent(p) && i < |p.resolved|
    requires IsPrefix(before, p.resolved[i].dest, Content(p, i))
    ensures IsPrefix(after, p.resolved[i].dest, Content(p, i))
  {
    if Part(p.resolved[i].dest) == Part(p.resolved[k].dest) {
      PartInjective(p.resolved[i].dest, p.resolved[k].dest);
    }
  }

  lemma OneDownloadKeeps(p: Plan, start: Files, before: Files, after: Files, k: nat)
    requires k < |p.resolved| == |p.artifacts| && DownloadKeeps(p, start, before) && Fetches(p, before, after, k)
    ensures DownloadKeeps(p, start, after)
  {
    if Consistent(p) && AllPrefixes(p, start) {
      forall i | 0 <= i < |p.resolved| ensures IsPrefix(after, p.resolved[i].dest, Content(p, i)) {
        assert IsPrefix(before, p.resolved[i].dest, Content(p, i));
        PrefixKept(p, before, after, k, i);
      }
    }
    if FarApart(Dests(p)) {
      forall i | 0 <= i < |p.resolved|
        ensures (p.resolved[i].dest in start <==> p.resolved[i].dest in after)
             && (p.resolved[i].dest in start ==> after[p.resolved[i].dest] == start[p.resolved[i].dest])
      {
        DestinationsKept(p, before, after, k, i);
      }
    }
    if GoodPlan(p) {
      forall i | 0 <= i < |p.resolved| && Complete(start, p.resolved[i].dest, p.artifacts[i])
        ensures SameAt(start, after, p.resolved[i].dest)
      {
        CompleteKept(p, before, after, k, i);
      }
      forall i | 0 <= i < |p.resolved| && IsPrefix(start, p.resolved[i].dest, Content(p, i))
        ensures IsPrefix(after, p.resolved[i].dest, Content(p, i))
      {
        PrefixKept(p, before, after, k, i);
      }
    }
  }

  /** k downloads that ended well settle the first k artifacts, whatever the files
      were like before. */
  lemma SettlesNext(p: Plan, before: Files, after: Files, k: nat)
    requires k < |p.resolved| == |p.artifacts| && GoodPlan(p) && Fetches(p, before, after, k) && Settled(p, before, k)
    requires Complete(after, p.resolved[k].dest, p.artifacts[k])
    ensures Settled(p, after, k + 1)
  {
    forall i | 0 <= i < k ensures Complete(after, p.resolved[i].dest, p.artifacts[i]) {
      CompleteKept(p, before, after, k, i);
    }
  }

  // ----- After the downloads -----

  lemma SpoiledKept(p: Plan, before: Files, after: Files, i: nat)
    requires GoodPlan(p) && DownloadKeeps(p, before, after) && i < |p.resolved| && Spoiled(p, before, i)
    ensures Spoiled(p, after, i)
  {
    assert SameAt(before, after, p.resolved[i].dest);
  }

  /** What a download completes from a prefix passes its checks. */
  lemma SoundKept(p: Plan, before: Files, after: Files, i: nat)
    requires GoodPlan(p) && DownloadKeeps(p, before, after) && i < |p.resolved| && Workable(p, before)
    requires !Spoiled(p, before, i)
    ensures !Spoiled(p, after, i)
  {
    var d := p.resolved[i].dest;
    if Complete(before, d, p.artifacts[i]) {
      assert SameAt(before, after, d);
    } else if Complete(after, d, p.artifacts[i]) {
      assert IsPrefix(after, d, Content(p, i)) && Passes(p.artifacts[i], p.matches, Content(p, i));
      assert after[Part(d)] == Content(p, i);
    }
  }

  lemma ResumableIsWorkable(p: Plan, files: Files)
    requires GoodPlan(p) && AllResumable(p, files)
    ensures Workable(p, files) && !AnySpoiled(p, files)
  {
    forall i | 0 <= i < |p.resolved| ensures !Spoiled(p, files, i) {
      var d := p.resolved[i].dest;
      assert Resumable(files, d, Content(p, i)) && Passes(p.artifacts[i], p.matches, Content(p, i));
      if Complete(files, d, p.artifacts[i]) {
        assert Source(files, d) in files && files[Source(files, d)] == Content(p, i);
      }
    }
    forall i | 0 <= i < |p.resolved| ensures IsPrefix(files, p.resolved[i].dest, Content(p, i)) {
      assert Resumable(files, p.resolved[i].dest, Content(p, i));
    }
  }

  lemma SettledFilesAreThere(p: Plan, files: Files)
    requires GoodPlan(p) && Settled(p, files, |p.resolved|)
    ensures forall i :: 0 <= i < |p.resolved| ==> Source(files, p.resolved[i].dest) in files
  {
  }

  /** Settled files pass verification and can be installed exactly when none is spoiled. */
  lemma SettledVerifies(p: Plan, files: Files)
    requires GoodPlan(p) && Settled(p, files, |p.resolved|)
    ensures Verified(p, files, SourceBytes(p, files), |p.resolved|) <==> !AnySpoiled(p, files)
    ensures InstallAll(files, Dests(p)).Some?
  {
    forall i | 0 <= i < |p.resolved| ensures Source(files, Dests(p)[i]) in files {
      assert Complete(files, p.resolved[i].dest, p.artifacts[i]) && Dests(p)[i] == p.resolved[i].dest;
    }
    forall i | 0 <= i < |p.resolved|
      ensures Passes(p.artifacts[i], p.matches, SourceBytes(p, files)[i]) <==> !Spoiled(p, files, i)
    {
      assert Source(files, Dests(p)[i]) in files && Dests(p)[i] == p.resolved[i].dest;
    }
    InstallGoesThrough(files, Dests(p));
  }

  lemma InstalledVerified(p: Plan, before: Files, after: Files, bytes: seq<Bytes>)
    requires Verified(p, before, bytes, |p.resolved|)
    requires InstallAll(before, Dests(p)) == Some(after) && Apart(Dests(p))
    ensures Installed(p, after)
  {
    InstallPutsBytes(before, Dests(p), bytes);
    forall i | 0 <= i < |p.resolved|
      ensures p.resolved[i].dest in after && Passes(p.artifacts[i], p.matches, after[p.resolved[i].dest])
    {
      assert Dests(p)[i] == p.resolved[i].dest;
    }
  }

  lemma ReadyIsInstalled(p: Plan, before: Files, after: Files)
    requires GoodPlan(p) && AllReady(p, before) && InstallAll(before, Dests(p)) == Some(after)
    ensures InPlace(p, after)
  {
    var bytes := SourceBytes(p, before);
    forall i | 0 <= i < |p.resolved| ensures Holds(before, Dests(p)[i], bytes[i]) && bytes[i] == Content(p, i) {
      assert Ready(before, p.resolved[i].dest, Content(p, i));
    }
    InstallPutsBytes(before, Dests(p), bytes);
    forall i | 0 <= i < |p.resolved| ensures p.resolved[i].dest in after && after[p.resolved[i].dest] == Content(p, i) {
      assert Dests(p)[i] == p.resolved[i].dest;
    }
  }

  // ----- Installing some of the artifacts -----

  /** Destinations of the right size and partial files hold nothing but content. */
  ghost predicate OnlyContent(p: Plan, files: Files) {
    forall i :: 0 <= i < |p.resolved| ==>
      && (Part(p.resolved[i].dest) in files ==> files[Part(p.resolved[i].dest)] == Content(p, i))
      && (RightSized(files, p.resolved[i].dest, |Content(p, i)|) ==> files[p.resolved[i].dest] == Content(p, i))
  }

  lemma RenameKeepsPrefixes(p: Plan, files: Files, d: string)
    requires Consistent(p) && FarApart(Dests(p)) && AllPrefixes(p, files) && d in Dests(p) && Part(d) in files
    ensures AllPrefixes(p, files[d := files[Part(d)]] - {Part(d)})
  {
    var k :| 0 <= k < |p.resolved| && Dests(p)[k] == d;
    forall i | 0 <= i < |p.resolved|
      ensures IsPrefix(files[d := files[Part(d)]] - {Part(d)}, p.resolved[i].dest, Content(p, i))
    {
      assert IsPrefix(files, p.resolved[i].dest, Content(p, i)) && Dests(p)[i] == p.resolved[i].dest;
      assert d != Part(p.resolved[i].dest);
    }
  }

  lemma RenameKeepsContent(p: Plan, files: Files, d: string)
    requires Consistent(p) && FarApart(Dests(p)) && OnlyContent(p, files) && d in Dests(p) && Part(d) in files
    ensures OnlyContent(p, files[d := files[Part(d)]] - {Part(d)})
  {
    var k :| 0 <= k < |p.resolved| && Dests(p)[k] == d;
    var after := files[d := files[Part(d)]] - {Part(d)};
    assert after[d] == Content(p, k);
    forall i | 0 <= i < |p.resolved|
      ensures Part(p.resolved[i].dest) in after ==> after[Part(p.resolved[i].dest)] == Content(p, i)
      ensures RightSized(after, p.resolved[i].dest, |Content(p, i)|) ==> after[p.resolved[i].dest] == Content(p, i)
    {
      assert Dests(p)[i] == p.resolved[i].dest && d != Part(p.resolved[i].dest);
    }
  }

  /** However far an installation gets, prefixes stay prefixes and content content. */
  lemma {:induction false} InstallingKeeps(p: Plan, files: Files, dests: seq<string>)
    requires Consistent(p) && FarApart(Dests(p)) && (forall d :: d in dests ==> d in Dests(p))
      && InstallAll(files, dests).Some?
    ensures AllPrefixes(p, files) ==> AllPrefixes(p, InstallAll(files, dests).value)
    ensures OnlyContent(p, files) ==> OnlyContent(p, InstallAll(files, dests).value)
    decreases |dests|
  {
    if dests == [] {
    } else if Part(dests[0]) in files {
      var d := dests[0];
      if AllPrefixes(p, files) {
        RenameKeepsPrefixes(p, files, d);
      }
      if OnlyContent(p, files) {
        RenameKeepsContent(p, files, d);
      }
      InstallingKeeps(p, files[d := files[Part(d)]] - {Part(d)}, dests[1..]);
    } else {
      InstallingKeeps(p, files, dests[1..]);
    }
  }

  // ----- What an attempt leaves behind -----

  /** What verification and installation leave, done or interrupted. */
  ghost predicate InstallLeaves(p: Plan, before: Files, after: Files, done: bool) {
    && (Consistent(p) && FarApart(Dests(p)) && AllPrefixes(p, before) ==> AllPrefixes(p, after))
    && (AnySpoiled(p, before) ==> after == before)
    && (GoodPlan(p) && AllReady(p, before) && AllResumable(p, before) ==>
      AllResumable(p, after) && (done ==> InPlace(p, after)))
    && (done && Apart(Dests(p)) ==> Installed(p, after))
  }

  lemma NothingInstalled(p: Plan, files: Files)
    ensures InstallLeaves(p, files, files, false)
  {
  }

  lemma InstallLeft(p: Plan, before: Files, after: Files, bytes: seq<Bytes>, done: bool)
    requires Verified(p, before, bytes, |p.resolved|) && bytes == SourceBytes(p, before)
    requires exists k :: 0 <= k <= |Dests(p)| && InstallAll(before, Dests(p)[..k]) == Some(after)
    requires done ==> InstallAll(before, Dests(p)) == Some(after)
    ensures InstallLeaves(p, before, after, done)
  {
    var k :| 0 <= k <= |Dests(p)| && InstallAll(before, Dests(p)[..k]) == Some(after);
    if !AnySpoiled(p, before) {
      if Consistent(p) && FarApart(Dests(p)) {
        InstallingKeeps(p, before, Dests(p)[..k]);
      }
      if GoodPlan(p) && AllReady(p, before) && AllResumable(p, before) {
        if done {
          ReadyIsInstalled(p, before, after);
        }
      }
      if done && Apart(Dests(p)) {
        InstalledVerified(p, before, after, bytes);
      }
    }
  }

  /** What everything up to the installed files leaves, done or interrupted. */
  ghost predicate Leaves(p: Plan, before: Files, after: Files, done: bool) {
    && (Consistent(p) && FarApart(Dests(p)) && AllPrefixes(p, before) ==> AllPrefixes(p, after))
    && (GoodStart(p, before) ==> GoodStart(p, after) && (done ==> InPlace(p, after)))
    && (GoodPlan(p) && AnySpoiled(p, before) ==> AnySpoiled(p, after))
    && (done && Apart(Dests(p)) ==> Installed(p, after))
  }

  lemma SpoiledStays(p: Plan, before: Files, after: Files)
    requires GoodPlan(p) && DownloadKeeps(p, before, after)
    ensures AnySpoiled(p, before) ==> AnySpoiled(p, after)
    ensures Workable(p, before) && AnySpoiled(p, after) ==> AnySpoiled(p, before)
  {
    if i :| 0 <= i < |p.resolved| && Spoiled(p, before, i) {
      SpoiledKept(p, before, after, i);
    }
    if Workable(p, before) && !AnySpoiled(p, before) {
      forall i | 0 <= i < |p.resolved| ensures !Spoiled(p, after, i) {
        SoundKept(p, before, after, i);
      }
    }
  }

  lemma DownloadLeaves(p: Plan, before: Files, after: Files)
    requires DownloadKeeps(p, before, after)
    ensures Leaves(p, before, after, false)
  {
    if GoodPlan(p) {
      SpoiledStays(p, before, after);
    }
  }

  lemma DownloadThenInstall(p: Plan, before: Files, middle: Files, after: Files, done: bool)
    requires DownloadKeeps(p, before, middle) && InstallLeaves(p, middle, after, done)
    requires GoodPlan(p) ==> Settled(p, middle, |p.resolved|)
    ensures Leaves(p, before, after, done)
  {
    DownloadLeaves(p, before, middle);
    if GoodStart(p, before) {
      ResumableIsWorkable(p, before);
    }
  }

  // ----- Attempts -----

  /** How an attempt ended: the stored phase, where the store is reliable, and
      whether everything the attempt asked for was done. */
  datatype Ending = Ending(phase: Option<Phase>, smooth: bool)

  /** What one attempt to carry out a plan may do. */
  ghost predicate Attempt(p: Plan, before: Files, after: Files, end: Ending) {
    && (Consistent(p) && FarApart(Dests(p)) && AllPrefixes(p, before) ==> AllPrefixes(p, after))
    && (GoodStart(p, before) ==> GoodStart(p, after))
    && (GoodPlan(p) && AnySpoiled(p, before) ==> AnySpoiled(p, after) && end.phase != Some(Succeeded))
    && (GoodStart(p, before) && end.phase == Some(Succeeded) ==> InPlace(p, after))
    && (GoodPlan(p) && Workable(p, before) && end.smooth && end.phase.Some? ==>
          end.phase == Some(Cancelled) || (end.phase == Some(Failed) && AnySpoiled(p, before))
          || (end.phase == Some(Succeeded) && !AnySpoiled(p, before)))
    && (GoodPlan(p) && end.smooth && end.phase == Some(Failed) ==> AnySpoiled(p, after))
  }

  ghost predicate Attempts(p: Plan, files: seq<Files>, ends: seq<Ending>) {
    |files| == |ends| + 1 && forall k :: 0 <= k < |ends| ==> Attempt(p, files[k], files[k + 1], ends[k])
  }

  /** However many attempts were interrupted, from a good start the next smooth one
      succeeds, with the content in place, or is cancelled. */
  lemma {:induction false} InterruptedThenSmooth(p: Plan, files: seq<Files>, ends: seq<Ending>, k: nat)
    requires Attempts(p, files, ends) && GoodStart(p, files[0]) && k < |ends| && ends[k].smooth && ends[k].phase.Some?
    ensures ends[k].phase == Some(Cancelled) || (ends[k].phase == Some(Succeeded) && InPlace(p, files[k + 1]))
    decreases k
  {
    if k == 0 {
      ResumableIsWorkable(p, files[0]);
    } else {
      InterruptedThenSmooth(p, files[1..], ends[1..], k - 1);
    }
  }

  /** From a spoiled start no attempt ever succeeds. */
  lemma {:induction false} SpoiledForever(p: Plan, files: seq<Files>, ends: seq<Ending>, k: nat)
    requires Attempts(p, files, ends) && GoodPlan(p) && AnySpoiled(p, files[0]) && k < |ends|
    ensures ends[k].phase != Some(Succeeded) && AnySpoiled(p, files[k])
    decreases k
  {
    if k == 0 {
    } else {
      SpoiledForever(p, files[1..], ends[1..], k - 1);
    }
  }

  /** A partial file is there that does not pass its artifact's checks. */
  ghost predicate StalePartial(p: Plan, files: Files, i: nat)
    requires i < |p.resolved| == |p.artifacts|
  {
    Part(p.resolved[i].dest) in files && !Passes(p.artifacts[i], p.matches, files[Part(p.resolved[i].dest)])
  }

  /** Over a finished installation exactly the partial files that fail their
      artifact's checks are what spoils. */
  lemma StaleIsSpoiled(p: Plan, files: Files)
    requires GoodPlan(p) && InPlace(p, files)
    ensures Workable(p, files)
    ensures AnySpoiled(p, files) <==> exists i :: 0 <= i < |p.resolved| && StalePartial(p, files, i)
  {
    forall i | 0 <= i < |p.resolved|
      ensures Spoiled(p, files, i) <==> StalePartial(p, files, i)
      ensures RightSized(files, p.resolved[i].dest, |Content(p, i)|)
    {
      assert p.resolved[i].dest in files && Passes(p.artifacts[i], p.matches, Content(p, i));
    }
    if i :| 0 <= i < |p.resolved| && StalePartial(p, files, i) {
      assert Spoiled(p, files, i);
    }
  }

  /** A smooth attempt over a finished installation, unless cancelled, fails exactly
      when some partial file is there that does not pass its artifact's checks. */
  lemma StalePartialFails(p: Plan, files: Files, after: Files, end: Ending)
    requires GoodPlan(p) && InPlace(p, files) && Attempt(p, files, after, end)
    requires end.smooth && end.phase.Some? && end.phase != Some(Cancelled)
    ensures end.phase == Some(Failed) <==> exists i :: 0 <= i < |p.resolved| && StalePartial(p, files, i)
    ensures end.phase == Some(Succeeded) <==> forall i :: 0 <= i < |p.resolved| ==> !StalePartial(p, files, i)
  {
    StaleIsSpoiled(p, files);
  }

  /** Once a smooth attempt has failed, from whatever start, no later attempt ever
      succeeds. */
  lemma FailedForGood(p: Plan, files: seq<Files>, ends: seq<Ending>, k: nat)
    requires Attempts(p, files, ends) && GoodPlan(p) && 0 < k < |ends|
    requires ends[0].smooth && ends[0].phase == Some(Failed)
    ensures ends[k].phase != Some(Succeeded)
  {
    SpoiledForever(p, files[1..], ends[1..], k - 1);
  }

  /** A finished installation of one byte with an empty partial file beside it:
      it stays that way and every attempt fails. */
  lemma StalePartialArises() returns (p: Plan, files: Files)
    ensures GoodPlan(p) && InPlace(p, files) && |p.resolved| == 1 && StalePartial(p, files, 0)
    ensures AnySpoiled(p, files)
  {
    p := Plan([Artifact(Some(1), None)], [Resolved("u", "m")], (url: string) => [1],
      (bytes: Bytes, digest: string) => true);
    files := map["m" := [1], Part("m") := []];
    assert Dests(p) == ["m"];
    assert StalePartial(p, files, 0);
    StaleIsSpoiled(p, files);
  }

  /** A full-size partial file with wrong bytes and nothing installed, as a digest
      mismatch leaves behind, is spoiled too. */
  lemma WrongBytesArise() returns (p: Plan, files: Files)
    ensures GoodPlan(p) && |p.resolved| == 1 && p.resolved[0].dest !in files && Spoiled(p, files, 0)
  {
    p := Plan([Artifact(Some(1), Some("d"))], [Resolved("u", "m")], (url: string) => [1],
              (bytes: Bytes, digest: string) => bytes == [1]);
    files := map[Part("m") := [2]];
    assert Dests(p) == ["m"] && |Part("m")| == 6;
  }
}
