/** Files on disk, the origin that serves artifacts, and installation by rename. */
module Downloads {
  import opened Wrappers

  type Bytes = seq<Byte>

  type Files = map<string, Bytes>

  function Part(dest: string): (p: string)
    ensures p != dest
  {
    dest + ".part"
  }

  lemma PartInjective(a: string, b: string)
    requires Part(a) == Part(b)
    ensures a == b
  {
    assert a == Part(a)[..|Part(a)| - 5] && b == Part(b)[..|Part(b)| - 5];
  }

  /** The only files on the machine this model looks at. */
  class Disk {
    var files: Files

    constructor (files: Files)
      ensures this.files == files
    {
      this.files := files;
    }

    /** Writes at the end of a file; a failing write may still write a part. */
    method Append(p: string, bytes: Bytes, calm: bool) returns (ok: bool)
      requires p in files
      modifies this
      ensures SameBut(old(files), files, p) && p in files
      ensures old(files[p]) <= files[p] <= old(files[p]) + bytes
      ensures ok ==> files[p] == old(files[p]) + bytes
      ensures calm ==> ok
    {
      var kept: nat := |bytes|;
      if !calm {
        kept :| 0 <= kept <= |bytes|;
      }
      files := files[p := files[p] + bytes[..kept]];
      ok := kept == |bytes|;
    }
  }

  /** Files other than p are the same. */
  ghost predicate SameBut(before: Files, after: Files, p: string) {
    forall q :: q != p ==> (q in before <==> q in after) && (q in before ==> after[q] == before[q])
  }

  function PartSize(files: Files, dest: string): nat {
    if Part(dest) in files then |files[Part(dest)]| else 0
  }

  // ----- The origin -----

  datatype Response = Response(status: nat, body: Bytes)

  /** What an origin with fixed content may answer to a request from a byte on:
      200 carries all of it, 206 the requested rest of it (sections 15.3.1 and
      15.3.7 of RFC 9110); a request without a range never gets a 206. */
  ghost predicate Honest(content: Bytes, from: nat, r: Response) {
    && (r.status == 200 ==> r.body == content)
    && (r.status == 206 ==> 0 < from < |content| && r.body == content[from..])
  }

  /** An origin that is up answers every request, a whole one with 200. */
  ghost predicate Helpful(from: nat, r: Option<Response>) {
    r.Some? && (r.value.status == 200 || (from > 0 && (r.value.status == 206 || r.value.status == 416)))
  }

  /** One GET, with a Range header when from is positive; it may fail to connect
      unless all is calm. */
  method Get(content: Bytes, from: nat, calm: bool) returns (r: Option<Response>)
    ensures r.Some? ==> Honest(content, from, r.value)
    ensures calm ==> Helpful(from, r)
  {
    var whole: bool := *;
    if whole {
      return Some(Response(200, content));
    }
    if 0 < from < |content| {
      var ranged: bool := *;
      if ranged {
        return Some(Response(206, content[from..]));
      }
    }
    if calm {
      return Some(if from > 0 then Response(416, []) else Response(200, content));
    }
    var status: nat, body: Bytes :| status != 200 && status != 206 && body == body;
    var connected: bool := *;
    r := if connected then Some(Response(status, body)) else None;
  }

  datatype Fetched = Fetched(body: Bytes, resuming: bool, restarted: bool)

  /** Asks for what is missing, or for everything when nothing is there or the
      origin does not serve the range. */
  method FetchArtifact(content: Bytes, existing: nat, calm: bool) returns (r: Option<Fetched>)
    ensures r.Some? && r.value.resuming ==>
      0 < existing < |content| && r.value.body == content[existing..] && !r.value.restarted
    ensures r.Some? && !r.value.resuming ==> r.value.body == content && (r.value.restarted <==> existing > 0)
    ensures calm ==> r.Some?
  {
    var resp := Get(content, existing, calm);
    if resp.None? {
      return None;
    }
    if existing == 0 {
      return if resp.value.status == 200 then Some(Fetched(resp.value.body, false, false)) else None;
    }
    if resp.value.status == 206 {
      return Some(Fetched(resp.value.body, true, false));
    }
    if resp.value.status == 200 || resp.value.status == 416 {
      resp := Get(content, 0, calm);
      if resp.None? || resp.value.status != 200 {
        return None;
      }
      return Some(Fetched(resp.value.body, false, true));
    }
    return None;
  }

  datatype ReadEnd = More | AtEnd | Broken

  /** What one read of a body with rest bytes left may give. */
  predicate PlausibleRead(n: nat, end: ReadEnd, rest: nat) {
    n <= rest && (end.More? ==> n > 0) && (end.AtEnd? ==> n == rest)
  }

  /** One read of the rest of a body: some bytes, the end, or a failure. */
  method Read(body: Bytes, done: nat, calm: bool) returns (n: nat, end: ReadEnd)
    requires done <= |body|
    ensures PlausibleRead(n, end, |body| - done)
    ensures calm ==> !end.Broken?
  {
    n :| 0 <= n <= |body| - done && (calm && done < |body| ==> n > 0);
    var broken: bool := *;
    end := if broken && !calm then Broken
           else if n == |body| - done then AtEnd
           else if n > 0 then More else Broken;
  }

  // ----- Installation -----

  /** The file that is checked and that ends up at dest. */
  function Source(files: Files, dest: string): string {
    if Part(dest) in files || dest !in files then Part(dest) else dest
  }

  /** Renames each partial file into place, skipping what is already in place. */
  function InstallAll(files: Files, dests: seq<string>): Option<Files>
    decreases |dests|
  {
    if dests == [] then Some(files)
    else if Part(dests[0]) in files then
      InstallAll(files[dests[0] := files[Part(dests[0])]] - {Part(dests[0])}, dests[1..])
    else if dests[0] in files then InstallAll(files, dests[1..])
    else None
  }

  method Install(disk: Disk, dests: seq<string>, calm: bool) returns (ok: bool)
    modifies disk
    ensures ok ==> InstallAll(old(disk.files), dests) == Some(disk.files)
    ensures calm ==> (ok <==> InstallAll(old(disk.files), dests).Some?)
    ensures exists k :: 0 <= k <= |dests| && InstallAll(old(disk.files), dests[..k]) == Some(disk.files)
  {
    for i := 0 to |dests|
      invariant InstallAll(old(disk.files), dests) == InstallAll(disk.files, dests[i..])
      invariant InstallAll(old(disk.files), dests[..i]) == Some(disk.files)
    {
      InstallOneMore(old(disk.files), dests[..i], dests[i]);
      assert dests[..i] + [dests[i]] == dests[..i + 1];
      assert dests[i..][0] == dests[i] && dests[i..][1..] == dests[i + 1..];
      if Part(dests[i]) !in disk.files && dests[i] in disk.files {
        continue;
      }
      var renameFails: bool := *;
      if (renameFails && !calm) || Part(dests[i]) !in disk.files {
        return false;
      }
      disk.files := disk.files[dests[i] := disk.files[Part(dests[i])]] - {Part(dests[i])};
    }
    return true;
  }

  lemma {:induction false} InstallOneMore(files: Files, dests: seq<string>, d: string)
    requires InstallAll(files, dests).Some?
    ensures InstallAll(files, dests + [d]) == InstallAll(InstallAll(files, dests).value, [d])
    decreases |dests|
  {
    if dests == [] {
      assert dests + [d] == [d];
    } else {
      assert (dests + [d])[1..] == dests[1..] + [d];
      var first := dests[0];
      var next := if Part(first) in files then files[first := files[Part(first)]] - {Part(first)} else files;
      InstallOneMore(next, dests[1..], d);
    }
  }

  /** Where there is a file to install or keep for dest, it holds the given bytes. */
  ghost predicate Holds(files: Files, dest: string, bytes: Bytes) {
    Source(files, dest) in files ==> files[Source(files, dest)] == bytes
  }

  ghost predicate HoldsEach(files: Files, dests: seq<string>, bytes: seq<Bytes>) {
    |bytes| == |dests| && forall i :: 0 <= i < |dests| ==> Holds(files, dests[i], bytes[i])
  }

  /** No destination is the partial file of a later artifact. */
  ghost predicate Apart(dests: seq<string>) {
    forall i, j :: 0 <= i < j < |dests| ==> dests[i] != Part(dests[j])
  }

  /** Installing the first artifact puts its bytes in place and leaves the others'. */
  lemma FirstInstalled(files: Files, dests: seq<string>, bytes: seq<Bytes>)
    requires dests != [] && HoldsEach(files, dests, bytes) && Apart(dests) && Part(dests[0]) in files
    ensures var after := files[dests[0] := files[Part(dests[0])]] - {Part(dests[0])};
      after[dests[0]] == bytes[0] && HoldsEach(after, dests[1..], bytes[1..])
  {
    var d := dests[0];
    var after := files[d := files[Part(d)]] - {Part(d)};
    forall i | 0 <= i < |dests| - 1 ensures Holds(after, dests[1..][i], bytes[1..][i]) {
      var e := dests[i + 1];
      assert Holds(files, e, bytes[i + 1]) && d != Part(e);
      if e != d && Part(e) == Part(d) {
        PartInjective(e, d);
      }
    }
  }

  /** What is in place stays in place. */
  lemma {:induction false} InstalledStays(files: Files, dests: seq<string>, bytes: seq<Bytes>, q: string)
    requires HoldsEach(files, dests, bytes) && Apart(dests) && InstallAll(files, dests).Some? && q in files
    requires forall i :: 0 <= i < |dests| ==> q != Part(dests[i]) && (dests[i] == q ==> bytes[i] == files[q])
    ensures q in InstallAll(files, dests).value && InstallAll(files, dests).value[q] == files[q]
    decreases |dests|
  {
    if dests == [] {
    } else {
      var d := dests[0];
      if Part(d) in files {
        FirstInstalled(files, dests, bytes);
        InstalledStays(files[d := files[Part(d)]] - {Part(d)}, dests[1..], bytes[1..], q);
      } else {
        InstalledStays(files, dests[1..], bytes[1..], q);
      }
    }
  }

  /** When installation succeeds, every destination holds exactly the bytes its
      source held before, whatever order the artifacts come in, repeats included. */
  lemma {:induction false} InstallPutsBytes(files: Files, dests: seq<string>, bytes: seq<Bytes>)
    requires HoldsEach(files, dests, bytes) && Apart(dests) && InstallAll(files, dests).Some?
    ensures forall i :: 0 <= i < |dests| ==>
      dests[i] in InstallAll(files, dests).value && InstallAll(files, dests).value[dests[i]] == bytes[i]
    decreases |dests|
  {
    if dests == [] {
    } else {
      var d := dests[0];
      var after := if Part(d) in files then files[d := files[Part(d)]] - {Part(d)} else files;
      if Part(d) in files {
        FirstInstalled(files, dests, bytes);
      }
      assert forall i :: 0 <= i < |dests| ==> Holds(files, dests[i], bytes[i]);
      forall i | 0 <= i < |dests| - 1
        ensures d != Part(dests[1..][i]) && (dests[1..][i] == d ==> bytes[1..][i] == after[d])
      {
        assert Holds(files, dests[i + 1], bytes[i + 1]) && Holds(files, d, bytes[0]);
      }
      InstalledStays(after, dests[1..], bytes[1..], d);
      InstallPutsBytes(after, dests[1..], bytes[1..]);
      var done := InstallAll(files, dests).value;
      forall i | 0 <= i < |dests| ensures dests[i] in done && done[dests[i]] == bytes[i] {
        if i > 0 {
          assert dests[i] == dests[1..][i - 1] && bytes[i] == bytes[1..][i - 1];
        }
      }
    }
  }

  /** No destination is any artifact's partial file. */
  ghost predicate FarApart(dests: seq<string>) {
    forall i, j :: 0 <= i < |dests| && 0 <= j < |dests| ==> dests[i] != Part(dests[j])
  }

  ghost predicate AllPresent(files: Files, dests: seq<string>) {
    forall i :: 0 <= i < |dests| ==> Source(files, dests[i]) in files
  }

  /** With a file for every destination and the names apart, installation goes through. */
  lemma {:induction false} InstallGoesThrough(files: Files, dests: seq<string>)
    requires AllPresent(files, dests) && FarApart(dests)
    ensures InstallAll(files, dests).Some?
    decreases |dests|
  {
    if dests == [] {
    } else {
      var d := dests[0];
      assert Source(files, d) in files;
      var after := if Part(d) in files then files[d := files[Part(d)]] - {Part(d)} else files;
      forall i | 0 <= i < |dests| - 1 ensures Source(after, dests[1..][i]) in after {
        var e := dests[i + 1];
        assert Source(files, e) in files && e != Part(d) && d != Part(e);
        if Part(e) == Part(d) {
          PartInjective(e, d);
        }
      }
      InstallGoesThrough(after, dests[1..]);
    }
  }

  /** An artifact that installs over the partial file of a later one makes that
      one's destination hold the wrong bytes. */
  lemma ApartIsNeeded()
    ensures var dests, bytes := [Part("m"), "m"], [[1], [2]];
      var files: Files := map[Part(Part("m")) := [1], Part("m") := [2]];
      && HoldsEach(files, dests, bytes) && !Apart(dests)
      && InstallAll(files, dests).Some? && "m" in InstallAll(files, dests).value
      && InstallAll(files, dests).value["m"] == [1]
  {
    var m, p := "m", Part("m");
    var dests: seq<string>, bytes: seq<Bytes> := [p, m], [[1], [2]];
    var files: Files := map[Part(p) := [1], p := [2]];
    assert |m| == 1 && |p| == 6 && |Part(p)| == 11;
    assert dests[0] == Part(dests[1]);
    var second: Files := map[p := [1]];
    assert files[p := files[Part(p)]] - {Part(p)} == second;
    assert dests[1..] == [m];
    var third: Files := map[m := [1]];
    assert second[m := second[p]] - {p} == third;
    assert [m][1..] == [];
    assert InstallAll(third, []) == Some(third);
    assert InstallAll(second, [m]) == Some(third);
  }
}
