/** When the readiness probe answers yes. */
module SetupReady {
  import opened SetupDisk
  import opened SetupTrees
  import opened SetupPublish
  import opened SetupNext
  import opened SetupBuild
  import opened SetupRun

  /** What the installer asks of a download before it publishes it. */
  predicate Accepted(files: seq<Path>) {
    (exists f :: f in files && [Plain("node")] < f) && forall p :: p in Probes[1..] ==> p in files
  }

  /** The digest is one of the listed files alone. */
  ghost predicate OfListed(digest: (Files, seq<Path>) -> string) {
    forall a, b, files :: Same(a, b, files) ==> digest(a, files) == digest(b, files)
  }

  predicate Same(a: Files, b: Files, files: seq<Path>) {
    forall f :: f in files ==> f in a && f in b && a[f] == b[f]
  }

  lemma RegularIff(fs: Tree, p: Path)
    requires InSlot(p) && Plainly(p)
    ensures IsRegular(fs, p) <==> p in LiveFiles(fs)
    ensures IsRegular(fs, p) ==> LiveFiles(fs)[p] == fs[p].content
  {
  }

  predicate IsSource(p: Path) { |p| >= 2 && Plainly(p) && Managed(p) && InSlot(p) }

  lemma SourcePath(p: Path, n: Slot, name: string)
    requires |p| >= 2 && Plainly(p) && p[0] == Plain(Text(n)) && p[1] != MarkerPath[1]
    requires Last(p) == Plain(name + ".ts")
    ensures IsSource(p) && !(MarkerPath <= p)
  {
    Appended(name, ".ts");
  }

  lemma ProbesPlain()
    ensures forall p :: p in Probes ==> IsSource(p) && !(MarkerPath <= p)
  {
    assert "index" + ".ts" == "index.ts" && "path" + ".ts" == "path.ts";
    assert "fs" != ".cno-setup-ready" && "index.ts" != ".cno-setup-ready" && "sqlite" != ".cno-setup-ready" && "path.ts" != ".cno-setup-ready";
    SourcePath(Probes[0], Node, "index");
    SourcePath(Probes[1], Bun, "index");
    SourcePath(Probes[2], Bun, "index");
    SourcePath(Probes[3], Utils, "path");
  }

  lemma ListedBuilt(was: Files, fs: Tree, files: seq<Path>, staged: Files, marker: Content, f: Path)
    requires TreeShaped(fs) && ValidFiles(files) && Built(was, LiveFiles(fs), files, staged, marker) && f in files
    ensures InSlot(f) && Managed(f) && (IsRegular(fs, f) <==> !(MarkerPath <= f))
  {
    RegularIff(fs, f);
    assert BuiltAt(was, LiveFiles(fs), files, staged, f);
    if MarkerPath <= f && f in fs {
      RegularIff(fs, MarkerPath);
      MarkerUnmanaged();
      OnlyDirsHaveInside(fs, MarkerPath, f);
    }
  }

  predicate ProbesThere(fs: Tree) { forall p :: p in Probes ==> IsRegular(fs, p) }

  predicate ListedThere(fs: Tree, files: seq<Path>) { forall f :: f in files ==> InSlot(f) && Managed(f) && IsRegular(fs, f) }

  predicate ClearOfMarker(files: seq<Path>) { forall f :: f in files ==> !(MarkerPath <= f) }

  lemma PresentMeans(fs: Tree, files: seq<Path>, hash: string, parse: Content -> Metadata, digest: (Files, seq<Path>) -> string)
    requires IsRegular(fs, MarkerPath) && parse(fs[MarkerPath].content) == Remote(files, hash)
    ensures NodePolyfillsPresent(fs, parse, digest)
      <==> Root !in fs && files != [] && ProbesThere(fs) && ListedThere(fs, files) && digest(LiveFiles(fs), files) == hash
  {
  }

  lemma ProbesBuilt(was: Files, fs: Tree, files: seq<Path>, staged: Files, marker: Content)
    requires Built(was, LiveFiles(fs), files, staged, marker) && Accepted(files)
    ensures ProbesThere(fs) <==> Probes[0] in files
  {
    ProbesPlain();
    forall p | p in Probes ensures IsRegular(fs, p) <==> p in files {
      RegularIff(fs, p);
      assert BuiltAt(was, LiveFiles(fs), files, staged, p);
    }
    assert forall p :: p in Probes ==> p == Probes[0] || p in Probes[1..];
  }

  lemma ListedReady(was: Files, fs: Tree, files: seq<Path>, staged: Files, marker: Content)
    requires TreeShaped(fs) && ValidFiles(files) && Built(was, LiveFiles(fs), files, staged, marker)
    ensures ListedThere(fs, files) <==> ClearOfMarker(files)
  {
    forall f | f in files ensures InSlot(f) && Managed(f) && (IsRegular(fs, f) <==> !(MarkerPath <= f)) {
      ListedBuilt(was, fs, files, staged, marker, f);
    }
  }

  lemma DigestBuilt(was: Files, now: Files, files: seq<Path>, staged: Files, marker: Content, digest: (Files, seq<Path>) -> string)
    requires Built(was, now, files, staged, marker) && OfListed(digest)
    requires ClearOfMarker(files)
    ensures digest(now, files) == digest(staged, files)
  {
    forall f | f in files ensures f in now && f in staged && now[f] == staged[f] {
      assert BuiltAt(was, now, files, staged, f);
    }
    assert Same(now, staged, files);
  }

  /** After a publication the probe answers yes exactly if the download has the one source it
      asks for and the installer does not, and none of its sources lies below the marker. */
  lemma ReadyIff(was: Files, fs: Tree, files: seq<Path>, staged: Files, marker: Content,
      parse: Content -> Metadata, digest: (Files, seq<Path>) -> string)
    requires TreeShaped(fs) && Root !in fs && ValidFiles(files) && Accepted(files) && OfListed(digest)
    requires Built(was, LiveFiles(fs), files, staged, marker) && parse(marker) == Remote(files, digest(staged, files))
    ensures NodePolyfillsPresent(fs, parse, digest)
      <==> Probes[0] in files && ClearOfMarker(files)
  {
    RegularIff(fs, MarkerPath);
    ProbesBuilt(was, fs, files, staged, marker);
    ListedReady(was, fs, files, staged, marker);
    if ClearOfMarker(files) { DigestBuilt(was, LiveFiles(fs), files, staged, marker, digest); }
    PresentMeans(fs, files, digest(staged, files), parse, digest);
  }

  /** So does a whole undisturbed installation, onto a cache that is in no way of it. */
  method InstallThenProbe(d: Disk, install: Install, marker: Content, parse: Content -> Metadata, digest: (Files, seq<Path>) -> string)
    requires TreeShaped(d.fs) && Root !in d.fs && !d.sealed && Quiet(d.faults)
    requires ValidFiles(install.files) && StageApart(install) && Buildable(d.fs, install)
    requires Accepted(install.files) && OfListed(digest)
    requires parse(marker) == Remote(install.files, digest(Staged(d.fs, install), install.files))
    modifies d
    ensures NodePolyfillsPresent(d.fs, parse, digest) <==> Probes[0] in install.files
  {
    ghost var was := d.fs;
    var recovered, before, after := PublishThenRecover(d, install, marker, 1);
    assert ClearOfMarker(install.files);
    ReadyIff(LiveFiles(was), d.fs, install.files, Staged(was, install), marker, parse, digest);
  }

  lemma PrefixFree(files: seq<Path>)
    requires forall f :: f in files ==> |f| >= 2
    requires forall i, j :: 0 <= i < j < |files| ==> files[i][0] != files[j][0] || files[i][1] != files[j][1]
    ensures forall f, g :: f in files && g in files && f <= g ==> f == g
  {
    forall f, g | f in files && g in files && f <= g ensures f == g {
      var i, j :| 0 <= i < |files| && 0 <= j < |files| && f == files[i] && g == files[j];
      assert f[0] == g[0] && f[1] == g[1];
    }
  }

  const WithoutFs: seq<Path> := [[Plain("node"), Plain("a.ts")]] + Probes[1..]

  lemma WithoutFsApart()
    ensures forall f, g :: f in WithoutFs && g in WithoutFs && f <= g ==> f == g
  {
    var p := WithoutFs;
    assert p[0][0] != p[1][0] && p[0][0] != p[2][0] && p[0][0] != p[3][0];
    assert p[1][1] != p[2][1] && p[1][0] != p[3][0] && p[2][0] != p[3][0];
    PrefixFree(p);
  }

  lemma WithoutFsValid()
    ensures ValidFiles(WithoutFs)
  {
    ProbesPlain();
    WithoutFsApart();
    assert "a" + ".ts" == "a.ts" && "a.ts" != ".cno-setup-ready";
    SourcePath(WithoutFs[0], Node, "a");
    forall f | f in WithoutFs ensures IsSource(f) {
      assert f == WithoutFs[0] || f in Probes;
    }
  }

  /** Such a download: it is published, and the probe says no ever after. */
  lemma NeverReady()
    ensures ValidFiles(WithoutFs) && Accepted(WithoutFs) && Probes[0] !in WithoutFs
  {
    WithoutFsValid();
    WithoutFsAccepted();
  }

  lemma WithoutFsAccepted()
    ensures Accepted(WithoutFs) && Probes[0] !in WithoutFs
  {
    assert [Plain("node")] < WithoutFs[0] && WithoutFs[0] in WithoutFs;
    assert |Probes[0]| == 3 && |WithoutFs[0]| == 2 && Probes[0][0] != Probes[2][0];
  }

  /** What the probe says later, whatever has happened to the disk: with the marker of a
      publication in place, and a digest that tells them apart, it answers yes exactly if no
      publication is open and every listed file is there with the bytes it had. */
  lemma PresentIffIntact(fs: Tree, files: seq<Path>, staged: Files, parse: Content -> Metadata, digest: (Files, seq<Path>) -> string)
    requires ValidFiles(files) && (forall p :: p in Probes ==> p in files)
    requires IsRegular(fs, MarkerPath) && parse(fs[MarkerPath].content) == Remote(files, digest(staged, files))
    requires digest(LiveFiles(fs), files) == digest(staged, files) <==> Same(LiveFiles(fs), staged, files)
    ensures NodePolyfillsPresent(fs, parse, digest) <==> Root !in fs && Same(LiveFiles(fs), staged, files)
  {
    forall f | f in files ensures InSlot(f) && Managed(f) && (IsRegular(fs, f) <==> f in LiveFiles(fs)) {
      RegularIff(fs, f);
    }
    assert Probes[0] in files;
    PresentMeans(fs, files, digest(staged, files), parse, digest);
  }

  /** A local installation lists no files: the probed sources alone decide. Any other marker, or
      an empty list, is refused. */
  lemma PresentOtherwise(fs: Tree, parse: Content -> Metadata, digest: (Files, seq<Path>) -> string)
    requires IsRegular(fs, MarkerPath) ==> !parse(fs[MarkerPath].content).Remote? || parse(fs[MarkerPath].content).files == []
    ensures NodePolyfillsPresent(fs, parse, digest)
      <==> Root !in fs && ProbesThere(fs) && IsRegular(fs, MarkerPath) && parse(fs[MarkerPath].content).Local?
  {
  }
}
