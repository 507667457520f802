/** The on-disk layout of a CernVM-FS repository as the conversion daemon
    uses it: Go's `filepath.Join` over clean path elements, the
    content-addressed layer paths under `.layers/`, the stored image
    manifest under `.metadata/`, and the repository tree as `os.Stat`,
    `os.Open` and a JSON parse observe it. */
module Layout {

  // ---------------------------------------------------------------------
  // Path elements and filepath.Join
  // ---------------------------------------------------------------------

  /** One path element: non-empty, no separator, not a dot element. */
  predicate IsSegment(s: string) {
    |s| > 0 && '/' !in s && s != "." && s != ".."
  }

  predicate AllSegments(elems: seq<string>) {
    forall i :: 0 <= i < |elems| ==> IsSegment(elems[i])
  }

  /** `filepath.Join(elems...)` when every element is a clean path element:
      the elements separated by single slashes, which `Clean` leaves as
      they are. */
  function Join(elems: seq<string>): (p: string)
    requires |elems| > 0 && AllSegments(elems)
  {
    if |elems| == 1 then elems[0]
    else Join(elems[..|elems| - 1]) + "/" + elems[|elems| - 1]
  }

  /** A join starts with its first element. */
  lemma {:induction false} JoinStartsWithFirst(elems: seq<string>)
    requires |elems| > 0 && AllSegments(elems)
    ensures |Join(elems)| >= |elems[0]| && Join(elems)[..|elems[0]|] == elems[0]
  {
    if |elems| > 1 {
      var init := elems[..|elems| - 1];
      JoinStartsWithFirst(init);
      assert (Join(init) + "/" + elems[|elems| - 1])[..|elems[0]|] == Join(init)[..|elems[0]|];
    }
  }

  lemma SegmentsAppend(a: seq<string>, b: seq<string>)
    requires AllSegments(a) && AllSegments(b)
    ensures AllSegments(a + b)
  {
    forall i | 0 <= i < |a + b| ensures IsSegment((a + b)[i]) {
      if i >= |a| { assert (a + b)[i] == b[i - |a|]; }
    }
  }

  /** Joining two element lists is joining their joins. */
  lemma {:induction false} JoinAppend(a: seq<string>, b: seq<string>)
    requires |a| > 0 && |b| > 0 && AllSegments(a) && AllSegments(b)
    ensures AllSegments(a + b)
    ensures Join(a + b) == Join(a) + "/" + Join(b)
    decreases |b|
  {
    SegmentsAppend(a, b);
    var last := b[|b| - 1];
    if |b| == 1 {
      assert (a + b)[..|a + b| - 1] == a;
      assert Join(a + b) == Join(a) + "/" + last;
    } else {
      var b' := b[..|b| - 1];
      assert (a + b)[..|a + b| - 1] == a + b';
      SegmentsAppend(a, b');
      JoinAppend(a, b');
      calc {
        Join(a + b);
        Join(a + b') + "/" + last;
        (Join(a) + "/" + Join(b')) + "/" + last;
        Join(a) + "/" + (Join(b') + "/" + last);
        Join(a) + "/" + Join(b);
      }
    }
  }

  /** `filepath.Join("/", elems...)`: the absolute path of the elements. */
  function Absolute(elems: seq<string>): (p: string)
    requires |elems| > 0 && AllSegments(elems)
  {
    "/" + Join(elems)
  }

  // ---------------------------------------------------------------------
  // Constants of the layout
  // ---------------------------------------------------------------------

  /** Every repository is mounted at `/cvmfs/<repo>`. */
  const MountDir := "cvmfs"
  /** `subDirInsideRepo`: where layers live inside a repository. */
  const LayersDir := ".layers"
  const LayerContentLeaf := "layerfs"
  const LayerMetadataLeaf := ".metadata"
  /** Where converted image manifests live inside a repository. */
  const ManifestsDir := ".metadata"
  const ManifestLeaf := "manifest.json"

  /** `/cvmfs/<repo>`: the root every published layer location is joined to. */
  function RepoRoot(repo: string): (root: string)
    requires IsSegment(repo)
  {
    Absolute([MountDir, repo])
  }

  /** `filepath.Join(root, rel)` with both sides already clean: one slash
      between them. */
  function JoinUnder(root: string, rel: string): (p: string)
  {
    root + "/" + rel
  }

  // ---------------------------------------------------------------------
  // Layer names and content-addressed layer paths
  // ---------------------------------------------------------------------

  /** `strings.Split(name, ":")[1]`: the text after the first colon, up to
      the next colon or the end. */
  function DigestOf(name: string): (d: string)
    requires ':' in name
    ensures |d| < |name|
    decreases |name|
  {
    if name[0] == ':' then FieldOf(name[1..]) else DigestOf(name[1..])
  }

  /** The text of `s` before its first colon (all of `s` when it has none). */
  function FieldOf(s: string): (f: string)
    ensures |f| <= |s|
  {
    if s == [] || s[0] == ':' then [] else [s[0]] + FieldOf(s[1..])
  }

  lemma {:induction false} FieldOfHasNoColon(s: string)
    ensures ':' !in FieldOf(s)
  {
    if s != [] && s[0] != ':' {
      FieldOfHasNoColon(s[1..]);
    }
  }

  /** A field followed by the end or by a colon is read back whole. */
  lemma {:induction false} FieldOfPrefix(field: string, tail: string)
    requires ':' !in field
    requires tail == [] || tail[0] == ':'
    ensures FieldOf(field + tail) == field
  {
    if field != [] {
      assert (field + tail)[1..] == field[1..] + tail;
      FieldOfPrefix(field[1..], tail);
    } else {
      assert field + tail == tail;
    }
  }

  /** The digest never contains a colon. */
  lemma {:induction false} DigestHasNoColon(name: string)
    requires ':' in name
    ensures ':' !in DigestOf(name)
    decreases |name|
  {
    if name[0] == ':' {
      FieldOfHasNoColon(name[1..]);
    } else {
      DigestHasNoColon(name[1..]);
    }
  }

  /** For a name `algo:hex` (optionally followed by more `:`-separated
      fields) the digest is exactly `hex`. */
  lemma {:induction false} DigestOfField(algo: string, hex: string, tail: string)
    requires ':' !in algo && ':' !in hex
    requires tail == [] || tail[0] == ':'
    ensures DigestOf(algo + ":" + hex + tail) == hex
  {
    var name := algo + ":" + hex + tail;
    if algo == [] {
      assert name[1..] == hex + tail;
      FieldOfPrefix(hex, tail);
    } else {
      assert name[1..] == algo[1..] + ":" + hex + tail;
      DigestOfField(algo[1..], hex, tail);
    }
  }

  /** A digest the layer paths can be built from: `digest[0:2]` does not
      panic and both it and the digest are clean path elements. */
  predicate ValidDigest(digest: string) {
    |digest| >= 2 && IsSegment(digest) && IsSegment(digest[..2])
  }

  /** A layer name the ingestion loop handles without panicking. */
  predicate ValidLayerName(name: string) {
    ':' in name && ValidDigest(DigestOf(name))
  }

  /** `.layers/<digest[0:2]>/<digest>/layerfs`, as path elements. */
  function ContentElems(digest: string): (elems: seq<string>)
    requires ValidDigest(digest)
    ensures |elems| == 4 && AllSegments(elems)
  {
    [LayersDir, digest[..2], digest, LayerContentLeaf]
  }

  /** `.layers/<digest[0:2]>/<digest>/.metadata`, as path elements. */
  function MetadataElems(digest: string): (elems: seq<string>)
    requires ValidDigest(digest)
    ensures |elems| == 4 && AllSegments(elems)
  {
    [LayersDir, digest[..2], digest, LayerMetadataLeaf]
  }

  /** Where a layer's unpacked content is ingested, relative to the
      repository (`layerLocation`). */
  function ContentPath(digest: string): (p: string)
    requires ValidDigest(digest)
  {
    Join(ContentElems(digest))
  }

  /** Where a layer's backlink metadata lives, relative to the repository
      (`layerMetadata`). */
  function MetadataPath(digest: string): (p: string)
    requires ValidDigest(digest)
  {
    Join(MetadataElems(digest))
  }

  /** Both layer paths written out: they depend on the digest only. */
  lemma LayerPathsForm(digest: string)
    requires ValidDigest(digest)
    ensures ContentPath(digest) == ".layers/" + digest[..2] + "/" + digest + "/layerfs"
    ensures MetadataPath(digest) == ".layers/" + digest[..2] + "/" + digest + "/.metadata"
  {
    var c, m := ContentElems(digest), MetadataElems(digest);
    var c3, c2, c1 := c[..3], c[..2], c[..1];
    assert c3[..2] == c2 && c2[..1] == c1 && c1 == [LayersDir];
    assert m[..3] == c3;
    assert Join(c2) == ".layers/" + digest[..2];
    assert Join(c3) == ".layers/" + digest[..2] + "/" + digest;
  }

  /** Reads the digest back from a content path. */
  function DigestOfContentPath(p: string): (d: string)
    requires |p| >= 19
  {
    p[11..|p| - 8]
  }

  /** Content paths encode digests faithfully: the digest can be read back
      from its path, so distinct digests never share a path. */
  lemma ContentPathRoundTrip(digest: string)
    requires ValidDigest(digest)
    ensures |ContentPath(digest)| >= 19
    ensures DigestOfContentPath(ContentPath(digest)) == digest
  {
    LayerPathsForm(digest);
    var p := ContentPath(digest);
    assert p[11..|p| - 8] == digest;
  }

  /** The content path of a named layer. */
  function LayerLocation(name: string): (p: string)
    requires ValidLayerName(name)
  {
    ContentPath(DigestOf(name))
  }

  /** The metadata path of a named layer. */
  function LayerMetadata(name: string): (p: string)
    requires ValidLayerName(name)
  {
    MetadataPath(DigestOf(name))
  }

  /** Two layers share their paths exactly when their digests are equal,
      whatever the algorithm prefix of their names. */
  lemma SamePathIffSameDigest(a: string, b: string)
    requires ValidLayerName(a) && ValidLayerName(b)
    ensures LayerLocation(a) == LayerLocation(b) <==> DigestOf(a) == DigestOf(b)
    ensures LayerMetadata(a) == LayerMetadata(b) <==> DigestOf(a) == DigestOf(b)
  {
    ContentPathRoundTrip(DigestOf(a));
    ContentPathRoundTrip(DigestOf(b));
    LayerPathsForm(DigestOf(a));
    LayerPathsForm(DigestOf(b));
    if LayerMetadata(a) == LayerMetadata(b) {
      var pa, pb := LayerMetadata(a), LayerMetadata(b);
      assert pa[11..|pa| - 10] == DigestOf(a);
      assert pb[11..|pb| - 10] == DigestOf(b);
    }
  }

  /** A content path is never a metadata path. */
  lemma ContentIsNotMetadata(d1: string, d2: string)
    requires ValidDigest(d1) && ValidDigest(d2)
    ensures ContentPath(d1) != MetadataPath(d2)
  {
    LayerPathsForm(d1);
    LayerPathsForm(d2);
    var c, m := ContentPath(d1), MetadataPath(d2);
    assert c[|c| - 1] == 's' && m[|m| - 1] == 'a';
  }

  /** The path whose existence decides whether a layer is ingested:
      `filepath.Join("/", "cvmfs", repo, layerLocation)`, whose last argument
      is the layer's clean relative content path. */
  function StatPath(repo: string, name: string): (p: string)
    requires IsSegment(repo) && ValidLayerName(name)
  {
    JoinUnder(Absolute([MountDir, repo]), LayerLocation(name))
  }

  /** The location published for a layer:
      `filepath.Join(layerRepoLocationRoot, layerLocation)`. */
  function PublishedLocation(repo: string, name: string): (p: string)
    requires IsSegment(repo) && ValidLayerName(name)
  {
    JoinUnder(RepoRoot(repo), LayerLocation(name))
  }

  /** The published location is the very path checked for existence: the
      join of the mount directory, the repository and the four elements of
      the content path, which carries the `/cvmfs` mount prefix. */
  lemma PublishedLocationIsStatPath(repo: string, name: string)
    requires IsSegment(repo) && ValidLayerName(name)
    ensures PublishedLocation(repo, name) == StatPath(repo, name)
    ensures AllSegments([MountDir, repo] + ContentElems(DigestOf(name)))
    ensures StatPath(repo, name) == Absolute([MountDir, repo] + ContentElems(DigestOf(name)))
    ensures PublishedLocation(repo, name)
         == "/cvmfs/" + repo + "/.layers/" + DigestOf(name)[..2] + "/" + DigestOf(name) + "/layerfs"
  {
    var d := DigestOf(name);
    JoinAppend([MountDir, repo], ContentElems(d));
    assert [MountDir, repo][..1] == [MountDir];
    PublishedLocationForm(repo, name);
  }

  /** The published location written out. */
  lemma PublishedLocationForm(repo: string, name: string)
    requires IsSegment(repo) && ValidLayerName(name)
    ensures PublishedLocation(repo, name)
         == "/cvmfs/" + repo + "/.layers/" + DigestOf(name)[..2] + "/" + DigestOf(name) + "/layerfs"
  {
    LayerPathsForm(DigestOf(name));
    RepoRootForm(repo);
  }

  /** `/cvmfs/<repo>` written out. */
  lemma RepoRootForm(repo: string)
    requires IsSegment(repo)
    ensures RepoRoot(repo) == "/cvmfs/" + repo
  {
    assert [MountDir, repo][..1] == [MountDir];
    assert Join([MountDir, repo]) == MountDir + "/" + repo;
    assert "/" + MountDir + "/" == "/cvmfs/";
  }

  // ---------------------------------------------------------------------
  // The stored image manifest
  // ---------------------------------------------------------------------

  /** `.metadata/<simpleName>/manifest.json` as path elements; the image's
      simple name is given by its own path elements. */
  function ManifestElems(simpleName: seq<string>): (elems: seq<string>)
    requires |simpleName| > 0 && AllSegments(simpleName)
    ensures |elems| == |simpleName| + 2 && AllSegments(elems)
  {
    [ManifestsDir] + simpleName + [ManifestLeaf]
  }

  /** `filepath.Join(".metadata", simpleName, "manifest.json")`: where a
      conversion ingests the image's manifest, relative to the repository. */
  function ManifestPath(simpleName: seq<string>): (p: string)
    requires |simpleName| > 0 && AllSegments(simpleName)
  {
    Join(ManifestElems(simpleName))
  }

  /** `filepath.Join("/", "cvmfs", repo, ".metadata", simpleName,
      "manifest.json")`: the absolute path the re-conversion gate reads. */
  function ManifestStatPath(repo: string, simpleName: seq<string>): (p: string)
    requires IsSegment(repo) && |simpleName| > 0 && AllSegments(simpleName)
  {
    Absolute([MountDir, repo] + ManifestElems(simpleName))
  }

  /** The gate reads the manifest exactly where a conversion writes it: the
      repository root joined with the relative manifest path. */
  lemma ManifestPathsAgree(repo: string, simpleName: seq<string>)
    requires IsSegment(repo) && |simpleName| > 0 && AllSegments(simpleName)
    ensures ManifestStatPath(repo, simpleName) == JoinUnder(RepoRoot(repo), ManifestPath(simpleName))
  {
    JoinAppend([MountDir, repo], ManifestElems(simpleName));
  }

  /** No layer path of a repository is its manifest path: the first
      element under the repository differs (`.layers` against `.metadata`). */
  lemma LayerPathIsNotManifestPath(repo: string, name: string, simpleName: seq<string>)
    requires IsSegment(repo) && ValidLayerName(name) && |simpleName| > 0 && AllSegments(simpleName)
    ensures StatPath(repo, name) != ManifestStatPath(repo, simpleName)
  {
    var root := [MountDir, repo];
    var c, m := ContentElems(DigestOf(name)), ManifestElems(simpleName);
    PublishedLocationIsStatPath(repo, name);
    JoinAppend(root, c);
    JoinAppend(root, m);
    var k := 1 + |Join(root)| + 2;
    JoinStartsWithFirst(c);
    JoinStartsWithFirst(m);
    assert Join(c)[..7] == LayersDir;
    assert Join(m)[..9] == ManifestsDir;
    assert StatPath(repo, name)[k] == Join(c)[1] == 'l';
    assert ManifestStatPath(repo, simpleName)[k] == Join(m)[1] == 'm';
  }

  // ---------------------------------------------------------------------
  // The repository tree as the daemon observes it
  // ---------------------------------------------------------------------

  /** What `os.Stat` and, for a regular file, `os.Open` plus a JSON parse of
      its bytes report. A parsed manifest is represented by its config
      digest. */
  datatype Entry =
    | Directory
    | NonRegular                                  // device, socket, pipe, ...
    | RegularFile(opens: bool, parsed: ParseOutcome)

  datatype ParseOutcome = Unparsable | Manifest(configDigest: string)

  /** The paths that exist, each with what is found there; a path that is
      not a key does not exist. */
  type Tree = map<string, Entry>

}
