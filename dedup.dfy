/** The re-conversion gate: whether an image has already been converted
    into a repository, decided from the manifest a previous conversion
    stored there. */
module Dedup {
  import opened Layout

  /** `AlreadyConverted(CVMFSRepo, img, reference)`: stat the stored
      manifest, give up on anything but a regular file that opens and
      parses, and compare its config digest with `reference`. Every doubt
      answers "not converted", so a stale or damaged record leads to a
      new conversion rather than a skip. */
  function AlreadyConverted(repo: string, simpleName: seq<string>, reference: string, tree: Tree): (converted: bool)
    requires IsSegment(repo) && |simpleName| > 0 && AllSegments(simpleName)
    ensures converted <==>
      && ManifestStatPath(repo, simpleName) in tree
      && tree[ManifestStatPath(repo, simpleName)] == RegularFile(true, Manifest(reference))
  {
    var path := ManifestStatPath(repo, simpleName);
    if path !in tree then
      false                                   // the manifest does not exist
    else if !tree[path].RegularFile? then
      false                                   // not a regular file
    else if !tree[path].opens then
      false                                   // cannot be opened
    else
      match tree[path].parsed
      case Unparsable => false                // does not unmarshal
      case Manifest(configDigest) => configDigest == reference
  }

  /** At most one config digest is ever reported as converted. */
  lemma ConvertedDigestIsUnique(repo: string, simpleName: seq<string>, r1: string, r2: string, tree: Tree)
    requires IsSegment(repo) && |simpleName| > 0 && AllSegments(simpleName)
    requires AlreadyConverted(repo, simpleName, r1, tree)
    requires AlreadyConverted(repo, simpleName, r2, tree)
    ensures r1 == r2
  {
  }

  /** Once a manifest with config digest `d` is stored where a conversion
      ingests it (`.metadata/<simpleName>/manifest.json` inside the
      repository), the gate answers "converted" for `d` and for nothing
      else. */
  lemma StoredManifestIsSeen(repo: string, simpleName: seq<string>, d: string, reference: string, tree: Tree)
    requires IsSegment(repo) && |simpleName| > 0 && AllSegments(simpleName)
    ensures var stored := tree[JoinUnder(RepoRoot(repo), ManifestPath(simpleName)) := RegularFile(true, Manifest(d))];
            AlreadyConverted(repo, simpleName, reference, stored) <==> reference == d
  {
    ManifestPathsAgree(repo, simpleName);
  }

  /** Ingesting layers never changes the gate's answer: whatever is placed
      at a layer's content path, the stored manifest is elsewhere. */
  lemma LayerIngestLeavesGate(repo: string, simpleName: seq<string>, reference: string, tree: Tree,
                              layerName: string, e: Entry)
    requires IsSegment(repo) && |simpleName| > 0 && AllSegments(simpleName) && ValidLayerName(layerName)
    ensures AlreadyConverted(repo, simpleName, reference, tree[StatPath(repo, layerName) := e])
        == AlreadyConverted(repo, simpleName, reference, tree)
  {
    LayerPathIsNotManifestPath(repo, layerName, simpleName);
  }

}
