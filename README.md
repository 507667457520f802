# Wish conversion of the CernVM-FS docker-graphdriver daemon

The daemon converts a *wish*: a Docker input image is turned into a "thin"
image, whose layers live unpacked in a CernVM-FS repository and are
pushed to an output registry. This project models the conversion routine
(`ConvertWish`) and the re-conversion gate (`AlreadyConverted`) in Dafny,
and proves properties of the model.

The model has five modules:

- `Layout` (`layout.dfy`) covers the repository layout the routine builds
  its paths from:
  - Go's `filepath.Join` over clean path elements;
  - the layer digest, taken from the layer name `algo:hex` as
    `strings.Split(name, ":")[1]`;
  - the content path `.layers/<d[0:2]>/<d>/layerfs` and the metadata path
    `.layers/<d[0:2]>/<d>/.metadata`;
  - the published location `/cvmfs/<repo>/<content path>`;
  - the stored manifest `.metadata/<simple name>/manifest.json`;
  - the repository tree as `os.Stat`, `os.Open` and a JSON parse observe
    it.
- `Dedup` (`dedup.dfy`) is the re-conversion gate. It reads the stored
  manifest and answers "converted" only for a regular file that opens,
  parses, and carries the given config digest.
- `Ingestion` (`ingestion.dfy`) is the ingestion goroutine, as an
  imperative loop that records an event trace. Each pass does four things:
  - it publishes the layer's location and metadata path;
  - it ingests the layer when its content path is missing or a download is
    forced;
  - when the ingest command does not start, it runs the cleanup (abort,
    then delete) and stops;
  - otherwise it removes the temporary tar file.

  The completion flag is sent once, at the end.
- `Aggregation` (`aggregation.dfy`) holds the two aggregators: the location
  map handed to the thin-image builder, and the metadata list handed to
  the backlink writer. It also proves that the map does not depend on the
  order in which the pairs arrive.
- `Conversion` (`conversion.dfy`) is `ConvertWish`. It runs the lookups,
  then the skip, the temporary directory, the layers, the singularity
  download, the build and push of the thin image, and finally the record
  stage. The record stage attempts to store the manifest and add the
  database row only when the loop, the singularity ingest and the backlinks all
  succeeded.

Each external collaborator is a `Step` whose only observable outcome is
whether it returns an error. This covers image lookups, the download, the
thin-image builder, JSON, tar, the Docker client, the backlink writer, the
manifest ingest and the database. A set `failing` says which steps return
one. Whether each `cvmfs_server ingest` process starts is an oracle
sequence.

The model follows the code as written, including where the code departs
from its own comments, log messages, or the apparent intent of a step:

- The published location carries the `/cvmfs/<repo>` prefix (line 118),
  although the comment on `LayerRepoLocation.Location` (line 62) says it
  does not need it.
- A layer's location is published before its ingest is attempted. The
  layer whose ingest fails is therefore in the location map.
- That layer's temporary tar file is not removed.
- A failed ingest does not stop the main flow: `MakeThinImage` is still
  called, with the locations of the layers taken up to and including the
  failing one, and the push follows if it succeeds. The failure itself
  blocks only the record stage.
- The error of `GetLayers` is never returned. It is overwritten by the
  singularity download or by `MakeThinImage`. The error of `GetChanges` is
  discarded.
- After the push, the error returned is the backlink writer's alone.
- Errors of the manifest ingest and of the database insert are never
  returned. The checks at lines 283 and 287 test `err`, which is nil there.
- "The ingest failed" means only that the `cvmfs_server` process did not
  start (`Start()`, not `Run()`).
- A stat error other than "does not exist" counts as "the layer exists",
  so that layer is ingested only when a download is forced.

## Model

| member | source | states |
|---|---|---|
| Layout.DigestOfField | daemon/lib/conversion.go:96 | for a layer name `algo:hex`, optionally followed by more `:` fields, the digest is exactly `hex` |
| Layout.DigestHasNoColon | daemon/lib/conversion.go:96 | the digest taken from a layer name never contains a colon |
| Layout.LayerPathsForm | daemon/lib/conversion.go:97-99 | the content path is `.layers/<d[0:2]>/<d>/layerfs` and the metadata path `.layers/<d[0:2]>/<d>/.metadata` |
| Layout.ContentPathRoundTrip | daemon/lib/conversion.go:97-98 | the digest can be read back from its content path, so distinct digests never share a content path |
| Layout.SamePathIffSameDigest | daemon/lib/conversion.go:96-99 | two layers share a location (and a metadata path) exactly when their digests are equal, whatever their algorithm prefix |
| Layout.ContentIsNotMetadata | daemon/lib/conversion.go:98-99 | no content path is ever a metadata path |
| Layout.PublishedLocationIsStatPath | daemon/lib/conversion.go:92-118 | the location published for a layer (line 118, under the root of line 92) is the same path whose existence is checked (line 102), and both are the join of `cvmfs`, the repository and the four elements of the content path, `/cvmfs/<repo>/.layers/<d[0:2]>/<d>/layerfs` |
| Layout.PublishedLocationForm | daemon/lib/conversion.go:92-118 | the published location written out: `/cvmfs/<repo>/.layers/<d[0:2]>/<d>/layerfs` |
| Layout.ManifestPathsAgree | daemon/lib/conversion.go:301 | the path the gate stats is the repository root joined with the manifest path a conversion ingests (line 281) |
| Layout.LayerPathIsNotManifestPath | daemon/lib/conversion.go:102 | no layer content path of a repository is its stored-manifest path |
| Dedup.AlreadyConverted | daemon/lib/conversion.go:300-343 | converted exactly when the stored manifest exists, is a regular file, opens, parses, and carries the given config digest; any other outcome answers not converted |
| Dedup.ConvertedDigestIsUnique | daemon/lib/conversion.go:339-342 | at most one config digest is reported as converted for a tree |
| Dedup.StoredManifestIsSeen | daemon/lib/conversion.go:301-342 | once a manifest with digest `d` is stored at the path a conversion writes, the gate answers converted for `d` and for nothing else |
| Dedup.LayerIngestLeavesGate | daemon/lib/conversion.go:102-121 | whatever is placed at a layer's content path, the gate's answer does not change |
| Ingestion.IngestLayer | daemon/lib/conversion.go:93-133 | one pass yields the events of `LayerEvents`, and it fails exactly when the layer needs ingesting and its command does not start |
| Ingestion.LayerEventsFacts | daemon/lib/conversion.go:110-133 | a pass publishes first; it issues the ingest command iff the path is missing or a download is forced; a skipped layer runs no command; a failed ingest ends with abort then delete of the same content path and keeps the temporary file, and no other pass issues an abort or a delete; every other pass removes it; no pass sends the completion flag |
| Ingestion.IngestLayers | daemon/lib/conversion.go:66-136 | the loop reports no errors iff no layer's ingest fails; it takes all layers when none fails, and otherwise stops right after the first failing layer; its trace is the passes of the layers taken, followed by one completion flag |
| Ingestion.StepsNeverComplete | daemon/lib/conversion.go:74-78 | the passes never send the completion flag, so the loop sends it exactly once, last |
| Ingestion.StepsSend | daemon/lib/conversion.go:110-118 | the loop hands off exactly one (name, published location) pair and one metadata path per layer taken, in order, including the layer that failed |
| Ingestion.PassSends | daemon/lib/conversion.go:112-118 | a single pass hands off exactly its own layer's pair and metadata path |
| Aggregation.CollectLocations | daemon/lib/conversion.go:161-166 | the aggregator loop builds the map of `LocationMap`, later pairs overwriting earlier ones |
| Aggregation.LocationMapKeys | daemon/lib/conversion.go:161-166 | the map has one key per layer name received, and no other |
| Aggregation.CollectMetadata | daemon/lib/conversion.go:169-175 | the metadata list holds exactly the paths received, in arrival order |
| Aggregation.LastArrivalWins | daemon/lib/conversion.go:163-165 | a name's entry is the location of the last pair carrying that name |
| Aggregation.ConsistentEntries | daemon/lib/conversion.go:163-165 | when a name always comes with the same location, every received pair is in the map |
| Aggregation.ArrivalOrderIrrelevant | daemon/lib/conversion.go:161-166 | any two arrival orders of the same consistent pairs give the same map |
| Aggregation.PublishedPairs | daemon/lib/conversion.go:112-118 | the published pairs name each layer with its published location, so they are consistent |
| Aggregation.PublishedMap | daemon/lib/conversion.go:161-166 | the map built from what the loop publishes has exactly the names of the layers taken as keys, each mapped to its published location |
| Conversion.LookUp | daemon/lib/conversion.go:30-45 | the four lookups run in order until the first one that fails, whose error is returned |
| Conversion.Push | daemon/lib/conversion.go:180-259 | building, encoding, importing and pushing the thin image run in order until the first failure, whose error is returned |
| Conversion.Record | daemon/lib/conversion.go:263-297 | the returned error is the backlink writer's; the manifest ingest and the database row happen iff the loop reported no errors, the singularity ingest (when asked for) and the backlinks succeeded; the manifest goes to `.metadata/<simple name>/manifest.json` |
| Conversion.Finish | daemon/lib/conversion.go:180-297 | push then record: a push failure returns at once with that error; otherwise the backlink writer's error is the one returned (a failed singularity ingest is not), and the record stage's gate holds |
| Conversion.Flow | daemon/lib/conversion.go:138-297 | the main flow after the gate: the layers are requested iff the temporary directory was created; `MakeThinImage` is called unless the directory or the singularity download failed, so a `GetLayers` or `GetChanges` error never stops it and is never returned; the error and record-gate facts hold |
| Conversion.Aggregate | daemon/lib/conversion.go:159-177 | the aggregators hold, for the layers the loop took, their published pairs' map and their metadata paths in order |
| Conversion.Sent | daemon/lib/conversion.go:110-177 | what the aggregators receive from a run of the loop is the pairs and metadata paths of the layers it took |
| Conversion.Convert | daemon/lib/conversion.go:56-297 | the conversion after the gate: the loop runs once the layers are requested and takes every layer when no ingest fails, or stops right after the first failing one; `MakeThinImage` is called unless the directory or the singularity download failed, and gets the map and metadata of every layer the loop took; only fatal errors or the backlink writer's are returned; the record gate ties in the loop's outcome |
| Conversion.ConvertWish | daemon/lib/conversion.go:28-297 | the calls follow program order; a converted image is skipped with no error after the lookups; a fatal failure stops the conversion and is the error returned, and no other error is returned except the backlink writer's after the push; past the gate `MakeThinImage` is called unless the temporary directory or the singularity download failed, with the locations of all layers on success or of those up to and including the first failing one; the manifest ingest and the database insert are attempted iff every layer ingest, the singularity ingest and the backlinks succeeded |
| Conversion.RecordedThenSkipped | daemon/lib/conversion.go:47-54 | once a conversion's manifest is stored, the next conversion of the same image is skipped, and one whose config digest changed is not |

## Left out

- Concurrency is sequentialised. The ingestion goroutine, the hand-off
  goroutines and the two aggregators are modelled as running in turn.
  Channels, `sync.WaitGroup` and the `stopGettingLayers` signal are not
  modelled.
- The write to the outer `err` from inside the ingestion goroutine
  (line 121) races with the main flow. That race is not modelled: the
  loop's errors reach the main flow only through its completion flag.
- `GetLayers` is not part of this model. Its layers are an input list, and
  it is assumed to close the layer channel once it is done. The manifest
  it sends on `manifestChanell` (read at line 282) is assumed to arrive.
- If the temporary directory cannot be created, the ingestion goroutine is
  left blocked. The model records that no loop ran.
- `cvmfs_server` processes are not run. Whether an ingest starts is an
  oracle, and the abort and delete commands are events whose outcome is
  ignored, as in the code.
- The outcomes of `GetImageById`, `GetUserPassword`, `GetManifest`,
  `ioutil.TempDir`, `DownloadSingularityDirectory`, `GetChanges`,
  `MakeThinImage`, JSON, tar, the Docker client, `SaveLayersBacklink`,
  `singularity.IngestIntoCVMFS`, `IngestIntoCVMFS` and `AddConverted` are
  oracles. Their contents (image data, the thin image, the tar stream, the
  credentials) are not modelled.
- Deferred removals of the temporary directories, logging, and
  `fmt.Println` output are not modelled.
- `os.Stat` is modelled as membership in a snapshot of the repository tree
  taken when the conversion starts. The effect of this conversion's own
  ingests on later stats is not modelled. A stat error other than "does
  not exist" is treated as "exists" in the loop (line 104). In
  `AlreadyConverted` it would make line 318 dereference a nil result. The
  model does not distinguish it from "exists".
- The image's simple name is given as its path elements. Layer names,
  digests and repository names must be clean path elements (no `/`, `.`
  or `..`) and digests at least two characters long. Other inputs make the
  code panic (`layerDigest[0:2]`, `strings.Split(..)[1]`) or make
  `filepath.Join` clean the path. `Conversion.Admissible` states these
  conditions.
- `Ingestion.IngestLayers`: the event trace records only the loop's
  observable actions (publication, started commands, temporary-file
  removal, completion flag). Log messages and the `wg` bookkeeping are not
  modelled.
- `Aggregation.CollectMetadata`: the metadata list keeps arrival order.
  The model feeds the aggregators in publication order, so the list order
  under real goroutine scheduling is not captured. The location map is
  proved independent of that order.
- Every layer `GetLayers` would deliver must have a valid name, including
  layers after the first failing one, which the code never reads. The
  digest's first two characters are taken as Dafny characters, whereas
  Go's `layerDigest[0:2]` takes the first two bytes. The two agree for
  ASCII digests.
- The outcome of `MakeThinImage` is an oracle. It is not tied to whether
  the location map covers every layer of the manifest, so a map cut short
  by a failed ingest is not shown to make it fail.
- `daemon/publisher/handlers.go` is not part of this model.
