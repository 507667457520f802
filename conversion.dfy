/** `ConvertWish`: resolve the images of a wish, skip images that are
    already converted, feed the layers to the ingestion loop, aggregate what
    it publishes, build and push the thin image, and finally decide whether
    the conversion is recorded (manifest stored, database row added) and
    which error is returned.

    Every collaborator whose code is not part of this model (image lookups,
    the layer download, the thin-image builder, JSON, tar, the Docker
    client, the backlink writer, the ingest of the manifest, the database)
    is a `Step` whose only observable outcome is whether it returns an
    error. */
module Conversion {
  import opened Options
  import opened Layout
  import opened Dedup
  import opened Ingestion
  import opened Aggregation

  /** The wish being converted: its database id and the repository the
      layers go into. */
  datatype Wish = Wish(id: int, cvmfsRepo: string)

  /** The collaborator calls of a conversion, each of which may fail. */
  datatype Step =
    | GetOutputImage          // GetImageById(wish.OutputId)
    | GetUserPassword         // credentials of the output registry
    | GetInputImage           // GetImageById(wish.InputId)
    | GetManifest             // inputImage.GetManifest()
    | TempDir                 // ioutil.TempDir
    | GetLayers               // feeds the ingestion loop
    | DownloadSingularity     // inputImage.DownloadSingularityDirectory
    | GetChanges              // inputImage.GetChanges(), error discarded
    | MakeThinImage           // da.MakeThinImage
    | MarshalThin             // json.MarshalIndent of the thin image
    | TarHeader               // tar header of thin.json
    | TarWrite                // tar body of thin.json
    | TarClose
    | NewDockerClient
    | ImageImport
    | ImagePush
    | ReadPushResult          // reading the push response
    | IngestSingularity       // singularity.IngestIntoCVMFS
    | SaveBacklinks           // SaveLayersBacklink
    | IngestManifest          // IngestIntoCVMFS of manifest.json
    | AddConverted            // AddConverted(wish.Id, manifest)

  /** What the conversion observes from outside: the calls that return an
      error, the input image's simple name (as path elements) and config
      digest, the repository tree, the layers `GetLayers` delivers and
      whether each ingest command starts. */
  datatype Env = Env(
    failing: set<Step>,
    simpleName: seq<string>,
    configDigest: string,
    tree: Tree,
    layers: seq<Layer>,
    starts: seq<bool>)

  /** The run of the ingestion goroutine. */
  datatype Pipeline = Pipeline(events: seq<Event>, consumed: nat, noErrors: bool)

  /** Inputs the conversion can run on without panicking: a repository
      name and an image name usable as path elements, valid layer names,
      one start outcome per layer. */
  predicate Admissible(wish: Wish, env: Env) {
    && IsSegment(wish.cvmfsRepo)
    && |env.simpleName| > 0 && AllSegments(env.simpleName)
    && |env.starts| == |env.layers|
    && ValidNames(env.layers)
  }

  /** The error a call returns. */
  function Outcome(env: Env, step: Step): Option<Step> {
    if step in env.failing then Some(step) else None
  }

  /** Calls whose error makes the conversion return at once. */
  predicate Fatal(step: Step) {
    !(step.GetLayers? || step.GetChanges? || step.IngestSingularity? || step.SaveBacklinks?
      || step.IngestManifest? || step.AddConverted?)
  }

  /** The lookups before the re-conversion gate (lines 30-45). */
  const Lookups: seq<Step> := [GetOutputImage, GetUserPassword, GetInputImage, GetManifest]

  /** The calls that prepare and feed the ingestion loop. */
  function Fetching(convertSingularity: bool): seq<Step> {
    if convertSingularity then [TempDir, GetLayers, DownloadSingularity, GetChanges]
    else [TempDir, GetLayers, GetChanges]
  }

  /** Building, importing and pushing the thin image (lines 180-259). */
  const Pushing: seq<Step> :=
    [MakeThinImage, MarshalThin, TarHeader, TarWrite, TarClose, NewDockerClient, ImageImport, ImagePush, ReadPushResult]

  /** The calls after the push. */
  function Recording(convertSingularity: bool): seq<Step> {
    if convertSingularity then [IngestSingularity, SaveBacklinks, IngestManifest, AddConverted]
    else [SaveBacklinks, IngestManifest, AddConverted]
  }

  /** Every call a full conversion makes, in program order. */
  function Plan(convertSingularity: bool): seq<Step> {
    Lookups + (Fetching(convertSingularity) + (Pushing + Recording(convertSingularity)))
  }

  /** No call of `calls` failed fatally. */
  predicate NoFatalFailure(env: Env, calls: seq<Step>) {
    forall k :: 0 <= k < |calls| ==> !(Fatal(calls[k]) && calls[k] in env.failing)
  }

  /** A chain of calls that each return on error, run until the first one
      that fails: `calls` is the chain up to and including that call, and
      `err` is its error. */
  predicate StopsAtFirstFailure(env: Env, chain: seq<Step>, calls: seq<Step>, err: Option<Step>) {
    && calls <= chain
    && (forall k :: 0 <= k < |calls| - 1 ==> calls[k] !in env.failing)
    && (err.None? ==> calls == chain && forall k :: 0 <= k < |chain| ==> chain[k] !in env.failing)
    && (err.Some? ==> |calls| > 0 && err.value == calls[|calls| - 1] && err.value in env.failing)
  }

  /** The four lookups before the re-conversion gate succeed. */
  predicate Resolved(env: Env) {
    && GetOutputImage !in env.failing
    && GetUserPassword !in env.failing
    && GetInputImage !in env.failing
    && GetManifest !in env.failing
  }

  /** The conversion is skipped: the image is already in the repository and
      no re-conversion is asked for. `forceDownload` plays no part. */
  predicate Skips(wish: Wish, convertAgain: bool, env: Env)
    requires Admissible(wish, env)
  {
    Resolved(env) && AlreadyConverted(wish.cvmfsRepo, env.simpleName, env.configDigest, env.tree) && !convertAgain
  }

  /** What the ingestion loop works on. */
  function SettingOf(wish: Wish, forceDownload: bool, env: Env): Setting {
    Setting(wish.cvmfsRepo, forceDownload, env.tree)
  }

  /** The conversion is recorded only when no layer ingest failed, the
      singularity image (when asked for) was ingested, and the backlinks
      were saved. */
  predicate Recorded(wish: Wish, forceDownload: bool, convertSingularity: bool, env: Env)
    requires Admissible(wish, env)
  {
    && AllIngested(SettingOf(wish, forceDownload, env), env.layers, env.starts)
    && (convertSingularity ==> IngestSingularity !in env.failing)
    && SaveBacklinks !in env.failing
  }

  /** The error discipline of a run of calls: an error is returned only by
      the call that raised it, which is then the last call made, and only
      when that call is fatal or is the backlink writer, whose error is the
      one returned after the push; no earlier call failed fatally; and a
      fatal failure of the last call is what is returned. */
  predicate StopsAtFatalError(env: Env, calls: seq<Step>, err: Option<Step>) {
    && (err.Some? ==> |calls| > 0 && err.value == calls[|calls| - 1] && err.value in env.failing)
    && (err.Some? ==> Fatal(err.value) || err.value == SaveBacklinks)
    && (forall k :: 0 <= k < |calls| - 1 ==> !(Fatal(calls[k]) && calls[k] in env.failing))
    && (|calls| > 0 && Fatal(calls[|calls| - 1]) && calls[|calls| - 1] in env.failing ==>
          err == Some(calls[|calls| - 1]))
  }

  /** One conversion. `calls` are the collaborator calls made, `pipeline`
      the ingestion loop's run, `layerLocations` and
      `layerMetadataLocations` what the aggregators collected, and
      `manifestPath` where the image manifest is ingested, if it is. */
  method ConvertWish(wish: Wish, convertAgain: bool, forceDownload: bool, convertSingularity: bool, env: Env)
    returns (err: Option<Step>, calls: seq<Step>, pipeline: Option<Pipeline>,
             layerLocations: map<string, string>, layerMetadataLocations: seq<string>,
             manifestPath: Option<string>)
    requires Admissible(wish, env)
    // calls are made in program order and only stop early
    ensures calls <= Plan(convertSingularity)
    // the early skip
    ensures Skips(wish, convertAgain, env) ==> err == None && calls == Lookups && pipeline == None
    ensures StopsAtFatalError(env, calls, err)
    // without an error the conversion is skipped or gets past the push
    ensures err.None? ==> Skips(wish, convertAgain, env) || SaveBacklinks in calls
    // after the push the error returned is the backlink writer's alone
    ensures SaveBacklinks in calls ==> err == Outcome(env, SaveBacklinks)
    // the record gate
    ensures IngestManifest in calls <==> SaveBacklinks in calls && Recorded(wish, forceDownload, convertSingularity, env)
    ensures AddConverted in calls <==> IngestManifest in calls
    ensures manifestPath == if IngestManifest in calls then Some(ManifestPath(env.simpleName)) else None
    // the ingestion loop runs once the layers are requested
    ensures pipeline.Some? <==> GetLayers in calls
    ensures pipeline.Some? ==> RanLoop(wish, forceDownload, env, pipeline.value)
    // past the gate, the thin image is built unless the temporary directory
    // or the singularity download failed
    ensures Resolved(env) && !Skips(wish, convertAgain, env) ==>
      (MakeThinImage in calls <==>
        TempDir !in env.failing && !(convertSingularity && DownloadSingularity in env.failing))
    // the thin image is built from everything the loop published
    ensures MakeThinImage in calls ==>
      pipeline.Some? && Aggregated(wish, env, pipeline.value, layerLocations, layerMetadataLocations)
  {
    pipeline, layerLocations, layerMetadataLocations, manifestPath := None, map[], [], None;

    err, calls := LookUp(env);
    if err.Some? { return; }
    assert Resolved(env) by {
      assert Lookups[0] !in env.failing && Lookups[1] !in env.failing;
      assert Lookups[2] !in env.failing && Lookups[3] !in env.failing;
    }

    var alreadyConverted := AlreadyConverted(wish.cvmfsRepo, env.simpleName, env.configDigest, env.tree);
    if alreadyConverted && !convertAgain {
      return None, calls, pipeline, layerLocations, layerMetadataLocations, manifestPath;
    }

    var rest;
    err, rest, pipeline, layerLocations, layerMetadataLocations, manifestPath :=
      Convert(wish, forceDownload, convertSingularity, env);
    LookedUpThenConverted(env, convertSingularity, rest, err);
    calls := calls + rest;
  }

  /** A recorded conversion is not repeated: once the manifest is stored
      where `ConvertWish` ingests it, the next conversion of the same image
      into the same repository is skipped, and one whose config digest has
      changed since is not. */
  lemma RecordedThenSkipped(wish: Wish, env: Env, manifestPath: string, other: string)
    requires Admissible(wish, env) && Resolved(env)
    requires manifestPath == ManifestPath(env.simpleName)
    ensures var stored := RegularFile(true, Manifest(env.configDigest));
            var next := env.(tree := env.tree[JoinUnder(RepoRoot(wish.cvmfsRepo), manifestPath) := stored]);
            && Skips(wish, false, next)
            && (Skips(wish, false, next.(configDigest := other)) <==> other == env.configDigest)
  {
    StoredManifestIsSeen(wish.cvmfsRepo, env.simpleName, env.configDigest, env.configDigest, env.tree);
    StoredManifestIsSeen(wish.cvmfsRepo, env.simpleName, env.configDigest, other, env.tree);
  }

  /** The lookups, none of which returned, followed by the rest of the
      conversion. */
  lemma LookedUpThenConverted(env: Env, convertSingularity: bool, rest: seq<Step>, err: Option<Step>)
    requires Resolved(env)
    requires rest <= Fetching(convertSingularity) + (Pushing + Recording(convertSingularity))
    requires |rest| > 0 && StopsAtFatalError(env, rest, err)
    ensures var calls := Lookups + rest;
      && calls <= Plan(convertSingularity)
      && StopsAtFatalError(env, calls, err)
      && (GetLayers in calls <==> GetLayers in rest)
      && (MakeThinImage in calls <==> MakeThinImage in rest)
      && (SaveBacklinks in calls <==> SaveBacklinks in rest)
      && (IngestManifest in calls <==> IngestManifest in rest)
      && (AddConverted in calls <==> AddConverted in rest)
  {
    assert NoFatalFailure(env, Lookups);
    ErrorsCompose(env, Lookups, rest, err);
    PrefixAppend(Lookups, rest, Fetching(convertSingularity) + (Pushing + Recording(convertSingularity)));
  }

  /** The ingestion loop's run, as `IngestLayers` promises it. */
  predicate RanLoop(wish: Wish, forceDownload: bool, env: Env, p: Pipeline)
    requires Admissible(wish, env)
  {
    var s := SettingOf(wish, forceDownload, env);
    && p.consumed <= |env.layers|
    && (p.noErrors <==> AllIngested(s, env.layers, env.starts))
    // on success every layer is taken; otherwise the last one taken failed
    && (p.noErrors ==> p.consumed == |env.layers|)
    && (!p.noErrors ==> 0 < p.consumed && IngestFails(s, env.layers[p.consumed - 1], env.starts[p.consumed - 1]))
    // and no layer before it failed: the loop stops at the first failure
    && (forall i {:trigger IngestFails(s, env.layers[i], env.starts[i])} :: 0 <= i < p.consumed - 1 ==>
          !IngestFails(s, env.layers[i], env.starts[i]))
    && p.events == Steps(s, env.layers, env.starts, p.consumed) + [Complete(p.noErrors)]
  }

  /** The aggregators hold what the loop published for the layers it took. */
  predicate Aggregated(wish: Wish, env: Env, p: Pipeline,
                       layerLocations: map<string, string>, layerMetadataLocations: seq<string>)
    requires Admissible(wish, env)
  {
    && p.consumed <= |env.layers|
    && layerLocations == LocationMap(PairsOf(wish.cvmfsRepo, env.layers[..p.consumed]))
    && layerMetadataLocations == MetadataOf(env.layers[..p.consumed])
  }

  /** A run of calls none of which failed fatally, followed by another run,
      keeps the error discipline of the second. */
  lemma ErrorsCompose(env: Env, first: seq<Step>, second: seq<Step>, err: Option<Step>)
    requires NoFatalFailure(env, first) && |second| > 0 && StopsAtFatalError(env, second, err)
    ensures StopsAtFatalError(env, first + second, err)
  {
    var calls := first + second;
    assert calls[|calls| - 1] == second[|second| - 1];
    forall k | 0 <= k < |calls| - 1 ensures !(Fatal(calls[k]) && calls[k] in env.failing) {
      if k < |first| {
        assert calls[k] == first[k];
      } else {
        assert calls[k] == second[k - |first|];
      }
    }
  }

  /** The conversion after the re-conversion gate. The ingestion goroutine
      (started at line 66) runs beside the main flow: it takes the layers
      `GetLayers` sends, and the main flow sees its outcome only on the
      `noErrorInConversion` channel (line 263). The aggregators drain what
      it publishes before the thin image is built. */
  method Convert(wish: Wish, forceDownload: bool, convertSingularity: bool, env: Env)
    returns (err: Option<Step>, calls: seq<Step>, pipeline: Option<Pipeline>,
             layerLocations: map<string, string>, layerMetadataLocations: seq<string>,
             manifestPath: Option<string>)
    requires Admissible(wish, env)
    ensures calls <= Fetching(convertSingularity) + (Pushing + Recording(convertSingularity))
    ensures |calls| > 0 && StopsAtFatalError(env, calls, err)
    ensures err.None? ==> SaveBacklinks in calls
    ensures SaveBacklinks in calls ==> err == Outcome(env, SaveBacklinks)
    ensures IngestManifest in calls <==> SaveBacklinks in calls && Recorded(wish, forceDownload, convertSingularity, env)
    ensures AddConverted in calls <==> IngestManifest in calls
    ensures manifestPath == if IngestManifest in calls then Some(ManifestPath(env.simpleName)) else None
    ensures pipeline.Some? <==> GetLayers in calls
    ensures pipeline.Some? ==> RanLoop(wish, forceDownload, env, pipeline.value)
    // the thin image is built unless the directory or the singularity download failed
    ensures MakeThinImage in calls <==>
      TempDir !in env.failing && !(convertSingularity && DownloadSingularity in env.failing)
    ensures MakeThinImage in calls ==>
      pipeline.Some? && Aggregated(wish, env, pipeline.value, layerLocations, layerMetadataLocations)
  {
    var events, consumed, noErrors := IngestLayers(SettingOf(wish, forceDownload, env), env.layers, env.starts);
    var loop := Pipeline(events, consumed, noErrors);
    assert RanLoop(wish, forceDownload, env, loop);
    err, calls, manifestPath := Flow(env, convertSingularity, noErrors);
    pipeline, layerLocations, layerMetadataLocations := None, map[], [];
    if GetLayers in calls {
      pipeline := Some(loop);
    }
    if MakeThinImage in calls {
      layerLocations, layerMetadataLocations := Aggregate(wish, forceDownload, env, loop);
    }
  }

  /** The main flow after the re-conversion gate: the temporary directory,
      the layers, the singularity download, the changes, then the push and
      the record stage, given what the ingestion loop reports. */
  method Flow(env: Env, convertSingularity: bool, noErrorInConversion: bool)
    returns (err: Option<Step>, calls: seq<Step>, manifestPath: Option<string>)
    requires |env.simpleName| > 0 && AllSegments(env.simpleName)
    ensures calls <= Fetching(convertSingularity) + (Pushing + Recording(convertSingularity))
    ensures |calls| > 0 && StopsAtFatalError(env, calls, err)
    ensures err.None? ==> SaveBacklinks in calls
    ensures SaveBacklinks in calls ==> err == Outcome(env, SaveBacklinks)
    ensures IngestManifest in calls <==>
      && SaveBacklinks in calls
      && noErrorInConversion
      && (convertSingularity ==> IngestSingularity !in env.failing)
      && SaveBacklinks !in env.failing
    ensures AddConverted in calls <==> IngestManifest in calls
    ensures manifestPath == if IngestManifest in calls then Some(ManifestPath(env.simpleName)) else None
    // the layers are requested once the temporary directory exists
    ensures GetLayers in calls <==> TempDir !in env.failing
    // the thin image is built unless the directory or the singularity download failed
    ensures MakeThinImage in calls <==>
      TempDir !in env.failing && !(convertSingularity && DownloadSingularity in env.failing)
  {
    manifestPath := None;
    calls := [TempDir];
    err := Outcome(env, TempDir);
    if err.Some? { return; }

    // GetLayers feeds the ingestion goroutine; its error is overwritten below
    calls := calls + [GetLayers];
    err := Outcome(env, GetLayers);

    if convertSingularity {
      calls := calls + [DownloadSingularity];
      err := Outcome(env, DownloadSingularity);
      if err.Some? { return; }
    }
    calls := calls + [GetChanges];
    assert calls == Fetching(convertSingularity);

    var rest;
    err, rest, manifestPath := Finish(env, convertSingularity, noErrorInConversion);
    FetchedThenFinished(env, convertSingularity, rest, err);
    calls := calls + rest;
  }

  /** The two aggregators, draining what the loop sent until it closes the
      channels. */
  method Aggregate(wish: Wish, forceDownload: bool, env: Env, p: Pipeline)
    returns (layerLocations: map<string, string>, layerMetadataLocations: seq<string>)
    requires Admissible(wish, env) && RanLoop(wish, forceDownload, env, p)
    ensures Aggregated(wish, env, p, layerLocations, layerMetadataLocations)
  {
    layerLocations := CollectLocations(LocationsSent(p.events));
    layerMetadataLocations := CollectMetadata(MetadataSent(p.events));
    Sent(wish, forceDownload, env, p.consumed, p.noErrors);
  }

  /** The calls that feed the loop, none of which returned, followed by the
      push and record stage. */
  lemma FetchedThenFinished(env: Env, convertSingularity: bool, rest: seq<Step>, err: Option<Step>)
    requires convertSingularity ==> DownloadSingularity !in env.failing
    requires TempDir !in env.failing
    requires rest <= Pushing + Recording(convertSingularity)
    requires |rest| > 0 && rest[0] == MakeThinImage && StopsAtFatalError(env, rest, err)
    requires GetLayers !in rest
    ensures var calls := Fetching(convertSingularity) + rest;
      && calls <= Fetching(convertSingularity) + (Pushing + Recording(convertSingularity))
      && StopsAtFatalError(env, calls, err)
      && GetLayers in calls && MakeThinImage in calls
      && (SaveBacklinks in calls <==> SaveBacklinks in rest)
      && (IngestManifest in calls <==> IngestManifest in rest)
      && (AddConverted in calls <==> AddConverted in rest)
  {
    var fetched := Fetching(convertSingularity);
    assert NoFatalFailure(env, fetched);
    ErrorsCompose(env, fetched, rest, err);
    PrefixAppend(fetched, rest, Pushing + Recording(convertSingularity));
    assert (fetched + rest)[|fetched|] == MakeThinImage;
  }

  /** The push and the record stage. */
  method Finish(env: Env, convertSingularity: bool, noErrorInConversion: bool)
    returns (err: Option<Step>, calls: seq<Step>, manifestPath: Option<string>)
    requires |env.simpleName| > 0 && AllSegments(env.simpleName)
    ensures calls <= Pushing + Recording(convertSingularity)
    ensures |calls| > 0 && calls[0] == MakeThinImage && StopsAtFatalError(env, calls, err)
    ensures err.None? ==> SaveBacklinks in calls
    ensures SaveBacklinks in calls ==> err == Outcome(env, SaveBacklinks)
    ensures IngestManifest in calls <==>
      && SaveBacklinks in calls
      && noErrorInConversion
      && (convertSingularity ==> IngestSingularity !in env.failing)
      && SaveBacklinks !in env.failing
    ensures AddConverted in calls <==> IngestManifest in calls
    ensures GetLayers !in calls
    ensures manifestPath == if IngestManifest in calls then Some(ManifestPath(env.simpleName)) else None
  {
    manifestPath := None;
    err, calls := Push(env);
    if err.Some? { return; }
    assert NoFatalFailure(env, calls);
    var rest;
    err, rest, manifestPath := Record(env, convertSingularity, noErrorInConversion);
    PushedThenRecorded(env, convertSingularity, rest, err);
    calls := calls + rest;
  }

  /** The push calls, none of which returned, followed by the record
      stage. */
  lemma PushedThenRecorded(env: Env, convertSingularity: bool, rest: seq<Step>, err: Option<Step>)
    requires NoFatalFailure(env, Pushing)
    requires rest <= Recording(convertSingularity) && SaveBacklinks in rest
    requires |rest| > 0 && StopsAtFatalError(env, rest, err)
    ensures var calls := Pushing + rest;
      && calls <= Pushing + Recording(convertSingularity)
      && calls[0] == MakeThinImage && StopsAtFatalError(env, calls, err)
      && GetLayers !in calls
      && SaveBacklinks in calls
      && (IngestManifest in calls <==> IngestManifest in rest)
      && (AddConverted in calls <==> AddConverted in rest)
  {
    ErrorsCompose(env, Pushing, rest, err);
    PrefixAppend(Pushing, rest, Recording(convertSingularity));
  }

  /** Prefixes are kept by putting the same calls in front. */
  lemma PrefixAppend(first: seq<Step>, rest: seq<Step>, chain: seq<Step>)
    requires rest <= chain
    ensures first + rest <= first + chain
  {
    assert first + rest == (first + chain)[..|first| + |rest|];
  }

  /** The lookups of the output image, its registry credentials, the input
      image and its manifest, each returning on error. */
  method LookUp(env: Env) returns (err: Option<Step>, calls: seq<Step>)
    ensures StopsAtFirstFailure(env, Lookups, calls, err)
  {
    calls := [GetOutputImage];
    err := Outcome(env, GetOutputImage);
    if err.Some? { return; }
    calls := calls + [GetUserPassword];
    err := Outcome(env, GetUserPassword);
    if err.Some? { return; }
    calls := calls + [GetInputImage];
    err := Outcome(env, GetInputImage);
    if err.Some? { return; }
    calls := calls + [GetManifest];
    err := Outcome(env, GetManifest);
  }

  /** Building, importing and pushing the thin image, each call returning
      on error. */
  method Push(env: Env) returns (err: Option<Step>, calls: seq<Step>)
    ensures StopsAtFirstFailure(env, Pushing, calls, err)
  {
    calls := [MakeThinImage];
    err := Outcome(env, MakeThinImage);
    if err.Some? { return; }
    calls := calls + [MarshalThin];
    err := Outcome(env, MarshalThin);
    if err.Some? { return; }
    calls := calls + [TarHeader];
    err := Outcome(env, TarHeader);
    if err.Some? { return; }
    calls := calls + [TarWrite];
    err := Outcome(env, TarWrite);
    if err.Some? { return; }
    calls := calls + [TarClose];
    err := Outcome(env, TarClose);
    if err.Some? { return; }
    calls := calls + [NewDockerClient];
    err := Outcome(env, NewDockerClient);
    if err.Some? { return; }
    calls := calls + [ImageImport];
    err := Outcome(env, ImageImport);
    if err.Some? { return; }
    calls := calls + [ImagePush];
    err := Outcome(env, ImagePush);
    if err.Some? { return; }
    calls := calls + [ReadPushResult];
    err := Outcome(env, ReadPushResult);
  }

  /** The stage after the push: ingest the singularity image when asked
      to, save the backlinks, and store the manifest and the database row
      only when the loop, the singularity ingest and the backlinks all
      succeeded. The error returned is the backlink writer's: the
      singularity error is overwritten, and the two recording calls'
      errors are never looked at. */
  method Record(env: Env, convertSingularity: bool, noErrorInConversion: bool)
    returns (err: Option<Step>, calls: seq<Step>, manifestPath: Option<string>)
    requires |env.simpleName| > 0 && AllSegments(env.simpleName)
    ensures err == Outcome(env, SaveBacklinks)
    ensures var recorded := noErrorInConversion
                            && (convertSingularity ==> IngestSingularity !in env.failing)
                            && SaveBacklinks !in env.failing;
            && (recorded ==> calls == Recording(convertSingularity))
            && (!recorded ==> calls == if convertSingularity then [IngestSingularity, SaveBacklinks] else [SaveBacklinks])
    ensures calls <= Recording(convertSingularity) && SaveBacklinks in calls
    ensures |calls| > 0 && StopsAtFatalError(env, calls, err)
    ensures manifestPath == if IngestManifest in calls then Some(ManifestPath(env.simpleName)) else None
  {
    var noErrorInConversionValue := noErrorInConversion;
    calls, manifestPath := [], None;
    if convertSingularity {
      calls := calls + [IngestSingularity];
      err := Outcome(env, IngestSingularity);
      if err.Some? { noErrorInConversionValue := false; }
    }
    calls := calls + [SaveBacklinks];
    err := Outcome(env, SaveBacklinks);
    if err.Some? { noErrorInConversionValue := false; }

    if noErrorInConversionValue {
      // the outcomes of these two calls are never looked at
      manifestPath := Some(ManifestPath(env.simpleName));
      calls := calls + [IngestManifest, AddConverted];
    }
  }

  /** What the aggregators receive is what the loop's passes published. */
  lemma Sent(wish: Wish, forceDownload: bool, env: Env, consumed: nat, noErrors: bool)
    requires Admissible(wish, env) && consumed <= |env.layers|
    ensures var s := SettingOf(wish, forceDownload, env);
            var es := Steps(s, env.layers, env.starts, consumed) + [Complete(noErrors)];
            && LocationsSent(es) == PairsOf(wish.cvmfsRepo, env.layers[..consumed])
            && MetadataSent(es) == MetadataOf(env.layers[..consumed])
  {
    var s := SettingOf(wish, forceDownload, env);
    var steps := Steps(s, env.layers, env.starts, consumed);
    StepsSend(s, env.layers, env.starts, consumed);
    SentDistributes(steps, [Complete(noErrors)]);
    NothingSent([Complete(noErrors)]);
  }

}
