/** The layer ingestion loop: the goroutine that takes downloaded layers one
    at a time, publishes where each one lives, ingests the ones that are
    missing (or all of them when a download is forced), and stops at the
    first ingest command that cannot be started, after aborting the open
    transaction and deleting that layer's half-ingested path.

    The loop is sequential here: the hand-off goroutines that forward each
    publication to the aggregators are represented by a `Publish` event at
    the point where they are spawned. External `cvmfs_server` commands are
    `Run` events; whether an ingest command starts is an oracle. */
module Ingestion {
  import opened Layout

  /** `downloadedLayer`: the layer's name (`algo:hex`) and the temporary
      tar file it was downloaded to. */
  datatype Layer = Layer(name: string, tempPath: string)

  /** The `cvmfs_server` commands the loop issues. */
  datatype Command =
    | IngestTar(tarFile: string, base: string, repo: string)    // ingest -t <tar> -b <base> <repo>
    | Abort(repo: string)                                      // abort -f <repo>
    | DeleteIngested(path: string, repo: string)               // ingest --delete <path> <repo>

  /** `LayerRepoLocation`: the field Go calls `Digest` holds the full layer
      name. */
  datatype LayerRepoLocation = LayerRepoLocation(digest: string, location: string)

  /** What the loop does, in order. */
  datatype Event =
    | Publish(name: string, location: string, metadata: string)  // hand-off to the aggregators
    | Run(command: Command)                                     // a cvmfs_server command issued (Start() called)
    | RemoveTemp(path: string)                                  // os.Remove(layer.Path)
    | Complete(ok: bool)                                        // noErrorInConversion <- noErrors

  /** What the loop depends on besides the layers: the repository, the
      `forceDownload` flag, and the repository tree `os.Stat` observes. */
  datatype Setting = Setting(repo: string, forceDownload: bool, tree: Tree)

  /** Every layer name has a digest the paths can be built from. */
  predicate ValidNames(layers: seq<Layer>) {
    forall i {:trigger ValidLayerName(layers[i].name)} :: 0 <= i < |layers| ==> ValidLayerName(layers[i].name)
  }

  /** Layers and oracle outcomes the loop can be run on: valid names, and
      one start outcome per layer. */
  predicate WellFormed(s: Setting, layers: seq<Layer>, starts: seq<bool>) {
    && IsSegment(s.repo)
    && |starts| == |layers|
    && ValidNames(layers)
  }

  /** A layer is ingested when `os.Stat` reports its content path as not
      existing or the download is forced. Every other stat outcome counts
      as existing. */
  predicate NeedsIngest(s: Setting, layer: Layer)
    requires IsSegment(s.repo) && ValidLayerName(layer.name)
  {
    StatPath(s.repo, layer.name) !in s.tree || s.forceDownload
  }

  /** The ingest of a layer fails when it is needed and its command does
      not start. */
  predicate IngestFails(s: Setting, layer: Layer, started: bool)
    requires IsSegment(s.repo) && ValidLayerName(layer.name)
  {
    NeedsIngest(s, layer) && !started
  }

  /** No layer's ingest fails. */
  predicate AllIngested(s: Setting, layers: seq<Layer>, starts: seq<bool>)
    requires WellFormed(s, layers, starts)
  {
    forall i {:trigger IngestFails(s, layers[i], starts[i])} :: 0 <= i < |layers| ==> !IngestFails(s, layers[i], starts[i])
  }

  /** The events of one pass of the loop body. */
  function LayerEvents(s: Setting, layer: Layer, started: bool): (es: seq<Event>)
    requires IsSegment(s.repo) && ValidLayerName(layer.name)
  {
    var location := LayerLocation(layer.name);
    [Publish(layer.name, PublishedLocation(s.repo, layer.name), LayerMetadata(layer.name))]
    + if !NeedsIngest(s, layer) then
        [RemoveTemp(layer.tempPath)]
      else if started then
        [Run(IngestTar(layer.tempPath, location, s.repo)), RemoveTemp(layer.tempPath)]
      else
        [Run(IngestTar(layer.tempPath, location, s.repo)), Run(Abort(s.repo)), Run(DeleteIngested(location, s.repo))]
  }

  /** One pass, described: the layer is published first; an ingest command
      is issued exactly when the layer needs ingesting and a skipped layer
      runs no command at all; a failed ingest is followed by the abort and
      then the delete of that same content path, and its temporary file is
      kept; every other layer's temporary file is removed. */
  lemma LayerEventsFacts(s: Setting, layer: Layer, started: bool)
    requires IsSegment(s.repo) && ValidLayerName(layer.name)
    ensures var es := LayerEvents(s, layer, started);
      && es[0] == Publish(layer.name, PublishedLocation(s.repo, layer.name), LayerMetadata(layer.name))
      && (Run(IngestTar(layer.tempPath, LayerLocation(layer.name), s.repo)) in es <==> NeedsIngest(s, layer))
      && (!NeedsIngest(s, layer) ==> forall e :: e in es ==> !e.Run?)
      && (IngestFails(s, layer, started) ==>
            es[|es| - 2..] == [Run(Abort(s.repo)), Run(DeleteIngested(LayerLocation(layer.name), s.repo))])
      && (Run(Abort(s.repo)) in es || Run(DeleteIngested(LayerLocation(layer.name), s.repo)) in es ==>
            IngestFails(s, layer, started))
      && (RemoveTemp(layer.tempPath) in es <==> !IngestFails(s, layer, started))
      && forall e :: e in es ==> !e.Complete?
  {
    PassShape(s, layer, started);
    RunsOnlyOnIngest(s, layer, started);
    CleanupOnlyOnFailure(s, layer, started);
    TempKeptOnlyOnFailure(s, layer, started);
  }

  /** The three shapes a pass can take: skipped, ingested, failed. */
  lemma PassShape(s: Setting, layer: Layer, started: bool)
    requires IsSegment(s.repo) && ValidLayerName(layer.name)
    ensures var es := LayerEvents(s, layer, started);
      var publish := Publish(layer.name, PublishedLocation(s.repo, layer.name), LayerMetadata(layer.name));
      var ingest := Run(IngestTar(layer.tempPath, LayerLocation(layer.name), s.repo));
      && (!NeedsIngest(s, layer) ==> es == [publish, RemoveTemp(layer.tempPath)])
      && (NeedsIngest(s, layer) && started ==> es == [publish, ingest, RemoveTemp(layer.tempPath)])
      && (IngestFails(s, layer, started) ==>
            es == [publish, ingest, Run(Abort(s.repo)), Run(DeleteIngested(LayerLocation(layer.name), s.repo))])
  {
  }

  /** A pass runs a command only when its layer needs ingesting, and then
      the ingest of that layer's tar file is one of them; no pass completes
      the run. */
  lemma RunsOnlyOnIngest(s: Setting, layer: Layer, started: bool)
    requires IsSegment(s.repo) && ValidLayerName(layer.name)
    ensures var es := LayerEvents(s, layer, started);
      && (Run(IngestTar(layer.tempPath, LayerLocation(layer.name), s.repo)) in es <==> NeedsIngest(s, layer))
      && (!NeedsIngest(s, layer) ==> forall e :: e in es ==> !e.Run?)
      && forall e :: e in es ==> !e.Complete?
  {
    PassShape(s, layer, started);
  }

  /** Only a failed ingest issues the abort or the delete of the layer's
      content path; the pass of a skipped or ingested layer issues neither. */
  lemma CleanupOnlyOnFailure(s: Setting, layer: Layer, started: bool)
    requires IsSegment(s.repo) && ValidLayerName(layer.name)
    ensures var es := LayerEvents(s, layer, started);
      Run(Abort(s.repo)) in es || Run(DeleteIngested(LayerLocation(layer.name), s.repo)) in es ==>
        IngestFails(s, layer, started)
  {
    PassShape(s, layer, started);
  }

  /** The temporary tar file is removed exactly when the ingest did not fail. */
  lemma TempKeptOnlyOnFailure(s: Setting, layer: Layer, started: bool)
    requires IsSegment(s.repo) && ValidLayerName(layer.name)
    ensures RemoveTemp(layer.tempPath) in LayerEvents(s, layer, started) <==> !IngestFails(s, layer, started)
  {
    PassShape(s, layer, started);
  }

  /** The events of the first `n` passes, none of which but possibly the
      last has failed. */
  function Steps(s: Setting, layers: seq<Layer>, starts: seq<bool>, n: nat): (es: seq<Event>)
    requires WellFormed(s, layers, starts) && n <= |layers|
  {
    if n == 0 then []
    else Steps(s, layers, starts, n - 1) + LayerEvents(s, layers[n - 1], starts[n - 1])
  }

  /** The ingestion goroutine. It ends when the layers run out or at the
      first failed ingest, and then sends its completion flag. `consumed` is
      the number of layers taken from the channel. */
  method IngestLayers(s: Setting, layers: seq<Layer>, starts: seq<bool>)
    returns (events: seq<Event>, consumed: nat, noErrors: bool)
    requires WellFormed(s, layers, starts)
    ensures consumed <= |layers|
    ensures noErrors <==> AllIngested(s, layers, starts)
    ensures noErrors ==> consumed == |layers|
    ensures !noErrors ==>
      && 0 < consumed
      && IngestFails(s, layers[consumed - 1], starts[consumed - 1])
      && forall i {:trigger IngestFails(s, layers[i], starts[i])} :: 0 <= i < consumed - 1 ==> !IngestFails(s, layers[i], starts[i])
    ensures events == Steps(s, layers, starts, consumed) + [Complete(noErrors)]
  {
    events, consumed, noErrors := [], 0, true;
    while consumed < |layers|
      invariant consumed <= |layers| && noErrors
      invariant forall i {:trigger IngestFails(s, layers[i], starts[i])} :: 0 <= i < consumed ==> !IngestFails(s, layers[i], starts[i])
      invariant events == Steps(s, layers, starts, consumed)
    {
      var n := consumed;
      var pass, failed := IngestLayer(s, layers[n], starts[n]);
      events := events + pass;
      consumed := n + 1;
      assert events == Steps(s, layers, starts, n + 1);
      if failed {
        noErrors := false;
        break;
      }
    }
    events := events + [Complete(noErrors)];
  }

  /** One pass of the loop body: derive the layer's paths, publish its
      location, ingest it when it is missing or the download is forced, and
      either remove its temporary file or, when the ingest command does not
      start, run the cleanup (abort, then delete the content path) and
      report the failure. */
  method IngestLayer(s: Setting, layer: Layer, started: bool) returns (pass: seq<Event>, failed: bool)
    requires IsSegment(s.repo) && ValidLayerName(layer.name)
    ensures pass == LayerEvents(s, layer, started)
    ensures failed == IngestFails(s, layer, started)
  {
    var layerRepoLocationRoot := RepoRoot(s.repo);
    var layerDigest := DigestOf(layer.name);
    var layerLocation := ContentPath(layerDigest);
    var layerMetadata := MetadataPath(layerDigest);
    var layerPath := JoinUnder(Absolute([MountDir, s.repo]), layerLocation);
    var pathExists := layerPath in s.tree;
    pass := [Publish(layer.name, JoinUnder(layerRepoLocationRoot, layerLocation), layerMetadata)];
    failed := false;
    if !pathExists || s.forceDownload {
      pass := pass + [Run(IngestTar(layer.tempPath, layerLocation, s.repo))];
      if !started {
        pass := pass + [Run(Abort(s.repo)), Run(DeleteIngested(layerLocation, s.repo))];
        return pass, true;
      }
    }
    pass := pass + [RemoveTemp(layer.tempPath)];
  }

  /** No pass sends the completion flag, so the loop sends it exactly once,
      as its last event. */
  lemma {:induction false} StepsNeverComplete(s: Setting, layers: seq<Layer>, starts: seq<bool>, n: nat)
    requires WellFormed(s, layers, starts) && n <= |layers|
    ensures forall k :: 0 <= k < |Steps(s, layers, starts, n)| ==> !Steps(s, layers, starts, n)[k].Complete?
  {
    if n > 0 {
      StepsNeverComplete(s, layers, starts, n - 1);
      LayerEventsFacts(s, layers[n - 1], starts[n - 1]);
      var prev: seq<Event> := Steps(s, layers, starts, n - 1);
      var last: seq<Event> := LayerEvents(s, layers[n - 1], starts[n - 1]);
      forall k | 0 <= k < |prev + last|
        ensures !(prev + last)[k].Complete?
      {
        if k >= |prev| {
          assert (prev + last)[k] == last[k - |prev|];
          assert last[k - |prev|] in last;
        }
      }
    }
  }

  // ---------------------------------------------------------------------
  // What the aggregators receive
  // ---------------------------------------------------------------------

  /** The pairs sent on `layerRepoLocationChan`, in the order they are
      handed off. */
  function LocationsSent(es: seq<Event>): (sent: seq<LayerRepoLocation>)
    ensures |sent| <= |es|
  {
    if es == [] then []
    else
      LocationsSent(es[..|es| - 1])
      + match es[|es| - 1]
        case Publish(name, location, _) => [LayerRepoLocation(name, location)]
        case _ => []
  }

  /** The paths sent on `layerMetadataLocationChan`, in the order they are
      handed off. */
  function MetadataSent(es: seq<Event>): (sent: seq<string>)
    ensures |sent| <= |es|
  {
    if es == [] then []
    else
      MetadataSent(es[..|es| - 1])
      + match es[|es| - 1]
        case Publish(_, _, metadata) => [metadata]
        case _ => []
  }

  lemma {:induction false} SentDistributes(a: seq<Event>, b: seq<Event>)
    ensures LocationsSent(a + b) == LocationsSent(a) + LocationsSent(b)
    ensures MetadataSent(a + b) == MetadataSent(a) + MetadataSent(b)
    decreases |b|
  {
    if b == [] {
      assert a + b == a;
    } else {
      var b' := b[..|b| - 1];
      assert (a + b)[..|a + b| - 1] == a + b';
      SentDistributes(a, b');
    }
  }

  /** The (name, location) pair every taken layer publishes. */
  function PairsOf(repo: string, layers: seq<Layer>): (pairs: seq<LayerRepoLocation>)
    requires IsSegment(repo) && ValidNames(layers)
    ensures |pairs| == |layers|
  {
    if layers == [] then []
    else
      var last := layers[|layers| - 1];
      PairsOf(repo, layers[..|layers| - 1]) + [LayerRepoLocation(last.name, PublishedLocation(repo, last.name))]
  }

  /** The metadata path every taken layer publishes. */
  function MetadataOf(layers: seq<Layer>): (paths: seq<string>)
    requires ValidNames(layers)
    ensures |paths| == |layers|
  {
    if layers == [] then []
    else MetadataOf(layers[..|layers| - 1]) + [LayerMetadata(layers[|layers| - 1].name)]
  }

  /** Every layer the loop takes publishes exactly one pair and one
      metadata path, in the order the layers were taken; this includes the
      layer whose ingest failed, since it publishes before ingesting. */
  lemma {:induction false} StepsSend(s: Setting, layers: seq<Layer>, starts: seq<bool>, n: nat)
    requires WellFormed(s, layers, starts) && n <= |layers|
    ensures LocationsSent(Steps(s, layers, starts, n)) == PairsOf(s.repo, layers[..n])
    ensures MetadataSent(Steps(s, layers, starts, n)) == MetadataOf(layers[..n])
  {
    if n == 0 {
      assert layers[..0] == [];
    } else {
      StepsSend(s, layers, starts, n - 1);
      var prev := Steps(s, layers, starts, n - 1);
      var pass := LayerEvents(s, layers[n - 1], starts[n - 1]);
      assert Steps(s, layers, starts, n) == prev + pass;
      SentDistributes(prev, pass);
      PassSends(s, layers[n - 1], starts[n - 1]);
      assert layers[..n][..n - 1] == layers[..n - 1];
    }
  }

  /** One pass publishes exactly its layer's pair and metadata path. */
  lemma PassSends(s: Setting, layer: Layer, started: bool)
    requires IsSegment(s.repo) && ValidLayerName(layer.name)
    ensures LocationsSent(LayerEvents(s, layer, started))
         == [LayerRepoLocation(layer.name, PublishedLocation(s.repo, layer.name))]
    ensures MetadataSent(LayerEvents(s, layer, started)) == [LayerMetadata(layer.name)]
  {
    var pass := LayerEvents(s, layer, started);
    var rest := pass[1..];
    assert pass == [pass[0]] + rest;
    SentDistributes([pass[0]], rest);
    assert [pass[0]][..0] == [];
    assert forall k :: 0 <= k < |rest| ==> !rest[k].Publish?;
    NothingSent(rest);
  }

  /** A stretch of events without a publication sends nothing. */
  lemma {:induction false} NothingSent(es: seq<Event>)
    requires forall k :: 0 <= k < |es| ==> !es[k].Publish?
    ensures LocationsSent(es) == [] && MetadataSent(es) == []
  {
    if es != [] {
      NothingSent(es[..|es| - 1]);
    }
  }

}
