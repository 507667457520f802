/** The two aggregators of a conversion: one drains the published
    (layer name, location) pairs into the `layerLocations` map handed to the
    thin-image builder, the other appends every published metadata path to
    the list handed to the backlink writer.

    The pairs arrive through hand-off goroutines, so their arrival order is
    not the publication order. The map is shown to be the same for every
    arrival order of the pairs the ingestion loop publishes. */
module Aggregation {
  import opened Layout
  import opened Ingestion

  /** The map left after storing the pairs in arrival order, a later pair
      overwriting an earlier one. */
  function LocationMap(arrivals: seq<LayerRepoLocation>): map<string, string> {
    if arrivals == [] then map[]
    else
      var last := arrivals[|arrivals| - 1];
      LocationMap(arrivals[..|arrivals| - 1])[last.digest := last.location]
  }

  /** One entry per full layer name received. */
  lemma {:induction false} LocationMapKeys(arrivals: seq<LayerRepoLocation>)
    ensures LocationMap(arrivals).Keys == set i | 0 <= i < |arrivals| :: arrivals[i].digest
  {
    if arrivals != [] {
      var init, last := arrivals[..|arrivals| - 1], arrivals[|arrivals| - 1];
      LocationMapKeys(init);
      assert LocationMap(arrivals).Keys == (set i | 0 <= i < |init| :: init[i].digest) + {last.digest};
      assert forall i | 0 <= i < |init| :: init[i] == arrivals[i];
    }
  }

  /** The location aggregator: `layerLocations[l.Digest] = l.Location` for
      every pair received. */
  method CollectLocations(arrivals: seq<LayerRepoLocation>) returns (layerLocations: map<string, string>)
    ensures layerLocations == LocationMap(arrivals)
  {
    layerLocations := map[];
    for n := 0 to |arrivals|
      invariant layerLocations == LocationMap(arrivals[..n])
    {
      assert arrivals[..n + 1][..n] == arrivals[..n];
      layerLocations := layerLocations[arrivals[n].digest := arrivals[n].location];
    }
    assert arrivals[..|arrivals|] == arrivals;
  }

  /** The metadata aggregator: appends every path received, in arrival
      order, so the list holds exactly what was sent. */
  method CollectMetadata(arrivals: seq<string>) returns (layerMetadataLocations: seq<string>)
    ensures |layerMetadataLocations| == |arrivals|
    ensures forall k :: 0 <= k < |arrivals| ==> layerMetadataLocations[k] == arrivals[k]
  {
    layerMetadataLocations := [];
    for n := 0 to |arrivals|
      invariant layerMetadataLocations == arrivals[..n]
    {
      layerMetadataLocations := layerMetadataLocations + [arrivals[n]];
    }
  }

  /** The entry for a name is the location of the last pair carrying it. */
  lemma {:induction false} LastArrivalWins(arrivals: seq<LayerRepoLocation>, i: nat)
    requires i < |arrivals|
    requires forall j :: i < j < |arrivals| ==> arrivals[j].digest != arrivals[i].digest
    ensures arrivals[i].digest in LocationMap(arrivals)
    ensures LocationMap(arrivals)[arrivals[i].digest] == arrivals[i].location
  {
    var init := arrivals[..|arrivals| - 1];
    if i < |arrivals| - 1 {
      forall j | i < j < |init| ensures init[j].digest != init[i].digest {
        assert init[j] == arrivals[j];
      }
      LastArrivalWins(init, i);
      assert init[i] == arrivals[i];
    }
  }

  /** Pairs in which the location is a function of the name. */
  predicate Consistent(pairs: seq<LayerRepoLocation>) {
    forall i, j :: 0 <= i < |pairs| && 0 <= j < |pairs| && pairs[i].digest == pairs[j].digest ==>
      pairs[i].location == pairs[j].location
  }

  /** With consistent pairs, every pair received is what the map holds for
      its name. */
  lemma {:induction false} ConsistentEntries(arrivals: seq<LayerRepoLocation>, k: nat)
    requires Consistent(arrivals) && k < |arrivals|
    ensures arrivals[k].digest in LocationMap(arrivals)
    ensures LocationMap(arrivals)[arrivals[k].digest] == arrivals[k].location
  {
    var d := arrivals[k].digest;
    var last :| k <= last < |arrivals| && arrivals[last].digest == d
             && forall j :: last < j < |arrivals| ==> arrivals[j].digest != d
      by { LastOccurrence(arrivals, k); }
    LastArrivalWins(arrivals, last);
  }

  /** Some occurrence of a name is the last one. */
  lemma {:induction false} LastOccurrence(arrivals: seq<LayerRepoLocation>, k: nat)
    requires k < |arrivals|
    ensures exists last :: k <= last < |arrivals| && arrivals[last].digest == arrivals[k].digest
              && forall j :: last < j < |arrivals| ==> arrivals[j].digest != arrivals[k].digest
    decreases |arrivals| - k
  {
    if exists j :: k < j < |arrivals| && arrivals[j].digest == arrivals[k].digest {
      var j :| k < j < |arrivals| && arrivals[j].digest == arrivals[k].digest;
      LastOccurrence(arrivals, j);
    } else {
      var last := k;
      assert k <= last < |arrivals| && arrivals[last].digest == arrivals[k].digest;
      assert forall j :: last < j < |arrivals| ==> arrivals[j].digest != arrivals[k].digest;
    }
  }

  /** The final map does not depend on the arrival order: any two orders of
      the same consistent pairs give the same map. */
  lemma ArrivalOrderIrrelevant(a: seq<LayerRepoLocation>, b: seq<LayerRepoLocation>)
    requires multiset(a) == multiset(b)
    requires Consistent(a)
    ensures LocationMap(a) == LocationMap(b)
  {
    SameMembers(a, b);
    ConsistentMembers(a, b);
    SameKeys(a, b);
    var ma, mb := LocationMap(a), LocationMap(b);
    forall d | d in ma.Keys ensures ma[d] == mb[d] {
      LocationMapKeys(a);
      var i :| 0 <= i < |a| && a[i].digest == d;
      assert a[i] in b;
      var j :| 0 <= j < |b| && b[j] == a[i];
      ConsistentEntries(a, i);
      ConsistentEntries(b, j);
    }
  }

  /** Two orders of the same pairs hold the same pairs. */
  lemma SameMembers(a: seq<LayerRepoLocation>, b: seq<LayerRepoLocation>)
    requires multiset(a) == multiset(b)
    ensures forall p :: p in a <==> p in b
  {
    forall p ensures p in a <==> p in b {
      assert p in a <==> p in multiset(a);
      assert p in b <==> p in multiset(b);
    }
  }

  /** Consistency depends only on which pairs are present. */
  lemma ConsistentMembers(a: seq<LayerRepoLocation>, b: seq<LayerRepoLocation>)
    requires forall p :: p in a <==> p in b
    requires Consistent(a)
    ensures Consistent(b)
  {
    forall i, j | 0 <= i < |b| && 0 <= j < |b| && b[i].digest == b[j].digest
      ensures b[i].location == b[j].location
    {
      assert b[i] in a && b[j] in a;
      var i' :| 0 <= i' < |a| && a[i'] == b[i];
      var j' :| 0 <= j' < |a| && a[j'] == b[j];
    }
  }

  /** The same pairs give the same names. */
  lemma SameKeys(a: seq<LayerRepoLocation>, b: seq<LayerRepoLocation>)
    requires forall p :: p in a <==> p in b
    ensures LocationMap(a).Keys == LocationMap(b).Keys
  {
    LocationMapKeys(a);
    LocationMapKeys(b);
    forall d ensures d in LocationMap(a).Keys <==> d in LocationMap(b).Keys {
      if d in LocationMap(a).Keys {
        var i :| 0 <= i < |a| && a[i].digest == d;
        assert a[i] in b;
        var j :| 0 <= j < |b| && b[j] == a[i];
      }
      if d in LocationMap(b).Keys {
        var j :| 0 <= j < |b| && b[j].digest == d;
        assert b[j] in a;
        var i :| 0 <= i < |a| && a[i] == b[j];
      }
    }
  }

  /** The pairs the ingestion loop publishes name each layer with its
      published location, so they are consistent. */
  lemma {:induction false} PublishedPairs(repo: string, layers: seq<Layer>)
    requires IsSegment(repo) && ValidNames(layers)
    ensures forall k :: 0 <= k < |layers| ==>
      PairsOf(repo, layers)[k] == LayerRepoLocation(layers[k].name, PublishedLocation(repo, layers[k].name))
    ensures Consistent(PairsOf(repo, layers))
  {
    if layers != [] {
      var init := layers[..|layers| - 1];
      PublishedPairs(repo, init);
      forall k | 0 <= k < |layers|
        ensures PairsOf(repo, layers)[k] == LayerRepoLocation(layers[k].name, PublishedLocation(repo, layers[k].name))
      {
        if k < |init| { assert init[k] == layers[k]; }
      }
    }
  }

  /** The map built from what the loop publishes: exactly the names of the
      layers taken, each mapped to its published location. */
  lemma PublishedMap(repo: string, layers: seq<Layer>)
    requires IsSegment(repo) && ValidNames(layers)
    ensures LocationMap(PairsOf(repo, layers)).Keys == set i | 0 <= i < |layers| :: layers[i].name
    ensures forall i :: 0 <= i < |layers| ==>
      LocationMap(PairsOf(repo, layers))[layers[i].name] == PublishedLocation(repo, layers[i].name)
  {
    var pairs := PairsOf(repo, layers);
    PublishedPairs(repo, layers);
    LocationMapKeys(pairs);
    assert (set i | 0 <= i < |pairs| :: pairs[i].digest) == set i | 0 <= i < |layers| :: layers[i].name;
    forall i | 0 <= i < |layers|
      ensures LocationMap(pairs)[layers[i].name] == PublishedLocation(repo, layers[i].name)
    {
      ConsistentEntries(pairs, i);
    }
  }

}
