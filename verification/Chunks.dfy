/** The chunks a series is sent in, and the series list as a whole. A chunk stands for what its XOR encoding
    decodes to. */
module Chunks {
  import opened LabelSets
  import opened Domain
  import opened SeriesBuilder
  import Timestamps
  import Sorting

  const MAX_SAMPLES_PER_CHUNK := 120

  datatype Chunk = Chunk(minTime: int, maxTime: int, data: seq<TimedValue>)

  /** `storepb.Series`. */
  datatype Series = Series(labels: Labels, chunks: seq<Chunk>)

  /** Where the k-th chunk of n samples ends. */
  function CutAt(k: int, n: int): int { Timestamps.Min(k * MAX_SAMPLES_PER_CHUNK, n) }

  ghost predicate Encodes(chunk: Chunk, batch: seq<TimedValue>) {
    && batch != [] && chunk.data == batch
    && chunk.minTime == batch[0].timestamp && chunk.maxTime == batch[|batch| - 1].timestamp
  }

  /** As many chunks as it takes, each holding the next 120 samples or what is left of them. */
  ghost predicate Tiles(chunks: seq<Chunk>, samples: seq<TimedValue>) {
    && |chunks| == (|samples| + MAX_SAMPLES_PER_CHUNK - 1) / MAX_SAMPLES_PER_CHUNK
    && (forall k :: 0 <= k < |chunks| ==> IsTile(chunks, samples, k))
  }

  ghost predicate IsTile(chunks: seq<Chunk>, samples: seq<TimedValue>, k: nat)
    requires k < |chunks|
  {
    CutAt(k, |samples|) < CutAt(k + 1, |samples|) &&
    Encodes(chunks[k], samples[CutAt(k, |samples|)..CutAt(k + 1, |samples|)])
  }

  /** `encodeXORChunks`. */
  method EncodeXORChunks(samples: seq<TimedValue>) returns (chunks: seq<Chunk>)
    ensures Tiles(chunks, samples)
  {
    chunks := [];
    var start := 0;
    while start < |samples|
      invariant start == |chunks| * MAX_SAMPLES_PER_CHUNK
      invariant start < |samples| + MAX_SAMPLES_PER_CHUNK
      invariant forall k :: 0 <= k < |chunks| ==> IsTile(chunks, samples, k)
    {
      var end := Timestamps.Min(start + MAX_SAMPLES_PER_CHUNK, |samples|);
      var batch := samples[start..end];
      var data: seq<TimedValue> := [];
      for i := 0 to |batch|
        invariant data == batch[..i]
      {
        data := data + [batch[i]];
      }
      assert batch[..|batch|] == batch;
      var chunk := Chunk(batch[0].timestamp, batch[|batch| - 1].timestamp, data);
      NextTile(chunks, samples, chunk);
      chunks := chunks + [chunk];
      start := start + MAX_SAMPLES_PER_CHUNK;
    }
  }

  lemma NextTile(chunks: seq<Chunk>, samples: seq<TimedValue>, chunk: Chunk)
    requires forall k :: 0 <= k < |chunks| ==> IsTile(chunks, samples, k)
    requires |chunks| * MAX_SAMPLES_PER_CHUNK < |samples|
    requires Encodes(chunk, samples[CutAt(|chunks|, |samples|)..CutAt(|chunks| + 1, |samples|)])
    ensures forall k :: 0 <= k < |chunks + [chunk]| ==> IsTile(chunks + [chunk], samples, k)
  {
    forall k | 0 <= k < |chunks|
      ensures IsTile(chunks + [chunk], samples, k)
    {
      assert IsTile(chunks, samples, k);
    }
  }

  function Contents(chunks: seq<Chunk>): seq<TimedValue> {
    if chunks == [] then [] else Contents(chunks[..|chunks| - 1]) + chunks[|chunks| - 1].data
  }

  lemma {:induction false} ContentsUpTo(chunks: seq<Chunk>, samples: seq<TimedValue>, n: nat)
    requires Tiles(chunks, samples) && n <= |chunks|
    ensures Contents(chunks[..n]) == samples[..CutAt(n, |samples|)]
  {
    if n > 0 {
      ContentsUpTo(chunks, samples, n - 1);
      assert IsTile(chunks, samples, n - 1);
      assert chunks[..n][..n - 1] == chunks[..n - 1];
    }
  }

  /** The chunks put end to end are the samples, and hold 1 to 120 of them each, all but the last 120. */
  lemma TilesAreWhole(chunks: seq<Chunk>, samples: seq<TimedValue>)
    requires Tiles(chunks, samples)
    ensures Contents(chunks) == samples
    ensures forall k :: 0 <= k < |chunks| ==> 1 <= |chunks[k].data| <= 120
    ensures forall k :: 0 <= k < |chunks| - 1 ==> |chunks[k].data| == 120
  {
    ContentsUpTo(chunks, samples, |chunks|);
    assert chunks[..|chunks|] == chunks;
    forall k | 0 <= k < |chunks|
      ensures 1 <= |chunks[k].data| <= 120
      ensures k < |chunks| - 1 ==> |chunks[k].data| == 120
    {
      assert IsTile(chunks, samples, k);
    }
  }

  /** Of samples in order, the bounds of a chunk hold for all of it, and chunks do not overlap. */
  lemma TileBounds(chunks: seq<Chunk>, samples: seq<TimedValue>)
    requires Tiles(chunks, samples) && Sorting.SortedBy(Earlier, samples)
    ensures forall k, i :: 0 <= k < |chunks| && 0 <= i < |chunks[k].data| ==>
      chunks[k].minTime <= chunks[k].data[i].timestamp <= chunks[k].maxTime
    ensures forall k, l :: 0 <= k < l < |chunks| ==> chunks[k].maxTime <= chunks[l].minTime
  {
    forall k, i | 0 <= k < |chunks| && 0 <= i < |chunks[k].data|
      ensures chunks[k].minTime <= chunks[k].data[i].timestamp <= chunks[k].maxTime
    {
      assert IsTile(chunks, samples, k);
      var first, last := CutAt(k, |samples|), CutAt(k + 1, |samples|) - 1;
      assert chunks[k].data[i] == samples[first + i];
      assert i == 0 || !Earlier(samples[first + i], samples[first]);
      assert first + i == last || !Earlier(samples[last], samples[first + i]);
    }
    forall k, l | 0 <= k < l < |chunks|
      ensures chunks[k].maxTime <= chunks[l].minTime
    {
      assert IsTile(chunks, samples, k) && IsTile(chunks, samples, l);
      var last, first := CutAt(k + 1, |samples|) - 1, CutAt(l, |samples|);
      assert last < first;
      assert chunks[k].maxTime == samples[last].timestamp && chunks[l].minTime == samples[first].timestamp;
      assert !Earlier(samples[first], samples[last]);
    }
  }

  /* ---- BuildSeries ---- */

  /** A series as it is sent for an accumulator. */
  ghost predicate Sends(series: Series, acc: Accumulator) {
    series.labels == acc.lset && Tiles(series.chunks, acc.samples)
  }

  ghost predicate AllSent(series: seq<Series>, accumulators: seq<Accumulator>) {
    |series| == |accumulators| && forall k :: 0 <= k < |series| ==> Sends(series[k], accumulators[k])
  }

  /** What the rows have to come out as: the series that occur, by label set, with all their samples. */
  ghost predicate Built(rows: seq<SampleRow>, external: map<string, string>, series: seq<Series>) {
    exists ids, accumulators ::
      Groups(rows, external, ids, accumulators) && Sorting.SortedBy(SeriesBelow, accumulators) &&
      AllSent(series, accumulators)
  }

  /** The loop of `BuildSeries`. */
  method EncodeAll(accumulators: seq<Accumulator>) returns (series: seq<Series>)
    ensures AllSent(series, accumulators)
  {
    series := [];
    for n := 0 to |accumulators|
      invariant AllSent(series, accumulators[..n])
    {
      var acc := accumulators[n];
      var chunks := EncodeXORChunks(acc.samples);
      series := series + [Series(acc.lset, chunks)];
      PrefixGrows(accumulators, n);
    }
    assert accumulators[..|accumulators|] == accumulators;
  }

  /** `BuildSeries`. */
  method BuildSeries(rows: seq<SampleRow>, external: map<string, string>) returns (series: seq<Series>)
    requires AllScanned(rows)
    ensures Built(rows, external, series)
  {
    var accumulators := GroupRowsIntoSeries(rows, external);
    series := EncodeAll(accumulators);
  }

  /** The samples a list of series carries, each with the label set it is carried under. */
  function SentPoints(series: seq<Series>): multiset<Point> {
    if series == [] then multiset{}
    else Tagged(series[0].labels, Contents(series[0].chunks)) + SentPoints(series[1..])
  }

  lemma {:induction false} SentIsAccumulated(series: seq<Series>, accumulators: seq<Accumulator>)
    requires AllSent(series, accumulators)
    ensures SentPoints(series) == Points(accumulators)
    decreases |series|
  {
    if series != [] {
      assert Sends(series[0], accumulators[0]);
      TilesAreWhole(series[0].chunks, accumulators[0].samples);
      SentIsAccumulated(series[1..], accumulators[1..]);
    }
  }

  /** Chunk after chunk in time, each within its bounds and of a fair size. */
  ghost predicate ChunksInOrder(chunks: seq<Chunk>) {
    && (forall k :: 0 <= k < |chunks| ==> 1 <= |chunks[k].data| <= 120)
    && (forall k, i :: 0 <= k < |chunks| && 0 <= i < |chunks[k].data| ==>
          chunks[k].minTime <= chunks[k].data[i].timestamp <= chunks[k].maxTime)
    && (forall k, l :: 0 <= k < l < |chunks| ==> chunks[k].maxTime <= chunks[l].minTime)
  }

  /** A list of series in order, each of a label set by name and of chunks that follow one another in time. */
  ghost predicate InOrder(series: seq<Series>) {
    && (forall i, j :: 0 <= i < j < |series| ==> !LabelsBelow(series[j].labels, series[i].labels))
    && (forall i :: 0 <= i < |series| ==> NamesAscend(series[i].labels) && ChunksInOrder(series[i].chunks))
  }

  lemma SentInOrder(rows: seq<SampleRow>, external: map<string, string>, ids: seq<SeriesId>,
          accumulators: seq<Accumulator>, series: seq<Series>)
    requires Groups(rows, external, ids, accumulators) && Sorting.SortedBy(SeriesBelow, accumulators) &&
             AllSent(series, accumulators)
    ensures InOrder(series)
  {
    forall i, j | 0 <= i < j < |series|
      ensures !LabelsBelow(series[j].labels, series[i].labels)
    {
      assert Sends(series[i], accumulators[i]) && Sends(series[j], accumulators[j]);
      assert !SeriesBelow(accumulators[j], accumulators[i]);
    }
    forall i | 0 <= i < |series|
      ensures NamesAscend(series[i].labels) && ChunksInOrder(series[i].chunks)
    {
      assert Sends(series[i], accumulators[i]) && Holds(rows, external, ids[i], accumulators[i]);
      TilesAreWhole(series[i].chunks, accumulators[i].samples);
      TileBounds(series[i].chunks, accumulators[i].samples);
    }
  }

  /** The list sent is in order, and carries the samples of the rows, under merged labels, and no others. */
  lemma BuiltCarriesRows(rows: seq<SampleRow>, external: map<string, string>, series: seq<Series>)
    requires Built(rows, external, series)
    ensures SentPoints(series) == RowPoints(rows, external) && InOrder(series)
  {
    var ids, accumulators :|
      Groups(rows, external, ids, accumulators) && Sorting.SortedBy(SeriesBelow, accumulators) &&
      AllSent(series, accumulators);
    SentIsAccumulated(series, accumulators);
    GroupsLoseNothing(rows, external, ids, accumulators);
    SentInOrder(rows, external, ids, accumulators, series);
  }

  /** No two series of the list have the same label set when no stored label name is overridden. */
  lemma BuiltStrictly(rows: seq<SampleRow>, external: map<string, string>, series: seq<Series>)
    requires Built(rows, external, series)
    requires forall i :: 0 <= i < |rows| ==> rows[i].labels.map_.Keys !! Overridden(external)
    ensures forall i, j :: 0 <= i < j < |series| ==> LabelsBelow(series[i].labels, series[j].labels)
  {
    var ids, accumulators :|
      Groups(rows, external, ids, accumulators) && Sorting.SortedBy(SeriesBelow, accumulators) &&
      AllSent(series, accumulators);
    StrictWhenApart(rows, external, ids, accumulators);
    forall i, j | 0 <= i < j < |series|
      ensures LabelsBelow(series[i].labels, series[j].labels)
    {
      assert Sends(series[i], accumulators[i]) && Sends(series[j], accumulators[j]);
    }
  }
}
