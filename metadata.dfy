/** `mg_toolkit/metadata.py`: the run table of a study's original sample
    metadata, one CSV per study accession. */
module Metadata {
  import opened Wrappers
  import opened Dicts
  import opened Seqs

  // ---------------------------------------------------------------------
  // One sample's attributes

  /** One `SAMPLE_ATTRIBUTE` element of a sample's XML record; a missing
      `TAG` or `VALUE` child is `None`. */
  datatype Attribute = Attribute(tag: Option<string>, value: Option<string>)

  /** The dictionary `get_metadata` builds: every attribute with a tag, in
      document order, assigns `meta[tag] = value`. */
  function AttributeMeta(attrs: seq<Attribute>): map<string, Option<string>>
    decreases |attrs|
  {
    if attrs == [] then map[]
    else
      var meta := AttributeMeta(attrs[..|attrs| - 1]);
      var a := attrs[|attrs| - 1];
      if a.tag.Some? then meta[a.tag.value := a.value] else meta
  }

  /** `get_metadata`, given the attributes of the sample's record. */
  method GetMetadata(attrs: seq<Attribute>) returns (meta: map<string, Option<string>>)
    ensures meta == AttributeMeta(attrs)
  {
    meta := map[];
    var i := 0;
    while i < |attrs|
      invariant 0 <= i <= |attrs|
      invariant meta == AttributeMeta(attrs[..i])
    {
      var m := attrs[i];
      assert attrs[..i + 1][..i] == attrs[..i];
      i := i + 1;
      if m.tag.None? {
        continue;
      }
      // a missing VALUE is caught and becomes None
      var value := m.value;
      meta := meta[m.tag.value := value];
    }
    assert attrs[..i] == attrs;
  }

  /** The keys are exactly the tags that occur. */
  lemma {:induction false} AttributeMetaKeys(attrs: seq<Attribute>)
    ensures AttributeMeta(attrs).Keys ==
            set i | 0 <= i < |attrs| && attrs[i].tag.Some? :: attrs[i].tag.value
    decreases |attrs|
  {
    if attrs != [] {
      var init := attrs[..|attrs| - 1];
      AttributeMetaKeys(init);
      assert forall i :: 0 <= i < |init| ==> init[i] == attrs[i];
    }
  }

  /** A tag holds the value of its last attribute, `None` when that one has
      no `VALUE`. */
  lemma {:induction false} AttributeMetaLastWins(attrs: seq<Attribute>, i: nat)
    requires i < |attrs| && attrs[i].tag.Some?
    requires forall j :: i < j < |attrs| ==> attrs[j].tag != attrs[i].tag
    ensures attrs[i].tag.value in AttributeMeta(attrs)
    ensures AttributeMeta(attrs)[attrs[i].tag.value] == attrs[i].value
    decreases |attrs|
  {
    var init := attrs[..|attrs| - 1];
    if i < |attrs| - 1 {
      assert init[i] == attrs[i];
      AttributeMetaLastWins(init, i);
    }
  }

  /** An attribute without a tag contributes nothing, wherever it stands. */
  lemma {:induction false} UntaggedSkipped(before: seq<Attribute>, a: Attribute, after: seq<Attribute>)
    requires a.tag.None?
    ensures AttributeMeta(before + [a] + after) == AttributeMeta(before + after)
    decreases |after|
  {
    if after == [] {
      assert before + [a] + after == before + [a];
      assert (before + [a])[..|before|] == before;
      assert before + after == before;
    } else {
      var init := after[..|after| - 1];
      var x := after[|after| - 1];
      UntaggedSkipped(before, a, init);
      assert (before + [a] + after)[..|before + [a] + after| - 1] == before + [a] + init;
      assert (before + after)[..|before + after| - 1] == before + init;
      assert (before + [a] + after)[|before + [a] + after| - 1] == x;
      assert (before + after)[|before + after| - 1] == x;
    }
  }

  // ---------------------------------------------------------------------
  // The runs of a study

  /** One record of the read-run search: `run_accession`,
      `secondary_sample_accession` and `depth`. */
  datatype RunRecord = RunRecord(run: string, sample: string, depth: string)

  /** The read-run search's reply: not JSON, or the list of records. */
  datatype RunsReply = NotJson | Records(records: seq<RunRecord>)

  /** The value of `_accessions[run]`. */
  datatype SampleRef = SampleRef(sampleAccession: string, readDepth: string)

  /** The comprehension's pairs, in response order. */
  function RunPairs(records: seq<RunRecord>): seq<(string, SampleRef)> {
    seq(|records|, i requires 0 <= i < |records| => (records[i].run, SampleRef(records[i].sample, records[i].depth)))
  }

  /** `_accessions`: each run accession to its sample and read depth. */
  function RunSamples(records: seq<RunRecord>): map<string, SampleRef> {
    PutAll(RunPairs(records))
  }

  /** One entry per run accession; a repeated run keeps its last record. */
  lemma RunSamplesShape(records: seq<RunRecord>, i: nat)
    ensures RunSamples(records).Keys == set k | 0 <= k < |records| :: records[k].run
    ensures i < |records| && (forall j :: i < j < |records| ==> records[j].run != records[i].run) ==>
              records[i].run in RunSamples(records) &&
              RunSamples(records)[records[i].run] == SampleRef(records[i].sample, records[i].depth)
  {
    var pairs := RunPairs(records);
    PutAllKeys(pairs);
    assert |pairs| == |records|;
    assert forall k :: 0 <= k < |pairs| ==> pairs[k].0 == records[k].run;
    assert (set k | 0 <= k < |pairs| :: pairs[k].0) == set k | 0 <= k < |records| :: records[k].run;
    if i < |records| && forall j :: i < j < |records| ==> records[j].run != records[i].run {
      PutAllLastWins(pairs, i);
    }
  }

  /** The runs in the order `_accessions.items()` yields them. */
  function RunOrder(records: seq<RunRecord>): seq<string> {
    InsertionOrder(RunPairs(records))
  }

  /** A run's row: its sample's attributes, then `Sample` and `Read depth`. */
  function RunRow(ref: SampleRef, attrsOf: string -> seq<Attribute>): map<string, Option<string>> {
    AttributeMeta(attrsOf(ref.sampleAccession))["Sample" := Some(ref.sampleAccession)]["Read depth" := Some(ref.readDepth)]
  }

  /** `Sample` and `Read depth` override attributes of the same name; every
      other column is the sample's attribute. */
  lemma RunRowColumns(ref: SampleRef, attrsOf: string -> seq<Attribute>)
    ensures var row := RunRow(ref, attrsOf);
            var meta := AttributeMeta(attrsOf(ref.sampleAccession));
            row.Keys == meta.Keys + {"Sample", "Read depth"} &&
            row["Sample"] == Some(ref.sampleAccession) &&
            row["Read depth"] == Some(ref.readDepth) &&
            (forall k :: k in meta && k != "Sample" && k != "Read depth" ==> row[k] == meta[k])
  {
  }

  /** `meta_csv`: every run accession to its row. */
  function RunTable(records: seq<RunRecord>, attrsOf: string -> seq<Attribute>): map<string, map<string, Option<string>>> {
    var runs := RunSamples(records);
    map run | run in runs :: RunRow(runs[run], attrsOf)
  }

  /** The sample accessions `get_metadata` is called with, one per run in
      iteration order. */
  function SamplesFetched(records: seq<RunRecord>): seq<string> {
    var order := RunOrder(records);
    var runs := RunSamples(records);
    InsertionOrderKeys(RunPairs(records));
    seq(|order|, k requires 0 <= k < |order| => runs[order[k]].sampleAccession)
  }

  /** A Python value as the cache test sees it: `_sample` is `None` or a
      sample accession, `sample` is a record. */
  datatype PyValue = PyNone | PyStr(s: string) | PyRecord(ref: SampleRef)

  /** The loop of `original_metadata` over one study's runs. The cache test
      compares a record with `None` or a string, so it never holds and the
      metadata is fetched again for every run. `meta` is `_meta`, to which
      `Sample` and `Read depth` are also written, being the same dictionary
      as the row. */
  method AssembleRunTable(records: seq<RunRecord>, attrsOf: string -> seq<Attribute>)
    returns (metaCsv: map<string, map<string, Option<string>>>, fetched: seq<string>)
    ensures metaCsv == RunTable(records, attrsOf)
    ensures fetched == SamplesFetched(records)
  {
    var accessions := PutAll(RunPairs(records));
    var order := InsertionOrder(RunPairs(records));
    InsertionOrderKeys(RunPairs(records));
    metaCsv, fetched := VisitRuns(order, accessions, attrsOf);
    RunTableByRows(metaCsv, records, attrsOf);
    assert fetched == SamplesFetched(records);
  }

  /** A table with a row for each run and nothing else is `RunTable`. */
  lemma RunTableByRows(m: map<string, map<string, Option<string>>>, records: seq<RunRecord>, attrsOf: string -> seq<Attribute>)
    requires forall r :: r in m <==> r in RunSamples(records)
    requires forall r :: r in m ==> m[r] == RunRow(RunSamples(records)[r], attrsOf)
    ensures m == RunTable(records, attrsOf)
  {
  }

  /** The loop over `_accessions.items()`, given as the runs in order and
      the dictionary. */
  method VisitRuns(order: seq<string>, accessions: map<string, SampleRef>, attrsOf: string -> seq<Attribute>)
    returns (metaCsv: map<string, map<string, Option<string>>>, fetched: seq<string>)
    requires forall r :: r in order ==> r in accessions
    ensures forall r :: r in metaCsv <==> r in order
    ensures forall r :: r in metaCsv ==> metaCsv[r] == RunRow(accessions[r], attrsOf)
    ensures |fetched| == |order|
    ensures forall k :: 0 <= k < |order| ==> fetched[k] == accessions[order[k]].sampleAccession
  {
    metaCsv, fetched := map[], [];
    var prev := PyNone;
    var meta: map<string, Option<string>> := map[];
    var i := 0;
    while i < |order|
      invariant 0 <= i <= |order|
      invariant !prev.PyRecord?
      invariant forall r :: r in metaCsv <==> r in order[..i]
      invariant forall r :: r in metaCsv ==> metaCsv[r] == RunRow(accessions[r], attrsOf)
      invariant |fetched| == i
      invariant forall k :: 0 <= k < i ==> fetched[k] == accessions[order[k]].sampleAccession
    {
      var run := order[i];
      assert run in order;
      var sample := accessions[run];
      meta, fetched := VisitRun(sample, prev, meta, fetched, attrsOf);
      metaCsv := metaCsv[run := meta];
      prev := PyStr(sample.sampleAccession);
      assert order[..i + 1] == order[..i] + [run];
      i := i + 1;
    }
    assert order[..i] == order;
  }

  /** One iteration over the runs: the cache test fails, the metadata is
      fetched, and `Sample` and `Read depth` are set in it. */
  method VisitRun(sample: SampleRef, prev: PyValue, meta: map<string, Option<string>>, fetched: seq<string>,
                  attrsOf: string -> seq<Attribute>)
    returns (meta': map<string, Option<string>>, fetched': seq<string>)
    requires !prev.PyRecord?
    ensures meta' == RunRow(sample, attrsOf)
    ensures fetched' == fetched + [sample.sampleAccession]
  {
    meta', fetched' := meta, fetched;
    if PyRecord(sample) != prev {
      meta' := GetMetadata(attrsOf(sample.sampleAccession));
      fetched' := fetched' + [sample.sampleAccession];
    }
    meta' := meta'["Sample" := Some(sample.sampleAccession)]["Read depth" := Some(sample.readDepth)];
  }

  /** `get_metadata` runs once for each distinct run accession. */
  lemma FetchesOncePerRun(records: seq<RunRecord>)
    ensures |SamplesFetched(records)| == |RunSamples(records)|
  {
    var order := InsertionOrder(RunPairs(records));
    InsertionOrderKeys(RunPairs(records));
    DistinctCard(order);
    assert (set r | r in order) == RunSamples(records).Keys;
  }

  // ---------------------------------------------------------------------
  // One file per study

  /** A table written by `df.to_csv`: file name, index label and rows. */
  datatype CsvFile = CsvFile(name: string, indexLabel: string, table: map<string, map<string, Option<string>>>)

  /** The file written for one study accession, if its reply is JSON. */
  function ExportOf(accession: string, reply: RunsReply, attrsOf: string -> seq<Attribute>): seq<CsvFile> {
    match reply
    case NotJson => []
    case Records(records) => [CsvFile(accession + ".csv", "Run", RunTable(records, attrsOf))]
  }

  function ExportFor(searchRuns: string -> RunsReply, attrsOf: string -> seq<Attribute>): string -> seq<CsvFile> {
    a => ExportOf(a, searchRuns(a), attrsOf)
  }

  /** The files `original_metadata` writes, in argument order. */
  function Exports(accessions: seq<string>, searchRuns: string -> RunsReply, attrsOf: string -> seq<Attribute>): seq<CsvFile> {
    FlatMap(accessions, ExportFor(searchRuns, attrsOf))
  }

  /** `original_metadata`: one run table per study; a reply that is not JSON
      is logged and skipped. */
  method OriginalMetadata(accessions: seq<string>, searchRuns: string -> RunsReply, attrsOf: string -> seq<Attribute>)
    returns (files: seq<CsvFile>)
    ensures files == Exports(accessions, searchRuns, attrsOf)
  {
    files := [];
    var i := 0;
    while i < |accessions|
      invariant 0 <= i <= |accessions|
      invariant files == Exports(accessions[..i], searchRuns, attrsOf)
    {
      var accession := accessions[i];
      assert accessions[..i + 1][..i] == accessions[..i];
      i := i + 1;
      var resp := searchRuns(accession);
      FlatMapSnoc(accessions[..i - 1], accession, ExportFor(searchRuns, attrsOf));
      if resp.NotJson? {
        continue;
      }
      var metaCsv, _ := AssembleRunTable(resp.records, attrsOf);
      files := files + [CsvFile(accession + ".csv", "Run", metaCsv)];
    }
    assert accessions[..i] == accessions;
  }

  /** Study `i` contributes exactly its own file `"{accession}.csv"`, between
      those of the studies before and after it, or nothing when its reply is
      not JSON. */
  lemma ExportsAt(accessions: seq<string>, i: nat, searchRuns: string -> RunsReply, attrsOf: string -> seq<Attribute>)
    requires i < |accessions|
    ensures var a := accessions[i];
            var before := Exports(accessions[..i], searchRuns, attrsOf);
            var after := Exports(accessions[i + 1..], searchRuns, attrsOf);
            (searchRuns(a).NotJson? ==> Exports(accessions, searchRuns, attrsOf) == before + after) &&
            (searchRuns(a).Records? ==>
               Exports(accessions, searchRuns, attrsOf) ==
               before + [CsvFile(a + ".csv", "Run", RunTable(searchRuns(a).records, attrsOf))] + after)
  {
    FlatMapAt(accessions, i, ExportFor(searchRuns, attrsOf));
  }
}
