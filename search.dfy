/** The sequence search of `mg_toolkit/search.py`: the form posted to the
    search service, the sample-then-run metadata lookup, the reshaping of a
    sample document into metadata columns, the flattening of hits into rows,
    and the driver that consumes the command-line arguments. Every HTTP
    exchange is an input function; `html.unescape` is the parameter
    `unescape`. */
module Search {
  import opened Wrappers
  import opened PyText
  import opened Dicts
  import opened Seqs

  /** An argparse value as it sits in `vars(args)`: a string, a float or None. */
  datatype ArgValue = Null | Text(s: string) | Number(x: real)

  /** The settings of a `SequenceSearch` object (set once, in `__init__`). */
  datatype SequenceSearch = SequenceSearch(
    sequence: string,
    database: ArgValue,
    seqEvalue: ArgValue,
    hitEvalue: ArgValue,
    reportSeqEvalue: ArgValue,
    reportHitEvalue: ArgValue,
    seqBitscore: ArgValue,
    hitBitscore: ArgValue,
    reportSeqBitscore: ArgValue,
    reportHitBitscore: ArgValue)

  /** The fields of the POST form, and the names they are sent under. */
  datatype FormKey = SeqDb | Seq | IncE | IncDomE | E | DomE | IncT | IncDomT | T | DomT

  function FormKeyName(k: FormKey): string {
    match k
    case SeqDb => "seqdb"
    case Seq => "seq"
    case IncE => "incE"
    case IncDomE => "incdomE"
    case E => "E"
    case DomE => "domE"
    case IncT => "incT"
    case IncDomT => "incdomT"
    case T => "T"
    case DomT => "domT"
  }

  /** The field `k` is present exactly when the setting `v` is not None,
      and then carries it. */
  predicate Carries(data: map<FormKey, ArgValue>, k: FormKey, v: ArgValue) {
    (k in data <==> v != Null) && (k in data ==> data[k] == v)
  }

  /** The E-value cut-offs of `analyse_sequence`. */
  method PutEvalueThresholds(q: SequenceSearch, data: map<FormKey, ArgValue>) returns (d: map<FormKey, ArgValue>)
    requires IncE !in data && IncDomE !in data && E !in data && DomE !in data
    ensures forall j :: j !in {IncE, IncDomE, E, DomE} ==> (j in d <==> j in data) && (j in d ==> d[j] == data[j])
    ensures Carries(d, IncE, q.seqEvalue)
    ensures Carries(d, IncDomE, q.hitEvalue)
    ensures Carries(d, E, q.reportSeqEvalue)
    ensures Carries(d, DomE, q.reportHitEvalue)
  {
    d := data;
    if q.seqEvalue != Null {
      d := d[IncE := q.seqEvalue];
    }
    if q.hitEvalue != Null {
      d := d[IncDomE := q.hitEvalue];
    }
    if q.reportSeqEvalue != Null {
      d := d[E := q.reportSeqEvalue];
    }
    if q.reportHitEvalue != Null {
      d := d[DomE := q.reportHitEvalue];
    }
  }

  /** The bit-score cut-offs of `analyse_sequence`. */
  method PutBitscoreThresholds(q: SequenceSearch, data: map<FormKey, ArgValue>) returns (d: map<FormKey, ArgValue>)
    requires IncT !in data && IncDomT !in data && T !in data && DomT !in data
    ensures forall j :: j !in {IncT, IncDomT, T, DomT} ==> (j in d <==> j in data) && (j in d ==> d[j] == data[j])
    ensures Carries(d, IncT, q.seqBitscore)
    ensures Carries(d, IncDomT, q.hitBitscore)
    ensures Carries(d, T, q.reportSeqBitscore)
    ensures Carries(d, DomT, q.reportHitBitscore)
  {
    d := data;
    if q.seqBitscore != Null {
      d := d[IncT := q.seqBitscore];
    }
    if q.hitBitscore != Null {
      d := d[IncDomT := q.hitBitscore];
    }
    if q.reportSeqBitscore != Null {
      d := d[T := q.reportSeqBitscore];
    }
    if q.reportHitBitscore != Null {
      d := d[DomT := q.reportHitBitscore];
    }
  }

  /** The POST form of `analyse_sequence` for the settings `q`: the database
      and the sequence always, each threshold field only when its setting is
      not None. */
  predicate PostedForm(data: map<FormKey, ArgValue>, q: SequenceSearch) {
    SeqDb in data && data[SeqDb] == q.database &&
    Seq in data && data[Seq] == Text(q.sequence) &&
    Carries(data, IncE, q.seqEvalue) &&
    Carries(data, IncDomE, q.hitEvalue) &&
    Carries(data, E, q.reportSeqEvalue) &&
    Carries(data, DomE, q.reportHitEvalue) &&
    Carries(data, IncT, q.seqBitscore) &&
    Carries(data, IncDomT, q.hitBitscore) &&
    Carries(data, T, q.reportSeqBitscore) &&
    Carries(data, DomT, q.reportHitBitscore)
  }

  /** The settings fix the form: it has no field beyond the ten above. */
  lemma PostedFormUnique(d1: map<FormKey, ArgValue>, d2: map<FormKey, ArgValue>, q: SequenceSearch)
    requires PostedForm(d1, q) && PostedForm(d2, q)
    ensures d1 == d2
  {
    forall k
      ensures k in d1 <==> k in d2
      ensures k in d1 ==> d1[k] == d2[k]
    {
      match k
      case SeqDb =>
      case Seq =>
      case _ =>
    }
  }

  /** `analyse_sequence`. */
  method AnalyseSequence(q: SequenceSearch) returns (data: map<FormKey, ArgValue>)
    ensures PostedForm(data, q)
  {
    data := map[SeqDb := q.database, Seq := Text(q.sequence)];
    data := PutEvalueThresholds(q, data);
    data := PutBitscoreThresholds(q, data);
  }

  // ---------------------------------------------------------------------
  // The metadata service

  datatype Endpoint = SampleEndpoint(accession: string) | RunEndpoint(accession: string)

  /** `requests.codes.ok`. */
  const StatusOk := 200

  /** One `{key, value, unit}` item of `sample-metadata`; a null unit is "". */
  datatype MetaEntry = MetaEntry(key: string, value: string, unit: string)

  /** A JSON:API resource, reduced to the two paths the code reads:
      `attributes.sample-metadata` and `relationships.biome.data.id`. */
  datatype Resource = Resource(sampleMetadata: Option<seq<MetaEntry>>, biomeId: Option<string>)

  /** A response document: `data`, and `included` when the key is present. */
  datatype Document = Document(data: Option<Resource>, included: Option<seq<Resource>>)

  datatype HttpReply = HttpReply(status: int, body: Document)

  /** The requests made and the document returned. */
  datatype Fetched = Fetched(requested: seq<Endpoint>, body: Option<Document>)

  /** `make_request`: nothing for no accession; otherwise the sample
      resource, or the run resource when the sample request was not OK. */
  function MakeRequest(accession: Option<string>, get: Endpoint -> HttpReply): Fetched {
    match accession
    case None => Fetched([], None)
    case Some(a) =>
      var reply := get(SampleEndpoint(a));
      if reply.status != StatusOk then Fetched([SampleEndpoint(a), RunEndpoint(a)], Some(get(RunEndpoint(a)).body))
      else Fetched([SampleEndpoint(a)], Some(reply.body))
  }

  /** The sample endpoint is always asked first; the run endpoint is asked
      exactly when that answer is not OK, and the last answer is returned. */
  lemma MakeRequestFallback(accession: Option<string>, get: Endpoint -> HttpReply)
    ensures var r := MakeRequest(accession, get);
            (accession.None? ==> r.requested == [] && r.body.None?) &&
            (accession.Some? ==>
              var sample := SampleEndpoint(accession.value);
              r.body.Some? && 1 <= |r.requested| <= 2 && r.requested[0] == sample &&
              (|r.requested| == 2 <==> get(sample).status != StatusOk) &&
              (|r.requested| == 2 ==> r.requested[1] == RunEndpoint(accession.value)) &&
              r.body.value == get(r.requested[|r.requested| - 1]).body)
  {
  }

  /** The outcome of reading a path from `data`, else from `included[0]`:
      an empty `included` raises IndexError (not caught by the code). */
  datatype Lookup<T> = Found(value: T) | Missing | IncludedEmpty

  /** The accessor behind `get_sample_metadata` and `get_biome`: the path in
      `data`, else in `included[0]`. */
  function FromDataOrFirstIncluded<T>(doc: Document, field: Resource -> Option<T>): Lookup<T> {
    if doc.data.Some? && field(doc.data.value).Some? then Found(field(doc.data.value).value)
    else match doc.included
      case None => Missing
      case Some(inc) =>
        if |inc| == 0 then IncludedEmpty
        else match field(inc[0])
          case Some(v) => Found(v)
          case None => Missing
  }

  /** `data` wins when it has the path; `included[0]` is only read when it
      does not; an empty `included` is the only way to an IndexError. */
  lemma FromDataOrFirstIncludedShape<T>(doc: Document, field: Resource -> Option<T>)
    ensures var r := FromDataOrFirstIncluded(doc, field);
            (doc.data.Some? && field(doc.data.value).Some? ==> r == Found(field(doc.data.value).value)) &&
            (r.Found? ==>
              (doc.data.Some? && field(doc.data.value) == Some(r.value)) ||
              (doc.included.Some? && |doc.included.value| > 0 && field(doc.included.value[0]) == Some(r.value))) &&
            (r.IncludedEmpty? <==> (doc.data.None? || field(doc.data.value).None?) && doc.included == Some([])) &&
            (r.Missing? <==>
              (doc.data.None? || field(doc.data.value).None?) &&
              (doc.included.None? || (|doc.included.value| > 0 && field(doc.included.value[0]).None?)))
  {
  }

  function MetadataPath(res: Resource): Option<seq<MetaEntry>> {
    res.sampleMetadata
  }

  function BiomePath(res: Resource): Option<string> {
    res.biomeId
  }

  /** `id.split(":")[-1]`. */
  function BiomeName(id: string): string {
    var parts := Split(id, ':');
    parts[|parts| - 1]
  }

  /** The short name is the part of the identifier after its last `:`. */
  lemma BiomeNameIsLastSegment(id: string)
    ensures var name := BiomeName(id);
            ':' !in name && |name| <= |id| && name == id[|id| - |name|..] &&
            (|name| < |id| ==> id[|id| - |name| - 1] == ':')
  {
    SplitLastIsSuffix(id, ':');
    SplitPiecesLackSep(id, ':');
  }

  /** `get_biome`: the short biome name and the full lineage. `Missing` is the
      ValueError the caller catches. */
  function GetBiome(doc: Document): Lookup<(string, string)> {
    match FromDataOrFirstIncluded(doc, BiomePath)
    case Found(id) => Found((BiomeName(id), id))
    case Missing => Missing
    case IncludedEmpty => IncludedEmpty
  }

  /** The column one metadata item becomes: the key with spaces replaced by
      `_`, and "{value} {unit}" with the unit unescaped, or "" when empty. */
  function MetaColumn(m: MetaEntry, unescape: string -> string): (string, string) {
    var unit := if m.unit != "" then unescape(m.unit) else "";
    (ReplaceChar(m.key, ' ', '_'), m.value + " " + unit)
  }

  /** The column name has no space and as many characters as the key; the
      value is the item's value, a space, and the unescaped unit if any. */
  lemma MetaColumnShape(m: MetaEntry, unescape: string -> string)
    ensures var c := MetaColumn(m, unescape);
            ' ' !in c.0 && |c.0| == |m.key| &&
            (forall i :: 0 <= i < |m.key| ==> c.0[i] == if m.key[i] == ' ' then '_' else m.key[i]) &&
            (m.unit == "" ==> c.1 == m.value + " ") &&
            (m.unit != "" ==> c.1 == m.value + " " + unescape(m.unit))
  {
    ReplaceCharShape(m.key, ' ', '_');
  }

  function MetaColumns(entries: seq<MetaEntry>, unescape: string -> string): (cs: seq<(string, string)>)
    ensures |cs| == |entries|
  {
    seq(|entries|, i requires 0 <= i < |entries| => MetaColumn(entries[i], unescape))
  }

  /** What `get_sample_metadata` returns, as a function of the document. */
  function SampleMetadata(doc: Document, unescape: string -> string): Result<map<string, string>> {
    match FromDataOrFirstIncluded(doc, MetadataPath)
    case IncludedEmpty => Err(IndexErrorRaised("included[0]"))
    case Missing => Ok(map[])
    case Found(entries) =>
      var meta := PutAll(MetaColumns(entries, unescape));
      match GetBiome(doc)
      case Found(b) => Ok(meta["biome" := b.0]["lineage" := b.1])
      case Missing => Ok(meta)
      case IncludedEmpty => Err(IndexErrorRaised("included[0]"))
  }

  /** `get_sample_metadata`: the loop over the metadata items, then the biome. */
  method GetSampleMetadata(doc: Document, unescape: string -> string) returns (r: Result<map<string, string>>)
    ensures r == SampleMetadata(doc, unescape)
  {
    var meta: map<string, string> := map[];
    var metadata: seq<MetaEntry>;
    match FromDataOrFirstIncluded(doc, MetadataPath) {
      case IncludedEmpty =>
        return Err(IndexErrorRaised("included[0]"));
      case Missing =>
        return Ok(meta);
      case Found(entries) =>
        metadata := entries;
    }
    var i := 0;
    while i < |metadata|
      invariant 0 <= i <= |metadata|
      invariant meta == PutAll(MetaColumns(metadata, unescape)[..i])
    {
      var m := metadata[i];
      var unit := if m.unit != "" then unescape(m.unit) else "";
      meta := meta[ReplaceChar(m.key, ' ', '_') := m.value + " " + unit];
      assert MetaColumns(metadata, unescape)[..i + 1] == MetaColumns(metadata, unescape)[..i] + [MetaColumn(m, unescape)];
      PutAllSnoc(MetaColumns(metadata, unescape)[..i], ReplaceChar(m.key, ' ', '_'), m.value + " " + unit);
      i := i + 1;
    }
    assert MetaColumns(metadata, unescape)[..i] == MetaColumns(metadata, unescape);
    match GetBiome(doc) {
      case Found(b) =>
        meta := meta["biome" := b.0]["lineage" := b.1];
      case Missing =>
      case IncludedEmpty =>
        return Err(IndexErrorRaised("included[0]"));
    }
    return Ok(meta);
  }

  /** Without metadata at either path the result is empty: no biome, no lineage. */
  lemma NoMetadataNoBiome(doc: Document, unescape: string -> string)
    requires FromDataOrFirstIncluded(doc, MetadataPath).Missing?
    ensures SampleMetadata(doc, unescape) == Ok(map[])
  {
  }

  /** The metadata columns: one per distinct sanitised key, holding the last
      item's value with that key, plus biome and lineage when a biome exists. */
  lemma SampleMetadataColumns(doc: Document, unescape: string -> string, i: nat)
    requires FromDataOrFirstIncluded(doc, MetadataPath).Found?
    requires SampleMetadata(doc, unescape).Ok?
    ensures var entries := FromDataOrFirstIncluded(doc, MetadataPath).value;
            var meta := SampleMetadata(doc, unescape).value;
            var cols := MetaColumns(entries, unescape);
            (GetBiome(doc).Found? ==>
              meta.Keys == PutAll(cols).Keys + {"biome", "lineage"} &&
              meta["biome"] == GetBiome(doc).value.0 && meta["lineage"] == GetBiome(doc).value.1) &&
            (GetBiome(doc).Missing? ==> meta.Keys == set k | 0 <= k < |entries| :: cols[k].0) &&
            (i < |entries| && cols[i].0 != "biome" && cols[i].0 != "lineage" &&
             (forall j :: i < j < |entries| ==> cols[j].0 != cols[i].0) ==>
               cols[i].0 in meta && meta[cols[i].0] == MetaColumn(entries[i], unescape).1)
  {
    var entries := FromDataOrFirstIncluded(doc, MetadataPath).value;
    var cols := MetaColumns(entries, unescape);
    PutAllKeys(cols);
    if i < |entries| && forall j :: i < j < |entries| ==> cols[j].0 != cols[i].0 {
      PutAllLastWins(cols, i);
    }
  }

  // ---------------------------------------------------------------------
  // Flattening hits into rows

  /** One `uniprot_link` entry: a list whose first element is used. */
  datatype Link = Link(first: string, rest: seq<string>)

  /** A hit of the search response; the optional fields are `h.get(k, '')`. */
  datatype Hit = Hit(
    name: Option<string>,
    acc2: Option<string>,
    kg: Option<string>,
    taxid: Option<string>,
    desc: Option<string>,
    pvalue: Option<string>,
    species: Option<string>,
    score: Option<string>,
    evalue: Option<string>,
    nreported: Option<string>,
    uniprotLink: seq<Link>)

  function OrEmpty(o: Option<string>): string {
    match o
    case Some(s) => s
    case None => ""
  }

  function UniprotFirsts(links: seq<Link>): (fs: seq<string>)
    ensures |fs| == |links| && forall i :: 0 <= i < |links| ==> fs[i] == links[i].first
  {
    seq(|links|, i requires 0 <= i < |links| => links[i].first)
  }

  /** The fields a row gets before its metadata, in the order they are set. */
  function BaseFields(h: Hit, accession: string): seq<(string, string)> {
    [("accessions", accession),
     ("kg", OrEmpty(h.kg)),
     ("taxid", OrEmpty(h.taxid)),
     ("name", OrEmpty(h.name)),
     ("desc", OrEmpty(h.desc)),
     ("pvalue", OrEmpty(h.pvalue)),
     ("species", OrEmpty(h.species)),
     ("score", OrEmpty(h.score)),
     ("evalue", OrEmpty(h.evalue)),
     ("nreported", OrEmpty(h.nreported)),
     ("uniprot", JoinWith(UniprotFirsts(h.uniprotLink), ','))]
  }

  function BaseRow(h: Hit, accession: string): map<string, string> {
    PutAll(BaseFields(h, accession))
  }

  /** The `uniprot` field splits back into the first elements of the links,
      when there is at least one and none holds a comma. */
  lemma UniprotRoundTrip(h: Hit, accession: string)
    requires |h.uniprotLink| > 0
    requires forall i :: 0 <= i < |h.uniprotLink| ==> ',' !in h.uniprotLink[i].first
    ensures "uniprot" in BaseRow(h, accession)
    ensures Split(BaseRow(h, accession)["uniprot"], ',') == UniprotFirsts(h.uniprotLink)
  {
    var fields := BaseFields(h, accession);
    assert forall j :: 10 < j < |fields| ==> fields[j].0 != fields[10].0;
    PutAllLastWins(fields, 10);
    SplitJoin(UniprotFirsts(h.uniprotLink), ',');
  }

  /** The accessions of a hit: `acc2` split on commas, dots stripped from
      both ends of each piece; none without `acc2`. */
  function HitAccessions(h: Hit): (accs: seq<string>)
    ensures h.acc2.None? ==> accs == []
  {
    match h.acc2
    case None => []
    case Some(a) => StripEach(Split(a, ','))
  }

  function StripEach(pieces: seq<string>): (r: seq<string>)
    ensures |r| == |pieces|
  {
    seq(|pieces|, i requires 0 <= i < |pieces| => Strip(pieces[i], '.'))
  }

  /** One accession per comma-separated piece of `acc2`, each a piece with
      its leading and trailing dots removed. */
  lemma HitAccessionsShape(h: Hit, i: nat)
    requires h.acc2.Some? && i < |Split(h.acc2.value, ',')|
    ensures |HitAccessions(h)| == |Split(h.acc2.value, ',')|
    ensures var acc := HitAccessions(h)[i];
            var piece := Split(h.acc2.value, ',')[i];
            var k := |piece| - |StripLeading(piece, '.')|;
            ',' !in acc && (acc == [] || (acc[0] != '.' && acc[|acc| - 1] != '.')) &&
            k + |acc| <= |piece| && piece[k..k + |acc|] == acc &&
            (forall j :: 0 <= j < k ==> piece[j] == '.') &&
            (forall j :: k + |acc| <= j < |piece| ==> piece[j] == '.')
  {
    var piece := Split(h.acc2.value, ',')[i];
    var acc := Strip(piece, '.');
    SplitPiecesLackSep(h.acc2.value, ',');
    StripShape(piece, '.');
    assert HitAccessions(h)[i] == acc;
    var k := |piece| - |StripLeading(piece, '.')|;
    assert piece[k..k + |acc|] == acc;
    assert forall c :: c in acc ==> c in piece;
  }

  function RowKey(h: Hit, accession: string): string {
    OrEmpty(h.name) + " " + accession
  }

  /** One iteration of the inner loop of `fetch_results`. */
  datatype Pair = Pair(hit: Hit, accession: string)

  function PairsOf(h: Hit): (ps: seq<Pair>)
    ensures |ps| == |HitAccessions(h)|
    ensures forall i :: 0 <= i < |ps| ==> ps[i] == Pair(h, HitAccessions(h)[i])
  {
    var accs := HitAccessions(h);
    seq(|accs|, i requires 0 <= i < |accs| => Pair(h, accs[i]))
  }

  /** Every (hit, accession) pair, in loop order. */
  function Pairs(hits: seq<Hit>): seq<Pair> {
    FlatMap(hits, PairsOf)
  }

  /** The keyed row for one pair: "{name} {accession}", and the base fields
      with the accession's metadata over them. A hit without `name` raises
      KeyError. */
  function PairRow(p: Pair, get: Endpoint -> HttpReply, unescape: string -> string): (r: Result<(string, map<string, string>)>)
    ensures p.hit.name.None? ==> r == Err(KeyErrorRaised("name"))
    ensures r.Ok? ==> r.value.0 == RowKey(p.hit, p.accession)
  {
    if p.hit.name.None? then Err(KeyErrorRaised("name"))
    else
      var doc := MakeRequest(Some(p.accession), get).body.value;
      match SampleMetadata(doc, unescape)
      case Ok(meta) => Ok((RowKey(p.hit, p.accession), BaseRow(p.hit, p.accession) + meta))
      case Err(e) => Err(e)
  }

  function RowOf(get: Endpoint -> HttpReply, unescape: string -> string): Pair -> Result<(string, map<string, string>)> {
    p => PairRow(p, get, unescape)
  }

  /** What `fetch_results` returns: the keyed rows of all pairs, a repeated
      key keeping the last row; or the first exception. */
  function FetchResultsSpec(hits: seq<Hit>, get: Endpoint -> HttpReply, unescape: string -> string): Result<map<string, map<string, string>>> {
    match MapUntilErr(Pairs(hits), RowOf(get, unescape))
    case Ok(rows) => Ok(PutAll(rows))
    case Err(e) => Err(e)
  }

  /** `fetch_results`: the loop over hits and their accessions. */
  method FetchResults(hits: seq<Hit>, get: Endpoint -> HttpReply, unescape: string -> string)
    returns (r: Result<map<string, map<string, string>>>)
    ensures r == FetchResultsSpec(hits, get, unescape)
  {
    var csvRows: map<string, map<string, string>> := map[];
    ghost var keyed: seq<(string, map<string, string>)> := [];
    ghost var f := RowOf(get, unescape);
    var i := 0;
    while i < |hits|
      invariant 0 <= i <= |hits|
      invariant MapUntilErr(Pairs(hits[..i]), f) == Ok(keyed)
      invariant csvRows == PutAll(keyed)
    {
      var crash;
      csvRows, crash, keyed := FetchHitRows(hits, i, PairsOf, f, get, unescape, csvRows, keyed);
      if crash.Some? {
        return Err(crash.value);
      }
      i := i + 1;
    }
    assert hits[..i] == hits;
    return Ok(csvRows);
  }

  /** The inner loop of `fetch_results`, over the accessions of hit `i`. */
  method FetchHitRows(hits: seq<Hit>, i: nat, ghost pairsOf: Hit -> seq<Pair>,
                      ghost f: Pair -> Result<(string, map<string, string>)>,
                      get: Endpoint -> HttpReply, unescape: string -> string,
                      csvRows: map<string, map<string, string>>, ghost keyed: seq<(string, map<string, string>)>)
    returns (csvRows': map<string, map<string, string>>, crash: Option<Crash>, ghost keyed': seq<(string, map<string, string>)>)
    requires i < |hits|
    requires forall h {:trigger PairsOf(h)} :: pairsOf(h) == PairsOf(h)
    requires forall p {:trigger PairRow(p, get, unescape)} :: f(p) == PairRow(p, get, unescape)
    requires MapUntilErr(FlatMap(hits[..i], pairsOf), f) == Ok(keyed) && csvRows == PutAll(keyed)
    ensures crash.None? ==> MapUntilErr(FlatMap(hits[..i + 1], pairsOf), f) == Ok(keyed') && csvRows' == PutAll(keyed')
    ensures crash.Some? ==> MapUntilErr(FlatMap(hits, pairsOf), f) == Err(crash.value)
  {
    var accessions := HitAccessions(hits[i]);
    assert pairsOf(hits[i]) == PairsOf(hits[i]);
    ghost var j;
    csvRows', crash, keyed', j :=
      FetchAccessionRows(hits[i], accessions, pairsOf(hits[i]), FlatMap(hits[..i], pairsOf), f, get, unescape, csvRows, keyed);
    if crash.Some? {
      FlatMapErrAt(hits, i, j, pairsOf, f);
    } else {
      assert hits[..i + 1] == hits[..i] + [hits[i]];
      FlatMapSnoc(hits[..i], hits[i], pairsOf);
    }
  }

  /** The loop over the accessions of hit `h`, whose pairs are `ps`, after the
      pairs `done`; on a crash, `j` is the pair whose row failed. */
  method FetchAccessionRows(h: Hit, accessions: seq<string>, ghost ps: seq<Pair>, ghost done: seq<Pair>,
                            ghost f: Pair -> Result<(string, map<string, string>)>,
                            get: Endpoint -> HttpReply, unescape: string -> string,
                            csvRows: map<string, map<string, string>>, ghost keyed: seq<(string, map<string, string>)>)
    returns (csvRows': map<string, map<string, string>>, crash: Option<Crash>,
             ghost keyed': seq<(string, map<string, string>)>, ghost j: nat)
    requires |ps| == |accessions| && forall k :: 0 <= k < |ps| ==> ps[k] == Pair(h, accessions[k])
    requires forall p {:trigger PairRow(p, get, unescape)} :: f(p) == PairRow(p, get, unescape)
    requires MapUntilErr(done, f) == Ok(keyed) && csvRows == PutAll(keyed)
    ensures crash.None? ==> MapUntilErr(done + ps, f) == Ok(keyed') && csvRows' == PutAll(keyed')
    ensures crash.Some? ==> j < |ps| && MapUntilErr(done + ps[..j + 1], f) == Err(crash.value)
  {
    csvRows', keyed' := csvRows, keyed;
    var k := 0;
    assert done + ps[..0] == done;
    while k < |accessions|
      invariant 0 <= k <= |accessions|
      invariant MapUntilErr(done + ps[..k], f) == Ok(keyed')
      invariant csvRows' == PutAll(keyed')
    {
      var accession := accessions[k];
      SnocSlice(done, ps, k);
      MapUntilErrSnoc(done + ps[..k], Pair(h, accession), f);
      var row := FetchRow(h, accession, f, get, unescape);
      if row.Err? {
        return csvRows', Some(row.error), keyed', k;
      }
      csvRows' := csvRows'[row.value.0 := row.value.1];
      PutAllSnoc(keyed', row.value.0, row.value.1);
      keyed' := keyed' + [row.value];
      k := k + 1;
    }
    assert ps[..k] == ps;
    return csvRows', None, keyed', k;
  }

  /** The body of the inner loop: the row of one accession of a hit, which
      is `PairRow`, given as `f`. */
  method FetchRow(h: Hit, accession: string, ghost f: Pair -> Result<(string, map<string, string>)>,
                  get: Endpoint -> HttpReply, unescape: string -> string)
    returns (r: Result<(string, map<string, string>)>)
    requires forall p {:trigger PairRow(p, get, unescape)} :: f(p) == PairRow(p, get, unescape)
    ensures r == f(Pair(h, accession))
  {
    assert f(Pair(h, accession)) == PairRow(Pair(h, accession), get, unescape);
    if h.name.None? {
      return Err(KeyErrorRaised("name"));
    }
    var uuid := RowKey(h, accession);
    var row := BaseRow(h, accession);
    var req := MakeRequest(Some(accession), get);
    var meta := GetSampleMetadata(req.body.value, unescape);
    if meta.Err? {
      return Err(meta.error);
    }
    return Ok((uuid, row + meta.value));
  }

  /** Every pair comes from a hit that has `acc2`, with one of its accessions. */
  lemma PairsFromAcc2(hits: seq<Hit>, p: Pair)
    requires p in Pairs(hits)
    ensures p.hit in hits && p.hit.acc2.Some? && p.accession in HitAccessions(p.hit)
  {
    var h := FlatMapMember(hits, PairsOf, p);
    var k :| 0 <= k < |PairsOf(h)| && PairsOf(h)[k] == p;
  }

  function PairKey(p: Pair): string {
    RowKey(p.hit, p.accession)
  }

  /** The rows: exactly one key per "{name} {accession}" produced, each holding
      the row of the last pair with that key. */
  lemma FetchResultsRows(hits: seq<Hit>, get: Endpoint -> HttpReply, unescape: string -> string, i: nat)
    requires FetchResultsSpec(hits, get, unescape).Ok?
    ensures var rows := FetchResultsSpec(hits, get, unescape).value;
            var ps := Pairs(hits);
            rows.Keys == (set k | 0 <= k < |ps| :: PairKey(ps[k])) &&
            (i < |ps| && (forall j :: i < j < |ps| ==> PairKey(ps[j]) != PairKey(ps[i])) ==>
              PairRow(ps[i], get, unescape) == Ok((PairKey(ps[i]), rows[PairKey(ps[i])])))
  {
    PutAllOfResults(Pairs(hits), RowOf(get, unescape), PairKey, i);
  }

  /** A successful run fetches every accession: a row needs its hit's
      metadata to have been read without an exception. */
  lemma FetchResultsNoCrash(hits: seq<Hit>, get: Endpoint -> HttpReply, unescape: string -> string, p: Pair)
    requires FetchResultsSpec(hits, get, unescape).Ok? && p in Pairs(hits)
    ensures p.hit.name.Some?
    ensures SampleMetadata(MakeRequest(Some(p.accession), get).body.value, unescape).Ok?
  {
    var ps := Pairs(hits);
    var k :| 0 <= k < |ps| && ps[k] == p;
    MapUntilErrShape(ps, RowOf(get, unescape));
    assert RowOf(get, unescape)(ps[k]).Ok?;
  }

  /** A pair's row holds the base fields and the sample's metadata columns;
      each metadata column wins over a base field of the same name, and every
      other base field keeps its value. */
  lemma MetadataOverridesBase(p: Pair, get: Endpoint -> HttpReply, unescape: string -> string)
    requires PairRow(p, get, unescape).Ok?
    ensures var row := PairRow(p, get, unescape).value.1;
            var base := BaseRow(p.hit, p.accession);
            var meta := SampleMetadata(MakeRequest(Some(p.accession), get).body.value, unescape);
            meta.Ok? &&
            row.Keys == base.Keys + meta.value.Keys &&
            (forall k :: k in meta.value ==> row[k] == meta.value[k]) &&
            (forall k :: k in base && k !in meta.value ==> row[k] == base[k])
  {
  }

  // ---------------------------------------------------------------------
  // The driver

  /** A search response: the job id and the hits. */
  datatype SearchReply = SearchReply(uuid: string, hits: seq<Hit>)

  /** One file's search: its settings, the form posted, the CSV file name and
      its rows (or the exception that stopped the run). */
  datatype SearchJob = SearchJob(search: SequenceSearch, form: map<FormKey, ArgValue>, csvName: string,
                                 rows: Result<map<string, map<string, string>>>)

  /** The keys of `vars(args)` other than `sequence`: the nine search
      settings and whatever else the command line defines. */
  datatype ArgName =
    | Database
    | SeqEvalueThreshold
    | HitEvalueThreshold
    | ReportSeqEvalueThreshold
    | ReportHitEvalueThreshold
    | SeqBitscoreThreshold
    | HitBitscoreThreshold
    | ReportSeqBitscoreThreshold
    | ReportHitBitscoreThreshold
    | OtherArg(name: string)

  const SearchArgs: set<ArgName> := {
    Database, SeqEvalueThreshold, HitEvalueThreshold,
    ReportSeqEvalueThreshold, ReportHitEvalueThreshold,
    SeqBitscoreThreshold, HitBitscoreThreshold,
    ReportSeqBitscoreThreshold, ReportHitBitscoreThreshold}

  function ArgOr(args: map<ArgName, ArgValue>, key: ArgName, default: ArgValue): ArgValue {
    if key in args then args[key] else default
  }

  /** The settings a `SequenceSearch` built from `args` gets: each given
      setting, else "full" for the database and None for a threshold. */
  function SearchFromArgs(sequence: string, args: map<ArgName, ArgValue>): SequenceSearch {
    SequenceSearch(sequence,
      ArgOr(args, Database, Text("full")),
      ArgOr(args, SeqEvalueThreshold, Null),
      ArgOr(args, HitEvalueThreshold, Null),
      ArgOr(args, ReportSeqEvalueThreshold, Null),
      ArgOr(args, ReportHitEvalueThreshold, Null),
      ArgOr(args, SeqBitscoreThreshold, Null),
      ArgOr(args, HitBitscoreThreshold, Null),
      ArgOr(args, ReportSeqBitscoreThreshold, Null),
      ArgOr(args, ReportHitBitscoreThreshold, Null))
  }

  /** The settings of a search given no arguments at all. */
  function DefaultSearch(sequence: string): SequenceSearch {
    SequenceSearch(sequence, Text("full"), Null, Null, Null, Null, Null, Null, Null, Null)
  }

  /** Once the search arguments have been popped, only the defaults remain,
      so a later file is searched with the database "full" and no cut-off. */
  lemma PoppedArgsGiveDefaults(sequence: string, args: map<ArgName, ArgValue>)
    ensures SearchFromArgs(sequence, args - SearchArgs) == DefaultSearch(sequence)
  {
    var rest := args - SearchArgs;
    assert Database !in rest && SeqEvalueThreshold !in rest && HitEvalueThreshold !in rest;
    assert ReportSeqEvalueThreshold !in rest && ReportHitEvalueThreshold !in rest;
    assert SeqBitscoreThreshold !in rest && HitBitscoreThreshold !in rest;
    assert ReportSeqBitscoreThreshold !in rest && ReportHitBitscoreThreshold !in rest;
  }

  /** The settings the search of file `k` gets, `sequence` being its text. */
  function SettingsFor(k: nat, sequence: string, args: map<ArgName, ArgValue>): SequenceSearch {
    if k == 0 then SearchFromArgs(sequence, args) else DefaultSearch(sequence)
  }

  /** `job` is the search of `q`: the form posted is `q`'s, the CSV file is
      named after the job id the service returned for it, and its rows are
      those of the hits the service returned, as `FetchResultsSpec` gives
      them. */
  predicate Searched(job: SearchJob, q: SequenceSearch, post: map<FormKey, ArgValue> -> SearchReply,
                     get: Endpoint -> HttpReply, unescape: string -> string)
  {
    SearchedWith(job, q, post, FetchOf(get, unescape))
  }

  function FetchOf(get: Endpoint -> HttpReply, unescape: string -> string): seq<Hit> -> Result<map<string, map<string, string>>> {
    hits => FetchResultsSpec(hits, get, unescape)
  }

  /** `Searched`, with the fetching of the results given as `fetch`. */
  predicate SearchedWith(job: SearchJob, q: SequenceSearch, post: map<FormKey, ArgValue> -> SearchReply,
                         fetch: seq<Hit> -> Result<map<string, map<string, string>>>)
  {
    job.search == q && PostedForm(job.form, q) &&
    job.csvName == post(job.form).uuid + "_sequence_search.csv" &&
    job.rows == fetch(post(job.form).hits)
  }

  /** `sequence_search`: one search per file. The arguments are popped inside
      the loop, so only the first file sees what the user gave; every later
      file searches with the defaults. An exception ends the loop. */
  method SequenceSearchTool(files: seq<string>, args: map<ArgName, ArgValue>,
                            readFile: string -> string,
                            post: map<FormKey, ArgValue> -> SearchReply,
                            get: Endpoint -> HttpReply, unescape: string -> string)
    returns (jobs: seq<SearchJob>)
    ensures |jobs| <= |files|
    ensures forall k :: 0 <= k < |jobs| - 1 ==> jobs[k].rows.Ok?
    ensures |jobs| < |files| ==> |jobs| > 0 && jobs[|jobs| - 1].rows.Err?
    ensures forall k :: 0 <= k < |jobs| ==> Searched(jobs[k], SettingsFor(k, readFile(files[k]), args), post, get, unescape)
  {
    jobs := SearchFiles(files, args, readFile, post, FetchOf(get, unescape), get, unescape);
  }

  /** The loop of `sequence_search`, with `fetch` standing for `FetchResultsSpec`. */
  method SearchFiles(files: seq<string>, args: map<ArgName, ArgValue>,
                     readFile: string -> string,
                     post: map<FormKey, ArgValue> -> SearchReply,
                     ghost fetch: seq<Hit> -> Result<map<string, map<string, string>>>,
                     get: Endpoint -> HttpReply, unescape: string -> string)
    returns (jobs: seq<SearchJob>)
    requires forall hs {:trigger FetchResultsSpec(hs, get, unescape)} :: fetch(hs) == FetchResultsSpec(hs, get, unescape)
    ensures |jobs| <= |files|
    ensures forall k :: 0 <= k < |jobs| - 1 ==> jobs[k].rows.Ok?
    ensures |jobs| < |files| ==> |jobs| > 0 && jobs[|jobs| - 1].rows.Err?
    ensures forall k :: 0 <= k < |jobs| ==> SearchedWith(jobs[k], SettingsFor(k, readFile(files[k]), args), post, fetch)
  {
    jobs := [];
    var rest := args;
    var i := 0;
    while i < |files|
      invariant 0 <= i <= |files| && |jobs| == i
      invariant rest == if i == 0 then args else args - SearchArgs
      invariant forall k :: 0 <= k < i ==> jobs[k].rows.Ok?
      invariant forall k :: 0 <= k < i ==> SearchedWith(jobs[k], SettingsFor(k, readFile(files[k]), args), post, fetch)
    {
      var job := SearchFile(readFile(files[i]), rest, i, args, post, fetch, get, unescape);
      rest := args - SearchArgs;
      ghost var prev := jobs;
      jobs := jobs + [job];
      assert forall k :: 0 <= k < i ==> jobs[k] == prev[k];
      assert jobs[i] == job;
      if job.rows.Err? {
        return;
      }
      i := i + 1;
    }
  }


  /** One iteration of `sequence_search`: the search built from what is left
      of the arguments, posted, and its results fetched. */
  method SearchFile(sequence: string, rest: map<ArgName, ArgValue>, ghost i: nat, ghost args: map<ArgName, ArgValue>,
                    post: map<FormKey, ArgValue> -> SearchReply,
                    ghost fetch: seq<Hit> -> Result<map<string, map<string, string>>>,
                    get: Endpoint -> HttpReply, unescape: string -> string)
    returns (job: SearchJob)
    requires rest == if i == 0 then args else args - SearchArgs
    requires forall hs {:trigger FetchResultsSpec(hs, get, unescape)} :: fetch(hs) == FetchResultsSpec(hs, get, unescape)
    ensures SearchedWith(job, SettingsFor(i, sequence, args), post, fetch)
  {
    var q := SearchFromArgs(sequence, rest);
    if i > 0 {
      PoppedArgsGiveDefaults(sequence, args);
    }
    assert q == SettingsFor(i, sequence, args);
    var form := AnalyseSequence(q);
    var results := post(form);
    var rows := FetchResults(results.hits, get, unescape);
    job := SearchJob(q, form, results.uuid + "_sequence_search.csv", rows);
  }
}
