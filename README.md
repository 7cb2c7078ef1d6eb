# emg-toolkit core, modelled in Dafny

This project models the command-line core of the EBI MGnify toolkit
(`mg_toolkit` and the legacy `emg_toolkit` package) and proves properties of
the model. It covers four parts:

- **Bulk downloader** (`bulk_download.dfy`). It checks the settings and builds
  the analyses query. It walks every download of every analysis under the
  two exclusion rules and the result-group filter. For each kept download it
  produces a "make the directory, retrieve the URL" action. It also counts
  the downloads and raises the no-results warning.
- **Sequence search** (`search.dfy`). It covers the POST form sent to the
  search service and the sample-then-run metadata lookup. It reads a sample
  document from `data`, or else from `included[0]`. It turns metadata items
  into columns and the biome identifier into a name and a lineage, and
  flattens the hits into rows keyed "{name} {accession}". The driver pops
  the command-line arguments inside its loop over the input files.
- **Original metadata** (`metadata.dfy`). It builds the XML attribute
  dictionary of a sample and the per-study run table, where each run gets
  its sample's attributes plus `Sample` and `Read depth`. It writes one
  `{accession}.csv` per study.
- **Legacy original metadata** (`legacy_metadata.dfy`). Its `get_metadata`
  returns only the first tagged attribute. It builds a per-sample table and
  either writes `{accession}_{export}` or logs the table.

Supporting modules:

- `pytext.dfy` holds Python's `str.split`, `str.join`, `strip`, `lstrip`,
  `rstrip` and `replace` for single characters.
- `posixpath.dfy` holds `os.path.join`.
- `dicts.dfy` holds Python dictionary assignment in order, last write wins,
  and keys in insertion order.
- `seqs.dfy` holds flat-map and "map until the first exception".

Everything outside the process is an input function:

- The analyses server (`server`), the HTTP GET of the metadata service
  (`get`) and the search POST (`post`).
- The read-run search (`searchRuns`) and a sample's XML attributes
  (`attrsOf`).
- Reading an input file (`readFile`), `os.getcwd()` (`cwd`) and
  `html.unescape` (`unescape`).

Effects are returned as values:

- the download actions;
- the CSV files with their index label and rows;
- the legacy outputs;
- the exception (`Crash`) that ends a run, where the code lets one escape.

Python's `None` for the optional string settings (pipeline version, result
group, export name) is modelled as `""`. The code only tests these settings
for truthiness.

Where the code has a loop, the model has a method with that loop. The
method is proved against a function of its inputs, and the lemmas state
what that function means.

The bulk downloader's `run` is modelled as written, including the two
defects listed under "## Findings": each fetch goes to the path line 209
builds, and the no-results warning is the message the code logs. The
corrected path and message are separate members, and `RunAsIntended`
states when the code's behaviour and the intended one coincide.

What `run` does not do: it writes no manifest, never skips a file that
already exists, retrieves straight into the final path (no temporary file
and rename), never retries, and never compares the server's total with its
counter. It fetches every kept download.

## Model

| member | source | states |
|---|---|---|
| BulkDownload.GetPipelineVersion | mg_toolkit/bulk_download.py:131-132 | a user version maps to an API filter value exactly when it is one of 4.1, 4.0, 3.0, 2.0, 1.0, and they map to 5, 4, 3, 2 and 1 |
| BulkDownload.PipelineVersionInjective | mg_toolkit/bulk_download.py:69-73 | two user versions never select the same filter value |
| BulkDownload.GroupFolderInjective | mg_toolkit/bulk_download.py:58-64 | each output folder belongs to exactly one group type |
| BulkDownload.Validate | mg_toolkit/bulk_download.py:134-149 | the settings pass exactly when the result group is empty or a known folder, and the version is empty or a known version; an unknown result group is reported first, before the version |
| BulkDownload.QueryParams | mg_toolkit/bulk_download.py:176-181 | the query always has the study and page size 5; the mapped pipeline version is added exactly when the version maps |
| BulkDownload.FirstWithoutRun | mg_toolkit/bulk_download.py:183-185 | the analyses before the returned index all have a run, and the one at it (if any) has none, so reading `analysis.run.accession` raises there |
| BulkDownload.EntriesCount | mg_toolkit/bulk_download.py:183-190 | the loop visits as many entries as there are downloads over all analyses |
| BulkDownload.NoDownloadsIffZeroTotal | mg_toolkit/bulk_download.py:211 | the download total is zero exactly when no analysis has a download |
| BulkDownload.WalkSound | mg_toolkit/bulk_download.py:189-209 | every placement is an entry of the walk that the loop body's rules place, in the folder they give |
| BulkDownload.WalkComplete | mg_toolkit/bulk_download.py:189-209 | a walk that did not crash places every entry the rules place |
| BulkDownload.WalkCrash | mg_toolkit/bulk_download.py:200-206 | the walk crashes exactly at an entry whose group type has no folder; without a crash no such entry was reached |
| BulkDownload.WalkStaysCrashed | mg_toolkit/bulk_download.py:189-209 | after the crash, later entries change nothing |
| BulkDownload.AmpliconNeverPlaced | mg_toolkit/bulk_download.py:195-196 | no non-amplicon-labelled download of an amplicon analysis is fetched |
| BulkDownload.PhylogeneticTreeNeverPlaced | mg_toolkit/bulk_download.py:198-199 | no "Phylogenetic tree" of a 2.0 analysis is fetched |
| BulkDownload.FilterSelectsOneFolder | mg_toolkit/bulk_download.py:200-201 | with a result-group filter the walk cannot crash, and each download fetched has a group type that maps to exactly that folder |
| BulkDownload.NoFilterPlacesEveryKept | mg_toolkit/bulk_download.py:202-209 | without a filter and without a crash, every download that neither exclusion rule removes is fetched into its group's folder |
| BulkDownload.DownloadPath | mg_toolkit/bulk_download.py:207-209 | the intended file path ends with the alias, and is `sub_dir/alias` for a relative alias |
| BulkDownload.AsWrittenAgreesForAbsoluteRoot | mg_toolkit/bulk_download.py:209 | with an absolute output directory, the path the code builds equals the intended one |
| BulkDownload.AsWrittenDoublesRelativeRoot | mg_toolkit/bulk_download.py:209 | with a relative output directory, the code's path puts that directory in front twice and differs from the intended one |
| BulkDownload.DestinationDirectory | mg_toolkit/bulk_download.py:89-92 | the created directory is `dest_dir/project/version/folder`, with the analysis's own version string |
| BulkDownload.NoResultsWarning | mg_toolkit/bulk_download.py:211-215 | the intended warning is the fixed text, the study id, then `\nPipeline version: ` and the version, or `Not specified` without one |
| BulkDownload.NoResultsWarningDiffers | mg_toolkit/bulk_download.py:211-215 | the code's warning equals the intended one when a version is given; without a version it is just 'Not specified' |
| BulkDownload.RunCounterAndWarning | mg_toolkit/bulk_download.py:183-215 | a run finishes only when every analysis has a run; its counter is the number of download entries; the warning is raised exactly when no analysis had a download, and is the intended message with a version and just `Not specified` without one |
| BulkDownload.MissingRunEndsRun | mg_toolkit/bulk_download.py:183-185 | an analysis without a run ends the run with AttributeError unless an earlier download raised TypeError, and nothing of it or after it is fetched |
| BulkDownload.RunAsIntended | mg_toolkit/bulk_download.py:207-215 | with an absolute output directory every file is retrieved into the directory created for it, and with a version the warning is the intended one |
| BulkDownload.EffectiveOutputPath | mg_toolkit/bulk_download.py:153-154 | an empty output path becomes the working directory; any other is kept |
| BulkDownload.BulkDownloader.constructor | mg_toolkit/bulk_download.py:75-79 | the downloader keeps the four settings |
| BulkDownload.BulkDownloader.InitProgram | mg_toolkit/bulk_download.py:134-157 | the validation result is returned; on success the output path is defaulted, and on failure nothing changes |
| BulkDownload.BulkDownloader.Run | mg_toolkit/bulk_download.py:167-215 | the report (query, actions, outcome) is `RunSpec` of the settings and the server: the path of line 209, the warning as logged, and the AttributeError of an analysis without a run |
| BulkDownload.VisitAnalyses | mg_toolkit/bulk_download.py:183-209 | the loop over the analyses yields the actions of the run's plan, and either the exception that ended it (a missing folder, else an analysis without a run) or a counter equal to the download total |
| BulkDownload.VisitDownloads | mg_toolkit/bulk_download.py:188-209 | after one analysis: the counter grows by its downloads, the placements and crash agree with the walk extended by its entries, and the actions fetch into `os.path.join(dest_dir, sub_dir, alias)` |
| BulkDownload.VisitEntries | mg_toolkit/bulk_download.py:189-209 | the inner loop agrees with the walk over the analysis's entries: placements, crash, and actions with the path of line 209 |
| BulkDownload.VisitEntry | mg_toolkit/bulk_download.py:190-209 | one download: a missing folder crashes, a placed entry appends its placement and a fetch to `os.path.join(dest_dir, sub_dir, alias)`, and any other entry changes nothing |
| BulkDownload.BulkDownloadTool | mg_toolkit/bulk_download.py:34-45 | the tool exits with code 1 exactly when validation fails; otherwise its report is `RunSpec` (the code's path and warning) with the defaulted output path |
| PosixPath.Join2 | mg_toolkit/bulk_download.py:90 | an absolute component replaces what came before; the result ends with the last component |
| PosixPath.JoinPlain3 | mg_toolkit/bulk_download.py:90 | plain components are joined with exactly one `/` between each |
| Search.PutEvalueThresholds | mg_toolkit/search.py:102-109 | each E-value field is present exactly when its setting is not None, and then carries it; other fields are unchanged |
| Search.PutBitscoreThresholds | mg_toolkit/search.py:110-117 | each bit-score field is present exactly when its setting is not None, and then carries it; other fields are unchanged |
| Search.AnalyseSequence | mg_toolkit/search.py:97-117 | the form holds the database, the sequence, and each threshold exactly when it is set |
| Search.PostedFormUnique | mg_toolkit/search.py:98-117 | the settings determine the form completely |
| Search.MakeRequestFallback | mg_toolkit/search.py:126-141 | no accession gives no request and no result; otherwise the sample endpoint is asked first, the run endpoint exactly when that reply is not OK, and the last reply is returned |
| Search.FromDataOrFirstIncludedShape | mg_toolkit/search.py:145-154 | the path in `data` wins; `included[0]` is read only otherwise; an empty `included` is the only IndexError; Missing holds exactly when neither place has the path |
| Search.BiomeNameIsLastSegment | mg_toolkit/search.py:176-177 | the biome name is the colon-free suffix of the identifier after its last `:` |
| Search.MetaColumnShape | mg_toolkit/search.py:155-157 | the column name is the key with spaces replaced by `_`; the value is "{value} {unit}" with the unit unescaped, or empty |
| Search.GetSampleMetadata | mg_toolkit/search.py:143-163 | the loop's dictionary and the biome step give `SampleMetadata` of the document |
| Search.NoMetadataNoBiome | mg_toolkit/search.py:148-154 | without metadata at either path the result is empty, even when a biome exists |
| Search.SampleMetadataColumns | mg_toolkit/search.py:155-163 | the keys are the sanitised item keys, plus biome and lineage exactly when a biome exists; a key holds the value of its last item |
| Search.UniprotRoundTrip | mg_toolkit/search.py:201-202 | splitting the `uniprot` field on commas gives back the first elements of the links |
| Search.HitAccessionsShape | mg_toolkit/search.py:183-186 | one accession per comma piece of `acc2`, each the piece with its leading and trailing dots removed |
| Search.PairRow | mg_toolkit/search.py:188-208 | a hit without a name raises KeyError; a row's key is "{name} {accession}" |
| Search.FetchResults | mg_toolkit/search.py:180-209 | the loop's result is `FetchResultsSpec`: all keyed rows with the last row winning, or the first exception |
| Search.FetchHitRows | mg_toolkit/search.py:182-208 | one hit's accessions extend the rows, or the whole result is the exception raised |
| Search.FetchAccessionRows | mg_toolkit/search.py:185-208 | the inner loop extends the keyed rows by the hit's pairs, or names the pair whose row raised |
| Search.FetchRow | mg_toolkit/search.py:188-208 | the loop body computes `PairRow` of its pair |
| Search.PairsFromAcc2 | mg_toolkit/search.py:183-185 | every pair comes from a hit with `acc2`, with one of its accessions |
| Search.FetchResultsRows | mg_toolkit/search.py:188-209 | the keys are exactly the "{name} {accession}" of all pairs; the last pair with a key gives that key's row |
| Search.FetchResultsNoCrash | mg_toolkit/search.py:204-208 | in a successful run every hit of a pair has a name and every accession's metadata was read without an exception |
| Search.MetadataOverridesBase | mg_toolkit/search.py:188-208 | a pair's row has exactly the base fields and the sample's metadata columns; a metadata column overrides a base field of the same name, and every other base field keeps its value |
| Search.PoppedArgsGiveDefaults | mg_toolkit/search.py:38-60 | once the search arguments are popped, the next search gets the database "full" and no cut-off |
| Search.SequenceSearchTool | mg_toolkit/search.py:32-64 | one job per file up to the first one that fails; job k posts the form for its settings (the user's for the first file, the defaults after that) and gets `{uuid}_sequence_search.csv` and the rows of the returned hits |
| Search.SearchFiles | mg_toolkit/search.py:38-64 | the loop of `sequence_search`, with the fetching given as a function |
| Search.SearchFile | mg_toolkit/search.py:39-64 | one file's search, built from what is left of the arguments |
| PyText.SplitJoin | mg_toolkit/search.py:201-202 | splitting a comma-free join gives back the parts |
| PyText.StripShape | mg_toolkit/search.py:186 | `strip` leaves a contiguous middle part that neither starts nor ends with the character, and removes only that character |
| PyText.ReplaceCharShape | mg_toolkit/search.py:157 | `replace` of one character keeps the length and changes exactly that character |
| Metadata.GetMetadata | mg_toolkit/metadata.py:37-51 | the loop's dictionary is `AttributeMeta` of the attributes |
| Metadata.AttributeMetaKeys | mg_toolkit/metadata.py:41-50 | the keys are exactly the tags that occur |
| Metadata.AttributeMetaLastWins | mg_toolkit/metadata.py:46-50 | a tag holds the value of its last attribute, or None when that attribute has no VALUE |
| Metadata.UntaggedSkipped | mg_toolkit/metadata.py:42-45 | an attribute without a tag changes nothing |
| Metadata.RunSamplesShape | mg_toolkit/metadata.py:66-73 | one entry per run accession; a repeated run keeps its last record |
| Metadata.RunRowColumns | mg_toolkit/metadata.py:80-83 | a row has the sample's attributes plus `Sample` and `Read depth`, which override attributes of the same name |
| Metadata.AssembleRunTable | mg_toolkit/metadata.py:75-84 | the loop builds `RunTable` and calls `get_metadata` once per run, in iteration order |
| Metadata.VisitRuns | mg_toolkit/metadata.py:78-84 | every run in order gets its row, and the samples fetched list each run's sample |
| Metadata.VisitRun | mg_toolkit/metadata.py:79-84 | the cache test never holds, the metadata is fetched again, and `Sample` and `Read depth` are set in it |
| Metadata.FetchesOncePerRun | mg_toolkit/metadata.py:78-80 | `get_metadata` is called once for each distinct run, even when several runs share a sample |
| Metadata.OriginalMetadata | mg_toolkit/metadata.py:54-89 | the files written are `Exports`: one `{accession}.csv` with index label `Run` per study whose reply is JSON |
| Metadata.ExportsAt | mg_toolkit/metadata.py:56-89 | study i contributes exactly its own file between those of the others, or nothing when its reply is not JSON |
| LegacyMetadata.FirstTaggedIndex | emg_toolkit/metadata.py:40-44 | the loop stops at the first tagged attribute, and every attribute before it is untagged |
| LegacyMetadata.GetMetadata | emg_toolkit/metadata.py:37-49 | the early return gives the first tagged attribute's (TAG, VALUE), or None when no attribute is tagged |
| LegacyMetadata.FirstTaggedNone | emg_toolkit/metadata.py:40-49 | the result is None exactly when no attribute has a tag |
| LegacyMetadata.FirstTaggedIgnoresRest | emg_toolkit/metadata.py:49 | attributes after the first tagged one are never read |
| LegacyMetadata.FirstTaggedIsMetadataKey | emg_toolkit/metadata.py:41-49 | the legacy key is also a key of the current package's dictionary |
| LegacyMetadata.SampleAccessions | emg_toolkit/metadata.py:64 | one sample accession per run record, in order, with repeats kept |
| LegacyMetadata.AccumulateSamples | emg_toolkit/metadata.py:66-72 | the loop builds `SampleTable`, or fails with the TypeError of unpacking None |
| LegacyMetadata.SampleTableStaysErr | emg_toolkit/metadata.py:67-68 | once a sample fails, the table fails with the same error |
| LegacyMetadata.SampleTableFails | emg_toolkit/metadata.py:68 | the table fails exactly when some sample has no tagged attribute |
| LegacyMetadata.SampleTableKeys | emg_toolkit/metadata.py:66-72 | a table that does not fail has one entry per distinct sample |
| LegacyMetadata.SampleTableEntry | emg_toolkit/metadata.py:69-72 | a sample's entry is `{key: value}` of its first tagged attribute, however often the sample repeats |
| LegacyMetadata.OriginalMetadata | emg_toolkit/metadata.py:52-79 | the outputs are `LegacyOutputs`: a non-JSON reply is skipped, and a failing table ends the run |
| LegacyMetadata.LegacyOutputsNamed | emg_toolkit/metadata.py:74-79 | at most one output per study; with an export name each is a CSV named `{accession}_{export}` of some study, without one each table is logged |

## Left out

- HTTP details are not modelled: the URLs, the headers and the status codes other than 200 for the sample endpoint. The Session pagination of the analyses collection is reduced to the list the server returns.
- File system effects are returned as actions and not performed: creating directories (`mkdir`), `urlretrieve`, `to_csv`, and writing CSV files. A download that raises URLError or IOError is not modelled, because the model returns actions instead of performing them. This includes the IOError that the doubled path of line 209 causes for a relative output directory: the model reports that fetch, and the run does not stop there.
- `BulkDownload.Analysis`: the log line at bulk_download.py:184-185 also raises TypeError when the analysis's accession, pipeline version or experiment type is None. The model takes these three as strings and models only a missing run.
- The configuration file (`_load_config_file`, `check_config_value`) is left out, because it only reads the API base URL.
- Printing and logging are left out (`_print_program_settings`, `logging.*`, `logger.info(df)` apart from the fact that a table is logged). This includes the same precedence problem seen in the no-results warning, in the printed version and result group lines (bulk_download.py:162-163).
- Malformed JSON or XML is not modelled. The cases are:
  - `results['results']['uuid']` or `['hits']` missing;
  - a metadata item without `key`, `value` or `unit`;
  - a run record without one of its fields;
  - a reply that is not a list;
  - one `SAMPLE_ATTRIBUTE` element, which `xmltodict` returns as a dict instead of a list.

  The documents are given already parsed, reduced to the fields the code reads.
- `pandas.DataFrame(...).T` is modelled as the dictionary of rows, indexed by the key with the given index label. Column union, CSV quoting and the missing cells shown as empty or NaN are left out.
- Dictionary iteration order is modelled only where it matters. The run table's loop follows the insertion order of `_accessions`, and `get_metadata` reads attributes in document order. Rows of a returned table are a `map`, so row order in the CSV is not stated.
- `Search.SequenceSearchTool`: `args.pop` is modelled as removing the search arguments from the map after the first file. Arguments that are not search settings are kept in the map and never read.
- `BulkDownload.BulkDownloader.Run`: `Path(...)` normalisation of the created directory is treated as the identity.
- `Metadata.VisitRun`: the code's cache test compares a run record (a dict) with `None` or a string. The model states the result of that comparison, which is always unequal, and does not model Python equality in general.

## Findings

| source | as written | input that shows it | evidently intended | confidence | as-written member | corrected member |
|---|---|---|---|---|---|---|
| mg_toolkit/bulk_download.py:209 | `os.path.join(dest_dir, sub_dir, file_name)`, where `sub_dir` already starts with `dest_dir` | `-o out` (a relative output directory) with project `P`, version `4.1`, folder `stats`, alias `a.tsv`: the file goes to `out/out/P/4.1/stats/a.tsv` while the directory created is `out/P/4.1/stats` | the file inside the directory just created: `os.path.join(sub_dir, file_name)` | not executed | BulkDownload.AsWrittenDoublesRelativeRoot | BulkDownload.DownloadPath |
| mg_toolkit/bulk_download.py:212-215 | the message is one conditional expression whose true branch is the whole concatenation, because the conditional binds looser than `+` | no version setting (`args.version` is None) and a study with no downloads: the whole warning is `Not specified` | the fixed text and the study id always, then the version or `Not specified` | not executed | BulkDownload.NoResultsWarningDiffers | BulkDownload.NoResultsWarning |
