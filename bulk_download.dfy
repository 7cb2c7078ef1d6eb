/** The bulk downloader of `mg_toolkit/bulk_download.py`: validation of the
    user's settings, the analyses query, and the walk over every download of
    every analysis that decides what is fetched and where it is stored.
    The server's analyses are an input (`server` maps the query to them);
    directory creation and file retrieval are returned as actions. */
module BulkDownload {
  import opened Wrappers
  import opened PosixPath
  import opened Seqs

  /** `download_group_types_dict`: the API's group type to the output folder. */
  const GroupFolders: map<string, string> := map[
    "Sequence data" := "sequence_data",
    "Functional analysis" := "functional_analysis",
    "Taxonomic analysis" := "taxonomic_analysis",
    "Taxonomic analysis SSU rRNA" := "taxonomic_analysis_ssu",
    "Taxonomic analysis LSU rRNA" := "taxonomic_analysis_lsu",
    "Statistics" := "stats",
    "non-coding RNAs" := "non_coding_rna"]

  /** `non_amplicon_file_labels`: never fetched for amplicon analyses. */
  const NonAmpliconFileLabels: set<string> := {
    "Predicted CDS with annotation", "Predicted CDS without annotation",
    "Processed reads with annotation", "Processed reads without annotation",
    "Predicted ORF without annotation", "Processed reads with pCDS"}

  /** `pipeline_version_mapper`: user version to the API's filter value. */
  const PipelineVersionMapper: map<string, string> := map[
    "4.1" := "5", "4.0" := "4", "3.0" := "3", "2.0" := "2", "1.0" := "1"]

  // Python's `None` for the optional settings (version, result group) is
  // modelled as "": the code only ever tests them for truthiness.

  datatype Download = Download(alias: string, url: string, groupType: string, descriptionLabel: string)

  /** An analysis of the study; `run` is the accession of its run, if it has one. */
  datatype Analysis = Analysis(accession: string, pipelineVersion: string, run: Option<string>,
                               experimentType: string, downloads: seq<Download>)

  /** One iteration of the inner loop: a download and the analysis it belongs to. */
  datatype Entry = Entry(analysis: Analysis, download: Download)

  datatype InitError = UnsupportedResultGroup(group: string) | UnsupportedPipelineVersion(version: string)

  /** `create_subdir_folder` (mkdir with parents, existing is fine) followed by
      `download_resource_by_url(url, path)`. */
  datatype Action = Fetch(dir: string, url: string, path: string)

  datatype RunOutcome =
    | Finished(counter: nat, warning: Option<string>)
    | Crashed(error: Crash)

  datatype RunReport = RunReport(query: seq<(string, string)>, actions: seq<Action>, outcome: RunOutcome)

  /** `download_group_types_dict.get(group_type)`. */
  function GroupFolder(groupType: string): Option<string> {
    if groupType in GroupFolders then Some(GroupFolders[groupType]) else None
  }

  /** `_get_pipeline_version`: the API filter value for a user version, if any. */
  function GetPipelineVersion(version: string): (r: Option<string>)
    ensures r.Some? <==> version in {"4.1", "4.0", "3.0", "2.0", "1.0"}
    ensures version == "4.1" ==> r == Some("5")
    ensures version == "4.0" ==> r == Some("4")
    ensures version == "3.0" ==> r == Some("3")
    ensures version == "2.0" ==> r == Some("2")
    ensures version == "1.0" ==> r == Some("1")
  {
    if version in PipelineVersionMapper then Some(PipelineVersionMapper[version]) else None
  }

  /** Different user versions never select the same API filter value. */
  lemma PipelineVersionInjective(v1: string, v2: string)
    requires GetPipelineVersion(v1).Some? && GetPipelineVersion(v1) == GetPipelineVersion(v2)
    ensures v1 == v2
  {
  }

  /** Each output folder belongs to exactly one group type. */
  lemma GroupFolderInjective(g1: string, g2: string)
    requires GroupFolder(g1).Some? && GroupFolder(g1) == GroupFolder(g2)
    ensures g1 == g2
  {
  }

  /** The checks of `_init_program`, in its order: the result group first,
      then the pipeline version. Either failure ends the program with exit(1). */
  function Validate(resultGroup: string, version: string): (r: Option<InitError>)
    ensures r.None? <==>
      (resultGroup == "" || resultGroup in GroupFolders.Values) &&
      (version == "" || version in PipelineVersionMapper)
    ensures r == Some(UnsupportedResultGroup(resultGroup)) <==>
      resultGroup != "" && resultGroup !in GroupFolders.Values
    ensures r == Some(UnsupportedPipelineVersion(version)) <==>
      (resultGroup == "" || resultGroup in GroupFolders.Values) &&
      version != "" && version !in PipelineVersionMapper
  {
    if resultGroup != "" && resultGroup !in GroupFolders.Values then Some(UnsupportedResultGroup(resultGroup))
    else if version != "" && version !in PipelineVersionMapper then Some(UnsupportedPipelineVersion(version))
    else None
  }

  /** The analyses query of `run`, in insertion order: the study and a page
      size of 5 always, the mapped pipeline version only when there is one. */
  function QueryParams(projectId: string, version: string): (params: seq<(string, string)>)
    ensures |params| == (if version in PipelineVersionMapper then 3 else 2)
    ensures params[0] == ("study_accession", projectId) && params[1] == ("page_size", "5")
    ensures |params| == 3 ==> params[2] == ("pipeline_version", PipelineVersionMapper[version])
  {
    var base := [("study_accession", projectId), ("page_size", "5")];
    match GetPipelineVersion(version)
    case Some(v) => base + [("pipeline_version", v)]
    case None => base
  }

  /** What the body of the inner loop does with one download. */
  datatype Decision =
    | SkipAmplicon
    | SkipPhylogeneticTree
    | SkipOtherGroup
    | Place(folder: string)
    | MissingFolder   // os.path.join(..., None) raises TypeError

  predicate AmpliconExcluded(e: Entry) {
    e.analysis.experimentType == "amplicon" && e.download.descriptionLabel in NonAmpliconFileLabels
  }

  predicate PhylogeneticTreeExcluded(e: Entry) {
    e.download.descriptionLabel == "Phylogenetic tree" && e.analysis.pipelineVersion == "2.0"
  }

  function Decide(resultGroup: string, e: Entry): Decision {
    var folder := GroupFolder(e.download.groupType);
    if AmpliconExcluded(e) then SkipAmplicon
    else if PhylogeneticTreeExcluded(e) then SkipPhylogeneticTree
    else if resultGroup != "" && Some(resultGroup) != folder then SkipOtherGroup
    else match folder
      case Some(f) => Place(f)
      case None => MissingFolder
  }

  /** The downloads in loop order: every download of every analysis. */
  function Entries(analyses: seq<Analysis>): seq<Entry> {
    FlatMap(analyses, EntriesOf)
  }

  /** The number of analyses the loop gets through before one without a run:
      the log line at the top of the loop body reads `analysis.run.accession`,
      which raises AttributeError for such an analysis before any of its
      downloads is looked at. */
  function FirstWithoutRun(analyses: seq<Analysis>): (k: nat)
    ensures k <= |analyses|
    ensures forall j :: 0 <= j < k ==> analyses[j].run.Some?
    ensures k < |analyses| ==> analyses[k].run.None?
    decreases |analyses|
  {
    if analyses == [] || analyses[0].run.None? then 0
    else 1 + FirstWithoutRun(analyses[1..])
  }

  function EntriesOf(a: Analysis): seq<Entry> {
    seq(|a.downloads|, j requires 0 <= j < |a.downloads| => Entry(a, a.downloads[j]))
  }

  function TotalDownloads(analyses: seq<Analysis>): nat
    decreases |analyses|
  {
    if analyses == [] then 0
    else TotalDownloads(analyses[..|analyses| - 1]) + |analyses[|analyses| - 1].downloads|
  }

  /** The loop visits each download entry of each analysis exactly once. */
  lemma {:induction false} EntriesCount(analyses: seq<Analysis>)
    ensures |Entries(analyses)| == TotalDownloads(analyses)
    decreases |analyses|
  {
    if analyses != [] {
      EntriesCount(analyses[..|analyses| - 1]);
    }
  }

  /** The total is zero exactly when no analysis has a download. */
  lemma {:induction false} NoDownloadsIffZeroTotal(analyses: seq<Analysis>)
    ensures TotalDownloads(analyses) == 0 <==> forall i :: 0 <= i < |analyses| ==> analyses[i].downloads == []
    decreases |analyses|
  {
    if analyses != [] {
      var init := analyses[..|analyses| - 1];
      NoDownloadsIffZeroTotal(init);
      assert forall i :: 0 <= i < |init| ==> init[i] == analyses[i];
    }
  }

  /** A download the walk decided to fetch, with its output folder. */
  datatype Placement = Placement(entry: Entry, folder: string)

  /** The walk's decisions so far; `crashedAt` is the entry whose missing
      folder raised, after which nothing more happens. */
  datatype Plan = Plan(placements: seq<Placement>, crashedAt: Option<Entry>)

  /** One iteration of the inner loop on the plan so far. */
  function WalkStep(resultGroup: string, p: Plan, e: Entry): Plan {
    if p.crashedAt.Some? then p
    else match Decide(resultGroup, e)
      case Place(f) => Plan(p.placements + [Placement(e, f)], None)
      case MissingFolder => Plan(p.placements, Some(e))
      case _ => p
  }

  function Walk(resultGroup: string, es: seq<Entry>): Plan
    decreases |es|
  {
    if es == [] then Plan([], None)
    else WalkStep(resultGroup, Walk(resultGroup, es[..|es| - 1]), es[|es| - 1])
  }

  lemma WalkSnoc(resultGroup: string, es: seq<Entry>, e: Entry)
    ensures Walk(resultGroup, es + [e]) == WalkStep(resultGroup, Walk(resultGroup, es), e)
  {
    assert (es + [e])[..|es|] == es;
  }

  /** Every placement comes from an entry of the walk that the rules place. */
  lemma {:induction false} WalkSound(resultGroup: string, es: seq<Entry>)
    ensures forall q :: q in Walk(resultGroup, es).placements ==>
              q.entry in es && Decide(resultGroup, q.entry) == Place(q.folder)
    decreases |es|
  {
    if es != [] {
      var init := es[..|es| - 1];
      WalkSound(resultGroup, init);
      assert es == init + [es[|es| - 1]];
    }
  }

  /** A walk that did not crash places every entry the rules place. */
  lemma {:induction false} WalkComplete(resultGroup: string, es: seq<Entry>)
    ensures var p := Walk(resultGroup, es);
            p.crashedAt.None? ==>
              forall e :: e in es && Decide(resultGroup, e).Place? ==>
                Placement(e, Decide(resultGroup, e).folder) in p.placements
    decreases |es|
  {
    if es != [] {
      var init := es[..|es| - 1];
      WalkComplete(resultGroup, init);
      assert es == init + [es[|es| - 1]];
    }
  }

  /** The walk crashes exactly at an entry whose group type has no folder. */
  lemma {:induction false} WalkCrash(resultGroup: string, es: seq<Entry>)
    ensures var p := Walk(resultGroup, es);
            (p.crashedAt.Some? ==> p.crashedAt.value in es && Decide(resultGroup, p.crashedAt.value) == MissingFolder) &&
            (p.crashedAt.None? ==> forall e :: e in es ==> Decide(resultGroup, e) != MissingFolder)
    decreases |es|
  {
    if es != [] {
      var init := es[..|es| - 1];
      WalkCrash(resultGroup, init);
      assert es == init + [es[|es| - 1]];
    }
  }

  /** After the crash the rest of the downloads are never looked at. */
  lemma {:induction false} WalkStaysCrashed(resultGroup: string, es: seq<Entry>, more: seq<Entry>)
    requires Walk(resultGroup, es).crashedAt.Some?
    ensures Walk(resultGroup, es + more) == Walk(resultGroup, es)
    decreases |more|
  {
    if more != [] {
      var init := more[..|more| - 1];
      WalkStaysCrashed(resultGroup, es, init);
      assert (es + more)[..|es + more| - 1] == es + init;
      assert Walk(resultGroup, es + more) == Walk(resultGroup, es + init);
    } else {
      assert es + more == es;
    }
  }

  /** No download of an amplicon analysis with a non-amplicon label is fetched. */
  lemma AmpliconNeverPlaced(resultGroup: string, es: seq<Entry>)
    ensures forall q :: q in Walk(resultGroup, es).placements ==> !AmpliconExcluded(q.entry)
  {
    WalkSound(resultGroup, es);
  }

  /** No `Phylogenetic tree` of a version 2.0 analysis is fetched. */
  lemma PhylogeneticTreeNeverPlaced(resultGroup: string, es: seq<Entry>)
    ensures forall q :: q in Walk(resultGroup, es).placements ==> !PhylogeneticTreeExcluded(q.entry)
  {
    WalkSound(resultGroup, es);
  }

  /** With a result-group filter, only downloads whose group type maps to
      exactly that folder are fetched, and the walk cannot crash. */
  lemma FilterSelectsOneFolder(resultGroup: string, es: seq<Entry>)
    requires resultGroup != ""
    ensures var p := Walk(resultGroup, es);
            p.crashedAt.None? &&
            forall q :: q in p.placements ==>
              q.folder == resultGroup && GroupFolder(q.entry.download.groupType) == Some(resultGroup)
  {
    WalkSound(resultGroup, es);
    WalkCrash(resultGroup, es);
  }

  /** Without a filter, every download that neither exclusion rule removes is
      fetched into its group's folder, unless the walk crashed. */
  lemma NoFilterPlacesEveryKept(es: seq<Entry>)
    ensures var p := Walk("", es);
            p.crashedAt.None? ==>
              forall e :: e in es && !AmpliconExcluded(e) && !PhylogeneticTreeExcluded(e) ==>
                e.download.groupType in GroupFolders &&
                Placement(e, GroupFolders[e.download.groupType]) in p.placements
  {
    WalkComplete("", es);
    WalkCrash("", es);
  }

  /** `create_subdir_folder`: the analysis's own version string goes into the
      path, not the mapped filter value. */
  function SubDir(destDir: string, projectId: string, p: Placement): string {
    Join(destDir, [projectId, p.entry.analysis.pipelineVersion, p.folder])
  }

  /** The file path handed to the download, as the code builds it:
      `os.path.join(dest_dir, sub_dir, file_name)`. */
  function DownloadPathAsWritten(destDir: string, subDir: string, alias: string): string {
    Join(destDir, [subDir, alias])
  }

  /** The file path as evidently intended: the alias inside the created directory. */
  function DownloadPath(subDir: string, alias: string): (path: string)
    ensures IsAbs(alias) || (|subDir| > 0 && subDir[|subDir| - 1] != '/') ==>
      |path| >= |alias| && path[|path| - |alias|..] == alias
    ensures !IsAbs(alias) && |subDir| > 0 && subDir[|subDir| - 1] != '/' ==>
      path == subDir + "/" + alias
  {
    Join2(subDir, alias)
  }

  /** For an absolute output directory (the default, the working directory),
      the code's path and the intended one agree. */
  lemma AsWrittenAgreesForAbsoluteRoot(destDir: string, subDir: string, alias: string)
    requires IsAbs(subDir)
    ensures DownloadPathAsWritten(destDir, subDir, alias) == DownloadPath(subDir, alias)
  {
    var parts, first := [subDir, alias], [subDir];
    assert parts[..1] == first && parts[1] == alias;
    assert first[..0] == [] && first[0] == subDir;
    assert Join(destDir, first) == Join2(destDir, subDir) == subDir;
  }

  /** For a relative output directory the code puts it in front twice. */
  lemma AsWrittenDoublesRelativeRoot(destDir: string, subDir: string, alias: string)
    requires |destDir| > 0 && destDir[|destDir| - 1] != '/'
    requires !IsAbs(subDir) && !IsAbs(alias)
    ensures DownloadPathAsWritten(destDir, subDir, alias) == Join2(destDir + "/" + subDir, alias)
    ensures DownloadPathAsWritten(destDir, subDir, alias) != DownloadPath(subDir, alias)
  {
    var parts, first := [subDir, alias], [subDir];
    assert parts[..1] == first && parts[1] == alias;
    assert first[..0] == [] && first[0] == subDir;
    var doubled := destDir + "/" + subDir;
    assert Join(destDir, first) == Join2(destDir, subDir);
    var j := Join2(doubled, alias);
    assert Join2(destDir, subDir) == doubled;
    assert |j| >= |doubled| + |alias|;
  }

  /** The destination directory is dest_dir/project/version/folder. */
  lemma DestinationDirectory(destDir: string, projectId: string, p: Placement)
    requires |destDir| > 0 && destDir[|destDir| - 1] != '/'
    requires Plain(projectId) && Plain(p.entry.analysis.pipelineVersion) && Plain(p.folder)
    ensures SubDir(destDir, projectId, p) ==
      destDir + "/" + projectId + "/" + p.entry.analysis.pipelineVersion + "/" + p.folder
  {
    JoinPlain3(destDir, projectId, p.entry.analysis.pipelineVersion, p.folder);
  }

  /** The actions of the walk: for each placement, make its directory and
      retrieve its URL into it. */
  function PlacementAction(destDir: string, projectId: string, p: Placement): Action {
    var sub := SubDir(destDir, projectId, p);
    Fetch(sub, p.entry.download.url, DownloadPathAsWritten(destDir, sub, p.entry.download.alias))
  }

  function ActionsOf(destDir: string, projectId: string, ps: seq<Placement>): (r: seq<Action>)
    ensures |r| == |ps|
    ensures forall k :: 0 <= k < |ps| ==> r[k] == PlacementAction(destDir, projectId, ps[k])
  {
    seq(|ps|, k requires 0 <= k < |ps| => PlacementAction(destDir, projectId, ps[k]))
  }

  const NoResultsPrefix := "Could not retrieve any results for the given parameters!\nStudy Id: "

  /** The warning of `run` as written: the conditional binds looser than `+`,
      so without a version the whole message is 'Not specified'. */
  function NoResultsWarningAsWritten(projectId: string, version: string): string {
    if version != "" then NoResultsPrefix + projectId + "\nPipeline version: " + version
    else "Not specified"
  }

  /** The warning as evidently intended: it always names the study. */
  function NoResultsWarning(projectId: string, version: string): (msg: string)
    ensures |msg| > |NoResultsPrefix| + |projectId|
    ensures msg[..|NoResultsPrefix|] == NoResultsPrefix
    ensures msg[|NoResultsPrefix|..|NoResultsPrefix| + |projectId|] == projectId
    ensures version != "" ==> msg[|NoResultsPrefix| + |projectId|..] == "\nPipeline version: " + version
    ensures version == "" ==> msg[|NoResultsPrefix| + |projectId|..] == "\nPipeline version: Not specified"
  {
    NoResultsPrefix + projectId + "\nPipeline version: " + (if version != "" then version else "Not specified")
  }

  /** The two agree whenever a version was given; without one the code's
      message loses the study id. */
  lemma NoResultsWarningDiffers(projectId: string, version: string)
    ensures version != "" ==> NoResultsWarningAsWritten(projectId, version) == NoResultsWarning(projectId, version)
    ensures version == "" ==> NoResultsWarningAsWritten(projectId, version) == "Not specified" != NoResultsWarning(projectId, version)
  {
    if version == "" {
      var m := NoResultsWarning(projectId, version);
      assert |m| > |"Not specified"|;
    }
  }

  /** The exception of `os.path.join(dest_dir, ..., None)`. */
  const JoinNone := TypeErrorRaised("os.path.join() got None")

  /** The exception of `analysis.run.accession` for an analysis without a run. */
  const RunMissing := AttributeErrorRaised("'NoneType' object has no attribute 'accession'")

  /** The walk over the downloads of the analyses before the first one
      without a run. */
  function RunPlan(resultGroup: string, analyses: seq<Analysis>): Plan {
    Walk(resultGroup, Entries(analyses[..FirstWithoutRun(analyses)]))
  }

  /** What `run` does for a given server, as a function of the settings: the
      actions carry the path line 209 builds, and the warning is the message
      the code logs. */
  function RunSpec(destDir: string, projectId: string, version: string, resultGroup: string,
                   server: seq<(string, string)> -> seq<Analysis>): RunReport
  {
    var query := QueryParams(projectId, version);
    var analyses := server(query);
    var total := TotalDownloads(analyses);
    RunReport(query, ActionsOf(destDir, projectId, RunPlan(resultGroup, analyses).placements),
      match RunError(resultGroup, analyses)
      case Some(e) => Crashed(e)
      case None => Finished(total, if total == 0 then Some(NoResultsWarningAsWritten(projectId, version)) else None))
  }

  /** The exception that ends the loop of `run`, if any: a missing folder
      among the downloads reached, else an analysis without a run. */
  function RunError(resultGroup: string, analyses: seq<Analysis>): Option<Crash> {
    if RunPlan(resultGroup, analyses).crashedAt.Some? then Some(JoinNone)
    else if FirstWithoutRun(analyses) < |analyses| then Some(RunMissing)
    else None
  }

  /** A run finishes only when every analysis has a run; its counter ends at
      the number of all download entries, and the warning fires exactly when
      no analysis had any, naming the study only when a version was given. */
  lemma RunCounterAndWarning(destDir: string, projectId: string, version: string, resultGroup: string,
                             server: seq<(string, string)> -> seq<Analysis>)
    ensures var r := RunSpec(destDir, projectId, version, resultGroup, server);
            var analyses := server(QueryParams(projectId, version));
            r.outcome.Finished? ==>
              (forall i :: 0 <= i < |analyses| ==> analyses[i].run.Some?) &&
              r.outcome.counter == |Entries(analyses)| &&
              (r.outcome.warning.Some? <==> forall i :: 0 <= i < |analyses| ==> analyses[i].downloads == []) &&
              (r.outcome.warning.Some? && version != "" ==> r.outcome.warning.value == NoResultsWarning(projectId, version)) &&
              (r.outcome.warning.Some? && version == "" ==> r.outcome.warning.value == "Not specified")
  {
    var analyses := server(QueryParams(projectId, version));
    EntriesCount(analyses);
    NoDownloadsIffZeroTotal(analyses);
    NoResultsWarningDiffers(projectId, version);
  }

  /** An analysis without a run ends the run with AttributeError, unless an
      earlier download already raised; nothing of it or after it is fetched. */
  lemma MissingRunEndsRun(destDir: string, projectId: string, version: string, resultGroup: string,
                          server: seq<(string, string)> -> seq<Analysis>, i: nat)
    requires var analyses := server(QueryParams(projectId, version));
             i < |analyses| && analyses[i].run.None?
    ensures var r := RunSpec(destDir, projectId, version, resultGroup, server);
            var analyses := server(QueryParams(projectId, version));
            r.outcome.Crashed? &&
            (r.outcome.error == RunMissing <==> RunPlan(resultGroup, analyses).crashedAt.None?) &&
            forall q :: q in RunPlan(resultGroup, analyses).placements ==> q.entry in Entries(analyses[..i])
  {
    var analyses := server(QueryParams(projectId, version));
    var k := FirstWithoutRun(analyses);
    assert k <= i;
    WalkSound(resultGroup, Entries(analyses[..k]));
    assert analyses[..k] + analyses[k..i] == analyses[..i];
    FlatMapAppend(analyses[..k], analyses[k..i], EntriesOf);
  }

  /** With an absolute output directory (the default, the working directory)
      every file is retrieved into the directory just created for it, and with
      a version the warning is the intended one: the run then does what was
      evidently meant. */
  lemma RunAsIntended(destDir: string, projectId: string, version: string, resultGroup: string,
                      server: seq<(string, string)> -> seq<Analysis>)
    requires IsAbs(destDir)
    ensures var r := RunSpec(destDir, projectId, version, resultGroup, server);
            var ps := RunPlan(resultGroup, server(QueryParams(projectId, version))).placements;
            (forall k :: 0 <= k < |ps| ==>
               r.actions[k].dir == SubDir(destDir, projectId, ps[k]) &&
               r.actions[k].path == DownloadPath(r.actions[k].dir, ps[k].entry.download.alias)) &&
            (version != "" && r.outcome.Finished? && r.outcome.warning.Some? ==>
               r.outcome.warning.value == NoResultsWarning(projectId, version))
  {
    var ps := RunPlan(resultGroup, server(QueryParams(projectId, version))).placements;
    forall k | 0 <= k < |ps|
      ensures DownloadPathAsWritten(destDir, SubDir(destDir, projectId, ps[k]), ps[k].entry.download.alias)
              == DownloadPath(SubDir(destDir, projectId, ps[k]), ps[k].entry.download.alias)
    {
      AsWrittenAgreesForAbsoluteRoot(destDir, SubDir(destDir, projectId, ps[k]), ps[k].entry.download.alias);
    }
    NoResultsWarningDiffers(projectId, version);
  }

  /** `_init_program`'s defaulting of the output directory. */
  function EffectiveOutputPath(outputPath: string, cwd: string): (p: string)
    ensures outputPath != "" ==> p == outputPath
    ensures outputPath == "" ==> p == cwd
  {
    if outputPath == "" then cwd else outputPath
  }

  class BulkDownloader {
    const projectId: string
    var outputPath: string
    const version: string
    const resultGroup: string

    constructor (projectId: string, outputPath: string, version: string, resultGroup: string)
      ensures this.projectId == projectId && this.outputPath == outputPath
      ensures this.version == version && this.resultGroup == resultGroup
    {
      this.projectId := projectId;
      this.outputPath := outputPath;
      this.version := version;
      this.resultGroup := resultGroup;
    }

    /** `_init_program`: exits (the error) on an unsupported result group or
        version, before anything else; otherwise defaults the output path to
        the working directory. Loading the configuration file is not modelled. */
    method InitProgram(cwd: string) returns (error: Option<InitError>)
      modifies this`outputPath
      ensures error == Validate(resultGroup, version)
      ensures error.Some? ==> outputPath == old(outputPath)
      ensures error.None? ==> outputPath == EffectiveOutputPath(old(outputPath), cwd)
    {
      if resultGroup != "" && resultGroup !in GroupFolders.Values {
        return Some(UnsupportedResultGroup(resultGroup));
      }
      if version != "" && version !in PipelineVersionMapper {
        return Some(UnsupportedPipelineVersion(version));
      }
      if outputPath == "" {
        outputPath := cwd;
      }
      return None;
    }

    /** `run`: the loop over the analyses the query returns. */
    method Run(server: seq<(string, string)> -> seq<Analysis>) returns (report: RunReport)
      ensures report == RunSpec(outputPath, projectId, version, resultGroup, server)
    {
      var query := QueryParams(projectId, version);
      var actions, counter, error := VisitAnalyses(outputPath, projectId, resultGroup, server(query));
      if error.Some? {
        return RunReport(query, actions, Crashed(error.value));
      }
      var warning := if counter == 0 then Some(NoResultsWarningAsWritten(projectId, version)) else None;
      report := RunReport(query, actions, Finished(counter, warning));
    }
  }

  /** The loop of `run` over the analyses the query returns: the actions of
      the run's plan, and the exception that ended it or the final counter. */
  method VisitAnalyses(destDir: string, projectId: string, resultGroup: string, analyses: seq<Analysis>)
    returns (actions: seq<Action>, counter: nat, error: Option<Crash>)
    ensures actions == ActionsOf(destDir, projectId, RunPlan(resultGroup, analyses).placements)
    ensures error == RunError(resultGroup, analyses)
    ensures error.None? ==> counter == TotalDownloads(analyses)
  {
    counter, actions, error := 0, [], None;
    ghost var placed: seq<Placement> := [];
    ghost var k := FirstWithoutRun(analyses);
    var i := 0;
    while i < |analyses|
      invariant 0 <= i <= |analyses|
      invariant forall j :: 0 <= j < i ==> analyses[j].run.Some?
      invariant counter == |Entries(analyses[..i])|
      invariant Walk(resultGroup, Entries(analyses[..i])) == Plan(placed, None)
      invariant actions == ActionsOf(destDir, projectId, placed)
    {
      if analyses[i].run.None? {
        assert k == i;
        error := Some(RunMissing);
        return;
      }
      var crashed;
      actions, counter, crashed, placed :=
        VisitDownloads(destDir, projectId, resultGroup, analyses[i], Entries(analyses[..i]), placed, actions, counter);
      assert analyses[..i + 1][..i] == analyses[..i];
      assert Entries(analyses[..i + 1]) == Entries(analyses[..i]) + EntriesOf(analyses[i]);
      if crashed {
        assert i < k;
        FlatMapAppend(analyses[..i + 1], analyses[i + 1..k], EntriesOf);
        assert analyses[..i + 1] + analyses[i + 1..k] == analyses[..k];
        WalkStaysCrashed(resultGroup, Entries(analyses[..i + 1]), Entries(analyses[i + 1..k]));
        error := Some(JoinNone);
        return;
      }
      i := i + 1;
    }
    assert analyses[..i] == analyses;
    assert k == |analyses|;
    EntriesCount(analyses);
  }

  /** The inner loop of `run` over one analysis's downloads. `done` and
      `placed` are the entries visited and the placements made before it. */
  method VisitDownloads(destDir: string, projectId: string, resultGroup: string, analysis: Analysis,
                        ghost done: seq<Entry>, ghost placed: seq<Placement>, actions: seq<Action>, counter: nat)
    returns (actions': seq<Action>, counter': nat, crashed: bool, ghost placed': seq<Placement>)
    requires Walk(resultGroup, done) == Plan(placed, None)
    requires actions == ActionsOf(destDir, projectId, placed)
    ensures counter' == counter + |analysis.downloads|
    ensures actions' == ActionsOf(destDir, projectId, placed')
    ensures Walk(resultGroup, done + EntriesOf(analysis)).placements == placed'
    ensures Walk(resultGroup, done + EntriesOf(analysis)).crashedAt.Some? <==> crashed
  {
    actions', counter', crashed, placed' :=
      VisitEntries(destDir, projectId, resultGroup, analysis, xs => Walk(resultGroup, xs), EntriesOf(analysis),
                   done, placed, actions, counter);
  }

  /** The loop of `VisitDownloads`, with the analysis's entries given as `es`
      and the walk of `resultGroup` given as `walk`. */
  method VisitEntries(destDir: string, projectId: string, resultGroup: string, analysis: Analysis,
                      ghost walk: seq<Entry> -> Plan, ghost es: seq<Entry>,
                      ghost done: seq<Entry>, ghost placed: seq<Placement>, actions: seq<Action>, counter: nat)
    returns (actions': seq<Action>, counter': nat, crashed: bool, ghost placed': seq<Placement>)
    requires forall xs {:trigger Walk(resultGroup, xs)} :: walk(xs) == Walk(resultGroup, xs)
    requires |es| == |analysis.downloads|
    requires forall j :: 0 <= j < |es| ==> es[j] == Entry(analysis, analysis.downloads[j])
    requires walk(done) == Plan(placed, None)
    requires actions == ActionsOf(destDir, projectId, placed)
    ensures counter' == counter + |analysis.downloads|
    ensures actions' == ActionsOf(destDir, projectId, placed')
    ensures walk(done + es).placements == placed'
    ensures walk(done + es).crashedAt.Some? <==> crashed
  {
    actions', counter', crashed, placed' := actions, counter, false, placed;
    var j := 0;
    assert done + es[..j] == done;
    while j < |analysis.downloads|
      invariant 0 <= j <= |analysis.downloads|
      invariant counter' == counter + j
      invariant walk(done + es[..j]) == Plan(placed', None)
      invariant actions' == ActionsOf(destDir, projectId, placed')
    {
      var e := Entry(analysis, analysis.downloads[j]);
      ghost var before := done + es[..j];
      SnocSlice(done, es, j);
      j := j + 1;
      counter' := counter' + 1;
      actions', crashed, placed' := VisitEntry(destDir, projectId, resultGroup, walk, before, e, placed', actions');
      if crashed {
        ghost var rest := es[j..];
        SplitAround(done, es, j - 1);
        WalkAfterCrash(resultGroup, walk, before + [e], rest);
        counter' := counter + |analysis.downloads|;
        return;
      }
    }
    assert es[..j] == es;
  }

  /** One iteration of the inner loop, after the entries `before`: the entry
      is skipped, placed (its fetch action appended), or its missing folder
      raises; `Decide` holds the loop body's tests in their order. */
  method VisitEntry(destDir: string, projectId: string, resultGroup: string,
                    ghost walk: seq<Entry> -> Plan, ghost before: seq<Entry>, e: Entry,
                    ghost placed: seq<Placement>, actions: seq<Action>)
    returns (actions': seq<Action>, crashed: bool, ghost placed': seq<Placement>)
    requires forall xs {:trigger Walk(resultGroup, xs)} :: walk(xs) == Walk(resultGroup, xs)
    requires walk(before) == Plan(placed, None)
    requires actions == ActionsOf(destDir, projectId, placed)
    ensures crashed <==> walk(before + [e]).crashedAt.Some?
    ensures !crashed ==> walk(before + [e]) == Plan(placed', None)
    ensures walk(before + [e]).placements == placed'
    ensures actions' == ActionsOf(destDir, projectId, placed')
  {
    assert walk(before) == Walk(resultGroup, before);
    WalkSnoc(resultGroup, before, e);
    assert walk(before + [e]) == Walk(resultGroup, before + [e]);
    actions', crashed, placed' := actions, false, placed;
    match Decide(resultGroup, e) {
      case MissingFolder =>
        crashed := true;
      case Place(f) =>
        var sub := Join(destDir, [projectId, e.analysis.pipelineVersion, f]);
        actions' := actions' + [Fetch(sub, e.download.url, Join(destDir, [sub, e.download.alias]))];
        placed' := placed' + [Placement(e, f)];
        ActionsOfSnoc(destDir, projectId, placed, Placement(e, f));
      case _ =>
    }
  }

  /** `WalkStaysCrashed` for a walk given as a function. */
  lemma WalkAfterCrash(resultGroup: string, walk: seq<Entry> -> Plan, es: seq<Entry>, more: seq<Entry>)
    requires forall xs {:trigger Walk(resultGroup, xs)} :: walk(xs) == Walk(resultGroup, xs)
    requires walk(es).crashedAt.Some?
    ensures walk(es + more) == walk(es)
  {
    assert walk(es) == Walk(resultGroup, es);
    WalkStaysCrashed(resultGroup, es, more);
  }

  lemma ActionsOfSnoc(destDir: string, projectId: string, ps: seq<Placement>, p: Placement)
    ensures ActionsOf(destDir, projectId, ps + [p]) == ActionsOf(destDir, projectId, ps) + [PlacementAction(destDir, projectId, p)]
  {
    assert (ps + [p])[|ps|] == p;
  }

  datatype ToolOutcome = Exited(code: int, error: InitError) | Completed(report: RunReport)

  /** `bulk_download(args)`: build the downloader, validate, run. */
  method BulkDownloadTool(projectId: string, outputPath: string, version: string, resultGroup: string,
                          cwd: string, server: seq<(string, string)> -> seq<Analysis>)
    returns (r: ToolOutcome)
    ensures r.Exited? <==> Validate(resultGroup, version).Some?
    ensures r.Exited? ==> r.code == 1 && Some(r.error) == Validate(resultGroup, version)
    ensures r.Completed? ==>
      r.report == RunSpec(EffectiveOutputPath(outputPath, cwd), projectId, version, resultGroup, server)
  {
    var program := new BulkDownloader(projectId, outputPath, version, resultGroup);
    var error := program.InitProgram(cwd);
    if error.Some? {
      return Exited(1, error.value);
    }
    var report := program.Run(server);
    return Completed(report);
  }
}
