/** compare_projects: averages of the global metrics over the results of several
    analysis runs. */
module ComparativeAnalyzer {

  import opened Wrappers
  import Seqs
  import GlobalMetrics

  /** The fields of one result that the comparison reads: its optional 'project' and the
      two global metrics. */
  datatype RunResult = RunResult(project: Option<string>, globalSentiment: real, thematicCoherence: real)

  /** The comparison record; the three placeholder fields are always empty. */
  datatype Comparison = Comparison(
    projectsCompared: nat,
    totalFiles: nat,
    avgSentiment: real,
    avgCoherence: real,
    similarityMatrix: seq<real>,
    commonThemes: seq<string>,
    distinctiveFeatures: seq<(string, string)>)

  const ZeroDivisionError: string := "ZeroDivisionError"
  const UnknownProject: string := "unknown"

  function ProjectOf(r: RunResult): string {
    r.project.GetOr(UnknownProject)
  }

  function ProjectNames(rs: seq<RunResult>): seq<string> {
    seq(|rs|, i requires 0 <= i < |rs| => ProjectOf(rs[i]))
  }

  function Sentiments(rs: seq<RunResult>): seq<real> {
    seq(|rs|, i requires 0 <= i < |rs| => rs[i].globalSentiment)
  }

  function Coherences(rs: seq<RunResult>): seq<real> {
    seq(|rs|, i requires 0 <= i < |rs| => rs[i].thematicCoherence)
  }

  /** compare_projects: an empty list divides by zero. */
  function Compare(rs: seq<RunResult>): Result<Comparison, string> {
    if rs == [] then Failure(ZeroDivisionError)
    else
      Success(Comparison(
        |set p | p in ProjectNames(rs)|,
        |rs|,
        GlobalMetrics.Mean(Sentiments(rs)),
        GlobalMetrics.Mean(Coherences(rs)),
        [], [], []))
  }

  /** Failure exactly for the empty list; otherwise between one and total_files distinct
      projects, every result's project among them, averages bounded by the extreme values
      and the placeholders empty. */
  lemma CompareFacts(rs: seq<RunResult>, lo: real, hi: real)
    ensures Compare(rs).Failure? <==> rs == []
    ensures Compare(rs).Success? ==>
      var c := Compare(rs).value;
      && c.totalFiles == |rs|
      && 1 <= c.projectsCompared <= c.totalFiles
      && c.similarityMatrix == [] && c.commonThemes == [] && c.distinctiveFeatures == []
      && ((forall i :: 0 <= i < |rs| ==> lo <= rs[i].globalSentiment <= hi) ==> lo <= c.avgSentiment <= hi)
      && ((forall i :: 0 <= i < |rs| ==> lo <= rs[i].thematicCoherence <= hi) ==> lo <= c.avgCoherence <= hi)
  {
    if rs != [] {
      Seqs.SetSizeBounds(ProjectNames(rs));
      if forall i :: 0 <= i < |rs| ==> lo <= rs[i].globalSentiment <= hi {
        GlobalMetrics.MeanBounds(Sentiments(rs), lo, hi);
      }
      if forall i :: 0 <= i < |rs| ==> lo <= rs[i].thematicCoherence <= hi {
        GlobalMetrics.MeanBounds(Coherences(rs), lo, hi);
      }
    }
  }

  /** The averages times the number of results give back the sums. */
  lemma AveragesAreMeans(rs: seq<RunResult>)
    requires rs != []
    ensures Compare(rs).value.avgSentiment * |rs| as real == Seqs.Sum(Sentiments(rs))
    ensures Compare(rs).value.avgCoherence * |rs| as real == Seqs.Sum(Coherences(rs))
  {
  }

  /** Results of one project count once; a missing project is counted as 'unknown'. */
  lemma SingleProject(rs: seq<RunResult>, name: string)
    requires rs != []
    requires forall i :: 0 <= i < |rs| ==> ProjectOf(rs[i]) == name
    ensures Compare(rs).value.projectsCompared == 1
  {
    assert (set p | p in ProjectNames(rs)) == {name} by {
      assert ProjectNames(rs)[0] == name;
    }
  }
}
