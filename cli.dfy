/** The part of `main` that runs after the path has been accepted: run the
    checks, score them, print the report in the chosen format, and gate the
    exit status on `--min-score`. */
module Cli {
  import opened Seqs
  import opened Text
  import opened FileTree
  import opened Checks
  import opened Scoring
  import opened TextOutput

  /** `--out json` or `--out text`. */
  datatype Format = Json | Text

  /** What goes to standard output: the report value for the JSON encoder, or
      the lines of the console table. */
  datatype Rendering = JsonDocument(report: Report) | TextTable(lines: seq<string>)

  /** The line written to standard error when the score is below the minimum. */
  function GateMessage(score: int, minScore: int): string
  {
    "Score " + IntToString(score) + " por debajo del m\U{00ED}nimo " + IntToString(minScore) + "."
  }

  /** The exit status of `main` once the report is printed. */
  function ExitStatus(score: int, minScore: Option<int>): (status: int)
    ensures status == 0 || status == 1
    ensures status == 1 <==> minScore.Some? && score < minScore.value
  {
    if minScore.Some? && score < minScore.value then 1 else 0
  }

  /** The report `main` builds for a tree. */
  function ReportFor(fs: Tree, repoPath: string, timestamp: string): Report
  {
    var checks := AllChecks(fs);
    BuildReport(repoPath, checks, Score(checks), timestamp)
  }

  /** The standard output of `main` for a report. */
  function Render(report: Report, format: Format): Rendering
  {
    match format
    case Text => TextTable(TextLines(report))
    case Json => JsonDocument(report)
  }

  /** `main` from `run_all_checks` on: the report is always printed; then, when
      a minimum is given and the score is below it, one line goes to standard
      error and the status is 1, otherwise nothing more and the status is 0. */
  method Scorecard(fs: Tree, repoPath: string, format: Format, minScore: Option<int>, timestamp: string)
    returns (output: Rendering, stderr: seq<string>, status: int)
    ensures output == Render(ReportFor(fs, repoPath, timestamp), format)
    ensures status == ExitStatus(Score(AllChecks(fs)), minScore)
    ensures status == 1 ==> stderr == [GateMessage(Score(AllChecks(fs)), minScore.value)]
    ensures status == 0 ==> stderr == []
  {
    var checks := RunAllChecks(fs);
    var score := Score(checks);
    var report := BuildReport(repoPath, checks, score, timestamp);
    if format == Text {
      var lines := OutputText(report);
      output := TextTable(lines);
    } else {
      output := JsonDocument(report);
    }
    stderr := [];
    status := 0;
    if minScore.Some? && score < minScore.value {
      stderr := [GateMessage(score, minScore.value)];
      status := 1;
    }
  }

  /** Without `--min-score` the run always succeeds, and a minimum of 0 is never
      violated: the score is never negative. */
  lemma GateNeedsMinimum(fs: Tree)
    ensures ExitStatus(Score(AllChecks(fs)), None) == 0
    ensures ExitStatus(Score(AllChecks(fs)), Some(0)) == 0
    ensures forall m :: m > 100 ==> ExitStatus(Score(AllChecks(fs)), Some(m)) == 1
  {
    ScoreOutOf100(fs);
  }

  /** Passing one more check never turns a passing gate into a failing one. */
  lemma GateMonotone(a: seq<CheckResult>, b: seq<CheckResult>, minScore: Option<int>)
    requires |a| == |b|
    requires NonNegativeWeights(a)
    requires forall i :: 0 <= i < |a| ==> a[i].weight == b[i].weight && (a[i].passed ==> b[i].passed)
    ensures ExitStatus(Score(a), minScore) == 0 ==> ExitStatus(Score(b), minScore) == 0
  {
    ScoreMonotone(a, b);
  }
}
