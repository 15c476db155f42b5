/** Running the ten checks, the score and the report built from them. */
module Scoring {
  import opened Seqs
  import opened FileTree
  import opened Checks

  /** The checks, in the order they run and are reported. */
  const Registry: seq<Descriptor> :=
    [Readme, License, Codeowners, Ci, Tests, Linter, Docker, Security, Observability, Release]

  /** The check functions, in the order `run_all_checks` lists them. */
  const Runners: seq<Tree -> CheckResult> :=
    [ReadmeCheck, LicenseCheck, CodeownersCheck, CiCheck, TestsCheck,
     LinterCheck, DockerCheck, SecurityCheck, ObservabilityCheck, ReleaseCheck]

  /** The results of `run_all_checks`: each runner applied to the tree. */
  function AllChecks(fs: Tree): (r: seq<CheckResult>)
    ensures |r| == |Runners| == 10
    ensures forall i :: 0 <= i < |Runners| ==> r[i] == Runners[i](fs)
  {
    seq(|Runners|, i requires 0 <= i < |Runners| => Runners[i](fs))
  }

  // Where each check's result sits in the list of results.

  lemma ResultOfReadme(fs: Tree)
    ensures AllChecks(fs)[0] == ReadmeCheck(fs)
  {
  }

  lemma ReadmeDescribed(fs: Tree)
    ensures Of(ReadmeCheck(fs), Registry[0])
    ensures WellFormed(fs) ==> Evidenced(ReadmeCheck(fs))
  {
    ReadmeEvidenced(fs);
    assert Registry[0] == Readme;
  }

  lemma ResultOfLicense(fs: Tree)
    ensures AllChecks(fs)[1] == LicenseCheck(fs)
  {
  }

  lemma LicenseDescribed(fs: Tree)
    ensures Of(LicenseCheck(fs), Registry[1])
    ensures WellFormed(fs) ==> Evidenced(LicenseCheck(fs))
  {
    LicenseEvidenced(fs);
    assert Registry[1] == License;
  }

  lemma ResultOfCodeowners(fs: Tree)
    ensures AllChecks(fs)[2] == CodeownersCheck(fs)
  {
  }

  lemma CodeownersDescribed(fs: Tree)
    ensures Of(CodeownersCheck(fs), Registry[2])
    ensures WellFormed(fs) ==> Evidenced(CodeownersCheck(fs))
  {
    CodeownersEvidenced(fs);
    assert Registry[2] == Codeowners;
  }

  lemma ResultOfCi(fs: Tree)
    ensures AllChecks(fs)[3] == CiCheck(fs)
  {
  }

  lemma CiDescribed(fs: Tree)
    ensures Of(CiCheck(fs), Registry[3])
    ensures WellFormed(fs) ==> Evidenced(CiCheck(fs))
  {
    CiEvidenced(fs);
    assert Registry[3] == Ci;
  }

  lemma ResultOfTests(fs: Tree)
    ensures AllChecks(fs)[4] == TestsCheck(fs)
  {
  }

  lemma TestsDescribed(fs: Tree)
    ensures Of(TestsCheck(fs), Registry[4])
    ensures WellFormed(fs) ==> Evidenced(TestsCheck(fs))
  {
    TestsEvidenced(fs);
    assert Registry[4] == Tests;
  }

  lemma ResultOfLinter(fs: Tree)
    ensures AllChecks(fs)[5] == LinterCheck(fs)
  {
  }

  lemma LinterDescribed(fs: Tree)
    ensures Of(LinterCheck(fs), Registry[5])
    ensures WellFormed(fs) ==> Evidenced(LinterCheck(fs))
  {
    LinterEvidenced(fs);
    assert Registry[5] == Linter;
  }

  lemma ResultOfDocker(fs: Tree)
    ensures AllChecks(fs)[6] == DockerCheck(fs)
  {
  }

  lemma DockerDescribed(fs: Tree)
    ensures Of(DockerCheck(fs), Registry[6])
    ensures WellFormed(fs) ==> Evidenced(DockerCheck(fs))
  {
    DockerEvidenced(fs);
    assert Registry[6] == Docker;
  }

  lemma ResultOfSecurity(fs: Tree)
    ensures AllChecks(fs)[7] == SecurityCheck(fs)
  {
  }

  lemma SecurityDescribed(fs: Tree)
    ensures Of(SecurityCheck(fs), Registry[7])
    ensures WellFormed(fs) ==> Evidenced(SecurityCheck(fs))
  {
    SecurityEvidenced(fs);
    assert Registry[7] == Security;
  }

  lemma ResultOfObservability(fs: Tree)
    ensures AllChecks(fs)[8] == ObservabilityCheck(fs)
  {
  }

  lemma ObservabilityDescribed(fs: Tree)
    ensures Of(ObservabilityCheck(fs), Registry[8])
    ensures WellFormed(fs) ==> Evidenced(ObservabilityCheck(fs))
  {
    ObservabilityEvidenced(fs);
    assert Registry[8] == Observability;
  }

  lemma ResultOfRelease(fs: Tree)
    ensures AllChecks(fs)[9] == ReleaseCheck(fs)
  {
  }

  lemma ReleaseDescribed(fs: Tree)
    ensures Of(ReleaseCheck(fs), Registry[9])
    ensures WellFormed(fs) ==> Evidenced(ReleaseCheck(fs))
  {
    ReleaseEvidenced(fs);
    assert Registry[9] == Release;
  }

  /** The i-th result comes from the i-th registered check and, on a
      well-formed tree, carries evidence exactly when it passes. */
  lemma AllChecksOf(fs: Tree, i: nat)
    requires i < |Registry|
    ensures |AllChecks(fs)| == |Registry|
    ensures Of(AllChecks(fs)[i], Registry[i])
    ensures WellFormed(fs) ==> Evidenced(AllChecks(fs)[i])
  {
    if i < 3 {
      FirstChecksOf(fs, i);
    } else if i < 5 {
      SecondChecksOf(fs, i);
    } else if i < 8 {
      ThirdChecksOf(fs, i);
    } else {
      LastChecksOf(fs, i);
    }
  }

  lemma FirstChecksOf(fs: Tree, i: nat)
    requires i < 3
    ensures Of(AllChecks(fs)[i], Registry[i])
    ensures WellFormed(fs) ==> Evidenced(AllChecks(fs)[i])
  {
    if i == 0 {
      ResultOfReadme(fs);
      ReadmeDescribed(fs);
    } else if i == 1 {
      ResultOfLicense(fs);
      LicenseDescribed(fs);
    } else {
      ResultOfCodeowners(fs);
      CodeownersDescribed(fs);
    }
  }

  lemma SecondChecksOf(fs: Tree, i: nat)
    requires 3 <= i < 5
    ensures Of(AllChecks(fs)[i], Registry[i])
    ensures WellFormed(fs) ==> Evidenced(AllChecks(fs)[i])
  {
    if i == 3 {
      ResultOfCi(fs);
      CiDescribed(fs);
    } else {
      ResultOfTests(fs);
      TestsDescribed(fs);
    }
  }

  lemma ThirdChecksOf(fs: Tree, i: nat)
    requires 5 <= i < 8
    ensures Of(AllChecks(fs)[i], Registry[i])
    ensures WellFormed(fs) ==> Evidenced(AllChecks(fs)[i])
  {
    if i == 5 {
      ResultOfLinter(fs);
      LinterDescribed(fs);
    } else if i == 6 {
      ResultOfDocker(fs);
      DockerDescribed(fs);
    } else {
      ResultOfSecurity(fs);
      SecurityDescribed(fs);
    }
  }

  lemma LastChecksOf(fs: Tree, i: nat)
    requires 8 <= i < 10
    ensures Of(AllChecks(fs)[i], Registry[i])
    ensures WellFormed(fs) ==> Evidenced(AllChecks(fs)[i])
  {
    if i == 8 {
      ResultOfObservability(fs);
      ObservabilityDescribed(fs);
    } else {
      ResultOfRelease(fs);
      ReleaseDescribed(fs);
    }
  }

  /** One runner of `run_all_checks`, through the method that carries the
      check's loop where it has one. */
  method RunCheck(fs: Tree, i: nat) returns (r: CheckResult)
    requires i < |Runners|
    ensures r == AllChecks(fs)[i]
  {
    if i == 0 { r := CheckReadme(fs); ResultOfReadme(fs); }
    else if i == 1 { r := CheckLicense(fs); ResultOfLicense(fs); }
    else if i == 2 { r := CheckCodeowners(fs); ResultOfCodeowners(fs); }
    else if i == 3 { r := CheckCi(fs); ResultOfCi(fs); }
    else if i == 4 { r := CheckTests(fs); ResultOfTests(fs); }
    else if i == 5 { r := CheckLinter(fs); ResultOfLinter(fs); }
    else if i == 6 { r := CheckDocker(fs); ResultOfDocker(fs); }
    else if i == 7 { r := SecurityCheck(fs); ResultOfSecurity(fs); }
    else if i == 8 { r := CheckObservability(fs); ResultOfObservability(fs); }
    else { r := CheckRelease(fs); ResultOfRelease(fs); }
  }

  /** `run_all_checks`: every runner once, in order. */
  method RunAllChecks(fs: Tree) returns (checks: seq<CheckResult>)
    ensures checks == AllChecks(fs)
  {
    checks := [];
    for i := 0 to |Runners|
      invariant checks == AllChecks(fs)[..i]
    {
      var c := RunCheck(fs, i);
      assert AllChecks(fs)[..i + 1] == AllChecks(fs)[..i] + [AllChecks(fs)[i]];
      checks := checks + [c];
    }
    assert AllChecks(fs)[..|Runners|] == AllChecks(fs);
  }

  function Passing(): CheckResult -> bool
  {
    (c: CheckResult) => c.passed
  }

  function Failing(): CheckResult -> bool
  {
    (c: CheckResult) => !c.passed
  }

  /** The sum of the weights of `checks`, passed or not. */
  function TotalWeight(checks: seq<CheckResult>): int
  {
    if checks == [] then 0 else TotalWeight(checks[..|checks| - 1]) + checks[|checks| - 1].weight
  }

  /** The sum of the weights of the registered checks. */
  function RegistryWeight(ds: seq<Descriptor>): int
  {
    if ds == [] then 0 else RegistryWeight(ds[..|ds| - 1]) + ds[|ds| - 1].weight
  }

  predicate NonNegativeWeights(checks: seq<CheckResult>)
  {
    forall i :: 0 <= i < |checks| ==> checks[i].weight >= 0
  }

  predicate PositiveWeights(checks: seq<CheckResult>)
  {
    forall i :: 0 <= i < |checks| ==> checks[i].weight > 0
  }

  /** `compute_score`: the sum of the weights of the passed checks. With
      non-negative weights it lies between 0 and the total weight. */
  function Score(checks: seq<CheckResult>): (s: int)
    ensures NonNegativeWeights(checks) ==> 0 <= s <= TotalWeight(checks)
  {
    if checks == [] then 0
    else
      Score(checks[..|checks| - 1]) + Gain(checks[|checks| - 1])
  }

  /** `sum(1 for c in checks if c.passed)`. */
  function CountPassed(checks: seq<CheckResult>): (n: nat)
    ensures n <= |checks|
  {
    if checks == [] then 0
    else CountPassed(checks[..|checks| - 1]) + (if checks[|checks| - 1].passed then 1 else 0)
  }

  /** `sum(1 for c in checks if not c.passed)`. */
  function CountFailed(checks: seq<CheckResult>): (n: nat)
    ensures n <= |checks|
  {
    if checks == [] then 0
    else CountFailed(checks[..|checks| - 1]) + (if checks[|checks| - 1].passed then 0 else 1)
  }

  /** The score is the total weight of the passed checks, as the source's
      generator expression states it. */
  lemma {:induction false} ScoreIsWeightOfPassed(checks: seq<CheckResult>)
    ensures Score(checks) == TotalWeight(Filter(checks, Passing()))
  {
    if checks != [] {
      var init, last := checks[..|checks| - 1], checks[|checks| - 1];
      assert checks == init + [last];
      FilterSnoc(init, last, Passing());
      ScoreIsWeightOfPassed(init);
      var f := Filter(init, Passing());
      assert Filter(checks, Passing()) == f + (if last.passed then [last] else []);
      assert Score(checks) == Score(init) + (if last.passed then last.weight else 0);
      if last.passed {
        assert (f + [last])[..|f|] == f;
        assert TotalWeight(f + [last]) == TotalWeight(f) + last.weight;
      } else {
        assert f + [] == f;
      }
    }
  }

  /** The passed and failed counts partition the checks, and the passed
      count is the number of passing results. */
  lemma {:induction false} CountsPartition(checks: seq<CheckResult>)
    ensures CountPassed(checks) + CountFailed(checks) == |checks|
    ensures CountPassed(checks) == |Filter(checks, Passing())|
    ensures CountFailed(checks) == |Filter(checks, Failing())|
  {
    if checks != [] {
      var init, last := checks[..|checks| - 1], checks[|checks| - 1];
      assert checks == init + [last];
      FilterSnoc(init, last, Passing());
      FilterSnoc(init, last, Failing());
      CountsPartition(init);
    }
  }

  /** All checks pass exactly when the score reaches the total weight, and
      none passes exactly when the score is 0 (for positive weights). */
  lemma {:induction false} ScoreExtremes(checks: seq<CheckResult>)
    requires PositiveWeights(checks)
    ensures Score(checks) == TotalWeight(checks) <==> forall i :: 0 <= i < |checks| ==> checks[i].passed
    ensures Score(checks) == 0 <==> forall i :: 0 <= i < |checks| ==> !checks[i].passed
  {
    if checks != [] {
      var init := checks[..|checks| - 1];
      assert PositiveWeights(init);
      ScoreExtremes(init);
      assert forall i :: 0 <= i < |init| ==> init[i] == checks[i];
    }
  }

  /** Turning any failing check into a passing one never lowers the score. */
  lemma {:induction false} ScoreMonotone(a: seq<CheckResult>, b: seq<CheckResult>)
    requires |a| == |b|
    requires NonNegativeWeights(a)
    requires forall i :: 0 <= i < |a| ==> a[i].weight == b[i].weight && (a[i].passed ==> b[i].passed)
    ensures Score(a) <= Score(b)
  {
    if a != [] {
      ScoreMonotone(a[..|a| - 1], b[..|b| - 1]);
    }
  }

  /** Passing one more check raises the score by exactly that check's weight. */
  lemma ScoreRaise(checks: seq<CheckResult>, k: nat)
    requires k < |checks| && !checks[k].passed
    ensures Score(checks[k := checks[k].(passed := true)]) == Score(checks) + checks[k].weight
  {
    var raised := checks[k := checks[k].(passed := true)];
    var pre, post := checks[..k], checks[k + 1..];
    assert checks == (pre + [checks[k]]) + post;
    assert raised == (pre + [raised[k]]) + post;
    ScoreSplit(pre, checks[k], post);
    ScoreSplit(pre, raised[k], post);
  }

  /** The score of a list split around one result. */
  lemma ScoreSplit(pre: seq<CheckResult>, c: CheckResult, post: seq<CheckResult>)
    ensures Score((pre + [c]) + post) == Score(pre) + Gain(c) + Score(post)
  {
    ScoreAppend(pre + [c], post);
    ScoreLast(pre + [c]);
    assert (pre + [c])[..|pre|] == pre;
  }

  /** The score of a concatenation is the sum of the scores. */
  lemma {:induction false} ScoreAppend(a: seq<CheckResult>, b: seq<CheckResult>)
    ensures Score(a + b) == Score(a) + Score(b)
  {
    if b == [] {
      assert a + b == a;
    } else {
      var n := |b| - 1;
      ScoreAppend(a, b[..n]);
      ScoreLast(a + b);
      ScoreLast(b);
      assert (a + b)[..|a| + n] == a + b[..n];
    }
  }

  /** The score of a non-empty list: the score of all but the last result,
      plus the last one's weight when it passes. */
  lemma ScoreLast(checks: seq<CheckResult>)
    requires |checks| > 0
    ensures var n := |checks| - 1;
      Score(checks) == Score(checks[..n]) + Gain(checks[n])
  {
  }

  /** What one result adds to the score. */
  function Gain(c: CheckResult): int
  {
    if c.passed then c.weight else 0
  }

  /** Total weight depends on the weights alone. */
  lemma {:induction false} TotalWeightOfRegistry(checks: seq<CheckResult>, ds: seq<Descriptor>)
    requires |checks| == |ds|
    requires forall i :: 0 <= i < |ds| ==> checks[i].weight == ds[i].weight
    ensures TotalWeight(checks) == RegistryWeight(ds)
  {
    if checks != [] {
      TotalWeightOfRegistry(checks[..|checks| - 1], ds[..|ds| - 1]);
    }
  }

  /** The registered weights are positive and add up to 100. */
  lemma RegisteredWeights()
    ensures RegistryWeight(Registry) == 100
    ensures forall i :: 0 <= i < |Registry| ==> Registry[i].weight > 0
  {
    var w := Registry;
    for k := 0 to |w|
      invariant RegistryWeight(w[..k]) == [0, 10, 15, 25, 40, 55, 65, 75, 85, 90, 100][k]
    {
      assert w[..k + 1][..k] == w[..k];
    }
    assert w[..|w|] == w;
  }

  /** The registered weights add up to 100, so every score lies in 0..100,
      and every weight is positive. */
  lemma ScoreOutOf100(fs: Tree)
    ensures TotalWeight(AllChecks(fs)) == 100
    ensures PositiveWeights(AllChecks(fs))
    ensures 0 <= Score(AllChecks(fs)) <= 100
  {
    var checks := AllChecks(fs);
    forall i | 0 <= i < |Registry|
      ensures checks[i].weight == Registry[i].weight
    {
      AllChecksOf(fs, i);
    }
    RegisteredWeights();
    TotalWeightOfRegistry(checks, Registry);
  }

  /** The report of `build_report`, without the JSON encoding. */
  datatype Report = Report(
    repoPath: string,
    score: int,
    passed: nat,
    failed: nat,
    checks: seq<CheckResult>,
    timestamp: string)

  /** `build_report`; the resolved root path and the UTC timestamp are given. */
  function BuildReport(repoPath: string, checks: seq<CheckResult>, score: int, timestamp: string): (r: Report)
    ensures r.checks == checks && r.score == score
    ensures r.passed + r.failed == |checks|
    ensures r.passed == |Filter(checks, Passing())| && r.failed == |Filter(checks, Failing())|
    ensures r.repoPath == repoPath && r.timestamp == timestamp
  {
    CountsPartition(checks);
    Report(repoPath, score, CountPassed(checks), CountFailed(checks), checks, timestamp)
  }
}
