/** Whole runs of the checks on two small directories: an empty one, and one
    holding only README.md. */
module Scenarios {
  import opened Seqs
  import opened Text
  import opened FileTree
  import opened Checks
  import opened Scoring

  /** A directory holding only the file README.md. */
  function ReadmeOnly(root: seq<string>, content: Option<string>): Tree
  {
    Tree(root, [Entry(["README.md"], true, content)], None)
  }

  lemma ReadmeNameParts()
    ensures Upper("README.md") == "README.MD"
    ensures Suffix("README.md") == ".md" && Lower(".md") == ".md"
    ensures Lower(Stem("README.md")) == "readme"
  {
    var u := Upper("README.md");
    assert |u| == 9 && forall i :: 0 <= i < 9 ==> u[i] == "README.MD"[i];
    assert LastIndexOf("README.md", '.') == 6;
    assert Stem("README.md") == "README";
    var l := Lower("README");
    assert |l| == 6 && forall i :: 0 <= i < 6 ==> l[i] == "readme"[i];
    var m := Lower(".md");
    assert |m| == 3 && forall i :: 0 <= i < 3 ==> m[i] == ".md"[i];
  }

  lemma ReadmeNameIsReadme()
    ensures ReadmeName(Upper("README.md"))
  {
    ReadmeNameParts();
    assert "README.MD" == "README.MD";
  }

  lemma ReadmeLower()
    ensures Lower("README.md") == "readme.md"
  {
    var l := Lower("README.md");
    assert |l| == 9 && forall i :: 0 <= i < 9 ==> l[i] == "readme.md"[i];
  }

  /** README.md is a README and not a licence or a test file. */
  lemma ReadmeIsOnlyReadme(e: Entry)
    requires e.path == ["README.md"] && e.isFile
    ensures IsReadme(e) && !IsLicense(e) && !LooksLikeTest(e)
  {
    assert Name(e) == "README.md";
    ReadmeNameParts();
    ReadmeNameIsReadme();
    NotLicense();
    ContainsNeedsFirst("readme", "test");
    ContainsNeedsFirst("readme", "spec");
  }

  /** README.md configures no linter, no telemetry and no versioned project. */
  lemma ReadmeIsNoConfig(e: Entry)
    requires e.path == ["README.md"]
    ensures !IsLinterConfig(e) && !IsTelemetryConfig(e) && !IsVersionedProject(e)
  {
    assert Name(e) == "README.md";
    ReadmeNameParts();
    NotLinterName();
  }

  lemma NotLicense()
    ensures !StartsWith("README.MD", "LICENSE")
  {
    assert "README.MD"[0] != "LICENSE"[0];
  }

  lemma NotLinterName()
    ensures var name := Lower("README.md");
      !(name == ".editorconfig" || StartsWith(name, ".eslintrc") || name == "ruff.toml" ||
        name == "stylecop.json" || name == "pyproject.toml")
  {
    ReadmeLower();
    assert "readme.md"[0] != ".eslintrc"[0];
  }

  /** In a tree holding only README.md, the root lists just that file, the
      walk finds nothing else, and no other path exists. */
  lemma ReadmeOnlyTree(root: seq<string>, content: Option<string>)
    ensures TopLevel(ReadmeOnly(root, content)) == ReadmeOnly(root, content).entries
    ensures forall x :: x in Walk(ReadmeOnly(root, content)) ==> x == ReadmeOnly(root, content).entries[0]
    ensures forall path :: path != ["README.md"] ==> Lookup(ReadmeOnly(root, content), path).None?
  {
    var fs := ReadmeOnly(root, content);
    var e := fs.entries[0];
    assert e.path[..0] == [];
    assert Filter(fs.entries, ChildOf([])) == Filter([], ChildOf([])) + [e];
    WalkSound(fs);
    forall path | path != ["README.md"] ensures Lookup(fs, path).None? {
      LookupMissing(fs, path);
    }
  }

  // One lemma per check on the README.md-only directory.

  lemma ReadmeOnlyReadme(root: seq<string>, content: Option<string>)
    ensures ReadmeCheck(ReadmeOnly(root, content)) == Readme.Pass("README.md")
  {
    var fs := ReadmeOnly(root, content);
    ReadmeOnlyTree(root, content);
    ReadmeIsOnlyReadme(fs.entries[0]);
    ReadmeCheckMeaning(fs);
    assert FirstMatchAt(TopLevel(fs), IsReadme, 0);
  }

  lemma ReadmeOnlyLicense(root: seq<string>, content: Option<string>)
    ensures !LicenseCheck(ReadmeOnly(root, content)).passed
  {
    var fs := ReadmeOnly(root, content);
    ReadmeOnlyTree(root, content);
    ReadmeIsOnlyReadme(fs.entries[0]);
    LicenseCheckMeaning(fs);
  }

  lemma ReadmeOnlyCodeowners(root: seq<string>, content: Option<string>)
    ensures !CodeownersCheck(ReadmeOnly(root, content)).passed
  {
    var fs := ReadmeOnly(root, content);
    ReadmeOnlyTree(root, content);
    CodeownersCheckMeaning(fs);
  }

  lemma ReadmeOnlyCi(root: seq<string>, content: Option<string>)
    ensures !CiCheck(ReadmeOnly(root, content)).passed
  {
    var fs := ReadmeOnly(root, content);
    ReadmeOnlyTree(root, content);
    assert !IsDir(fs, WorkflowsDir) by { assert WorkflowsDir != ["README.md"]; }
    assert [".gitlab-ci.yml"] != ["README.md"] by { assert |".gitlab-ci.yml"| != 9; }
    CiCheckMeaning(fs);
  }

  lemma ReadmeOnlyTests(root: seq<string>, content: Option<string>)
    requires "__tests__" !in root
    ensures !TestsCheck(ReadmeOnly(root, content)).passed
  {
    var fs := ReadmeOnly(root, content);
    ReadmeOnlyTree(root, content);
    ReadmeIsOnlyReadme(fs.entries[0]);
    TestsCheckMeaning(fs);
  }

  lemma ReadmeOnlyLinter(root: seq<string>, content: Option<string>)
    ensures !LinterCheck(ReadmeOnly(root, content)).passed
  {
    var fs := ReadmeOnly(root, content);
    ReadmeOnlyTree(root, content);
    ReadmeIsNoConfig(fs.entries[0]);
    LinterCheckMeaning(fs);
  }

  lemma ReadmeOnlyDocker(root: seq<string>, content: Option<string>)
    ensures !DockerCheck(ReadmeOnly(root, content)).passed
  {
    var fs := ReadmeOnly(root, content);
    ReadmeOnlyTree(root, content);
    forall name | name in DockerFiles ensures !IsFile(fs, [name]) {
      assert [name] != ["README.md"] by { assert |name| != 9; }
    }
    DockerCheckMeaning(fs);
  }

  lemma ReadmeOnlySecurity(root: seq<string>, content: Option<string>)
    ensures !SecurityCheck(ReadmeOnly(root, content)).passed
  {
    var fs := ReadmeOnly(root, content);
    ReadmeOnlyTree(root, content);
    assert ["SECURITY.md"] != ["README.md"] by { assert |"SECURITY.md"| != 9; }
    assert [".github", "dependabot.yml"] != ["README.md"];
    SecurityCheckMeaning(fs);
  }

  lemma ReadmeOnlyObservability(root: seq<string>, content: Option<string>)
    ensures !ObservabilityCheck(ReadmeOnly(root, content)).passed
  {
    var fs := ReadmeOnly(root, content);
    ReadmeOnlyTree(root, content);
    ReadmeIsNoConfig(fs.entries[0]);
    ObservabilityCheckMeaning(fs);
  }

  lemma ReadmeOnlyRelease(root: seq<string>, content: Option<string>)
    ensures !ReleaseCheck(ReadmeOnly(root, content)).passed
  {
    var fs := ReadmeOnly(root, content);
    ReadmeOnlyTree(root, content);
    ReadmeIsNoConfig(fs.entries[0]);
    assert ["CHANGELOG.md"] != ["README.md"] by { assert |"CHANGELOG.md"| != 9; }
    forall name | name in Manifests ensures ReadFile(fs, [name]).None? {
      assert [name] != ["README.md"] by { assert |name| != 9; }
    }
    ReleaseCheckMeaning(fs);
  }

  lemma ReadmeOnlyFirstHalf(root: seq<string>, content: Option<string>, i: nat)
    requires "__tests__" !in root
    requires i < 5
    ensures i == 0 ==> AllChecks(ReadmeOnly(root, content))[i] == Readme.Pass("README.md")
    ensures 0 < i ==> !AllChecks(ReadmeOnly(root, content))[i].passed
  {
    var fs := ReadmeOnly(root, content);
    if i == 0 {
      assert AllChecks(fs)[i] == ReadmeCheck(fs) by { ResultOfReadme(fs); }
      ReadmeOnlyReadme(root, content);
    } else if i == 1 {
      assert AllChecks(fs)[i] == LicenseCheck(fs) by { ResultOfLicense(fs); }
      ReadmeOnlyLicense(root, content);
    } else if i == 2 {
      assert AllChecks(fs)[i] == CodeownersCheck(fs) by { ResultOfCodeowners(fs); }
      ReadmeOnlyCodeowners(root, content);
    } else if i == 3 {
      assert AllChecks(fs)[i] == CiCheck(fs) by { ResultOfCi(fs); }
      ReadmeOnlyCi(root, content);
    } else {
      assert AllChecks(fs)[i] == TestsCheck(fs) by { ResultOfTests(fs); }
      ReadmeOnlyTests(root, content);
    }
  }

  lemma ReadmeOnlyLastHalf(root: seq<string>, content: Option<string>, i: nat)
    requires 5 <= i < 10
    ensures !AllChecks(ReadmeOnly(root, content))[i].passed
  {
    var fs := ReadmeOnly(root, content);
    if i == 5 {
      assert AllChecks(fs)[i] == LinterCheck(fs) by { ResultOfLinter(fs); }
      ReadmeOnlyLinter(root, content);
    } else if i == 6 {
      assert AllChecks(fs)[i] == DockerCheck(fs) by { ResultOfDocker(fs); }
      ReadmeOnlyDocker(root, content);
    } else if i == 7 {
      assert AllChecks(fs)[i] == SecurityCheck(fs) by { ResultOfSecurity(fs); }
      ReadmeOnlySecurity(root, content);
    } else if i == 8 {
      assert AllChecks(fs)[i] == ObservabilityCheck(fs) by { ResultOfObservability(fs); }
      ReadmeOnlyObservability(root, content);
    } else {
      assert AllChecks(fs)[i] == ReleaseCheck(fs) by { ResultOfRelease(fs); }
      ReadmeOnlyRelease(root, content);
    }
  }

  /** A directory holding only README.md: the readme check passes with
      evidence "README.md", every other check fails, and the score is 10. */
  lemma ReadmeOnlyScoresTen(root: seq<string>, content: Option<string>)
    requires "__tests__" !in root
    ensures var checks := AllChecks(ReadmeOnly(root, content));
      checks[0] == Readme.Pass("README.md") &&
      (forall i :: 1 <= i < |checks| ==> !checks[i].passed) &&
      Score(checks) == 10
  {
    var fs := ReadmeOnly(root, content);
    var checks := AllChecks(fs);
    ReadmeOnlyFirstHalf(root, content, 0);
    forall i | 1 <= i < |checks| ensures !checks[i].passed {
      if i < 5 {
        ReadmeOnlyFirstHalf(root, content, i);
      } else {
        ReadmeOnlyLastHalf(root, content, i);
      }
    }
    ScoreOutOf100(fs);
    ScoreOfFirstOnly(checks);
  }

  /** When only the first check passes, the score is its weight. */
  lemma ScoreOfFirstOnly(checks: seq<CheckResult>)
    requires PositiveWeights(checks) && |checks| > 0 && checks[0].passed
    requires forall i :: 1 <= i < |checks| ==> !checks[i].passed
    ensures Score(checks) == checks[0].weight
  {
    var none := checks[0 := checks[0].(passed := false)];
    assert PositiveWeights(none);
    ScoreExtremes(none);
    ScoreRaise(none, 0);
    assert none[0 := none[0].(passed := true)] == checks;
  }

  /** An empty directory passes no check and scores 0. */
  lemma EmptyRepoScoresZero(root: seq<string>)
    ensures var checks := AllChecks(Tree(root, [], None));
      (forall i :: 0 <= i < |checks| ==> !checks[i].passed) && Score(checks) == 0
  {
    var fs := Tree(root, [], None);
    var checks := AllChecks(fs);
    forall i | 0 <= i < |checks| ensures !checks[i].passed {
      if i < 5 {
        EmptyFirstChecksFail(root, i);
      } else {
        EmptyLastChecksFail(root, i);
      }
    }
    ScoreOutOf100(fs);
    ScoreExtremes(checks);
  }

  lemma EmptyFirstChecksFail(root: seq<string>, i: nat)
    requires i < 5
    ensures !AllChecks(Tree(root, [], None))[i].passed
  {
    var fs := Tree(root, [], None);
    if i == 0 {
      assert AllChecks(fs)[i] == ReadmeCheck(fs) by { ResultOfReadme(fs); }
      assert !ReadmeCheck(fs).passed by { ReadmeCheckMeaning(fs); }
    } else if i == 1 {
      assert AllChecks(fs)[i] == LicenseCheck(fs) by { ResultOfLicense(fs); }
      assert !LicenseCheck(fs).passed by { LicenseCheckMeaning(fs); }
    } else if i == 2 {
      assert AllChecks(fs)[i] == CodeownersCheck(fs) by { ResultOfCodeowners(fs); }
      assert !CodeownersCheck(fs).passed by { CodeownersCheckMeaning(fs); }
    } else if i == 3 {
      assert AllChecks(fs)[i] == CiCheck(fs) by { ResultOfCi(fs); }
      assert !CiCheck(fs).passed by { CiCheckMeaning(fs); }
    } else {
      assert AllChecks(fs)[i] == TestsCheck(fs) by { ResultOfTests(fs); }
      assert !TestsCheck(fs).passed by { TestsCheckMeaning(fs); }
    }
  }

  lemma EmptyLastChecksFail(root: seq<string>, i: nat)
    requires 5 <= i < 10
    ensures !AllChecks(Tree(root, [], None))[i].passed
  {
    var fs := Tree(root, [], None);
    if i == 5 {
      assert AllChecks(fs)[i] == LinterCheck(fs) by { ResultOfLinter(fs); }
      assert !LinterCheck(fs).passed by { LinterCheckMeaning(fs); }
    } else if i == 6 {
      assert AllChecks(fs)[i] == DockerCheck(fs) by { ResultOfDocker(fs); }
      assert !DockerCheck(fs).passed by { DockerCheckMeaning(fs); }
    } else if i == 7 {
      assert AllChecks(fs)[i] == SecurityCheck(fs) by { ResultOfSecurity(fs); }
      assert !SecurityCheck(fs).passed by { SecurityCheckMeaning(fs); }
    } else if i == 8 {
      assert AllChecks(fs)[i] == ObservabilityCheck(fs) by { ResultOfObservability(fs); }
      assert !ObservabilityCheck(fs).passed by { ObservabilityCheckMeaning(fs); }
    } else {
      assert AllChecks(fs)[i] == ReleaseCheck(fs) by { ResultOfRelease(fs); }
      assert !ReleaseCheck(fs).passed by { ReleaseCheckMeaning(fs); }
    }
  }
}
