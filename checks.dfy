/** The ten repository checks. Each is a function that states the result
    (which evidence wins when several candidates exist: the first one in
    listing order) and, where the source searches with a loop, a method with
    that loop, proved to return exactly what the function states. */
module Checks {
  import opened Seqs
  import opened Text
  import opened FileTree
  import opened VersionPatterns

  datatype CheckResult = CheckResult(id: string, name: string, weight: int, passed: bool, evidence: string)

  /** The fixed identity of one check. */
  datatype Descriptor = Descriptor(id: string, title: string, weight: int)
  {
    function Pass(evidence: string): CheckResult
    {
      CheckResult(id, title, weight, true, evidence)
    }

    function Fail(): CheckResult
    {
      CheckResult(id, title, weight, false, "")
    }
  }

  const Readme := Descriptor("readme", "README existe", 10)
  const License := Descriptor("license", "LICENSE existe", 5)
  const Codeowners := Descriptor("codeowners", "CODEOWNERS existe", 10)
  const Ci := Descriptor("ci", "CI configurado", 15)
  const Tests := Descriptor("tests", "Tests presentes", 15)
  const Linter := Descriptor("linter", "Linter config", 10)
  const Docker := Descriptor("docker", "Docker presente", 10)
  const Security := Descriptor("security", "Security docs/config", 10)
  const Observability := Descriptor("observability", "OpenTelemetry en deps/config", 5)
  const Release := Descriptor("release", "Release hygiene", 10)

  /** `r` comes from check `d`: it carries d's id, title and weight, and a
      failing result carries no evidence. */
  predicate Of(r: CheckResult, d: Descriptor)
  {
    r.id == d.id && r.name == d.title && r.weight == d.weight && (!r.passed ==> r.evidence == "")
  }

  // ---------------------------------------------------------------- readme

  /** An upper-cased top-level name that counts as a README. */
  predicate ReadmeName(upper: string)
  {
    upper == "README.MD" || (StartsWith(upper, "README.") && |upper| > 7)
  }

  predicate IsReadme(e: Entry)
  {
    e.isFile && ReadmeName(Upper(Name(e)))
  }

  function ReadmeCheck(fs: Tree): (r: CheckResult)
    ensures Of(r, Readme)
  {
    var xs := TopLevel(fs);
    match FindFirst(xs, IsReadme)
    case Some(k) => Readme.Pass(Name(xs[k]))
    case None => Readme.Fail()
  }

  /** `check_readme` passes exactly when the root holds a README file, and
      then names the first one listed. */
  lemma ReadmeCheckMeaning(fs: Tree)
    ensures ReadmeCheck(fs).passed <==> exists e :: e in fs.entries && |e.path| == 1 && IsReadme(e)
    ensures ReadmeCheck(fs).passed ==> ReadmeCheck(fs).evidence != ""
    ensures forall k :: FirstMatchAt(TopLevel(fs), IsReadme, k) ==> ReadmeCheck(fs).evidence == Name(TopLevel(fs)[k])
  {
    TopLevelMembers(fs);
    FindFirstFound(TopLevel(fs), IsReadme);
  }

  /** `check_readme`. */
  method CheckReadme(fs: Tree) returns (r: CheckResult)
    ensures r == ReadmeCheck(fs)
  {
    var xs := TopLevel(fs);
    for i := 0 to |xs|
      invariant forall j :: 0 <= j < i ==> !IsReadme(xs[j])
    {
      var p := xs[i];
      if !p.isFile {
        continue;
      }
      var name := Upper(Name(p));
      if name == "README.MD" || (StartsWith(name, "README.") && |name| > 7) {
        FindFirstAt(xs, IsReadme, i);
        return Readme.Pass(Name(p));
      }
    }
    return Readme.Fail();
  }

  // --------------------------------------------------------------- license

  predicate IsLicense(e: Entry)
  {
    e.isFile && StartsWith(Upper(Name(e)), "LICENSE")
  }

  function LicenseCheck(fs: Tree): (r: CheckResult)
    ensures Of(r, License)
  {
    var xs := TopLevel(fs);
    match FindFirst(xs, IsLicense)
    case Some(k) => License.Pass(Name(xs[k]))
    case None => License.Fail()
  }

  /** `check_license` passes exactly when the root holds a LICENSE* file, and
      then names the first one listed. */
  lemma LicenseCheckMeaning(fs: Tree)
    ensures LicenseCheck(fs).passed <==> exists e :: e in fs.entries && |e.path| == 1 && IsLicense(e)
    ensures LicenseCheck(fs).passed ==> LicenseCheck(fs).evidence != ""
    ensures forall k :: FirstMatchAt(TopLevel(fs), IsLicense, k) ==> LicenseCheck(fs).evidence == Name(TopLevel(fs)[k])
  {
    TopLevelMembers(fs);
    FindFirstFound(TopLevel(fs), IsLicense);
  }

  /** `check_license`. */
  method CheckLicense(fs: Tree) returns (r: CheckResult)
    ensures r == LicenseCheck(fs)
  {
    var xs := TopLevel(fs);
    for i := 0 to |xs|
      invariant forall j :: 0 <= j < i ==> !IsLicense(xs[j])
    {
      var p := xs[i];
      if p.isFile && StartsWith(Upper(Name(p)), "LICENSE") {
        FindFirstAt(xs, IsLicense, i);
        return License.Pass(Name(p));
      }
    }
    return License.Fail();
  }

  // ------------------------------------------------------------ codeowners

  const CodeownersCandidates: seq<seq<string>> := [[".github", "CODEOWNERS"], ["CODEOWNERS"]]

  function FileExists(fs: Tree): seq<string> -> bool
  {
    (p: seq<string>) => IsFile(fs, p)
  }

  function CodeownersCheck(fs: Tree): (r: CheckResult)
    ensures Of(r, Codeowners)
  {
    match FindFirst(CodeownersCandidates, FileExists(fs))
    case Some(k) => Codeowners.Pass(Join(CodeownersCandidates[k]))
    case None => Codeowners.Fail()
  }

  /** `check_codeowners` passes exactly when one of the two candidate files
      exists, and prefers the one under `.github`. */
  lemma CodeownersCheckMeaning(fs: Tree)
    ensures CodeownersCheck(fs).passed <==> IsFile(fs, [".github", "CODEOWNERS"]) || IsFile(fs, ["CODEOWNERS"])
    ensures CodeownersCheck(fs).passed ==> CodeownersCheck(fs).evidence == (if IsFile(fs, [".github", "CODEOWNERS"]) then ".github/CODEOWNERS" else "CODEOWNERS")
  {
    var c, p := CodeownersCandidates, FileExists(fs);
    if p(c[0]) {
      FindFirstAt(c, p, 0);
      assert Join(c[0]) == ".github/CODEOWNERS";
    } else if p(c[1]) {
      FindFirstAt(c, p, 1);
      assert Join(c[1]) == "CODEOWNERS";
    } else {
      assert forall j :: 0 <= j < |c| ==> !p(c[j]);
    }
  }

  /** `check_codeowners`. */
  method CheckCodeowners(fs: Tree) returns (r: CheckResult)
    ensures r == CodeownersCheck(fs)
  {
    var candidates := CodeownersCandidates;
    for i := 0 to |candidates|
      invariant forall j :: 0 <= j < i ==> !IsFile(fs, candidates[j])
    {
      if IsFile(fs, candidates[i]) {
        FindFirstAt(candidates, FileExists(fs), i);
        return Codeowners.Pass(Join(candidates[i]));
      }
    }
    return Codeowners.Fail();
  }

  // -------------------------------------------------------------------- ci

  const WorkflowsDir: seq<string> := [".github", "workflows"]

  /** A workflow listing entry with a `.yml` / `.yaml` suffix in any case;
      whether it is a file is not looked at. */
  predicate IsWorkflow(e: Entry)
  {
    var suffix := Lower(Suffix(Name(e)));
    suffix == ".yml" || suffix == ".yaml"
  }

  ghost predicate HasWorkflow(fs: Tree)
  {
    IsDir(fs, WorkflowsDir) && exists e :: e in Children(fs, WorkflowsDir) && IsWorkflow(e)
  }

  function CiCheck(fs: Tree): (r: CheckResult)
    ensures Of(r, Ci)
  {
    var kids := Children(fs, WorkflowsDir);
    match if IsDir(fs, WorkflowsDir) then FindFirst(kids, IsWorkflow) else None
    case Some(k) =>
      Ci.Pass(Join(kids[k].path))
    case None =>
      if IsFile(fs, [".gitlab-ci.yml"]) then Ci.Pass(".gitlab-ci.yml") else Ci.Fail()
  }

  /** `check_ci` passes exactly when the workflows directory lists a YAML
      entry or `.gitlab-ci.yml` exists; a workflow takes precedence and is
      reported by its path relative to the root. */
  lemma CiCheckMeaning(fs: Tree)
    ensures CiCheck(fs).passed <==> HasWorkflow(fs) || IsFile(fs, [".gitlab-ci.yml"])
    ensures IsDir(fs, WorkflowsDir) ==> forall k :: FirstMatchAt(Children(fs, WorkflowsDir), IsWorkflow, k) ==> CiCheck(fs).evidence == Join(Children(fs, WorkflowsDir)[k].path)
    ensures !HasWorkflow(fs) && IsFile(fs, [".gitlab-ci.yml"]) ==> CiCheck(fs).evidence == ".gitlab-ci.yml"
    ensures WellFormed(fs) && CiCheck(fs).passed ==> CiCheck(fs).evidence != ""
  {
    var kids := Children(fs, WorkflowsDir);
    FindFirstFound(kids, IsWorkflow);
    forall k | FirstMatchAt(kids, IsWorkflow, k) {
      FindFirstAt(kids, IsWorkflow, k);
    }
    if WellFormed(fs) && IsDir(fs, WorkflowsDir) && FindFirst(kids, IsWorkflow).Some? {
      ChildrenAreChildren(fs, WorkflowsDir);
      assert kids[FindFirst(kids, IsWorkflow).value] in kids;
    }
  }

  /** The loop over the workflows directory listing. */
  method FindWorkflow(kids: seq<Entry>) returns (h: Option<nat>)
    ensures h == FindFirst(kids, IsWorkflow)
  {
    for i := 0 to |kids|
      invariant forall j :: 0 <= j < i ==> !IsWorkflow(kids[j])
    {
      var suffix := Lower(Suffix(Name(kids[i])));
      if suffix == ".yml" || suffix == ".yaml" {
        FindFirstAt(kids, IsWorkflow, i);
        return Some(i);
      }
    }
    return None;
  }

  /** `check_ci`. */
  method CheckCi(fs: Tree) returns (r: CheckResult)
    ensures r == CiCheck(fs)
  {
    if IsDir(fs, WorkflowsDir) {
      var kids := Children(fs, WorkflowsDir);
      var hit := FindWorkflow(kids);
      if hit.Some? {
        return Ci.Pass(Join(kids[hit.value].path));
      }
    }
    if IsFile(fs, [".gitlab-ci.yml"]) {
      return Ci.Pass(".gitlab-ci.yml");
    }
    return Ci.Fail();
  }

  // ----------------------------------------------------------------- tests

  const TestDirNames: set<string> := {"test", "tests", "spec", "specs", "__tests__"}

  /** First search of the tests check, on the path relative to the root: a
      `__tests__` component, or a stem mentioning "test"/"spec" together with a
      test-directory name among the components (the file's own name included). */
  predicate LooksLikeTest(e: Entry)
  {
    "__tests__" in e.path ||
    (var stem := Lower(Stem(Name(e)));
     (Contains(stem, "test") || Contains(stem, "spec")) &&
     exists i :: 0 <= i < |e.path| && e.path[i] in TestDirNames)
  }

  /** Second search of the tests check, on the ABSOLUTE path. */
  function UnderTestsDir(root: seq<string>): Entry -> bool
  {
    (e: Entry) => "__tests__" in root + e.path
  }

  predicate HasTestDir(fs: Tree)
  {
    IsDir(fs, ["tests"]) || IsDir(fs, ["test"])
  }

  function TestsCheck(fs: Tree): (r: CheckResult)
    ensures Of(r, Tests)
  {
    var paths := Walk(fs);
    if HasTestDir(fs) then Tests.Pass("tests/ o test/")
    else match FindFirst(paths, LooksLikeTest)
      case Some(k) =>
        Tests.Pass(Join(paths[k].path))
      case None =>
        match FindFirst(paths, UnderTestsDir(fs.root))
        case Some(k) =>
          Tests.Pass(Join(paths[k].path))
        case None => Tests.Fail()
  }

  /** `check_tests` passes exactly when a test directory exists or a walked
      file matches one of the two searches; the directory wins, then the
      first search, then the second, each reporting its first match. */
  lemma TestsCheckMeaning(fs: Tree)
    ensures TestsCheck(fs).passed <==> HasTestDir(fs) || (exists e :: e in Walk(fs) && LooksLikeTest(e)) || (exists e :: e in Walk(fs) && "__tests__" in fs.root + e.path)
    ensures HasTestDir(fs) ==> TestsCheck(fs).evidence == "tests/ o test/"
    ensures !HasTestDir(fs) ==> forall k :: FirstMatchAt(Walk(fs), LooksLikeTest, k) ==> TestsCheck(fs).evidence == Join(Walk(fs)[k].path)
    ensures !HasTestDir(fs) && (forall e :: e in Walk(fs) ==> !LooksLikeTest(e)) ==> forall k :: FirstMatchAt(Walk(fs), UnderTestsDir(fs.root), k) ==> TestsCheck(fs).evidence == Join(Walk(fs)[k].path)
    ensures WellFormed(fs) && TestsCheck(fs).passed ==> TestsCheck(fs).evidence != ""
  {
    var paths := Walk(fs);
    WalkSound(fs);
    FindFirstFound(paths, LooksLikeTest);
    FindFirstFound(paths, UnderTestsDir(fs.root));
    forall k | FirstMatchAt(paths, LooksLikeTest, k) {
      FindFirstAt(paths, LooksLikeTest, k);
    }
    forall k | FirstMatchAt(paths, UnderTestsDir(fs.root), k) {
      FindFirstAt(paths, UnderTestsDir(fs.root), k);
    }
  }

  /** The first loop of `check_tests`, over the walked files. */
  method FindTestFile(paths: seq<Entry>) returns (h: Option<nat>)
    ensures h == FindFirst(paths, LooksLikeTest)
  {
    for i := 0 to |paths|
      invariant forall j :: 0 <= j < i ==> !LooksLikeTest(paths[j])
    {
      var rel := paths[i].path;
      if "__tests__" in rel {
        FindFirstAt(paths, LooksLikeTest, i);
        return Some(i);
      }
      var name := Lower(Stem(Name(paths[i])));
      if Contains(name, "test") || Contains(name, "spec") {
        if exists x :: 0 <= x < |rel| && rel[x] in TestDirNames {
          FindFirstAt(paths, LooksLikeTest, i);
          return Some(i);
        }
      }
    }
    return None;
  }

  /** The second loop of `check_tests`: a `__tests__` component anywhere in
      the absolute path. */
  method FindUnderTestsDir(root: seq<string>, paths: seq<Entry>) returns (h: Option<nat>)
    ensures h == FindFirst(paths, UnderTestsDir(root))
  {
    for i := 0 to |paths|
      invariant forall j :: 0 <= j < i ==> "__tests__" !in root + paths[j].path
    {
      if "__tests__" in root + paths[i].path {
        FindFirstAt(paths, UnderTestsDir(root), i);
        return Some(i);
      }
    }
    return None;
  }

  /** `check_tests`: the walk happens first, even when a test directory
      settles the answer. */
  method CheckTests(fs: Tree) returns (r: CheckResult)
    ensures r == TestsCheck(fs)
  {
    var paths := WalkRepo(fs);
    if IsDir(fs, ["tests"]) || IsDir(fs, ["test"]) {
      return Tests.Pass("tests/ o test/");
    }
    var hit := FindTestFile(paths);
    if hit.Some? {
      return Tests.Pass(Join(paths[hit.value].path));
    }
    hit := FindUnderTestsDir(fs.root, paths);
    if hit.Some? {
      return Tests.Pass(Join(paths[hit.value].path));
    }
    return Tests.Fail();
  }

  // ---------------------------------------------------------------- linter

  /** `"ruff" in content or "black" in content or "isort" in content`, case-sensitive. */
  predicate MentionsLinterTool(content: string)
  {
    Contains(content, "ruff") || Contains(content, "black") || Contains(content, "isort")
  }

  /** A walked file that configures a linter: by its lower-cased name, or a
      readable pyproject.toml whose first 8192 characters name a linter tool. */
  predicate IsLinterConfig(e: Entry)
  {
    var name := Lower(Name(e));
    name == ".editorconfig" || StartsWith(name, ".eslintrc") || name == "ruff.toml" ||
    name == "stylecop.json" ||
    (name == "pyproject.toml" && e.content.Some? && MentionsLinterTool(Take(e.content.value, 8192)))
  }

  function LinterCheck(fs: Tree): (r: CheckResult)
    ensures Of(r, Linter)
  {
    var paths := Walk(fs);
    match FindFirst(paths, IsLinterConfig)
    case Some(k) =>
      Linter.Pass(SlashPath(Join(paths[k].path)))
    case None => Linter.Fail()
  }

  /** `check_linter` passes exactly when a walked file is a linter
      configuration, and reports the first one by its slash-separated path. */
  lemma LinterCheckMeaning(fs: Tree)
    ensures LinterCheck(fs).passed <==> exists e :: e in Walk(fs) && IsLinterConfig(e)
    ensures forall k :: FirstMatchAt(Walk(fs), IsLinterConfig, k) ==> LinterCheck(fs).evidence == SlashPath(Join(Walk(fs)[k].path))
    ensures WellFormed(fs) && LinterCheck(fs).passed ==> LinterCheck(fs).evidence != ""
  {
    var paths := Walk(fs);
    WalkSound(fs);
    FindFirstFound(paths, IsLinterConfig);
    forall k | FirstMatchAt(paths, IsLinterConfig, k) {
      FindFirstAt(paths, IsLinterConfig, k);
    }
  }

  /** The loop of `check_linter`; an unreadable pyproject.toml is skipped. */
  method FindLinterConfig(paths: seq<Entry>) returns (h: Option<nat>)
    ensures h == FindFirst(paths, IsLinterConfig)
  {
    for i := 0 to |paths|
      invariant forall j :: 0 <= j < i ==> !IsLinterConfig(paths[j])
    {
      var p := paths[i];
      var name := Lower(Name(p));
      if name == ".editorconfig" || StartsWith(name, ".eslintrc") || name == "ruff.toml" || name == "stylecop.json" {
        FindFirstAt(paths, IsLinterConfig, i);
        return Some(i);
      }
      if name == "pyproject.toml" {
        match p.content
        case None =>
          continue;
        case Some(text) =>
          if MentionsLinterTool(Take(text, 8192)) {
            FindFirstAt(paths, IsLinterConfig, i);
            return Some(i);
          }
      }
    }
    return None;
  }

  /** `check_linter`. */
  method CheckLinter(fs: Tree) returns (r: CheckResult)
    ensures r == LinterCheck(fs)
  {
    var paths := WalkRepo(fs);
    var hit := FindLinterConfig(paths);
    if hit.Some? {
      return Linter.Pass(SlashPath(Join(paths[hit.value].path)));
    }
    return Linter.Fail();
  }

  // ---------------------------------------------------------------- docker

  const DockerFiles: seq<string> := ["Dockerfile", "docker-compose.yml", "docker-compose.yaml"]

  function TopFileExists(fs: Tree): string -> bool
  {
    (name: string) => IsFile(fs, [name])
  }

  function DockerCheck(fs: Tree): (r: CheckResult)
    ensures Of(r, Docker)
  {
    match FindFirst(DockerFiles, TopFileExists(fs))
    case Some(k) => Docker.Pass(DockerFiles[k])
    case None => Docker.Fail()
  }

  /** `check_docker` passes exactly when one of the three files exists at the
      root, and names the first in the fixed order. */
  lemma DockerCheckMeaning(fs: Tree)
    ensures DockerCheck(fs).passed <==> exists name :: name in DockerFiles && IsFile(fs, [name])
    ensures DockerCheck(fs).passed ==> DockerCheck(fs).evidence != ""
    ensures forall k :: FirstMatchAt(DockerFiles, TopFileExists(fs), k) ==> DockerCheck(fs).evidence == DockerFiles[k]
  {
    FindFirstFound(DockerFiles, TopFileExists(fs));
  }

  /** `check_docker`. */
  method CheckDocker(fs: Tree) returns (r: CheckResult)
    ensures r == DockerCheck(fs)
  {
    var names := DockerFiles;
    for i := 0 to |names|
      invariant forall j :: 0 <= j < i ==> !IsFile(fs, [names[j]])
    {
      if IsFile(fs, [names[i]]) {
        FindFirstAt(names, TopFileExists(fs), i);
        return Docker.Pass(names[i]);
      }
    }
    return Docker.Fail();
  }

  // -------------------------------------------------------------- security

  /** `check_security`: two fixed probes, in order. */
  function SecurityCheck(fs: Tree): (r: CheckResult)
    ensures Of(r, Security)
  {
    if IsFile(fs, ["SECURITY.md"]) then Security.Pass("SECURITY.md")
    else if IsFile(fs, [".github", "dependabot.yml"]) then Security.Pass(".github/dependabot.yml")
    else Security.Fail()
  }

  /** `check_security` passes exactly when one of its two files exists, and
      prefers SECURITY.md. */
  lemma SecurityCheckMeaning(fs: Tree)
    ensures SecurityCheck(fs).passed <==> IsFile(fs, ["SECURITY.md"]) || IsFile(fs, [".github", "dependabot.yml"])
    ensures SecurityCheck(fs).passed ==> SecurityCheck(fs).evidence == (if IsFile(fs, ["SECURITY.md"]) then "SECURITY.md" else ".github/dependabot.yml")
  {
  }

  // --------------------------------------------------------- observability

  const ConfigSuffixes: set<string> := {".json", ".toml", ".yml", ".yaml", ".txt", ".xml", ".gradle", ".mod"}

  /** The first 64 KiB of the content, lower-cased, contain "opentelemetry". */
  predicate MentionsOpenTelemetry(content: string)
  {
    Contains(Lower(Take(content, MaxReadBytes)), "opentelemetry")
  }

  /** A component (the file's own name included) is `config`, `conf` or `workflows`. */
  predicate InConfigDir(e: Entry)
  {
    "config" in e.path || "conf" in e.path || "workflows" in e.path
  }

  /** A walked file that is a candidate (by suffix or by directory) and whose
      readable content mentions OpenTelemetry. */
  predicate IsTelemetryConfig(e: Entry)
  {
    (Lower(Suffix(Name(e))) in ConfigSuffixes || InConfigDir(e)) &&
    e.content.Some? && MentionsOpenTelemetry(e.content.value)
  }

  function ObservabilityCheck(fs: Tree): (r: CheckResult)
    ensures Of(r, Observability)
  {
    var paths := Walk(fs);
    match FindFirst(paths, IsTelemetryConfig)
    case Some(k) =>
      Observability.Pass(Join(paths[k].path))
    case None => Observability.Fail()
  }

  /** `check_observability` passes exactly when a walked candidate file
      mentions OpenTelemetry, and reports the first such file. */
  lemma ObservabilityCheckMeaning(fs: Tree)
    ensures ObservabilityCheck(fs).passed <==> exists e :: e in Walk(fs) && IsTelemetryConfig(e)
    ensures forall k :: FirstMatchAt(Walk(fs), IsTelemetryConfig, k) ==> ObservabilityCheck(fs).evidence == Join(Walk(fs)[k].path)
    ensures WellFormed(fs) && ObservabilityCheck(fs).passed ==> ObservabilityCheck(fs).evidence != ""
  {
    var paths := Walk(fs);
    WalkSound(fs);
    FindFirstFound(paths, IsTelemetryConfig);
    forall k | FirstMatchAt(paths, IsTelemetryConfig, k) {
      FindFirstAt(paths, IsTelemetryConfig, k);
    }
  }

  /** The loop of `check_observability`: the suffix test and the directory
      test each read the file; a failed read skips the file. */
  method FindTelemetryConfig(paths: seq<Entry>) returns (h: Option<nat>)
    ensures h == FindFirst(paths, IsTelemetryConfig)
  {
    for i := 0 to |paths|
      invariant forall j :: 0 <= j < i ==> !IsTelemetryConfig(paths[j])
    {
      var p := paths[i];
      if Lower(Suffix(Name(p))) in ConfigSuffixes {
        if p.content.None? {
          continue;
        }
        if MentionsOpenTelemetry(p.content.value) {
          FindFirstAt(paths, IsTelemetryConfig, i);
          return Some(i);
        }
      }
      if InConfigDir(p) {
        if p.content.None? {
          continue;
        }
        if MentionsOpenTelemetry(p.content.value) {
          FindFirstAt(paths, IsTelemetryConfig, i);
          return Some(i);
        }
      }
    }
    return None;
  }

  /** `check_observability`. */
  method CheckObservability(fs: Tree) returns (r: CheckResult)
    ensures r == ObservabilityCheck(fs)
  {
    var paths := WalkRepo(fs);
    var hit := FindTelemetryConfig(paths);
    if hit.Some? {
      return Observability.Pass(Join(paths[hit.value].path));
    }
    return Observability.Fail();
  }

  // --------------------------------------------------------------- release

  const Manifests: seq<string> := ["package.json", "pyproject.toml"]

  /** A top-level manifest whose first 4096 characters hold a version field. */
  function ManifestVersioned(fs: Tree): string -> bool
  {
    (name: string) => ReadFile(fs, [name]).Some? && HasVersionField(Take(ReadFile(fs, [name]).value, 4096))
  }

  /** A walked `.csproj` file (suffix in any case) whose first 4096 characters
      hold a `<Version>` element. */
  predicate IsVersionedProject(e: Entry)
  {
    Lower(Suffix(Name(e))) == ".csproj" && e.isFile && e.content.Some? &&
    HasCsprojVersion(Take(e.content.value, 4096))
  }

  ghost predicate HasVersionedManifest(fs: Tree)
  {
    exists name :: name in Manifests && ManifestVersioned(fs)(name)
  }

  function ReleaseCheck(fs: Tree): (r: CheckResult)
    ensures Of(r, Release)
  {
    if IsFile(fs, ["CHANGELOG.md"]) then Release.Pass("CHANGELOG.md")
    else match FindFirst(Manifests, ManifestVersioned(fs))
      case Some(k) => Release.Pass(Manifests[k] + " (version)")
      case None =>
        var paths := Walk(fs);
        match FindFirst(paths, IsVersionedProject)
        case Some(k) =>
          Release.Pass(Join(paths[k].path))
        case None => Release.Fail()
  }

  /** `check_release_hygiene` passes exactly when there is a changelog, a
      versioned manifest or a versioned project file, preferred in that
      order, each reporting its first match. */
  lemma ReleaseCheckMeaning(fs: Tree)
    ensures ReleaseCheck(fs).passed <==> IsFile(fs, ["CHANGELOG.md"]) || HasVersionedManifest(fs) || (exists e :: e in Walk(fs) && IsVersionedProject(e))
    ensures IsFile(fs, ["CHANGELOG.md"]) ==> ReleaseCheck(fs).evidence == "CHANGELOG.md"
    ensures !IsFile(fs, ["CHANGELOG.md"]) ==> forall k :: FirstMatchAt(Manifests, ManifestVersioned(fs), k) ==> ReleaseCheck(fs).evidence == Manifests[k] + " (version)"
    ensures !IsFile(fs, ["CHANGELOG.md"]) && !HasVersionedManifest(fs) ==> forall k :: FirstMatchAt(Walk(fs), IsVersionedProject, k) ==> ReleaseCheck(fs).evidence == Join(Walk(fs)[k].path)
    ensures WellFormed(fs) && ReleaseCheck(fs).passed ==> ReleaseCheck(fs).evidence != ""
  {
    var paths := Walk(fs);
    WalkSound(fs);
    FindFirstFound(Manifests, ManifestVersioned(fs));
    FindFirstFound(paths, IsVersionedProject);
    forall k | FirstMatchAt(Manifests, ManifestVersioned(fs), k) {
      FindFirstAt(Manifests, ManifestVersioned(fs), k);
    }
    forall k | FirstMatchAt(paths, IsVersionedProject, k) {
      FindFirstAt(paths, IsVersionedProject, k);
    }
  }

  /** The manifest loop of `check_release_hygiene`; a failed read moves on to
      the next manifest. */
  method FindVersionedManifest(fs: Tree) returns (h: Option<nat>)
    ensures h == FindFirst(Manifests, ManifestVersioned(fs))
  {
    var names := Manifests;
    for i := 0 to |names|
      invariant forall j :: 0 <= j < i ==> !ManifestVersioned(fs)(names[j])
    {
      var name := names[i];
      if IsFile(fs, [name]) {
        match ReadFile(fs, [name])
        case None =>
        case Some(text) =>
          if HasVersionField(Take(text, 4096)) {
            FindFirstAt(names, ManifestVersioned(fs), i);
            return Some(i);
          }
      }
    }
    return None;
  }

  /** The project-file loop of `check_release_hygiene`. */
  method FindVersionedProject(paths: seq<Entry>) returns (h: Option<nat>)
    ensures h == FindFirst(paths, IsVersionedProject)
  {
    for i := 0 to |paths|
      invariant forall j :: 0 <= j < i ==> !IsVersionedProject(paths[j])
    {
      var p := paths[i];
      if Lower(Suffix(Name(p))) == ".csproj" && p.isFile {
        match p.content
        case None =>
        case Some(text) =>
          if HasCsprojVersion(Take(text, 4096)) {
            FindFirstAt(paths, IsVersionedProject, i);
            return Some(i);
          }
      }
    }
    return None;
  }

  /** `check_release_hygiene`. */
  method CheckRelease(fs: Tree) returns (r: CheckResult)
    ensures r == ReleaseCheck(fs)
  {
    if IsFile(fs, ["CHANGELOG.md"]) {
      return Release.Pass("CHANGELOG.md");
    }
    var hit := FindVersionedManifest(fs);
    if hit.Some? {
      return Release.Pass(Manifests[hit.value] + " (version)");
    }
    var paths := WalkRepo(fs);
    hit := FindVersionedProject(paths);
    if hit.Some? {
      return Release.Pass(Join(paths[hit.value].path));
    }
    return Release.Fail();
  }

  // ------------------------------------------------------------- evidence

  /** A result carries evidence exactly when it passes. */
  predicate Evidenced(r: CheckResult)
  {
    r.passed <==> r.evidence != ""
  }

  lemma ReadmeEvidenced(fs: Tree)
    ensures Evidenced(ReadmeCheck(fs))
  {
    ReadmeCheckMeaning(fs);
  }

  lemma LicenseEvidenced(fs: Tree)
    ensures Evidenced(LicenseCheck(fs))
  {
    LicenseCheckMeaning(fs);
  }

  lemma CodeownersEvidenced(fs: Tree)
    ensures Evidenced(CodeownersCheck(fs))
  {
    CodeownersCheckMeaning(fs);
  }

  lemma CiEvidenced(fs: Tree)
    ensures WellFormed(fs) ==> Evidenced(CiCheck(fs))
  {
    CiCheckMeaning(fs);
  }

  lemma TestsEvidenced(fs: Tree)
    ensures WellFormed(fs) ==> Evidenced(TestsCheck(fs))
  {
    TestsCheckMeaning(fs);
  }

  lemma LinterEvidenced(fs: Tree)
    ensures WellFormed(fs) ==> Evidenced(LinterCheck(fs))
  {
    LinterCheckMeaning(fs);
  }

  lemma DockerEvidenced(fs: Tree)
    ensures Evidenced(DockerCheck(fs))
  {
    DockerCheckMeaning(fs);
  }

  lemma SecurityEvidenced(fs: Tree)
    ensures Evidenced(SecurityCheck(fs))
  {
    SecurityCheckMeaning(fs);
  }

  lemma ObservabilityEvidenced(fs: Tree)
    ensures WellFormed(fs) ==> Evidenced(ObservabilityCheck(fs))
  {
    ObservabilityCheckMeaning(fs);
  }

  lemma ReleaseEvidenced(fs: Tree)
    ensures WellFormed(fs) ==> Evidenced(ReleaseCheck(fs))
  {
    ReleaseCheckMeaning(fs);
  }
}
