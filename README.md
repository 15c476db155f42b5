# repo_scorecard, modelled in Dafny

`repo_scorecard` is a command-line tool. It gives a local repository a score from 0 to 100 by running ten fixed checks and adding up the weights of the checks that pass:

| check | weight |
|---|---|
| README | 10 |
| LICENSE | 5 |
| CODEOWNERS | 10 |
| CI configuration | 15 |
| tests | 15 |
| linter configuration | 10 |
| Docker files | 10 |
| security policy | 10 |
| OpenTelemetry | 5 |
| release hygiene | 10 |

It prints a report as JSON or as a text table. With `--min-score N` it exits with status 1 when the score is below N.

The repository also ships a toy package, `app_prueba`: an in-memory `Store` and two functions, `add` and `greet`. It has unit and integration tests for both.

## The model

The model has eleven modules.

- `Seqs` holds the first-match search `FindFirst` and the order-keeping `Filter`, with their lemmas. Every check is a first-match search with an early return, and the walk is a filter.
- `Text` holds the Python string operations the tool relies on, on ASCII text: slicing, `startswith`, `in`, `upper`/`lower`, `str(int)`, and the `<` (left-aligned) and `^` (centred) format specifications.
- `FileTree` models the directory as a `Tree`. A tree has the root's path components, a list of entries in enumeration order, and optionally the position at which the recursive enumeration raises `PermissionError`. Each entry has a relative path, a file flag, and content that is None when reading fails. The module also holds `Path.name`/`suffix`/`stem` and `walk_repo`.
- `VersionPatterns` holds the two fixed regular expressions of the release check. They are written as direct matchers.
- `Checks` models the ten checks. Each one has:
  - a function that states the result;
  - a "Meaning" lemma saying when the check passes and which evidence it reports;
  - where the source has a search loop, a method with that loop, proved equal to the function. `check_security` has no loop, so it has only the function.
- `Scoring` holds the registry, `run_all_checks`, `compute_score` and `build_report`.
- `TextOutput` holds `output_text`, as the list of lines it prints.
- `Cli` holds the part of `main` after the path checks: rendering, then the `--min-score` gate.
- `Scenarios` holds whole runs over an empty directory and over a directory with only `README.md`.
- `KeyValueStore` holds the `Store` class and a value-level model of its dict.
- `Calc` holds `add` and `greet`.

Points where the model follows the code rather than the prose description of the tool:

- **Ignored directories.** The walk does not prune ignored directories. It enumerates everything and drops a file when any component of its absolute path is an ignored name. That includes the components of the root itself, so a repository checked out under a directory called `build` yields an empty walk (`FileTree.KeptByWalk`).
- **Permission errors in the walk.** A `PermissionError` that reaches the loop of `walk_repo` ends the walk, keeping what was gathered so far (`FileTree.Walk`, `FileTree.WalkDeniedIsPrefix`). Directories that the enumeration itself passes over are simply absent from the entry list.
- **Workflow entries.** The CI check accepts any `.yml`/`.yaml` entry of `.github/workflows`, directories included.
- **`__tests__` in the tests check.** The tests check's last search looks at the absolute path, so a `__tests__` ancestor of the root makes it pass.
- **Non-empty evidence.** A passing check's evidence is a non-empty string only on a `WellFormed` tree, one where every path component is a non-empty name. Real directories always are.

## Model

| member | source | states |
|---|---|---|
| FileTree.WalkRepo | repo_scorecard.py:62-74 | the loop returns exactly `Walk(fs)`: files of the enumeration, in order, with no ignored component in their absolute path, cut at a permission failure |
| FileTree.WalkSound | repo_scorecard.py:64-71 | every walked entry is a file of the tree and no component of root + path is an ignored directory name |
| FileTree.WalkComplete | repo_scorecard.py:64-71 | without a permission failure, every file outside the ignored directories is walked |
| FileTree.WalkDeniedIsPrefix | repo_scorecard.py:65-73 | a permission failure only truncates: the walk is a prefix of the walk without the failure |
| FileTree.Enumerated | repo_scorecard.py:66 | what the enumeration yields before it raises is a prefix of the entries |
| FileTree.LastIndexOf | repo_scorecard.py:117 | the index found is -1 or a position of the string |
| FileTree.LastIndexOfIsLast | repo_scorecard.py:117 | a non-negative result holds the character and no later position does |
| FileTree.SuffixShape | repo_scorecard.py:117 | a non-empty `Path.suffix` is a dot followed by at least one non-dot character and is shorter than the name; stem + suffix is the name |
| FileTree.Lookup | repo_scorecard.py:101-106 | a found entry is in the tree and has the path looked up |
| FileTree.LookupMissing | repo_scorecard.py:101-106 | lookup fails exactly when no entry has the path |
| FileTree.ChildrenAreChildren | repo_scorecard.py:116 | `iterdir` of a directory lists exactly the entries one level below it |
| FileTree.TopLevelMembers | repo_scorecard.py:80 | `root.iterdir()` lists exactly the entries with a one-component path |
| Text.Take | repo_scorecard.py:302-305 | `s[:n]` is the prefix of length min(n, len(s)) |
| Text.Join | repo_scorecard.py:107 | a relative path's text is non-empty when its first component is, and a one-component path reads as that name |
| Text.SlashPath | repo_scorecard.py:152 | `replace("\\", "/")` keeps the length and swaps backslashes for slashes, character by character |
| Text.NatToString | repo_scorecard.py:298 | `str(n)` of a natural number is one or more decimal digits, with no leading zero |
| Text.NatToStringWidth | repo_scorecard.py:305 | a number below 10^k has at most k digits |
| Text.IntToString | repo_scorecard.py:298 | `str(n)` is non-empty and starts with '-' exactly for negative n |
| Text.NatToStringValue | repo_scorecard.py:298 | `str(n)` spells n: reading its digits back as a decimal number gives n |
| Text.IntToStringValue | repo_scorecard.py:298 | `str(n)` spells n for every integer, negative ones after a '-' |
| Text.IntToStringInjective | repo_scorecard.py:298 | different numbers are printed as different strings |
| Text.ContainsAt | repo_scorecard.py:167 | `sub in s` holds when `sub` occurs at some offset |
| Text.ContainsNeedsFirst | repo_scorecard.py:136 | `sub in s` fails when `s` lacks the first character of `sub` |
| Text.PadRight | repo_scorecard.py:304-306 | `{:<w}`: the text, then spaces up to width w, never truncated |
| Text.Center | repo_scorecard.py:304-306 | `{:^w}`: the text with floor(slack/2) spaces on the left and the rest on the right, never truncated |
| VersionPatterns.SkipSpaces | repo_scorecard.py:226 | `\s*` consumes a maximal run of the characters `str.isspace()` accepts |
| VersionPatterns.NumberRunEnd | repo_scorecard.py:226-227 | `[\d.]*` consumes a maximal run of digits and dots |
| VersionPatterns.VersionFieldExamples | repo_scorecard.py:226 | `"version": "0.1.0"` matches the manifest pattern; a one-digit version does not |
| VersionPatterns.SeparatorSpaceExample | repo_scorecard.py:226 | a version field with the separator U+001C before the colon still matches the manifest pattern |
| VersionPatterns.CsprojVersionExample | repo_scorecard.py:227 | `<VERSION>1.2</version>` matches the project-file pattern, ignoring case |
| VersionPatterns.LowerTags | repo_scorecard.py:227 | lower-casing the version tags |
| Checks.ReadmeCheck | repo_scorecard.py:77-86 | the result has id "readme", weight 10, and empty evidence when it fails |
| Checks.ReadmeCheckMeaning | repo_scorecard.py:77-86 | passes exactly when a top-level file's upper-cased name is README.MD or README. plus at least one character; the evidence is the first such name listed |
| Checks.CheckReadme | repo_scorecard.py:80-86 | the loop over the root listing returns exactly `ReadmeCheck` |
| Checks.LicenseCheck | repo_scorecard.py:89-95 | the result has id "license", weight 5, and empty evidence when it fails |
| Checks.LicenseCheckMeaning | repo_scorecard.py:89-95 | passes exactly when a top-level file's upper-cased name starts with LICENSE; the evidence is the first such name |
| Checks.CheckLicense | repo_scorecard.py:92-95 | the loop returns exactly `LicenseCheck` |
| Checks.CodeownersCheck | repo_scorecard.py:98-108 | the result has id "codeowners", weight 10, and empty evidence when it fails |
| Checks.CodeownersCheckMeaning | repo_scorecard.py:98-108 | passes exactly when .github/CODEOWNERS or CODEOWNERS is a file, preferring the first, reported relative to the root |
| Checks.CheckCodeowners | repo_scorecard.py:105-108 | the loop over the two candidates returns exactly `CodeownersCheck` |
| Checks.CiCheck | repo_scorecard.py:111-122 | the result has id "ci", weight 15, and empty evidence when it fails |
| Checks.CiCheckMeaning | repo_scorecard.py:111-122 | passes exactly when .github/workflows is a directory listing a .yml/.yaml entry (any case, files or not) or .gitlab-ci.yml is a file; the first workflow wins, reported relative to the root |
| Checks.FindWorkflow | repo_scorecard.py:115-118 | the loop over the workflows listing finds the first YAML entry |
| Checks.CheckCi | repo_scorecard.py:111-122 | returns exactly `CiCheck` |
| Checks.TestsCheck | repo_scorecard.py:125-143 | the result has id "tests", weight 15, and empty evidence when it fails |
| Checks.TestsCheckMeaning | repo_scorecard.py:125-143 | passes exactly when tests/ or test/ is a directory (evidence "tests/ o test/"), or a walked file looks like a test, or a walked file has a `__tests__` component in its absolute path; otherwise the first match of each search in turn |
| Checks.FindTestFile | repo_scorecard.py:131-138 | the first loop finds the first walked file with a `__tests__` component, or with "test"/"spec" in its lower-cased stem and a test-directory component |
| Checks.FindUnderTestsDir | repo_scorecard.py:140-142 | the second loop finds the first walked file with `__tests__` in its absolute path |
| Checks.CheckTests | repo_scorecard.py:125-143 | returns exactly `TestsCheck` |
| Checks.LinterCheck | repo_scorecard.py:146-171 | the result has id "linter", weight 10, and empty evidence when it fails |
| Checks.LinterCheckMeaning | repo_scorecard.py:146-171 | passes exactly when a walked file is .editorconfig, .eslintrc*, ruff.toml or stylecop.json (lower-cased), or a readable pyproject.toml whose first 8192 characters mention ruff, black or isort; the evidence is the first one's path with slashes |
| Checks.FindLinterConfig | repo_scorecard.py:150-170 | the loop finds the first linter configuration, skipping unreadable pyproject.toml files |
| Checks.CheckLinter | repo_scorecard.py:146-171 | returns exactly `LinterCheck` |
| Checks.DockerCheck | repo_scorecard.py:174-181 | the result has id "docker", weight 10, and empty evidence when it fails |
| Checks.DockerCheckMeaning | repo_scorecard.py:174-181 | passes exactly when Dockerfile, docker-compose.yml or docker-compose.yaml is a top-level file; the first in that order is the evidence |
| Checks.CheckDocker | repo_scorecard.py:177-181 | the loop over the three names returns exactly `DockerCheck` |
| Checks.SecurityCheck | repo_scorecard.py:184-191 | the result has id "security", weight 10, and empty evidence when it fails |
| Checks.SecurityCheckMeaning | repo_scorecard.py:184-191 | passes exactly when SECURITY.md or .github/dependabot.yml is a file, preferring SECURITY.md |
| Checks.ObservabilityCheck | repo_scorecard.py:194-218 | the result has id "observability", weight 5, and empty evidence when it fails |
| Checks.ObservabilityCheckMeaning | repo_scorecard.py:194-218 | passes exactly when a walked, readable file with a configuration suffix or a config/conf/workflows component has "opentelemetry" in its lower-cased first 64 KiB; the first one is the evidence |
| Checks.FindTelemetryConfig | repo_scorecard.py:205-217 | the loop finds the first such file, skipping unreadable ones |
| Checks.CheckObservability | repo_scorecard.py:194-218 | returns exactly `ObservabilityCheck` |
| Checks.ReleaseCheck | repo_scorecard.py:221-244 | the result has id "release", weight 10, and empty evidence when it fails |
| Checks.ReleaseCheckMeaning | repo_scorecard.py:221-244 | passes exactly when CHANGELOG.md is a file, or package.json/pyproject.toml holds a version field in its first 4096 characters, or a walked .csproj holds a `<Version>` element in its first 4096 characters, preferred in that order |
| Checks.FindVersionedManifest | repo_scorecard.py:228-236 | the loop over the two manifests finds the first readable one with a version field |
| Checks.FindVersionedProject | repo_scorecard.py:237-243 | the loop over the walk finds the first versioned project file |
| Checks.CheckRelease | repo_scorecard.py:221-244 | returns exactly `ReleaseCheck` |
| Scoring.AllChecks | repo_scorecard.py:247-261 | one result per runner, the i-th from the i-th check |
| Scoring.AllChecksOf | repo_scorecard.py:247-261 | the i-th result carries the i-th registered id, name and weight (readme, license, codeowners, ci, tests, linter, docker, security, observability, release), fails with empty evidence, and on a well-formed tree has evidence exactly when it passes |
| Scoring.RunCheck | repo_scorecard.py:261 | each runner call returns its check's result |
| Scoring.RunAllChecks | repo_scorecard.py:247-261 | the comprehension's loop returns exactly `AllChecks(fs)` |
| Scoring.RegisteredWeights | repo_scorecard.py:79 | the weights 10, 5, 10, 15, 15, 10, 10, 10, 5, 10 are positive and add up to 100 |
| Scoring.TotalWeightOfRegistry | repo_scorecard.py:247-261 | results with the registry's weights have the registry's total weight |
| Scoring.ScoreOutOf100 | repo_scorecard.py:264-266 | for every tree the results' weights are positive and total 100, and the score lies in 0..100 |
| Scoring.Score | repo_scorecard.py:264-266 | with non-negative weights the score lies between 0 and the total weight |
| Scoring.ScoreIsWeightOfPassed | repo_scorecard.py:266 | the score is the total weight of the passing results |
| Scoring.ScoreExtremes | repo_scorecard.py:266 | with positive weights the score is the total exactly when all pass, and 0 exactly when none passes |
| Scoring.ScoreMonotone | repo_scorecard.py:266 | passing more checks, weights unchanged, never lowers the score |
| Scoring.ScoreAppend | repo_scorecard.py:266 | the score of two lists joined is the sum of their scores |
| Scoring.ScoreRaise | repo_scorecard.py:266 | turning one failing check into a passing one raises the score by exactly its weight |
| Scoring.CountPassed | repo_scorecard.py:274 | at most as many passed as checks |
| Scoring.CountFailed | repo_scorecard.py:275 | at most as many failed as checks |
| Scoring.CountsPartition | repo_scorecard.py:274-275 | passed counts the passing results, failed the others, and they add up to the number of checks |
| Scoring.BuildReport | repo_scorecard.py:269-278 | the report carries the checks, score, path and timestamp given, with counts that partition the checks |
| TextOutput.OutputText | repo_scorecard.py:286-308 | the lines printed are the title, the score line, rule, header, rule, one row per check in order, rule |
| TextOutput.TableShape | repo_scorecard.py:295-308 | the table has six lines more than there are checks, every line from the first rule on is 104 characters wide, and line 5+i is the row of check i |
| TextOutput.RowLayout | repo_scorecard.py:302-306 | a row is 104 characters wide, like the rule and the header; its name cell is the name cut to 26 and padded to 26; its weight cell is `str(weight)` centred in 6; its OK cell reads "yes " or " no "; it starts with the id cut to 10; its evidence cell is the evidence cut to 42, or "-" when empty |
| TextOutput.RenderRows | repo_scorecard.py:302-307 | the loop over the checks produces one row per check, in order |
| TextOutput.EvidenceCellCases | repo_scorecard.py:303 | the evidence cell is "-" for a check without evidence and the evidence cut to 42 characters otherwise, so it is never empty |
| TextOutput.RowsWidth | repo_scorecard.py:302-306 | with weights below one million every row is 104 characters wide |
| TextOutput.TableLineLayout | repo_scorecard.py:304-306 | with each cell within its width, a line has its bars and cells at fixed offsets and is 104 characters wide |
| TextOutput.RuleWidths | repo_scorecard.py:295-296 | the rule and the header are 104 characters wide |
| TextOutput.OkCell | repo_scorecard.py:303-306 | "yes" centred in 4 is "yes " and "no" is " no " |
| TextOutput.WeightFits | repo_scorecard.py:305 | a weight below one million fits the six-character column |
| Cli.ExitStatus | repo_scorecard.py:339-346 | the status is 0 or 1, and 1 exactly when a minimum is given and the score is below it |
| Cli.Scorecard | repo_scorecard.py:330-346 | the report for the tree is always rendered in the chosen format; then the status follows the gate, with one message on standard error exactly when it is 1 |
| Cli.GateNeedsMinimum | repo_scorecard.py:339-346 | without a minimum, or with minimum 0, the run succeeds; a minimum above 100 always fails it |
| Cli.GateMonotone | repo_scorecard.py:339-346 | passing more checks never turns a passing gate into a failing one |
| Scenarios.EmptyRepoScoresZero | repo_scorecard.py:247-266 | in an empty directory every check fails and the score is 0 |
| Scenarios.EmptyFirstChecksFail | repo_scorecard.py:77-143 | in an empty directory the first five checks fail |
| Scenarios.EmptyLastChecksFail | repo_scorecard.py:146-244 | in an empty directory the last five checks fail |
| Scenarios.ReadmeOnlyScoresTen | repo_scorecard.py:247-266 | with only README.md, the readme check passes with evidence "README.md", all others fail, and the score is 10 |
| Scenarios.ReadmeIsOnlyReadme | repo_scorecard.py:84 | README.md is a README, not a licence and not a test file |
| Scenarios.ReadmeIsNoConfig | repo_scorecard.py:155-168 | README.md is no linter configuration, no telemetry configuration and no versioned project file |
| Scenarios.ReadmeOnlyTree | repo_scorecard.py:62-74 | with only README.md, the root lists just it, the walk holds nothing else, and no other path exists |
| Scenarios.ReadmeOnlyReadme | repo_scorecard.py:77-86 | with only README.md the readme check passes with evidence "README.md" |
| Scenarios.ReadmeOnlyTests | repo_scorecard.py:125-143 | with only README.md, and no `__tests__` above the root, the tests check fails |
| Scenarios.ReadmeOnlyLicense | repo_scorecard.py:89-95 | with only README.md, the licence check fails |
| Scenarios.ReadmeOnlyCodeowners | repo_scorecard.py:98-108 | with only README.md, the CODEOWNERS check fails |
| Scenarios.ReadmeOnlyCi | repo_scorecard.py:111-122 | with only README.md, the CI check fails |
| Scenarios.ReadmeOnlyLinter | repo_scorecard.py:146-171 | with only README.md, the linter check fails, README.md not being a linter configuration |
| Scenarios.ReadmeOnlyDocker | repo_scorecard.py:174-181 | with only README.md, the Docker check fails |
| Scenarios.ReadmeOnlySecurity | repo_scorecard.py:184-191 | with only README.md, the security check fails |
| Scenarios.ReadmeOnlyObservability | repo_scorecard.py:194-218 | with only README.md, the OpenTelemetry check fails, whatever README.md holds |
| Scenarios.ReadmeOnlyRelease | repo_scorecard.py:221-244 | with only README.md, the release check fails: no changelog, no manifest, no project file |
| Scenarios.ReadmeOnlyFirstHalf | repo_scorecard.py:247-261 | with only README.md, the first result is the readme check passing with evidence "README.md" and the next four fail |
| Scenarios.ReadmeOnlyLastHalf | repo_scorecard.py:247-261 | with only README.md, the last five results fail |
| Scenarios.ScoreOfFirstOnly | repo_scorecard.py:266 | when only the first check passes, the score is its weight |
| KeyValueStore.Store.constructor | app_prueba/store.py:7-8 | a new store is empty and consistent |
| KeyValueStore.Store.Set | app_prueba/store.py:10-11 | the new state is `Put` of the old one, and the store stays consistent |
| KeyValueStore.Store.Get | app_prueba/store.py:13-14 | returns a value exactly for a listed key, and that value is the stored one |
| KeyValueStore.Store.Keys | app_prueba/store.py:16-17 | lists every stored key once, in first insertion order |
| KeyValueStore.PutConsistent | app_prueba/store.py:10-11 | writing keeps the key order and the map in step; the order grows by one exactly for a new key |
| KeyValueStore.FindAfterPut | app_prueba/store.py:10-14 | reading a key after writing it gives the value written; other keys read as before |
| KeyValueStore.PutOrder | app_prueba/store.py:11 | re-writing a key leaves the key order unchanged; a new key is appended |
| KeyValueStore.StoreUnitExamples | tests/unit/test_store.py:10-27 | the unit tests' expectations: set/get, None for a missing key, no keys at first, k1 and k2 listed |
| KeyValueStore.MultipleKeysWorkflow | tests/integration/test_flow.py:20-26 | key_0, key_1, key_2 are listed in order, and key_1 reads "2" |
| KeyValueStore.CalcAndStoreTogether | tests/integration/test_flow.py:10-16 | the stored sum reads "30" and the greeting reads "Hello, CI!" |
| Calc.Add | app_prueba/calc.py:4-6 | subtracting either operand from the sum gives back the other |
| Calc.AddLaws | app_prueba/calc.py:4-6 | addition is commutative with identity 0 |
| Calc.Greet | app_prueba/calc.py:9-11 | the greeting is the name plus 8 characters: "Hello, " before it and "!" after it |
| Calc.GreetRoundTrip | app_prueba/calc.py:9-11 | the name can be read back out of its greeting |
| Calc.GreetInjective | app_prueba/calc.py:9-11 | different names get different greetings |
| Calc.CalcExamples | tests/unit/test_calc.py:10-26 | the unit tests' sums and greetings |

## Left out

- `parse_args`: argument parsing is not modelled. The output format, the minimum score, the resolved path and the timestamp are parameters of `Cli.Scorecard`.
- The checks in `main` that the path exists, is a directory and is readable, with their messages and exit status 1, are not modelled. The model starts after them.
- The UTC timestamp of `build_report` and the `resolve()` of the root are inputs; they come from the clock and the filesystem.
- `output_json` and `json.dumps`: the JSON rendering is represented by the report value itself (`Cli.Rendering.JsonDocument`), not by its text.
- Printing: the model returns the lines and the standard-error message instead of writing them.
- Files are read as ASCII text. UTF-8 decoding with `errors="ignore"`, and `upper`/`lower` on non-ASCII characters, are not modelled. Byte and character counts (`[:65536]` on bytes, `[:8192]` and `[:4096]` on text) are both counts of characters.
- The filesystem is an entry list. Its order stands for both `rglob` order and `iterdir` order, and the real calls are replaced by lookups in it. Symbolic links are not modelled.
- Only the walk's own `PermissionError` is modelled. An error raised by `iterdir`, `is_file` or `is_dir` would propagate out of the source's checks and is not modelled. A failed read is modelled as content None, and the check then skips that candidate as the source does.
- The `ValueError` branch of the linter check cannot happen for walked paths, which always lie under the root.
- The `config_names` set of the observability check is never used by the source and is not modelled.
- The regular expressions are modelled only for the two fixed patterns of the release check. There is no general regex engine.
- VersionPatterns.IsDigit: `\d` is the ASCII digits only. In a str pattern Python's `\d` also matches the other Unicode decimal digits, whose list depends on the Python version.
- VersionPatterns.VersionFieldAt and VersionPatterns.CsprojVersionAt: IGNORECASE is modelled with ASCII case mapping. Python also lets 'ı' and 'İ' match "i" and 'ſ' match "s" there.
- Paths are modelled as on a POSIX, case-sensitive filesystem. `Text.Join` writes relative paths with "/", where Windows' `str()` of a relative path uses backslashes (only the linter check converts them). `FileTree.Lookup` compares names exactly, where a case-insensitive filesystem would also find `changelog.md` for `CHANGELOG.md`.
- FileTree.Lookup: for a tree listing the same path twice it takes the first entry. A real directory cannot do that.
- Checks.ReadmeCheckMeaning and the other Meaning lemmas: a passing check's evidence is proved non-empty only on a `WellFormed` tree, one with no empty path components. Every real directory is such a tree.
- KeyValueStore.Store.Get: the store is modelled with string values only, as the source's annotations declare.
- `app_prueba/__init__.py` only re-exports the package's functions and is not part of this model.
- The test files are not modelled as code. Their expectations are the example lemmas.
