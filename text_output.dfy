/** The console table of `output_text`, as the sequence of lines it prints. */
module TextOutput {
  import opened Seqs
  import opened Text
  import opened Checks
  import opened Scoring

  /** Width of every table line: five columns of 10, 26, 6, 4 and 42
      characters, each with one space of margin on both sides, and six bars. */
  const TableWidth: nat := 104

  /** The horizontal rule between the header, the rows and the end. */
  const Sep: string :=
    "+" + Repeat('-', 12) + "+" + Repeat('-', 28) + "+" + Repeat('-', 8) + "+" + Repeat('-', 6) + "+" + Repeat('-', 44) + "+"

  /** `"| {:<10} | {:<26} | {:^6} | {:^4} | {:<42} |".format(...)`. */
  function TableLine(id: string, name: string, weight: string, ok: string, evidence: string): string
  {
    "| " + PadRight(id, 10) + " | " + PadRight(name, 26) + " | " + Center(weight, 6) + " | " +
    Center(ok, 4) + " | " + PadRight(evidence, 42) + " |"
  }

  /** The column titles. */
  const Head: string := TableLine("ID", "Name", "Weight", "OK", "Evidence")

  /** The evidence column: the evidence, or "-" when there is none, cut to 42. */
  function EvidenceCell(c: CheckResult): string
  {
    Take(if c.evidence == "" then "-" else c.evidence, 42)
  }

  /** One table row: id and name cut to their column widths, the weight
      centred, "yes" or "no", and the evidence cell. */
  function Row(c: CheckResult): string
  {
    TableLine(Take(c.id, 10), Take(c.name, 26), IntToString(c.weight), if c.passed then "yes" else "no", EvidenceCell(c))
  }

  /** The first line: the tool's name, an em dash, and the resolved path. */
  function Title(report: Report): string
  {
    "repo_scorecard \U{2014} " + report.repoPath
  }

  /** The second line: score out of 100, the two counts and the timestamp. */
  function ScoreLine(report: Report): string
  {
    "Score: " + IntToString(report.score) + "/100  Passed: " + IntToString(report.passed) +
    "  Failed: " + IntToString(report.failed) + "  (" + report.timestamp + ")"
  }

  /** One row per check, in order. */
  function Rows(checks: seq<CheckResult>): seq<string>
  {
    Map(checks, Row)
  }

  /** The five lines printed before the rows. */
  function Preamble(report: Report): seq<string>
  {
    [Title(report), ScoreLine(report), Sep, Head, Sep]
  }

  /** Everything `output_text` prints, one string per line. */
  function TextLines(report: Report): seq<string>
  {
    Preamble(report) + Rows(report.checks) + [Sep]
  }

  /** The loop of `output_text` over the checks: one row each, in order. */
  method RenderRows(checks: seq<CheckResult>) returns (rows: seq<string>)
    ensures rows == Rows(checks)
  {
    rows := [];
    for i := 0 to |checks|
      invariant rows == Map(checks[..i], Row)
    {
      assert checks[..i + 1][..i] == checks[..i];
      rows := rows + [Row(checks[i])];
    }
    assert checks[..|checks|] == checks;
  }

  /** `output_text`: the title, the score line, the header between rules, one
      row per check in report order, and a closing rule. */
  method OutputText(report: Report) returns (lines: seq<string>)
    ensures lines == TextLines(report)
  {
    var rows := RenderRows(report.checks);
    lines := Preamble(report) + rows + [Sep];
  }

  /** A weight below one million fits the six-character weight column. */
  lemma WeightFits(w: int)
    requires 0 <= w < 1000000
    ensures |IntToString(w)| <= 6
  {
    assert Pow10(6) == 1000000;
    NatToStringWidth(w, 6);
  }

  /** Where the pieces of a line end up, for pieces of the widths of the
      table's margins, bars and columns: the left half. */
  lemma PiecesLeft(l: string, a: string, s1: string, b: string, s2: string, c: string, s3: string, d: string, s4: string, e: string, r: string)
    requires |l| == 2 && |a| == 10 && |s1| == 3 && |b| == 26 && |s2| == 3 && |c| == 6
    requires |s3| == 3 && |d| == 4 && |s4| == 3 && |e| == 42 && |r| == 2
    ensures var line := l + a + s1 + b + s2 + c + s3 + d + s4 + e + r;
      |line| == TableWidth &&
      line[..2] == l && line[2..12] == a && line[12..15] == s1 && line[15..41] == b && line[41..44] == s2
  {
  }

  /** The right half. */
  lemma PiecesRight(l: string, a: string, s1: string, b: string, s2: string, c: string, s3: string, d: string, s4: string, e: string, r: string)
    requires |l| == 2 && |a| == 10 && |s1| == 3 && |b| == 26 && |s2| == 3 && |c| == 6
    requires |s3| == 3 && |d| == 4 && |s4| == 3 && |e| == 42 && |r| == 2
    ensures var line := l + a + s1 + b + s2 + c + s3 + d + s4 + e + r;
      line[44..50] == c && line[50..53] == s3 && line[53..57] == d && line[57..60] == s4 &&
      line[60..102] == e && line[102..] == r
  {
  }

  /** The column layout of a table line: the bars sit at fixed offsets when
      every cell fits its column. */
  lemma TableLineLayout(id: string, name: string, weight: string, ok: string, evidence: string)
    requires |id| <= 10 && |name| <= 26 && |weight| <= 6 && |ok| <= 4 && |evidence| <= 42
    ensures var line := TableLine(id, name, weight, ok, evidence);
      |line| == TableWidth &&
      line[..2] == "| " && line[2..12] == PadRight(id, 10) &&
      line[15..41] == PadRight(name, 26) && line[44..50] == Center(weight, 6) &&
      line[53..57] == Center(ok, 4) && line[60..102] == PadRight(evidence, 42) &&
      line[102..] == " |" &&
      line[12..15] == " | " && line[41..44] == " | " && line[50..53] == " | " && line[57..60] == " | "
  {
    var a, b, c, d, e := PadRight(id, 10), PadRight(name, 26), Center(weight, 6), Center(ok, 4), PadRight(evidence, 42);
    PiecesLeft("| ", a, " | ", b, " | ", c, " | ", d, " | ", e, " |");
    PiecesRight("| ", a, " | ", b, " | ", c, " | ", d, " | ", e, " |");
  }

  /** The header and the rules are 104 characters wide. */
  lemma RuleWidths()
    ensures |Sep| == |Head| == TableWidth
  {
    TableLineLayout("ID", "Name", "Weight", "OK", "Evidence");
  }

  /** "yes" centred in four columns leaves its space on the right; "no" gets
      one space on each side. */
  lemma OkCell(passed: bool)
    ensures Center(if passed then "yes" else "no", 4) == if passed then "yes " else " no "
  {
  }

  /** The cells of a row, laid out as a table line. */
  lemma RowCells(c: CheckResult)
    requires 0 <= c.weight < 1000000
    ensures var ok := if c.passed then "yes" else "no";
      |Row(c)| == TableWidth &&
      Row(c)[2..12] == PadRight(Take(c.id, 10), 10) &&
      Row(c)[15..41] == PadRight(Take(c.name, 26), 26) &&
      Row(c)[44..50] == Center(IntToString(c.weight), 6) &&
      Row(c)[53..57] == Center(ok, 4) &&
      Row(c)[60..102] == PadRight(EvidenceCell(c), 42)
  {
    WeightFits(c.weight);
    var ok := if c.passed then "yes" else "no";
    TableLineLayout(Take(c.id, 10), Take(c.name, 26), IntToString(c.weight), ok, EvidenceCell(c));
  }

  /** The evidence cell is "-" for a check without evidence, and the evidence
      cut to 42 characters otherwise. */
  lemma EvidenceCellCases(c: CheckResult)
    ensures 0 < |EvidenceCell(c)| <= 42
    ensures c.evidence == "" ==> EvidenceCell(c) == "-"
    ensures c.evidence != "" ==> EvidenceCell(c) == Take(c.evidence, 42)
  {
  }

  /** The OK column of a row reads "yes " or " no ". */
  lemma RowOk(c: CheckResult)
    requires 0 <= c.weight < 1000000
    ensures Row(c)[53..57] == if c.passed then "yes " else " no "
  {
    RowCells(c);
    OkCell(c.passed);
  }

  /** The id and evidence columns of a row start with the id and the evidence
      cell. */
  lemma RowText(c: CheckResult)
    requires 0 <= c.weight < 1000000
    ensures Row(c)[2..2 + |Take(c.id, 10)|] == Take(c.id, 10)
    ensures c.evidence == "" ==> Row(c)[60] == '-' && Row(c)[61] == ' '
    ensures c.evidence != "" ==> Row(c)[60..60 + |EvidenceCell(c)|] == Take(c.evidence, 42)
  {
    RowCells(c);
    EvidenceCellCases(c);
    ReadCells(Row(c), Take(c.id, 10), EvidenceCell(c));
  }

  /** A row is as wide as the rules; its name column is the name cut to 26
      and padded, its weight column the weight centred in six; its OK column
      reads "yes " or " no "; its evidence column starts with the evidence
      (cut to 42) or with "-". */
  lemma RowLayout(c: CheckResult)
    requires 0 <= c.weight < 1000000
    ensures |Row(c)| == TableWidth
    ensures Row(c)[15..41] == PadRight(Take(c.name, 26), 26)
    ensures Row(c)[44..50] == Center(IntToString(c.weight), 6)
    ensures Row(c)[53..57] == if c.passed then "yes " else " no "
    ensures Row(c)[2..2 + |Take(c.id, 10)|] == Take(c.id, 10)
    ensures c.evidence == "" ==> Row(c)[60] == '-' && Row(c)[61] == ' '
    ensures c.evidence != "" ==> Row(c)[60..60 + |EvidenceCell(c)|] == Take(c.evidence, 42)
  {
    RowCells(c);
    RowOk(c);
    RowText(c);
  }

  /** The id and evidence cells of a table line start with the id and the
      evidence: the padding comes after them. */
  lemma ReadCells(line: string, id: string, cell: string)
    requires |line| == TableWidth && |id| <= 10 && 0 < |cell| <= 42
    requires line[2..12] == PadRight(id, 10) && line[60..102] == PadRight(cell, 42)
    ensures line[2..2 + |id|] == id && line[60..60 + |cell|] == cell
    ensures |cell| == 1 ==> line[60] == cell[0] && line[61] == ' '
  {
    InnerSlice(line, 60, 102, |cell|);
    InnerSlice(line, 2, 12, |id|);
    if |cell| == 1 {
      assert line[60] == line[60..102][0] && line[61] == line[60..102][1];
    }
  }

  /** The first k elements of a slice are the slice of that length. */
  lemma InnerSlice(s: string, i: nat, j: nat, k: nat)
    requires i + k <= j <= |s|
    ensures s[i..j][..k] == s[i..i + k]
  {
  }

  /** Every row is as wide as the rules. */
  lemma RowsWidth(checks: seq<CheckResult>)
    requires forall i :: 0 <= i < |checks| ==> 0 <= checks[i].weight < 1000000
    ensures forall i :: 0 <= i < |Rows(checks)| ==> |Rows(checks)[i]| == TableWidth
  {
    MapAt(checks, Row);
    forall i | 0 <= i < |checks| ensures |Rows(checks)[i]| == TableWidth {
      RowCells(checks[i]);
    }
  }

  /** Five lines, a body and a last line that repeats lines 2 and 4: one line
      per body line plus six, the body from line 5 on, and from line 2 on all
      lines `w` wide when lines 2 to 4 and the body lines are. */
  lemma Framed(pre: seq<string>, body: seq<string>, last: string, w: nat)
    requires |pre| == 5 && pre[2] == pre[4] == last && |pre[3]| == w && |last| == w
    requires forall i :: 0 <= i < |body| ==> |body[i]| == w
    ensures var all := pre + body + [last];
      |all| == |body| + 6 &&
      (forall i :: 2 <= i < |all| ==> |all[i]| == w) &&
      (forall i :: 0 <= i < |body| ==> all[5 + i] == body[i]) &&
      all[2] == all[4] == all[|all| - 1] == last
  {
  }

  /** The table has a line per check plus six, every line from the first rule
      on is as wide as the rules, and row i shows check i. */
  lemma TableShape(report: Report)
    requires forall i :: 0 <= i < |report.checks| ==> 0 <= report.checks[i].weight < 1000000
    ensures |TextLines(report)| == |report.checks| + 6
    ensures forall i :: 2 <= i < |TextLines(report)| ==> |TextLines(report)[i]| == TableWidth
    ensures forall i :: 0 <= i < |report.checks| ==> TextLines(report)[5 + i] == Row(report.checks[i])
    ensures TextLines(report)[2] == TextLines(report)[4] == TextLines(report)[|TextLines(report)| - 1] == Sep
  {
    var pre, rows := Preamble(report), Rows(report.checks);
    MapAt(report.checks, Row);
    RowsWidth(report.checks);
    RuleWidths();
    Framed(pre, rows, Sep, TableWidth);
  }
}
