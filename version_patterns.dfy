/** The two regular expressions of the release-hygiene check, written out as
    direct matchers (case-insensitive where the expressions carry the
    IGNORECASE flag, with ASCII case mapping and ASCII digits):

      "(?:version|Version)"\s*:\s*["']?[\d.]+\d["']?     searched in package.json / pyproject.toml
      <Version>[\d.]+</Version>                          searched in *.csproj

    Greedy `\s*` and `[\d.]+` never need to give characters back here, because
    the character that must follow them cannot itself be whitespace, a digit
    or a dot; so a match at an offset is decided by maximal runs. */
module VersionPatterns {
  import opened Text

  predicate IsDigit(c: char)
  {
    '0' <= c <= '9'
  }

  /** Python's `\s` in a str pattern: every character `str.isspace()`
      accepts, the ASCII separators U+001C..U+001F included. */
  predicate IsSpace(c: char)
  {
    ('\t' <= c <= '\r') || ('\U{001C}' <= c <= ' ') || c == '\U{0085}' || c == '\U{00A0}' ||
    c == '\U{1680}' || ('\U{2000}' <= c <= '\U{200A}') || c == '\U{2028}' || c == '\U{2029}' ||
    c == '\U{202F}' || c == '\U{205F}' || c == '\U{3000}'
  }

  /** The end of the run of whitespace starting at `i`. */
  function SkipSpaces(t: string, i: nat): (j: nat)
    requires i <= |t|
    ensures i <= j <= |t|
    ensures forall k :: i <= k < j ==> IsSpace(t[k])
    ensures j < |t| ==> !IsSpace(t[j])
    decreases |t| - i
  {
    if i < |t| && IsSpace(t[i]) then SkipSpaces(t, i + 1) else i
  }

  /** The end of the run of digits and dots (`[\d.]*`) starting at `i`. */
  function NumberRunEnd(t: string, i: nat): (j: nat)
    requires i <= |t|
    ensures i <= j <= |t|
    ensures forall k :: i <= k < j ==> IsDigit(t[k]) || t[k] == '.'
    ensures j < |t| ==> !(IsDigit(t[j]) || t[j] == '.')
    decreases |t| - i
  {
    if i < |t| && (IsDigit(t[i]) || t[i] == '.') then NumberRunEnd(t, i + 1) else i
  }

  /** `[\d.]+\d` matches at `i`: the run of digits and dots starting there has a
      digit somewhere after its first character. */
  predicate VersionNumberAt(t: string, i: nat)
    requires i <= |t|
  {
    exists m :: i < m < NumberRunEnd(t, i) && IsDigit(t[m])
  }

  /** The package-manifest version pattern matches at offset `i`. */
  predicate VersionFieldAt(t: string, i: nat)
  {
    i + 9 <= |t| && Lower(t[i..i + 9]) == "\"version\"" &&
    var j := SkipSpaces(t, i + 9);
    j < |t| && t[j] == ':' &&
    var k := SkipSpaces(t, j + 1);
    var n := if k < |t| && (t[k] == '"' || t[k] == '\'') then k + 1 else k;
    VersionNumberAt(t, n)
  }

  /** `version_pattern.search(text)` succeeds. */
  predicate HasVersionField(t: string)
  {
    exists i :: 0 <= i < |t| && VersionFieldAt(t, i)
  }

  /** The project-file pattern matches at offset `i`. */
  predicate CsprojVersionAt(t: string, i: nat)
  {
    i + 9 <= |t| && Lower(t[i..i + 9]) == "<version>" &&
    var e := NumberRunEnd(t, i + 9);
    e > i + 9 && e + 10 <= |t| && Lower(t[e..e + 10]) == "</version>"
  }

  /** `version_csproj.search(text)` succeeds. */
  predicate HasCsprojVersion(t: string)
  {
    exists i :: 0 <= i < |t| && CsprojVersionAt(t, i)
  }

  /** A typical package.json version field matches; a one-digit version does
      not, because `[\d.]+\d` needs at least two characters. */
  lemma VersionFieldExamples()
    ensures HasVersionField("{\"version\": \"0.1.0\"}")
    ensures !VersionNumberAt("\"1\"", 1)
  {
    var t := "{\"version\": \"0.1.0\"}";
    assert t[1..10] == "\"version\"";
    LowerKey();
    assert SkipSpaces(t, 10) == 10;
    assert SkipSpaces(t, 11) == 12;
    assert NumberRunEnd(t, 13) == 18 by {
      assert NumberRunEnd(t, 18) == 18;
      assert NumberRunEnd(t, 17) == 18;
      assert NumberRunEnd(t, 16) == 18;
      assert NumberRunEnd(t, 15) == 18;
      assert NumberRunEnd(t, 14) == 18;
    }
    assert IsDigit(t[15]);
    assert VersionFieldAt(t, 1);
    assert NumberRunEnd("\"1\"", 1) == 2;
  }

  /** Any character Python counts as whitespace may stand around the colon,
      the information separator U+001C among them. */
  lemma SeparatorSpaceExample()
    ensures HasVersionField("\"version\"\U{001C}:\"1.0\"")
  {
    var t := "\"version\"\U{001C}:\"1.0\"";
    assert t[0..9] == "\"version\"";
    LowerKey();
    assert SkipSpaces(t, 10) == 10;
    assert SkipSpaces(t, 9) == 10;
    assert SkipSpaces(t, 11) == 11;
    assert NumberRunEnd(t, 12) == 15 by {
      assert NumberRunEnd(t, 15) == 15;
      assert NumberRunEnd(t, 14) == 15;
      assert NumberRunEnd(t, 13) == 15;
    }
    assert IsDigit(t[14]);
    assert VersionFieldAt(t, 0);
  }

  /** An SDK-style project file's version element matches, in any letter case. */
  lemma CsprojVersionExample()
    ensures HasCsprojVersion("<VERSION>1.2</version>")
  {
    var t := "<VERSION>1.2</version>";
    assert t[0..9] == "<VERSION>" && t[12..22] == "</version>";
    LowerTags();
    assert NumberRunEnd(t, 9) == 12;
    assert CsprojVersionAt(t, 0);
  }

  lemma LowerKey()
    ensures Lower("\"version\"") == "\"version\""
  {
    var w := Lower("\"version\"");
    assert |w| == 9 && forall i :: 0 <= i < 9 ==> w[i] == "\"version\""[i];
  }

  lemma LowerTags()
    ensures Lower("<VERSION>") == "<version>"
    ensures Lower("</version>") == "</version>"
  {
    var w := Lower("<VERSION>");
    assert |w| == 9 && forall i :: 0 <= i < 9 ==> w[i] == "<version>"[i];
    var v := Lower("</version>");
    assert |v| == 10 && forall i :: 0 <= i < 10 ==> v[i] == "</version>"[i];
  }
}
