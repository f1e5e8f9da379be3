/** The text the harness produces for one test: the report line printed at
    tests/test-output.py:66 and the diff artifact written at lines 61-64. */
module Report {

  /** Width of the name field in `"%s %-24s %s"`. */
  const NameWidth: nat := 24

  function Max(a: nat, b: nat): nat
  {
    if a < b then b else a
  }

  function Spaces(n: nat): (r: string)
    ensures |r| == n
    ensures forall k :: 0 <= k < n ==> r[k] == ' '
  {
    if n == 0 then "" else Spaces(n - 1) + " "
  }

  /** `%-<width>s`: left-justified, padded with spaces, never truncated. */
  function PadRight(s: string, width: nat): (r: string)
    ensures |r| == Max(|s|, width)
    ensures r[..|s|] == s
    ensures forall k :: |s| <= k < |r| ==> r[k] == ' '
  {
    if |s| < width then s + Spaces(width - |s|) else s
  }

  /** `"%s %-24s %s" % (led, testname, msg)`. */
  function ReportLine(led: string, name: string, msg: string): string
  {
    led + " " + PadRight(name, NameWidth) + " " + msg
  }

  /** A report line is the marker, a blank, the whole name in a field of at
      least 24 columns filled with blanks, a blank and the message. */
  lemma ReportLineLayout(led: string, name: string, msg: string)
    ensures var line := ReportLine(led, name, msg);
      && |line| == |led| + 1 + Max(|name|, NameWidth) + 1 + |msg|
      && line[..|led|] == led
      && line[|led|] == ' '
      && line[|led| + 1..|led| + 1 + |name|] == name
      && (forall k :: |led| + 1 + |name| <= k <= |led| + 1 + Max(|name|, NameWidth) ==> line[k] == ' ')
      && line[|line| - |msg|..] == msg
  {
  }

  /** With a one-character marker and a name of at most 24 characters the
      message always starts at offset 27, so the report lines align. */
  lemma MessageColumnAligned(led: string, name: string, msg: string)
    requires |led| == 1 && |name| <= NameWidth
    ensures ReportLine(led, name, msg)[27..] == msg
  {
    ReportLineLayout(led, name, msg);
  }

  const ReferenceHeader := "*** reference ***\n"
  const ProgramHeader := "*** test program ***\n"

  /** The content of `<testname>.output.diff`: both texts, each under its
      label and followed by a newline. */
  function DiffText(reference: string, output: string): (d: string)
    ensures |d| == |ReferenceHeader| + |reference| + 1 + |ProgramHeader| + |output| + 1
    ensures d[..18] == ReferenceHeader
    ensures d[18..18 + |reference|] == reference
    ensures d[18 + |reference|] == '\n'
    ensures d[19 + |reference|..40 + |reference|] == ProgramHeader
    ensures d[40 + |reference|..|d| - 1] == output
    ensures d[|d| - 1] == '\n'
  {
    var d := ReferenceHeader + reference + "\n" + ProgramHeader + output + "\n";
    assert d[18..18 + |reference|] == reference;
    assert d[19 + |reference|..40 + |reference|] == ProgramHeader;
    assert d[40 + |reference|..|d| - 1] == output;
    d
  }

  /** A diff artifact determines the two texts it was written from, given
      where the reference ends. */
  lemma DiffTextRecoverable(r1: string, o1: string, r2: string, o2: string)
    requires DiffText(r1, o1) == DiffText(r2, o2) && |r1| == |r2|
    ensures r1 == r2 && o1 == o2
  {
  }

  /** Name of the artifact in the log directory. */
  function ArtifactName(testname: string): (a: string)
    ensures |a| == |testname| + 12
    ensures a[..|testname|] == testname
    ensures a[|testname|..] == ".output.diff"
  {
    testname + ".output.diff"
  }

  /** Distinct test names get distinct artifacts. */
  lemma ArtifactNameInjective(t1: string, t2: string)
    requires ArtifactName(t1) == ArtifactName(t2)
    ensures t1 == t2
  {
  }
}
