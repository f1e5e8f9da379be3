/** Recognising test scripts: `re.match(r'([^.]+)\.lua$', filename)` at
    tests/test-output.py:36-39.  `re.match` anchors at the start, `[^.]+`
    takes one or more characters other than '.', and Python's `$` matches
    at the end of the string or just before a single trailing newline. */
module Discovery {
  import opened Wrappers

  predicate NoDot(s: string)
  {
    forall k :: 0 <= k < |s| ==> s[k] != '.'
  }

  /** `f` is a test script whose test name (group 1 of the match) is `name`. */
  predicate IsScriptNamed(f: string, name: string)
  {
    |name| > 0 && NoDot(name) && (f == name + ".lua" || f == name + ".lua\n")
  }

  /** Index of the first '.' in `s`, or `|s|` when there is none. */
  function FirstDot(s: string): (i: nat)
    ensures i <= |s|
    ensures NoDot(s[..i])
    ensures i < |s| ==> s[i] == '.'
  {
    if s == [] || s[0] == '.' then 0
    else
      var i := 1 + FirstDot(s[1..]);
      assert s[..i] == [s[0]] + s[1..][..i - 1];
      i
  }

  /** The test name of `f`, or None when `f` is not a test script. */
  function MatchTestName(f: string): (r: Option<string>)
    ensures r.Some? ==> IsScriptNamed(f, r.value)
  {
    var i := FirstDot(f);
    if 0 < i && (f[i..] == ".lua" || f[i..] == ".lua\n") then
      assert f == f[..i] + f[i..];
      Some(f[..i])
    else None
  }

  /** Every script is recognised, with the name the regex's group captures. */
  lemma MatchTestNameComplete(f: string, name: string)
    requires IsScriptNamed(f, name)
    ensures MatchTestName(f) == Some(name)
  {
    var i := FirstDot(f);
    assert f[|name|] == '.';
    assert i == |name|;
    assert f[..i] == name;
  }

  /** A file name is a test script exactly when some name makes it one, and then the name is unique. */
  lemma MatchTestNameExact(f: string)
    ensures MatchTestName(f).None? <==> forall name :: !IsScriptNamed(f, name)
    ensures forall name :: IsScriptNamed(f, name) ==> MatchTestName(f) == Some(name)
  {
    forall name | IsScriptNamed(f, name) ensures MatchTestName(f) == Some(name) {
      MatchTestNameComplete(f, name);
    }
  }

  /** A plain script and, through `$`, a script name with one trailing newline are tests. */
  lemma MatchTestNameExamples()
    ensures MatchTestName("mat.lua") == Some("mat")
    ensures MatchTestName("x.lua\n") == Some("x")
  {
    MatchTestNameComplete("mat.lua", "mat");
    MatchTestNameComplete("x.lua\n", "x");
  }

  /** Names with an inner dot, an empty base, another extension or more
      than one trailing newline are not tests. */
  lemma NotTestNameExamples()
    ensures MatchTestName("a.b.lua") == None
    ensures MatchTestName(".lua") == None
    ensures MatchTestName("x.luac") == None
    ensures MatchTestName("x.expect") == None
    ensures MatchTestName("x.lua\n\n") == None
  {
  }
}
