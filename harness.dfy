/** The main loop of tests/test-output.py:34-66: for every directory of the
    walk, visit its file names in sorted order, skip those that are not test
    scripts, classify each script's run, print one report line for it and,
    when it fails, write its diff artifact into the log directory.

    Running `luajit` and reading `<name>.expect` are not modelled; their
    outcomes are the parameters `run` and `refs`:
    `run(dirpath, filename)` is the captured standard output, None when the
    launch raised `CalledProcessError`; `refs(dirpath, testname)` is the
    reference text, None when reading it raised `IOError`. */
module Harness {
  import opened Wrappers
  import opened NameOrder
  import opened Discovery
  import opened Verdicts
  import opened Report

  /** A recognised script: its file name and the test name taken from it. */
  datatype TestCase = TestCase(filename: string, name: string)

  /** What the directory walk reports for one directory: its path and its file names. */
  datatype DirEntry = DirEntry(dirpath: string, filenames: seq<string>)

  /** An abstract I/O outcome, indexed by directory and file or test name. */
  type Outcomes = (string, string) -> Option<string>

  /** The test cases among `filenames`, in the order given; other files are dropped. */
  function Tests(filenames: seq<string>): seq<TestCase>
  {
    if filenames == [] then []
    else
      var init, f := filenames[..|filenames| - 1], filenames[|filenames| - 1];
      assert filenames == init + [f];
      Tests(init) + (match MatchTestName(f) case Some(n) => [TestCase(f, n)] case None => [])
  }

  /** The test cases are exactly the recognised scripts of the listing, each
      with the name its match yields. */
  lemma {:induction false} TestsMembers(filenames: seq<string>)
    ensures |Tests(filenames)| <= |filenames|
    ensures forall t :: t in Tests(filenames) ==> t.filename in filenames && MatchTestName(t.filename) == Some(t.name)
    ensures forall f :: f in filenames && MatchTestName(f).Some? ==> TestCase(f, MatchTestName(f).value) in Tests(filenames)
  {
    if filenames != [] {
      var init, f := filenames[..|filenames| - 1], filenames[|filenames| - 1];
      assert filenames == init + [f];
      TestsMembers(init);
    }
  }

  lemma TestsSingle(f: string)
    ensures Tests([f]) == match MatchTestName(f) case Some(n) => [TestCase(f, n)] case None => []
  {
  }

  /** Taking test cases commutes with concatenating listings: each file is
      judged on its own name, and the order of the listing is kept. */
  lemma {:induction false} TestsAppend(a: seq<string>, b: seq<string>)
    ensures Tests(a + b) == Tests(a) + Tests(b)
  {
    if b == [] {
      assert a + b == a;
    } else {
      var init, f := b[..|b| - 1], b[|b| - 1];
      assert a + b == (a + init) + [f];
      assert (a + b)[..|a + b| - 1] == a + init;
      TestsAppend(a, init);
    }
  }

  /** A file that is not a test script contributes nothing wherever it sits in the listing. */
  lemma SkippedSilently(a: seq<string>, f: string, b: seq<string>)
    requires MatchTestName(f).None?
    ensures Tests(a + [f] + b) == Tests(a + b)
  {
    TestsAppend(a + [f], b);
    TestsAppend(a, [f]);
    TestsAppend(a, b);
    TestsSingle(f);
  }

  predicate SortedByFile(ts: seq<TestCase>)
  {
    forall i, j :: 0 <= i < j < |ts| ==> NameLe(ts[i].filename, ts[j].filename)
  }

  /** Test cases taken from a sorted listing come in sorted file-name order. */
  lemma {:induction false} TestsSorted(filenames: seq<string>)
    requires Sorted(filenames)
    ensures SortedByFile(Tests(filenames))
  {
    if filenames != [] {
      var init, f := filenames[..|filenames| - 1], filenames[|filenames| - 1];
      assert Sorted(init);
      TestsSorted(init);
      TestsMembers(init);
      var ts := Tests(init);
      forall t | t in ts ensures NameLe(t.filename, f) {
        var i :| 0 <= i < |init| && init[i] == t.filename;
        assert filenames[i] == init[i];
      }
    }
  }

  function VerdictOf(dirpath: string, t: TestCase, run: Outcomes, refs: Outcomes): Verdict
  {
    Classify(run(dirpath, t.filename), refs(dirpath, t.name))
  }

  /** The report line printed for test case `t`. */
  function LineOf(dirpath: string, t: TestCase, run: Outcomes, refs: Outcomes): string
  {
    var v := VerdictOf(dirpath, t, run, refs);
    ReportLine(Led(v), t.name, Message(v))
  }

  predicate Fails(dirpath: string, t: TestCase, run: Outcomes, refs: Outcomes)
  {
    VerdictOf(dirpath, t, run, refs) == Fail
  }

  /** The artifact written for a failing test case. */
  function DiffOf(dirpath: string, t: TestCase, run: Outcomes, refs: Outcomes): string
    requires Fails(dirpath, t, run, refs)
  {
    DiffText(refs(dirpath, t.name).value, run(dirpath, t.filename).value)
  }

  /** The lines printed for the test cases `ts` of directory `dirpath`. */
  function DirReport(dirpath: string, ts: seq<TestCase>, run: Outcomes, refs: Outcomes): seq<string>
  {
    if ts == [] then []
    else DirReport(dirpath, ts[..|ts| - 1], run, refs) + [LineOf(dirpath, ts[|ts| - 1], run, refs)]
  }

  /** Exactly one line per test case, in the order of the test cases. */
  lemma {:induction false} DirReportLines(dirpath: string, ts: seq<TestCase>, run: Outcomes, refs: Outcomes)
    ensures |DirReport(dirpath, ts, run, refs)| == |ts|
    ensures forall k :: 0 <= k < |ts| ==> DirReport(dirpath, ts, run, refs)[k] == LineOf(dirpath, ts[k], run, refs)
  {
    if ts != [] {
      var init := ts[..|ts| - 1];
      DirReportLines(dirpath, init, run, refs);
      var lines := DirReport(dirpath, init, run, refs);
      assert DirReport(dirpath, ts, run, refs) == lines + [LineOf(dirpath, ts[|ts| - 1], run, refs)];
      forall k | 0 <= k < |ts| - 1 ensures DirReport(dirpath, ts, run, refs)[k] == LineOf(dirpath, ts[k], run, refs) {
        assert ts[k] == init[k];
      }
    }
  }

  lemma {:induction false} DirReportAppend(dirpath: string, a: seq<TestCase>, b: seq<TestCase>,
                                           run: Outcomes, refs: Outcomes)
    ensures DirReport(dirpath, a + b, run, refs) == DirReport(dirpath, a, run, refs) + DirReport(dirpath, b, run, refs)
  {
    if b == [] {
      assert a + b == a;
    } else {
      var init := b[..|b| - 1];
      assert (a + b)[..|a + b| - 1] == a + init;
      assert (a + b)[|a + b| - 1] == b[|b| - 1];
      DirReportAppend(dirpath, a, init, run, refs);
    }
  }

  /** The log directory after the test cases `ts` of `dirpath` have run,
      starting from `log`: only failures write, each to the artifact named
      after its test, a later write replacing an earlier one. */
  function DirLog(log: map<string, string>, dirpath: string, ts: seq<TestCase>,
                  run: Outcomes, refs: Outcomes): map<string, string>
  {
    if ts == [] then log
    else
      var init, t := ts[..|ts| - 1], ts[|ts| - 1];
      var m := DirLog(log, dirpath, init, run, refs);
      if Fails(dirpath, t, run, refs) then
        m[ArtifactName(t.name) := DiffOf(dirpath, t, run, refs)]
      else m
  }

  /** Every artifact the tests add belongs to a failing test. */
  lemma {:induction false} DirLogOnlyFailures(log: map<string, string>, dirpath: string, ts: seq<TestCase>,
                                              run: Outcomes, refs: Outcomes,
                                              a: string)
    requires a in DirLog(log, dirpath, ts, run, refs) && a !in log
    ensures exists k :: 0 <= k < |ts| && Fails(dirpath, ts[k], run, refs) && a == ArtifactName(ts[k].name)
  {
    var init := ts[..|ts| - 1];
    if a in DirLog(log, dirpath, init, run, refs) {
      DirLogOnlyFailures(log, dirpath, init, run, refs, a);
      var k :| 0 <= k < |init| && Fails(dirpath, init[k], run, refs) && a == ArtifactName(init[k].name);
      assert ts[k] == init[k];
    } else {
      assert Fails(dirpath, ts[|ts| - 1], run, refs);
    }
  }

  /** A failing test always leaves its artifact; its content is that test's
      diff unless a later failing test of the same name overwrote it. */
  lemma {:induction false} DirLogHasFailure(log: map<string, string>, dirpath: string, ts: seq<TestCase>,
                                            run: Outcomes, refs: Outcomes,
                                            k: nat)
    requires k < |ts| && Fails(dirpath, ts[k], run, refs)
    ensures ArtifactName(ts[k].name) in DirLog(log, dirpath, ts, run, refs)
    ensures (forall j :: k < j < |ts| && Fails(dirpath, ts[j], run, refs) ==> ts[j].name != ts[k].name) ==>
      DirLog(log, dirpath, ts, run, refs)[ArtifactName(ts[k].name)] == DiffOf(dirpath, ts[k], run, refs)
  {
    var init, t := ts[..|ts| - 1], ts[|ts| - 1];
    if k < |ts| - 1 {
      assert init[k] == ts[k];
      DirLogHasFailure(log, dirpath, init, run, refs, k);
      if Fails(dirpath, t, run, refs) && ArtifactName(t.name) == ArtifactName(ts[k].name) {
        ArtifactNameInjective(t.name, ts[k].name);
      }
    }
  }

  /** Entries of the log that no failing test names are left as they were. */
  lemma {:induction false} DirLogKeepsOthers(log: map<string, string>, dirpath: string, ts: seq<TestCase>,
                                             run: Outcomes, refs: Outcomes,
                                             a: string)
    requires a in log
    requires forall k :: 0 <= k < |ts| && Fails(dirpath, ts[k], run, refs) ==> ArtifactName(ts[k].name) != a
    ensures a in DirLog(log, dirpath, ts, run, refs) && DirLog(log, dirpath, ts, run, refs)[a] == log[a]
  {
    if ts != [] {
      var init := ts[..|ts| - 1];
      forall k | 0 <= k < |init| && Fails(dirpath, init[k], run, refs) ensures ArtifactName(init[k].name) != a {
        assert ts[k] == init[k];
      }
      DirLogKeepsOthers(log, dirpath, init, run, refs, a);
    }
  }

  lemma {:induction false} DirLogAppend(log: map<string, string>, dirpath: string, a: seq<TestCase>, b: seq<TestCase>,
                                        run: Outcomes, refs: Outcomes)
    ensures DirLog(log, dirpath, a + b, run, refs) == DirLog(DirLog(log, dirpath, a, run, refs), dirpath, b, run, refs)
  {
    if b == [] {
      assert a + b == a;
    } else {
      var init := b[..|b| - 1];
      assert (a + b)[..|a + b| - 1] == a + init;
      assert (a + b)[|a + b| - 1] == b[|b| - 1];
      DirLogAppend(log, dirpath, a, init, run, refs);
    }
  }

  /** Visiting one more file of a listing extends the report and the log by that file's share. */
  lemma DirStep(log: map<string, string>, dirpath: string, names: seq<string>, i: nat,
                run: Outcomes, refs: Outcomes)
    requires i < |names|
    ensures DirReport(dirpath, Tests(names[..i + 1]), run, refs)
      == DirReport(dirpath, Tests(names[..i]), run, refs) + DirReport(dirpath, Tests([names[i]]), run, refs)
    ensures DirLog(log, dirpath, Tests(names[..i + 1]), run, refs)
      == DirLog(DirLog(log, dirpath, Tests(names[..i]), run, refs), dirpath, Tests([names[i]]), run, refs)
  {
    assert names[..i + 1] == names[..i] + [names[i]];
    TestsAppend(names[..i], [names[i]]);
    DirReportAppend(dirpath, Tests(names[..i]), Tests([names[i]]), run, refs);
    DirLogAppend(log, dirpath, Tests(names[..i]), Tests([names[i]]), run, refs);
  }

  /** The test cases of one directory, in the order they run. */
  function DirTests(filenames: seq<string>): seq<TestCase>
  {
    Tests(SortNames(filenames))
  }

  /** One directory's report: one line per test script of the directory,
      in sorted file-name order, whatever order the listing came in. */
  lemma DirectoryReport(dirpath: string, filenames: seq<string>,
                        run: Outcomes, refs: Outcomes)
    ensures var ts := DirTests(filenames);
      && |DirReport(dirpath, ts, run, refs)| == |ts|
      && (forall k :: 0 <= k < |ts| ==> DirReport(dirpath, ts, run, refs)[k] == LineOf(dirpath, ts[k], run, refs))
      && SortedByFile(ts)
      && (forall t :: t in ts ==> t.filename in filenames)
      && (forall f :: f in filenames && MatchTestName(f).Some? ==> TestCase(f, MatchTestName(f).value) in ts)
      && (forall listing :: multiset(listing) == multiset(filenames) ==> DirTests(listing) == ts)
  {
    var sorted := SortNames(filenames);
    TestsSorted(sorted);
    TestsMembers(sorted);
    DirReportLines(dirpath, DirTests(filenames), run, refs);
    forall f ensures f in sorted <==> f in filenames {
      assert f in sorted <==> f in multiset(sorted);
    }
    forall listing | multiset(listing) == multiset(filenames) ensures DirTests(listing) == DirTests(filenames) {
      ListingOrderIrrelevant(listing, filenames);
    }
  }

  /** The lines printed for a whole walk, directory after directory. */
  function TreeReport(walk: seq<DirEntry>, run: Outcomes, refs: Outcomes): seq<string>
  {
    if walk == [] then []
    else
      var d := walk[|walk| - 1];
      TreeReport(walk[..|walk| - 1], run, refs) + DirReport(d.dirpath, DirTests(d.filenames), run, refs)
  }

  /** The log directory after a whole walk. */
  function TreeLog(log: map<string, string>, walk: seq<DirEntry>, run: Outcomes, refs: Outcomes): map<string, string>
  {
    if walk == [] then log
    else
      var d := walk[|walk| - 1];
      DirLog(TreeLog(log, walk[..|walk| - 1], run, refs), d.dirpath, DirTests(d.filenames), run, refs)
  }

  /** An entry that the `glob` over `tests/log` does not list: its name starts with '.'. */
  predicate Hidden(a: string)
  {
    |a| > 0 && a[0] == '.'
  }

  /** What the clearing loop leaves of the log directory's earlier entries. */
  function Cleared(previous: map<string, string>): (m: map<string, string>)
    ensures forall a :: a in m ==> Hidden(a)
  {
    map a | a in previous && Hidden(a) :: previous[a]
  }

  /** An artifact never looks like a test script, whatever the test name. */
  lemma ArtifactNotATest(t: string)
    ensures MatchTestName(ArtifactName(t)).None?
  {
    var a := ArtifactName(t);
    assert a[|a| - 1] == 'f';
  }

  /** A hidden entry never looks like a test script either, so the listing
      of `tests/log` inside the walk contributes no test. */
  lemma HiddenNotATest(a: string)
    requires Hidden(a)
    ensures MatchTestName(a).None?
  {
  }

  /** The artifact of a test is never hidden, so the clearing loop of the
      next run removes it. */
  lemma ArtifactNotHidden(f: string)
    requires MatchTestName(f).Some?
    ensures !Hidden(ArtifactName(MatchTestName(f).value))
  {
  }

  /** Artifact `a` is the one a failing test case of directory `d` writes. */
  predicate WrittenBy(d: DirEntry, a: string, run: Outcomes, refs: Outcomes)
  {
    exists k :: 0 <= k < |DirTests(d.filenames)| &&
      Fails(d.dirpath, DirTests(d.filenames)[k], run, refs) && a == ArtifactName(DirTests(d.filenames)[k].name)
  }

  /** Starting from the cleared log directory, every entry that is not
      hidden after a walk was written by a failing test of that walk:
      no stale artifact survives. */
  lemma {:induction false} NoStaleArtifacts(previous: map<string, string>, walk: seq<DirEntry>,
                                            run: Outcomes, refs: Outcomes, a: string)
    requires a in TreeLog(Cleared(previous), walk, run, refs) && !Hidden(a)
    ensures exists i :: 0 <= i < |walk| && WrittenBy(walk[i], a, run, refs)
  {
    var init, d := walk[..|walk| - 1], walk[|walk| - 1];
    var before := TreeLog(Cleared(previous), init, run, refs);
    if a in before {
      NoStaleArtifacts(previous, init, run, refs, a);
      var i :| 0 <= i < |init| && WrittenBy(init[i], a, run, refs);
      assert walk[i] == init[i];
    } else {
      DirLogOnlyFailures(before, d.dirpath, DirTests(d.filenames), run, refs, a);
      assert WrittenBy(walk[|walk| - 1], a, run, refs);
    }
  }

  /** The hidden entries the clearing loop left are never touched by a walk. */
  lemma {:induction false} HiddenEntriesSurvive(previous: map<string, string>, walk: seq<DirEntry>,
                                                run: Outcomes, refs: Outcomes, a: string)
    requires a in previous && Hidden(a)
    ensures a in TreeLog(Cleared(previous), walk, run, refs)
    ensures TreeLog(Cleared(previous), walk, run, refs)[a] == previous[a]
  {
    if walk != [] {
      var init, d := walk[..|walk| - 1], walk[|walk| - 1];
      HiddenEntriesSurvive(previous, init, run, refs, a);
      var ts := DirTests(d.filenames);
      forall k | 0 <= k < |ts| && Fails(d.dirpath, ts[k], run, refs) ensures ArtifactName(ts[k].name) != a {
        TestsMembers(SortNames(d.filenames));
        assert ts[k] in ts;
        ArtifactNotHidden(ts[k].filename);
      }
      DirLogKeepsOthers(TreeLog(Cleared(previous), init, run, refs), d.dirpath, ts, run, refs, a);
    }
  }

  /** The report of a walk is the reports of its parts, in walk order. */
  lemma {:induction false} TreeReportAppend(a: seq<DirEntry>, b: seq<DirEntry>, run: Outcomes, refs: Outcomes)
    ensures TreeReport(a + b, run, refs) == TreeReport(a, run, refs) + TreeReport(b, run, refs)
  {
    if b == [] {
      assert a + b == a;
    } else {
      var init, d := b[..|b| - 1], b[|b| - 1];
      var lines := DirReport(d.dirpath, DirTests(d.filenames), run, refs);
      assert (a + b)[..|a + b| - 1] == a + init;
      assert (a + b)[|a + b| - 1] == d;
      assert TreeReport(a + b, run, refs) == TreeReport(a + init, run, refs) + lines;
      TreeReportAppend(a, init, run, refs);
      AppendAssociative(TreeReport(a, run, refs), TreeReport(init, run, refs), lines);
    }
  }

  /** The number of test scripts over a whole walk. */
  function TreeTestCount(walk: seq<DirEntry>): nat
  {
    if walk == [] then 0 else TreeTestCount(walk[..|walk| - 1]) + |DirTests(walk[|walk| - 1].filenames)|
  }

  /** A walk prints one line per test script of the walk. */
  lemma {:induction false} TreeReportLength(walk: seq<DirEntry>, run: Outcomes, refs: Outcomes)
    ensures |TreeReport(walk, run, refs)| == TreeTestCount(walk)
  {
    if walk != [] {
      var d := walk[|walk| - 1];
      TreeReportLength(walk[..|walk| - 1], run, refs);
      DirReportLines(d.dirpath, DirTests(d.filenames), run, refs);
    }
  }

  /** The lines of directory `i` come after those of the directories before
      it and before those of the directories after it. */
  lemma TreeReportOrder(before: seq<DirEntry>, d: DirEntry, after: seq<DirEntry>, run: Outcomes, refs: Outcomes)
    ensures TreeReport(before + [d] + after, run, refs) == TreeReport(before, run, refs)
      + DirReport(d.dirpath, DirTests(d.filenames), run, refs) + TreeReport(after, run, refs)
  {
    TreeReportAppend(before + [d], after, run, refs);
    TreeReportAppend(before, [d], run, refs);
    TreeReportSingle(d, run, refs);
  }

  lemma TreeReportSingle(d: DirEntry, run: Outcomes, refs: Outcomes)
    ensures TreeReport([d], run, refs) == DirReport(d.dirpath, DirTests(d.filenames), run, refs)
  {
    assert [d][..0] == [];
  }

  lemma AppendAssociative(a: seq<string>, b: seq<string>, c: seq<string>)
    ensures (a + b) + c == a + (b + c)
  {
  }

  lemma TreeStep(log: map<string, string>, walk: seq<DirEntry>, i: nat, run: Outcomes, refs: Outcomes)
    requires i < |walk|
    ensures TreeReport(walk[..i + 1], run, refs)
      == TreeReport(walk[..i], run, refs) + DirReport(walk[i].dirpath, DirTests(walk[i].filenames), run, refs)
    ensures TreeLog(log, walk[..i + 1], run, refs)
      == DirLog(TreeLog(log, walk[..i], run, refs), walk[i].dirpath, DirTests(walk[i].filenames), run, refs)
  {
    assert walk[..i + 1][..i] == walk[..i];
  }

  class Harness {
    /** The lines printed so far. */
    var report: seq<string>
    /** The entries of `tests/log` and their contents. */
    var log: map<string, string>

    /** Lines 20-21 applied to the earlier contents `previous` of `tests/log`:
        every entry the `glob` over `tests/log` lists is removed, so only the
        hidden ones remain, before any test runs. */
    constructor (previous: map<string, string>)
      ensures report == []
      ensures log == Cleared(previous)
    {
      report := [];
      log := previous;
      new;
      var listed := set a | a in previous && !Hidden(a);
      while listed != {}
        invariant report == []
        invariant listed <= previous.Keys
        invariant forall a :: a in log <==> a in previous && (Hidden(a) || a in listed)
        invariant forall a :: a in log ==> log[a] == previous[a]
        decreases listed
      {
        var f :| f in listed;
        log := log - {f};
        listed := listed - {f};
      }
    }

    /** One iteration of the inner loop, for file `filename` of `dirpath`. */
    method RunTest(dirpath: string, filename: string, run: Outcomes, refs: Outcomes)
      modifies this
      ensures report == old(report) + DirReport(dirpath, Tests([filename]), run, refs)
      ensures log == DirLog(old(log), dirpath, Tests([filename]), run, refs)
    {
      TestsSingle(filename);
      var m := MatchTestName(filename);
      if m.Some? {
        var testname := m.value;
        var outTst: Option<string> := None;
        var runError: Option<string> := None;
        var launched := run(dirpath, filename);
        if launched.None? {
          runError := Some("fail to run");
        } else {
          outTst := launched;
        }
        var outRef := refs(dirpath, testname);
        if outRef.None? {
          runError := Some("missing expect file");
        }
        ghost var v := VerdictOf(dirpath, TestCase(filename, testname), run, refs);
        var led, msg;
        if runError.Some? {
          led, msg := "*", runError.value;
          assert v == if outRef.None? then MissingExpect else RunFailure;
        } else if outTst.value == outRef.value {
          if outTst.value in ["", "\n", "\r\n"] || outTst.value == "" {
            led, msg := "-", "pass / no output";
            assert v == PassNoOutput;
          } else {
            led, msg := " ", "pass";
            assert v == Pass;
          }
        } else {
          led, msg := "*", "fail";
          assert v == Fail;
          log := log[ArtifactName(testname) := DiffText(outRef.value, outTst.value)];
        }
        assert led == Led(v) && msg == Message(v);
        report := report + [ReportLine(led, testname, msg)];
      }
    }

    /** The inner loop over `sorted(filenames)` for one directory. */
    method RunDirectory(dirpath: string, filenames: seq<string>, run: Outcomes, refs: Outcomes)
      modifies this
      ensures report == old(report) + DirReport(dirpath, DirTests(filenames), run, refs)
      ensures log == DirLog(old(log), dirpath, DirTests(filenames), run, refs)
    {
      var names := SortNames(filenames);
      var i := 0;
      while i < |names|
        invariant 0 <= i <= |names|
        invariant report == old(report) + DirReport(dirpath, Tests(names[..i]), run, refs)
        invariant log == DirLog(old(log), dirpath, Tests(names[..i]), run, refs)
      {
        ghost var done := DirReport(dirpath, Tests(names[..i]), run, refs);
        RunTest(dirpath, names[i], run, refs);
        DirStep(old(log), dirpath, names, i, run, refs);
        AppendAssociative(old(report), done, DirReport(dirpath, Tests([names[i]]), run, refs));
        i := i + 1;
      }
      assert names[..i] == names;
    }

    /** The outer loop over the directories of the walk, in the order the walk yields them. */
    method RunTree(walk: seq<DirEntry>, run: Outcomes, refs: Outcomes)
      modifies this
      ensures report == old(report) + TreeReport(walk, run, refs)
      ensures log == TreeLog(old(log), walk, run, refs)
    {
      var i := 0;
      while i < |walk|
        invariant 0 <= i <= |walk|
        invariant report == old(report) + TreeReport(walk[..i], run, refs)
        invariant log == TreeLog(old(log), walk[..i], run, refs)
      {
        ghost var printed, done := report, TreeReport(walk[..i], run, refs);
        RunDirectory(walk[i].dirpath, walk[i].filenames, run, refs);
        ghost var lines := DirReport(walk[i].dirpath, DirTests(walk[i].filenames), run, refs);
        TreeStep(old(log), walk, i, run, refs);
        AppendAssociative(old(report), done, lines);
        i := i + 1;
      }
      assert walk[..i] == walk;
    }
  }
}
