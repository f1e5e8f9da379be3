/** Classifying one test run, tests/test-output.py:40-60.  The launch is
    abstracted to its captured standard output (None when `Popen` raised
    `CalledProcessError`) and the reference file to its text (None when
    reading `<name>.expect` raised `IOError`). */
module Verdicts {
  import opened Wrappers

  datatype Verdict = RunFailure | MissingExpect | PassNoOutput | Pass | Fail

  /** The `msg` column for each verdict. */
  function Message(v: Verdict): string
  {
    match v
    case RunFailure => "fail to run"
    case MissingExpect => "missing expect file"
    case PassNoOutput => "pass / no output"
    case Pass => "pass"
    case Fail => "fail"
  }

  predicate NeedsAttention(v: Verdict)
  {
    v == RunFailure || v == MissingExpect || v == Fail
  }

  /** The one-character `led` column: "*" asks for attention, "-" is a
      pass without output and " " a plain pass. */
  function Led(v: Verdict): (led: string)
    ensures |led| == 1
    ensures led == "*" <==> NeedsAttention(v)
  {
    match v
    case PassNoOutput => "-"
    case Pass => " "
    case _ => "*"
  }

  /** Outputs that pass as "no output": `out_tst in ["", "\n", "\r\n"] or not out_tst`. */
  predicate IsNoOutput(out: string)
  {
    out == "" || out == "\n" || out == "\r\n"
  }

  /** The verdict for one run.  Both `try` blocks assign `run_error`, launch
      first and reference second, so a missing reference hides a launch
      failure; output and reference are compared exactly. */
  function Classify(stdout: Option<string>, reference: Option<string>): (v: Verdict)
    ensures reference.None? ==> v == MissingExpect
    ensures reference.Some? && stdout.None? ==> v == RunFailure
    ensures stdout.Some? && reference.Some? ==>
      && (v == Fail <==> stdout.value != reference.value)
      && (v == PassNoOutput <==> stdout.value == reference.value && IsNoOutput(stdout.value))
      && (v == Pass <==> stdout.value == reference.value && !IsNoOutput(stdout.value))
  {
    var runError := if stdout.None? then Some(RunFailure) else None;
    var runError := if reference.None? then Some(MissingExpect) else runError;
    if runError.Some? then runError.value
    else if stdout.value == reference.value then
      (if IsNoOutput(stdout.value) then PassNoOutput else Pass)
    else Fail
  }

  /** The printed message tells all five verdicts apart. */
  lemma MessageDistinguishes(v: Verdict, w: Verdict)
    requires Message(v) == Message(w)
    ensures v == w
  {
  }

  /** A verdict that passes always has matching output and reference, and
      equal output and reference always pass. */
  lemma PassExactlyWhenEqual(stdout: string, reference: string)
    ensures !NeedsAttention(Classify(Some(stdout), Some(reference))) <==> stdout == reference
  {
  }

  /** Runs that end in error or fail are the ones the marker flags. */
  lemma AttentionExactlyOnErrorsAndFail(stdout: Option<string>, reference: Option<string>)
    ensures Led(Classify(stdout, reference)) == "*" <==>
      (reference.None? || stdout.None? || stdout.value != reference.value)
  {
  }

  /** Concrete runs: empty output against a reference holding one newline is
      a failure (no newline forgiveness); "42\n" against itself is a pass;
      "\r\n" against itself passes without output. */
  lemma ClassifyExamples()
    ensures Classify(Some(""), Some("\n")) == Fail
    ensures Classify(Some("\n"), Some("\n")) == PassNoOutput
    ensures Classify(Some("\r\n"), Some("\r\n")) == PassNoOutput
    ensures Classify(Some("42\n"), Some("42\n")) == Pass
    ensures Classify(Some("42\n"), Some("7\n")) == Fail
    ensures Classify(Some("42\n"), Some("42")) == Fail
    ensures Classify(None, None) == MissingExpect
    ensures Classify(None, Some("42\n")) == RunFailure
  {
  }
}
