/** How the goal turns the end of the `gauge` process into success or a build
    failure. Exceptions become values: the process result is one of three
    cases, and each failure records the exception that caused it. */
module ExecutionOutcome {
  import opened JavaLang

  /** What launching `gauge` and waiting for it can yield. */
  datatype ProcessResult =
    | SpawnFailed(ioError: string)          // `ProcessBuilder.start` threw an IOException
    | WaitInterrupted(interruption: string) // `Process.waitFor` threw an InterruptedException
    | Exited(exitCode: int32)               // `Process.waitFor` returned the exit code

  /** The exceptions a failure can wrap, with their messages only: their own
      causes are not kept. */
  datatype Cause = IOException(message: string) | InterruptedException(message: string)

  /** GaugeExecutionFailedException: no cause when gauge itself reported a
      failure, otherwise the exception that stopped the run. */
  datatype GaugeExecutionFailure = GaugeExecutionFailure(cause: Option<Cause>)

  /** MojoExecutionException: the message Maven shows and the failure behind it. */
  datatype MojoExecutionFailure = MojoExecutionFailure(message: string, cause: GaugeExecutionFailure)

  /** A call that returns normally (`Pass`) or throws `error`. */
  datatype Outcome<+E> = Pass | Fail(error: E)

  const FailurePrefix := "Failed to execute gauge specs. "

  /** executeGaugeSpecs: only exit code 0 is success; a non-zero exit fails
      with no cause, an I/O error or an interruption fails wrapping it. */
  function GaugeSpecsOutcome(r: ProcessResult): (o: Outcome<GaugeExecutionFailure>)
    ensures o.Pass? <==> r == Exited(0)
    ensures o.Fail? ==> (o.error.cause.None? <==> r.Exited?)
  {
    match r
    case SpawnFailed(e) => Fail(GaugeExecutionFailure(Some(IOException(e))))
    case WaitInterrupted(e) => Fail(GaugeExecutionFailure(Some(InterruptedException(e))))
    case Exited(code) => if code != 0 then Fail(GaugeExecutionFailure(None)) else Pass
  }

  /** execute: a failure is re-thrown for Maven with the fixed prefix before
      the failure's own message (`messageOf` stands for `getMessage`, which
      is not part of this model) and the failure as its cause. */
  function MojoOutcome(o: Outcome<GaugeExecutionFailure>, messageOf: GaugeExecutionFailure -> string)
    : (m: Outcome<MojoExecutionFailure>)
    ensures m.Pass? <==> o.Pass?
    ensures m.Fail? ==> m.error.cause == o.error
    ensures m.Fail? ==> |FailurePrefix| <= |m.error.message|
                        && m.error.message[..|FailurePrefix|] == FailurePrefix
                        && m.error.message[|FailurePrefix|..] == messageOf(o.error)
  {
    match o
    case Pass => Pass
    case Fail(e) => Fail(MojoExecutionFailure(FailurePrefix + messageOf(e), e))
  }

  /** The failure keeps the underlying error: different process results give
      different outcomes, except that all non-zero exit codes look alike. */
  lemma GaugeSpecsOutcomeKeepsCause(r1: ProcessResult, r2: ProcessResult)
    ensures GaugeSpecsOutcome(r1) == GaugeSpecsOutcome(r2) <==>
      r1 == r2 || (r1.Exited? && r2.Exited? && r1.exitCode != 0 && r2.exitCode != 0)
  {
  }

  /** End to end: the build step passes exactly when gauge exits with 0; any
      other exit fails it with the prefixed message and no deeper cause; for
      a launch I/O error or an interruption, that exception is the failure's
      cause. */
  lemma ExecuteOutcome(r: ProcessResult, messageOf: GaugeExecutionFailure -> string)
    ensures var m := MojoOutcome(GaugeSpecsOutcome(r), messageOf);
            (m.Pass? <==> r == Exited(0)) &&
            (r.Exited? && r.exitCode != 0 ==> m.Fail? && m.error.cause.cause == None) &&
            (r.SpawnFailed? ==> m.Fail? && m.error.cause.cause == Some(IOException(r.ioError))) &&
            (r.WaitInterrupted? ==>
               m.Fail? && m.error.cause.cause == Some(InterruptedException(r.interruption)))
  {
  }
}
