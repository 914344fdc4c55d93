/** External processes, as the repo backend sees them: inputs, not effects. */
module Process {

  /**
   * How a run of an external process ended, as check_output reports it: its
   * standard output, a non-zero exit (CalledProcessError, carrying the
   * captured output) or a failure to launch it (OSError).  `message` is what
   * str() of the exception gives.
   */
  datatype Run =
    | Completed(output: string)
    | CalledProcessError(output: string, message: string)
    | OSError(message: string)

  /** bob's BuildError, by its slogan: the message it is raised with. */
  datatype BuildError = BuildError(slogan: string)
}
