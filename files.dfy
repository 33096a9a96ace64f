/**
 * The outcome of replacing a whole file with `fs.writeFile` or
 * `fs.writeFileSync`.
 */
module Files {
  /**
   * A write succeeds, or fails and leaves the file in some state `left`:
   * the file is truncated before the data goes in, so a failed write may
   * leave it empty, partly written or, when opening failed, untouched.
   */
  datatype WriteOutcome<F> = Written | WriteFailed(left: F)
}
