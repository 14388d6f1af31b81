/** The quality number check of the command line (`valid_nr`). */
module CommandLine {
  import opened Wrappers

  /** The `ValueError` raised for a number outside 0..100. */
  datatype CliError = InvalidQuality(n: int)

  /**
   * `valid_nr` after `int(inp)` has produced `n`: accepted exactly when
   * `0 <= n <= 100`, and then returned unchanged.
   */
  function ValidNr(n: int): (r: Result<int, CliError>)
    ensures r.Success? <==> 0 <= n <= 100
    ensures r.Success? ==> r.value == n
    ensures r.Failure? ==> r.error == InvalidQuality(n)
  {
    if !(0 <= n <= 100) then Failure(InvalidQuality(n)) else Success(n)
  }
}
