/** Finite runs, read from their last element. */
module Runs {
  function Init<T>(run: seq<T>): seq<T>
    requires |run| > 0
  {
    run[..|run| - 1]
  }

  function Last<T>(run: seq<T>): T
    requires |run| > 0
  {
    run[|run| - 1]
  }
}
