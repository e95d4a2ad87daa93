/** Small types and functions that several modules share. */
module Common {
  datatype Option<T> = None | Some(value: T)

  /** How an experiment ended. */
  datatype DoneCode = ExpComplete | ExpAborted | HardError

  /** The parts with a comma between each two. */
  function Join(parts: seq<string>): string
    requires parts != []
  {
    if |parts| == 1 then parts[0] else parts[0] + ("," + Join(parts[1..]))
  }
}
