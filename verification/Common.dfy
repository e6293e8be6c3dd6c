/** What several components share. */
module Common {
  datatype Option<+T> = None | Some(value: T)

  predicate ValidPort(port: int) { 1 <= port <= 65535 }

  predicate IsDigit(c: char) { '0' <= c <= '9' }
}
