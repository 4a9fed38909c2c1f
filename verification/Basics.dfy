/** Result shapes shared by all modules. */
module Basics {
  datatype Option<+T> = None | Some(value: T)

  /** A return value, or the error the source raises (`E` names the kind). */
  datatype Result<+T, +E> = Ok(value: T) | Err(error: E)

  /** Two different inputs with the same hash. */
  ghost predicate Collision(hash: string -> string, x: string, y: string) {
    x != y && hash(x) == hash(y)
  }
}
