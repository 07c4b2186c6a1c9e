/** What several modules share: two wrapper datatypes, and lists as sets. */
module Wrappers {

  /** A value that may be missing: the source's `T | null`. */
  datatype Option<+T> = None | Some(value: T)

  /** A value or the error the source throws in its place. */
  datatype Result<+T, +E> = Ok(value: T) | Err(error: E)

  function Elements<T(==)>(list: seq<T>): set<T> {
    set x | x in list
  }

  lemma ElementsStep<T>(list: seq<T>, i: nat)
    requires i < |list|
    ensures Elements(list[..i + 1]) == Elements(list[..i]) + {list[i]}
  {
    assert list[..i + 1] == list[..i] + [list[i]];
  }
}
