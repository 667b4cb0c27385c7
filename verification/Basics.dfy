/** Result types shared by the other modules. */
module Basics {
  datatype Option<+T> = None | Some(value: T)

  datatype Result<+T, +E> = Ok(value: T) | Err(error: E)

  /** One past the largest int64, the width of Go's int and time.Duration. */
  const INT64_LIMIT: int := 0x8000_0000_0000_0000

  lemma NonEmptyHasMember(s: set<int>)
    requires s != {}
    ensures exists k :: k in s
  {
    if forall k :: k !in s {
      assert false;
    }
  }
}
