/** Types shared by every component. */
module Common {
  newtype byte = x: int | 0 <= x < 256

  /** A byte string; terms are byte strings. */
  type Bytes = seq<byte>

  const TWO32: nat := 0x1_0000_0000
  const MAX32: nat := 0xFFFF_FFFF
  const TWO64: nat := 0x1_0000_0000_0000_0000

  ghost predicate Distinct<T>(s: seq<T>) {
    forall i, j :: 0 <= i < j < |s| ==> s[i] != s[j]
  }

  function Min(a: nat, b: nat): nat {
    if a <= b then a else b
  }

  datatype Option<T> = None | Some(value: T)

  datatype Status = Corruption(message: string) | InvalidArgument(message: string) | Unsupported(message: string)

  /** A value or the status that replaced it. */
  datatype Result<T> = Ok(value: T) | Error(status: Status) {
    predicate IsFailure() {
      Error?
    }

    function PropagateFailure<U>(): Result<U>
      requires IsFailure()
    {
      Error(status)
    }

    function Extract(): T
      requires !IsFailure()
    {
      value
    }
  }
}
