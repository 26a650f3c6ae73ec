/** Absent values: the optional fields, missing array entries and thrown errors of the modelled program. */
module Options {
  datatype Option<+T> = None | Some(value: T)
  {
    predicate IsFailure() { None? }

    function PropagateFailure<U>(): Option<U>
      requires None?
    {
      None
    }

    function Extract(): T
      requires Some?
    {
      value
    }
  }
}

module ByteStrings {
  type Byte = b: nat | b < 256
  type Blob = seq<Byte>
}
