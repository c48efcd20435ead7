/** What several components share. */
module Common {

  datatype Option<T> = None | Some(value: T)

  /** Descriptor, stream and channel indexes are 16 bits wide. */
  type Index = i: nat | i < 0x1_0000 witness 0
}
