/** Types that several models share. */
module Values {

  datatype Option<T> = None | Some(value: T)

  type Byte = b: nat | b < 256
  type Bytes = seq<Byte>
}
