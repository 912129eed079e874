/** Bytes and the range of machine integers. */
module MachineTypes {
  type Byte = b: int | 0 <= b < 256

  type Bytes = seq<Byte>

  const MAX_U64: nat := 0xFFFF_FFFF_FFFF_FFFF
}
