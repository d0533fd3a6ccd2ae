/** Vocabulary shared by the buffer pools: page identities, page bytes and access modes. */
module Storage {

  newtype byte = x: int | 0 <= x < 0x100

  type Bytes = seq<byte>

  datatype Option<+T> = None | Some(value: T)

  datatype PageId = PageId(relationId: nat, pageNo: nat)

  datatype AccessMode = Normal | BulkRead

  /** A store write succeeds, fails without effect, or fails half way and leaves `garbage`. */
  datatype WriteOutcome = Written | Refused | Torn(garbage: Bytes)

  datatype PoolError = Io | AllFramesPinned
}
