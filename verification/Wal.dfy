/** The states of a write-ahead log record. */
module Wal {

  datatype WalState = Prepared | WalCommitted | WalRollingBack | WalRolledBack | WalFailed

  /** `ListPending` reports a record in this state. */
  predicate Pending(w: WalState) {
    w == Prepared || w == WalRollingBack
  }
}
