/** Success and failure, with the source's error codes as an enumeration. */
module Outcomes {
  datatype Option<+T> = None | Some(value: T)

  datatype Result<+T> = Ok(value: T) | Err(error: Error)

  /** The outcome of an operation that returns no value (`Roe<void>`). */
  datatype Status = Done | Failed(error: Error)

  datatype Error =
    // account buffer
    | Account | Balance | Input
    // chain
    | StateInit | InvalidArgument
    | BlockNotFound | BlockHash | BlockIndex | BlockValidation | BlockGenesis
    | ConsensusSlotLeader | ConsensusTiming | ConsensusNotSet
    | AccountNotFound | AccountExists | AccountBalance | AccountRenewal
    | TxValidation | TxSignature | TxFee | TxType | TxTransfer
    | TxIdempotency | TxValidationTimespan | TxTimeOutsideWindow
    | LedgerRead | LedgerWrite
    | Deserialize | InternalBuffer | Internal
}
