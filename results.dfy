/** Failure-carrying results shared by the codec and the responder. */
module Results {

  datatype Option<+T> = None | Some(value: T)

  /** Why a datagram could not be decoded: it held fewer bytes than its layout needs. */
  datatype DecodeError = TooShort(needed: nat, available: nat)

  datatype Result<+T> = Ok(value: T) | Err(error: DecodeError)
}
