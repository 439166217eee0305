/** Shared vocabulary: optional values and the identifiers every protocol below is stated over. */
module Common {

  datatype Option<+T> = None | Some(value: T)

  datatype Result<+T, +E> = Ok(value: T) | Err(error: E)

  // A process identity (an outbox publisher, a bridge, a consumer, an evidence worker).
  type WorkerId = nat

  // The canonical event identity; also the inbox deduplication key for source "outbox".
  type EventId = nat
}
