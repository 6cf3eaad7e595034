/** Size budget of one datagram, channel ids and the errors the transport reports. */
module Protocol {
  const HEADER_LEN: nat := 66
  const MAX_DATAGRAM: nat := 1400
  const AEAD_OVERHEAD: nat := 16
  const TIMESTAMP_LEN: nat := 4
  const INSTRUCTION_HEADER_LEN: nat := 1 + 8 + 8 + 8 + 8 + 4
  const MAX_PLAINTEXT: nat := MAX_DATAGRAM - HEADER_LEN - AEAD_OVERHEAD
  const MAX_DIFF_LEN: nat := MAX_PLAINTEXT - TIMESTAMP_LEN - INSTRUCTION_HEADER_LEN

  /** Largest channel-0 message: a diff of one message adds two 4-octet fields. */
  const MAX_MESSAGE_BYTES: nat := MAX_DIFF_LEN - 8

  /** A network address, compared only for equality. */
  type Address = nat

  const CHANNEL_MESSAGES: nat := 0
  const CHANNEL_SCREEN: nat := 1

  /** Why a state refused a diff or a new message. */
  datatype StateError = Malformed | Overflow

  /** Why the transport refused to send, queue or accept. */
  datatype TransportError =
    | QueueOverflow
    | DiffTooLarge(size: nat, limit: nat)
    | State(error: StateError)
    | PacketRefused
    | HeaderRefused
    | Misaddressed
    | CryptoRefused
    | KeyRefused
}
