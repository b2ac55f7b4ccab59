/**
 * The types both server binaries share: the events a connection reader sends
 * to the router over the channel, the registry entry for one client, and the
 * random identity it is given. src/bin/server.rs and src/main.rs declare these
 * identically; the model declares them once.
 *
 * A `SocketAddr` is represented by its `host:port` text (`address.to_string()`),
 * which is also the registry key. At one listening endpoint the live
 * connections have distinct peer addresses, so the address also names the
 * connection's socket: a `Connected` event needs no separate stream handle.
 */
module Channel {
  import opened Text

  /** The fixed size of a reader's buffer. */
  const MESSAGE_SIZE: nat := 32

  /** The length of a generated client identity. */
  const RANDOM_ID_LENGTH: nat := 8

  /** A peer's network address, as its `host:port` text. */
  type Addr = Bytes

  /** `ChannelMessageType`. */
  datatype MessageType = Connected | IncomingMessage | Disconnected | ErrorMessage

  /** `ChannelMessage { address, message_type, content }`. */
  datatype ChannelMessage = ChannelMessage(address: Addr, kind: MessageType, content: Bytes)

  /** `ChannelMessage::new`: the event carries exactly the given address, kind and content. */
  function NewChannelMessage(address: Addr, content: Bytes, kind: MessageType): (m: ChannelMessage)
    ensures m.address == address && m.kind == kind && m.content == content
  {
    ChannelMessage(address, kind, content)
  }

  /** A registry entry: `Client { name, address, stream, messages }` (the stream is named by the address). */
  datatype Client = Client(name: Bytes, address: Addr, messages: seq<Bytes>)

  /** `Client::new`: a fresh entry with the given identity and address and an empty history. */
  function NewClient(name: Bytes, address: Addr): (c: Client)
    ensures c.name == name && c.address == address && c.messages == []
  {
    Client(name, address, [])
  }

  /** An identity as `generate_client_id(RANDOM_ID_LENGTH)` produces it. */
  predicate ValidId(id: Bytes) {
    |id| == RANDOM_ID_LENGTH && forall i :: 0 <= i < |id| ==> IsAlphanumeric(id[i])
  }

  /** What the random source may yield: a stream of alphanumeric samples long enough for one identity. */
  predicate ValidSamples(samples: Bytes) {
    |samples| >= RANDOM_ID_LENGTH && forall i :: 0 <= i < |samples| ==> IsAlphanumeric(samples[i])
  }

  /**
   * `generate_client_id(length)`: the first `length` samples of the random
   * source's `Alphanumeric` stream, each an ASCII byte, collected into a string.
   * The random source is an argument; nothing checks the result against the
   * identities already in use.
   */
  function GenerateClientId(length: nat, samples: Bytes): (id: Bytes)
    requires |samples| >= length
    requires forall i :: 0 <= i < |samples| ==> IsAlphanumeric(samples[i])
    ensures |id| == length
    ensures forall i :: 0 <= i < length ==> IsAlphanumeric(id[i]) && id[i] == samples[i]
  {
    samples[..length]
  }

  /** An identity drawn from valid samples is a valid identity, and valid UTF-8 text. */
  lemma GeneratedIdIsValid(samples: Bytes)
    requires ValidSamples(samples)
    ensures ValidId(GenerateClientId(RANDOM_ID_LENGTH, samples))
    ensures ValidUtf8(GenerateClientId(RANDOM_ID_LENGTH, samples))
  {
    AsciiIsValid(GenerateClientId(RANDOM_ID_LENGTH, samples));
  }
}
