# chatr: a verified model of the relay's router and connection reader

chatr is a TCP chat relay. Each accepted connection gets a reader thread
(`client_handler`). The reader announces the connection, reads the socket into
a 32-byte buffer and sends every chunk, end of stream or read error to a
single router thread (`server_handler`) over a channel. The router owns the
registry of clients (`HashMap<String, Client>`, keyed by the peer address's
text). It files a new client under a random 8-character alphanumeric name,
records each client's history, removes clients that disconnect and fans every
incoming chunk out to the other clients. The repository has two routers:

- `src/bin/server.rs` broadcasts a JSON `Message` record (src/lib.rs) and a
  newline, then appends the chunk to the sender's history. An unregistered
  sender is labelled "UNKNOWN" and its chunk is still broadcast. Content that
  is not UTF-8 panics the router (`String::from_utf8(..).unwrap()`), provided
  there is at least one client to write to.
- `src/main.rs` appends to the sender's history first and answers the sender
  with its own shell prompt `name@address$ `. It then writes every other
  client its own prompt with a newline, followed by the raw bytes of the
  sender's newest history entry. A chunk from an unregistered address panics
  the router (`clients.get(..).unwrap()`).

The model has these parts:

- `Text` holds bytes and UTF-8 validity. A Rust `String` is its UTF-8 bytes,
  and `ValidUtf8` is what `String::from_utf8` accepts: the well-formed byte
  sequences of Unicode Table 3-7.
- `Chatr` holds `User`, `Message` and `Message::new`.
- `Channel` holds the channel's events, the registry entry (`Client::new`) and
  the random identity, `generate_client_id`. The random identity is drawn from
  a stream of alphanumeric samples that the caller supplies.
- `Reader` holds `client_handler`. The reader is an imperative method over a
  32-byte array and is proved equal to `ClientHandlerSpec`. That function is a
  pure translation of the socket's read outcomes (bytes with the flush's
  result, end of stream, or an error) into the events the reader sends.
- `Registry` holds what both routers share:
  - the registry, its invariant and the effect of each event on it;
  - the record of what each peer's socket received (`Wire`, a log per peer
    address) and the fan-out that extends it (`Deliver`);
  - the oracles: failing writes are a set given by the caller, and each event
    draws its random samples from an `Env`;
  - `Live` and `History`, which say, from the event stream alone, which
    addresses are connected and what each has sent since it connected.
- `Server` models `src/bin/server.rs`, and `Relay` models `src/main.rs`. Each
  has a spec function `Step` for one pass of the router loop and `Run` for a
  whole event stream. A panic is the outcome `Panicked`, after which nothing
  more is processed. Each also has a class `Router`, whose fields are the
  registry and the wire. Its methods `Handle` and `BroadcastMessage` are
  proved against `Step` and the broadcast plan. The loop methods
  `ServerHandler` and `RelayHandler` are proved against `Run`.

Both routers keep the same registry invariant (`Registry.Tracks`), proved for
every event stream and every choice of failing writes and random samples:

- the keys are exactly the addresses that have connected and not
  disconnected since;
- every entry is filed under its own address and carries a generated
  identity;
- each entry's history is what that address has sent since it last connected.

The chunking has one consequence worth stating. Each read returns at most 32
bytes, ending wherever the data that has arrived ends, so a multi-byte
character can straddle two chunks. `Server.SplitCharacterReader` shows such a
cut: a peer sends 31 letters, "é" and a newline, and the first read returns
the first 32 of those 34 bytes. `Server.SplitCharacterCrashesRouter` shows
that the resulting chunk
crashes the `src/bin/server.rs` router whenever another client is
registered.
`Relay.ReaderTrafficNeverPanics` shows that the `src/main.rs` router never
panics on reader traffic. Reader traffic (`Registry.ReaderTraffic`) is a
stream in which every address's events are a series of reader outputs: one
reader per connection, each connection but the last closed by `Disconnected`,
so a peer that reconnects from the same address is covered.
`Reader.SessionsExtend` shows that appending one reader's output
(`Reader.ReaderOutputShaped`) to closed connections keeps that shape. That the
channel delivers each reader's events in order, and that a reconnection's
`Connected` arrives after the old reader's `Disconnected`, is assumed rather
than modelled. The second holds because the registry entry keeps the old
socket open until the router has handled its `Disconnected`.

The code does not drop a chunk from an unregistered address:
`src/bin/server.rs` broadcasts it labelled "UNKNOWN", and `src/main.rs`
panics. A chunk that is not valid UTF-8 panics `src/bin/server.rs` whenever
there is a client to write to.

## Model

| member | source | states |
|---|---|---|
| Text.LeadWidth | src/bin/server.rs:190 | the width of the well-formed UTF-8 sequence that starts a byte string (0 if ill-formed): at most 4 and at most the string's length, made of a lead byte and continuation bytes, and 1 exactly for an ASCII byte |
| Text.AsciiIsValid | src/bin/server.rs:190 | every ASCII byte string is accepted by `String::from_utf8` |
| Text.AsciiPrefixKeepsValidity | src/bin/server.rs:190 | an ASCII prefix neither makes a byte string decodable nor stops it from being decodable |
| Text.ConcatIsValid | src/bin/server.rs:190 | the concatenation of two decodable byte strings is decodable |
| Text.ZeroPaddingKeepsValidity | src/bin/server.rs:123 | appending zero bytes to a byte string leaves its decodability unchanged, in both directions |
| Chatr.New | src/lib.rs:15-22 | `Message::new(name, address, content)` has author name `name`, author address `address` and content `content` |
| Chatr.NewIsInjective | src/lib.rs:3-13 | a `Message` is exactly an author `User{name, address}` and a content: two records are equal iff their three fields are |
| Channel.NewChannelMessage | src/bin/server.rs:32-40 | `ChannelMessage::new` carries exactly the given address, kind and content |
| Channel.NewClient | src/bin/server.rs:59-67 | `Client::new` has the given name and address and an empty history |
| Channel.GenerateClientId | src/bin/server.rs:82-88 | the identity is the first `length` samples of the alphanumeric stream: exactly `length` bytes, each alphanumeric |
| Channel.GeneratedIdIsValid | src/bin/server.rs:82-88 | `generate_client_id(RANDOM_ID_LENGTH)` is 8 alphanumeric bytes and valid UTF-8 |
| Reader.Pad | src/bin/server.rs:120-124 | the buffer sent after a read of n bytes is 32 bytes long: the bytes read, then zeros |
| Reader.PadKeepsValidity | src/bin/server.rs:120-124 | the zero padding of a chunk neither causes nor prevents a UTF-8 decoding failure |
| Reader.HandlerLoopCharacterised | src/bin/server.rs:107-143 | the read loop sends one event per outcome it consumes, stops at the first end of stream or failed flush, and otherwise is still reading once every outcome is consumed |
| Reader.ReaderEvents | src/bin/server.rs:90-146 | `Connected` comes first and only first; every event carries the reader's address; each non-empty read gives a 32-byte `IncomingMessage`, the bytes read followed by zeros; each read error gives an `ErrorMessage` with the error text; `Disconnected` comes only last, exactly when the reader ended at the end of the stream, never after a failed flush |
| Reader.ReaderOutputShaped | src/bin/server.rs:98-119 | every prefix of a reader's events starts with `Connected`, has no other `Connected` and nothing after `Disconnected` |
| Reader.SessionsExtend | src/bin/server.rs:98-143 | one reader's output, appended to an address's earlier connections that have all ended in `Disconnected`, keeps the per-address shape of reader traffic: `Connected` first and exactly after each `Disconnected` |
| Reader.Fill | src/bin/server.rs:132 | `buffer.fill(v)` sets every byte of the buffer to `v` |
| Reader.ReadInto | src/bin/server.rs:108 | a read of n bytes overwrites the first n bytes of the buffer and keeps the rest |
| Reader.ClientHandler | src/bin/server.rs:90-146 | `client_handler` over a 32-byte buffer, re-zeroed after each chunk, sends exactly the events of `ClientHandlerSpec` and ends as it says |
| Registry.Attempt | src/bin/server.rs:194-200 | a write delivers its output exactly when it is not among the failing writes, and delivers nothing otherwise |
| Registry.Append | src/bin/server.rs:194-196 | a write grows the receiving peer's log by its output and leaves every other peer's log unchanged |
| Registry.AppendTwice | src/bin/server.rs:194-196 | two writes to one socket in a row arrive in that order |
| Registry.Deliver | src/bin/server.rs:185-203 | after a fan-out, each planned peer's log has grown by exactly its planned outputs and every other log is unchanged |
| Registry.DeliverOneMore | src/bin/server.rs:185-203 | serving the targets one at a time, in any order, builds up the whole fan-out |
| Registry.Targets | src/bin/server.rs:185-186 | the broadcast's targets are exactly the registered entries other than the sender's, so the sender never receives its own message |
| Registry.LiveAfter | src/bin/server.rs:153-170 | an address becomes live on its `Connected` and stops being live on its `Disconnected`; no other event changes whether it is live |
| Registry.SessionsOpen | src/bin/server.rs:153-170 | an address whose reader outputs so far do not end in `Disconnected` is live: a `Connected` of its has no `Disconnected` after it |
| Registry.ReaderTrafficSenderIsLive | src/bin/server.rs:98-119 | in reader traffic, including a peer that has reconnected from the same address, the sender of any event other than `Connected` is live: its current reader announced it and has not disconnected |
| Registry.ConnectRegisters | src/bin/server.rs:153-157 | `Connected` files a fresh entry under the address: an 8-character alphanumeric name, the address and an empty history, replacing any entry (name and history) already there; other entries are unchanged |
| Registry.DisconnectRemoves | src/bin/server.rs:166-170 | `Disconnected` removes the entry if there is one and touches nothing else; it is idempotent and changes nothing for an unregistered address |
| Registry.PushAppends | src/bin/server.rs:161-164 | the push appends the content at the end of the sender's history and touches no other entry; an unregistered sender changes nothing |
| Registry.HistoryAfter | src/bin/server.rs:153-164 | a `Connected` empties the address's history, its `IncomingMessage` appends the content at the end, and nothing else changes it |
| Registry.TracksAfter | src/bin/server.rs:152-173 | each event keeps the registry in step with the stream: keys are exactly the live addresses, entries are filed under their own address with a generated identity, and histories are what each address sent since it last connected |
| Server.Unknown | src/bin/server.rs:188 | the "UNKNOWN" label is 7 bytes, so it is never a generated identity |
| Server.RecordDelivery | src/bin/server.rs:194-200 | a target receives nothing if the record's write fails, and otherwise the record followed by a newline, unless the newline's own write fails |
| Server.BroadcastDelivers | src/bin/server.rs:180-203 | each other registered client receives the record `{author: {name, sender's address}, content}` and its newline, with the event's own content; the sender and unregistered addresses receive nothing; an unregistered sender is named "UNKNOWN" |
| Server.IncomingAppends | src/bin/server.rs:159-165 | after the broadcast, the content is appended at the end of the sender's history if it is registered; the keys and all other entries are unchanged, and an unregistered sender leaves the registry as it was |
| Server.PanicsIffUndecodable | src/bin/server.rs:185-190 | an `IncomingMessage` panics the router exactly when there is another registered client and the content is not valid UTF-8 |
| Server.ReaderChunkPanicsIffUndecodable | src/bin/server.rs:185-190 | for a chunk a reader produced, the router panics exactly when the bytes actually read are not valid UTF-8 and another client is registered |
| Server.FailureIsolation | src/bin/server.rs:194-200 | what a destination receives depends only on which of its own writes fail: a failure elsewhere neither stops nor changes it |
| Server.ErrorChangesNothing | src/bin/server.rs:171-173 | an `ErrorMessage` changes neither the registry nor the wire |
| Server.StepKeepsRegistryValid | src/bin/server.rs:152-173 | every event that does not panic keeps every entry filed under its own address with a generated identity |
| Server.PanicIsFinal | src/bin/server.rs:148-178 | once the router has panicked, no later event is processed |
| Server.RunRegistry | src/bin/server.rs:148-178 | for any event stream, while the router runs, its registry tracks the stream: keys are exactly the live addresses, and histories are everything sent since connecting, oldest first |
| Server.ReaderTrafficHasKnownSenders | src/bin/server.rs:181-188 | on reader traffic, reconnections included, every sender of a chunk is registered, so no record is labelled "UNKNOWN" |
| Server.SplitChunkIsUndecodable | src/bin/server.rs:190 | 31 ASCII letters followed by the first byte of "é" (C3) fill the 32-byte buffer exactly and are not valid UTF-8 |
| Server.SplitCharacterReader | src/bin/server.rs:107-133 | when the first read returns the first 32 of the 34 bytes a peer sent (31 letters, "é", a newline), the reader sends that chunk whole and the rest of the character in the next chunk |
| Server.SplitCharacterCrashesRouter | src/bin/server.rs:185-190 | whenever another client is registered, the split chunk panics the router |
| Server.Router.constructor | src/bin/server.rs:149 | the router starts with an empty registry and nothing written |
| Server.Router.BroadcastMessage | src/bin/server.rs:180-204 | the loop over the entries panics exactly as `Broadcast` says, and otherwise leaves the wire as `Deliver` of the plan and the registry unchanged |
| Server.Router.SendRecord | src/bin/server.rs:194-200 | the record's `write_all` and then, only if it succeeded, the newline's write |
| Server.Router.Handle | src/bin/server.rs:152-174 | one pass of the loop does what `Step` says, and keeps the registry invariant |
| Server.ServerHandler | src/bin/server.rs:148-178 | processing the events in order gives the state `Run` describes, or panics exactly when `Run` does |
| Relay.ShellPromptLayout | src/main.rs:67-72 | the prompt is the name, '@', the address, '$ ' and, when `lf`, a newline, in those positions |
| Relay.PromptWithNewline | src/main.rs:68-72 | the prompt with `lf` is the prompt without it followed by '\n' |
| Relay.PromptIdentifiesClient | src/main.rs:67-72 | for generated identities, two prompts are equal exactly when name, address and `lf` all agree |
| Relay.PlanEntry | src/main.rs:192-206 | a registered entry is a broadcast target exactly when its address differs from the broadcaster's and the broadcaster has a history; it then receives its own prompt with a newline and the newest history entry |
| Relay.PanicsIffUnregistered | src/main.rs:169-177 | the router panics exactly on an `IncomingMessage` from an address with no registry entry |
| Relay.RelayDelivers | src/main.rs:169-177 | the sender's history gains the content first; the sender receives only its own prompt, with no newline; each other registered client receives its own prompt with a newline and then exactly the content just received; unregistered addresses receive nothing |
| Relay.FailureIsolation | src/main.rs:192-206 | what a destination receives depends only on which of its own writes fail, so a failed prompt or message write does not stop the other clients' writes |
| Relay.StepKeepsRegistryValid | src/main.rs:162-185 | every event that does not panic keeps every entry filed under its own address with a generated identity |
| Relay.PanicIsFinal | src/main.rs:158-190 | once the router has panicked, no later event is processed |
| Relay.RunRegistry | src/main.rs:158-190 | for any event stream, while the router runs, its keys are exactly the live addresses and histories are everything sent since connecting |
| Relay.ReaderTrafficNeverPanics | src/main.rs:175 | on reader traffic, reconnections included, the `unwrap` never fails, so the router never panics |
| Relay.Router.constructor | src/main.rs:159 | the router starts with an empty registry and nothing written |
| Relay.Router.ShellFormat | src/main.rs:67-77 | `shell_format(lf)` writes the client's own prompt to its socket; a failed write is only reported |
| Relay.Router.WriteAll | src/main.rs:197-202 | `write_all(message)` delivers the raw bytes unless that write fails |
| Relay.Router.SendPrompted | src/main.rs:196-202 | one target receives its prompt, then the message, and each write fails on its own |
| Relay.Router.BroadcastMessage | src/main.rs:192-206 | the loop over the entries leaves the wire as `Deliver` of the broadcast plan |
| Relay.Router.Handle | src/main.rs:162-186 | one pass of the loop does what `Step` says, panicking exactly where it does, and keeps the registry invariant |
| Relay.RelayHandler | src/main.rs:158-190 | processing the events in order gives the state `Run` describes, or panics exactly when `Run` does |

## Left out

- The TCP listener, the accept loop, the threads and the mpsc channel are not
  modelled. The router consumes an arbitrary event sequence. Any interleaving
  of the readers is one such sequence, and the stream-level lemmas quantify
  over all of them.
- Errors from `sender.send` (the router has gone) and from `receiver.recv` are
  not modelled. Neither changes the registry; both are only logged.
- The failure of `stream.peer_addr().unwrap()` is not modelled. The reader
  starts from a known address.
- A `SocketAddr` is identified with its `to_string()` text. The live
  connections at one listening endpoint have distinct peer addresses, so the
  address also names the socket that `Connected` carries.
- `rand`'s `Alphanumeric` sampler is not modelled. The samples are an input
  constrained to be alphanumeric. Nothing checks identities for uniqueness,
  so no uniqueness is claimed.
- serde_json serialisation is not modelled. A record is written as the
  `Message` value it encodes, and `to_vec(..).unwrap()` cannot fail on this
  struct. No JSON round trip is claimed.
- Logging and the `Display` impls (`println!`, `eprintln!`) are not modelled.
- Partial writes are not modelled. Every write, including the `write` calls
  of `shell_format` and of the newline, delivers all of its bytes or nothing.
- `HashMap` iteration order is not modelled. Broadcast targets are a set, and
  the per-peer logs do not record the order of writes across peers.
- The flush's result is an input of each successful read. `TcpStream`'s
  flush never fails in practice, but the model keeps the reader's `?` path.
- Server.Router.BroadcastMessage: after a panic it promises nothing about the
  wire. The router thread is gone, and the model's `Panicked` outcome carries
  no state.
- src/bin/client.rs is not part of this model. It is stdin, argv and socket
  plumbing.
