/**
 * The router of src/bin/server.rs: `server_handler` applies the channel's
 * events one at a time to the registry, and `broadcast_message` sends every
 * other registered client a `Message` record followed by a newline.
 *
 * This router broadcasts before it appends to the sender's history, uses the
 * event's own content, labels an unregistered sender "UNKNOWN" and still
 * broadcasts for it, and panics (`String::from_utf8(..).unwrap()`) when it has
 * a client to write to and the content is not valid UTF-8.
 */
module Server {
  import opened Text
  import opened Chatr
  import opened Channel
  import opened Reader
  import opened Registry

  /** The name used for a sender with no registry entry. */
  function Unknown(): (r: Bytes)
    ensures |r| == 7 && !ValidId(r)
  {
    Ascii("UNKNOWN")
  }

  /** `name.unwrap_or("UNKNOWN")`: the sender's registered identity, if it has one. */
  function AuthorName(clients: Clients, sender: Addr): Bytes {
    if sender in clients then clients[sender].name else Unknown()
  }

  /**
   * What one target receives: the record, and a newline only if the record's
   * `write_all` succeeded (the newline's own failure is ignored).
   */
  function RecordDelivery(to: Addr, record: Message, failing: set<Write>): (r: seq<Output>)
    ensures Write(to, Record(record)) in failing ==> r == []
    ensures Write(to, Record(record)) !in failing ==>
      r == [Record(record)] + (if Write(to, Newline) in failing then [] else [Newline])
  {
    var sent := Attempt(to, Record(record), failing);
    if sent == [] then [] else sent + Attempt(to, Newline, failing)
  }

  /** The record broadcast for an event. */
  function RecordFor(clients: Clients, msg: ChannelMessage): Message {
    New(AuthorName(clients, msg.address), msg.address, msg.content)
  }

  /** Who receives what in a broadcast. */
  function Plan(clients: Clients, msg: ChannelMessage, failing: set<Write>): map<Addr, seq<Output>> {
    map k | k in Targets(clients, msg.address) :: RecordDelivery(k, RecordFor(clients, msg), failing)
  }

  /** `broadcast_message(msg, &clients)`: the registry is unchanged, only the wire grows. */
  function Broadcast(s: State, msg: ChannelMessage, failing: set<Write>): Outcome {
    if Targets(s.clients, msg.address) != {} && !ValidUtf8(msg.content) then Panicked
    else Running(State(s.clients, Deliver(s.wire, Plan(s.clients, msg, failing))))
  }

  /** One pass of `server_handler`'s loop. */
  function Step(s: State, msg: ChannelMessage, env: Env): Outcome
    requires ValidSamples(env.samples)
  {
    match msg.kind
    case Connected => Running(State(Connect(s.clients, msg.address, env.samples), s.wire))
    case IncomingMessage =>
      (match Broadcast(s, msg, env.failing)
       case Panicked => Panicked
       case Running(b) => Running(State(Push(b.clients, msg.address, msg.content), b.wire)))
    case Disconnected => Running(State(Disconnect(s.clients, msg.address), s.wire))
    case ErrorMessage => Running(s)
  }

  /** `server_handler` after the events `events`, starting from an empty registry. */
  function Run(events: seq<ChannelMessage>, envs: seq<Env>): Outcome
    requires |envs| == |events| && ValidEnvs(envs)
    decreases |events|
  {
    if events == [] then Running(Initial)
    else
      var n := |events| - 1;
      match Run(events[..n], envs[..n])
      case Panicked => Panicked
      case Running(s) => Step(s, events[n], envs[n])
  }

  lemma RunSnoc(events: seq<ChannelMessage>, envs: seq<Env>, e: ChannelMessage, env: Env)
    requires |envs| == |events| && ValidEnvs(envs) && ValidSamples(env.samples)
    ensures ValidEnvs(envs + [env])
    ensures Run(events + [e], envs + [env]) ==
      match Run(events, envs)
      case Panicked => Panicked
      case Running(s) => Step(s, e, env)
  {
    assert (events + [e])[..|events|] == events;
    assert (envs + [env])[..|envs|] == envs;
    assert forall i :: 0 <= i < |envs| ==> envs[i] == (envs + [env])[i];
  }

  // ----- one event -----

  /**
   * The broadcast's targets are exactly the other registered clients: each
   * of them receives the record `{author: {name, sender's address}, content}`
   * (and its newline unless that write fails); the sender and every
   * unregistered address receive nothing. The record carries the event's
   * content and, for an unregistered sender, the name "UNKNOWN".
   */
  lemma BroadcastDelivers(s: State, msg: ChannelMessage, env: Env, d: Addr)
    requires RegistryValid(s.clients) && ValidSamples(env.samples)
    requires msg.kind.IncomingMessage? && Step(s, msg, env).Running?
    ensures var w := Step(s, msg, env).state.wire;
      && Log(w, d) == Log(s.wire, d) +
           (if d in s.clients && d != msg.address
            then RecordDelivery(d, New(AuthorName(s.clients, msg.address), msg.address, msg.content), env.failing)
            else [])
      && Log(w, msg.address) == Log(s.wire, msg.address)
      && (msg.address !in s.clients ==> AuthorName(s.clients, msg.address) == Unknown())
  {
    var b := Broadcast(s, msg, env.failing);
    assert b.Running?;
    assert d in Plan(s.clients, msg, env.failing) <==> d in s.clients && d != msg.address;
  }

  /**
   * An `IncomingMessage` appends its content at the end of the sender's
   * history, if the sender is registered; the registry's keys and every other
   * entry are unchanged, and an unregistered sender leaves the registry as it was.
   */
  lemma IncomingAppends(s: State, msg: ChannelMessage, env: Env)
    requires ValidSamples(env.samples)
    requires msg.kind.IncomingMessage? && Step(s, msg, env).Running?
    ensures var c := Step(s, msg, env).state.clients;
      && c.Keys == s.clients.Keys
      && (msg.address in s.clients ==>
            c[msg.address] == s.clients[msg.address].(messages := s.clients[msg.address].messages + [msg.content]))
      && (msg.address !in s.clients ==> c == s.clients)
      && (forall k :: k in s.clients && k != msg.address ==> c[k] == s.clients[k])
  {
    PushAppends(s.clients, msg.address, msg.content);
  }

  /**
   * The router panics on an `IncomingMessage` exactly when there is another
   * registered client to write to and the content is not valid UTF-8.
   */
  lemma PanicsIffUndecodable(s: State, msg: ChannelMessage, env: Env)
    requires RegistryValid(s.clients) && ValidSamples(env.samples)
    requires msg.kind.IncomingMessage?
    ensures Step(s, msg, env) == Panicked <==>
      s.clients.Keys - {msg.address} != {} && !ValidUtf8(msg.content)
  {
  }

  /**
   * For a chunk a reader produced, the router panics exactly when the bytes
   * actually read are not valid UTF-8: the zero padding neither causes nor
   * prevents it.
   */
  lemma ReaderChunkPanicsIffUndecodable(s: State, a: Addr, bytes: Bytes, env: Env)
    requires RegistryValid(s.clients) && ValidSamples(env.samples)
    requires |bytes| <= MESSAGE_SIZE
    ensures Step(s, NewChannelMessage(a, Pad(bytes), IncomingMessage), env) == Panicked <==>
      s.clients.Keys - {a} != {} && !ValidUtf8(bytes)
  {
    PadKeepsValidity(bytes);
    PanicsIffUndecodable(s, NewChannelMessage(a, Pad(bytes), IncomingMessage), env);
  }

  /**
   * A failing write to one destination does not affect any other: what a
   * destination receives depends only on which of its own writes fail.
   */
  lemma FailureIsolation(s: State, msg: ChannelMessage, env1: Env, env2: Env, d: Addr)
    requires RegistryValid(s.clients) && ValidSamples(env1.samples) && ValidSamples(env2.samples)
    requires msg.kind.IncomingMessage? && Step(s, msg, env1).Running?
    requires forall o :: Write(d, o) in env1.failing <==> Write(d, o) in env2.failing
    ensures Step(s, msg, env2).Running?
    ensures Log(Step(s, msg, env1).state.wire, d) == Log(Step(s, msg, env2).state.wire, d)
  {
    BroadcastDelivers(s, msg, env1, d);
    BroadcastDelivers(s, msg, env2, d);
  }

  /** An `ErrorMessage` changes nothing. */
  lemma ErrorChangesNothing(s: State, msg: ChannelMessage, env: Env)
    requires ValidSamples(env.samples) && msg.kind.ErrorMessage?
    ensures Step(s, msg, env) == Running(s)
  {
  }

  /** Every step that does not panic keeps every entry filed under its own address with a valid identity. */
  lemma StepKeepsRegistryValid(s: State, msg: ChannelMessage, env: Env)
    requires RegistryValid(s.clients) && ValidSamples(env.samples)
    requires Step(s, msg, env).Running?
    ensures RegistryValid(Step(s, msg, env).state.clients)
  {
    match msg.kind
    case Connected => ConnectRegisters(s.clients, msg.address, env.samples);
    case IncomingMessage => PushAppends(s.clients, msg.address, msg.content);
    case Disconnected =>
    case ErrorMessage =>
  }

  // ----- whole runs -----

  /** Once the router has panicked it processes nothing more. */
  lemma {:induction false} PanicIsFinal(events: seq<ChannelMessage>, envs: seq<Env>, n: nat)
    requires |envs| == |events| && ValidEnvs(envs) && n <= |events|
    requires Run(events[..n], envs[..n]) == Panicked
    ensures Run(events, envs) == Panicked
    decreases |events| - n
  {
    if n < |events| {
      var m := n + 1;
      assert events[..m][..n] == events[..n] && envs[..m][..n] == envs[..n];
      assert Run(events[..m], envs[..m]) == Panicked;
      PanicIsFinal(events, envs, m);
    } else {
      assert events[..n] == events && envs[..n] == envs;
    }
  }

  /**
   * The registry invariant: while the router runs, its keys are exactly the
   * addresses that have connected and not disconnected since, every entry is
   * filed under its own address with a generated identity, and each entry's
   * history is everything that address has sent since it last connected,
   * oldest first.
   */
  lemma {:induction false} RunRegistry(events: seq<ChannelMessage>, envs: seq<Env>)
    requires |envs| == |events| && ValidEnvs(envs)
    requires Run(events, envs).Running?
    ensures Tracks(events, Run(events, envs).state.clients)
    decreases |events|
  {
    if events != [] {
      var n := |events| - 1;
      var es, e := events[..n], events[n];
      var vs, v := envs[..n], envs[n];
      assert events == es + [e] && envs == vs + [v];
      RunSnoc(es, vs, e, v);
      var s := Run(es, vs).state;
      RunRegistry(es, vs);
      assert Step(s, e, v).state.clients == Registered(s.clients, e, v.samples);
      TracksAfter(es, e, s.clients, v.samples);
    }
  }

  /**
   * When every peer's events have the shape its reader gives them, no
   * message is ever labelled "UNKNOWN": each `IncomingMessage` comes from a
   * registered sender, whose own identity the record carries.
   */
  lemma ReaderTrafficHasKnownSenders(events: seq<ChannelMessage>, envs: seq<Env>, e: ChannelMessage)
    requires |envs| == |events| && ValidEnvs(envs)
    requires ReaderTraffic(events + [e]) && e.kind.IncomingMessage?
    requires Run(events, envs).Running?
    ensures e.address in Run(events, envs).state.clients
    ensures AuthorName(Run(events, envs).state.clients, e.address) != Unknown()
  {
    ReaderTrafficSenderIsLive(events, e);
    RunRegistry(events, envs);
  }

  /**
   * 31 ASCII letters and then the first byte of "é" (C3 A9): the chunk one
   * read returns when "é" straddles the reader's 32-byte boundary.
   */
  function SplitChunk(): Bytes {
    seq(31, _ => 97) + [0xC3]
  }

  /** The split chunk fills the buffer exactly and is not valid UTF-8. */
  lemma SplitChunkIsUndecodable()
    ensures |SplitChunk()| == MESSAGE_SIZE && Pad(SplitChunk()) == SplitChunk()
    ensures !ValidUtf8(SplitChunk())
  {
    var letters: Bytes := seq(31, _ => 97);
    assert SplitChunk() + Zeros(0) == SplitChunk();
    assert LeadWidth([0xC3]) == 0;
    AsciiPrefixKeepsValidity(letters, [0xC3]);
  }

  /**
   * A peer sends 31 letters, "é" and a newline, 34 bytes. When the first read
   * returns the first 32 of them, the reader sends that chunk whole and the
   * rest of the character in the next chunk. Where a read ends is up to TCP,
   * so the read outcomes are given here, not derived from the peer's write.
   */
  lemma SplitCharacterReader(x: Addr)
    ensures var t := ClientHandlerSpec(x, [Received(SplitChunk(), Flushed), Received([0xA9, 0x0A], Flushed)]);
      && |t.events| == 3 && t.exit == Blocked
      && t.events[0] == NewChannelMessage(x, [], Connected)
      && t.events[1] == NewChannelMessage(x, SplitChunk(), IncomingMessage)
      && t.events[2] == NewChannelMessage(x, Pad([0xA9, 0x0A]), IncomingMessage)
  {
    SplitChunkIsUndecodable();
  }

  /**
   * A character split by the reader's 32-byte buffer crashes the router:
   * whenever another client is registered, broadcasting the split chunk
   * panics in `from_utf8(..).unwrap()`.
   */
  lemma SplitCharacterCrashesRouter(s: State, x: Addr, y: Addr, env: Env)
    requires RegistryValid(s.clients) && ValidSamples(env.samples)
    requires y in s.clients && y != x
    ensures Step(s, NewChannelMessage(x, SplitChunk(), IncomingMessage), env) == Panicked
  {
    SplitChunkIsUndecodable();
    assert y in s.clients.Keys - {x};
    PanicsIffUndecodable(s, NewChannelMessage(x, SplitChunk(), IncomingMessage), env);
  }

  /** The router: the registry it alone mutates, and what it has written to each peer. */
  class Router {
    var clients: Clients
    var wire: Wire

    ghost predicate Valid()
      reads this
    {
      RegistryValid(clients)
    }

    function Snapshot(): State
      reads this
    {
      State(clients, wire)
    }

    /** `HashMap::<String, Client>::new()`, with nothing written yet. */
    constructor()
      ensures Valid() && Snapshot() == Initial
    {
      clients := map[];
      wire := map[];
    }

    /**
     * `broadcast_message`: for each entry whose address differs from the
     * sender's, decode the content (panicking if it is not UTF-8), write the
     * record and, if that succeeded, a newline. A failed write is reported
     * and the loop goes on with the next entry.
     */
    method BroadcastMessage(msg: ChannelMessage, failing: set<Write>) returns (panicked: bool)
      requires Valid()
      modifies this`wire
      ensures var o := Broadcast(old(Snapshot()), msg, failing);
        && panicked == o.Panicked?
        && (!panicked ==> Snapshot() == o.state)
    {
      var name := Unknown();
      if msg.address in clients {
        name := clients[msg.address].name;
      }
      ghost var plan := Plan(clients, msg, failing);
      var todo := clients.Keys;
      ghost var done: set<Addr> := {};
      while todo != {}
        invariant todo !! done && todo + done == clients.Keys
        invariant wire == Deliver(old(wire), Restrict(plan, done))
        invariant !ValidUtf8(msg.content) ==> done !! Targets(clients, msg.address)
        decreases todo
      {
        var k :| k in todo;
        var c := clients[k];
        DeliverOneMore(old(wire), plan, done, k);
        if c.address != msg.address {
          assert k in Targets(clients, msg.address) && k in plan;
          if !ValidUtf8(msg.content) {
            assert old(Snapshot()).clients == clients;
            assert Targets(old(Snapshot()).clients, msg.address) != {};
            assert Broadcast(old(Snapshot()), msg, failing) == Panicked;
            return true;
          }
          var message := New(name, msg.address, msg.content);
          assert message == RecordFor(clients, msg);
          SendRecord(c.address, message, failing);
        }
        todo := todo - {k};
        done := done + {k};
      }
      assert Restrict(plan, done) == plan;
      assert !ValidUtf8(msg.content) ==> Targets(clients, msg.address) == {};
      panicked := false;
    }

    /**
     * Write the record to `to` and, only if that succeeded, a newline; a
     * failure of either write is reported and otherwise ignored.
     */
    method SendRecord(to: Addr, message: Message, failing: set<Write>)
      modifies this`wire
      ensures wire == Append(old(wire), to, RecordDelivery(to, message, failing))
    {
      if Write(to, Record(message)) !in failing {
        wire := Append(wire, to, [Record(message)]);
        if Write(to, Newline) !in failing {
          AppendTwice(old(wire), to, [Record(message)], [Newline]);
          wire := Append(wire, to, [Newline]);
          assert RecordDelivery(to, message, failing) == [Record(message)] + [Newline];
        } else {
          assert RecordDelivery(to, message, failing) == [Record(message)];
        }
      }
    }

    /** One pass of `server_handler`'s loop: apply `msg` to the registry. */
    method Handle(msg: ChannelMessage, env: Env) returns (panicked: bool)
      requires Valid() && ValidSamples(env.samples)
      modifies this
      ensures var o := Step(old(Snapshot()), msg, env);
        && panicked == o.Panicked?
        && (!panicked ==> Valid() && Snapshot() == o.state)
    {
      panicked := false;
      match msg.kind {
        case Connected =>
          var name := GenerateClientId(RANDOM_ID_LENGTH, env.samples);
          clients := clients[msg.address := NewClient(name, msg.address)];
        case IncomingMessage =>
          panicked := BroadcastMessage(msg, env.failing);
          if !panicked && msg.address in clients {
            var user := clients[msg.address];
            clients := clients[msg.address := user.(messages := user.messages + [msg.content])];
          }
        case Disconnected =>
          if msg.address in clients {
            clients := clients - {msg.address};
          }
        case ErrorMessage =>
      }
      if !panicked {
        StepKeepsRegistryValid(old(Snapshot()), msg, env);
      }
    }
  }

  /**
   * `server_handler`: start with an empty registry and apply the events in
   * the order the channel delivers them, until the router panics.
   */
  method ServerHandler(events: seq<ChannelMessage>, envs: seq<Env>) returns (router: Router, panicked: bool)
    requires |envs| == |events| && ValidEnvs(envs)
    ensures var o := Run(events, envs);
      && panicked == o.Panicked?
      && (!panicked ==> router.Valid() && router.Snapshot() == o.state)
  {
    router := new Router();
    var i := 0;
    while i < |events|
      invariant 0 <= i <= |events|
      invariant router.Valid()
      invariant Run(events[..i], envs[..i]) == Running(router.Snapshot())
    {
      RunSnoc(events[..i], envs[..i], events[i], envs[i]);
      assert events[..i + 1] == events[..i] + [events[i]];
      assert envs[..i + 1] == envs[..i] + [envs[i]];
      panicked := router.Handle(events[i], envs[i]);
      if panicked {
        PanicIsFinal(events, envs, i + 1);
        return;
      }
      i := i + 1;
    }
    assert events[..i] == events && envs[..i] == envs;
    panicked := false;
  }
}
