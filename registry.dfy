/**
 * What both routers share: the registry of clients, the record of what was
 * written to each peer's socket, the oracles standing for randomness and for
 * failing writes, and the facts about the event stream that the registry
 * tracks.
 */
module Registry {
  import opened Text
  import opened Chatr
  import opened Channel
  import opened Reader

  /** One write to a peer's socket, as the peer receives it. */
  datatype Output =
    | Record(message: Message)  // a serialised `Message` (server.rs)
    | Newline                   // the `b'\n'` after a record (server.rs)
    | Prompt(text: Bytes)       // a `shell_format` prompt (main.rs)
    | Raw(bytes: Bytes)         // a history entry written as it is (main.rs)

  /** A write of `output` to the socket of the peer at `to`. */
  datatype Write = Write(to: Addr, output: Output)

  /** Everything successfully written to each peer, oldest first; absent means nothing. */
  type Wire = map<Addr, seq<Output>>

  function Log(wire: Wire, a: Addr): seq<Output> {
    if a in wire then wire[a] else []
  }

  /**
   * One attempted write. The caller chooses which writes fail; a failed write
   * delivers nothing and is only reported.
   */
  function Attempt(to: Addr, output: Output, failing: set<Write>): (r: seq<Output>)
    ensures r == [] || r == [output]
    ensures r == [output] <==> Write(to, output) !in failing
  {
    if Write(to, output) in failing then [] else [output]
  }

  /** The wire after `outputs` reach `a`: `a`'s log grows by them and no other log changes. */
  function Append(wire: Wire, a: Addr, outputs: seq<Output>): (r: Wire)
    ensures Log(r, a) == Log(wire, a) + outputs
    ensures forall b :: b != a ==> Log(r, b) == Log(wire, b)
  {
    if outputs == [] then wire else wire[a := Log(wire, a) + outputs]
  }

  /** Two writes to one peer in a row deliver their outputs in that order. */
  lemma AppendTwice(wire: Wire, a: Addr, first: seq<Output>, second: seq<Output>)
    ensures Append(Append(wire, a, first), a, second) == Append(wire, a, first + second)
  {
    assert Log(wire, a) + first + second == Log(wire, a) + (first + second);
  }

  /** The peers a plan actually writes something to. */
  function Served(plan: map<Addr, seq<Output>>): (r: set<Addr>)
    ensures forall a :: a in r <==> a in plan && plan[a] != []
  {
    set a | a in plan && plan[a] != []
  }

  /** What a fan-out leaves on the wire: each peer named in `plan` receives its outputs, every other log is unchanged. */
  function Deliver(wire: Wire, plan: map<Addr, seq<Output>>): (r: Wire)
    ensures forall a {:trigger Log(r, a)} :: Log(r, a) == Log(wire, a) + (if a in plan then plan[a] else [])
  {
    map a | a in wire.Keys + Served(plan) :: if a in plan then Log(wire, a) + plan[a] else wire[a]
  }

  function Restrict(plan: map<Addr, seq<Output>>, done: set<Addr>): (r: map<Addr, seq<Output>>)
    ensures r.Keys == plan.Keys * done
    ensures forall a :: a in r ==> r[a] == plan[a]
  {
    map a | a in plan && a in done :: plan[a]
  }

  /** Serving one more planned peer extends the partial fan-out by that peer's outputs. */
  lemma DeliverOneMore(wire: Wire, plan: map<Addr, seq<Output>>, done: set<Addr>, k: Addr)
    requires k !in done
    ensures Deliver(wire, Restrict(plan, done + {k})) ==
      if k in plan then Append(Deliver(wire, Restrict(plan, done)), k, plan[k])
      else Deliver(wire, Restrict(plan, done))
  {
    var before := Deliver(wire, Restrict(plan, done));
    var after := Deliver(wire, Restrict(plan, done + {k}));
    var expected := if k in plan then Append(before, k, plan[k]) else before;
    forall a ensures a in after <==> a in expected {
      assert a in after <==> a in wire || (a in plan && a in done + {k} && plan[a] != []);
      assert a in before <==> a in wire || (a in plan && a in done && plan[a] != []);
    }
    assert after.Keys == expected.Keys;
    forall a | a in after ensures after[a] == expected[a] {
      assert Log(after, a) == Log(expected, a);
    }
  }

  /** `HashMap<String, Client>`, keyed by `address.to_string()`. */
  type Clients = map<Addr, Client>

  /** Every entry is filed under its own address and bears a generated identity. */
  predicate RegistryValid(clients: Clients) {
    forall k :: k in clients ==> clients[k].address == k && ValidId(clients[k].name)
  }

  /** The entries a broadcast from `sender` writes to: those whose address differs from the sender's. */
  function Targets(clients: Clients, sender: Addr): (t: set<Addr>)
    ensures RegistryValid(clients) ==> t == clients.Keys - {sender}
  {
    set k | k in clients && clients[k].address != sender
  }

  datatype State = State(clients: Clients, wire: Wire)

  /** The router either goes on with a new state or has panicked (its thread is gone). */
  datatype Outcome = Running(state: State) | Panicked

  /** The oracles for one event: the random source's samples and the writes that fail. */
  datatype Env = Env(samples: Bytes, failing: set<Write>)

  predicate ValidEnvs(envs: seq<Env>) {
    forall i :: 0 <= i < |envs| ==> ValidSamples(envs[i].samples)
  }

  const Initial: State := State(map[], map[])

  // ----- the event stream as the registry sees it -----

  /** The events of `events` that concern the peer at `a`, in order. */
  function Project(events: seq<ChannelMessage>, a: Addr): (p: seq<ChannelMessage>)
    ensures |p| <= |events|
    ensures forall i :: 0 <= i < |p| ==> p[i].address == a
    decreases |events|
  {
    if events == [] then []
    else
      var last := events[|events| - 1];
      Project(events[..|events| - 1], a) + (if last.address == a then [last] else [])
  }

  lemma ProjectSnoc(events: seq<ChannelMessage>, e: ChannelMessage, a: Addr)
    ensures Project(events + [e], a) == Project(events, a) + (if e.address == a then [e] else [])
  {
    assert (events + [e])[..|events|] == events;
  }

  /** Some `Connected` in `p` is followed by no `Disconnected`. */
  predicate LiveIn(p: seq<ChannelMessage>) {
    exists i :: 0 <= i < |p| && p[i].kind.Connected? && NoDisconnectAfter(p, i)
  }

  predicate NoDisconnectAfter(p: seq<ChannelMessage>, i: int) {
    forall j :: 0 <= j < |p| && i < j ==> !p[j].kind.Disconnected?
  }

  /** The peer at `a` has connected and has not disconnected since. */
  predicate Live(events: seq<ChannelMessage>, a: Addr) {
    LiveIn(Project(events, a))
  }

  /** How one more event for the same peer changes whether it is live. */
  lemma LiveInSnoc(p: seq<ChannelMessage>, e: ChannelMessage)
    ensures LiveIn(p + [e]) ==
      if e.kind.Connected? then true
      else if e.kind.Disconnected? then false
      else LiveIn(p)
  {
    var q := p + [e];
    assert q[|p|] == e;
    if e.kind.Connected? {
      assert NoDisconnectAfter(q, |p|);
    } else if e.kind.Disconnected? {
      forall i | 0 <= i < |q| && q[i].kind.Connected? ensures !NoDisconnectAfter(q, i) {
        assert i < |p|;
      }
    } else {
      if LiveIn(p) {
        var i :| 0 <= i < |p| && p[i].kind.Connected? && NoDisconnectAfter(p, i);
        assert q[i] == p[i];
        assert NoDisconnectAfter(q, i);
      }
      if LiveIn(q) {
        var i :| 0 <= i < |q| && q[i].kind.Connected? && NoDisconnectAfter(q, i);
        assert i < |p| && p[i] == q[i];
        forall j | 0 <= j < |p| && i < j ensures !p[j].kind.Disconnected? {
          assert q[j] == p[j];
        }
      }
    }
  }

  /** How one more event moves a peer in or out of the live set. */
  lemma LiveAfter(events: seq<ChannelMessage>, e: ChannelMessage, a: Addr)
    ensures Live(events + [e], a) ==
      if e.address == a && e.kind.Connected? then true
      else if e.address == a && e.kind.Disconnected? then false
      else Live(events, a)
  {
    ProjectSnoc(events, e, a);
    if e.address == a {
      LiveInSnoc(Project(events, a), e);
    } else {
      assert Project(events, a) + [] == Project(events, a);
    }
  }

  /** Every peer's events, as far as they have arrived, are a series of reader outputs. */
  ghost predicate ReaderTraffic(events: seq<ChannelMessage>) {
    forall a :: Sessions(Project(events, a))
  }

  /** A prefix of a series of reader outputs is one too. */
  lemma SessionsPrefix(q: seq<ChannelMessage>, n: nat)
    requires Sessions(q) && n <= |q|
    ensures Sessions(q[..n])
  {
    var p := q[..n];
    forall i | 0 < i < |p| ensures p[i].kind.Connected? <==> p[i - 1].kind.Disconnected? {
      assert p[i] == q[i] && p[i - 1] == q[i - 1];
    }
  }

  /** What has arrived before the last event was also reader traffic. */
  lemma ReaderTrafficPrefix(events: seq<ChannelMessage>, e: ChannelMessage)
    requires ReaderTraffic(events + [e])
    ensures ReaderTraffic(events)
  {
    forall a ensures Sessions(Project(events, a)) {
      ProjectSnoc(events, e, a);
      var p := Project(events, a);
      var q := Project(events + [e], a);
      assert p == q[..|p|];
      SessionsPrefix(q, |p|);
    }
  }

  /** A series of reader outputs whose last event is not a `Disconnected` leaves its peer live. */
  lemma {:induction false} SessionsOpen(p: seq<ChannelMessage>)
    requires Sessions(p) && p != [] && !p[|p| - 1].kind.Disconnected?
    ensures LiveIn(p)
    decreases |p|
  {
    var n := |p| - 1;
    var last := p[n];
    assert p == p[..n] + [last];
    LiveInSnoc(p[..n], last);
    if !last.kind.Connected? {
      assert n > 0;
      assert !p[n - 1].kind.Disconnected?;
      SessionsPrefix(p, n);
      SessionsOpen(p[..n]);
    }
  }

  /**
   * In reader traffic, an event that is not a `Connected` comes from a peer
   * that is live at that point: its current reader announced it and has not
   * disconnected.
   */
  lemma ReaderTrafficSenderIsLive(events: seq<ChannelMessage>, e: ChannelMessage)
    requires ReaderTraffic(events + [e])
    requires !e.kind.Connected?
    ensures Live(events, e.address)
  {
    var a := e.address;
    ProjectSnoc(events, e, a);
    var p := Project(events, a);
    var q := Project(events + [e], a);
    assert Sessions(q);
    assert q == p + [e] && q[|p|] == e;
    assert p != [];
    assert q[|p| - 1] == p[|p| - 1];
    SessionsPrefix(q, |p|);
    assert q[..|p|] == p;
    SessionsOpen(p);
  }

  // ----- the registry operations both routers share -----

  /**
   * A `Connected` event: insert `Client::new(generate_client_id(RANDOM_ID_LENGTH), address)`
   * under the address, replacing any entry already filed there.
   */
  function Connect(clients: Clients, address: Addr, samples: Bytes): Clients
    requires ValidSamples(samples)
  {
    clients[address := NewClient(GenerateClientId(RANDOM_ID_LENGTH, samples), address)]
  }

  /** A `Disconnected` event: remove the entry filed under the address, if there is one. */
  function Disconnect(clients: Clients, address: Addr): Clients {
    clients - {address}
  }

  /** `user.messages.push(content)` on the entry filed under `address`, if there is one. */
  function Push(clients: Clients, address: Addr, content: Bytes): Clients {
    if address in clients then
      clients[address := clients[address].(messages := clients[address].messages + [content])]
    else clients
  }

  /**
   * `Connected` files a fresh entry under the address: a valid generated
   * identity, the address itself and an empty history, replacing whatever was
   * there; every other entry stays as it was.
   */
  lemma ConnectRegisters(clients: Clients, address: Addr, samples: Bytes)
    requires ValidSamples(samples)
    ensures var c' := Connect(clients, address, samples);
      && c'.Keys == clients.Keys + {address}
      && ValidId(c'[address].name)
      && c'[address].name == samples[..RANDOM_ID_LENGTH]
      && c'[address].address == address
      && c'[address].messages == []
      && (forall k :: k in clients && k != address ==> c'[k] == clients[k])
    ensures RegistryValid(clients) ==> RegistryValid(Connect(clients, address, samples))
  {
    GeneratedIdIsValid(samples);
  }

  /**
   * `Disconnected` removes the entry under the address and nothing else; a
   * second one for the same address changes nothing.
   */
  lemma DisconnectRemoves(clients: Clients, address: Addr)
    ensures var c' := Disconnect(clients, address);
      && c'.Keys == clients.Keys - {address}
      && (forall k :: k in c' ==> c'[k] == clients[k])
      && Disconnect(c', address) == c'
      && (address !in clients ==> c' == clients)
  {
    var c' := Disconnect(clients, address);
    assert c' - {address} == c';
    if address !in clients {
      assert clients - {address} == clients;
    }
  }

  /**
   * The push appends the content at the end of the sender's history and
   * touches no other entry; an unregistered sender changes nothing.
   */
  lemma PushAppends(clients: Clients, address: Addr, content: Bytes)
    ensures var c' := Push(clients, address, content);
      && c'.Keys == clients.Keys
      && (address in clients ==>
            c'[address] == clients[address].(messages := clients[address].messages + [content]))
      && (forall k :: k in clients && k != address ==> c'[k] == clients[k])
    ensures RegistryValid(clients) ==> RegistryValid(Push(clients, address, content))
  {
  }

  // ----- histories -----

  /** The events of `p` after its last `Connected` (all of `p` if it has none). */
  function SinceConnect(p: seq<ChannelMessage>): seq<ChannelMessage>
    decreases |p|
  {
    if p == [] then []
    else if p[|p| - 1].kind.Connected? then []
    else SinceConnect(p[..|p| - 1]) + [p[|p| - 1]]
  }

  /** The contents of the `IncomingMessage` events of `p`, in order. */
  function Contents(p: seq<ChannelMessage>): seq<Bytes>
    decreases |p|
  {
    if p == [] then []
    else Contents(p[..|p| - 1]) + (if p[|p| - 1].kind.IncomingMessage? then [p[|p| - 1].content] else [])
  }

  /** Everything the peer at `a` has sent since it last connected, oldest first. */
  function History(events: seq<ChannelMessage>, a: Addr): seq<Bytes> {
    Contents(SinceConnect(Project(events, a)))
  }

  lemma SinceConnectSnoc(p: seq<ChannelMessage>, e: ChannelMessage)
    ensures SinceConnect(p + [e]) == if e.kind.Connected? then [] else SinceConnect(p) + [e]
  {
    var q := p + [e];
    assert q[..|q| - 1] == p && q[|q| - 1] == e;
  }

  lemma ContentsSnoc(p: seq<ChannelMessage>, e: ChannelMessage)
    ensures Contents(p + [e]) == Contents(p) + (if e.kind.IncomingMessage? then [e.content] else [])
  {
    var q := p + [e];
    assert q[..|q| - 1] == p && q[|q| - 1] == e;
  }

  /** How one more event changes a peer's history. */
  lemma HistoryAfter(events: seq<ChannelMessage>, e: ChannelMessage, a: Addr)
    ensures History(events + [e], a) ==
      if e.address == a && e.kind.Connected? then []
      else if e.address == a && e.kind.IncomingMessage? then History(events, a) + [e.content]
      else History(events, a)
  {
    ProjectSnoc(events, e, a);
    var p := Project(events, a);
    if e.address == a {
      SinceConnectSnoc(p, e);
      if !e.kind.Connected? {
        ContentsSnoc(SinceConnect(p), e);
      }
    } else {
      assert p + [] == p;
    }
  }

  // ----- what the registry tracks -----

  /** What one event does to the registry; both routers agree on it whenever they do not panic. */
  function Registered(clients: Clients, e: ChannelMessage, samples: Bytes): Clients
    requires ValidSamples(samples)
  {
    match e.kind
    case Connected => Connect(clients, e.address, samples)
    case IncomingMessage => Push(clients, e.address, e.content)
    case Disconnected => Disconnect(clients, e.address)
    case ErrorMessage => clients
  }

  /**
   * The registry after `events`: every entry is filed under its own address
   * with a generated identity, its keys are exactly the live addresses, and
   * each entry's history is what that address sent since it last connected.
   */
  ghost predicate Tracks(events: seq<ChannelMessage>, clients: Clients) {
    && RegistryValid(clients)
    && (forall a :: a in clients <==> Live(events, a))
    && (forall a :: a in clients ==> clients[a].messages == History(events, a))
  }

  /** Each event keeps the registry in step with the event stream. */
  lemma TracksAfter(events: seq<ChannelMessage>, e: ChannelMessage, clients: Clients, samples: Bytes)
    requires ValidSamples(samples) && Tracks(events, clients)
    ensures Tracks(events + [e], Registered(clients, e, samples))
  {
    var c := Registered(clients, e, samples);
    match e.kind {
      case Connected => ConnectRegisters(clients, e.address, samples);
      case IncomingMessage => PushAppends(clients, e.address, e.content);
      case Disconnected => DisconnectRemoves(clients, e.address);
      case ErrorMessage =>
    }
    forall a ensures (a in c <==> Live(events + [e], a)) && (a in c ==> c[a].messages == History(events + [e], a)) {
      LiveAfter(events, e, a);
      HistoryAfter(events, e, a);
    }
  }
}
