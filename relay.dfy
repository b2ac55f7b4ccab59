/**
 * The router of src/main.rs: the same registry as src/bin/server.rs, but an
 * `IncomingMessage` is first appended to the sender's history and answered
 * with the sender's own shell prompt, and the broadcast writes each other
 * client its own prompt (with a newline) followed by the raw bytes of the
 * sender's latest history entry. Nothing is decoded, so no content makes
 * this router panic; a message from an address with no registry entry does
 * (`clients.get(..).unwrap()`).
 */
module Relay {
  import opened Text
  import opened Channel
  import opened Reader
  import opened Registry

  /**
   * `Client::shell_format`'s text, `format!("{}@{}$ ", name, address)`, with a
   * trailing newline when `lf`: the name, '@' (0x40), the address, '$' (0x24)
   * and a space (0x20), then '\n' (0x0A) if asked for.
   */
  function ShellPrompt(c: Client, lf: bool): Bytes {
    c.name + [0x40] + c.address + [0x24, 0x20] + (if lf then [0x0A] else [])
  }

  /** Where each part of the prompt sits: it can be read back field by field. */
  lemma ShellPromptLayout(c: Client, lf: bool)
    ensures var r := ShellPrompt(c, lf);
      && |r| == |c.name| + |c.address| + 3 + (if lf then 1 else 0)
      && r[..|c.name|] == c.name && r[|c.name|] == 0x40
      && r[|c.name| + 1..|c.name| + 1 + |c.address|] == c.address
      && r[|c.name| + 1 + |c.address|] == 0x24 && r[|c.name| + 2 + |c.address|] == 0x20
      && (lf ==> r[|r| - 1] == 0x0A)
  {
    var r := ShellPrompt(c, lf);
    assert r[..|c.name|] == c.name;
    assert r[|c.name| + 1..|c.name| + 1 + |c.address|] == c.address;
  }

  /** The prompt with a line feed is the prompt without one, followed by '\n'. */
  lemma PromptWithNewline(c: Client)
    ensures ShellPrompt(c, true) == ShellPrompt(c, false) + [0x0A]
  {
    var r := ShellPrompt(c, true);
    var q := ShellPrompt(c, false);
    assert r[..|q|] == q;
  }

  /**
   * For clients with generated identities, the prompt gives back the name,
   * the address and whether it ended the line: two prompts are equal exactly
   * when all three agree.
   */
  lemma PromptIdentifiesClient(c1: Client, lf1: bool, c2: Client, lf2: bool)
    requires ValidId(c1.name) && ValidId(c2.name)
    ensures ShellPrompt(c1, lf1) == ShellPrompt(c2, lf2) <==>
      c1.name == c2.name && c1.address == c2.address && lf1 == lf2
  {
    var r1, r2 := ShellPrompt(c1, lf1), ShellPrompt(c2, lf2);
    ShellPromptLayout(c1, lf1);
    ShellPromptLayout(c2, lf2);
    if r1 == r2 {
      assert c1.name == r1[..RANDOM_ID_LENGTH] == c2.name;
      assert |c1.address| == |c2.address|;
      assert c1.address == r1[RANDOM_ID_LENGTH + 1..RANDOM_ID_LENGTH + 1 + |c1.address|] == c2.address;
    }
  }

  /** The newest entry of a non-empty history, `messages.last()`. */
  function Last(history: seq<Bytes>): Bytes
    requires history != []
  {
    history[|history| - 1]
  }

  /** What `c.shell_format(lf)` delivers to `c`'s own socket. */
  function PromptTo(c: Client, lf: bool, failing: set<Write>): seq<Output> {
    Attempt(c.address, Prompt(ShellPrompt(c, lf)), failing)
  }

  /**
   * What `broadcast_message(broadcaster, clients)` delivers: to every entry
   * whose address differs from the broadcaster's, its own prompt with a
   * newline and then the broadcaster's newest history entry, each write
   * failing on its own; nothing at all when that history is empty.
   */
  function Plan(clients: Clients, broadcaster: Client, failing: set<Write>): map<Addr, seq<Output>> {
    if broadcaster.messages == [] then map[]
    else
      map k | k in Targets(clients, broadcaster.address) ::
        Attempt(k, Prompt(ShellPrompt(clients[k], true)), failing) +
        Attempt(k, Raw(Last(broadcaster.messages)), failing)
  }

  /** Who is in the broadcast's plan, and with what. */
  lemma PlanEntry(clients: Clients, broadcaster: Client, failing: set<Write>, k: Addr)
    requires RegistryValid(clients) && k in clients
    ensures var plan := Plan(clients, broadcaster, failing);
      && (k in plan <==> k != broadcaster.address && broadcaster.messages != [])
      && (k in plan ==>
            plan[k] == PromptTo(clients[k], true, failing) + Attempt(k, Raw(Last(broadcaster.messages)), failing))
  {
  }

  /** One pass of `server_handler`'s loop. */
  function Step(s: State, msg: ChannelMessage, env: Env): Outcome
    requires ValidSamples(env.samples)
  {
    match msg.kind
    case Connected => Running(State(Connect(s.clients, msg.address, env.samples), s.wire))
    case IncomingMessage =>
      if msg.address !in s.clients then Panicked
      else
        var clients := Push(s.clients, msg.address, msg.content);
        var user := clients[msg.address];
        var wire := Append(s.wire, user.address, PromptTo(user, false, env.failing));
        Running(State(clients, Deliver(wire, Plan(clients, user, env.failing))))
    case Disconnected => Running(State(Disconnect(s.clients, msg.address), s.wire))
    case ErrorMessage => Running(s)
  }

  /**
   * `server_handler` after the events `events`, starting from an empty registry.
   * This is the same fold as `Server.Run`, over this router's own `Step`;
   * `RunSnoc`, `PanicIsFinal` and `RunRegistry` below repeat the server's
   * proofs for it, because each module's `Run` is a plain function of its
   * own `Step` rather than of a step passed in as a value.
   */
  function Run(events: seq<ChannelMessage>, envs: seq<Env>): Outcome
    requires |envs| == |events| && ValidEnvs(envs)
    decreases |events|
  {
    if events == [] then Running(Initial)
    else
      var n := |events| - 1;
      match Run(events[..n], envs[..n])
      case Panicked => Panicked
      case Running(s) => Step(s, events[n], envs[n])
  }

  lemma RunSnoc(events: seq<ChannelMessage>, envs: seq<Env>, e: ChannelMessage, env: Env)
    requires |envs| == |events| && ValidEnvs(envs) && ValidSamples(env.samples)
    ensures ValidEnvs(envs + [env])
    ensures Run(events + [e], envs + [env]) ==
      match Run(events, envs)
      case Panicked => Panicked
      case Running(s) => Step(s, e, env)
  {
    assert (events + [e])[..|events|] == events;
    assert (envs + [env])[..|envs|] == envs;
    assert forall i :: 0 <= i < |envs| ==> envs[i] == (envs + [env])[i];
  }

  // ----- one event -----

  /** The router panics exactly on an `IncomingMessage` from an address with no registry entry. */
  lemma PanicsIffUnregistered(s: State, msg: ChannelMessage, env: Env)
    requires ValidSamples(env.samples)
    ensures Step(s, msg, env) == Panicked <==> msg.kind.IncomingMessage? && msg.address !in s.clients
  {
  }

  /**
   * An `IncomingMessage` from a registered sender: the sender receives its
   * own prompt without a newline and nothing else; every other registered
   * client receives its own prompt with a newline and then exactly the
   * content just received; every unregistered address receives nothing.
   * The sender's history gains the content at its end, and no other entry
   * changes.
   */
  lemma RelayDelivers(s: State, msg: ChannelMessage, env: Env, d: Addr)
    requires RegistryValid(s.clients) && ValidSamples(env.samples)
    requires msg.kind.IncomingMessage? && msg.address in s.clients
    ensures Step(s, msg, env).Running?
    ensures var s' := Step(s, msg, env).state;
      && Log(s'.wire, msg.address) == Log(s.wire, msg.address) +
           Attempt(msg.address, Prompt(ShellPrompt(s.clients[msg.address], false)), env.failing)
      && (d in s.clients && d != msg.address ==>
            Log(s'.wire, d) == Log(s.wire, d) +
              Attempt(d, Prompt(ShellPrompt(s.clients[d], true)), env.failing) +
              Attempt(d, Raw(msg.content), env.failing))
      && (d !in s.clients ==> Log(s'.wire, d) == Log(s.wire, d))
      && s'.clients == Push(s.clients, msg.address, msg.content)
  {
    var clients := Push(s.clients, msg.address, msg.content);
    PushAppends(s.clients, msg.address, msg.content);
    var user := clients[msg.address];
    var wire := Append(s.wire, user.address, PromptTo(user, false, env.failing));
    var plan := Plan(clients, user, env.failing);
    assert user.messages != [] && Last(user.messages) == msg.content;
    assert msg.address !in plan;
    assert d in plan <==> d in s.clients && d != msg.address;
  }

  /**
   * A failing write to one destination does not affect any other: what a
   * destination receives depends only on which of its own writes fail.
   */
  lemma FailureIsolation(s: State, msg: ChannelMessage, env1: Env, env2: Env, d: Addr)
    requires RegistryValid(s.clients) && ValidSamples(env1.samples) && ValidSamples(env2.samples)
    requires Step(s, msg, env1).Running?
    requires forall o :: Write(d, o) in env1.failing <==> Write(d, o) in env2.failing
    ensures Step(s, msg, env2).Running?
    ensures Log(Step(s, msg, env1).state.wire, d) == Log(Step(s, msg, env2).state.wire, d)
  {
    if msg.kind.IncomingMessage? {
      assert msg.address in s.clients;
      RelayDelivers(s, msg, env1, d);
      RelayDelivers(s, msg, env2, d);
      if d == msg.address {
        var o := Prompt(ShellPrompt(s.clients[d], false));
        assert Attempt(d, o, env1.failing) == Attempt(d, o, env2.failing);
      } else if d in s.clients {
        var p := Prompt(ShellPrompt(s.clients[d], true));
        var r := Raw(msg.content);
        assert Attempt(d, p, env1.failing) == Attempt(d, p, env2.failing);
        assert Attempt(d, r, env1.failing) == Attempt(d, r, env2.failing);
      }
    } else {
      assert Step(s, msg, env1).state.wire == s.wire == Step(s, msg, env2).state.wire;
    }
  }

  /** Every step that does not panic keeps every entry filed under its own address with a valid identity. */
  lemma StepKeepsRegistryValid(s: State, msg: ChannelMessage, env: Env)
    requires RegistryValid(s.clients) && ValidSamples(env.samples)
    requires Step(s, msg, env).Running?
    ensures RegistryValid(Step(s, msg, env).state.clients)
  {
    match msg.kind
    case Connected => ConnectRegisters(s.clients, msg.address, env.samples);
    case IncomingMessage => PushAppends(s.clients, msg.address, msg.content);
    case Disconnected =>
    case ErrorMessage =>
  }

  // ----- whole runs -----

  /** Once the router has panicked it processes nothing more. */
  lemma {:induction false} PanicIsFinal(events: seq<ChannelMessage>, envs: seq<Env>, n: nat)
    requires |envs| == |events| && ValidEnvs(envs) && n <= |events|
    requires Run(events[..n], envs[..n]) == Panicked
    ensures Run(events, envs) == Panicked
    decreases |events| - n
  {
    if n < |events| {
      var m := n + 1;
      assert events[..m][..n] == events[..n] && envs[..m][..n] == envs[..n];
      assert Run(events[..m], envs[..m]) == Panicked;
      PanicIsFinal(events, envs, m);
    } else {
      assert events[..n] == events && envs[..n] == envs;
    }
  }

  /**
   * The registry invariant: while the router runs, its keys are exactly the
   * addresses that have connected and not disconnected since, every entry is
   * filed under its own address with a generated identity, and each entry's
   * history is everything that address has sent since it last connected.
   */
  lemma {:induction false} RunRegistry(events: seq<ChannelMessage>, envs: seq<Env>)
    requires |envs| == |events| && ValidEnvs(envs)
    requires Run(events, envs).Running?
    ensures Tracks(events, Run(events, envs).state.clients)
    decreases |events|
  {
    if events != [] {
      var n := |events| - 1;
      var es, e := events[..n], events[n];
      var vs, v := envs[..n], envs[n];
      assert events == es + [e] && envs == vs + [v];
      RunSnoc(es, vs, e, v);
      var s := Run(es, vs).state;
      RunRegistry(es, vs);
      assert Step(s, e, v).state.clients == Registered(s.clients, e, v.samples);
      TracksAfter(es, e, s.clients, v.samples);
    }
  }

  /**
   * When every peer's events have the shape its reader gives them, this
   * router never panics: a reader sends nothing before its `Connected` and
   * nothing after its `Disconnected`, so every sender is registered.
   */
  lemma {:induction false} ReaderTrafficNeverPanics(events: seq<ChannelMessage>, envs: seq<Env>)
    requires |envs| == |events| && ValidEnvs(envs)
    requires ReaderTraffic(events)
    ensures Run(events, envs).Running?
    decreases |events|
  {
    if events != [] {
      var n := |events| - 1;
      var es, e := events[..n], events[n];
      var vs, v := envs[..n], envs[n];
      assert events == es + [e] && envs == vs + [v];
      RunSnoc(es, vs, e, v);
      ReaderTrafficPrefix(es, e);
      ReaderTrafficNeverPanics(es, vs);
      if e.kind.IncomingMessage? {
        ReaderTrafficSenderIsLive(es, e);
        RunRegistry(es, vs);
        PanicsIffUnregistered(Run(es, vs).state, e, v);
      }
    }
  }

  /** The router: the registry it alone mutates, and what it has written to each peer. */
  class Router {
    var clients: Clients
    var wire: Wire

    ghost predicate Valid()
      reads this
    {
      RegistryValid(clients)
    }

    function Snapshot(): State
      reads this
    {
      State(clients, wire)
    }

    /** `HashMap::<String, Client>::new()`, with nothing written yet. */
    constructor()
      ensures Valid() && Snapshot() == Initial
    {
      clients := map[];
      wire := map[];
    }

    /** `c.shell_format(lf)`: write the prompt to `c`'s socket; a failure is only reported. */
    method ShellFormat(c: Client, lf: bool, failing: set<Write>)
      modifies this`wire
      ensures wire == Append(old(wire), c.address, PromptTo(c, lf, failing))
    {
      var text := ShellPrompt(c, lf);
      if Write(c.address, Prompt(text)) !in failing {
        wire := Append(wire, c.address, [Prompt(text)]);
      }
    }

    /** `write_all(bytes)` on the socket of `to`; a failure is only reported. */
    method WriteAll(to: Addr, bytes: Bytes, failing: set<Write>)
      modifies this`wire
      ensures wire == Append(old(wire), to, Attempt(to, Raw(bytes), failing))
    {
      if Write(to, Raw(bytes)) !in failing {
        wire := Append(wire, to, [Raw(bytes)]);
      }
    }

    /** One target of the broadcast: its prompt, then the message, each write failing on its own. */
    method SendPrompted(c: Client, message: Bytes, failing: set<Write>)
      modifies this`wire
      ensures wire == Append(old(wire), c.address, PromptTo(c, true, failing) + Attempt(c.address, Raw(message), failing))
    {
      ShellFormat(c, true, failing);
      WriteAll(c.address, message, failing);
      AppendTwice(old(wire), c.address, PromptTo(c, true, failing), Attempt(c.address, Raw(message), failing));
    }

    /**
     * `broadcast_message`: for each entry whose address differs from the
     * broadcaster's, if the broadcaster has a newest history entry, write
     * that entry's prompt and then the entry itself.
     */
    method BroadcastMessage(broadcaster: Client, failing: set<Write>)
      requires Valid()
      modifies this`wire
      ensures wire == Deliver(old(wire), Plan(clients, broadcaster, failing))
    {
      ghost var plan := Plan(clients, broadcaster, failing);
      var todo := clients.Keys;
      ghost var done: set<Addr> := {};
      while todo != {}
        invariant todo !! done && todo + done == clients.Keys
        invariant wire == Deliver(old(wire), Restrict(plan, done))
        decreases todo
      {
        var k :| k in todo;
        var c := clients[k];
        DeliverOneMore(old(wire), plan, done, k);
        PlanEntry(clients, broadcaster, failing, k);
        if c.address != broadcaster.address {
          if broadcaster.messages != [] {
            var message := broadcaster.messages[|broadcaster.messages| - 1];
            SendPrompted(c, message, failing);
          }
        }
        todo := todo - {k};
        done := done + {k};
      }
      assert Restrict(plan, done) == plan;
    }

    /** One pass of `server_handler`'s loop: apply `msg` to the registry. */
    method Handle(msg: ChannelMessage, env: Env) returns (panicked: bool)
      requires Valid() && ValidSamples(env.samples)
      modifies this
      ensures var o := Step(old(Snapshot()), msg, env);
        && panicked == o.Panicked?
        && (!panicked ==> Valid() && Snapshot() == o.state)
    {
      panicked := false;
      match msg.kind {
        case Connected =>
          var name := GenerateClientId(RANDOM_ID_LENGTH, env.samples);
          clients := clients[msg.address := NewClient(name, msg.address)];
        case IncomingMessage =>
          if msg.address in clients {
            var user := clients[msg.address];
            clients := clients[msg.address := user.(messages := user.messages + [msg.content])];
            PushAppends(old(clients), msg.address, msg.content);
            ShellFormat(clients[msg.address], false, env.failing);
          }
          if msg.address !in clients {
            // `clients.get(..).unwrap()` on `None`
            panicked := true;
            return;
          }
          BroadcastMessage(clients[msg.address], env.failing);
        case Disconnected =>
          if msg.address in clients {
            clients := clients - {msg.address};
          }
        case ErrorMessage =>
      }
      StepKeepsRegistryValid(old(Snapshot()), msg, env);
    }
  }

  /**
   * `server_handler`: start with an empty registry and apply the events in
   * the order the channel delivers them, until the router panics.
   */
  method RelayHandler(events: seq<ChannelMessage>, envs: seq<Env>) returns (router: Router, panicked: bool)
    requires |envs| == |events| && ValidEnvs(envs)
    ensures var o := Run(events, envs);
      && panicked == o.Panicked?
      && (!panicked ==> router.Valid() && router.Snapshot() == o.state)
  {
    router := new Router();
    var i := 0;
    while i < |events|
      invariant 0 <= i <= |events|
      invariant router.Valid()
      invariant Run(events[..i], envs[..i]) == Running(router.Snapshot())
    {
      RunSnoc(events[..i], envs[..i], events[i], envs[i]);
      assert events[..i + 1] == events[..i] + [events[i]];
      assert envs[..i + 1] == envs[..i] + [envs[i]];
      panicked := router.Handle(events[i], envs[i]);
      if panicked {
        PanicIsFinal(events, envs, i + 1);
        return;
      }
      i := i + 1;
    }
    assert events[..i] == events && envs[..i] == envs;
    panicked := false;
  }
}
