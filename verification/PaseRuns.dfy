/** The PASE handshake as two parties taking steps over a connection that may fail at any point. */
module PaseRuns {
  import opened Wrappers
  import opened Spake2Plus
  import opened KeyAgreement

  const SUCCESS: u8 := 0
  const INVALID_PUBLIC_KEY: u8 := 1
  const CONFIRM_FAILED: u8 := 2

  datatype Message =
    | Request(publicValue: Bytes, identity: Bytes)
    | Response(publicValue: Bytes)
    | Confirm(mac: Bytes)
    | Complete(mac: Bytes, code: u8)
    | CommissioningError(code: u8)

  datatype ClientPhase =
    | ClientReady
    | AwaitResponse
    | AwaitComplete(keys: Keys, pB: Bytes)
    | ClientDone(key: Bytes)
    | ClientFailed

  datatype ServerPhase =
    | AwaitRequest
    | AwaitConfirm(keys: Keys, pA: Bytes)
    | ServerDone(key: Bytes)
    | ServerFailed

  /** A write reaches the peer and succeeds, reaches it but is reported as failed, or fails. */
  datatype Write = Sent | SentButFailed | NotSent {
    predicate Succeeds() { Sent? }
    function Onto(inbox: seq<Message>, m: Message): seq<Message> {
      if NotSent? then inbox else inbox + [m]
    }
  }

  /** "accepted" is the key for which the server has verified the client's confirmation, even if the
      server's own last write then failed. */
  datatype World = World(client: ClientPhase, server: ServerPhase, accepted: Option<Bytes>,
                         toServer: seq<Message>, toClient: seq<Message>)

  /** What the server works with: the identities, its ephemeral scalar, and the stored verifier's values,
      wherever they come from. */
  datatype Held<P> = Held(clientId: Bytes, serverId: Bytes, y: nat, w0: nat, l: P)

  /** What it holds when its verifier was generated for a setup. */
  function HeldFor<P>(s: Suite<P>, d: ServerSetup): Held<P>
    requires s.order > 0
  {
    Held(d.clientId, d.serverId, d.y, ServerW(s, d).0, VerifierPoint(s, d))
  }

  const Begin := World(ClientReady, AwaitRequest, None, [], [])

  /** One party runs up to its next blocking read, or its connection breaks. */
  datatype Event = ClientRuns(w: Write) | ServerRuns(w: Write) | ClientBreaks | ServerBreaks

  function ClientStep<P>(s: Suite<P>, c: ClientSetup, x: World, w: Write): World
    requires s.order > 0
  {
    match x.client
    case ClientReady =>
      if PublicA(s, c) == s.zero then x.(client := ClientFailed)
      else x.(client := if w.Succeeds() then AwaitResponse else ClientFailed,
              toServer := w.Onto(x.toServer, Request(s.marshal(PublicA(s, c)), c.clientId)))
    case AwaitResponse =>
      if x.toClient == [] then x
      else
        var m, y := x.toClient[0], x.(toClient := x.toClient[1..]);
        if !m.Response? then y.(client := ClientFailed)
        else
          var pA := s.marshal(PublicA(s, c));
          var r := ClientKeys(s, c.clientId, c.serverId, c.x, ClientW(s, c).0, ClientW(s, c).1, pA, m.publicValue);
          (match r
           case Err(_) => y.(client := ClientFailed)
           case Ok(keys) =>
             y.(client := if w.Succeeds() then AwaitComplete(keys, m.publicValue) else ClientFailed,
                toServer := w.Onto(x.toServer, Confirm(ClientMac(s, keys.confirm, pA, m.publicValue)))))
    case AwaitComplete(keys, pB) =>
      if x.toClient == [] then x
      else
        var m, y := x.toClient[0], x.(toClient := x.toClient[1..]);
        if !m.Complete? || m.code != SUCCESS || m.mac != ServerMac(s, keys.confirm, s.marshal(PublicA(s, c)), pB)
        then y.(client := ClientFailed)
        else y.(client := ClientDone(keys.secret))
    case _ => x
  }

  function ServerStep<P>(s: Suite<P>, h: Held<P>, x: World, w: Write): World
  {
    match x.server
    case AwaitRequest =>
      if x.toServer == [] then x
      else
        var m, y := x.toServer[0], x.(toServer := x.toServer[1..]);
        if !m.Request? then y.(server := ServerFailed)
        else if ServerPoint(s, h.y, h.w0) == s.zero then y.(server := ServerFailed)
        else
          var pB := s.marshal(ServerPoint(s, h.y, h.w0));
          var r := ServerKeys(s, h.clientId, h.serverId, h.y, h.w0, h.l, m.publicValue, pB);
          (match r
           case Err(InvalidPublicKey) =>
             y.(server := ServerFailed, toClient := w.Onto(x.toClient, CommissioningError(INVALID_PUBLIC_KEY)))
           case Err(Degenerate) => y.(server := ServerFailed)
           case Ok(keys) =>
             y.(server := if w.Succeeds() then AwaitConfirm(keys, m.publicValue) else ServerFailed,
                toClient := w.Onto(x.toClient, Response(pB))))
    case AwaitConfirm(keys, pA) =>
      if x.toServer == [] then x
      else
        var m, y := x.toServer[0], x.(toServer := x.toServer[1..]);
        if !m.Confirm? then y.(server := ServerFailed)
        else
          var pB := s.marshal(ServerPoint(s, h.y, h.w0));
          var ok := m.mac == ClientMac(s, keys.confirm, pA, pB);
          y.(server := if ok && w.Succeeds() then ServerDone(keys.secret) else ServerFailed,
             accepted := if ok then Some(keys.secret) else None,
             toClient := w.Onto(x.toClient, Complete(ServerMac(s, keys.confirm, pA, pB),
                                                     if ok then SUCCESS else CONFIRM_FAILED)))
    case _ => x
  }

  function Step<P>(s: Suite<P>, c: ClientSetup, h: Held<P>, x: World, e: Event): World
    requires s.order > 0
  {
    match e
    case ClientRuns(w) => ClientStep(s, c, x, w)
    case ServerRuns(w) => ServerStep(s, h, x, w)
    case ClientBreaks => if x.client.ClientDone? then x else x.(client := ClientFailed)
    case ServerBreaks => if x.server.ServerDone? then x else x.(server := ServerFailed)
  }

  function Run<P>(s: Suite<P>, c: ClientSetup, h: Held<P>, es: seq<Event>): World
    requires s.order > 0
  {
    if es == [] then Begin else Step(s, c, h, Run(s, c, h, es[..|es| - 1]), es[|es| - 1])
  }

  // ---- Safety: whoever returns a key, returns the peer's key ----

  /** A success report in flight was sent after the server accepted, under the accepted key. */
  ghost predicate CompleteOk<P>(s: Suite<P>, accepted: Option<Bytes>, m: Message) {
    m.Complete? && m.code == SUCCESS ==>
      exists t: Bytes, a: Bytes, b: Bytes ::
        m.mac == ServerMac(s, KeysFrom(s, t).confirm, a, b) && accepted == Some(KeysFrom(s, t).secret)
  }

  ghost predicate FromTranscript<P>(s: Suite<P>, keys: Keys) {
    exists t: Bytes :: keys == KeysFrom(s, t)
  }

  ghost predicate Safe<P>(s: Suite<P>, x: World) {
    && (x.client.AwaitComplete? ==> FromTranscript(s, x.client.keys))
    && (x.server.AwaitConfirm? ==> FromTranscript(s, x.server.keys) && x.accepted == None)
    && (x.server.AwaitRequest? ==> x.accepted == None)
    && (forall i :: 0 <= i < |x.toClient| ==> CompleteOk(s, x.accepted, x.toClient[i]))
    && (x.client.ClientDone? ==> x.accepted == Some(x.client.key))
    && (x.server.ServerDone? ==> x.accepted == Some(x.server.key))
  }

  /** Until the server has decided, no success report can be in flight. */
  lemma NoSuccessYet<P>(s: Suite<P>, x: World)
    requires Safe(s, x) && x.accepted == None
    ensures forall i :: 0 <= i < |x.toClient| ==> !(x.toClient[i].Complete? && x.toClient[i].code == SUCCESS)
  {
  }

  lemma ServerSafe<P(!new)>(s: Suite<P>, h: Held<P>, x: World, w: Write)
    requires s.order > 0 && Safe(s, x) && !x.client.ClientDone?
    ensures Safe(s, ServerStep(s, h, x, w))
  {
    var y := ServerStep(s, h, x, w);
    if x.accepted == None {
      NoSuccessYet(s, x);
    }
    forall i | 0 <= i < |y.toClient|
      ensures CompleteOk(s, y.accepted, y.toClient[i])
    {
      if i < |x.toClient| {
        assert y.toClient[i] == x.toClient[i] && CompleteOk(s, x.accepted, x.toClient[i]);
      }
    }
  }

  /** A server confirmation that verifies was made under the client's own keys. */
  lemma MacBindsKeys<P(!new)>(s: Suite<P>, t: Bytes, u: Bytes, pA: Bytes, pB: Bytes, a: Bytes, b: Bytes)
    requires Injective(s)
    requires ServerMac(s, KeysFrom(s, t).confirm, pA, pB) == ServerMac(s, KeysFrom(s, u).confirm, a, b)
    ensures KeysFrom(s, t) == KeysFrom(s, u)
  {
    assert s.kdf(s.hash(t)).1 == s.kdf(s.hash(u)).1;
  }

  lemma ClientSafe<P(!new)>(s: Suite<P>, c: ClientSetup, x: World, w: Write)
    requires s.order > 0 && Injective(s) && Safe(s, x)
    ensures Safe(s, ClientStep(s, c, x, w))
  {
    var y := ClientStep(s, c, x, w);
    if y.client.ClientDone? && !x.client.ClientDone? {
      var m := x.toClient[0];
      assert CompleteOk(s, x.accepted, m);
      var u: Bytes, a: Bytes, b: Bytes :|
        m.mac == ServerMac(s, KeysFrom(s, u).confirm, a, b) && x.accepted == Some(KeysFrom(s, u).secret);
      var t: Bytes :| x.client.keys == KeysFrom(s, t);
      MacBindsKeys(s, t, u, s.marshal(PublicA(s, c)), x.client.pB, a, b);
    }
  }

  /** Once the client is done, the server's decision is made. */
  lemma DecidedBeforeDone<P(!new)>(s: Suite<P>, h: Held<P>, x: World, w: Write)
    requires s.order > 0 && Safe(s, x) && x.client.ClientDone?
    ensures Safe(s, ServerStep(s, h, x, w))
  {
  }

  /** In every run, whatever codes and identities the two parties hold and wherever the connection
      fails, a key returned by either side is the key the server accepted; so two returned keys are equal. */
  lemma {:induction false} AgreementAlways<P(!new)>(s: Suite<P>, c: ClientSetup, h: Held<P>, es: seq<Event>)
    requires s.order > 0 && Injective(s)
    ensures var x := Run(s, c, h, es);
            && Safe(s, x)
            && (x.client.ClientDone? ==> x.accepted == Some(x.client.key))
            && (x.server.ServerDone? ==> x.accepted == Some(x.server.key))
            && (x.client.ClientDone? && x.server.ServerDone? ==> x.client.key == x.server.key)
  {
    hide ClientStep, ServerStep;
    if es != [] {
      var init, e := es[..|es| - 1], es[|es| - 1];
      AgreementAlways(s, c, h, init);
      var x := Run(s, c, h, init);
      match e {
        case ClientRuns(w) => ClientSafe(s, c, x, w);
        case ServerRuns(w) =>
          if x.client.ClientDone? {
            DecidedBeforeDone(s, h, x, w);
          } else {
            ServerSafe(s, h, x, w);
          }
        case ClientBreaks =>
        case ServerBreaks =>
      }
    }
  }

  // ---- Completeness: without failures the handshake goes through exactly when the setups match ----

  /** A party runs and none of its writes fails. */
  predicate Smooth(e: Event) {
    e == ClientRuns(Sent) || e == ServerRuns(Sent)
  }

  predicate AllSmooth(es: seq<Event>) {
    forall e :: e in es ==> Smooth(e)
  }

  /** The parties taking turns, the client first. */
  function Stage<P>(s: Suite<P>, c: ClientSetup, h: Held<P>, k: nat): World
    requires s.order > 0
  {
    if k == 0 then Begin
    else if k % 2 == 1 then ClientStep(s, c, Stage(s, c, h, k - 1), Sent)
    else ServerStep(s, h, Stage(s, c, h, k - 1), Sent)
  }

  /** How many turns of the five a sequence of events amounts to: an event out of turn changes nothing. */
  function Position(es: seq<Event>): nat {
    if es == [] then 0
    else
      var k := Position(es[..|es| - 1]);
      if k < 5 && (k % 2 == 0 <==> es[|es| - 1].ClientRuns?) then k + 1 else k
  }

  /** The state after each turn. */
  lemma Stages<P(!new)>(s: Suite<P>, c: ClientSetup, d: ServerSetup)
    requires s.order > 0 && PointCodec(s) && Encodable(s, c, d)
    requires KeysOfClient(s, c, d).Ok? && KeysOfServer(s, c, d).Ok?
    ensures var h := HeldFor(s, d);
            var pA, pB := s.marshal(PublicA(s, c)), s.marshal(PublicB(s, d));
            var kc, ks := KeysOfClient(s, c, d).value, KeysOfServer(s, c, d).value;
            var confirm := Confirm(ClientMac(s, kc.confirm, pA, pB));
            && Stage(s, c, h, 1) == World(AwaitResponse, AwaitRequest, None, [Request(pA, c.clientId)], [])
            && Stage(s, c, h, 2) == World(AwaitResponse, AwaitConfirm(ks, pA), None, [], [Response(pB)])
            && Stage(s, c, h, 3) == World(AwaitComplete(kc, pB), AwaitConfirm(ks, pA), None, [confirm], [])
            && Stage(s, c, h, 4) == AfterConfirm(s, kc, ks, pA, pB)
  {
    hide ClientStep, ServerStep, KeysOfClient, KeysOfServer, ClientMac, AfterConfirm, Encodable;
    KeysAreSteps(s, c, d);
    var h := HeldFor(s, d);
    var pA, pB := s.marshal(PublicA(s, c)), s.marshal(PublicB(s, d));
    var kc, ks := KeysOfClient(s, c, d).value, KeysOfServer(s, c, d).value;
    assert Stage(s, c, h, 1) == ClientStep(s, c, Begin, Sent);
    Turn1(s, c, d);
    assert Stage(s, c, h, 2) == ServerStep(s, h, Stage(s, c, h, 1), Sent);
    Turn2(s, c, d);
    assert Stage(s, c, h, 3) == ClientStep(s, c, Stage(s, c, h, 2), Sent);
    Turn3(s, c, d, ks);
    assert Stage(s, c, h, 4) == ServerStep(s, h, Stage(s, c, h, 3), Sent);
    Turn4(s, c, d, kc, ks);
  }

  lemma Turn1<P(!new)>(s: Suite<P>, c: ClientSetup, d: ServerSetup)
    requires s.order > 0 && Encodable(s, c, d)
    ensures ClientStep(s, c, Begin, Sent) ==
            World(AwaitResponse, AwaitRequest, None, [Request(s.marshal(PublicA(s, c)), c.clientId)], [])
  {
    hide ClientKeys;
  }

  lemma Turn2<P(!new)>(s: Suite<P>, c: ClientSetup, d: ServerSetup)
    requires s.order > 0 && PointCodec(s) && Encodable(s, c, d) && KeysOfServer(s, c, d).Ok?
    ensures var pA := s.marshal(PublicA(s, c));
            ServerStep(s, HeldFor(s, d), World(AwaitResponse, AwaitRequest, None, [Request(pA, c.clientId)], []),
                       Sent) ==
            World(AwaitResponse, AwaitConfirm(KeysOfServer(s, c, d).value, pA), None, [],
                  [Response(s.marshal(PublicB(s, d)))])
  {
    hide ServerKeys;
  }

  lemma Turn3<P(!new)>(s: Suite<P>, c: ClientSetup, d: ServerSetup, ks: Keys)
    requires s.order > 0 && PointCodec(s) && Encodable(s, c, d) && KeysOfClient(s, c, d).Ok?
    ensures var pA, pB, kc := s.marshal(PublicA(s, c)), s.marshal(PublicB(s, d)), KeysOfClient(s, c, d).value;
            ClientStep(s, c, World(AwaitResponse, AwaitConfirm(ks, pA), None, [], [Response(pB)]), Sent) ==
            World(AwaitComplete(kc, pB), AwaitConfirm(ks, pA), None, [Confirm(ClientMac(s, kc.confirm, pA, pB))], [])
  {
    hide ClientKeys, ClientMac;
  }

  lemma Turn4<P(!new)>(s: Suite<P>, c: ClientSetup, d: ServerSetup, kc: Keys, ks: Keys)
    requires s.order > 0 && Encodable(s, c, d)
    ensures var pA, pB := s.marshal(PublicA(s, c)), s.marshal(PublicB(s, d));
            ServerStep(s, HeldFor(s, d),
                       World(AwaitComplete(kc, pB), AwaitConfirm(ks, pA), None,
                             [Confirm(ClientMac(s, kc.confirm, pA, pB))], []), Sent) ==
            AfterConfirm(s, kc, ks, pA, pB)
  {
    hide ClientMac, ServerMac;
  }

  lemma KeysAreSteps<P(!new)>(s: Suite<P>, c: ClientSetup, d: ServerSetup)
    requires s.order > 0
    ensures KeysOfServer(s, c, d) ==
            ServerKeys(s, HeldFor(s, d).clientId, HeldFor(s, d).serverId, HeldFor(s, d).y, HeldFor(s, d).w0,
                       HeldFor(s, d).l, s.marshal(PublicA(s, c)), s.marshal(PublicB(s, d)))
    ensures PublicB(s, d) == ServerPoint(s, HeldFor(s, d).y, HeldFor(s, d).w0)
    ensures KeysOfClient(s, c, d) ==
            ClientKeys(s, c.clientId, c.serverId, c.x, ClientW(s, c).0, ClientW(s, c).1,
                       s.marshal(PublicA(s, c)), s.marshal(PublicB(s, d)))
  {
  }

  /** The server has judged the client's confirmation and answered. */
  function AfterConfirm<P>(s: Suite<P>, kc: Keys, ks: Keys, pA: Bytes, pB: Bytes): World {
    var ok := ClientMac(s, kc.confirm, pA, pB) == ClientMac(s, ks.confirm, pA, pB);
    World(AwaitComplete(kc, pB), if ok then ServerDone(ks.secret) else ServerFailed,
          if ok then Some(ks.secret) else None, [],
          [Complete(ServerMac(s, ks.confirm, pA, pB), if ok then SUCCESS else CONFIRM_FAILED)])
  }

  /** The last turn: both are done, or both have failed. */
  lemma LastStage<P(!new)>(s: Suite<P>, c: ClientSetup, d: ServerSetup)
    requires s.order > 0 && Injective(s) && PointCodec(s) && Encodable(s, c, d)
    requires KeysOfClient(s, c, d).Ok? && KeysOfServer(s, c, d).Ok?
    ensures var x4, x5 := Stage(s, c, HeldFor(s, d), 4), Stage(s, c, HeldFor(s, d), 5);
            var kc, ks := KeysOfClient(s, c, d).value, KeysOfServer(s, c, d).value;
            && x4.client.AwaitComplete? && x5.toServer == x5.toClient == []
            && if kc.confirm == ks.confirm
               then x4.server == ServerDone(ks.secret) && x5 == x4.(client := ClientDone(kc.secret), toClient := [])
               else x4.server == ServerFailed && x4.accepted == None &&
                    x5 == x4.(client := ClientFailed, toClient := [])
  {
    hide KeysOfClient, KeysOfServer, Encodable, PointCodec;
    Stages(s, c, d);
    var pA, pB := s.marshal(PublicA(s, c)), s.marshal(PublicB(s, d));
    var kc, ks := KeysOfClient(s, c, d).value, KeysOfServer(s, c, d).value;
    assert kc.confirm != ks.confirm ==> ClientMac(s, kc.confirm, pA, pB) != ClientMac(s, ks.confirm, pA, pB);
    assert |Stage(s, c, HeldFor(s, d), 4).toClient| == 1;
  }

  /** A turn changes the state, and running out of turn does not. */
  lemma OnlyTurnsCount<P(!new)>(s: Suite<P>, c: ClientSetup, d: ServerSetup, k: nat)
    requires s.order > 0 && Injective(s) && PointCodec(s) && Encodable(s, c, d) && k <= 5
    requires KeysOfClient(s, c, d).Ok? && KeysOfServer(s, c, d).Ok?
    ensures var h := HeldFor(s, d);
            var x := Stage(s, c, h, k);
            && (k % 2 == 1 || k == 5 ==> ClientStep(s, c, x, Sent) == x)
            && (k % 2 == 0 || k == 5 ==> ServerStep(s, h, x, Sent) == x)
            && (k < 5 ==> Stage(s, c, h, k + 1) != x)
  {
    hide KeysOfClient, KeysOfServer, Encodable, PointCodec, ClientKeys, ServerKeys, Injective, ServerPoint, PublicA;
    Stages(s, c, d);
    LastStage(s, c, d);
    assert k == 0 || k == 1 || k == 2 || k == 3 || k == 4 || k == 5;
  }

  /** In whatever order the parties run, the run is at one of the stages. */
  lemma {:induction false} RunIsStage<P(!new)>(s: Suite<P>, c: ClientSetup, d: ServerSetup, es: seq<Event>)
    requires s.order > 0 && Injective(s) && PointCodec(s) && Encodable(s, c, d) && AllSmooth(es)
    requires KeysOfClient(s, c, d).Ok? && KeysOfServer(s, c, d).Ok?
    ensures Position(es) <= 5 && Run(s, c, HeldFor(s, d), es) == Stage(s, c, HeldFor(s, d), Position(es))
  {
    hide ClientStep, ServerStep, KeysOfClient, KeysOfServer, Encodable, PointCodec, Injective;
    if es != [] {
      var init, e := es[..|es| - 1], es[|es| - 1];
      assert e in es && forall d :: d in init ==> d in es;
      RunIsStage(s, c, d, init);
      OnlyTurnsCount(s, c, d, Position(init));
    }
  }

  /** Neither party can do anything any more. */
  predicate Settled<P>(s: Suite<P>, c: ClientSetup, h: Held<P>, x: World)
    requires s.order > 0
  {
    ClientStep(s, c, x, Sent) == x && ServerStep(s, h, x, Sent) == x
  }

  predicate NeitherFailed(x: World) {
    !x.client.ClientFailed? && !x.server.ServerFailed?
  }

  predicate NeitherDone(x: World) {
    !x.client.ClientDone? && !x.server.ServerDone? && x.accepted == None
  }

  lemma StageOutcome<P(!new)>(s: Suite<P>, c: ClientSetup, d: ServerSetup, k: nat)
    requires s.order > 0 && Injective(s) && PointCodec(s) && Encodable(s, c, d) && k <= 5
    requires KeysOfClient(s, c, d).Ok? && KeysOfServer(s, c, d).Ok?
    ensures var h, x := HeldFor(s, d), Stage(s, c, HeldFor(s, d), k);
            var kc, ks := KeysOfClient(s, c, d).value, KeysOfServer(s, c, d).value;
            && (Settled(s, c, h, x) <==> k == 5)
            && if kc.confirm == ks.confirm
               then NeitherFailed(x) &&
                    (k == 5 ==> x.client == ClientDone(kc.secret) && x.server == ServerDone(ks.secret))
               else NeitherDone(x) && (k == 5 ==> x.client == ClientFailed && x.server == ServerFailed)
  {
    hide KeysOfClient, KeysOfServer, Encodable, PointCodec, Injective, ClientStep, ServerStep;
    Stages(s, c, d);
    LastStage(s, c, d);
    OnlyTurnsCount(s, c, d, k);
    assert k == 0 || k == 1 || k == 2 || k == 3 || k == 4 || k == 5;
  }

  /** The run has not gone wrong, and if neither party can go on, both have returned one key. */
  ghost predicate GoesThrough<P>(s: Suite<P>, c: ClientSetup, h: Held<P>, x: World)
    requires s.order > 0
  {
    NeitherFailed(x) && (Settled(s, c, h, x) ==>
      exists key :: x.client == ClientDone(key) && x.server == ServerDone(key) && x.accepted == Some(key))
  }

  /** No key has been returned, and if neither party can go on, both have failed. */
  predicate GoesNowhere<P>(s: Suite<P>, c: ClientSetup, h: Held<P>, x: World)
    requires s.order > 0
  {
    NeitherDone(x) && (Settled(s, c, h, x) ==> x.client == ClientFailed && x.server == ServerFailed)
  }

  /** In every run without failures, in whatever order the parties run: if the setups match, neither side
      ever fails, and once neither can go on both have returned one key; if they do not match, neither
      side ever returns a key, and once neither can go on both have failed. An ambiguous transcript ends in
      one of these two ways. */
  lemma HandshakeIff<P(!new)>(s: Suite<P>, c: ClientSetup, d: ServerSetup, es: seq<Event>)
    requires s.order > 0 && Assumptions(s) && Encodable(s, c, d) && AllSmooth(es)
    requires KeysOfClient(s, c, d).Ok? && KeysOfServer(s, c, d).Ok?
    ensures var h, x := HeldFor(s, d), Run(s, c, HeldFor(s, d), es);
            if Matching(s, c, d) then GoesThrough(s, c, h, x)
            else if !Ambiguous(s, c, d) then GoesNowhere(s, c, h, x)
            else GoesThrough(s, c, h, x) || GoesNowhere(s, c, h, x)
  {
    hide Run, Stage, Settled, KeysOfClient, KeysOfServer, Matching, Ambiguous;
    RunIsStage(s, c, d, es);
    StageOutcome(s, c, d, Position(es));
    KeysEqualIff(s, c, d);
    AgreementAlways(s, c, HeldFor(s, d), es);
  }

  /** The same setup code and identities, and proper ephemeral scalars: no run without failures goes
      wrong, and once neither side can go on both have returned one key. */
  lemma MatchingHandshake<P(!new)>(s: Suite<P>, c: ClientSetup, d: ServerSetup, es: seq<Event>)
    requires s.order > 0 && Assumptions(s) && Encodable(s, c, d) && AllSmooth(es)
    requires c.code == d.code && c.clientId == d.clientId && c.serverId == d.serverId
    requires !MultipleOf(c.x, s.order) && !MultipleOf(d.y, s.order)
    ensures GoesThrough(s, c, HeldFor(s, d), Run(s, c, HeldFor(s, d), es))
  {
    hide Run, Settled, KeysOfClient, KeysOfServer, Encodable;
    KeysExistIff(s, c, d);
    KeysAgree(s, c, d);
    HandshakeIff(s, c, d, es);
  }

  const ROUND := [ClientRuns(Sent), ServerRuns(Sent)]

  lemma PositionNext(es: seq<Event>)
    ensures Position(es + ROUND) >= if Position(es) < 4 then Position(es) + 1 else 5
    ensures Position(es) <= 5 ==> Position(es + ROUND) <= 5
  {
    var mid := es + [ClientRuns(Sent)];
    assert mid[..|es|] == es && (es + ROUND)[..|es| + 1] == mid;
    assert Position(es + ROUND) ==
           if Position(mid) < 5 && Position(mid) % 2 == 1 then Position(mid) + 1 else Position(mid);
  }

  /** Every such run settles: a few more rounds in which each party runs once are enough. */
  lemma RoundsSettle<P(!new)>(s: Suite<P>, c: ClientSetup, d: ServerSetup, es: seq<Event>)
    requires s.order > 0 && Injective(s) && PointCodec(s) && Encodable(s, c, d) && AllSmooth(es)
    requires KeysOfClient(s, c, d).Ok? && KeysOfServer(s, c, d).Ok?
    ensures var h := HeldFor(s, d);
            Settled(s, c, h, Run(s, c, h, es + ROUND + ROUND + ROUND + ROUND + ROUND))
  {
    hide Run, Stage, Settled, KeysOfClient, KeysOfServer, Encodable, PointCodec, Injective, Position;
    var e1, e2 := es + ROUND, es + ROUND + ROUND;
    var e3, e4 := e2 + ROUND, e2 + ROUND + ROUND;
    var e5 := e4 + ROUND;
    PositionNext(es);
    PositionNext(e1);
    PositionNext(e2);
    PositionNext(e3);
    PositionNext(e4);
    assert AllSmooth(e5);
    RunIsStage(s, c, d, e5);
    StageOutcome(s, c, d, Position(e5));
  }

  // ---- Authentication: no run yields a key to parties whose setups do not match ----

  /** Both sides derive keys, and the same ones. */
  predicate SameKeys<P>(s: Suite<P>, c: ClientSetup, d: ServerSetup)
    requires s.order > 0
  {
    KeysOfClient(s, c, d).Ok? && KeysOfClient(s, c, d) == KeysOfServer(s, c, d)
  }

  predicate ToServerTraced<P(==)>(s: Suite<P>, c: ClientSetup, d: ServerSetup, m: Message)
    requires s.order > 0
  {
    var pA, pB := s.marshal(PublicA(s, c)), s.marshal(PublicB(s, d));
    && (m.Request? ==> PublicA(s, c) != s.zero && m.publicValue == pA)
    && (m.Confirm? ==> KeysOfClient(s, c, d).Ok? && m.mac == ClientMac(s, KeysOfClient(s, c, d).value.confirm, pA, pB))
  }

  predicate ToClientTraced<P(==)>(s: Suite<P>, c: ClientSetup, d: ServerSetup, m: Message)
    requires s.order > 0
  {
    m.Response? ==> KeysOfServer(s, c, d).Ok? && PublicB(s, d) != s.zero && m.publicValue == s.marshal(PublicB(s, d))
  }

  /** Every message in flight, and what each party knows, goes back to the two setups. */
  ghost predicate Traced<P>(s: Suite<P>, c: ClientSetup, d: ServerSetup, x: World)
    requires s.order > 0
  {
    && (forall i :: 0 <= i < |x.toServer| ==> ToServerTraced(s, c, d, x.toServer[i]))
    && (forall i :: 0 <= i < |x.toClient| ==> ToClientTraced(s, c, d, x.toClient[i]))
    && (x.client.AwaitResponse? ==> PublicA(s, c) != s.zero)
    && (x.client.AwaitComplete? ==> x.client.pB == s.marshal(PublicB(s, d)))
    && (x.server.AwaitConfirm? ==>
          && PublicA(s, c) != s.zero && PublicB(s, d) != s.zero
          && x.server.pA == s.marshal(PublicA(s, c)) && KeysOfServer(s, c, d) == Ok(x.server.keys))
    && (x.accepted.Some? ==>
          && PublicA(s, c) != s.zero && PublicB(s, d) != s.zero && SameKeys(s, c, d)
          && x.accepted.value == KeysOfServer(s, c, d).value.secret)
  }

  /** A client confirmation that verifies was made under the server's own keys. */
  lemma ConfirmBindsKeys<P(!new)>(s: Suite<P>, c: ClientSetup, d: ServerSetup, pA: Bytes, pB: Bytes)
    requires s.order > 0 && Injective(s) && KeysOfClient(s, c, d).Ok? && KeysOfServer(s, c, d).Ok?
    requires ClientMac(s, KeysOfClient(s, c, d).value.confirm, pA, pB) ==
             ClientMac(s, KeysOfServer(s, c, d).value.confirm, pA, pB)
    ensures SameKeys(s, c, d)
  {
  }

  lemma ServerTraced<P(!new)>(s: Suite<P>, c: ClientSetup, d: ServerSetup, x: World, w: Write)
    requires s.order > 0 && Injective(s) && Traced(s, c, d, x)
    ensures Traced(s, c, d, ServerStep(s, HeldFor(s, d), x, w))
  {
    hide ClientKeys, ServerKeys, KeysOfClient, KeysOfServer, SameKeys, ClientMac, ServerMac, Injective, PublicA;
    KeysAreSteps(s, c, d);
    var y := ServerStep(s, HeldFor(s, d), x, w);
    if x.server.AwaitConfirm? && x.toServer != [] && x.toServer[0].Confirm? && y.accepted.Some? {
      ConfirmBindsKeys(s, c, d, s.marshal(PublicA(s, c)), s.marshal(PublicB(s, d)));
    }
  }

  lemma ClientTraced<P(!new)>(s: Suite<P>, c: ClientSetup, d: ServerSetup, x: World, w: Write)
    requires s.order > 0 && Traced(s, c, d, x)
    ensures Traced(s, c, d, ClientStep(s, c, x, w))
  {
    hide ClientKeys, ServerKeys, KeysOfClient, KeysOfServer, SameKeys, ClientMac, ServerMac, PublicA;
    KeysAreSteps(s, c, d);
  }

  lemma {:induction false} TracedAlways<P(!new)>(s: Suite<P>, c: ClientSetup, d: ServerSetup, es: seq<Event>)
    requires s.order > 0 && Injective(s)
    ensures Traced(s, c, d, Run(s, c, HeldFor(s, d), es))
  {
    hide ClientStep, ServerStep, SameKeys, ToServerTraced, ToClientTraced, PublicA, PublicB;
    if es != [] {
      var init, e := es[..|es| - 1], es[|es| - 1];
      TracedAlways(s, c, d, init);
      var x := Run(s, c, HeldFor(s, d), init);
      match e {
        case ClientRuns(w) => ClientTraced(s, c, d, x, w);
        case ServerRuns(w) => ServerTraced(s, c, d, x, w);
        case ClientBreaks =>
        case ServerBreaks =>
      }
    }
  }

  lemma {:induction false} MulZero<P(!new)>(s: Suite<P>, k: nat)
    requires AbelianGroup(s)
    ensures Mul(s, k, s.zero) == s.zero
  {
    if k > 0 {
      MulZero(s, k - 1);
      assert HasUnitAndInverse(s, s.zero);
    }
  }

  /** In every run, whatever is lost or fails: a key is returned, or accepted, only if both sides derive
      the same keys; so only if the setups match or the transcript is ambiguous. A side whose own derivation
      fails never comes to share a key. */
  lemma KeysOnlyIfMatching<P(!new)>(s: Suite<P>, c: ClientSetup, d: ServerSetup, es: seq<Event>)
    requires s.order > 0 && Assumptions(s)
    ensures var x := Run(s, c, HeldFor(s, d), es);
            !NeitherDone(x) ==>
              Encodable(s, c, d) && SameKeys(s, c, d) && (Matching(s, c, d) || Ambiguous(s, c, d))
  {
    hide Run, Traced, Matching, Ambiguous, Safe;
    AgreementAlways(s, c, HeldFor(s, d), es);
    TracedAlways(s, c, d, es);
    var x := Run(s, c, HeldFor(s, d), es);
    if !NeitherDone(x) {
      TracedAccepted(s, c, d, x);
      VerifierProper(s, c, d);
      KeysEqualIff(s, c, d);
    }
  }

  lemma TracedAccepted<P(!new)>(s: Suite<P>, c: ClientSetup, d: ServerSetup, x: World)
    requires s.order > 0 && Traced(s, c, d, x) && x.accepted.Some?
    ensures PublicA(s, c) != s.zero && PublicB(s, d) != s.zero && SameKeys(s, c, d)
  {
  }

  /** A server that derives keys has a verifier whose point is not the identity. */
  lemma VerifierProper<P(!new)>(s: Suite<P>, c: ClientSetup, d: ServerSetup)
    requires s.order > 0 && AbelianGroup(s) && KeysOfServer(s, c, d).Ok?
    ensures VerifierPoint(s, d) != s.zero
  {
    hide AbelianGroup;
    MulZero(s, d.y);
  }
}
