/** The two handshake procedures in the order in which each party performs its writes and reads. */
module PaseSession {
  import opened Wrappers
  import opened Spake2Plus
  import opened KeyAgreement
  import opened PaseRuns

  /** One party's end of the connection: what is still to be read from it, and what was written to it.
      A read that finds nothing fails. */
  class Connection {
    var inbox: seq<Message>
    var sent: seq<Message>

    constructor (arriving: seq<Message>)
      ensures inbox == arriving && sent == []
    {
      inbox, sent := arriving, [];
    }

    method Read() returns (m: Option<Message>)
      modifies this`inbox
      ensures m == if old(inbox) == [] then None else Some(old(inbox)[0])
      ensures inbox == if old(inbox) == [] then [] else old(inbox)[1..]
    {
      if inbox == [] {
        return None;
      }
      m := Some(inbox[0]);
      inbox := inbox[1..];
    }

    method WriteMessage(m: Message, w: Write) returns (ok: bool)
      modifies this`sent
      ensures ok == w.Succeeds() && sent == w.Onto(old(sent), m)
    {
      if w.NotSent? {
        return false;
      }
      sent := sent + [m];
      ok := w.Sent?;
    }
  }

  /** Three turns of the client, the last of which writes nothing. */
  function ClientTurns<P>(s: Suite<P>, c: ClientSetup, x: World, w1: Write, w2: Write): World
    requires s.order > 0
  {
    ClientStep(s, c, ClientStep(s, c, ClientStep(s, c, x, w1), w2), Sent)
  }

  function ServerTurns<P>(s: Suite<P>, h: Held<P>, x: World, w1: Write, w2: Write): World {
    ServerStep(s, h, ServerStep(s, h, x, w1), w2)
  }

  class PASEClientSession<P(==)> {
    const setup: ClientSetup
    const spake: Client<P>

    ghost predicate Ready()
      reads this, spake
    {
      && spake.s.order > 0 && spake.Valid()
      && spake.clientId == setup.clientId && spake.serverId == setup.serverId && spake.x == setup.x
      && (spake.w0, spake.w1) == ClientW(spake.s, setup)
    }

    constructor (s: Suite<P>, c: ClientSetup)
      requires s.order > 0
      ensures Ready() && setup == c && spake.s == s && fresh(spake)
    {
      setup := c;
      spake := new Client(s, c.code, c.clientId, c.serverId, c.x);
    }

    /** The key it returns, if any, and everything it reads and writes are those of three client turns
        of a run. */
    method Handshake(conn: Connection, w1: Write, w2: Write) returns (key: Option<Bytes>)
      requires Ready()
      modifies conn, spake
      ensures var x := ClientTurns(spake.s, setup,
                                   World(ClientReady, AwaitRequest, None, old(conn.sent), old(conn.inbox)), w1, w2);
              && key == (if x.client.ClientDone? then Some(x.client.key) else None)
              && conn.sent == x.toServer && conn.inbox == x.toClient
    {
      ghost var x0 := World(ClientReady, AwaitRequest, None, conn.sent, conn.inbox);
      ghost var x1 := ClientStep(spake.s, setup, x0, w1);
      ghost var x2 := ClientStep(spake.s, setup, x1, w2);
      var public := spake.PublicValue();
      if public.None? {
        return None;
      }
      var ok := conn.WriteMessage(Request(public.value, setup.clientId), w1);
      assert x1 == x0.(client := if ok then AwaitResponse else ClientFailed, toServer := conn.sent);
      if !ok {
        return None;
      }
      var msg := conn.Read();
      if msg.None? || !msg.value.Response? {
        return None;
      }
      var processed := spake.ProcessServerValue(msg.value.publicValue);
      if processed.Err? {
        return None;
      }
      var confirmation := spake.Confirmation();
      ok := conn.WriteMessage(Confirm(confirmation), w2);
      assert x2 == x1.(client := if ok then AwaitComplete(spake.keys.value, spake.pB) else ClientFailed,
                       toServer := conn.sent, toClient := conn.inbox);
      if !ok {
        return None;
      }
      msg := conn.Read();
      if msg.None? || !msg.value.Complete? || msg.value.code != SUCCESS {
        return None;
      }
      var verified := spake.VerifyServerConfirmation(msg.value.mac);
      if !verified {
        return None;
      }
      return Some(spake.keys.value.secret);
    }
  }

  class PASEServerSession<P(==)> {
    const spake: Server<P>

    /** What the server's turns of a run work with. */
    function Holds(): Held<P> {
      Held(spake.verifier.identity, spake.serverId, spake.y, spake.w0, spake.l)
    }

    constructor (server: Server<P>)
      ensures spake == server
    {
      spake := server;
    }

    method WaitForPASERequest(conn: Connection) returns (publicValue: Option<Bytes>)
      modifies conn`inbox
      ensures conn.inbox == if old(conn.inbox) == [] then [] else old(conn.inbox)[1..]
      ensures publicValue == if old(conn.inbox) != [] && old(conn.inbox)[0].Request?
                             then Some(old(conn.inbox)[0].publicValue) else None
    {
      var msg := conn.Read();
      if msg.None? || !msg.value.Request? {
        return None;
      }
      return Some(msg.value.publicValue);
    }

    method CompleteHandshake(conn: Connection, publicValue: Bytes, w1: Write, w2: Write) returns (key: Option<Bytes>)
      requires spake.Valid()
      modifies conn, spake
      ensures forall id: Bytes :: Answers(spake.s, Holds(), Request(publicValue, id), old(conn.inbox), old(conn.sent),
                                          w1, w2, key, conn.inbox, conn.sent)
    {
      hide Mul, Sub, ServerKeys, ServerPoint, ClientMac, ServerMac;
      key := None;
      var processed := spake.ProcessClientValue(publicValue);
      if processed.Err? {
        if processed.error.InvalidPublicKey? {
          var _ := conn.WriteMessage(CommissioningError(INVALID_PUBLIC_KEY), w1);
        }
      } else {
        var ok := conn.WriteMessage(Response(spake.pB.value), w1);
        if ok {
          var msg := conn.Read();
          if msg.Some? && msg.value.Confirm? {
            var verified := spake.VerifyClientConfirmation(msg.value.mac);
            var confirmation := spake.Confirmation();
            var sent := conn.WriteMessage(Complete(confirmation, if verified then SUCCESS else CONFIRM_FAILED), w2);
            if sent && verified {
              key := Some(spake.keys.value.secret);
            }
          }
        }
      }
      forall id: Bytes
        ensures Answers(spake.s, Holds(), Request(publicValue, id), old(conn.inbox), old(conn.sent), w1, w2, key,
                        conn.inbox, conn.sent)
      {
        assert ([Request(publicValue, id)] + old(conn.inbox))[1..] == old(conn.inbox);
      }
    }
  }

  /** Fails exactly when there is no usable verifier. */
  method NewPASEServerSession<P>(suite: Suite<P>, stored: Option<Verifier>, serverId: Bytes, ephemeral: nat)
    returns (r: Result<PASEServerSession<P>, Failure>)
    ensures r.Ok? <==> stored.Some? && suite.decompress(stored.value.l).Some?
    ensures r.Ok? ==>
              && r.value.spake.Valid() && r.value.spake.s == suite
              && HeldFrom(suite, stored.value, serverId, ephemeral) == Some(r.value.Holds())
  {
    var server := NewSPAKE2PlusServer(suite, stored, serverId, ephemeral);
    if server.Err? {
      return Err(server.error);
    }
    var session := new PASEServerSession(server.value);
    return Ok(session);
  }

  /** What a stored verifier gives the server. */
  function HeldFrom<P>(s: Suite<P>, v: Verifier, serverId: Bytes, y: nat): Option<Held<P>> {
    match s.decompress(v.l)
    case None => None
    case Some(l) => Some(Held(v.identity, serverId, y, FromBytes(v.w0), l))
  }

  /** A verifier generated for a setup gives the server what the handshake results are about. */
  lemma GeneratedVerifierHeld<P(!new)>(s: Suite<P>, d: ServerSetup)
    requires s.order > 0 && PointCodec(s) && VerifierPoint(s, d) != s.zero
    ensures var v := GenerateVerifier(s, d.code, d.clientId, d.serverId);
            v.Some? && HeldFrom(s, v.value, d.serverId, d.y) == Some(HeldFor(s, d))
  {
    VerifierRoundTrip(s, d);
  }

  /** What the server returns, leaves unread and has written are those of two server turns of a run in
      which "request" and then the rest of the inbox arrive. */
  ghost predicate Answers<P>(s: Suite<P>, h: Held<P>, request: Message, inbox: seq<Message>, sent: seq<Message>,
                             w1: Write, w2: Write, key: Option<Bytes>, inbox': seq<Message>, sent': seq<Message>)
  {
    var x := ServerTurns(s, h, World(ClientReady, AwaitRequest, None, [request] + inbox, sent), w1, w2);
    && key == (if x.server.ServerDone? then Some(x.server.key) else None)
    && sent' == x.toClient && inbox' == x.toServer
  }
}
