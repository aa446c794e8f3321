/** What a session key depends on: the transcript, and through it the public values, the identities and the
    setup code; and what it is never confused with. */
module SessionKeys {
  import opened Wrappers
  import opened Spake2Plus
  import opened KeyAgreement
  import opened PaseRuns

  /** The first output of the key derivation idealised like the second, and never equal to one. */
  ghost predicate SecretsApart<P(!new)>(s: Suite<P>) {
    && (forall a, b :: s.kdf(a).0 == s.kdf(b).0 ==> a == b)
    && (forall a, b :: s.kdf(a).0 != s.kdf(b).1)
  }

  /** Shared secrets are the first output, equal exactly for equal transcripts, and no confirmation keys. */
  lemma SecretsEqualIff<P(!new)>(s: Suite<P>, t: Bytes, u: Bytes)
    requires Injective(s) && SecretsApart(s)
    ensures KeysFrom(s, t).secret == s.kdf(s.hash(t)).0
    ensures KeysFrom(s, t).secret == KeysFrom(s, u).secret <==> t == u
    ensures KeysFrom(s, t).secret != KeysFrom(s, u).confirm
  {
  }

  /** The client's confirmation is never the server's, whatever keys and values they are about. */
  lemma ConfirmationsDiffer<P(!new)>(s: Suite<P>, k: Bytes, pA: Bytes, pB: Bytes, l: Bytes, pA': Bytes, pB': Bytes)
    requires Injective(s)
    ensures ClientMac(s, k, pA, pB) != ServerMac(s, l, pA', pB')
  {
    assert (CLIENT_LABEL + pA + pB)[0] == 0x63 && (SERVER_LABEL + pB' + pA')[0] == 0x73;
  }

  /** A confirmation is made for one key and one pair of public values. */
  lemma ConfirmationsBind<P(!new)>(s: Suite<P>, k: Bytes, pA: Bytes, pB: Bytes, l: Bytes, pA': Bytes, pB': Bytes)
    requires Injective(s) && |pA| == |pA'| && |pB| == |pB'|
    ensures ClientMac(s, k, pA, pB) == ClientMac(s, l, pA', pB') <==> k == l && pA == pA' && pB == pB'
    ensures ServerMac(s, k, pA, pB) == ServerMac(s, l, pA', pB') <==> k == l && pA == pA' && pB == pB'
  {
    if CLIENT_LABEL + pA + pB == CLIENT_LABEL + pA' + pB' {
      SplitAt(CLIENT_LABEL + pA, pB, CLIENT_LABEL + pA', pB');
      SplitAt(CLIENT_LABEL, pA, CLIENT_LABEL, pA');
    }
    if SERVER_LABEL + pB + pA == SERVER_LABEL + pB' + pA' {
      SplitAt(SERVER_LABEL + pB, pA, SERVER_LABEL + pB', pA');
      SplitAt(SERVER_LABEL, pB, SERVER_LABEL, pB');
    }
  }

  /** Two parties complete a handshake when, in some run, the server accepts. */
  ghost predicate Completes<P>(s: Suite<P>, c: ClientSetup, d: ServerSetup, es: seq<Event>, key: Bytes)
    requires s.order > 0
  {
    Run(s, c, HeldFor(s, d), es).accepted == Some(key)
  }

  /** The key of a completed handshake is the shared secret of its transcript. */
  lemma CompletedKey<P(!new)>(s: Suite<P>, c: ClientSetup, d: ServerSetup, es: seq<Event>, key: Bytes)
    requires s.order > 0 && Assumptions(s) && Completes(s, c, d, es, key)
    ensures key == s.kdf(s.hash(ServerTranscript(s, c, d))).0
    ensures PublicA(s, c) != s.zero && PublicB(s, d) != s.zero && ServerZ(s, c, d) != s.zero && ServerV(s, d) != s.zero
  {
    hide Run, Safe, Matching, Ambiguous, Traced, ServerTranscript;
    TracedAlways(s, c, d, es);
    KeysOnlyIfMatching(s, c, d, es);
    AcceptedSecret(s, c, d, Run(s, c, HeldFor(s, d), es));
    SecretOfServer(s, c, d);
  }

  lemma AcceptedSecret<P(!new)>(s: Suite<P>, c: ClientSetup, d: ServerSetup, x: World)
    requires s.order > 0 && Traced(s, c, d, x) && x.accepted.Some?
    ensures KeysOfServer(s, c, d).Ok? && x.accepted.value == KeysOfServer(s, c, d).value.secret
  {
  }

  lemma SecretOfServer<P(!new)>(s: Suite<P>, c: ClientSetup, d: ServerSetup)
    requires s.order > 0 && PointCodec(s) && Encodable(s, c, d)
    requires KeysOfClient(s, c, d).Ok? && KeysOfServer(s, c, d).Ok?
    ensures KeysOfServer(s, c, d).value.secret == s.kdf(s.hash(ServerTranscript(s, c, d))).0
    ensures ServerZ(s, c, d) != s.zero && ServerV(s, d) != s.zero
  {
    KeysUnfold(s, c, d);
  }

  /** Two completed handshakes, of whatever parties, have the same key exactly when they have the same
      transcript; and no session key is a confirmation key of any handshake. */
  lemma SessionsEqualIff<P(!new)>(s: Suite<P>, c: ClientSetup, d: ServerSetup, es: seq<Event>, key: Bytes,
                                  c': ClientSetup, d': ServerSetup, es': seq<Event>, key': Bytes)
    requires s.order > 0 && Assumptions(s) && SecretsApart(s)
    requires Completes(s, c, d, es, key) && Completes(s, c', d', es', key')
    ensures key == key' <==> ServerTranscript(s, c, d) == ServerTranscript(s, c', d')
    ensures KeysOfServer(s, c', d').Ok? && key != KeysOfServer(s, c', d').value.confirm
  {
    hide Completes, ServerTranscript, KeysOfServer, PrimeOrder, AbelianGroup, PointCodec;
    CompletedKey(s, c, d, es, key);
    CompletedKey(s, c', d', es', key');
    ConfirmOfServer(s, c', d', es', key');
  }

  lemma ConfirmOfServer<P(!new)>(s: Suite<P>, c: ClientSetup, d: ServerSetup, es: seq<Event>, key: Bytes)
    requires s.order > 0 && Assumptions(s) && Completes(s, c, d, es, key)
    ensures KeysOfServer(s, c, d).Ok?
    ensures exists t :: KeysOfServer(s, c, d).value.confirm == s.kdf(t).1
  {
    hide Run, Safe, Matching, Ambiguous, Traced;
    TracedAlways(s, c, d, es);
    KeysOnlyIfMatching(s, c, d, es);
    KeysUnfold(s, c, d);
    assert KeysOfServer(s, c, d).value.confirm == s.kdf(s.hash(ServerTranscript(s, c, d))).1;
  }

  /** With identities of the same total length, sessions with different public values have different keys:
      a fresh ephemeral scalar gives a fresh key. */
  lemma FreshSessions<P(!new)>(s: Suite<P>, c: ClientSetup, d: ServerSetup, es: seq<Event>, key: Bytes,
                               c': ClientSetup, d': ServerSetup, es': seq<Event>, key': Bytes)
    requires s.order > 0 && Assumptions(s) && SecretsApart(s)
    requires Completes(s, c, d, es, key) && Completes(s, c', d', es', key')
    requires JoinedLength(d.clientId, d.serverId) == JoinedLength(d'.clientId, d'.serverId)
    requires key == key'
    ensures PublicA(s, c) == PublicA(s, c') && PublicB(s, d) == PublicB(s, d')
    ensures d.clientId + d.serverId == d'.clientId + d'.serverId && ServerW(s, d).0 == ServerW(s, d').0
  {
    hide Completes, PrimeOrder, AbelianGroup, Injective, ServerZ, ServerV, PublicA, PublicB;
    SessionsEqualIff(s, c, d, es, key, c', d', es', key');
    CompletedKey(s, c, d, es, key);
    CompletedKey(s, c', d', es', key');
    WholeTranscript(s, d.clientId, d.serverId, PublicA(s, c), PublicB(s, d), ServerZ(s, c, d), ServerV(s, d),
                    ServerW(s, d).0,
                    d'.clientId, d'.serverId, PublicA(s, c'), PublicB(s, d'), ServerZ(s, c', d'), ServerV(s, d'),
                    ServerW(s, d').0);
  }

  lemma WholeTranscript<P(!new)>(s: Suite<P>, ci: Bytes, cs: Bytes, a: P, b: P, z: P, v: P, w: nat,
                                 ci': Bytes, cs': Bytes, a': P, b': P, z': P, v': P, w': nat)
    requires PointCodec(s) && JoinedLength(ci, cs) == JoinedLength(ci', cs')
    requires a != s.zero && b != s.zero && z != s.zero && v != s.zero
    requires a' != s.zero && b' != s.zero && z' != s.zero && v' != s.zero
    requires Transcript(s, ci, cs, s.marshal(a), s.marshal(b), z, v, w) ==
             Transcript(s, ci', cs', s.marshal(a'), s.marshal(b'), z', v', w')
    ensures ci + cs == ci' + cs' && a == a' && b == b' && z == z' && v == v' && w == w'
  {
    var pA, pB, pA', pB' := s.marshal(a), s.marshal(b), s.marshal(a'), s.marshal(b');
    var r := s.marshal(z) + s.marshal(v) + ScalarBytes(w);
    var r' := s.marshal(z') + s.marshal(v') + ScalarBytes(w');
    assert Transcript(s, ci, cs, pA, pB, z, v, w) == (ci + cs) + (pA + (pB + r));
    assert Transcript(s, ci', cs', pA', pB', z', v', w') == (ci' + cs') + (pA' + (pB' + r'));
    SplitAt(ci + cs, pA + (pB + r), ci' + cs', pA' + (pB' + r'));
    SplitAt(pA, pB + r, pA', pB' + r');
    SplitAt(pB, r, pB', r');
    assert Some(a) == s.unmarshal(pA) && Some(a') == s.unmarshal(pA');
    assert Some(b) == s.unmarshal(pB) && Some(b') == s.unmarshal(pB');
    TranscriptParts(s, ci, cs, ci', cs', pA, pB, z, v, w, z', v', w');
  }

  // ---- Codes and identities ----

  /** The password scalars of a code in a context, straight from the primitive. */
  function Scalars<P>(s: Suite<P>, code: Bytes, context: Bytes): (nat, nat)
    requires s.order > 0
  {
    (FromBytes(s.w(code, context).0) % s.order, FromBytes(s.w(code, context).1) % s.order)
  }

  /** These two inputs of the password derivation do not collide. */
  predicate Apart<P>(s: Suite<P>, code: Bytes, context: Bytes, code': Bytes, context': Bytes)
    requires s.order > 0
  {
    Scalars(s, code, context) == Scalars(s, code', context') ==> code == code' && context == context'
  }

  /** Setups match exactly when code and joined identities are the same, if their derivations do not collide. */
  lemma MatchingMeansSame<P(!new)>(s: Suite<P>, c: ClientSetup, d: ServerSetup)
    requires s.order > 0
    requires Apart(s, c.code, c.clientId + c.serverId, d.code, d.clientId + d.serverId)
    ensures Matching(s, c, d) <==> c.code == d.code && c.clientId + c.serverId == d.clientId + d.serverId
  {
  }

  /** In every run, whatever is lost or fails: a key is returned or accepted only between parties with the
      same code and the same joined identities, unless the derivation collides or the transcript is ambiguous. */
  lemma KeysOnlyForSameCode<P(!new)>(s: Suite<P>, c: ClientSetup, d: ServerSetup, es: seq<Event>)
    requires s.order > 0 && Assumptions(s) && !Ambiguous(s, c, d)
    requires Apart(s, c.code, c.clientId + c.serverId, d.code, d.clientId + d.serverId)
    ensures !NeitherDone(Run(s, c, HeldFor(s, d), es)) ==>
              c.code == d.code && c.clientId + c.serverId == d.clientId + d.serverId
  {
    hide Run, Matching, Ambiguous, Apart, Encodable, SameKeys;
    KeysOnlyIfMatching(s, c, d, es);
    MatchingMeansSame(s, c, d);
  }

  // ---- What a server answers when it refuses ----

  /** A public value that is no point is answered by error 1; a confirmation that is not the client's, by
      the server's own confirmation with error 2; the right one with code 0. */
  lemma ServerAnswers<P(!new)>(s: Suite<P>, h: Held<P>, x: World)
    requires x.toServer != [] && ServerPoint(s, h.y, h.w0) != s.zero
    ensures var y, m := ServerStep(s, h, x, Sent), x.toServer[0];
            && (x.server.AwaitRequest? && m.Request? && s.unmarshal(m.publicValue).None? ==>
                  y.server == ServerFailed && y.toClient == x.toClient + [CommissioningError(1)])
            && (x.server.AwaitConfirm? && m.Confirm? ==>
                  var pB := s.marshal(ServerPoint(s, h.y, h.w0));
                  var right := m.mac == ClientMac(s, x.server.keys.confirm, x.server.pA, pB);
                  && (y.server.ServerDone? <==> right)
                  && |y.toClient| == |x.toClient| + 1 && y.toClient[|x.toClient|].Complete?
                  && y.toClient[|x.toClient|].code == if right then 0 else 2)
  {
    hide ClientMac, ServerMac, ServerPoint, Transcript, Mul, Sub, KeysFrom;
  }
}
