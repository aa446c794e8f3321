/** When the two sides of SPAKE2+ derive the same keys. */
module KeyAgreement {
  import opened Wrappers
  import opened Spake2Plus

  /** What each side brings to one exchange. */
  datatype ClientSetup = ClientSetup(code: Bytes, clientId: Bytes, serverId: Bytes, x: nat)
  datatype ServerSetup = ServerSetup(code: Bytes, clientId: Bytes, serverId: Bytes, y: nat)

  ghost predicate Assumptions<P(!new)>(s: Suite<P>) {
    AbelianGroup(s) && PointCodec(s) && Injective(s) && PrimeOrder(s)
  }

  function ClientW<P>(s: Suite<P>, c: ClientSetup): (nat, nat)
    requires s.order > 0
  {
    DeriveW(s, c.code, c.clientId, c.serverId)
  }

  function ServerW<P>(s: Suite<P>, d: ServerSetup): (nat, nat)
    requires s.order > 0
  {
    DeriveW(s, d.code, d.clientId, d.serverId)
  }

  function PublicA<P>(s: Suite<P>, c: ClientSetup): P
    requires s.order > 0
  {
    ClientPoint(s, c.x, ClientW(s, c).0)
  }

  function PublicB<P>(s: Suite<P>, d: ServerSetup): P
    requires s.order > 0
  {
    ServerPoint(s, d.y, ServerW(s, d).0)
  }

  /** The verifier's point. */
  function VerifierPoint<P>(s: Suite<P>, d: ServerSetup): P
    requires s.order > 0
  {
    Mul(s, ServerW(s, d).1, s.base)
  }

  /** The keys when each side receives the other's public value. */
  function KeysOfClient<P>(s: Suite<P>, c: ClientSetup, d: ServerSetup): Result<Keys, Failure>
    requires s.order > 0
  {
    ClientKeys(s, c.clientId, c.serverId, c.x, ClientW(s, c).0, ClientW(s, c).1,
               s.marshal(PublicA(s, c)), s.marshal(PublicB(s, d)))
  }

  function KeysOfServer<P>(s: Suite<P>, c: ClientSetup, d: ServerSetup): Result<Keys, Failure>
    requires s.order > 0
  {
    ServerKeys(s, d.clientId, d.serverId, d.y, ServerW(s, d).0, VerifierPoint(s, d),
               s.marshal(PublicA(s, c)), s.marshal(PublicB(s, d)))
  }

  /** The values sent and the verifier's point can be encoded. */
  predicate Encodable<P(==)>(s: Suite<P>, c: ClientSetup, d: ServerSetup)
    requires s.order > 0
  {
    PublicA(s, c) != s.zero && PublicB(s, d) != s.zero && VerifierPoint(s, d) != s.zero
  }

  /** Loading a generated verifier gives back its two values. */
  lemma VerifierRoundTrip<P(!new)>(s: Suite<P>, d: ServerSetup)
    requires s.order > 0 && PointCodec(s)
    ensures var v := GenerateVerifier(s, d.code, d.clientId, d.serverId);
            && (v.None? <==> VerifierPoint(s, d) == s.zero)
            && (v.Some? ==>
                  FromBytes(v.value.w0) == ServerW(s, d).0 && s.decompress(v.value.l) == Some(VerifierPoint(s, d)) &&
                  v.value.identity == d.clientId)
  {
    ScalarRoundTrip(ServerW(s, d).0);
  }

  /** With the same password scalars, both sides find the same Z and V, whatever the ephemeral scalars. */
  lemma SamePoints<P(!new)>(s: Suite<P>, x: nat, y: nat, w0: nat, w1: nat)
    requires AbelianGroup(s)
    ensures var sy := Sub(s, ServerPoint(s, y, w0), Mul(s, w0, s.n));
            var cx := Sub(s, ClientPoint(s, x, w0), Mul(s, w0, s.m));
            && Mul(s, x, sy) == Mul(s, y, cx) == Mul(s, Times(x, y), s.base)
            && Mul(s, w1, sy) == Mul(s, y, Mul(s, w1, s.base)) == Mul(s, Times(w1, y), s.base)
  {
    Unblind(s, Mul(s, y, s.base), Mul(s, w0, s.n));
    Unblind(s, Mul(s, x, s.base), Mul(s, w0, s.m));
    MulCommutes(s, x, y, s.base);
    MulCommutes(s, w1, y, s.base);
    MulMul(s, x, y, s.base);
    MulMul(s, w1, y, s.base);
  }

  /** Same code, same identities: both sides derive the same keys, or both fail in the same way. */
  lemma KeysAgree<P(!new)>(s: Suite<P>, c: ClientSetup, d: ServerSetup)
    requires s.order > 0 && AbelianGroup(s) && PointCodec(s) && Encodable(s, c, d)
    requires c.code == d.code && c.clientId == d.clientId && c.serverId == d.serverId
    ensures KeysOfClient(s, c, d) == KeysOfServer(s, c, d)
  {
    SamePoints(s, c.x, d.y, ClientW(s, c).0, ClientW(s, c).1);
  }

  // ---- Which scalars are degenerate ----

  lemma MultipleOfFactor(a: nat, b: nat, q: nat)
    requires MultipleOf(a, q)
    ensures MultipleOf(Times(a, b), q) && MultipleOf(Times(b, a), q)
  {
    var j: nat :| IsMultiple(a, j, q);
    assert a * b == Times(j, b) * q;
    assert IsMultiple(Times(a, b), Times(j, b), q) && IsMultiple(Times(b, a), Times(j, b), q);
  }

  lemma SmallMultiple(k: nat, q: nat)
    requires k < q && MultipleOf(k, q)
    ensures k == 0
  {
    var j: nat :| IsMultiple(k, j, q);
    if j > 0 {
      assert j * q == (j - 1) * q + q;
    }
  }

  lemma ProductVanishes<P(!new)>(s: Suite<P>, a: nat, b: nat)
    requires PrimeOrder(s)
    ensures Mul(s, Times(a, b), s.base) == s.zero <==> MultipleOf(a, s.order) || MultipleOf(b, s.order)
  {
    assert VanishesAtMultiples(s, Times(a, b)) && DividesFactor(a, b, s.order);
    if MultipleOf(a, s.order) {
      MultipleOfFactor(a, b, s.order);
    }
    if MultipleOf(b, s.order) {
      MultipleOfFactor(b, a, s.order);
    }
  }

  /** With matching setups, the exchange produces keys exactly when neither ephemeral scalar is a
      multiple of the order. */
  lemma KeysExistIff<P(!new)>(s: Suite<P>, c: ClientSetup, d: ServerSetup)
    requires s.order > 0 && AbelianGroup(s) && PointCodec(s) && PrimeOrder(s) && Encodable(s, c, d)
    requires c.code == d.code && c.clientId == d.clientId && c.serverId == d.serverId
    ensures KeysOfClient(s, c, d).Ok? <==> !MultipleOf(c.x, s.order) && !MultipleOf(d.y, s.order)
  {
    var (w0, w1) := ClientW(s, c);
    SamePoints(s, c.x, d.y, w0, w1);
    ProductVanishes(s, c.x, d.y);
    ProductVanishes(s, w1, d.y);
    assert VanishesAtMultiples(s, w1);
  }

  // ---- Agreement means matching setups ----

  lemma Cancel<P(!new)>(s: Suite<P>, a: P, b: P)
    requires AbelianGroup(s) && s.add(a, b) == b
    ensures a == s.zero
  {
    assert Associates(s, a, b, s.neg(b)) && HasUnitAndInverse(s, b) && HasUnitAndInverse(s, a);
  }

  /** Two scalars below the order that give the same V, against a proper server scalar, are equal. */
  lemma SameVSameScalar<P(!new)>(s: Suite<P>, a: nat, b: nat, y: nat)
    requires AbelianGroup(s) && PrimeOrder(s) && a < s.order && b < s.order && !MultipleOf(y, s.order)
    requires Mul(s, Times(a, y), s.base) == Mul(s, Times(b, y), s.base)
    ensures a == b
  {
    if a > b {
      SameVOrdered(s, a, b, y);
    } else if b > a {
      SameVOrdered(s, b, a, y);
    }
  }

  lemma SameVOrdered<P(!new)>(s: Suite<P>, a: nat, b: nat, y: nat)
    requires AbelianGroup(s) && PrimeOrder(s) && b < a < s.order && !MultipleOf(y, s.order)
    ensures Mul(s, Times(a, y), s.base) != Mul(s, Times(b, y), s.base)
  {
    if Mul(s, Times(a, y), s.base) == Mul(s, Times(b, y), s.base) {
      assert Times(a, y) == Times(a - b, y) + Times(b, y);
      MulAdds(s, Times(a - b, y), Times(b, y), s.base);
      Cancel(s, Mul(s, Times(a - b, y), s.base), Mul(s, Times(b, y), s.base));
      ProductVanishes(s, a - b, y);
      SmallMultiple(a - b, s.order);
    }
  }

  lemma SplitAt(a: Bytes, b: Bytes, c: Bytes, d: Bytes)
    requires a + b == c + d && |a| == |c|
    ensures a == c && b == d
  {
    assert a == (a + b)[..|a|] && c == (c + d)[..|c|];
    assert b == (a + b)[|a|..] && d == (c + d)[|c|..];
  }

  /** Equal transcripts over the same public values have equal parts, once the contexts have equal
      length: the identities run together, but everything after them has a fixed length up to w0. */
  lemma TranscriptParts<P(!new)>(s: Suite<P>, ci: Bytes, cs: Bytes, di: Bytes, ds: Bytes, pA: Bytes, pB: Bytes,
                                 z: P, v: P, w: nat, z': P, v': P, w': nat)
    requires PointCodec(s) && |ci + cs| == |di + ds|
    requires z != s.zero && v != s.zero && z' != s.zero && v' != s.zero
    requires Transcript(s, ci, cs, pA, pB, z, v, w) == Transcript(s, di, ds, pA, pB, z', v', w')
    ensures ci + cs == di + ds && z == z' && v == v' && w == w'
  {
    var t, t' := ScalarBytes(w), ScalarBytes(w');
    var u, u' := s.marshal(v) + t, s.marshal(v') + t';
    var r, r' := s.marshal(z) + u, s.marshal(z') + u';
    assert Transcript(s, ci, cs, pA, pB, z, v, w) == (ci + cs) + (pA + (pB + r));
    assert Transcript(s, di, ds, pA, pB, z', v', w') == (di + ds) + (pA + (pB + r'));
    SplitAt(ci + cs, pA + (pB + r), di + ds, pA + (pB + r'));
    SplitAt(pA, pB + r, pA, pB + r');
    SplitAt(pB, r, pB, r');
    SplitAt(s.marshal(z), u, s.marshal(z'), u');
    SplitAt(s.marshal(v), t, s.marshal(v'), t');
    assert Some(z) == s.unmarshal(s.marshal(z)) && Some(v) == s.unmarshal(s.marshal(v));
    ScalarRoundTrip(w);
    ScalarRoundTrip(w');
  }

  /** The two password scalars and the joined identities are the same on both sides. */
  predicate Matching<P>(s: Suite<P>, c: ClientSetup, d: ServerSetup)
    requires s.order > 0
  {
    c.clientId + c.serverId == d.clientId + d.serverId && ClientW(s, c) == ServerW(s, d)
  }

  function ClientZ<P>(s: Suite<P>, c: ClientSetup, d: ServerSetup): P
    requires s.order > 0
  {
    Mul(s, c.x, Sub(s, PublicB(s, d), Mul(s, ClientW(s, c).0, s.n)))
  }

  function ClientV<P>(s: Suite<P>, c: ClientSetup, d: ServerSetup): P
    requires s.order > 0
  {
    Mul(s, ClientW(s, c).1, Sub(s, PublicB(s, d), Mul(s, ClientW(s, c).0, s.n)))
  }

  function ServerZ<P>(s: Suite<P>, c: ClientSetup, d: ServerSetup): P
    requires s.order > 0
  {
    Mul(s, d.y, Sub(s, PublicA(s, c), Mul(s, ServerW(s, d).0, s.m)))
  }

  function ServerV<P>(s: Suite<P>, d: ServerSetup): P
    requires s.order > 0
  {
    Mul(s, d.y, VerifierPoint(s, d))
  }

  lemma KeysUnfold<P(!new)>(s: Suite<P>, c: ClientSetup, d: ServerSetup)
    requires s.order > 0 && PointCodec(s) && Encodable(s, c, d)
    requires KeysOfClient(s, c, d).Ok? && KeysOfServer(s, c, d).Ok?
    ensures ClientZ(s, c, d) != s.zero && ClientV(s, c, d) != s.zero
    ensures ServerZ(s, c, d) != s.zero && ServerV(s, d) != s.zero
    ensures KeysOfClient(s, c, d) ==
            Ok(KeysFrom(s, Transcript(s, c.clientId, c.serverId, s.marshal(PublicA(s, c)), s.marshal(PublicB(s, d)),
                                      ClientZ(s, c, d), ClientV(s, c, d), ClientW(s, c).0)))
    ensures KeysOfServer(s, c, d) ==
            Ok(KeysFrom(s, Transcript(s, d.clientId, d.serverId, s.marshal(PublicA(s, c)), s.marshal(PublicB(s, d)),
                                      ServerZ(s, c, d), ServerV(s, d), ServerW(s, d).0)))
  {
  }

  function JoinedLength(clientId: Bytes, serverId: Bytes): nat {
    |clientId + serverId|
  }

  /** How far the joined identities of the two sides differ in length. */
  function LengthGap(c: ClientSetup, d: ServerSetup): nat {
    var i, j := JoinedLength(c.clientId, c.serverId), JoinedLength(d.clientId, d.serverId);
    if i <= j then j - i else i - j
  }

  /** Equal lengths, or lengths that w0 does not make up for. */
  predicate Aligned<P>(s: Suite<P>, c: ClientSetup, d: ServerSetup)
    requires s.order > 0
  {
    var i, j := JoinedLength(c.clientId, c.serverId), JoinedLength(d.clientId, d.serverId);
    i == j || i + |ScalarBytes(ClientW(s, c).0)| != j + |ScalarBytes(ServerW(s, d).0)|
  }

  /** The bytes come again every "n" positions. */
  predicate Repeats(b: Bytes, n: nat) {
    forall k :: 0 <= k < |b| - n ==> b[k] == b[k + n]
  }

  /** The transcript has no length fields: where identities and w0 make up for one another in length, and
      the public values that were exchanged repeat with the difference, it could be read in two ways. */
  predicate Ambiguous<P(==)>(s: Suite<P>, c: ClientSetup, d: ServerSetup)
    requires s.order > 0
  {
    !Aligned(s, c, d) && Repeats(s.marshal(PublicA(s, c)) + s.marshal(PublicB(s, d)), LengthGap(c, d))
  }

  lemma {:induction false} ScalarLengths(k: nat, q: nat)
    requires k <= q
    ensures |ScalarBytes(k)| <= |ScalarBytes(q)|
  {
    if k != 0 {
      ScalarLengths(k / 256, q / 256);
    }
  }

  /** Identities that differ in length by more than a scalar is long are never ambiguous. */
  lemma AmbiguousGap<P>(s: Suite<P>, c: ClientSetup, d: ServerSetup)
    requires s.order > 0 && Ambiguous(s, c, d)
    ensures 0 < LengthGap(c, d) <= |ScalarBytes(s.order)|
  {
    ScalarLengths(ClientW(s, c).0, s.order);
    ScalarLengths(ServerW(s, d).0, s.order);
  }

  lemma ShiftRepeats(p: Bytes, q: Bytes, body: Bytes, t: Bytes, u: Bytes)
    requires p + body + t == q + body + u && |p| <= |q|
    ensures Repeats(body, |q| - |p|)
  {
    var n := |q| - |p|;
    forall k | 0 <= k < |body| - n
      ensures body[k] == body[k + n]
    {
      assert (p + body + t)[|q| + k] == body[k + n];
      assert (q + body + u)[|q| + k] == body[k];
    }
  }

  /** Equal transcripts over the same public values that are not aligned make these values repeat. */
  lemma TranscriptRepeats<P>(s: Suite<P>, ci: Bytes, cs: Bytes, di: Bytes, ds: Bytes, pA: Bytes, pB: Bytes,
                             z: P, v: P, w: nat, z': P, v': P, w': nat)
    requires Transcript(s, ci, cs, pA, pB, z, v, w) == Transcript(s, di, ds, pA, pB, z', v', w')
    ensures var i, j := JoinedLength(ci, cs), JoinedLength(di, ds); Repeats(pA + pB, if i <= j then j - i else i - j)
  {
    hide ScalarBytes, Repeats;
    var t, t' := s.marshal(z) + s.marshal(v) + ScalarBytes(w), s.marshal(z') + s.marshal(v') + ScalarBytes(w');
    assert Transcript(s, ci, cs, pA, pB, z, v, w) == (ci + cs) + (pA + pB) + t;
    assert Transcript(s, di, ds, pA, pB, z', v', w') == (di + ds) + (pA + pB) + t';
    if |ci + cs| <= |di + ds| {
      ShiftRepeats(ci + cs, di + ds, pA + pB, t, t');
    } else {
      ShiftRepeats(di + ds, ci + cs, pA + pB, t', t);
    }
  }

  lemma TranscriptLength<P(!new)>(s: Suite<P>, ci: Bytes, cs: Bytes, pA: Bytes, pB: Bytes, z: P, v: P, w: nat)
    requires PointCodec(s) && z != s.zero && v != s.zero
    ensures |Transcript(s, ci, cs, pA, pB, z, v, w)| ==
            JoinedLength(ci, cs) + |pA| + |pB| + 2 * POINT_LENGTH + |ScalarBytes(w)|
  {
    hide ScalarBytes;
  }

  /** When both sides derive keys from each other's public values, their confirmation keys (and with
      them the shared secrets) are equal exactly when the setups match, unless the transcript is ambiguous.
      The identities enter only joined together, so they are compared joined together. */
  lemma KeysEqualIff<P(!new)>(s: Suite<P>, c: ClientSetup, d: ServerSetup)
    requires s.order > 0 && Assumptions(s) && Encodable(s, c, d)
    requires KeysOfClient(s, c, d).Ok? && KeysOfServer(s, c, d).Ok?
    ensures !Ambiguous(s, c, d) ==>
              (KeysOfClient(s, c, d).value.confirm == KeysOfServer(s, c, d).value.confirm <==> Matching(s, c, d))
    ensures Ambiguous(s, c, d) ==> !Matching(s, c, d)
    ensures KeysOfClient(s, c, d).value.confirm == KeysOfServer(s, c, d).value.confirm <==>
            KeysOfClient(s, c, d) == KeysOfServer(s, c, d)
  {
    hide PrimeOrder, Mul, Repeats, KeysOfClient, KeysOfServer, ClientTranscript, ServerTranscript;
    EqualKeysEqualTranscripts(s, c, d);
    if ClientTranscript(s, c, d) == ServerTranscript(s, c, d) {
      if Aligned(s, c, d) {
        EqualWhenAligned(s, c, d);
      } else {
        AmbiguousWhenEqual(s, c, d);
      }
    }
    if Matching(s, c, d) {
      EqualWhenMatching(s, c, d);
    }
  }

  function ClientTranscript<P>(s: Suite<P>, c: ClientSetup, d: ServerSetup): Bytes
    requires s.order > 0
  {
    Transcript(s, c.clientId, c.serverId, s.marshal(PublicA(s, c)), s.marshal(PublicB(s, d)),
               ClientZ(s, c, d), ClientV(s, c, d), ClientW(s, c).0)
  }

  function ServerTranscript<P>(s: Suite<P>, c: ClientSetup, d: ServerSetup): Bytes
    requires s.order > 0
  {
    Transcript(s, d.clientId, d.serverId, s.marshal(PublicA(s, c)), s.marshal(PublicB(s, d)),
               ServerZ(s, c, d), ServerV(s, d), ServerW(s, d).0)
  }

  /** Hash and key derivation lose nothing: keys are equal exactly when transcripts are. */
  lemma EqualKeysEqualTranscripts<P(!new)>(s: Suite<P>, c: ClientSetup, d: ServerSetup)
    requires s.order > 0 && Injective(s) && PointCodec(s) && Encodable(s, c, d)
    requires KeysOfClient(s, c, d).Ok? && KeysOfServer(s, c, d).Ok?
    ensures KeysOfClient(s, c, d).value.confirm == KeysOfServer(s, c, d).value.confirm <==>
            ClientTranscript(s, c, d) == ServerTranscript(s, c, d)
    ensures KeysOfClient(s, c, d) == KeysOfServer(s, c, d) <==>
            ClientTranscript(s, c, d) == ServerTranscript(s, c, d)
  {
    KeysUnfold(s, c, d);
    hide KeysOfClient, KeysOfServer, Transcript, PointCodec, Encodable, ClientZ, ClientV, ServerZ, ServerV;
    var tc, td := ClientTranscript(s, c, d), ServerTranscript(s, c, d);
    assert KeysFrom(s, tc).confirm == KeysFrom(s, td).confirm ==> s.hash(tc) == s.hash(td) && tc == td;
  }

  lemma AmbiguousWhenEqual<P(!new)>(s: Suite<P>, c: ClientSetup, d: ServerSetup)
    requires s.order > 0 && !Aligned(s, c, d) && ClientTranscript(s, c, d) == ServerTranscript(s, c, d)
    ensures Ambiguous(s, c, d)
  {
    hide Transcript, Repeats, Aligned;
    TranscriptRepeats(s, c.clientId, c.serverId, d.clientId, d.serverId, s.marshal(PublicA(s, c)),
                      s.marshal(PublicB(s, d)), ClientZ(s, c, d), ClientV(s, c, d), ClientW(s, c).0,
                      ServerZ(s, c, d), ServerV(s, d), ServerW(s, d).0);
  }

  lemma EqualWhenMatching<P(!new)>(s: Suite<P>, c: ClientSetup, d: ServerSetup)
    requires s.order > 0 && AbelianGroup(s) && Matching(s, c, d)
    ensures ClientTranscript(s, c, d) == ServerTranscript(s, c, d)
  {
    hide Mul;
    SamePoints(s, c.x, d.y, ClientW(s, c).0, ClientW(s, c).1);
  }

  /** Equal transcripts of aligned setups mean matching setups. */
  lemma EqualWhenAligned<P(!new)>(s: Suite<P>, c: ClientSetup, d: ServerSetup)
    requires s.order > 0 && Assumptions(s) && Encodable(s, c, d) && Aligned(s, c, d)
    requires KeysOfClient(s, c, d).Ok? && KeysOfServer(s, c, d).Ok?
    requires ClientTranscript(s, c, d) == ServerTranscript(s, c, d)
    ensures Matching(s, c, d)
  {
    hide PrimeOrder, Mul;
    KeysUnfold(s, c, d);
    var pA, pB := s.marshal(PublicA(s, c)), s.marshal(PublicB(s, d));
    var (cw0, cw1) := ClientW(s, c);
    var (dw0, dw1) := ServerW(s, d);
    TranscriptLength(s, c.clientId, c.serverId, pA, pB, ClientZ(s, c, d), ClientV(s, c, d), cw0);
    TranscriptLength(s, d.clientId, d.serverId, pA, pB, ServerZ(s, c, d), ServerV(s, d), dw0);
    TranscriptParts(s, c.clientId, c.serverId, d.clientId, d.serverId, pA, pB,
                    ClientZ(s, c, d), ClientV(s, c, d), cw0, ServerZ(s, c, d), ServerV(s, d), dw0);
    SamePoints(s, c.x, d.y, cw0, cw1);
    SamePoints(s, c.x, d.y, cw0, dw1);
    ServerScalarProper(s, d);
    SameVSameScalar(s, cw1, dw1, d.y);
  }

  lemma ServerScalarProper<P(!new)>(s: Suite<P>, d: ServerSetup)
    requires s.order > 0 && AbelianGroup(s) && PrimeOrder(s) && ServerV(s, d) != s.zero
    ensures !MultipleOf(d.y, s.order) && ServerW(s, d).1 < s.order
  {
    MulMul(s, d.y, ServerW(s, d).1, s.base);
    ProductVanishes(s, d.y, ServerW(s, d).1);
  }
}
