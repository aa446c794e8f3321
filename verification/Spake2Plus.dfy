/** SPAKE2+ (sections 3.3 and 3.4 of RFC 9383) over an abstract group: what both sides compute. */
module Spake2Plus {
  import opened Wrappers

  type Bytes = seq<u8>

  /** The primitives the exchange is built on. "w" yields the two 32-byte outputs of the password
      derivation; "kdf" yields the shared secret and the confirmation key. */
  datatype Suite<!P(==)> = Suite(
    add: (P, P) -> P,
    neg: P -> P,
    zero: P,
    base: P,
    m: P,
    n: P,
    order: nat,
    marshal: P -> Bytes,
    unmarshal: Bytes -> Option<P>,
    compress: P -> Bytes,
    decompress: Bytes -> Option<P>,
    w: (Bytes, Bytes) -> (Bytes, Bytes),
    hash: Bytes -> Bytes,
    kdf: Bytes -> (Bytes, Bytes),
    mac: (Bytes, Bytes) -> Bytes)

  const POINT_LENGTH := 65

  // ---- Assumptions about the primitives ----

  predicate Commutes<P(==)>(s: Suite<P>, a: P, b: P) {
    s.add(a, b) == s.add(b, a)
  }

  predicate Associates<P(==)>(s: Suite<P>, a: P, b: P, c: P) {
    s.add(s.add(a, b), c) == s.add(a, s.add(b, c))
  }

  predicate HasUnitAndInverse<P(==)>(s: Suite<P>, a: P) {
    s.add(a, s.zero) == a && s.add(a, s.neg(a)) == s.zero
  }

  ghost predicate AbelianGroup<P(!new)>(s: Suite<P>) {
    && (forall a, b :: Commutes(s, a, b))
    && (forall a, b, c :: Associates(s, a, b, c))
    && (forall a :: HasUnitAndInverse(s, a))
  }

  /** Points other than the identity have one encoding each, of fixed length. */
  ghost predicate PointCodec<P(!new)>(s: Suite<P>) {
    && (forall p :: p != s.zero ==> |s.marshal(p)| == POINT_LENGTH && s.unmarshal(s.marshal(p)) == Some(p))
    && (forall b :: s.unmarshal(b).Some? ==> s.unmarshal(b).value != s.zero && s.marshal(s.unmarshal(b).value) == b)
    && (forall p :: p != s.zero ==> s.decompress(s.compress(p)) == Some(p))
  }

  /** Hash, key derivation and MAC idealised: equal outputs come from equal inputs. */
  ghost predicate Injective<P(!new)>(s: Suite<P>) {
    && (forall a, b :: s.hash(a) == s.hash(b) ==> a == b)
    && (forall a, b :: s.kdf(a).1 == s.kdf(b).1 ==> a == b)
    && (forall k, a, l, b :: s.mac(k, a) == s.mac(l, b) ==> k == l && a == b)
  }

  predicate IsMultiple(k: nat, j: nat, q: nat) {
    k == j * q
  }

  ghost predicate MultipleOf(k: nat, q: nat) {
    exists j: nat :: IsMultiple(k, j, q)
  }

  function Times(a: nat, b: nat): nat {
    a * b
  }

  ghost predicate DividesFactor(a: nat, b: nat, q: nat) {
    MultipleOf(Times(a, b), q) ==> MultipleOf(a, q) || MultipleOf(b, q)
  }

  ghost predicate VanishesAtMultiples<P>(s: Suite<P>, k: nat) {
    Mul(s, k, s.base) == s.zero <==> MultipleOf(k, s.order)
  }

  /** Multiples of the base point vanish exactly at the multiples of the order, which is prime. */
  ghost predicate PrimeOrder<P(!new)>(s: Suite<P>) {
    && s.order > 1
    && (forall k: nat :: VanishesAtMultiples(s, k))
    && (forall a: nat, b: nat :: DividesFactor(a, b, s.order))
  }

  // ---- Scalar multiplication ----

  function Mul<P>(s: Suite<P>, k: nat, p: P): P {
    if k == 0 then s.zero else s.add(p, Mul(s, k - 1, p))
  }

  function Sub<P>(s: Suite<P>, p: P, q: P): P {
    s.add(p, s.neg(q))
  }

  lemma {:induction false} MulAdds<P(!new)>(s: Suite<P>, a: nat, b: nat, p: P)
    requires AbelianGroup(s)
    ensures Mul(s, a + b, p) == s.add(Mul(s, a, p), Mul(s, b, p))
  {
    if a == 0 {
      assert Commutes(s, s.zero, Mul(s, b, p)) && HasUnitAndInverse(s, Mul(s, b, p));
    } else {
      MulAdds(s, a - 1, b, p);
      assert Associates(s, p, Mul(s, a - 1, p), Mul(s, b, p));
    }
  }

  lemma {:induction false} MulMul<P(!new)>(s: Suite<P>, a: nat, b: nat, p: P)
    requires AbelianGroup(s)
    ensures Mul(s, a, Mul(s, b, p)) == Mul(s, Times(a, b), p)
  {
    if a != 0 {
      MulMul(s, a - 1, b, p);
      MulAdds(s, b, Times(a - 1, b), p);
      assert Times(a, b) == b + Times(a - 1, b);
    }
  }

  lemma MulCommutes<P(!new)>(s: Suite<P>, a: nat, b: nat, p: P)
    requires AbelianGroup(s)
    ensures Mul(s, a, Mul(s, b, p)) == Mul(s, b, Mul(s, a, p))
  {
    MulMul(s, a, b, p);
    MulMul(s, b, a, p);
    assert Times(a, b) == Times(b, a);
  }

  /** Subtracting what was added gives the point back. */
  lemma Unblind<P(!new)>(s: Suite<P>, p: P, q: P)
    requires AbelianGroup(s)
    ensures Sub(s, s.add(p, q), q) == p
  {
    assert Associates(s, p, q, s.neg(q)) && HasUnitAndInverse(s, q) && HasUnitAndInverse(s, p);
  }

  // ---- Scalars as bytes ----

  /** Big-endian without leading zeros, as big.Int.Bytes; zero is the empty string. */
  function ScalarBytes(k: nat): Bytes {
    if k == 0 then [] else ScalarBytes(k / 256) + [k % 256]
  }

  function FromBytes(b: Bytes): nat {
    if b == [] then 0 else FromBytes(b[..|b| - 1]) * 256 + b[|b| - 1]
  }

  lemma {:induction false} ScalarRoundTrip(k: nat)
    ensures FromBytes(ScalarBytes(k)) == k
    ensures if k == 0 then ScalarBytes(k) == [] else ScalarBytes(k) != [] && ScalarBytes(k)[0] != 0
  {
    if k != 0 {
      ScalarRoundTrip(k / 256);
      assert ScalarBytes(k)[..|ScalarBytes(k)| - 1] == ScalarBytes(k / 256);
    }
  }

  // ---- What the two sides compute ----

  /** Password-derived scalars; the context is the two identities, one after the other. */
  function DeriveW<P>(s: Suite<P>, code: Bytes, clientId: Bytes, serverId: Bytes): (nat, nat)
    requires s.order > 0
  {
    var (b0, b1) := s.w(code, clientId + serverId);
    (FromBytes(b0) % s.order, FromBytes(b1) % s.order)
  }

  datatype Verifier = Verifier(w0: Bytes, l: Bytes, identity: Bytes)

  /** Absent when w1 vanishes: the identity point has no encoding. */
  function GenerateVerifier<P>(s: Suite<P>, code: Bytes, clientId: Bytes, serverId: Bytes): Option<Verifier>
    requires s.order > 0
  {
    var (w0, w1) := DeriveW(s, code, clientId, serverId);
    var l := Mul(s, w1, s.base);
    if l == s.zero then None else Some(Verifier(ScalarBytes(w0), s.compress(l), clientId))
  }

  function ClientPoint<P>(s: Suite<P>, x: nat, w0: nat): P {
    s.add(Mul(s, x, s.base), Mul(s, w0, s.m))
  }

  function ServerPoint<P>(s: Suite<P>, y: nat, w0: nat): P {
    s.add(Mul(s, y, s.base), Mul(s, w0, s.n))
  }

  datatype Keys = Keys(secret: Bytes, confirm: Bytes)

  function Transcript<P>(s: Suite<P>, clientId: Bytes, serverId: Bytes, pA: Bytes, pB: Bytes, z: P, v: P,
                         w0: nat): Bytes {
    clientId + serverId + pA + pB + s.marshal(z) + s.marshal(v) + ScalarBytes(w0)
  }

  function KeysFrom<P>(s: Suite<P>, transcript: Bytes): Keys {
    var (secret, confirm) := s.kdf(s.hash(transcript));
    Keys(secret, confirm)
  }

  datatype Failure = InvalidPublicKey | Degenerate | InvalidVerifier

  function ClientKeys<P>(s: Suite<P>, clientId: Bytes, serverId: Bytes, x: nat, w0: nat, w1: nat, pA: Bytes, pB: Bytes)
    : Result<Keys, Failure>
  {
    match s.unmarshal(pB)
    case None => Err(InvalidPublicKey)
    case Some(b) =>
      var y := Sub(s, b, Mul(s, w0, s.n));
      var z, v := Mul(s, x, y), Mul(s, w1, y);
      if z == s.zero || v == s.zero then Err(Degenerate)
      else Ok(KeysFrom(s, Transcript(s, clientId, serverId, pA, pB, z, v, w0)))
  }

  function ServerKeys<P>(s: Suite<P>, clientId: Bytes, serverId: Bytes, y: nat, w0: nat, l: P, pA: Bytes, pB: Bytes)
    : Result<Keys, Failure>
  {
    match s.unmarshal(pA)
    case None => Err(InvalidPublicKey)
    case Some(a) =>
      var x := Sub(s, a, Mul(s, w0, s.m));
      var z, v := Mul(s, y, x), Mul(s, y, l);
      if z == s.zero || v == s.zero then Err(Degenerate)
      else Ok(KeysFrom(s, Transcript(s, clientId, serverId, pA, pB, z, v, w0)))
  }

  const CLIENT_LABEL: Bytes := [0x63, 0x6c, 0x69, 0x65, 0x6e, 0x74]
  const SERVER_LABEL: Bytes := [0x73, 0x65, 0x72, 0x76, 0x65, 0x72]

  function ClientMac<P>(s: Suite<P>, key: Bytes, pA: Bytes, pB: Bytes): Bytes {
    s.mac(key, CLIENT_LABEL + pA + pB)
  }

  function ServerMac<P>(s: Suite<P>, key: Bytes, pA: Bytes, pB: Bytes): Bytes {
    s.mac(key, SERVER_LABEL + pB + pA)
  }

  // ---- The objects ----

  class Client<P(==)> {
    const s: Suite<P>
    const clientId: Bytes
    const serverId: Bytes
    const x: nat
    const w0: nat
    const w1: nat
    var pA: Option<Bytes>
    var pB: Bytes
    var keys: Option<Keys>

    ghost predicate Valid()
      reads this
    {
      pA.Some? ==> ClientPoint(s, x, w0) != s.zero && pA.value == s.marshal(ClientPoint(s, x, w0))
    }

    constructor (suite: Suite<P>, code: Bytes, client: Bytes, server: Bytes, ephemeral: nat)
      requires suite.order > 0
      ensures Valid() && pA == None && keys == None && s == suite && clientId == client && serverId == server
      ensures x == ephemeral && (w0, w1) == DeriveW(suite, code, client, server)
    {
      s, clientId, serverId, x := suite, client, server, ephemeral;
      var (b0, b1) := suite.w(code, client + server);
      w0, w1 := FromBytes(b0) % suite.order, FromBytes(b1) % suite.order;
      pA, pB, keys := None, [], None;
    }

    /** Computed once and kept; absent when the point is the identity. */
    method PublicValue() returns (r: Option<Bytes>)
      requires Valid()
      modifies this`pA
      ensures Valid() && r == pA
      ensures r == if ClientPoint(s, x, w0) == s.zero then None else Some(s.marshal(ClientPoint(s, x, w0)))
    {
      if pA.Some? {
        return pA;
      }
      var point := s.add(Mul(s, x, s.base), Mul(s, w0, s.m));
      if point == s.zero {
        return None;
      }
      pA := Some(s.marshal(point));
      return pA;
    }

    method ProcessServerValue(value: Bytes) returns (r: Result<(), Failure>)
      requires Valid()
      modifies this
      ensures Valid() && pB == value
      ensures r.Ok? ==> pA.Some? && keys.Some?
      ensures r.Ok? ==> ClientKeys(s, clientId, serverId, x, w0, w1, pA.value, value) == Ok(keys.value)
      ensures r.Err? ==> if ClientPoint(s, x, w0) == s.zero then r.error.Degenerate?
                         else ClientKeys(s, clientId, serverId, x, w0, w1, s.marshal(ClientPoint(s, x, w0)),
                                         value) == Err(r.error)
    {
      pB := value;
      var own := PublicValue();
      if own.None? {
        return Err(Degenerate);
      }
      var b := s.unmarshal(value);
      if b.None? {
        return Err(InvalidPublicKey);
      }
      var y := Sub(s, b.value, Mul(s, w0, s.n));
      var z, v := Mul(s, x, y), Mul(s, w1, y);
      if z == s.zero || v == s.zero {
        return Err(Degenerate);
      }
      keys := Some(KeysFrom(s, Transcript(s, clientId, serverId, own.value, value, z, v, w0)));
      return Ok(());
    }

    method Confirmation() returns (r: Bytes)
      requires keys.Some? && pA.Some?
      ensures r == ClientMac(s, keys.value.confirm, pA.value, pB)
    {
      r := s.mac(keys.value.confirm, CLIENT_LABEL + pA.value + pB);
    }

    method VerifyServerConfirmation(c: Bytes) returns (ok: bool)
      requires keys.Some? && pA.Some?
      ensures ok <==> c == ServerMac(s, keys.value.confirm, pA.value, pB)
    {
      var expected := s.mac(keys.value.confirm, SERVER_LABEL + pB + pA.value);
      ok := c == expected;
    }
  }

  class Server<P(==)> {
    const s: Suite<P>
    const verifier: Verifier
    const serverId: Bytes
    const y: nat
    const w0: nat
    const l: P
    var pA: Bytes
    var pB: Option<Bytes>
    var keys: Option<Keys>

    ghost predicate Valid()
      reads this
    {
      pB.Some? ==> ServerPoint(s, y, w0) != s.zero && pB.value == s.marshal(ServerPoint(s, y, w0))
    }

    /** Takes the point that the verifier's L decodes to. */
    constructor (suite: Suite<P>, stored: Verifier, server: Bytes, ephemeral: nat)
      requires suite.decompress(stored.l).Some?
      ensures Valid() && pB == None && keys == None && s == suite && verifier == stored && serverId == server
      ensures y == ephemeral && w0 == FromBytes(stored.w0) && Some(l) == suite.decompress(stored.l)
    {
      s, verifier, serverId, y := suite, stored, server, ephemeral;
      w0, l := FromBytes(stored.w0), suite.decompress(stored.l).value;
      pA, pB, keys := [], None, None;
    }

    method PublicValue() returns (r: Option<Bytes>)
      requires Valid()
      modifies this`pB
      ensures Valid() && r == pB
      ensures r == if ServerPoint(s, y, w0) == s.zero then None else Some(s.marshal(ServerPoint(s, y, w0)))
    {
      if pB.Some? {
        return pB;
      }
      var point := s.add(Mul(s, y, s.base), Mul(s, w0, s.n));
      if point == s.zero {
        return None;
      }
      pB := Some(s.marshal(point));
      return pB;
    }

    method ProcessClientValue(value: Bytes) returns (r: Result<(), Failure>)
      requires Valid()
      modifies this
      ensures Valid() && pA == value
      ensures r.Ok? ==> pB.Some? && keys.Some?
      ensures r.Ok? ==> ServerKeys(s, verifier.identity, serverId, y, w0, l, value, pB.value) == Ok(keys.value)
      ensures r.Err? ==> if ServerPoint(s, y, w0) == s.zero then r.error.Degenerate?
                         else ServerKeys(s, verifier.identity, serverId, y, w0, l, value,
                                         s.marshal(ServerPoint(s, y, w0))) == Err(r.error)
    {
      pA := value;
      var own := PublicValue();
      if own.None? {
        return Err(Degenerate);
      }
      var a := s.unmarshal(value);
      if a.None? {
        return Err(InvalidPublicKey);
      }
      var x := Sub(s, a.value, Mul(s, w0, s.m));
      var z, v := Mul(s, y, x), Mul(s, y, l);
      if z == s.zero || v == s.zero {
        return Err(Degenerate);
      }
      keys := Some(KeysFrom(s, Transcript(s, verifier.identity, serverId, value, own.value, z, v, w0)));
      return Ok(());
    }

    method Confirmation() returns (r: Bytes)
      requires keys.Some? && pB.Some?
      ensures r == ServerMac(s, keys.value.confirm, pA, pB.value)
    {
      r := s.mac(keys.value.confirm, SERVER_LABEL + pB.value + pA);
    }

    method VerifyClientConfirmation(c: Bytes) returns (ok: bool)
      requires keys.Some? && pB.Some?
      ensures ok <==> c == ClientMac(s, keys.value.confirm, pA, pB.value)
    {
      var expected := s.mac(keys.value.confirm, CLIENT_LABEL + pA + pB.value);
      ok := c == expected;
    }
  }

  /** Fails without a verifier and on one whose L is no point. */
  method NewSPAKE2PlusServer<P>(suite: Suite<P>, stored: Option<Verifier>, serverId: Bytes, ephemeral: nat)
    returns (r: Result<Server<P>, Failure>)
    ensures r.Ok? <==> stored.Some? && suite.decompress(stored.value.l).Some?
    ensures r.Err? ==> r.error == InvalidVerifier
    ensures r.Ok? ==>
              var v := r.value;
              && fresh(v) && v.Valid() && v.s == suite && v.verifier == stored.value && v.serverId == serverId
              && v.y == ephemeral
              && v.w0 == FromBytes(stored.value.w0) && Some(v.l) == suite.decompress(stored.value.l)
  {
    if stored.None? || suite.decompress(stored.value.l).None? {
      return Err(InvalidVerifier);
    }
    var server := new Server(suite, stored.value, serverId, ephemeral);
    return Ok(server);
  }
}
