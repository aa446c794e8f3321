/** A group of three points with injective primitives: the assumptions about SPAKE2+ hold together, and
    the premises of the agreement results can be met. */
module SmallGroup {
  import opened Wrappers
  import opened Spake2Plus
  import opened KeyAgreement
  import opened SessionKeys

  datatype Point = Zero | One | Two

  function Add(a: Point, b: Point): Point {
    match (a, b)
    case (Zero, _) => b
    case (_, Zero) => a
    case (One, One) => Two
    case (Two, Two) => One
    case _ => Zero
  }

  function Negate(a: Point): Point {
    match a
    case Zero => Zero
    case One => Two
    case Two => One
  }

  function Encode(p: Point): Bytes {
    match p
    case Zero => []
    case One => seq(POINT_LENGTH, _ => 1)
    case Two => seq(POINT_LENGTH, _ => 2)
  }

  function Decode(b: Bytes): Option<Point> {
    if b == Encode(One) then Some(One) else if b == Encode(Two) then Some(Two) else None
  }

  /** Two byte strings as one: every byte of the first is marked. */
  function Pair(k: Bytes, a: Bytes): Bytes {
    if k == [] then [0] + a else [1, k[0]] + Pair(k[1..], a)
  }

  lemma {:induction false} PairInjective(k: Bytes, a: Bytes, l: Bytes, b: Bytes)
    requires Pair(k, a) == Pair(l, b)
    ensures k == l && a == b
  {
    assert Pair(k, a)[0] == (if k == [] then 0 else 1) && Pair(l, b)[0] == (if l == [] then 0 else 1);
    if k == [] {
      assert a == Pair(k, a)[1..] && b == Pair(l, b)[1..];
    } else {
      assert k[0] == Pair(k, a)[1] && l[0] == Pair(l, b)[1];
      assert Pair(k[1..], a) == Pair(k, a)[2..] && Pair(l[1..], b) == Pair(l, b)[2..];
      PairInjective(k[1..], a, l[1..], b);
      assert k == [k[0]] + k[1..] && l == [l[0]] + l[1..];
    }
  }

  /** Any two points serve as M and N, and any derivation of the password scalars will do. */
  function Primitives(m: Point, n: Point, w: (Bytes, Bytes) -> (Bytes, Bytes)): Suite<Point> {
    Suite((a, b) => Add(a, b), a => Negate(a), Zero, One, m, n, 3,
          p => Encode(p), b => Decode(b), p => Encode(p), b => Decode(b),
          w, b => b, b => ([0] + b, [1] + b), (k, a) => Pair(k, a))
  }

  function PointOf(k: nat): Point {
    if k % 3 == 0 then Zero else if k % 3 == 1 then One else Two
  }

  lemma {:induction false} Multiples(m: Point, n: Point, w: (Bytes, Bytes) -> (Bytes, Bytes), k: nat)
    ensures Mul(Primitives(m, n, w), k, One) == PointOf(k)
  {
    hide PointOf, Add;
    if k > 0 {
      Multiples(m, n, w, k - 1);
      NextPoint(k);
    } else {
      assert PointOf(0) == Zero by {
        NextPoint(1);
      }
    }
  }

  lemma NextPoint(k: nat)
    requires k > 0
    ensures PointOf(k) == Add(One, PointOf(k - 1)) && PointOf(0) == Zero
  {
    var r := k % 3;
    assert (k - 1) % 3 == if r == 0 then 2 else r - 1;
  }

  lemma MultipleOfThree(k: nat)
    ensures MultipleOf(k, 3) <==> k % 3 == 0
  {
    if k % 3 == 0 {
      assert IsMultiple(k, k / 3, 3);
    }
  }

  lemma Distribute(x: nat, y: nat, b: nat)
    ensures Times(x + y, b) == Times(x, b) + Times(y, b)
  {
  }

  lemma SmallFactor(r: nat, b: nat)
    requires r < 3
    ensures Times(r, b) == if r == 0 then 0 else if r == 1 then b else 2 * b
  {
  }

  lemma ThreeIsPrime(a: nat, b: nat)
    ensures DividesFactor(a, b, 3)
  {
    hide Times;
    var q, r := a / 3, a % 3;
    MultipleOfThree(a);
    MultipleOfThree(b);
    MultipleOfThree(Times(a, b));
    Distribute(q + q + q, r, b);
    Distribute(q + q, q, b);
    Distribute(q, q, b);
    SmallFactor(r, b);
    assert a == q + q + q + r;
  }

  lemma EncodingsDiffer()
    ensures Encode(One) != Encode(Two) && Encode(Zero) != Encode(One) && Encode(Zero) != Encode(Two)
  {
    assert Encode(One)[0] == 1 && Encode(Two)[0] == 2 && |Encode(Zero)| == 0;
  }

  lemma GroupAndEncoding(m: Point, n: Point, w: (Bytes, Bytes) -> (Bytes, Bytes))
    ensures AbelianGroup(Primitives(m, n, w)) && PointCodec(Primitives(m, n, w))
  {
    EncodingsDiffer();
  }

  lemma DerivationsApart(m: Point, n: Point, w: (Bytes, Bytes) -> (Bytes, Bytes))
    ensures var s := Primitives(m, n, w);
            SecretsApart(s) && (forall a, b :: s.kdf(a).1 == s.kdf(b).1 ==> a == b)
  {
    var s := Primitives(m, n, w);
    forall a: Bytes, b: Bytes
      ensures s.kdf(a).0 == s.kdf(b).0 ==> a == b
      ensures s.kdf(a).1 == s.kdf(b).1 ==> a == b
      ensures s.kdf(a).0 != s.kdf(b).1
    {
      assert ([0] + a)[1..] == a && ([0] + b)[1..] == b && ([1] + a)[1..] == a && ([1] + b)[1..] == b;
      assert ([0] + a)[0] == 0 && ([1] + b)[0] == 1;
    }
  }

  /** The assumptions about group, encoding and idealised primitives are consistent. */
  lemma AssumptionsHold(m: Point, n: Point, w: (Bytes, Bytes) -> (Bytes, Bytes))
    ensures Assumptions(Primitives(m, n, w)) && SecretsApart(Primitives(m, n, w))
  {
    DerivationsApart(m, n, w);
    var s := Primitives(m, n, w);
    GroupAndEncoding(m, n, w);
    hide AbelianGroup, PointCodec;
    forall k: Bytes, a: Bytes, l: Bytes, b: Bytes | s.mac(k, a) == s.mac(l, b)
      ensures k == l && a == b
    {
      PairInjective(k, a, l, b);
    }
    forall k: nat
      ensures VanishesAtMultiples(s, k)
    {
      Multiples(m, n, w, k);
      MultipleOfThree(k);
    }
    forall a: nat, b: nat
      ensures DividesFactor(a, b, s.order)
    {
      ThreeIsPrime(a, b);
    }
  }

  lemma OneByte(b: u8)
    ensures FromBytes([b]) == b && FromBytes([]) == 0
    ensures ScalarBytes(b) == if b == 0 then [] else [b]
  {
    assert [b][..0] == [];
    assert ScalarBytes(0) == [];
  }

  /** Both password scalars are one, whatever the code. */
  function Ones(): (Bytes, Bytes) -> (Bytes, Bytes) {
    (code, context) => ([1], [1])
  }

  /** Two parties that share a code meet every premise of the agreement and handshake results. */
  lemma PremisesMet(code: Bytes, client: Bytes, server: Bytes)
    ensures var s := Primitives(One, One, Ones());
            var c, d := ClientSetup(code, client, server, 1), ServerSetup(code, client, server, 1);
            && Assumptions(s) && SecretsApart(s) && Encodable(s, c, d) && Matching(s, c, d) && !Ambiguous(s, c, d)
            && KeysOfClient(s, c, d).Ok? && KeysOfServer(s, c, d).Ok?
  {
    var s := Primitives(One, One, Ones());
    var c, d := ClientSetup(code, client, server, 1), ServerSetup(code, client, server, 1);
    AssumptionsHold(One, One, Ones());
    OneByte(1);
    assert ClientW(s, c) == (1, 1);
    Multiples(One, One, Ones(), 1);
    assert Encodable(s, c, d);
    MultipleOfThree(1);
    KeysExistIff(s, c, d);
    KeysAgree(s, c, d);
  }

  // ---- Identities and w0 run together in the transcript ----

  /** The empty code has scalars 0 and 1, any other code 1 and 2. */
  function ByCode(): (Bytes, Bytes) -> (Bytes, Bytes) {
    (code, context) => if code == [] then ([0], [1]) else ([1], [2])
  }

  /** The assumptions alone do not rule an ambiguous transcript out: with the constant encodings of this
      group, a byte of the identities on one side stands where the other side has its w0, and keys are equal
      although codes, identities and password scalars all differ. */
  lemma UnalignedCollision()
    ensures var s, c, d := Primitives(Two, Two, ByCode()), ClientSetup([], [1, 1], [], 1), ServerSetup([7], [1], [], 2);
            && Assumptions(s) && Encodable(s, c, d) && KeysOfClient(s, c, d).Ok?
            && !Matching(s, c, d) && Ambiguous(s, c, d)
            && KeysOfClient(s, c, d) == KeysOfServer(s, c, d)
  {
    var s, c, d := Primitives(Two, Two, ByCode()), ClientSetup([], [1, 1], [], 1), ServerSetup([7], [1], [], 2);
    AssumptionsHold(Two, Two, ByCode());
    OneByte(0);
    OneByte(1);
    OneByte(2);
    assert ClientW(s, c) == (0, 1) && ServerW(s, d) == (1, 2);
    SmallMultiples(s);
    assert PublicA(s, c) == One && PublicB(s, d) == One && VerifierPoint(s, d) == Two;
    SameTranscript(s);
    KeysEqualIff(s, c, d);
  }

  lemma SmallMultiples(s: Suite<Point>)
    requires s == Primitives(Two, Two, ByCode())
    ensures forall p :: Mul(s, 0, p) == Zero && Mul(s, 1, p) == p && Mul(s, 2, p) == Add(p, p)
  {
  }

  lemma SameTranscript(s: Suite<Point>)
    requires s == Primitives(Two, Two, ByCode())
    ensures Transcript(s, [1, 1], [], Encode(One), Encode(One), One, One, 0) ==
            Transcript(s, [1], [], Encode(One), Encode(One), One, One, 1)
  {
    hide Encode;
    OneByte(0);
    OneByte(1);
    var e := Encode(One);
    Regroup([1, 1], e, []);
    Regroup([1], e, [1]);
    OnesShift(e + e + e + e);
  }

  lemma Regroup(i: Bytes, e: Bytes, w: Bytes)
    ensures i + [] + e + e + e + e + w == i + (e + e + e + e) + w
  {
    assert i + [] == i;
  }

  lemma OnesShift(body: Bytes)
    requires body == Encode(One) + Encode(One) + Encode(One) + Encode(One)
    ensures [1, 1] + body + [] == [1] + body + [1]
  {
    assert forall i :: 0 <= i < |body| ==> body[i] == 1;
  }
}
