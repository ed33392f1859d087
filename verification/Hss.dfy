/** Authentication vectors of the 4G home subscriber server
    (5G_Emulator_API/core_network/hss.py). SHA-256 and HMAC are parameters with fixed output lengths;
    keys and identities that the code keeps as hex text are byte strings here. */
module Hss {
  import opened Common

  type Byte = b: nat | b < 256
  type Bytes = seq<Byte>
  type Digest = d: Bytes | |d| == 32 witness seq(32, _ => 0)

  datatype Crypto = Crypto(sha256: Bytes -> Digest, hmac: (Bytes, Bytes) -> Digest)

  // ---------- bytes ----------

  function Pow2(n: nat): nat { if n == 0 then 1 else 2 * Pow2(n - 1) }

  /** Exclusive or of the `n` low bits. */
  function XorBits(a: nat, b: nat, n: nat): (r: nat)
    ensures r < Pow2(n)
  {
    if n == 0 then 0 else 2 * XorBits(a / 2, b / 2, n - 1) + if a % 2 == b % 2 then 0 else 1
  }

  function XorByte(a: Byte, b: Byte): Byte {
    assert Pow2(8) == 256;
    XorBits(a, b, 8)
  }

  function Xor(a: Bytes, b: Bytes): Bytes {
    seq(if |a| <= |b| then |a| else |b|, (i: nat) requires i < |a| && i < |b| => XorByte(a[i], b[i]))
  }

  function Rotate(data: Bytes, bits: nat): Bytes {
    var shift := bits / 8;
    if shift >= |data| then data else data[shift..] + data[..shift]
  }

  function Power(n: nat): nat { if n == 0 then 1 else 256 * Power(n - 1) }

  /** The `n` low bytes of a number, most significant first. */
  function ToBytes(value: nat, n: nat): (b: Bytes)
    ensures |b| == n
  {
    if n == 0 then [] else ToBytes(value / 256, n - 1) + [value % 256]
  }

  function FromBytes(b: Bytes): nat {
    if b == [] then 0 else 256 * FromBytes(b[..|b| - 1]) + b[|b| - 1]
  }

  lemma {:induction false} NumberRoundTrip(value: nat, n: nat)
    requires value < Power(n)
    ensures FromBytes(ToBytes(value, n)) == value
  {
    if n == 0 {
    } else {
      NumberRoundTrip(value / 256, n - 1);
      var b := ToBytes(value, n);
      assert b[..n - 1] == ToBytes(value / 256, n - 1);
    }
  }

  lemma {:induction false} XorBitsUndone(a: nat, b: nat, n: nat)
    requires a < Pow2(n)
    ensures XorBits(XorBits(a, b, n), b, n) == a
  {
    if n == 0 {
    } else {
      var r := XorBits(a, b, n);
      assert r / 2 == XorBits(a / 2, b / 2, n - 1) && r % 2 == if a % 2 == b % 2 then 0 else 1;
      XorBitsUndone(a / 2, b / 2, n - 1);
    }
  }

  lemma XorUndone(a: Bytes, b: Bytes)
    requires |a| <= |b|
    ensures Xor(Xor(a, b), b) == a
  {
    assert Pow2(8) == 256;
    hide XorBits;
    forall i | 0 <= i < |a| ensures Xor(Xor(a, b), b)[i] == a[i] { XorBitsUndone(a[i], b[i], 8); }
  }

  // ---------- the Milenage framing ----------

  function Aes(c: Crypto, key: Bytes, data: Bytes): (r: Bytes)
    ensures |r| == 16
  {
    c.sha256(key + data)[..16]
  }

  function Constant(last: Byte): Bytes { seq(15, _ => 0) + [last] }

  /** MAC-A and MAC-S. */
  function F1(c: Crypto, k: Bytes, rand: Bytes, sqn: Bytes, amf: Bytes, opc: Bytes): (Bytes, Bytes) {
    var temp := Aes(c, k, Xor(rand, opc));
    var in1 := sqn + amf + sqn + amf;
    var out1 := Xor(Aes(c, k, Xor(Rotate(Xor(Xor(temp, opc), in1), 64), Constant(0))), opc);
    (Slice(out1, 0, 8), Slice(out1, 8, 16))
  }

  /** RES, CK, IK and AK. */
  function F2345(c: Crypto, k: Bytes, rand: Bytes, opc: Bytes): (Bytes, Bytes, Bytes, Bytes) {
    var temp := Aes(c, k, Xor(rand, opc));
    var out2 := Xor(Aes(c, k, Xor(Rotate(Xor(temp, opc), 0), Constant(1))), opc);
    var ck := Xor(Aes(c, k, Xor(Rotate(Xor(temp, opc), 32), Constant(2))), opc);
    var ik := Xor(Aes(c, k, Xor(Rotate(Xor(temp, opc), 64), Constant(4))), opc);
    var out5 := Xor(Aes(c, k, Xor(Rotate(Xor(temp, opc), 96), Constant(8))), opc);
    (Slice(out2, 8, 16), ck, ik, Slice(out5, 0, 6))
  }

  /** A slice that stops at the end of the data, as Python's does. */
  function Slice(data: Bytes, lo: nat, hi: nat): Bytes
    requires lo <= hi
  {
    data[(if lo <= |data| then lo else |data|)..(if hi <= |data| then hi else |data|)]
  }

  function Kasme(c: Crypto, ck: Bytes, ik: Bytes, plmn: Bytes, sqnXorAk: Bytes): Digest {
    c.hmac(ck + ik, [0x10] + plmn + ToBytes(|plmn|, 2) + sqnXorAk + ToBytes(|sqnXorAk|, 2))
  }

  datatype AuthVector = AuthVector(rand: Bytes, xres: Bytes, autn: Bytes, kasme: Bytes)

  const SQN_LIMIT := 0x1_0000_0000_0000

  predicate FitsSixBytes(sqn: int) { 0 <= sqn < SQN_LIMIT }

  function Vector(c: Crypto, k: Bytes, opc: Bytes, sqn: nat, plmn: Bytes, amf: Bytes, rand: Bytes): AuthVector {
    var sqnBytes := ToBytes(sqn, 6);
    var (res, ck, ik, ak) := F2345(c, k, rand, opc);
    var macA := F1(c, k, rand, sqnBytes, amf, opc).0;
    var sqnXorAk := Xor(sqnBytes, ak);
    AuthVector(rand, res, sqnXorAk + amf + macA, Kasme(c, ck, ik, plmn, sqnXorAk))
  }

  // ---------- the USIM ----------

  datatype Response = Accepted(sqn: nat, amf: Bytes, res: Bytes, kasme: Bytes) | MacFailure
    | SynchronisationFailure(sqn: nat)

  /** Section 6.3.3 of 3GPP TS 33.102: AUTN is six bytes of SQN xor AK, two of AMF and eight of MAC; the
      card takes back the SQN, recomputes the MAC, and wants an SQN above the highest it has seen. */
  function Usim(c: Crypto, k: Bytes, opc: Bytes, highest: int, plmn: Bytes, rand: Bytes, autn: Bytes): Response {
    if |autn| != 16 then MacFailure else
    var (res, ck, ik, ak) := F2345(c, k, rand, opc);
    var sqnBytes, amf, mac := Xor(autn[..6], ak), autn[6..8], autn[8..];
    if F1(c, k, rand, sqnBytes, amf, opc).0 != mac then MacFailure
    else if FromBytes(sqnBytes) <= highest then SynchronisationFailure(FromBytes(sqnBytes))
    else Accepted(FromBytes(sqnBytes), amf, res, Kasme(c, ck, ik, plmn, autn[..6]))
  }

  lemma AutnLength(c: Crypto, k: Bytes, opc: Bytes, sqn: nat, plmn: Bytes, amf: Bytes, rand: Bytes)
    ensures |Vector(c, k, opc, sqn, plmn, amf, rand).autn| ==
            (if |opc| < 6 then |opc| else 6) + |amf| + (if |opc| < 8 then |opc| else 8)
  {}

  /** AUTN round trip. With a two-byte AMF the card finds in RAND and AUTN exactly the SQN and AMF that went
      in, and derives the same RES and KASME, whenever AUTN has its 16 bytes, that is when OPc has at
      least eight; it refuses only an SQN that is not new to it. */
  lemma AutnRoundTrip(c: Crypto, k: Bytes, opc: Bytes, sqn: nat, plmn: Bytes, amf: Bytes, rand: Bytes, highest: int)
    requires FitsSixBytes(sqn) && |amf| == 2
    ensures var v := Vector(c, k, opc, sqn, plmn, amf, rand);
            |opc| >= 8 <==> |v.autn| == 16
    ensures var v := Vector(c, k, opc, sqn, plmn, amf, rand);
            |opc| >= 8 ==> Usim(c, k, opc, highest, plmn, rand, v.autn) ==
                           if sqn <= highest then SynchronisationFailure(sqn) else Accepted(sqn, amf, v.xres, v.kasme)
    ensures var v := Vector(c, k, opc, sqn, plmn, amf, rand);
            |opc| < 8 ==> Usim(c, k, opc, highest, plmn, rand, v.autn) == MacFailure
  {
    AutnLength(c, k, opc, sqn, plmn, amf, rand);
    if |opc| >= 8 {
      var sqnBytes := ToBytes(sqn, 6);
      var ak := F2345(c, k, rand, opc).3;
      var macA := F1(c, k, rand, sqnBytes, amf, opc).0;
      assert |ak| == 6 && |macA| == 8;
      var autn := Vector(c, k, opc, sqn, plmn, amf, rand).autn;
      assert autn == Xor(sqnBytes, ak) + amf + macA;
      assert autn[..6] == Xor(sqnBytes, ak) && autn[6..8] == amf && autn[8..] == macA;
      XorUndone(sqnBytes, ak);
      assert Power(6) == SQN_LIMIT;
      NumberRoundTrip(sqn, 6);
    }
  }

  // ---------- the authentication information request ----------

  /** An absent OPc or OP is the empty byte string. */
  datatype Subscriber = Subscriber(active: bool, k: Bytes, opc: Bytes, op: Bytes, amf: Bytes, sqn: int)

  datatype State = State(subscribers: map<string, Subscriber>, airRequests: nat, authFailures: nat)

  /** `rands` are the random challenges, one for each vector. */
  datatype Request = Request(imsi: string, numVectors: int, plmn: Bytes, rands: seq<Bytes>)

  datatype Answer = Answer(resultCode: int, vectors: seq<AuthVector>)

  datatype Failure = SqnOverflow

  const DEFAULT_OPC: Bytes :=
    [0xE8, 0xED, 0x28, 0x9D, 0xEB, 0xA9, 0x52, 0xE4, 0x28, 0x3B, 0x54, 0xE8, 0x8E, 0x61, 0x83, 0xCA]

  predicate WellFormed(r: Request) { |r.rands| == if r.numVectors < 0 then 0 else r.numVectors }

  function OpcOf(c: Crypto, sub: Subscriber): Bytes {
    if sub.opc != [] then sub.opc
    else if sub.op != [] then Xor(Aes(c, sub.k, sub.op), sub.op)
    else DEFAULT_OPC
  }

  /** The subscriber's SQN afterwards, and the vectors unless some SQN did not fit: then the request fails
      at that SQN and the vectors already made are lost. */
  function Draw(c: Crypto, sub: Subscriber, plmn: Bytes, rands: seq<Bytes>): (int, Option<seq<AuthVector>>) {
    if rands == [] then (sub.sqn, Some([])) else
    var n := |rands| - 1;
    var (sqn, vectors) := Draw(c, sub, plmn, rands[..n]);
    if vectors.None? then (sqn, None)
    else if !FitsSixBytes(sqn + 1) then (sqn + 1, None)
    else (sqn + 1, Some(vectors.value + [Vector(c, sub.k, OpcOf(c, sub), sqn + 1, plmn, sub.amf, rands[n])]))
  }

  function Air(c: Crypto, s: State, r: Request): (State, Result<Answer, Failure>) {
    var counted := s.(airRequests := s.airRequests + 1);
    if r.imsi !in s.subscribers then (counted.(authFailures := s.authFailures + 1), Ok(Answer(5001, [])))
    else if !s.subscribers[r.imsi].active then (counted.(authFailures := s.authFailures + 1), Ok(Answer(5004, [])))
    else
      var (sqn, vectors) := Draw(c, s.subscribers[r.imsi], r.plmn, r.rands);
      (counted.(subscribers := s.subscribers[r.imsi := s.subscribers[r.imsi].(sqn := sqn)]),
       if vectors.None? then Err(SqnOverflow) else Ok(Answer(2001, vectors.value)))
  }

  /** A draw of n vectors succeeds exactly when all n SQNs fit; otherwise the SQN stops at the first that
      does not. */
  lemma {:induction false} DrawSucceeds(c: Crypto, sub: Subscriber, plmn: Bytes, rands: seq<Bytes>)
    ensures Draw(c, sub, plmn, rands).1.Some? <==> rands == [] || (-1 <= sub.sqn && sub.sqn + |rands| < SQN_LIMIT)
    ensures Draw(c, sub, plmn, rands).1.Some? ==>
              Draw(c, sub, plmn, rands).0 == sub.sqn + |rands| && |Draw(c, sub, plmn, rands).1.value| == |rands|
    ensures Draw(c, sub, plmn, rands).1.None? ==>
              Draw(c, sub, plmn, rands).0 == if -1 <= sub.sqn < SQN_LIMIT then SQN_LIMIT else sub.sqn + 1
  {
    hide Vector, OpcOf;
    if rands == [] {
    } else {
      DrawSucceeds(c, sub, plmn, rands[..|rands| - 1]);
    }
  }

  /** The i-th vector carries the i-th next SQN and the i-th challenge. */
  lemma {:induction false} DrawnVector(c: Crypto, sub: Subscriber, plmn: Bytes, rands: seq<Bytes>, i: nat)
    requires i < |rands| && Draw(c, sub, plmn, rands).1.Some?
    ensures FitsSixBytes(sub.sqn + 1 + i) && |Draw(c, sub, plmn, rands).1.value| == |rands|
    ensures Draw(c, sub, plmn, rands).1.value[i] ==
            Vector(c, sub.k, OpcOf(c, sub), sub.sqn + 1 + i, plmn, sub.amf, rands[i])
  {
    hide Vector, OpcOf;
    DrawSucceeds(c, sub, plmn, rands);
    DrawSucceeds(c, sub, plmn, rands[..|rands| - 1]);
    if i == |rands| - 1 {
    } else {
      DrawnVector(c, sub, plmn, rands[..|rands| - 1], i);
    }
  }

  /** The card accepts a vector as the one that follows SQN `highest`. */
  predicate Accepts(c: Crypto, sub: Subscriber, highest: int, plmn: Bytes, v: AuthVector) {
    highest >= -1 &&
    Usim(c, sub.k, OpcOf(c, sub), highest, plmn, v.rand, v.autn) == Accepted(highest + 1, sub.amf, v.xres, v.kasme)
  }

  /** Every vector of an answer is accepted by the subscriber's own card, in order, each with the next SQN,
      and the two ends agree on RES and KASME. */
  lemma AnswerIsAccepted(c: Crypto, s: State, r: Request, vectors: seq<AuthVector>, i: nat)
    requires r.imsi in s.subscribers && |OpcOf(c, s.subscribers[r.imsi])| >= 8 && |s.subscribers[r.imsi].amf| == 2
    requires Air(c, s, r).1 == Ok(Answer(2001, vectors)) && i < |vectors|
    ensures Accepts(c, s.subscribers[r.imsi], s.subscribers[r.imsi].sqn + i, r.plmn, vectors[i])
  {
    hide OpcOf, Usim, F1, F2345, Kasme, Xor, ToBytes;
    var sub := s.subscribers[r.imsi];
    DrawSucceeds(c, sub, r.plmn, r.rands);
    DrawnVector(c, sub, r.plmn, r.rands, i);
    hide Draw, Air;
    AutnRoundTrip(c, sub.k, OpcOf(c, sub), sub.sqn + 1 + i, r.plmn, sub.amf, r.rands[i], sub.sqn + i);
  }

  // ---------- whole runs ----------

  function Run(c: Crypto, s: State, requests: seq<Request>): State
    decreases |requests|
  {
    if requests == [] then s else Run(c, Air(c, s, requests[0]).0, requests[1..])
  }

  /** A vector and the network it was made for. */
  datatype Delivery = Delivery(plmn: Bytes, vector: AuthVector)

  function VectorsOf(r: Request, answer: Result<Answer, Failure>): seq<Delivery> {
    if answer.Ok? then
      seq(|answer.value.vectors|,
          (i: nat) requires i < |answer.value.vectors| => Delivery(r.plmn, answer.value.vectors[i]))
    else []
  }

  /** All the vectors that a run hands out for one subscriber, in order. */
  function Delivered(c: Crypto, s: State, requests: seq<Request>, imsi: string): seq<Delivery>
    decreases |requests|
  {
    if requests == [] then []
    else
      var (s1, answer) := Air(c, s, requests[0]);
      (if requests[0].imsi == imsi then VectorsOf(requests[0], answer) else []) + Delivered(c, s1, requests[1..], imsi)
  }

  predicate NoFailure(c: Crypto, s: State, requests: seq<Request>, imsi: string)
    decreases |requests|
  {
    requests != [] ==>
      && (requests[0].imsi == imsi ==> Air(c, s, requests[0]).1.Ok?)
      && NoFailure(c, Air(c, s, requests[0]).0, requests[1..], imsi)
  }

  ghost predicate Consecutive(c: Crypto, sub: Subscriber, highest: int, deliveries: seq<Delivery>) {
    forall i | 0 <= i < |deliveries| :: Accepts(c, sub, highest + i, deliveries[i].plmn, deliveries[i].vector)
  }

  lemma AirKeepsOthers(c: Crypto, s: State, r: Request, imsi: string)
    requires imsi in s.subscribers
    ensures imsi in Air(c, s, r).0.subscribers
    ensures Air(c, s, r).0.subscribers[imsi].(sqn := s.subscribers[imsi].sqn) == s.subscribers[imsi]
    ensures r.imsi != imsi ==> Air(c, s, r).0.subscribers[imsi] == s.subscribers[imsi]
  {}

  lemma AirDelivers(c: Crypto, s: State, r: Request)
    requires r.imsi in s.subscribers && s.subscribers[r.imsi].sqn >= 0
    ensures var (s1, answer) := Air(c, s, r);
            var sqn := s.subscribers[r.imsi].sqn;
            && s1.subscribers[r.imsi].sqn >= sqn + |VectorsOf(r, answer)|
            && (answer.Ok? ==> s1.subscribers[r.imsi].sqn == sqn + |VectorsOf(r, answer)|)
            && (answer.Err? ==> s1.subscribers[r.imsi].sqn >= SQN_LIMIT)
            && (sqn >= SQN_LIMIT ==> VectorsOf(r, answer) == [])
  {
    DrawSucceeds(c, s.subscribers[r.imsi], r.plmn, r.rands);
    hide Draw;
  }

  lemma {:induction false} NothingAfterTheLimit(c: Crypto, s: State, requests: seq<Request>, imsi: string)
    requires imsi in s.subscribers && s.subscribers[imsi].sqn >= SQN_LIMIT
    ensures Delivered(c, s, requests, imsi) == []
    decreases |requests|
  {
    if requests == [] {
    } else {
      AirKeepsOthers(c, s, requests[0], imsi);
      if requests[0].imsi == imsi { AirDelivers(c, s, requests[0]); }
      hide Air;
      NothingAfterTheLimit(c, Air(c, s, requests[0]).0, requests[1..], imsi);
    }
  }

  lemma GrantedIs2001(c: Crypto, s: State, r: Request)
    requires r.imsi in s.subscribers
    ensures var answer := Air(c, s, r).1;
            answer.Ok? && answer.value.vectors != [] ==> answer == Ok(Answer(2001, answer.value.vectors))
  {
    hide Draw;
  }

  lemma AnswerIsConsecutive(c: Crypto, s: State, r: Request)
    requires r.imsi in s.subscribers && |OpcOf(c, s.subscribers[r.imsi])| >= 8 && |s.subscribers[r.imsi].amf| == 2
    ensures Consecutive(c, s.subscribers[r.imsi], s.subscribers[r.imsi].sqn, VectorsOf(r, Air(c, s, r).1))
  {
    hide Accepts, OpcOf, Air;
    GrantedIs2001(c, s, r);
    var answer, sub := Air(c, s, r).1, s.subscribers[r.imsi];
    var deliveries := VectorsOf(r, answer);
    forall i | 0 <= i < |deliveries| ensures Accepts(c, sub, sub.sqn + i, deliveries[i].plmn, deliveries[i].vector) {
      AnswerIsAccepted(c, s, r, answer.value.vectors, i);
    }
  }

  lemma NoneAreConsecutive(c: Crypto, sub: Subscriber, highest: int)
    ensures Consecutive(c, sub, highest, [])
  {}

  lemma ConsecutiveJoin(c: Crypto, a: Subscriber, b: Subscriber, highest: int, first: seq<Delivery>,
      rest: seq<Delivery>)
    requires b == a.(sqn := b.sqn)
    requires Consecutive(c, a, highest, first) && Consecutive(c, b, highest + |first|, rest)
    ensures Consecutive(c, a, highest, first + rest)
  {
    hide Usim;
    forall i | 0 <= i < |first + rest|
      ensures Accepts(c, a, highest + i, (first + rest)[i].plmn, (first + rest)[i].vector)
    {
      if i >= |first| {
        assert Accepts(c, b, highest + |first| + (i - |first|), rest[i - |first|].plmn, rest[i - |first|].vector);
      }
    }
  }

  /** One request: what it hands out for the subscriber follows the stored SQN, and the stored SQN moves
      on by as much, or past the limit. */
  lemma HeadIsConsecutive(c: Crypto, s: State, r: Request, imsi: string)
    requires imsi in s.subscribers && s.subscribers[imsi].sqn >= 0
    requires |OpcOf(c, s.subscribers[imsi])| >= 8 && |s.subscribers[imsi].amf| == 2
    ensures var (s1, answer) := Air(c, s, r);
            var first := if r.imsi == imsi then VectorsOf(r, answer) else [];
            && Consecutive(c, s.subscribers[imsi], s.subscribers[imsi].sqn, first)
            && imsi in s1.subscribers && s1.subscribers[imsi] == s.subscribers[imsi].(sqn := s1.subscribers[imsi].sqn)
            && OpcOf(c, s1.subscribers[imsi]) == OpcOf(c, s.subscribers[imsi])
            && (s1.subscribers[imsi].sqn == s.subscribers[imsi].sqn + |first| || s1.subscribers[imsi].sqn >= SQN_LIMIT)
  {
    AirKeepsOthers(c, s, r, imsi);
    if r.imsi == imsi {
      AirDelivers(c, s, r);
      AnswerIsConsecutive(c, s, r);
    }
    hide Air, VectorsOf, Accepts;
  }

  /** Over any run of requests, whoever they are for, one subscriber's card accepts every vector handed out
      for it, in order, and finds in them consecutive SQNs that start just above the stored one. */
  lemma {:induction false} SqnsAreConsecutive(c: Crypto, s: State, requests: seq<Request>, imsi: string)
    requires imsi in s.subscribers && s.subscribers[imsi].sqn >= 0
    requires |OpcOf(c, s.subscribers[imsi])| >= 8 && |s.subscribers[imsi].amf| == 2
    ensures Consecutive(c, s.subscribers[imsi], s.subscribers[imsi].sqn, Delivered(c, s, requests, imsi))
    decreases |requests|
  {
    hide Consecutive, OpcOf, Air, VectorsOf, Delivered;
    var sub := s.subscribers[imsi];
    if requests == [] {
      NoneAreConsecutive(c, sub, sub.sqn);
      NothingDelivered(c, s, imsi);
    } else {
      var r := requests[0];
      var (s1, answer) := Air(c, s, r);
      var first := if r.imsi == imsi then VectorsOf(r, answer) else [];
      var rest := Delivered(c, s1, requests[1..], imsi);
      HeadIsConsecutive(c, s, r, imsi);
      DeliveredInParts(c, s, requests, imsi);
      if s1.subscribers[imsi].sqn == sub.sqn + |first| {
        SqnsAreConsecutive(c, s1, requests[1..], imsi);
        ConsecutiveJoin(c, sub, s1.subscribers[imsi], sub.sqn, first, rest);
      } else {
        NothingAfterTheLimit(c, s1, requests[1..], imsi);
        assert first + rest == first;
      }
    }
  }

  lemma NothingDelivered(c: Crypto, s: State, imsi: string)
    ensures Delivered(c, s, [], imsi) == []
  {}

  lemma DeliveredInParts(c: Crypto, s: State, requests: seq<Request>, imsi: string)
    requires requests != []
    ensures var (s1, answer) := Air(c, s, requests[0]);
            Delivered(c, s, requests, imsi) ==
            (if requests[0].imsi == imsi then VectorsOf(requests[0], answer) else [])
              + Delivered(c, s1, requests[1..], imsi)
  {}

  /** If none of its requests fails, the stored SQN is the last one handed out. */
  lemma {:induction false} StoredSqnIsLast(c: Crypto, s: State, requests: seq<Request>, imsi: string)
    requires imsi in s.subscribers && s.subscribers[imsi].sqn >= 0 && NoFailure(c, s, requests, imsi)
    ensures imsi in Run(c, s, requests).subscribers
    ensures Run(c, s, requests).subscribers[imsi].sqn == s.subscribers[imsi].sqn + |Delivered(c, s, requests, imsi)|
    decreases |requests|
  {
    if requests == [] {
    } else {
      AirKeepsOthers(c, s, requests[0], imsi);
      if requests[0].imsi == imsi { AirDelivers(c, s, requests[0]); }
      hide Air;
      StoredSqnIsLast(c, Air(c, s, requests[0]).0, requests[1..], imsi);
    }
  }

  // ---------- byte by byte ----------

  /** The i-th bit from the low end. */
  function Bit(x: nat, i: nat): nat { if i == 0 then x % 2 else Bit(x / 2, i - 1) }

  /** A bit of the exclusive or is set exactly when the two bits differ. */
  lemma {:induction false} XorBit(a: nat, b: nat, n: nat, i: nat)
    requires i < n
    ensures Bit(XorBits(a, b, n), i) == if Bit(a, i) != Bit(b, i) then 1 else 0
  {
    var rest := XorBits(a / 2, b / 2, n - 1);
    var low := if a % 2 == b % 2 then 0 else 1;
    assert XorBits(a, b, n) == 2 * rest + low && (2 * rest + low) / 2 == rest && (2 * rest + low) % 2 == low;
    if i == 0 {
    } else {
      XorBit(a / 2, b / 2, n - 1, i - 1);
    }
  }

  lemma {:induction false} XorBitsZero(a: nat, n: nat)
    requires a < Pow2(n)
    ensures XorBits(a, 0, n) == a
  {
    if n == 0 {
    } else {
      XorBitsZero(a / 2, n - 1);
    }
  }

  lemma XorByteZero(a: Byte)
    ensures XorByte(a, 0) == a
  {
    assert Pow2(8) == 256;
    XorBitsZero(a, 8);
  }

  /** A byte of the cipher's output: a byte of SHA-256 over the key and then the data. */
  function Cipher(c: Crypto, key: Bytes, data: Bytes, j: nat): Byte
    requires j < 16
  {
    c.sha256(key + data)[j]
  }

  /** TEMP xor OPc, where TEMP is the cipher of RAND xor OPc. */
  function Start(c: Crypto, k: Bytes, rand: Bytes, opc: Bytes): (start: Bytes)
    requires |rand| == 16 && |opc| == 16
    ensures |start| == 16
  {
    var mixed := seq(16, (i: nat) requires i < 16 => XorByte(rand[i], opc[i]));
    seq(16, (j: nat) requires j < 16 => XorByte(Cipher(c, k, mixed, j), opc[j]))
  }

  /** `start` begun at its byte `r`, its last byte then xored with a constant. */
  function Turned(start: Bytes, r: nat, constant: Byte): (turned: Bytes)
    requires |start| == 16
    ensures |turned| == 16
  {
    seq(16, (i: nat) requires i < 16 => if i == 15 then XorByte(start[(i + r) % 16], constant) else start[(i + r) % 16])
  }

  /** A byte of an output block. */
  function Out(c: Crypto, k: Bytes, opc: Bytes, start: Bytes, r: nat, constant: Byte, j: nat): Byte
    requires |start| == 16 && |opc| == 16 && j < 16
  {
    XorByte(Cipher(c, k, Turned(start, r, constant), j), opc[j])
  }

  /** What goes into f1: `start` xored with SQN and AMF, twice over. */
  function Mixed(start: Bytes, sqn: Bytes, amf: Bytes): (mixed: Bytes)
    requires |start| == 16 && |sqn| == 6 && |amf| == 2
    ensures |mixed| == 16
  {
    seq(16, (i: nat) requires i < 16 => XorByte(start[i], if i % 8 < 6 then sqn[i % 8] else amf[i % 8 - 6]))
  }

  lemma XorIsBytewise(a: Bytes, b: Bytes, i: nat)
    requires i < |a| && |a| == |b|
    ensures |Xor(a, b)| == |a| && Xor(a, b)[i] == XorByte(a[i], b[i])
  {}

  lemma StartIsTemp(c: Crypto, k: Bytes, rand: Bytes, opc: Bytes)
    requires |rand| == 16 && |opc| == 16
    ensures Xor(Aes(c, k, Xor(rand, opc)), opc) == Start(c, k, rand, opc)
  {
    hide XorByte;
    assert Xor(rand, opc) == seq(16, (i: nat) requires i < 16 => XorByte(rand[i], opc[i]));
  }

  lemma RotatedAt(start: Bytes, r: nat, i: nat)
    requires |start| == 16 && r < 16 && i < 16
    ensures |Rotate(start, 8 * r)| == 16 && Rotate(start, 8 * r)[i] == start[(i + r) % 16]
  {
    assert (i + r) % 16 == if i + r < 16 then i + r else i + r - 16;
  }

  lemma TurnedIsRotated(start: Bytes, r: nat, constant: Byte)
    requires |start| == 16 && r < 16
    ensures Xor(Rotate(start, 8 * r), Constant(constant)) == Turned(start, r, constant)
  {
    hide XorByte, Rotate;
    var rotated := Rotate(start, 8 * r);
    RotatedAt(start, r, 0);
    forall i: nat | i < 16 ensures Xor(rotated, Constant(constant))[i] == Turned(start, r, constant)[i] {
      RotatedAt(start, r, i);
      XorByteZero(rotated[i]);
    }
  }

  lemma BlockIsOut(c: Crypto, k: Bytes, opc: Bytes, start: Bytes, r: nat, constant: Byte)
    requires |start| == 16 && |opc| == 16 && r < 16
    ensures var block := Xor(Aes(c, k, Xor(Rotate(start, 8 * r), Constant(constant))), opc);
            |block| == 16 && forall j | 0 <= j < 16 :: block[j] == Out(c, k, opc, start, r, constant, j)
  {
    TurnedIsRotated(start, r, constant);
    hide XorByte, Rotate, Constant, Turned;
  }

  lemma MixedIsInput(start: Bytes, sqn: Bytes, amf: Bytes)
    requires |start| == 16 && |sqn| == 6 && |amf| == 2
    ensures Xor(start, sqn + amf + sqn + amf) == Mixed(start, sqn, amf)
  {
    hide XorByte;
    var in1 := sqn + amf + sqn + amf;
    forall i | 0 <= i < 16 ensures in1[i] == if i % 8 < 6 then sqn[i % 8] else amf[i % 8 - 6] {}
  }

  /** The keys and responses, byte by byte. RES is the second half of the block that is turned by 0 bytes with
      the constant 1; CK, IK and AK come from the turns by 4, 8 and 12 bytes with 2, 4 and 8. */
  lemma KeysByteByByte(c: Crypto, k: Bytes, rand: Bytes, opc: Bytes, j: nat)
    requires |rand| == 16 && |opc| == 16
    ensures var start, (res, ck, ik, ak) := Start(c, k, rand, opc), F2345(c, k, rand, opc);
            && |res| == 8 && |ck| == |ik| == 16 && |ak| == 6
            && (j < 8 ==> res[j] == Out(c, k, opc, start, 0, 1, 8 + j))
            && (j < 16 ==> ck[j] == Out(c, k, opc, start, 4, 2, j) && ik[j] == Out(c, k, opc, start, 8, 4, j))
            && (j < 6 ==> ak[j] == Out(c, k, opc, start, 12, 8, j))
  {
    var start := Start(c, k, rand, opc);
    StartIsTemp(c, k, rand, opc);
    BlockIsOut(c, k, opc, start, 0, 1);
    BlockIsOut(c, k, opc, start, 4, 2);
    BlockIsOut(c, k, opc, start, 8, 4);
    BlockIsOut(c, k, opc, start, 12, 8);
    hide Start, Out, Xor, Rotate, Constant;
  }

  /** MAC-A is the first half of the block over SQN and AMF turned by 8 bytes, and MAC-S the second. */
  lemma MacByteByByte(c: Crypto, k: Bytes, rand: Bytes, sqn: Bytes, amf: Bytes, opc: Bytes, j: nat)
    requires |rand| == 16 && |opc| == 16 && |sqn| == 6 && |amf| == 2
    ensures var mac := F1(c, k, rand, sqn, amf, opc).0;
            |mac| == 8 && (j < 8 ==> mac[j] == Out(c, k, opc, Mixed(Start(c, k, rand, opc), sqn, amf), 8, 0, j))
    ensures var mac := F1(c, k, rand, sqn, amf, opc).1;
            |mac| == 8 && (j < 8 ==> mac[j] == Out(c, k, opc, Mixed(Start(c, k, rand, opc), sqn, amf), 8, 0, 8 + j))
  {
    var start := Start(c, k, rand, opc);
    StartIsTemp(c, k, rand, opc);
    MixedIsInput(start, sqn, amf);
    BlockIsOut(c, k, opc, Mixed(start, sqn, amf), 8, 0);
    hide Start, Out, Mixed, Xor, Rotate, Constant;
  }

  /** The number without its `n` low bytes. */
  function Shifted(value: nat, n: nat): nat { if n == 0 then value else Shifted(value / 256, n - 1) }

  /** A number in six bytes, the highest first. */
  function SqnByte(sqn: nat, i: nat): Byte
    requires i < 6
  {
    Shifted(sqn, 5 - i) % 256
  }

  lemma {:induction false} ByteAt(value: nat, n: nat, i: nat)
    requires i < n
    ensures ToBytes(value, n)[n - 1 - i] == Shifted(value, i) % 256
  {
    if i == 0 {
    } else {
      ByteAt(value / 256, n - 1, i - 1);
      assert ToBytes(value, n)[n - 1 - i] == ToBytes(value / 256, n - 1)[n - 1 - i];
    }
  }

  lemma SixBytes(sqn: nat, i: nat)
    requires i < 6
    ensures ToBytes(sqn, 6)[i] == SqnByte(sqn, i)
  {
    ByteAt(sqn, 6, 5 - i);
  }

  function SqnBytes(sqn: nat): (b: Bytes)
    ensures |b| == 6
  {
    seq(6, (i: nat) requires i < 6 => SqnByte(sqn, i))
  }

  /** CK and then IK. */
  function CipherKeys(c: Crypto, k: Bytes, opc: Bytes, start: Bytes): Bytes
    requires |start| == 16 && |opc| == 16
  {
    seq(32, (i: nat) requires i < 32 =>
      if i < 16 then Out(c, k, opc, start, 4, 2, i) else Out(c, k, opc, start, 8, 4, i - 16))
  }

  /** What an authentication vector holds, byte by byte, with nothing but SHA-256 and the HMAC left open. */
  ghost predicate IsVector(c: Crypto, k: Bytes, opc: Bytes, sqn: nat, plmn: Bytes, amf: Bytes, rand: Bytes,
      v: AuthVector)
    requires |rand| == 16 && |opc| == 16 && |amf| == 2
  {
    var start := Start(c, k, rand, opc);
    && v.rand == rand && |v.xres| == 8 && |v.autn| == 16
    && (forall j: nat | j < 8 :: v.xres[j] == Out(c, k, opc, start, 0, 1, 8 + j))
    && (forall j: nat | j < 6 :: v.autn[j] == XorByte(SqnByte(sqn, j), Out(c, k, opc, start, 12, 8, j)))
    && v.autn[6] == amf[0] && v.autn[7] == amf[1]
    && (forall j: nat | j < 8 :: v.autn[8 + j] == Out(c, k, opc, Mixed(start, SqnBytes(sqn), amf), 8, 0, j))
    && v.kasme == c.hmac(CipherKeys(c, k, opc, start),
                         [0x10] + plmn + [|plmn| / 256 % 256, |plmn| % 256] + v.autn[..6] + [0, 6])
  }

  lemma TwoBytes(n: nat)
    ensures ToBytes(n, 2) == [n / 256 % 256, n % 256]
  {
    assert ToBytes(n / 256, 1) == [n / 256 % 256];
  }

  lemma VectorByteByByte(c: Crypto, k: Bytes, opc: Bytes, sqn: nat, plmn: Bytes, amf: Bytes, rand: Bytes)
    requires |rand| == 16 && |opc| == 16 && |amf| == 2
    ensures IsVector(c, k, opc, sqn, plmn, amf, rand, Vector(c, k, opc, sqn, plmn, amf, rand))
  {
    hide Start, Out, Mixed, F1, F2345, XorByte, SqnByte, ToBytes;
    var start := Start(c, k, rand, opc);
    var (res, ck, ik, ak) := F2345(c, k, rand, opc);
    var sqnBytes := ToBytes(sqn, 6);
    var v := Vector(c, k, opc, sqn, plmn, amf, rand);
    assert sqnBytes == SqnBytes(sqn) by {
      forall i: nat | i < 6 ensures sqnBytes[i] == SqnBytes(sqn)[i] { SixBytes(sqn, i); }
    }
    var mac := F1(c, k, rand, sqnBytes, amf, opc).0;
    var sqnXorAk := Xor(sqnBytes, ak);
    KeysByteByByte(c, k, rand, opc, 0);
    MacByteByByte(c, k, rand, sqnBytes, amf, opc, 0);
    forall j: nat
      ensures j < 8 ==> res[j] == Out(c, k, opc, start, 0, 1, 8 + j)
      ensures j < 8 ==> mac[j] == Out(c, k, opc, Mixed(start, sqnBytes, amf), 8, 0, j)
      ensures j < 6 ==> ak[j] == Out(c, k, opc, start, 12, 8, j)
      ensures j < 16 ==> ck[j] == Out(c, k, opc, start, 4, 2, j) && ik[j] == Out(c, k, opc, start, 8, 4, j)
    {
      KeysByteByByte(c, k, rand, opc, j);
      MacByteByByte(c, k, rand, sqnBytes, amf, opc, j);
    }
    assert ck + ik == CipherKeys(c, k, opc, start);
    assert v.autn == sqnXorAk + amf + mac && |sqnXorAk| == 6;
    assert v.autn[..6] == sqnXorAk;
    TwoBytes(|plmn|);
    TwoBytes(6);
  }

  /** In any successful answer, from 16-byte challenges, the i-th vector is that of the i-th next SQN. */
  lemma AnswerByteByByte(c: Crypto, s: State, r: Request, vectors: seq<AuthVector>, i: nat)
    requires r.imsi in s.subscribers && Air(c, s, r).1 == Ok(Answer(2001, vectors)) && i < |r.rands|
    requires |OpcOf(c, s.subscribers[r.imsi])| == 16 && |s.subscribers[r.imsi].amf| == 2 && |r.rands[i]| == 16
    ensures var sub := s.subscribers[r.imsi];
            i < |vectors| && sub.sqn + 1 + i >= 0 &&
            IsVector(c, sub.k, OpcOf(c, sub), sub.sqn + 1 + i, r.plmn, sub.amf, r.rands[i], vectors[i])
  {
    hide IsVector, OpcOf, Vector;
    var sub := s.subscribers[r.imsi];
    DrawnVector(c, sub, r.plmn, r.rands, i);
    VectorByteByByte(c, sub.k, OpcOf(c, sub), sub.sqn + 1 + i, r.plmn, sub.amf, r.rands[i]);
    hide Draw;
  }

  /** The OPc: the subscriber's own, else made of its key and OP, else the test network's. */
  lemma OpcByteByByte(c: Crypto, sub: Subscriber, j: nat)
    ensures sub.opc != [] ==> OpcOf(c, sub) == sub.opc
    ensures sub.opc == [] && |sub.op| == 16 ==>
            |OpcOf(c, sub)| == 16 && (j < 16 ==> OpcOf(c, sub)[j] == XorByte(Cipher(c, sub.k, sub.op, j), sub.op[j]))
    ensures sub.opc == [] && sub.op == [] ==>
            |OpcOf(c, sub)| == 16 && FromBytes(OpcOf(c, sub)) == 0xE8ED289DEBA952E4283B54E88E6183CA
  {
    hide XorByte;
    if sub.opc == [] && sub.op == [] { DefaultOpc(); }
  }

  lemma OneMore(a: Bytes, x: Byte)
    ensures FromBytes(a + [x]) == 256 * FromBytes(a) + x
  {
    assert (a + [x])[..|a|] == a;
  }

  lemma FourMore(a: Bytes, w: Byte, x: Byte, y: Byte, z: Byte)
    ensures FromBytes(a + [w, x, y, z]) ==
            0x1_0000_0000 * FromBytes(a) + 0x100_0000 * w + 0x1_0000 * x + 0x100 * y + z
  {
    var b := a + [w, x, y, z];
    OneMore(a, w);
    OneMore(a + [w], x);
    OneMore(a + [w] + [x], y);
    OneMore(a + [w] + [x] + [y], z);
    assert b == a + [w] + [x] + [y] + [z];
    hide FromBytes;
  }

  lemma DefaultOpc()
    ensures FromBytes(DEFAULT_OPC) == 0xE8ED289DEBA952E4283B54E88E6183CA
  {
    var d := DEFAULT_OPC;
    FourMore([], d[0], d[1], d[2], d[3]);
    assert [] + [d[0], d[1], d[2], d[3]] == d[..4];
    FourMore(d[..4], d[4], d[5], d[6], d[7]);
    assert d[..4] + [d[4], d[5], d[6], d[7]] == d[..8];
    FourMore(d[..8], d[8], d[9], d[10], d[11]);
    assert d[..8] + [d[8], d[9], d[10], d[11]] == d[..12];
    FourMore(d[..12], d[12], d[13], d[14], d[15]);
    assert d[..12] + [d[12], d[13], d[14], d[15]] == d;
    hide FromBytes;
  }

  /** Every request is counted; it fails for an unknown or inactive subscriber, and then nothing else changes;
      otherwise there is one vector for each that was asked for, unless an SQN does not fit. */
  lemma AirAnswersExactly(c: Crypto, s: State, r: Request)
    requires WellFormed(r)
    ensures var (s', answer) := Air(c, s, r);
            && s'.airRequests == s.airRequests + 1
            && s'.authFailures ==
               s.authFailures + (if answer in {Ok(Answer(5001, [])), Ok(Answer(5004, []))} then 1 else 0)
            && (answer == Ok(Answer(5001, [])) <==> r.imsi !in s.subscribers)
            && (answer == Ok(Answer(5004, [])) <==> r.imsi in s.subscribers && !s.subscribers[r.imsi].active)
            && (answer.Ok? ==> answer.value.resultCode in {2001, 5001, 5004})
            && (answer.Ok? && answer.value.resultCode == 2001 ==> |answer.value.vectors| == |r.rands|)
            && s'.subscribers.Keys == s.subscribers.Keys
            && (forall imsi | imsi in s.subscribers && (imsi != r.imsi || !s.subscribers[imsi].active) ::
                  s'.subscribers[imsi] == s.subscribers[imsi])
  {
    if r.imsi in s.subscribers { DrawSucceeds(c, s.subscribers[r.imsi], r.plmn, r.rands); }
    hide Draw;
  }

  // ---------- the service ----------

  class HssContext {
    const crypto: Crypto
    var subscribers: map<string, Subscriber>
    var airRequests: nat
    var authFailures: nat

    function View(): State reads this { State(subscribers, airRequests, authFailures) }

    constructor (crypto: Crypto, subscribers: map<string, Subscriber>)
      ensures this.crypto == crypto && View() == State(subscribers, 0, 0)
    {
      this.crypto, this.subscribers, airRequests, authFailures := crypto, subscribers, 0, 0;
    }

    method IncrementSqn(imsi: string) returns (sqn: int)
      modifies this`subscribers
      ensures imsi in old(subscribers) ==>
                sqn == old(subscribers)[imsi].sqn + 1 &&
                  subscribers == old(subscribers)[imsi := old(subscribers)[imsi].(sqn := sqn)]
      ensures imsi !in old(subscribers) ==> sqn == 0 && subscribers == old(subscribers)
    {
      if imsi !in subscribers { return 0; }
      sqn := subscribers[imsi].sqn + 1;
      subscribers := subscribers[imsi := subscribers[imsi].(sqn := sqn)];
    }

    method AuthenticationInformationRequest(r: Request) returns (answer: Result<Answer, Failure>)
      requires WellFormed(r)
      modifies this
      ensures (View(), answer) == Air(crypto, old(View()), r)
    {
      airRequests := airRequests + 1;
      if r.imsi !in subscribers {
        authFailures := authFailures + 1;
        return Ok(Answer(5001, []));
      }
      if !subscribers[r.imsi].active {
        authFailures := authFailures + 1;
        return Ok(Answer(5004, []));
      }
      answer := MakeVectors(r);
    }

    method MakeVectors(r: Request) returns (answer: Result<Answer, Failure>)
      requires WellFormed(r) && r.imsi in subscribers
      modifies this`subscribers
      ensures var sub := old(subscribers)[r.imsi];
              var (sqn, vectors) := Draw(crypto, sub, r.plmn, r.rands);
              && subscribers == old(subscribers)[r.imsi := sub.(sqn := sqn)]
              && answer == if vectors.None? then Err(SqnOverflow) else Ok(Answer(2001, vectors.value))
    {
      var sub := subscribers[r.imsi];
      var opc := sub.opc;
      if opc == [] && sub.op != [] {
        opc := Xor(Aes(crypto, sub.k, sub.op), sub.op);
      } else if opc == [] {
        opc := DEFAULT_OPC;
      }
      assert opc == OpcOf(crypto, sub);
      hide Vector, OpcOf, Aes, Xor;
      answer := VectorLoop(r, sub, opc);
    }

    method VectorLoop(r: Request, sub: Subscriber, opc: Bytes) returns (answer: Result<Answer, Failure>)
      requires WellFormed(r) && r.imsi in subscribers && sub == subscribers[r.imsi] && opc == OpcOf(crypto, sub)
      modifies this`subscribers
      ensures var (sqn, vectors) := Draw(crypto, sub, r.plmn, r.rands);
              && subscribers == old(subscribers)[r.imsi := sub.(sqn := sqn)]
              && answer == if vectors.None? then Err(SqnOverflow) else Ok(Answer(2001, vectors.value))
    {
      hide Vector, OpcOf;
      var vectors := [];
      var sqn := sub.sqn;
      var i := 0;
      ghost var before := subscribers;
      assert before == before[r.imsi := sub.(sqn := sqn)];
      while i < r.numVectors
        invariant 0 <= i <= |r.rands|
        invariant subscribers == before[r.imsi := sub.(sqn := sqn)]
        invariant Draw(crypto, sub, r.plmn, r.rands[..i]) == (sqn, Some(vectors))
      {
        assert r.rands[..i + 1][..i] == r.rands[..i];
        sqn := IncrementSqn(r.imsi);
        assert subscribers == before[r.imsi := sub.(sqn := sqn)];
        if !FitsSixBytes(sqn) {
          DrawStaysFailed(crypto, sub, r.plmn, r.rands, i + 1);
          return Err(SqnOverflow);
        }
        vectors := vectors + [Vector(crypto, sub.k, opc, sqn, r.plmn, sub.amf, r.rands[i])];
        i := i + 1;
      }
      assert r.rands[..i] == r.rands;
      answer := Ok(Answer(2001, vectors));
    }
  }

  lemma {:induction false} DrawStaysFailed(c: Crypto, sub: Subscriber, plmn: Bytes, rands: seq<Bytes>, i: nat)
    requires i <= |rands| && Draw(c, sub, plmn, rands[..i]).1.None?
    ensures Draw(c, sub, plmn, rands) == Draw(c, sub, plmn, rands[..i])
  {
    if i == |rands| {
      assert rands[..i] == rands;
    } else {
      assert rands[..|rands| - 1][..i] == rands[..i];
      DrawStaysFailed(c, sub, plmn, rands[..|rands| - 1], i);
    }
  }
}
