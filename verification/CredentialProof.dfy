/** The verifier's side of a credential proof: two encrypted TLS records become the public statements of the
  * proofs, and all of them together say what the records decrypt to.
  */
module CredentialProof {
  import opened Wrappers
  import opened ChachaBlock
  import opened CredentialCircuit

  datatype Bundle = Bundle(commitment: Bytes, macKeys: (Bytes, Bytes), proofs: seq<Bytes>)

  datatype Input = Input(key: Option<Bytes>, nonce: Bytes, tokenRecord: Bytes, updateRecord: Bytes)

  datatype Error =
    | InvalidLength | InvalidRecordSize | InvalidRecordHeader | InvalidCredentialLength | NoncanonicalCommitment
    | KeyMismatch | AuthenticationFailed | KeyPresent | MissingProofs | ProofFailed | ConstraintsFailed

  /** The foreign primitives: the commitment to a key and the Poly1305 tag of a message under a one-time key. */
  datatype Primitives = Primitives(commit: Key -> Bytes, tag: (Bytes, MacKey) -> Bytes)

  // ---------------------------------------------------------------- bytes and nonces

  function Byte(n: int): (b: bv8)
    requires 0 <= n < 256
    ensures b as int == n
  {
    n as bv8
  }

  function BigEndian(n: nat, width: nat): (r: Bytes)
    ensures |r| == width
  {
    if width == 0 then [] else BigEndian(n / 256, width - 1) + [Byte(n % 256)]
  }

  function Value(b: Bytes): nat {
    if b == [] then 0 else 256 * Value(b[..|b| - 1]) + b[|b| - 1] as int
  }

  function Power(width: nat): (p: nat)
    ensures p > 0
  {
    if width == 0 then 1 else 256 * Power(width - 1)
  }

  lemma {:induction false} BigEndianRoundTrip(n: nat, width: nat)
    requires n < Power(width)
    ensures Value(BigEndian(n, width)) == n
  {
    if width > 0 {
      BigEndianRoundTrip(n / 256, width - 1);
      var r := BigEndian(n, width);
      assert r[..|r| - 1] == BigEndian(n / 256, width - 1);
    }
  }

  /** Section 5.3 of RFC 8446: the sequence number, padded to the left, is combined with the static vector. */
  function RecordNonce(iv: Nonce, index: nat): Nonce {
    seq(12, k requires 0 <= k < 12 => if k < 4 then iv[k] else Xor(iv[k], BigEndian(index, 8)[k - 4]))
  }

  lemma XorCancels(a: bv8, b: bv8, c: bv8)
    requires Xor(a, b) == Xor(a, c)
    ensures b == c
  {
    assert a ^ (a ^ b) == b;
    assert a ^ (a ^ c) == c;
  }

  /** Records of one connection never share a nonce. */
  lemma RecordNoncesDiffer(iv: Nonce, i: nat, j: nat)
    requires i < Power(8) && j < Power(8) && RecordNonce(iv, i) == RecordNonce(iv, j)
    ensures i == j
  {
    hide Xor, Power;
    forall k | 0 <= k < 8
      ensures BigEndian(i, 8)[k] == BigEndian(j, 8)[k]
    {
      assert RecordNonce(iv, i)[k + 4] == RecordNonce(iv, j)[k + 4];
      XorCancels(iv[k + 4], BigEndian(i, 8)[k], BigEndian(j, 8)[k]);
    }
    assert BigEndian(i, 8) == BigEndian(j, 8);
    BigEndianRoundTrip(i, 8);
    BigEndianRoundTrip(j, 8);
  }

  method NonceAt(iv: Nonce, index: nat) returns (nonce: Nonce)
    ensures nonce == RecordNonce(iv, index)
  {
    hide Xor;
    var v := new bv8[12](i requires 0 <= i < 12 => iv[i]);
    var number := BigEndian(index, 8);
    for i := 0 to 8
      invariant forall k :: 0 <= k < 12 ==> v[k] == if 4 <= k < 4 + i then Xor(iv[k], number[k - 4]) else iv[k]
    {
      v[4 + i] := Xor(v[4 + i], number[i]);
    }
    nonce := v[..];
  }

  // ---------------------------------------------------------------- records and their authentication

  /** An application data record of an acceptable size: header, ciphertext, tag (section 5.2 of RFC 8446). */
  function RecordFault(b: Bytes): Option<Error> {
    if |b| < 22 || |b| > MAX_TOKEN + 22 then Some(InvalidRecordSize)
    else if b[..3] != [23, 3, 3] || Value(b[3..5]) != |b| - 5 then Some(InvalidRecordHeader)
    else None
  }

  function Ciphertext(record: Bytes): Bytes
    requires |record| >= 22
  {
    record[5..|record| - 16]
  }

  function Tag(record: Bytes): Bytes
    requires |record| >= 22
  {
    record[|record| - 16..]
  }

  function Zeros(n: nat): (r: Bytes)
    ensures |r| == n
  {
    seq(n, _ => 0)
  }

  /** Zeros up to the next multiple of sixteen bytes. */
  function Pad16(n: nat): (r: Bytes)
    ensures |r| < 16 && (n + |r|) % 16 == 0
  {
    Zeros((16 - n % 16) % 16)
  }

  /** Byte k of a number, from the lowest. */
  function ByteOf(n: nat, k: nat): bv8 {
    if k == 0 then Byte(n % 256) else ByteOf(n / 256, k - 1)
  }

  function LittleEndian64(n: nat): (r: Bytes)
    ensures |r| == 8
  {
    seq(8, k requires 0 <= k < 8 => ByteOf(n, k))
  }

  /** Section 2.8 of RFC 8439: the message that is authenticated. */
  function AuthenticatedData(aad: Bytes, ciphertext: Bytes): Bytes {
    aad + Pad16(|aad|) + ciphertext + Pad16(|ciphertext|)
    + LittleEndian64(|aad|) + LittleEndian64(|ciphertext|)
  }

  /** Two different records never authenticate the same message. */
  lemma AuthenticatedDataIsInjective(aad: Bytes, ciphertext: Bytes, other: Bytes, otherText: Bytes)
    requires |aad| == |other| == 5
    requires AuthenticatedData(aad, ciphertext) == AuthenticatedData(other, otherText)
    ensures aad == other && ciphertext == otherText
  {
    hide AuthenticatedData, LittleEndian64, Pad16;
    DataLayout(aad, ciphertext);
    DataLayout(other, otherText);
    LowestByte(|ciphertext|);
    LowestByte(|otherText|);
  }

  /** Where the parts of the message are. */
  lemma DataLayout(aad: Bytes, ciphertext: Bytes)
    requires |aad| == 5
    ensures var m := AuthenticatedData(aad, ciphertext);
            && |m| == 32 + |ciphertext| + |Pad16(|ciphertext|)| && m[..5] == aad && m[16..16 + |ciphertext|] == ciphertext
            && m[|m| - 8] == LittleEndian64(|ciphertext|)[0]
  {
    hide LittleEndian64;
  }

  lemma LowestByte(n: nat)
    ensures LittleEndian64(n)[0] as int == n % 256
  {
  }

  method Authenticate(p: Primitives, record: Bytes, key: MacKey) returns (ok: bool)
    requires |record| >= 22
    ensures ok <==> p.tag(AuthenticatedData(record[..5], Ciphertext(record)), key) == Tag(record)
  {
    hide LittleEndian64;
    var ciphertext := record[5..|record| - 16];
    var data: Bytes := [];
    data := data + record[..5];
    data := data + Zeros(11);
    data := data + ciphertext;
    data := data + Zeros((16 - |ciphertext| % 16) % 16);
    data := data + (LittleEndian64(5) + LittleEndian64(|ciphertext|));
    assert Zeros(11) == Pad16(5);
    assert |record[..5]| == 5;
    assert data == AuthenticatedData(record[..5], ciphertext);
    ok := p.tag(data, key) == record[|record| - 16..];
  }

  // ---------------------------------------------------------------- the statements

  datatype Circuit = Circuit(key: Key, statement: Statement)

  /** The commitments that the circuit can produce: canonical field elements of 32 bytes. */
  ghost predicate Canonical(p: Primitives) {
    forall key: Key :: |p.commit(key)| == 32 && Value(p.commit(key)) < FIELD
  }

  function Digest(p: Primitives, key: Key): Elem
    requires Canonical(p)
  {
    Value(p.commit(key))
  }

  function Padded(b: Bytes, width: nat): (r: Bytes)
    ensures |r| == width
  {
    seq(width, i requires 0 <= i < width => if i < |b| then b[i] else 0)
  }

  function ChunkCount(length: nat): nat {
    (length + CHUNK - 1) / CHUNK
  }

  function ChunkEnd(length: nat, k: nat): nat {
    if CHUNK * k + CHUNK > length then length else CHUNK * k + CHUNK
  }

  function MacStatement(tokenLength: Elem, digest: Elem, nonce: Nonce, macKey: MacKey): Statement {
    Statement(0, 0, 32, tokenLength, digest, nonce, Zeros(CHUNK), macKey)
  }

  /** Chunk number k of a ciphertext. */
  function ChunkStatement(kind: Elem, tokenLength: Elem, digest: Elem, nonce: Nonce, ciphertext: Bytes, k: nat): Statement
    requires |ciphertext| <= MAX_TOKEN + 1 && k < ChunkCount(|ciphertext|)
  {
    var end := ChunkEnd(|ciphertext|, k);
    Statement(kind, 1 + CHUNK * k / 64, end - CHUNK * k, tokenLength, digest, nonce,
              Padded(ciphertext[CHUNK * k..end], CHUNK), Zeros(32))
  }

  function RecordStatements(kind: Elem, tokenLength: Elem, digest: Elem, nonce: Nonce, ciphertext: Bytes, macKey: MacKey):
    seq<Statement>
    requires |ciphertext| <= MAX_TOKEN + 1
  {
    [MacStatement(tokenLength, digest, nonce, macKey)]
    + seq(ChunkCount(|ciphertext|), k requires 0 <= k < ChunkCount(|ciphertext|) =>
            ChunkStatement(kind, tokenLength, digest, nonce, ciphertext, k))
  }

  function MacFault(p: Primitives, record: Bytes, macKey: Bytes): Option<Error>
    requires |record| >= 22
  {
    if |macKey| != 32 then Some(InvalidLength)
    else if p.tag(AuthenticatedData(record[..5], Ciphertext(record)), macKey) != Tag(record)
    then Some(AuthenticationFailed)
    else None
  }

  function KeyFault(p: Primitives, key: Option<Bytes>, commitment: Bytes): Option<Error> {
    if key.None? then None
    else if |key.value| != 32 then Some(InvalidLength)
    else if p.commit(key.value) != commitment then Some(KeyMismatch)
    else None
  }

  function InputFault(input: Input): Option<Error> {
    if |input.nonce| != 12 then Some(InvalidLength)
    else if RecordFault(input.tokenRecord).Some? then RecordFault(input.tokenRecord)
    else if RecordFault(input.updateRecord).Some? then RecordFault(input.updateRecord)
    else if |input.tokenRecord| - 22 < 64 || |input.updateRecord| != 27 then Some(InvalidCredentialLength)
    else None
  }

  /** The first reason, in the order of the checks, why an input is refused before any proof is looked at. */
  function Fault(p: Primitives, input: Input, b: Bundle): Option<Error> {
    if InputFault(input).Some? then InputFault(input)
    else if |b.commitment| != 32 then Some(InvalidLength)
    else if Value(b.commitment) >= FIELD then Some(NoncanonicalCommitment)
    else if KeyFault(p, input.key, b.commitment).Some? then KeyFault(p, input.key, b.commitment)
    else if MacFault(p, input.tokenRecord, b.macKeys.0).Some? then MacFault(p, input.tokenRecord, b.macKeys.0)
    else MacFault(p, input.updateRecord, b.macKeys.1)
  }

  function TokenLength(input: Input): Elem
    requires InputFault(input).None?
  {
    |input.tokenRecord| - 22
  }

  /** All public statements of the two records. */
  function Statements(p: Primitives, input: Input, b: Bundle): seq<Statement>
    requires Fault(p, input, b).None?
  {
    var length, digest := TokenLength(input), Value(b.commitment);
    RecordStatements(1, length, digest, RecordNonce(input.nonce, 0), Ciphertext(input.tokenRecord), b.macKeys.0)
    + RecordStatements(2, length, digest, RecordNonce(input.nonce, 1), Ciphertext(input.updateRecord), b.macKeys.1)
  }

  // ---------------------------------------------------------------- what an input without fault looks like

  /** A record as its bytes say: content type 23, version 3.3, and the length of the rest in two bytes. */
  predicate IsRecord(b: Bytes) {
    && 22 <= |b| <= 4118 && b[0] == 23 && b[1] == 3 && b[2] == 3
    && 256 * (b[3] as int) + b[4] as int == |b| - 5
  }

  lemma TwoBytes(b: Bytes)
    requires |b| == 2
    ensures Value(b) == 256 * (b[0] as int) + b[1] as int
  {
    assert b[..1][..0] == [] && b[..1][0] == b[0];
    assert Value(b[..1]) == b[0] as int;
  }

  lemma RecordIsFaultless(b: Bytes)
    ensures RecordFault(b).None? <==> IsRecord(b)
    ensures RecordFault(b) == Some(InvalidRecordSize) <==> !(22 <= |b| <= 4118)
  {
    if |b| >= 22 {
      TwoBytes(b[3..5]);
      assert b[3..5][0] == b[3] && b[3..5][1] == b[4];
      assert b[..3] == [23, 3, 3] <==> b[0] == 23 && b[1] == 3 && b[2] == 3;
    }
    hide Value;
  }

  /** An input is looked at further exactly when both records are application data records with a right header, the first
    * with room for 64 to 4096 characters, the second with room for a key update, and the nonce has twelve bytes.
    */
  lemma InputIsFaultless(input: Input)
    ensures InputFault(input).None?
            <==> && |input.nonce| == 12 && IsRecord(input.tokenRecord) && IsRecord(input.updateRecord)
                 && 64 + 22 <= |input.tokenRecord| <= 4096 + 22 && |input.updateRecord| == 5 + 6 + 16
  {
    RecordIsFaultless(input.tokenRecord);
    RecordIsFaultless(input.updateRecord);
    hide RecordFault;
  }

  /** Header, ciphertext and tag are all of a record. */
  lemma RecordParts(b: Bytes)
    requires |b| >= 22
    ensures b == b[..5] + Ciphertext(b) + Tag(b) && |Ciphertext(b)| == |b| - 21 && |Tag(b)| == 16
  {
  }

  /** What all checks together leave to be proved: the commitment is a field element, a given key is the committed one, and
    * both tags are right under keys of 32 bytes.
    */
  lemma FaultlessMeans(p: Primitives, input: Input, b: Bundle)
    ensures Fault(p, input, b).None?
            <==> && InputFault(input).None? && |b.commitment| == 32 && Value(b.commitment) < FIELD
                 && (input.key.Some? ==> |input.key.value| == 32 && p.commit(input.key.value) == b.commitment)
                 && |b.macKeys.0| == |b.macKeys.1| == 32
                 && p.tag(AuthenticatedData(input.tokenRecord[..5], Ciphertext(input.tokenRecord)), b.macKeys.0)
                    == Tag(input.tokenRecord)
                 && p.tag(AuthenticatedData(input.updateRecord[..5], Ciphertext(input.updateRecord)), b.macKeys.1)
                    == Tag(input.updateRecord)
  {
    hide Value, AuthenticatedData, Ciphertext, Tag, RecordFault;
  }

  /** The first record has the connection's own vector as its nonce, the second differs from it in the last byte. */
  lemma FirstNonces(iv: Nonce)
    ensures RecordNonce(iv, 0) == iv
    ensures RecordNonce(iv, 1) == iv[11 := Xor(iv[11], 1)]
  {
    assert BigEndian(0, 8) == Zeros(8) by { BigEndianOfSmall(0, 8); }
    assert BigEndian(1, 8) == Zeros(7) + [1] by { BigEndianOfSmall(1, 8); }
    forall k | 0 <= k < 12 ensures Xor(iv[k], 0) == iv[k] { XorNothing(iv[k]); }
    hide Xor, BigEndian;
  }

  lemma XorNothing(b: bv8)
    ensures Xor(b, 0) == b
  {
  }

  lemma {:induction false} BigEndianOfSmall(n: nat, width: nat)
    requires n < 256 && width > 0
    ensures BigEndian(n, width) == Zeros(width - 1) + [Byte(n)]
  {
    BigEndianOfZero(width - 1);
    assert n / 256 == 0;
  }

  lemma {:induction false} BigEndianOfZero(width: nat)
    ensures BigEndian(0, width) == Zeros(width)
  {
    if width > 0 { BigEndianOfZero(width - 1); }
  }

  function WithKey(statements: seq<Statement>, key: Key): (r: seq<Circuit>)
    ensures |r| == |statements|
  {
    seq(|statements|, i requires 0 <= i < |statements| => Circuit(key, statements[i]))
  }

  method MakeAssignment(key: Key, kind: Elem, counter: Elem, length: Elem, tokenLength: Elem, digest: Elem,
                        nonce: Nonce, ct: Bytes, macKey: Bytes)
    returns (c: Circuit)
    requires |ct| <= CHUNK && |macKey| <= 32
    ensures c == Circuit(key, Statement(kind, counter, length, tokenLength, digest, nonce,
                                        Padded(ct, CHUNK), Padded(macKey, 32)))
  {
    var ciphertext := Fill(ct, CHUNK);
    var padded := Fill(macKey, 32);
    c := Circuit(key, Statement(kind, counter, length, tokenLength, digest, nonce, ciphertext, padded));
  }

  method Fill(b: Bytes, width: nat) returns (r: Bytes)
    ensures r == Padded(b, width)
  {
    var a := new bv8[width];
    for i := 0 to width
      invariant forall k :: 0 <= k < i ==> a[k] == if k < |b| then b[k] else 0
    {
      a[i] := 0;
      if i < |b| {
        a[i] := b[i];
      }
    }
    r := a[..];
  }

  /** The statements of one record, appended in the order of its bytes. */
  method AssignRecord(key: Key, kind: Elem, tokenLength: Elem, digest: Elem, nonce: Nonce, ct: Bytes, mac: MacKey)
    returns (out: seq<Circuit>)
    requires |ct| <= MAX_TOKEN + 1
    ensures out == WithKey(RecordStatements(kind, tokenLength, digest, nonce, ct, mac), key)
  {
    var first := MakeAssignment(key, 0, 0, 32, tokenLength, digest, nonce, [], mac);
    assert Padded([], CHUNK) == Zeros(CHUNK) && Padded(mac, 32) == mac && Padded([], 32) == Zeros(32);
    out := [first];
    ghost var all := RecordStatements(kind, tokenLength, digest, nonce, ct, mac);
    var offset, k := 0, 0;
    while offset < |ct|
      invariant offset == CHUNK * k && k <= ChunkCount(|ct|)
      invariant out == WithKey(all[..k + 1], key)
    {
      var end := offset + CHUNK;
      if end > |ct| {
        end := |ct|;
      }
      assert k < ChunkCount(|ct|);
      var c := MakeAssignment(key, kind, 1 + offset / 64, end - offset, tokenLength, digest, nonce, ct[offset..end], []);
      assert c == Circuit(key, all[k + 1]);
      out := out + [c];
      offset, k := offset + CHUNK, k + 1;
    }
    assert all[..k + 1] == all;
  }

  /** Builds every public input from the observed records. */
  method Assignments(p: Primitives, input: Input, b: Bundle) returns (r: Result<seq<Circuit>, Error>)
    ensures Fault(p, input, b).Some? ==> r == Failure(Fault(p, input, b).value)
    ensures Fault(p, input, b).None? ==>
              r == Success(WithKey(Statements(p, input, b), if input.key.Some? then input.key.value else Zeros(32)))
  {
    hide RecordStatements, AuthenticatedData, Block, Value;
    if InputFault(input).Some? {
      return Failure(InputFault(input).value);
    }
    var tokenLength := |input.tokenRecord| - 22;
    if |b.commitment| != 32 {
      return Failure(InvalidLength);
    }
    if Value(b.commitment) >= FIELD {
      return Failure(NoncanonicalCommitment);
    }
    var digest: Elem := Value(b.commitment);
    if KeyFault(p, input.key, b.commitment).Some? {
      return Failure(KeyFault(p, input.key, b.commitment).value);
    }
    var key: Key := if input.key.Some? then input.key.value else Zeros(32);
    var out: seq<Circuit> := [];
    for index := 0 to 2
      invariant index > 0 ==> MacFault(p, input.tokenRecord, b.macKeys.0).None?
      invariant index > 1 ==> MacFault(p, input.updateRecord, b.macKeys.1).None?
      invariant index == 0 ==> out == []
      invariant index == 1 ==> out == WithKey(
          RecordStatements(1, tokenLength, digest, RecordNonce(input.nonce, 0), Ciphertext(input.tokenRecord), b.macKeys.0), key)
      invariant index == 2 ==> out == WithKey(Statements(p, input, b), key)
    {
      var record := if index == 0 then input.tokenRecord else input.updateRecord;
      var nonce := NonceAt(input.nonce, index);
      var mac := if index == 0 then b.macKeys.0 else b.macKeys.1;
      if |mac| != 32 {
        return Failure(InvalidLength);
      }
      var ok := Authenticate(p, record, mac);
      if !ok {
        return Failure(AuthenticationFailed);
      }
      var more := AssignRecord(key, if index == 0 then 1 else 2, tokenLength, digest, nonce, Ciphertext(record), mac);
      out := out + more;
    }
    r := Success(out);
  }
}
