/** What the credential proofs establish together: the two records open under one committed key. */
module CredentialSoundness {
  import opened Wrappers
  import opened ChachaBlock
  import opened CredentialCircuit
  import opened CredentialProof

  /** The one-time key of section 2.6 of RFC 8439. */
  function OneTimeKey(key: Key, nonce: Nonce): MacKey {
    Block(key, nonce, 0)[..32]
  }

  /** Section 2.4 of RFC 8439, with the initial counter 1 of section 2.8. */
  function Decrypt(key: Key, nonce: Nonce, ciphertext: Bytes): (r: Bytes)
    ensures |r| == |ciphertext|
  {
    seq(|ciphertext|, i requires 0 <= i < |ciphertext| =>
          Xor(ciphertext[i], Block(key, nonce, Counter32(1 + i / 64))[i % 64]))
  }

  /** Authenticated decryption of a record whose header is the additional data. */
  function Open(p: Primitives, key: Key, nonce: Nonce, record: Bytes): Option<Bytes>
    requires |record| >= 22
  {
    if p.tag(AuthenticatedData(record[..5], Ciphertext(record)), OneTimeKey(key, nonce)) != Tag(record) then None
    else Some(Decrypt(key, nonce, Ciphertext(record)))
  }

  predicate IsToken(token: Bytes) {
    64 <= |token| <= MAX_TOKEN && forall i :: 0 <= i < |token| ==> TokenByte(token[i] as int)
  }

  /** The record opens to a token and nothing else. */
  ghost predicate TokenOpens(p: Primitives, key: Key, nonce: Nonce, record: Bytes)
    requires |record| >= 22
  {
    exists token :: IsToken(token) && Open(p, key, nonce, record) == Some(token + [APPLICATION_DATA])
  }

  /** The token record holds exactly a token, and the record after it exactly a key update. */
  ghost predicate Established(p: Primitives, key: Key, input: Input)
    requires InputFault(input).None?
  {
    && TokenOpens(p, key, RecordNonce(input.nonce, 0), input.tokenRecord)
    && Open(p, key, RecordNonce(input.nonce, 1), input.updateRecord) == Some(KEY_UPDATE)
  }

  // ---------------------------------------------------------------- the decomposition

  lemma CounterZero()
    ensures Counter32(0) == 0
  {
  }

  lemma XorZero(b: bv8)
    ensures Xor(0, b) == b
  {
  }

  /** A statement of kind 0 says that the key used for authentication is the one-time key. */
  lemma MacMeaning(tokenLength: Elem, commitment: Elem, nonce: Nonce, macKey: MacKey, key: Key, digest: Elem)
    requires 64 <= tokenLength <= MAX_TOKEN
    ensures Means(MacStatement(tokenLength, commitment, nonce, macKey), key, digest)
            <==> digest == commitment && macKey == OneTimeKey(key, nonce)
  {
    hide Block, Xor, Counter32, TokenPosition;
    var c := MacStatement(tokenLength, commitment, nonce, macKey);
    CounterZero();
    forall i | 0 <= i < CHUNK
      ensures ByteMeans(c, key, i) <==> (i < 32 ==> macKey[i] == Block(key, nonce, 0)[i])
    {
      if i < 32 { XorZero(Block(key, nonce, 0)[i]); }
    }
    assert HeaderMeans(c);
    if Means(c, key, digest) {
      forall i | 0 <= i < 32 ensures macKey[i] == OneTimeKey(key, nonce)[i] {
        assert ByteMeans(c, key, i);
      }
    }
  }

  lemma PositionInChunk(k: nat, i: nat)
    ensures CHUNK * k / 64 == 4 * k && (CHUNK * k + i) / 64 == 4 * k + i / 64 && (CHUNK * k + i) % 64 == i % 64
  {
  }

  lemma ChunkHolds(kind: Elem, tokenLength: Elem, commitment: Elem, nonce: Nonce, ct: Bytes, k: nat, i: nat)
    requires |ct| <= MAX_TOKEN + 1 && k < ChunkCount(|ct|) && i < ChunkEnd(|ct|, k) - CHUNK * k
    ensures i < CHUNK && CHUNK * k + i < |ct|
    ensures var c := ChunkStatement(kind, tokenLength, commitment, nonce, ct, k);
            c.ciphertext[i] == ct[CHUNK * k + i] && c.counter == 1 + 4 * k && c.nonce == nonce
  {
    PositionInChunk(k, i);
  }

  /** The bytes of a chunk decrypt as they do in the whole record. */
  lemma ChunkPlain(kind: Elem, tokenLength: Elem, commitment: Elem, nonce: Nonce, ct: Bytes, k: nat, key: Key, i: nat)
    requires |ct| <= MAX_TOKEN + 1 && k < ChunkCount(|ct|) && i < ChunkEnd(|ct|, k) - CHUNK * k
    ensures Plain(ChunkStatement(kind, tokenLength, commitment, nonce, ct, k), key, i)
            == Decrypt(key, nonce, ct)[CHUNK * k + i]
  {
    hide Block, Xor, Counter32, ChunkStatement, ChunkEnd, ChunkCount;
    ChunkHolds(kind, tokenLength, commitment, nonce, ct, k, i);
    PositionInChunk(k, i);
  }

  /** The counters and positions of every chunk stay within what the circuit accepts. */
  lemma ChunkIsInRange(kind: Elem, tokenLength: Elem, commitment: Elem, nonce: Nonce, ct: Bytes, k: nat)
    requires 64 <= tokenLength <= MAX_TOKEN && k < ChunkCount(|ct|)
    requires if kind == 1 then |ct| == tokenLength + 1 else kind == 2 && |ct| == 6
    ensures HeaderMeans(ChunkStatement(kind, tokenLength, commitment, nonce, ct, k))
  {
  }

  lemma ComparisonsAreInRange(tokenLength: Elem, ct: Bytes, k: nat, i: Elem)
    requires 64 <= tokenLength <= MAX_TOKEN && k < ChunkCount(|ct|) && i < CHUNK
    requires |ct| == tokenLength + 1 || |ct| == 6
    ensures CHUNK * k + i <= 64 * 64 + CHUNK - 1
    ensures Comparable(tokenLength, CHUNK * k + i) && Comparable(i, ChunkEnd(|ct|, k) - CHUNK * k)
  {
    assert ChunkCount(|ct|) <= 17;
  }

  /** Token characters, and the content type at the end, in a stretch of the plaintext. */
  predicate TokenStretch(plain: Bytes, tokenLength: int, from: int, to: int)
    requires 0 <= from <= to <= |plain|
  {
    forall j :: from <= j < to ==> TokenPosition(plain[j], j, tokenLength)
  }

  /** A token chunk says of its bytes what the whole record says of them. */
  lemma TokenChunkMeaning(tokenLength: Elem, commitment: Elem, nonce: Nonce, ct: Bytes, k: nat, key: Key, digest: Elem)
    requires 64 <= tokenLength <= MAX_TOKEN && |ct| == tokenLength + 1 && k < ChunkCount(|ct|)
    ensures Means(ChunkStatement(1, tokenLength, commitment, nonce, ct, k), key, digest)
            <==> digest == commitment && TokenStretch(Decrypt(key, nonce, ct), tokenLength, CHUNK * k, ChunkEnd(|ct|, k))
  {
    hide Block, Xor, Counter32, TokenPosition, Decrypt, Plain;
    var c := ChunkStatement(1, tokenLength, commitment, nonce, ct, k);
    ChunkIsInRange(1, tokenLength, commitment, nonce, ct, k);
    hide HeaderMeans;
    forall i | 0 <= i < CHUNK
      ensures ByteMeans(c, key, i) <==>
                (i < c.length ==> TokenPosition(Decrypt(key, nonce, ct)[CHUNK * k + i], CHUNK * k + i, tokenLength))
    {
      if i < c.length { ChunkPlain(1, tokenLength, commitment, nonce, ct, k, key, i); }
    }
    if Means(c, key, digest) {
      forall j | CHUNK * k <= j < ChunkEnd(|ct|, k) ensures TokenPosition(Decrypt(key, nonce, ct)[j], j, tokenLength) {
        assert ByteMeans(c, key, j - CHUNK * k);
      }
    }
  }

  /** The one statement about the second record. */
  lemma UpdateMeaning(tokenLength: Elem, commitment: Elem, nonce: Nonce, ct: Bytes, key: Key, digest: Elem)
    requires 64 <= tokenLength <= MAX_TOKEN && |ct| == 6
    ensures Means(ChunkStatement(2, tokenLength, commitment, nonce, ct, 0), key, digest)
            <==> digest == commitment && Decrypt(key, nonce, ct) == KEY_UPDATE
  {
    hide Block, Xor, Counter32, TokenPosition, Decrypt, Plain;
    var c := ChunkStatement(2, tokenLength, commitment, nonce, ct, 0);
    ChunkIsInRange(2, tokenLength, commitment, nonce, ct, 0);
    hide HeaderMeans;
    forall i | 0 <= i < CHUNK
      ensures ByteMeans(c, key, i) <==> (i < 6 ==> Decrypt(key, nonce, ct)[i] == KEY_UPDATE[i])
    {
      if i < 6 { ChunkPlain(2, tokenLength, commitment, nonce, ct, 0, key, i); }
    }
    if Means(c, key, digest) {
      forall i | 0 <= i < 6 ensures Decrypt(key, nonce, ct)[i] == KEY_UPDATE[i] {
        assert ByteMeans(c, key, i);
      }
    }
  }

  predicate AllMean(statements: seq<Statement>, key: Key, digest: Elem) {
    forall i :: 0 <= i < |statements| ==> Means(statements[i], key, digest)
  }

  lemma AllMeanSplits(a: seq<Statement>, b: seq<Statement>, key: Key, digest: Elem)
    ensures AllMean(a + b, key, digest) <==> AllMean(a, key, digest) && AllMean(b, key, digest)
  {
    hide Means;
    if AllMean(a + b, key, digest) {
      forall i | 0 <= i < |a| ensures Means(a[i], key, digest) { assert (a + b)[i] == a[i]; }
      forall i | 0 <= i < |b| ensures Means(b[i], key, digest) { assert (a + b)[|a| + i] == b[i]; }
    }
  }

  predicate TokenPlaintext(plain: Bytes, tokenLength: nat)
    requires |plain| == tokenLength + 1
  {
    plain[tokenLength] == APPLICATION_DATA && forall i :: 0 <= i < tokenLength ==> TokenByte(plain[i] as int)
  }

  /** All statements about the token record: nothing is lost or added by looking at it in chunks. */
  lemma TokenRecordMeaning(tokenLength: Elem, commitment: Elem, nonce: Nonce, ct: Bytes, mac: MacKey, key: Key, digest: Elem)
    requires 64 <= tokenLength <= MAX_TOKEN && |ct| == tokenLength + 1
    ensures AllMean(RecordStatements(1, tokenLength, commitment, nonce, ct, mac), key, digest)
            <==> && digest == commitment && mac == OneTimeKey(key, nonce)
                 && TokenPlaintext(Decrypt(key, nonce, ct), tokenLength)
  {
    hide Means, Decrypt, MacStatement, ChunkStatement, OneTimeKey, TokenStretch, TokenPlaintext;
    var plain := Decrypt(key, nonce, ct);
    var all := RecordStatements(1, tokenLength, commitment, nonce, ct, mac);
    MacMeaning(tokenLength, commitment, nonce, mac, key, digest);
    assert all[0] == MacStatement(tokenLength, commitment, nonce, mac);
    forall k | 0 <= k < ChunkCount(|ct|)
      ensures Means(all[k + 1], key, digest)
              <==> digest == commitment && TokenStretch(plain, tokenLength, CHUNK * k, ChunkEnd(|ct|, k))
    {
      TokenChunkMeaning(tokenLength, commitment, nonce, ct, k, key, digest);
    }
    StretchesCover(plain, tokenLength);
    if AllMean(all, key, digest) {
      assert Means(all[0], key, digest);
      forall k | 0 <= k < ChunkCount(|ct|)
        ensures TokenStretch(plain, tokenLength, CHUNK * k, ChunkEnd(|ct|, k))
      {
        assert Means(all[k + 1], key, digest);
      }
    }
    if digest == commitment && mac == OneTimeKey(key, nonce) && TokenPlaintext(plain, tokenLength) {
      forall i | 0 <= i < |all| ensures Means(all[i], key, digest) {
        if i > 0 { assert TokenStretch(plain, tokenLength, CHUNK * (i - 1), ChunkEnd(|ct|, i - 1)); }
      }
    }
  }

  /** The chunks cover the record. */
  lemma StretchesCover(plain: Bytes, tokenLength: nat)
    requires |plain| == tokenLength + 1
    ensures TokenPlaintext(plain, tokenLength)
            <==> forall k :: 0 <= k < ChunkCount(|plain|) ==>
                   TokenStretch(plain, tokenLength, CHUNK * k, ChunkEnd(|plain|, k))
  {
    hide TokenByte;
    if forall k :: 0 <= k < ChunkCount(|plain|) ==> TokenStretch(plain, tokenLength, CHUNK * k, ChunkEnd(|plain|, k)) {
      forall j | 0 <= j <= tokenLength ensures TokenPosition(plain[j], j, tokenLength) {
        var k := j / CHUNK;
        assert TokenStretch(plain, tokenLength, CHUNK * k, ChunkEnd(|plain|, k));
      }
      assert TokenPosition(plain[tokenLength], tokenLength, tokenLength);
    }
  }

  lemma UpdateRecordMeaning(tokenLength: Elem, commitment: Elem, nonce: Nonce, ct: Bytes, mac: MacKey, key: Key, digest: Elem)
    requires 64 <= tokenLength <= MAX_TOKEN && |ct| == 6
    ensures AllMean(RecordStatements(2, tokenLength, commitment, nonce, ct, mac), key, digest)
            <==> digest == commitment && mac == OneTimeKey(key, nonce) && Decrypt(key, nonce, ct) == KEY_UPDATE
  {
    hide Means, Decrypt, MacStatement, ChunkStatement, OneTimeKey;
    var all := RecordStatements(2, tokenLength, commitment, nonce, ct, mac);
    MacMeaning(tokenLength, commitment, nonce, mac, key, digest);
    UpdateMeaning(tokenLength, commitment, nonce, ct, key, digest);
    assert all == [MacStatement(tokenLength, commitment, nonce, mac), ChunkStatement(2, tokenLength, commitment, nonce, ct, 0)];
    assert AllMean(all, key, digest) <==> Means(all[0], key, digest) && Means(all[1], key, digest);
  }

  /** The token record decrypts to token characters and a content type, the other one to a key update. */
  predicate PlaintextsFit(key: Key, input: Input)
    requires InputFault(input).None?
  {
    && TokenPlaintext(Decrypt(key, RecordNonce(input.nonce, 0), Ciphertext(input.tokenRecord)), TokenLength(input))
    && Decrypt(key, RecordNonce(input.nonce, 1), Ciphertext(input.updateRecord)) == KEY_UPDATE
  }

  /** All statements hold for a key exactly when it is the committed key, both keys used for authentication are its
    * one-time keys, and the records decrypt to a token and to a key update.
    */
  lemma DecompositionIsExact(p: Primitives, input: Input, b: Bundle, key: Key, digest: Elem)
    requires Fault(p, input, b).None?
    ensures AllMean(Statements(p, input, b), key, digest)
            <==> && digest == Value(b.commitment)
                 && b.macKeys == (OneTimeKey(key, RecordNonce(input.nonce, 0)), OneTimeKey(key, RecordNonce(input.nonce, 1)))
                 && PlaintextsFit(key, input)
  {
    hide AllMean, Decrypt, OneTimeKey, RecordStatements, RecordNonce, TokenPlaintext, Value;
    var length, d := TokenLength(input), Value(b.commitment);
    var n0, n1 := RecordNonce(input.nonce, 0), RecordNonce(input.nonce, 1);
    var ct0, ct1 := Ciphertext(input.tokenRecord), Ciphertext(input.updateRecord);
    TokenRecordMeaning(length, d, n0, ct0, b.macKeys.0, key, digest);
    UpdateRecordMeaning(length, d, n1, ct1, b.macKeys.1, key, digest);
    AllMeanSplits(RecordStatements(1, length, d, n0, ct0, b.macKeys.0),
                  RecordStatements(2, length, d, n1, ct1, b.macKeys.1), key, digest);
  }

  /** The number of proofs. */
  lemma StatementCount(p: Primitives, input: Input, b: Bundle)
    requires Fault(p, input, b).None?
    ensures |Statements(p, input, b)| == 3 + ChunkCount(TokenLength(input) + 1)
    ensures CHUNK * (ChunkCount(TokenLength(input) + 1) - 1) < TokenLength(input) + 1
            <= CHUNK * ChunkCount(TokenLength(input) + 1)
  {
  }

  // ---------------------------------------------------------------- proving and verifying

  /** Two keys with one commitment. There are such keys, since there are more keys than field elements; the commitment
    * is made so that nobody can name them.
    */
  predicate Collide(p: Primitives, k: Key, l: Key) {
    k != l && Value(p.commit(k)) == Value(p.commit(l))
  }

  /** No other key than the one committed to has this commitment. */
  ghost predicate Binds(p: Primitives, commitment: nat) {
    forall k: Key, l: Key :: Value(p.commit(k)) == commitment && Value(p.commit(l)) == commitment ==> k == l
  }

  /** A proof is accepted only for a statement that holds for some key. */
  ghost predicate Sound(p: Primitives, accepts: (Bytes, Statement) -> bool)
    requires Canonical(p)
  {
    forall proof, c :: accepts(proof, c) ==> exists key: Key :: Means(c, key, Digest(p, key))
  }

  /** A proof is found exactly when the constraints are satisfied, and it is accepted. */
  ghost predicate Complete(p: Primitives, prove: Circuit -> Option<Bytes>, accepts: (Bytes, Statement) -> bool)
    requires Canonical(p)
  {
    forall c: Circuit ::
      && (prove(c).Some? <==> Means(c.statement, c.key, Digest(p, c.key)))
      && (prove(c).Some? ==> accepts(prove(c).value, c.statement))
  }

  /** Everything the verifier checks. */
  predicate Accepted(p: Primitives, accepts: (Bytes, Statement) -> bool, input: Input, b: Bundle) {
    && input.key.None? && Fault(p, input, b).None?
    && |b.proofs| == |Statements(p, input, b)|
    && forall i :: 0 <= i < |b.proofs| ==> accepts(b.proofs[i], Statements(p, input, b)[i])
  }

  method Verify(p: Primitives, accepts: (Bytes, Statement) -> bool, input: Input, bundle: Option<Bundle>)
    returns (error: Option<Error>)
    ensures error.None? <==> bundle.Some? && Accepted(p, accepts, input, bundle.value)
  {
    hide Fault, Statements;
    if input.key.Some? {
      return Some(KeyPresent);
    }
    if bundle.None? {
      return Some(MissingProofs);
    }
    var b := bundle.value;
    var list := Assignments(p, input, b);
    if list.Failure? {
      return Some(list.error);
    }
    ghost var statements := Statements(p, input, b);
    if |b.proofs| != |list.value| {
      return Some(MissingProofs);
    }
    for i := 0 to |list.value|
      invariant forall k :: 0 <= k < i ==> accepts(b.proofs[k], statements[k])
    {
      assert list.value[i].statement == statements[i];
      if !accepts(b.proofs[i], list.value[i].statement) {
        return Some(ProofFailed);
      }
    }
    error := None;
  }

  /** The authentication keys that go with a key. */
  function MacKeys(key: Key, iv: Nonce): (Bytes, Bytes) {
    (OneTimeKey(key, RecordNonce(iv, 0)), OneTimeKey(key, RecordNonce(iv, 1)))
  }

  /** The bundle for a key, before its proofs are made. */
  function Unproved(p: Primitives, key: Key, iv: Nonce): Bundle {
    Bundle(p.commit(key), MacKeys(key, iv), [])
  }

  /** One proof for every circuit, or none at all. */
  function Proofs(prove: Circuit -> Option<Bytes>, circuits: seq<Circuit>): Option<seq<Bytes>> {
    if forall i :: 0 <= i < |circuits| ==> prove(circuits[i]).Some?
    then Some(seq(|circuits|, i requires 0 <= i < |circuits| => prove(circuits[i]).value))
    else None
  }

  method Prove(p: Primitives, prove: Circuit -> Option<Bytes>, input: Input) returns (r: Result<Bundle, Error>)
    ensures input.key.None? || |input.key.value| != 32 || |input.nonce| != 12 ==> r == Failure(InvalidLength)
    ensures input.key.Some? && |input.key.value| == 32 && |input.nonce| == 12 ==>
              var b := Unproved(p, input.key.value, input.nonce);
              if Fault(p, input, b).Some? then r == Failure(Fault(p, input, b).value)
              else
                match Proofs(prove, WithKey(Statements(p, input, b), input.key.value))
                case None => r == Failure(ConstraintsFailed)
                case Some(proofs) => r == Success(b.(proofs := proofs))
  {
    hide Fault, Statements, RecordNonce, Block;
    if input.key.None? || |input.key.value| != 32 || |input.nonce| != 12 {
      return Failure(InvalidLength);
    }
    var key: Key := input.key.value;
    var nonce0 := NonceAt(input.nonce, 0);
    var nonce1 := NonceAt(input.nonce, 1);
    var stream0 := Compute(key, nonce0, 0);
    var stream1 := Compute(key, nonce1, 0);
    var b := Bundle(p.commit(key), (stream0[..32], stream1[..32]), []);
    assert b == Unproved(p, key, input.nonce);
    var list := Assignments(p, input, b);
    if list.Failure? {
      return Failure(list.error);
    }
    var proofs: seq<Bytes> := [];
    for i := 0 to |list.value|
      invariant |proofs| == i
      invariant forall k :: 0 <= k < i ==> prove(list.value[k]) == Some(proofs[k])
    {
      var proof := prove(list.value[i]);
      if proof.None? {
        return Failure(ConstraintsFailed);
      }
      proofs := proofs + [proof.value];
    }
    r := Success(b.(proofs := proofs));
    assert proofs == seq(|list.value|, i requires 0 <= i < |list.value| => prove(list.value[i]).value);
  }

  // ---------------------------------------------------------------- records that open

  /** The tags of Poly1305 have sixteen bytes. */
  ghost predicate TagsFit(p: Primitives) {
    forall message, key :: |p.tag(message, key)| == 16
  }

  /** The record that a sender makes of a plaintext: section 5.2 of RFC 8446. */
  function Sealed(p: Primitives, key: Key, nonce: Nonce, plain: Bytes): Bytes {
    var header: Bytes := [23, 3, 3] + BigEndian(|plain| + 16, 2);
    var ciphertext := Decrypt(key, nonce, plain);
    header + ciphertext + p.tag(AuthenticatedData(header, ciphertext), OneTimeKey(key, nonce))
  }

  lemma XorTwice(a: bv8, b: bv8)
    ensures Xor(Xor(a, b), b) == a
  {
    assert (a ^ b) ^ b == a;
  }

  lemma DecryptTwice(key: Key, nonce: Nonce, plain: Bytes)
    ensures Decrypt(key, nonce, Decrypt(key, nonce, plain)) == plain
  {
    hide Block, Xor, Counter32;
    forall i | 0 <= i < |plain| ensures Decrypt(key, nonce, Decrypt(key, nonce, plain))[i] == plain[i] {
      XorTwice(plain[i], Block(key, nonce, Counter32(1 + i / 64))[i % 64]);
    }
  }

  /** What was sealed opens, and has the form of a record. */
  lemma SealedOpens(p: Primitives, key: Key, nonce: Nonce, plain: Bytes)
    requires TagsFit(p) && 1 <= |plain| <= 4097
    ensures var record := Sealed(p, key, nonce, plain);
            |record| == |plain| + 21 && IsRecord(record) && Open(p, key, nonce, record) == Some(plain)
  {
    hide AuthenticatedData, OneTimeKey, Decrypt, BigEndian, Value;
    var header: Bytes := [23, 3, 3] + BigEndian(|plain| + 16, 2);
    var record, ciphertext := Sealed(p, key, nonce, plain), Decrypt(key, nonce, plain);
    assert record[..5] == header && Ciphertext(record) == ciphertext;
    assert Tag(record) == p.tag(AuthenticatedData(header, ciphertext), OneTimeKey(key, nonce));
    DecryptTwice(key, nonce, plain);
    BigEndianFits(|plain| + 16);
    TwoBytes(BigEndian(|plain| + 16, 2));
    assert record[3] == header[3] && record[4] == header[4];
  }

  lemma BigEndianFits(n: nat)
    requires n < 65536
    ensures Value(BigEndian(n, 2)) == n
  {
    assert Power(2) == 65536 by { assert Power(1) == 256 by { assert Power(0) == 1; } }
    BigEndianRoundTrip(n, 2);
  }

  /** For every key and token there are records that an honest client sends, and they establish the token. */
  lemma SealedIsEstablished(p: Primitives, key: Key, iv: Nonce, token: Bytes)
    requires TagsFit(p) && IsToken(token)
    ensures var input := Input(Some(key), iv, Sealed(p, key, RecordNonce(iv, 0), token + [APPLICATION_DATA]),
                               Sealed(p, key, RecordNonce(iv, 1), KEY_UPDATE));
            InputFault(input).None? && Established(p, key, input)
  {
    hide Sealed, Open, RecordNonce;
    var input := Input(Some(key), iv, Sealed(p, key, RecordNonce(iv, 0), token + [APPLICATION_DATA]),
                       Sealed(p, key, RecordNonce(iv, 1), KEY_UPDATE));
    SealedOpens(p, key, RecordNonce(iv, 0), token + [APPLICATION_DATA]);
    SealedOpens(p, key, RecordNonce(iv, 1), KEY_UPDATE);
    InputIsFaultless(input);
  }

  // ---------------------------------------------------------------- main results

  /** Both tags are right under the key, and the plaintexts are a token and a key update. */
  lemma EstablishedMeaning(p: Primitives, key: Key, input: Input)
    requires InputFault(input).None?
    ensures Established(p, key, input)
            <==> && MacFault(p, input.tokenRecord, MacKeys(key, input.nonce).0).None?
                 && MacFault(p, input.updateRecord, MacKeys(key, input.nonce).1).None?
                 && PlaintextsFit(key, input)
  {
    hide IsToken, TokenPlaintext, OneTimeKey, Decrypt, RecordNonce, MacFault, Open, Value, Ciphertext, TokenOpens, Tag;
    var n0, n1 := RecordNonce(input.nonce, 0), RecordNonce(input.nonce, 1);
    TokenRecordOpens(p, key, n0, input.tokenRecord);
    OpenMeaning(p, key, n1, input.updateRecord);
  }

  lemma OpenMeaning(p: Primitives, key: Key, nonce: Nonce, record: Bytes)
    requires |record| >= 22
    ensures Open(p, key, nonce, record).Some? <==> MacFault(p, record, OneTimeKey(key, nonce)).None?
    ensures Open(p, key, nonce, record).Some? ==>
              Open(p, key, nonce, record).value == Decrypt(key, nonce, Ciphertext(record))
  {
    hide AuthenticatedData, Block, Decrypt;
  }

  lemma TokenRecordOpens(p: Primitives, key: Key, nonce: Nonce, record: Bytes)
    requires 86 <= |record| <= MAX_TOKEN + 22
    ensures TokenOpens(p, key, nonce, record)
            <==> && MacFault(p, record, OneTimeKey(key, nonce)).None?
                 && TokenPlaintext(Decrypt(key, nonce, Ciphertext(record)), |record| - 22)
  {
    var plain := Decrypt(key, nonce, Ciphertext(record));
    OpenMeaning(p, key, nonce, record);
    TokenMeaning(plain, |record| - 22);
    hide IsToken, TokenPlaintext, OneTimeKey, Decrypt, MacFault, Open, Ciphertext;
    if TokenOpens(p, key, nonce, record) {
      var token :| IsToken(token) && Open(p, key, nonce, record) == Some(token + [APPLICATION_DATA]);
      assert plain == token + [APPLICATION_DATA];
    }
    if MacFault(p, record, OneTimeKey(key, nonce)).None? && TokenPlaintext(plain, |record| - 22) {
      var token :| IsToken(token) && plain == token + [APPLICATION_DATA];
      assert Open(p, key, nonce, record) == Some(token + [APPLICATION_DATA]);
    }
  }

  lemma TokenMeaning(plain: Bytes, tokenLength: nat)
    requires |plain| == tokenLength + 1 && 64 <= tokenLength <= MAX_TOKEN
    ensures TokenPlaintext(plain, tokenLength) <==> exists token :: IsToken(token) && plain == token + [APPLICATION_DATA]
  {
    hide TokenByte;
    assert plain == plain[..tokenLength] + [plain[tokenLength]];
    if TokenPlaintext(plain, tokenLength) {
      assert IsToken(plain[..tokenLength]) && plain == plain[..tokenLength] + [APPLICATION_DATA];
    }
    if token :| IsToken(token) && plain == token + [APPLICATION_DATA] {
      assert forall i :: 0 <= i < tokenLength ==> plain[i] == token[i];
    }
  }

  /** An accepted bundle shows that the two observed records open, under the one key that the commitment is to, as a
    * token of the observed length and a key update.
    */
  lemma AcceptedIsEstablished(p: Primitives, accepts: (Bytes, Statement) -> bool, input: Input, b: Bundle) returns (key: Key)
    requires Canonical(p) && Sound(p, accepts) && Accepted(p, accepts, input, b)
    requires Binds(p, Value(b.commitment))
    ensures Established(p, key, input) && Value(p.commit(key)) == Value(b.commitment)
    ensures forall other: Key :: Value(p.commit(other)) == Value(b.commitment) ==> other == key
  {
    var statements := Statements(p, input, b);
    assert accepts(b.proofs[0], statements[0]);
    key :| Means(statements[0], key, Digest(p, key));
    hide Fault, MacFault, Statements, Means, Value, InputFault;
    DigestsAgree(p, input, b, 0, key);
    forall i | 0 <= i < |statements| ensures Means(statements[i], key, Digest(p, key)) {
      assert accepts(b.proofs[i], statements[i]);
      var other: Key :| Means(statements[i], other, Digest(p, other));
      DigestsAgree(p, input, b, i, other);
    }
    DecompositionIsExact(p, input, b, key, Digest(p, key));
    FaultFree(p, input, b);
    EstablishedMeaning(p, key, input);
  }

  /** Without any assumption on the commitment: an accepted bundle shows as much, or else yields two keys that collide
    * at the commitment it carries.
    */
  lemma AcceptedOrCollision(p: Primitives, accepts: (Bytes, Statement) -> bool, input: Input, b: Bundle)
    returns (key: Key, other: Key)
    requires Canonical(p) && Sound(p, accepts) && Accepted(p, accepts, input, b)
    ensures Value(p.commit(key)) == Value(b.commitment)
    ensures InputFault(input).None? && (Established(p, key, input) || Collide(p, key, other))
  {
    hide Accepted, Sound, Established, Value;
    if Binds(p, Value(b.commitment)) {
      key := AcceptedIsEstablished(p, accepts, input, b);
      other := key;
      AcceptedIsFaultFree(p, accepts, input, b);
    } else {
      key, other :| Value(p.commit(key)) == Value(b.commitment) && Value(p.commit(other)) == Value(b.commitment) && key != other;
      AcceptedIsFaultFree(p, accepts, input, b);
    }
  }

  lemma AcceptedIsFaultFree(p: Primitives, accepts: (Bytes, Statement) -> bool, input: Input, b: Bundle)
    requires Accepted(p, accepts, input, b)
    ensures InputFault(input).None?
  {
    hide InputFault, MacFault, KeyFault, Value, Statements;
  }

  lemma FaultFree(p: Primitives, input: Input, b: Bundle)
    requires Fault(p, input, b).None?
    ensures InputFault(input).None?
    ensures MacFault(p, input.tokenRecord, b.macKeys.0).None? && MacFault(p, input.updateRecord, b.macKeys.1).None?
  {
    hide InputFault, MacFault, Value;
  }

  lemma DigestsAgree(p: Primitives, input: Input, b: Bundle, i: nat, key: Key)
    requires Canonical(p) && Fault(p, input, b).None? && i < |Statements(p, input, b)|
    requires Means(Statements(p, input, b)[i], key, Digest(p, key))
    ensures Value(p.commit(key)) == Value(b.commitment)
  {
    hide InputFault, MacFault, KeyFault, ByteMeans, HeaderMeans, Value;
  }

  /** A bundle can be made exactly when the records open as they should under the given key. */
  lemma ProvableIffEstablished(p: Primitives, prove: Circuit -> Option<Bytes>, accepts: (Bytes, Statement) -> bool,
                               input: Input, key: Key)
    requires Canonical(p) && Complete(p, prove, accepts)
    requires InputFault(input).None? && input.key == Some(key)
    ensures var b := Unproved(p, key, input.nonce);
            Established(p, key, input)
            <==> Fault(p, input, b).None? && Proofs(prove, WithKey(Statements(p, input, b), key)).Some?
  {
    var b := Unproved(p, key, input.nonce);
    EstablishedMeaning(p, key, input);
    HonestFault(p, input, key);
    if Fault(p, input, b).None? {
      DecompositionIsExact(p, input, b, key, Digest(p, key));
      CircuitsProvable(p, prove, accepts, Statements(p, input, b), key);
    }
    hide Fault, InputFault, MacFault, Established, PlaintextsFit, Statements, WithKey, AllMean, MacKeys;
  }

  lemma HonestFault(p: Primitives, input: Input, key: Key)
    requires Canonical(p) && InputFault(input).None? && input.key == Some(key)
    ensures var macKeys := MacKeys(key, input.nonce);
            Fault(p, input, Bundle(p.commit(key), macKeys, [])).None?
            <==> MacFault(p, input.tokenRecord, macKeys.0).None? && MacFault(p, input.updateRecord, macKeys.1).None?
  {
    hide InputFault, MacFault, MacKeys, Value;
  }

  lemma CircuitsProvable(p: Primitives, prove: Circuit -> Option<Bytes>, accepts: (Bytes, Statement) -> bool,
                         statements: seq<Statement>, key: Key)
    requires Canonical(p) && Complete(p, prove, accepts)
    ensures AllMean(statements, key, Digest(p, key)) <==> Proofs(prove, WithKey(statements, key)).Some?
  {
    hide Means;
    var circuits := WithKey(statements, key);
    forall i | 0 <= i < |statements|
      ensures prove(circuits[i]).Some? <==> Means(statements[i], key, Digest(p, key))
    {
      assert circuits[i] == Circuit(key, statements[i]);
    }
  }

  /** What was proved with the key is accepted without it. */
  lemma ProvedIsAccepted(p: Primitives, prove: Circuit -> Option<Bytes>, accepts: (Bytes, Statement) -> bool,
                         input: Input, key: Key, b: Bundle)
    requires Canonical(p) && Complete(p, prove, accepts)
    requires input.key == Some(key) && |input.nonce| == 12
    requires Fault(p, input, b).None?
    requires Proofs(prove, WithKey(Statements(p, input, b), key)) == Some(b.proofs)
    ensures Accepted(p, accepts, input.(key := None), b)
  {
    hide InputFault, MacFault, RecordStatements, Means, Value;
    var publicInput := input.(key := None);
    assert InputFault(publicInput) == InputFault(input) by { SameRecords(input); }
    assert Statements(p, publicInput, b) == Statements(p, input, b);
    var statements := Statements(p, input, b);
    forall i | 0 <= i < |b.proofs| ensures accepts(b.proofs[i], statements[i]) {
      var c := WithKey(statements, key)[i];
      assert c == Circuit(key, statements[i]) && prove(c) == Some(b.proofs[i]);
    }
  }

  lemma SameRecords(input: Input)
    ensures InputFault(input.(key := None)) == InputFault(input)
  {
  }

  /** What an accepted bundle says of the observed bytes, whatever the proofs: two application data records of the right
    * lengths, authenticated under the two keys in the bundle.
    */
  lemma AcceptedRecords(p: Primitives, accepts: (Bytes, Statement) -> bool, input: Input, b: Bundle)
    requires Accepted(p, accepts, input, b)
    ensures |input.nonce| == 12 && IsRecord(input.tokenRecord) && IsRecord(input.updateRecord)
    ensures 86 <= |input.tokenRecord| <= 4118 && |input.updateRecord| == 27
    ensures |b.commitment| == 32 && Value(b.commitment) < FIELD
    ensures |b.macKeys.0| == |b.macKeys.1| == 32
    ensures p.tag(AuthenticatedData(input.tokenRecord[..5], Ciphertext(input.tokenRecord)), b.macKeys.0) == Tag(input.tokenRecord)
    ensures p.tag(AuthenticatedData(input.updateRecord[..5], Ciphertext(input.updateRecord)), b.macKeys.1)
            == Tag(input.updateRecord)
  {
    FaultlessMeans(p, input, b);
    InputIsFaultless(input);
    hide Fault, InputFault, Value, AuthenticatedData, Ciphertext, Tag, Statements;
  }

  /** Every token sent under a key can be proved, and the proof is accepted without the key. */
  lemma HonestClientIsAccepted(p: Primitives, prove: Circuit -> Option<Bytes>, accepts: (Bytes, Statement) -> bool,
                               key: Key, iv: Nonce, token: Bytes) returns (input: Input, b: Bundle)
    requires Canonical(p) && TagsFit(p) && Complete(p, prove, accepts) && IsToken(token)
    ensures input.nonce == iv && InputFault(input).None?
    ensures Open(p, key, RecordNonce(iv, 0), input.tokenRecord) == Some(token + [APPLICATION_DATA])
    ensures Accepted(p, accepts, input, b)
  {
    hide Sealed, Open, RecordNonce, Established, Fault, InputFault, Statements, Accepted;
    var known := Input(Some(key), iv, Sealed(p, key, RecordNonce(iv, 0), token + [APPLICATION_DATA]),
                       Sealed(p, key, RecordNonce(iv, 1), KEY_UPDATE));
    SealedIsEstablished(p, key, iv, token);
    SealedOpens(p, key, RecordNonce(iv, 0), token + [APPLICATION_DATA]);
    ProvableIffEstablished(p, prove, accepts, known, key);
    var unproved := Unproved(p, key, iv);
    b := unproved.(proofs := Proofs(prove, WithKey(Statements(p, known, unproved), key)).value);
    SameStatements(p, known, unproved, b.proofs);
    ProvedIsAccepted(p, prove, accepts, known, key, b);
    input := known.(key := None);
    SameRecords(known);
  }

  lemma SameStatements(p: Primitives, input: Input, b: Bundle, proofs: seq<Bytes>)
    requires Fault(p, input, b).None?
    ensures Fault(p, input, b.(proofs := proofs)).None?
    ensures Statements(p, input, b.(proofs := proofs)) == Statements(p, input, b)
  {
    hide InputFault, MacFault, KeyFault, Value, RecordStatements;
  }
}
