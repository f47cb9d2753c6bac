/** The constraint system that the credential proofs are about, and what its constraints mean together. */
module CredentialCircuit {
  import opened ChachaBlock

  const CHUNK := 256
  const MAX_TOKEN := 4096

  /** The scalar field of BN254. */
  const FIELD: nat := 21888242871839275222246405745257275088548364400416034343698204186575808495617

  type Elem = x: int | 0 <= x < FIELD

  type Chunk = b: Bytes | |b| == CHUNK witness seq(CHUNK, _ => 0)
  type MacKey = k: Bytes | |k| == 32 witness seq(32, _ => 0)

  /** The public inputs of one proof. */
  datatype Statement = Statement(
    kind: Elem, counter: Elem, length: Elem, tokenLength: Elem, commitment: Elem,
    nonce: Nonce, ciphertext: Chunk, macKey: MacKey)

  /** The plaintext of a KeyUpdate record: section 4.6.3 of RFC 8446, then the handshake content type. */
  const KEY_UPDATE: Bytes := [24, 0, 0, 1, 0, 22]

  /** The content type that ends an application data record. */
  const APPLICATION_DATA: bv8 := 23

  predicate TokenByte(b: int) {
    || 'a' as int <= b <= 'z' as int || 'A' as int <= b <= 'Z' as int || '0' as int <= b <= '9' as int
    || b == '-' as int || b == '_' as int || b == '.' as int || b == '~' as int || b == '+' as int
    || b == '/' as int || b == '=' as int
  }

  function Xor(a: bv8, b: bv8): bv8 { a ^ b }

  function Counter32(counter: int): bv32 {
    (counter % 0x1_0000_0000) as bv32
  }

  // ---------------------------------------------------------------- what a statement means

  /** Byte i of the chunk under the keystream that starts at the statement's counter. */
  function Plain(c: Statement, key: Key, i: nat): bv8
    requires i < CHUNK
  {
    Xor(c.ciphertext[i], Block(key, c.nonce, Counter32(c.counter + i / 64))[i % 64])
  }

  predicate HeaderMeans(c: Statement) {
    && 1 <= c.length <= CHUNK && 64 <= c.tokenLength <= MAX_TOKEN && c.counter <= 65
    && (|| (c.kind == 0 && c.counter == 0 && c.length == 32)
        || (c.kind == 1 && c.counter >= 1)
        || (c.kind == 2 && c.counter == 1 && c.length == 6))
  }

  /** What is asked of the bytes of a token chunk: token characters up to the length, then the content type. */
  predicate TokenPosition(p: bv8, position: int, tokenLength: int) {
    && position <= tokenLength
    && if position == tokenLength then p == APPLICATION_DATA else TokenByte(p as int)
  }

  predicate ByteMeans(c: Statement, key: Key, i: nat)
    requires i < CHUNK
  {
    var p := Plain(c, key, i);
    && (i >= c.length ==> c.ciphertext[i] == 0)
    && (c.kind == 0 && i < 32 ==> p == c.macKey[i])
    && (c.kind == 2 && i < 6 ==> p == KEY_UPDATE[i])
    && (c.kind == 1 && i < c.length ==> TokenPosition(p, (c.counter - 1) * 64 + i, c.tokenLength))
  }

  predicate Means(c: Statement, key: Key, digest: Elem) {
    && digest == c.commitment
    && HeaderMeans(c)
    && (forall i :: 0 <= i < CHUNK ==> ByteMeans(c, key, i))
    && (c.kind != 0 ==> forall i :: 0 <= i < 32 ==> c.macKey[i] == 0)
  }

  // ---------------------------------------------------------------- gadgets

  function Add(a: Elem, b: Elem): Elem { (a + b) % FIELD }
  function Sub(a: Elem, b: Elem): Elem { (a - b) % FIELD }
  function Mul(a: Elem, b: Elem): Elem { (a * b) % FIELD }
  function IsZero(a: Elem): Elem { if a == 0 then 1 else 0 }
  function Select(flag: Elem, a: Elem, b: Elem): Elem { if flag == 1 then a else b }
  function ValueOf(b: bv8): Elem { b as int }

  /** The comparator has a witness only when its operands are within this distance. */
  const MAX_DISTANCE := MAX_TOKEN + CHUNK

  predicate Comparable(a: Elem, b: Elem) { -MAX_DISTANCE <= a - b <= MAX_DISTANCE }
  function IsLess(a: Elem, b: Elem): Elem { if a < b then 1 else 0 }

  predicate Flag(a: Elem) { a == 0 || a == 1 }

  lemma MulFlag(f: Elem, a: Elem)
    requires Flag(f)
    ensures Mul(f, a) == if f == 1 then a else 0
  {
  }

  lemma SubIsZero(a: Elem, b: Elem)
    ensures Sub(a, b) == 0 <==> a == b
  {
  }

  lemma SameByte(a: bv8, b: bv8)
    ensures ValueOf(a) == ValueOf(b) <==> a == b
  {
  }

  lemma Complement(f: Elem)
    requires Flag(f)
    ensures Sub(1, f) == if f == 1 then 0 else 1
  {
  }

  /** A difference multiplied by a flag vanishes when the flag is off or the bytes agree. */
  lemma GatedByte(f: Elem, a: bv8, b: bv8)
    requires Flag(f)
    ensures Mul(f, Sub(ValueOf(a), ValueOf(b))) == 0 <==> (f == 1 ==> a == b)
  {
    MulFlag(f, Sub(ValueOf(a), ValueOf(b)));
    SubIsZero(ValueOf(a), ValueOf(b));
    SameByte(a, b);
  }

  lemma GatedValue(f: Elem, a: bv8)
    requires Flag(f)
    ensures Mul(f, ValueOf(a)) == 0 <==> (f == 1 ==> a == 0)
  {
    MulFlag(f, ValueOf(a));
    SameByte(a, 0);
  }

  // ---------------------------------------------------------------- the constraints

  method LookupTable() returns (table: seq<Elem>)
    ensures |table| == 256 && forall b :: 0 <= b < 256 ==> table[b] == if TokenByte(b) then 1 else 0
  {
    table := [];
    for b := 0 to 256
      invariant |table| == b && forall k :: 0 <= k < b ==> table[k] == if TokenByte(k) then 1 else 0
    {
      var valid := 0;
      if 'a' as int <= b <= 'z' as int || 'A' as int <= b <= 'Z' as int || '0' as int <= b <= '9' as int
         || b == '-' as int || b == '_' as int || b == '.' as int || b == '~' as int || b == '+' as int
         || b == '/' as int || b == '=' as int
      {
        valid := 1;
      }
      table := table + [valid];
    }
  }

  /** The constraints on the public numbers, outside the byte loop. */
  method DefineHeader(c: Statement, mac: Elem, auth: Elem, update: Elem) returns (satisfied: bool)
    requires mac == IsZero(c.kind) && auth == IsZero(Sub(c.kind, 1)) && update == IsZero(Sub(c.kind, 2))
    ensures satisfied <==> HeaderMeans(c)
  {
    SubIsZero(c.kind, 1);
    SubIsZero(c.kind, 2);
    SubIsZero(c.counter, 1);
    SubIsZero(c.length, 32);
    SubIsZero(c.length, 6);
    MulFlag(mac, c.counter);
    MulFlag(update, Sub(c.counter, 1));
    MulFlag(mac, Sub(c.length, 32));
    MulFlag(update, Sub(c.length, 6));
    MulFlag(auth, IsZero(c.counter));
    satisfied := Add(Add(mac, auth), update) == 1;
    satisfied := satisfied && c.length <= CHUNK;
    satisfied := satisfied && c.length != 0;
    satisfied := satisfied && c.tokenLength <= MAX_TOKEN;
    satisfied := satisfied && 64 <= c.tokenLength;
    satisfied := satisfied && c.counter <= MAX_TOKEN / 64 + 1;
    satisfied := satisfied && Mul(mac, c.counter) == 0;
    satisfied := satisfied && Mul(update, Sub(c.counter, 1)) == 0;
    satisfied := satisfied && Mul(mac, Sub(c.length, 32)) == 0;
    satisfied := satisfied && Mul(update, Sub(c.length, 6)) == 0;
    satisfied := satisfied && Mul(auth, IsZero(c.counter)) == 0;
  }

  /** The constraints on byte i. Both comparisons are in range whenever the header constraints hold. */
  method DefineByte(c: Statement, i: nat, p: bv8, table: seq<Elem>, mac: Elem, auth: Elem, update: Elem)
    returns (satisfied: bool)
    requires i < CHUNK && HeaderMeans(c)
    requires |table| == 256 && forall b :: 0 <= b < 256 ==> table[b] == if TokenByte(b) then 1 else 0
    requires mac == IsZero(c.kind) && auth == IsZero(Sub(c.kind, 1)) && update == IsZero(Sub(c.kind, 2))
    ensures satisfied <==>
              && (i >= c.length ==> c.ciphertext[i] == 0)
              && (c.kind == 0 && i < 32 ==> p == c.macKey[i])
              && (c.kind == 2 && i < 6 ==> p == KEY_UPDATE[i])
              && (c.kind == 1 && i < c.length ==> TokenPosition(p, (c.counter - 1) * 64 + i, c.tokenLength))
  {
    hide TokenByte, TokenPosition, Mul, ValueOf;
    SubIsZero(c.kind, 1);
    SubIsZero(c.kind, 2);
    var active := IsLess(i, c.length);
    Complement(active);
    GatedValue(Sub(1, active), c.ciphertext[i]);
    satisfied := Comparable(i, c.length) && Mul(Sub(1, active), ValueOf(c.ciphertext[i])) == 0;
    if i < 32 {
      GatedByte(mac, p, c.macKey[i]);
      satisfied := satisfied && Mul(mac, Sub(ValueOf(p), ValueOf(c.macKey[i]))) == 0;
    }
    if i < 6 {
      GatedByte(update, p, KEY_UPDATE[i]);
      satisfied := satisfied && Mul(update, Sub(ValueOf(p), ValueOf(KEY_UPDATE[i]))) == 0;
    }
    MulFlag(auth, active);
    var position := Position(c, auth, i);
    var inRange := DefineToken(c, p, table, Mul(auth, active), position);
    satisfied := satisfied && inRange;
  }

  /** The position in the token that byte i of a token chunk has. */
  function Position(c: Statement, auth: Elem, i: nat): (position: Elem)
    requires i < CHUNK && HeaderMeans(c) && auth == IsZero(Sub(c.kind, 1))
    ensures position == if c.kind == 1 then (c.counter - 1) * 64 + i else 0
  {
    assert c.kind == 1 ==> Sub(c.counter, 1) == c.counter - 1 && Mul(c.counter - 1, 64) == (c.counter - 1) * 64;
    SubIsZero(c.kind, 1);
    Select(auth, Add(Mul(Sub(c.counter, 1), 64), i), 0)
  }

  method DefineToken(c: Statement, p: bv8, table: seq<Elem>, enabled: Elem, position: Elem) returns (satisfied: bool)
    requires Flag(enabled) && position <= 64 * 64 + CHUNK - 1 && 64 <= c.tokenLength <= MAX_TOKEN
    requires |table| == 256 && forall b :: 0 <= b < 256 ==> table[b] == if TokenByte(b) then 1 else 0
    ensures satisfied <==> (enabled == 1 ==> TokenPosition(p, position, c.tokenLength))
  {
    hide TokenByte, ValueOf;
    var last := IsZero(Sub(position, c.tokenLength));
    SubIsZero(position, c.tokenLength);
    Complement(last);
    MulFlag(enabled, IsLess(c.tokenLength, position));
    MulFlag(enabled, last);
    MulFlag(enabled, Sub(1, last));
    satisfied := Comparable(c.tokenLength, position);
    satisfied := satisfied && Mul(enabled, IsLess(c.tokenLength, position)) == 0;
    GatedByte(Mul(enabled, last), p, 23);
    satisfied := satisfied && Mul(Mul(enabled, last), Sub(ValueOf(p), ValueOf(23))) == 0;
    ByteValue(p);
    var allowed := table[ValueOf(p)];
    MulFlag(Mul(enabled, Sub(1, last)), Sub(allowed, 1));
    SubIsZero(allowed, 1);
    satisfied := satisfied && Mul(Mul(enabled, Sub(1, last)), Sub(allowed, 1)) == 0;
    hide Mul, Sub;
  }

  lemma ByteValue(p: bv8)
    ensures ValueOf(p) == p as int < 256
  {
  }

  /** Every constraint, with the key as the private input. They are satisfied exactly when the statement holds. */
  method Define(c: Statement, key: Key, digest: Elem) returns (satisfied: bool)
    ensures satisfied <==> Means(c, key, digest)
  {
    hide TokenByte, HeaderMeans, Block, Xor, Counter32, TokenPosition;
    var mac, auth, update := IsZero(c.kind), IsZero(Sub(c.kind, 1)), IsZero(Sub(c.kind, 2));
    var header := DefineHeader(c, mac, auth, update);
    satisfied := digest == c.commitment && header;
    var table := LookupTable();
    for block := 0 to CHUNK / 64
      invariant satisfied <==>
                  digest == c.commitment && HeaderMeans(c) && forall i :: 0 <= i < 64 * block ==> ByteMeans(c, key, i)
    {
      var stream := Compute(key, c.nonce, Counter32(c.counter + block));
      for j := 0 to 64
        invariant satisfied <==>
                    && digest == c.commitment && HeaderMeans(c)
                    && forall i :: 0 <= i < 64 * block + j ==> ByteMeans(c, key, i)
      {
        var i := block * 64 + j;
        assert i / 64 == block && i % 64 == j;
        var p := Xor(c.ciphertext[i], stream[j]);
        assert p == Plain(c, key, i);
        if satisfied {
          satisfied := DefineByte(c, i, p, table, mac, auth, update);
          assert satisfied <==> ByteMeans(c, key, i);
        }
      }
    }
    for i := 0 to 32
      invariant satisfied <==>
                  && digest == c.commitment && HeaderMeans(c)
                  && (forall i :: 0 <= i < CHUNK ==> ByteMeans(c, key, i))
                  && (c.kind != 0 ==> forall k :: 0 <= k < i ==> c.macKey[k] == 0)
    {
      MulFlag(Sub(1, mac), ValueOf(c.macKey[i]));
      SameByte(c.macKey[i], 0);
      satisfied := satisfied && Mul(Sub(1, mac), ValueOf(c.macKey[i])) == 0;
    }
  }
}
