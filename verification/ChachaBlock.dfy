/** The ChaCha20 block of section 2.3 of RFC 8439, computed in place on a state of sixteen words. */
module ChachaBlock {
  type Bytes = seq<bv8>
  type Key = k: Bytes | |k| == 32 witness seq(32, _ => 0)
  type Nonce = n: Bytes | |n| == 12 witness seq(12, _ => 0)
  type State = s: seq<bv32> | |s| == 16 witness seq(16, _ => 0)

  function Plus(x: bv32, y: bv32): bv32 { x + y }
  function Turn16(x: bv32, y: bv32): bv32 { (x ^ y).RotateLeft(16) }
  function Turn12(x: bv32, y: bv32): bv32 { (x ^ y).RotateLeft(12) }
  function Turn8(x: bv32, y: bv32): bv32 { (x ^ y).RotateLeft(8) }
  function Turn7(x: bv32, y: bv32): bv32 { (x ^ y).RotateLeft(7) }

  predicate Rows(a: nat, b: nat, c: nat, d: nat) {
    a < 4 <= b < 8 <= c < 12 <= d < 16
  }

  /** The quarter round of section 2.1 on the four words with these indices. */
  function Quarter(s: State, a: nat, b: nat, c: nat, d: nat): State
    requires Rows(a, b, c, d)
  {
    var a1 := Plus(s[a], s[b]);
    var d1 := Turn16(s[d], a1);
    var c1 := Plus(s[c], d1);
    var b1 := Turn12(s[b], c1);
    var a2 := Plus(a1, b1);
    var d2 := Turn8(d1, a2);
    var c2 := Plus(c1, d2);
    s[a := a2][b := Turn7(b1, c2)][c := c2][d := d2]
  }

  /** Section 2.3: the four column rounds, then the four diagonal rounds. */
  function InnerBlock(s: State): State {
    var columns := Quarter(Quarter(Quarter(Quarter(s, 0, 4, 8, 12), 1, 5, 9, 13), 2, 6, 10, 14), 3, 7, 11, 15);
    Quarter(Quarter(Quarter(Quarter(columns, 0, 5, 10, 15), 1, 6, 11, 12), 2, 7, 8, 13), 3, 4, 9, 14)
  }

  function Rounds(s: State, n: nat): State {
    if n == 0 then s else InnerBlock(Rounds(s, n - 1))
  }

  /** Four bytes as a little-endian word. */
  function Word(b: Bytes, i: nat): bv32
    requires i + 4 <= |b|
  {
    b[i] as bv32 | (b[i + 1] as bv32 << 8) | (b[i + 2] as bv32 << 16) | (b[i + 3] as bv32 << 24)
  }

  function Initial(key: Key, nonce: Nonce, counter: bv32): State {
    [0x61707865, 0x3320646e, 0x79622d32, 0x6b206574,
     Word(key, 0), Word(key, 4), Word(key, 8), Word(key, 12), Word(key, 16), Word(key, 20), Word(key, 24), Word(key, 28),
     counter, Word(nonce, 0), Word(nonce, 4), Word(nonce, 8)]
  }

  function LittleEndian(w: bv32): (r: Bytes)
    ensures |r| == 4
  {
    [(w & 0xff) as bv8, ((w >> 8) & 0xff) as bv8, ((w >> 16) & 0xff) as bv8, ((w >> 24) & 0xff) as bv8]
  }

  function Serialized(words: seq<bv32>): (r: Bytes)
    ensures |r| == 4 * |words|
  {
    if words == [] then []
    else Serialized(words[..|words| - 1]) + LittleEndian(words[|words| - 1])
  }

  /** Sixty-four bytes of keystream. */
  function Block(key: Key, nonce: Nonce, counter: bv32): (r: Bytes)
    ensures |r| == 64
  {
    var start := Initial(key, nonce, counter);
    var end := Rounds(start, 10);
    Serialized(seq(16, i requires 0 <= i < 16 => Plus(end[i], start[i])))
  }

  method QuarterInPlace(s: array<bv32>, a: nat, b: nat, c: nat, d: nat)
    requires s.Length == 16 && Rows(a, b, c, d)
    modifies s
    ensures s[..] == Quarter(old(s[..]), a, b, c, d)
  {
    hide Plus, Turn16, Turn12, Turn8, Turn7;
    s[a] := Plus(s[a], s[b]);
    s[d] := Turn16(s[d], s[a]);
    s[c] := Plus(s[c], s[d]);
    s[b] := Turn12(s[b], s[c]);
    s[a] := Plus(s[a], s[b]);
    s[d] := Turn8(s[d], s[a]);
    s[c] := Plus(s[c], s[d]);
    s[b] := Turn7(s[b], s[c]);
  }

  /** The block as the circuit computes it: word by word in one array, then unpacked in order. */
  method Compute(key: Key, nonce: Nonce, counter: bv32) returns (out: Bytes)
    ensures out == Block(key, nonce, counter)
  {
    hide Word, Quarter, LittleEndian, Initial, Plus, Turn16, Turn12, Turn8, Turn7;
    var initial := Initial(key, nonce, counter);
    var s := new bv32[16](i requires 0 <= i < 16 => initial[i]);
    assert s[..] == initial;
    for i := 0 to 10
      invariant s[..] == Rounds(initial, i)
    {
      QuarterInPlace(s, 0, 4, 8, 12);
      QuarterInPlace(s, 1, 5, 9, 13);
      QuarterInPlace(s, 2, 6, 10, 14);
      QuarterInPlace(s, 3, 7, 11, 15);
      QuarterInPlace(s, 0, 5, 10, 15);
      QuarterInPlace(s, 1, 6, 11, 12);
      QuarterInPlace(s, 2, 7, 8, 13);
      QuarterInPlace(s, 3, 4, 9, 14);
    }
    ghost var sums := seq(16, i requires 0 <= i < 16 => Plus(Rounds(initial, 10)[i], initial[i]));
    out := [];
    for i := 0 to 16
      invariant out == Serialized(sums[..i])
    {
      assert sums[..i + 1][..i] == sums[..i];
      out := out + LittleEndian(Plus(s[i], initial[i]));
    }
    assert sums[..16] == sums;
  }

  // ---------------------------------------------------------------- the standard's numbers

  /** The eight operations of the example of section 2.2.1. */
  lemma OperationsOfStandard()
    ensures Plus(0x516461b1, 0x2a5f714c) == 0x7bc3d2fd && Turn16(0x3d631689, 0x7bc3d2fd) == 0xc47446a0
    ensures Plus(0x53372767, 0xc47446a0) == 0x17ab6e07 && Turn12(0x2a5f714c, 0x17ab6e07) == 0x41f4b3df
    ensures Plus(0x7bc3d2fd, 0x41f4b3df) == 0xbdb886dc && Turn8(0xc47446a0, 0xbdb886dc) == 0xccc07c79
    ensures Plus(0x17ab6e07, 0xccc07c79) == 0xe46bea80 && Turn7(0x41f4b3df, 0xe46bea80) == 0xcfacafd2
  {
  }

  lemma QuarterOfStandard()
    ensures Quarter([0x879531e0, 0xc5ecf37d, 0x516461b1, 0xc9a62f8a, 0x44c20ef3, 0x3390af7f, 0xd9fc690b, 0x2a5f714c,
                     0x53372767, 0xb00a5631, 0x974c541a, 0x359e9963, 0x5c971061, 0x3d631689, 0x2098d9d6, 0x91dbd320],
                    2, 7, 8, 13)
            == [0x879531e0, 0xc5ecf37d, 0xbdb886dc, 0xc9a62f8a, 0x44c20ef3, 0x3390af7f, 0xd9fc690b, 0xcfacafd2,
                0xe46bea80, 0xb00a5631, 0x974c541a, 0x359e9963, 0x5c971061, 0xccc07c79, 0x2098d9d6, 0x91dbd320]
  {
    hide Plus, Turn16, Turn12, Turn8, Turn7;
    OperationsOfStandard();
  }

  /** "expand 32-byte k" in ASCII. */
  const EXPAND: Bytes := [0x65, 0x78, 0x70, 0x61, 0x6e, 0x64, 0x20, 0x33, 0x32, 0x2d, 0x62, 0x79, 0x74, 0x65, 0x20, 0x6b]

  lemma WordBytes(b: Bytes, i: nat)
    requires i + 4 <= |b|
    ensures LittleEndian(Word(b, i)) == b[i..i + 4]
  {
  }

  lemma ConstantBytes()
    ensures LittleEndian(0x61707865) + LittleEndian(0x3320646e) + LittleEndian(0x79622d32) + LittleEndian(0x6b206574) == EXPAND
  {
  }

  lemma SerializedNext(words: seq<bv32>, w: bv32)
    ensures Serialized(words + [w]) == Serialized(words) + LittleEndian(w)
  {
    assert (words + [w])[..|words|] == words;
  }

  lemma {:induction false} SerializedWords(b: Bytes, words: seq<bv32>)
    requires |b| == 4 * |words|
    requires forall i :: 0 <= i < |words| ==> words[i] == Word(b, 4 * i)
    ensures Serialized(words) == b
  {
    hide Word, LittleEndian;
    if words != [] {
      var n := |words| - 1;
      assert words[n] == Word(b, 4 * n);
      WordBytes(b, 4 * n);
      forall i | 0 <= i < n ensures Word(b, 4 * i) == Word(b[..4 * n], 4 * i) {
        WordOfPrefix(b, 4 * n, 4 * i);
      }
      SerializedWords(b[..4 * n], words[..n]);
      assert b == b[..4 * n] + b[4 * n..4 * n + 4];
    }
  }

  lemma WordOfPrefix(b: Bytes, n: nat, i: nat)
    requires i + 4 <= n <= |b|
    ensures Word(b[..n], i) == Word(b, i)
  {
  }

  lemma {:induction false} SerializedJoins(a: seq<bv32>, b: seq<bv32>)
    ensures Serialized(a + b) == Serialized(a) + Serialized(b)
  {
    hide LittleEndian;
    if b == [] {
      assert a + b == a;
    } else {
      var n := |b| - 1;
      assert (a + b)[..|a + b| - 1] == a + b[..n];
      SerializedJoins(a, b[..n]);
    }
  }

  lemma InitialWords(key: Key, nonce: Nonce, counter: bv32)
    ensures var s := Initial(key, nonce, counter);
            && s == [0x61707865, 0x3320646e, 0x79622d32, 0x6b206574] + s[4..12] + [counter] + s[13..]
            && (forall i :: 0 <= i < 8 ==> s[4..12][i] == Word(key, 4 * i))
            && forall i :: 0 <= i < 3 ==> s[13..][i] == Word(nonce, 4 * i)
  {
    hide Word;
  }

  /** The state of section 2.3 begins as the constant, the key, the counter and the nonce, each byte in its place. */
  lemma InitialBytes(key: Key, nonce: Nonce, counter: bv32)
    ensures Serialized(Initial(key, nonce, counter)) == EXPAND + key + LittleEndian(counter) + nonce
  {
    hide Word, LittleEndian, Serialized, Initial;
    var s := Initial(key, nonce, counter);
    var constants, keys, nonces := [0x61707865, 0x3320646e, 0x79622d32, 0x6b206574], s[4..12], s[13..];
    InitialWords(key, nonce, counter);
    SerializedJoins(constants + keys + [counter], nonces);
    SerializedNext(constants + keys, counter);
    SerializedJoins(constants, keys);
    SerializedWords(key, keys);
    SerializedWords(nonce, nonces);
    SerializedConstants();
  }

  lemma SerializedConstants()
    ensures Serialized([0x61707865, 0x3320646e, 0x79622d32, 0x6b206574]) == EXPAND
  {
    hide LittleEndian;
    ConstantBytes();
    var one, two, three := [0x61707865], [0x61707865, 0x3320646e], [0x61707865, 0x3320646e, 0x79622d32];
    assert [] + one == one && one + [0x3320646e] == two && two + [0x79622d32] == three;
    SerializedNext([], 0x61707865);
    SerializedNext(one, 0x3320646e);
    SerializedNext(two, 0x79622d32);
    SerializedNext(three, 0x6b206574);
    assert three + [0x6b206574] == [0x61707865, 0x3320646e, 0x79622d32, 0x6b206574];
    assert Serialized([]) == [];
  }
}
