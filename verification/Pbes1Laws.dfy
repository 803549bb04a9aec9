/** What the encryption of `crypt/jasypt/jasypt.go` computes, octet by octet and bit by bit, and how decryption
    ends: the definitions of `Jasypt` in terms of the block cipher and the hash alone. */
module Pbes1Laws {
  import opened Prelude
  import opened Bits
  import opened Jasypt

  // ----- key derivation -----

  /** `ts` are T_1, T_2, ... of section 5.1 of RFC 8018. */
  ghost predicate IsHashChain(p: Primitives, password: Bytes, salt: Bytes, ts: seq<Digest>) {
    && ts != [] && ts[0] == p.md5(password + salt)
    && forall i :: 0 < i < |ts| ==> ts[i] == p.md5(ts[i - 1])
  }

  lemma {:induction false} IteratedHashIsLast(p: Primitives, password: Bytes, salt: Bytes, ts: seq<Digest>)
    requires IsHashChain(p, password, salt, ts)
    ensures HashIterated(p, password, salt, |ts|) == ts[|ts| - 1]
  {
    var n := |ts| - 1;
    if n > 0 {
      IteratedHashIsLast(p, password, salt, ts[..n]);
    }
  }

  // ----- blocks -----

  /** Block `i` of some octets. */
  function BlockAt(m: Bytes, i: nat): Block
    requires 8 * i + 8 <= |m|
  {
    m[8 * i..8 * i + 8]
  }

  lemma SliceOfRest(m: Bytes, a: nat, b: nat)
    requires a <= b && b + 8 <= |m|
    ensures m[a..][b - a..b - a + 8] == m[b..b + 8]
  {
  }

  lemma {:induction false} BlocksAt(m: Bytes, i: nat)
    requires |m| % 8 == 0 && 8 * i + 8 <= |m|
    ensures Blocks(m)[i] == BlockAt(m, i)
  {
    if i > 0 {
      BlocksAt(m[8..], i - 1);
      SliceOfRest(m, 8, 8 * i);
    }
  }

  lemma {:induction false} JoinAt(bs: seq<Block>, i: nat)
    requires i < |bs|
    ensures BlockAt(Join(bs), i) == bs[i]
  {
    if i > 0 {
      var m: Bytes := Join(bs);
      JoinAt(bs[1..], i - 1);
      assert m[8..] == Join(bs[1..]);
      SliceOfRest(m, 8, 8 * i);
    }
  }

  /** Each bit of `x` is the sum modulo 2 of the bits of `a` and `b` at its place. */
  ghost predicate IsBitSum(x: Block, a: Block, b: Block) {
    forall j, k :: 0 <= j < 8 && 0 <= k < 8 ==> Bit(x[j], k) == (Bit(a[j], k) + Bit(b[j], k)) % 2
  }

  lemma XorIsBitSum(a: Block, b: Block)
    ensures IsBitSum(Xor(a, b), a, b)
  {
    forall j, k | 0 <= j < 8 && 0 <= k < 8 ensures Bit(Xor(a, b)[j], k) == (Bit(a[j], k) + Bit(b[j], k)) % 2 {
      BitOfXorByte(a[j], b[j], k);
    }
  }

  lemma {:induction false} EncryptedBlockAt(p: Primitives, key: Block, iv: Block, m: seq<Block>, i: nat)
    requires i < |m|
    ensures var c := CbcEncryptBlocks(p, key, iv, m);
      c[i] == p.desEncrypt(key, Xor(m[i], if i == 0 then iv else c[i - 1]))
    decreases i
  {
    if i > 0 {
      EncryptedBlockAt(p, key, p.desEncrypt(key, Xor(m[0], iv)), m[1..], i - 1);
    }
  }

  /** The block that a ciphertext block chains to. */
  function Previous(iv: Block, c: Bytes, i: nat): Block
    requires 8 * i <= |c|
  {
    if i == 0 then iv else BlockAt(c, i - 1)
  }

  /** In CBC mode each ciphertext block is the encryption of the bitwise sum of its plaintext block and of the
      ciphertext block before it, the first of its plaintext block and the initialisation vector. */
  lemma CbcChains(p: Primitives, key: Block, iv: Block, m: Bytes, i: nat)
    requires |m| % 8 == 0 && 8 * i + 8 <= |m|
    ensures var c := CbcEncrypt(p, key, iv, m);
      exists x: Block :: IsBitSum(x, BlockAt(m, i), Previous(iv, c, i)) && BlockAt(c, i) == p.desEncrypt(key, x)
  {
    var bs := Blocks(m);
    var cs := CbcEncryptBlocks(p, key, iv, bs);
    BlocksAt(m, i);
    EncryptedBlockAt(p, key, iv, bs, i);
    JoinAt(cs, i);
    if i > 0 {
      JoinAt(cs, i - 1);
    }
    XorIsBitSum(bs[i], if i == 0 then iv else cs[i - 1]);
  }

  // ----- encryption -----

  /** Octet `j` of the padded message. */
  function PaddedOctet(m: Bytes, j: nat): byte {
    if j < |m| then m[j] else 8 - |m| % 8
  }

  function PaddedBlock(m: Bytes, i: nat): Block {
    var k := 8 * i;
    [PaddedOctet(m, k), PaddedOctet(m, k + 1), PaddedOctet(m, k + 2), PaddedOctet(m, k + 3),
     PaddedOctet(m, k + 4), PaddedOctet(m, k + 5), PaddedOctet(m, k + 6), PaddedOctet(m, k + 7)]
  }

  lemma PaddedBlockAt(m: Bytes, i: nat)
    requires 8 * i < |m| + 8 - |m| % 8
    ensures var em := m + PadOctets(8 - |m| % 8); 8 * i + 8 <= |em| && BlockAt(em, i) == PaddedBlock(m, i)
  {
    var em := m + PadOctets(8 - |m| % 8);
    forall j | 0 <= j < 8 ensures BlockAt(em, i)[j] == PaddedBlock(m, i)[j] {
      assert BlockAt(em, i)[j] == em[8 * i + j];
    }
  }

  /** The ciphertext: the message padded to whole blocks with their number of missing octets, chained from the
      second half of T_c and encrypted under its first half. */
  lemma CiphertextBlockByBlock(p: Primitives, password: Bytes, salt: Bytes, ts: seq<Digest>, m: Bytes, i: nat)
    requires IsHashChain(p, password, salt, ts) && 8 * i < |m| + 8 - |m| % 8
    ensures var text, last := Pbes1Encrypt(p, password, salt, |ts|, m), ts[|ts| - 1];
      && |text| == |m| + 8 - |m| % 8
      && exists x: Block :: IsBitSum(x, PaddedBlock(m, i), Previous(last[8..], text, i))
                            && BlockAt(text, i) == p.desEncrypt(last[..8], x)
  {
    var em, dk := m + PadOctets(8 - |m| % 8), Pbkdf1(p, password, salt, |ts|, 16);
    IteratedHashIsLast(p, password, salt, ts);
    assert dk == ts[|ts| - 1];
    PaddedBlockAt(m, i);
    CbcChains(p, dk[..8], dk[8..], em, i);
  }

  // ----- decryption -----

  /** How `Decrypt` ends: a text that is no base64, or whose octets are no salt with at least one whole block, is
      refused for that; otherwise the last decrypted octet decides, and tells how many octets to cut off. */
  lemma HowDecryptEnds(p: Primitives, password: Bytes, c: nat, cipherText: string)
    requires c >= 1
    ensures var r, octets := DecryptFramed(p, password, c, cipherText), p.unbase64(cipherText);
      && (r == Err(BadBase64) <==> octets == None)
      && (r == Err(InvalidLength) <==> octets.Some? && (|octets.value| < 16 || |octets.value| % 8 != 0))
      && (octets.Some? && |octets.value| >= 16 && |octets.value| % 8 == 0 ==>
            var em := EncodedMessage(p, password, octets.value[..8], c, octets.value[8..]);
            var n: int := em[|em| - 1];
            r == if 0 < n && n < 9 then Ok(em[..|em| - n]) else Err(InvalidPadding))
  {
  }
}
