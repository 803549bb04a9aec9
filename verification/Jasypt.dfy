/** Password-based encryption (`crypt/jasypt/jasypt.go`) against PBES1 of RFC 8018.

    MD5, the DES block cipher and base64 are parameters with the laws the code relies
    on; PBKDF1, padding, CBC chaining and the salt frame are spelled out. */
module Jasypt {
  import opened Prelude
  import opened Bits

  type Block = b: Bytes | |b| == 8 witness [0, 0, 0, 0, 0, 0, 0, 0]
  type Digest = b: Bytes | |b| == 16 witness [0, 0, 0, 0, 0, 0, 0, 0, 0, 0, 0, 0, 0, 0, 0, 0]

  /** The block functions take the key first. */
  datatype Primitives = Primitives(
    md5: Bytes -> Digest,
    desEncrypt: (Block, Block) -> Block,
    desDecrypt: (Block, Block) -> Block,
    base64: Bytes -> string,
    unbase64: string -> Option<Bytes>)

  /** DES under each key permutes the blocks, and base64 decoding undoes encoding. */
  ghost predicate Lawful(p: Primitives) {
    && (forall k, b :: p.desDecrypt(k, p.desEncrypt(k, b)) == b)
    && (forall k, b :: p.desEncrypt(k, p.desDecrypt(k, b)) == b)
    && (forall m :: p.unbase64(p.base64(m)) == Some(m))
  }

  datatype Error = BadBase64 | InvalidLength | InvalidPadding

  // ----- RFC 8018 -----

  /** T_c of section 5.1. */
  function HashIterated(p: Primitives, password: Bytes, salt: Bytes, c: nat): Digest
    requires c >= 1
  {
    if c == 1 then p.md5(password + salt) else p.md5(HashIterated(p, password, salt, c - 1))
  }

  /** PBKDF1 with MD5, section 5.1: derived keys of up to 16 octets. */
  function Pbkdf1(p: Primitives, password: Bytes, salt: Bytes, c: nat, dkLen: nat): (dk: Bytes)
    requires c >= 1 && dkLen <= 16
    ensures |dk| == dkLen
  {
    HashIterated(p, password, salt, c)[..dkLen]
  }

  function Xor(a: Block, b: Block): Block {
    seq(8, i requires 0 <= i < 8 => XorByte(a[i], b[i]))
  }

  /** CBC mode: each block is combined with the ciphertext block before it. */
  function CbcEncryptBlocks(p: Primitives, key: Block, iv: Block, m: seq<Block>): (c: seq<Block>)
    ensures |c| == |m|
    decreases m
  {
    if m == [] then [] else
    var block := p.desEncrypt(key, Xor(m[0], iv));
    [block] + CbcEncryptBlocks(p, key, block, m[1..])
  }

  function CbcDecryptBlocks(p: Primitives, key: Block, iv: Block, c: seq<Block>): (m: seq<Block>)
    ensures |m| == |c|
    decreases c
  {
    if c == [] then [] else [Xor(p.desDecrypt(key, c[0]), iv)] + CbcDecryptBlocks(p, key, c[0], c[1..])
  }

  /** Cutting octets into blocks of eight, and putting blocks together. */
  function Blocks(m: Bytes): (bs: seq<Block>)
    requires |m| % 8 == 0
    ensures 8 * |bs| == |m|
  {
    if m == [] then [] else [m[..8]] + Blocks(m[8..])
  }

  function Join(bs: seq<Block>): (m: Bytes)
    ensures |m| == 8 * |bs|
  {
    if bs == [] then [] else bs[0] + Join(bs[1..])
  }

  lemma {:induction false} JoinUndoesBlocks(m: Bytes)
    requires |m| % 8 == 0
    ensures Join(Blocks(m)) == m
  {
    if m != [] {
      JoinUndoesBlocks(m[8..]);
      assert m == m[..8] + m[8..];
    }
  }

  lemma {:induction false} BlocksUndoesJoin(bs: seq<Block>)
    ensures Blocks(Join(bs)) == bs
  {
    if bs != [] {
      BlocksUndoesJoin(bs[1..]);
      assert Join(bs)[..8] == bs[0] && Join(bs)[8..] == Join(bs[1..]);
    }
  }

  function CbcEncrypt(p: Primitives, key: Block, iv: Block, m: Bytes): (c: Bytes)
    requires |m| % 8 == 0
    ensures |c| == |m|
  {
    Join(CbcEncryptBlocks(p, key, iv, Blocks(m)))
  }

  function CbcDecrypt(p: Primitives, key: Block, iv: Block, c: Bytes): (m: Bytes)
    requires |c| % 8 == 0
    ensures |m| == |c|
  {
    Join(CbcDecryptBlocks(p, key, iv, Blocks(c)))
  }

  function PadOctets(psLen: nat): Bytes
    requires 1 <= psLen <= 8
  {
    seq(psLen, _ => psLen)
  }

  /** Section 6.1.1: M followed by 8 - (|M| mod 8) octets of that value, in CBC mode under the two halves of the
      derived key. */
  function Pbes1Encrypt(p: Primitives, password: Bytes, salt: Bytes, c: nat, m: Bytes): Bytes
    requires c >= 1
  {
    var dk := Pbkdf1(p, password, salt, c, 16);
    CbcEncrypt(p, dk[..8], dk[8..], m + PadOctets(8 - |m| % 8))
  }

  /** The octets of `text` after CBC decryption, padding included. */
  function EncodedMessage(p: Primitives, password: Bytes, salt: Bytes, c: nat, text: Bytes): (em: Bytes)
    requires c >= 1 && |text| % 8 == 0
    ensures |em| == |text|
  {
    var dk := Pbkdf1(p, password, salt, c, 16);
    CbcDecrypt(p, dk[..8], dk[8..], text)
  }

  /** The encoded message ends in 1 to 8 octets that all give their number. */
  predicate WellPadded(em: Bytes) {
    em != [] &&
    var n := em[|em| - 1];
    1 <= n <= 8 && n <= |em| && em[|em| - n..] == PadOctets(n)
  }

  /** Section 6.1.2. */
  function Pbes1Decrypt(p: Primitives, password: Bytes, salt: Bytes, c: nat, text: Bytes): Result<Bytes, Error>
    requires c >= 1
  {
    if |text| == 0 || |text| % 8 != 0 then Err(InvalidLength) else
    var em := EncodedMessage(p, password, salt, c, text);
    if WellPadded(em) then Ok(em[..|em| - em[|em| - 1]]) else Err(InvalidPadding)
  }

  // ----- the code -----

  /** `getDerivedKey`: for counts of at least 1 the two halves of PBKDF1's output, and below 1 the same as for 1.
      `des.NewCipher` never refuses the eight octets of the first half. */
  method GetDerivedKey(p: Primitives, password: Bytes, salt: Bytes, count: int) returns (dk: Block, iv: Block)
    ensures dk == Pbkdf1(p, password, salt, Max(count, 1), 16)[..8]
    ensures iv == Pbkdf1(p, password, salt, Max(count, 1), 16)[8..]
  {
    var key := p.md5(password + salt);
    var i := 0;
    while i < count - 1
      invariant 0 <= i <= Max(count - 1, 0)
      invariant key == HashIterated(p, password, salt, i + 1)
    {
      key := p.md5(key);
      i := i + 1;
    }
    dk, iv := key[..8], key[8..];
  }

  method DoEncrypt(p: Primitives, password: Bytes, plainText: Bytes, salt: Bytes, iterationCount: int)
    returns (encrypted: Bytes)
    ensures encrypted == Pbes1Encrypt(p, password, salt, Max(iterationCount, 1), plainText)
  {
    var padNum := 8 - |plainText| % 8;
    var padded := plainText + seq(padNum, _ => padNum);
    assert padded == plainText + PadOctets(8 - |plainText| % 8);
    var dk, iv := GetDerivedKey(p, password, salt, iterationCount);
    encrypted := CbcEncrypt(p, dk, iv, padded);
  }

  /** What `doDecrypt` computes: it looks at the last octet of the padding only. */
  function LenientDecrypt(p: Primitives, password: Bytes, salt: Bytes, c: nat, text: Bytes): Result<Bytes, Error>
    requires c >= 1
  {
    if |text| == 0 || |text| % 8 != 0 then Err(InvalidLength) else
    var em := EncodedMessage(p, password, salt, c, text);
    var n := em[|em| - 1];
    if 1 <= n <= 8 then Ok(em[..|em| - n]) else Err(InvalidPadding)
  }

  method DoDecrypt(p: Primitives, password: Bytes, encText: Bytes, salt: Bytes, iterationCount: int)
    returns (r: Result<Bytes, Error>)
    ensures r == LenientDecrypt(p, password, salt, Max(iterationCount, 1), encText)
  {
    if |encText| == 0 || |encText| % 8 != 0 {
      return Err(InvalidLength);
    }
    var dk, iv := GetDerivedKey(p, password, salt, iterationCount);
    var decrypted := CbcDecrypt(p, dk, iv, encText);
    var padNum := decrypted[|decrypted| - 1];
    if padNum < 1 || padNum > 8 {
      return Err(InvalidPadding);
    }
    return Ok(decrypted[..|decrypted| - padNum]);
  }

  /** `Encrypt`'s output for the 8 random octets `salt`. */
  function Framed(p: Primitives, salt: Bytes, encText: Bytes): string {
    p.base64(salt + encText)
  }

  method Encrypt(p: Primitives, password: Bytes, iterationCount: int, plainText: Bytes, salt: Bytes)
    returns (cipherText: string)
    requires |salt| == 8
    ensures cipherText == Framed(p, salt, Pbes1Encrypt(p, password, salt, Max(iterationCount, 1), plainText))
  {
    var encText := DoEncrypt(p, password, plainText, salt, iterationCount);
    cipherText := p.base64(salt + encText);
  }

  function DecryptFramed(p: Primitives, password: Bytes, c: nat, cipherText: string): Result<Bytes, Error>
    requires c >= 1
  {
    match p.unbase64(cipherText)
    case None => Err(BadBase64)
    case Some(msg) =>
      if |msg| < 8 || |msg| % 8 != 0 then Err(InvalidLength)
      else LenientDecrypt(p, password, msg[..8], c, msg[8..])
  }

  method Decrypt(p: Primitives, password: Bytes, iterationCount: int, cipherText: string)
    returns (r: Result<Bytes, Error>)
    ensures r == DecryptFramed(p, password, Max(iterationCount, 1), cipherText)
  {
    var msgBytes := p.unbase64(cipherText);
    if msgBytes == None {
      return Err(BadBase64);
    }
    var msg := msgBytes.value;
    if |msg| < 8 || |msg| % 8 != 0 {
      return Err(InvalidLength);
    }
    r := DoDecrypt(p, password, msg[8..], msg[..8], iterationCount);
  }

  // ----- main results -----

  lemma XorUndoesXor(a: Block, b: Block)
    ensures Xor(Xor(a, b), b) == a
  {
    forall i | 0 <= i < 8 ensures Xor(Xor(a, b), b)[i] == a[i] {
      XorByteUndoes(a[i], b[i]);
    }
  }

  lemma {:induction false} BlocksDecryptUndoesEncrypt(p: Primitives, key: Block, iv: Block, m: seq<Block>)
    requires Lawful(p)
    ensures CbcDecryptBlocks(p, key, iv, CbcEncryptBlocks(p, key, iv, m)) == m
    decreases m
  {
    if m != [] {
      var block := p.desEncrypt(key, Xor(m[0], iv));
      var rest := CbcEncryptBlocks(p, key, block, m[1..]);
      assert ([block] + rest)[1..] == rest;
      BlocksDecryptUndoesEncrypt(p, key, block, m[1..]);
      XorUndoesXor(m[0], iv);
    }
  }

  lemma {:induction false} BlocksEncryptUndoesDecrypt(p: Primitives, key: Block, iv: Block, c: seq<Block>)
    requires Lawful(p)
    ensures CbcEncryptBlocks(p, key, iv, CbcDecryptBlocks(p, key, iv, c)) == c
    decreases c
  {
    if c != [] {
      var block := Xor(p.desDecrypt(key, c[0]), iv);
      var rest := CbcDecryptBlocks(p, key, c[0], c[1..]);
      assert ([block] + rest)[1..] == rest;
      XorUndoesXor(p.desDecrypt(key, c[0]), iv);
      BlocksEncryptUndoesDecrypt(p, key, c[0], c[1..]);
    }
  }

  /** CBC encryption and decryption under one key and initialisation vector are inverse to each other. */
  lemma CbcRoundTrips(p: Primitives, key: Block, iv: Block, m: Bytes)
    requires Lawful(p) && |m| % 8 == 0
    ensures CbcDecrypt(p, key, iv, CbcEncrypt(p, key, iv, m)) == m
    ensures CbcEncrypt(p, key, iv, CbcDecrypt(p, key, iv, m)) == m
  {
    var bs := Blocks(m);
    JoinUndoesBlocks(m);
    BlocksUndoesJoin(CbcEncryptBlocks(p, key, iv, bs));
    BlocksDecryptUndoesEncrypt(p, key, iv, bs);
    BlocksUndoesJoin(CbcDecryptBlocks(p, key, iv, bs));
    BlocksEncryptUndoesDecrypt(p, key, iv, bs);
  }

  lemma PaddedEndsWithItsNumber(m: Bytes)
    ensures var n := 8 - |m| % 8;
      var em := m + PadOctets(n);
      |em| % 8 == 0 && |em| > 0 && em[|em| - 1] == n && em[..|em| - n] == m && WellPadded(em)
  {
    var n := 8 - |m| % 8;
    var em := m + PadOctets(n);
    assert em[|em| - n..] == PadOctets(n);
  }

  /** Both the standard's and the code's decryption undo encryption, whatever octets the plaintext ends in. */
  lemma TextDecryptsToPlaintext(p: Primitives, password: Bytes, salt: Bytes, c: nat, m: Bytes)
    requires Lawful(p) && c >= 1
    ensures var text := Pbes1Encrypt(p, password, salt, c, m);
      && |text| % 8 == 0 && |text| > 0
      && Pbes1Decrypt(p, password, salt, c, text) == Ok(m)
      && LenientDecrypt(p, password, salt, c, text) == Ok(m)
  {
    var dk := Pbkdf1(p, password, salt, c, 16);
    PaddedEndsWithItsNumber(m);
    CbcRoundTrips(p, dk[..8], dk[8..], m + PadOctets(8 - |m| % 8));
  }

  lemma FrameOpens(p: Primitives, salt: Bytes, text: Bytes)
    requires Lawful(p) && |salt| == 8
    ensures p.unbase64(Framed(p, salt, text)) == Some(salt + text)
    ensures (salt + text)[..8] == salt && (salt + text)[8..] == text
  {
  }

  /** `Decrypt` undoes `Encrypt` for every password, iteration count (also below 1), salt and plaintext. */
  lemma DecryptUndoesEncrypt(p: Primitives, password: Bytes, salt: Bytes, iterationCount: int, m: Bytes)
    requires Lawful(p) && |salt| == 8
    ensures var c := Max(iterationCount, 1);
      DecryptFramed(p, password, c, Framed(p, salt, Pbes1Encrypt(p, password, salt, c, m))) == Ok(m)
  {
    var c := Max(iterationCount, 1);
    TextDecryptsToPlaintext(p, password, salt, c, m);
    FrameOpens(p, salt, Pbes1Encrypt(p, password, salt, c, m));
  }

  /** The code against section 6.1.2: it departs from it exactly on texts of whole blocks whose decrypted octets
      end in a number from 1 to 8 without ending in that many octets of it.  These the standard rejects, and the
      code accepts. */
  lemma DecryptAgainstStandard(p: Primitives, password: Bytes, salt: Bytes, c: nat, text: Bytes)
    requires c >= 1
    ensures var code, standard := LenientDecrypt(p, password, salt, c, text), Pbes1Decrypt(p, password, salt, c, text);
      && (code != standard <==>
            |text| > 0 && |text| % 8 == 0 &&
            var em := EncodedMessage(p, password, salt, c, text);
            1 <= em[|em| - 1] <= 8 && exists i :: |em| - em[|em| - 1] <= i < |em| && em[i] != em[|em| - 1])
      && (code != standard ==> code.Ok? && standard == Err(InvalidPadding))
  {
    if |text| > 0 && |text| % 8 == 0 {
      WellPaddedByOctets(EncodedMessage(p, password, salt, c, text));
    }
  }

  lemma WellPaddedByOctets(em: Bytes)
    requires |em| >= 8
    ensures var n := em[|em| - 1];
      WellPadded(em) <==> 1 <= n <= 8 && forall i :: |em| - n <= i < |em| ==> em[i] == n
  {
    var n := em[|em| - 1];
    if WellPadded(em) {
      forall i | |em| - n <= i < |em| ensures em[i] == n {
        assert em[i] == em[|em| - n..][i - (|em| - n)];
      }
    }
  }

  const MALFORMED: Block := [0, 0, 0, 0, 0, 0, 0, 2]

  /** Such texts exist under every password, salt and count: the encryption of a block that ends in 0, 2. */
  lemma MalformedPaddingIsAccepted(p: Primitives, password: Bytes, salt: Bytes, c: nat)
    requires Lawful(p) && c >= 1
    ensures var dk := Pbkdf1(p, password, salt, c, 16);
      var text := CbcEncrypt(p, dk[..8], dk[8..], MALFORMED);
      && LenientDecrypt(p, password, salt, c, text) == Ok([0, 0, 0, 0, 0, 0])
      && Pbes1Decrypt(p, password, salt, c, text) == Err(InvalidPadding)
  {
    var dk := Pbkdf1(p, password, salt, c, 16);
    CbcRoundTrips(p, dk[..8], dk[8..], MALFORMED);
    assert MALFORMED[6] == 0 && MALFORMED[..6] == [0, 0, 0, 0, 0, 0];
    WellPaddedByOctets(MALFORMED);
  }

  /** Cutting the padding off and padding again gives the octets back exactly when they are well padded. */
  lemma PaddingRestored(em: Bytes)
    requires |em| >= 8 && |em| % 8 == 0 && 1 <= em[|em| - 1] <= 8
    ensures var m := em[..|em| - em[|em| - 1]];
      em == m + PadOctets(8 - |m| % 8) <==> WellPadded(em)
  {
    var n := em[|em| - 1];
    var m := em[..|em| - n];
    assert n == 8 - |m| % 8;
    assert em == m + em[|em| - n..];
    if em == m + PadOctets(n) {
      PaddedEndsWithItsNumber(m);
    }
  }

  /** CBC encryption under one key tells octets apart. */
  lemma CbcEncryptsTo(p: Primitives, key: Block, iv: Block, m: Bytes, c: Bytes)
    requires Lawful(p) && |m| % 8 == 0 && |c| % 8 == 0
    ensures CbcEncrypt(p, key, iv, m) == c <==> CbcDecrypt(p, key, iv, c) == m
  {
    CbcRoundTrips(p, key, iv, m);
    CbcRoundTrips(p, key, iv, c);
  }

  lemma CbcRestored(p: Primitives, key: Block, iv: Block, text: Bytes)
    requires Lawful(p) && |text| >= 8 && |text| % 8 == 0
    requires var em := CbcDecrypt(p, key, iv, text); 1 <= em[|em| - 1] <= 8
    ensures var em := CbcDecrypt(p, key, iv, text);
      var m := em[..|em| - em[|em| - 1]];
      CbcEncrypt(p, key, iv, m + PadOctets(8 - |m| % 8)) == text <==> WellPadded(em)
  {
    var em := CbcDecrypt(p, key, iv, text);
    var m := em[..|em| - em[|em| - 1]];
    PaddingRestored(em);
    CbcEncryptsTo(p, key, iv, m + PadOctets(8 - |m| % 8), text);
  }

  /** Encrypting a decrypted text again gives back the text exactly when its padding is well formed. */
  lemma EncryptUndoesDecryptIffWellPadded(p: Primitives, password: Bytes, salt: Bytes, c: nat, text: Bytes)
    requires Lawful(p) && c >= 1 && LenientDecrypt(p, password, salt, c, text).Ok?
    ensures Pbes1Encrypt(p, password, salt, c, LenientDecrypt(p, password, salt, c, text).value) == text
            <==> WellPadded(EncodedMessage(p, password, salt, c, text))
  {
    var dk := Pbkdf1(p, password, salt, c, 16);
    CbcRestored(p, dk[..8], dk[8..], text);
  }

  /** The standard accepts exactly the ciphertexts, so what the code accepts beyond it encrypts no plaintext. */
  lemma StandardAcceptsExactlyCiphertexts(p: Primitives, password: Bytes, salt: Bytes, c: nat, text: Bytes)
    requires Lawful(p) && c >= 1
    ensures Pbes1Decrypt(p, password, salt, c, text).Ok? <==> exists m :: Pbes1Encrypt(p, password, salt, c, m) == text
    ensures LenientDecrypt(p, password, salt, c, text) != Pbes1Decrypt(p, password, salt, c, text) <==>
            LenientDecrypt(p, password, salt, c, text).Ok? && forall m :: Pbes1Encrypt(p, password, salt, c, m) != text
  {
    DecryptAgainstStandard(p, password, salt, c, text);
    forall m | Pbes1Encrypt(p, password, salt, c, m) == text ensures Pbes1Decrypt(p, password, salt, c, text).Ok? {
      TextDecryptsToPlaintext(p, password, salt, c, m);
    }
    if Pbes1Decrypt(p, password, salt, c, text).Ok? {
      EncryptUndoesDecryptIffWellPadded(p, password, salt, c, text);
    }
  }
}
