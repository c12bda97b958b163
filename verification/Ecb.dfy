/** agent/ilink/cdn.go: AES in ECB mode (section 6.1 of NIST SP 800-38A) with PKCS #7 padding (section 6.3 of
    RFC 5652). The block cipher under one key is any pair of inverse functions on 16-byte blocks. */
module Ecb {
  const BLOCK_SIZE := 16

  type Byte = b: int | 0 <= b < 256

  datatype Cipher = Cipher(encrypt: seq<Byte> -> seq<Byte>, decrypt: seq<Byte> -> seq<Byte>)

  datatype Result = Ok(plaintext: seq<Byte>) | NotWholeBlocks | InvalidPadding

  /** Both functions map blocks to blocks, and decrypting undoes encrypting. */
  ghost predicate IsBlockCipher(c: Cipher) {
    KeepsBlocks(c.encrypt) && KeepsBlocks(c.decrypt) && Undoes(c)
  }

  ghost predicate Undoes(c: Cipher) {
    forall block: seq<Byte> :: |block| == BLOCK_SIZE ==> c.decrypt(c.encrypt(block)) == block
  }

  predicate Whole(s: seq<Byte>) {
    |s| % BLOCK_SIZE == 0
  }

  ghost predicate KeepsBlocks(f: seq<Byte> -> seq<Byte>) {
    forall block: seq<Byte> :: |block| == BLOCK_SIZE ==> |f(block)| == BLOCK_SIZE
  }

  /** ECB: the function on each block by itself. */
  function EachBlock(f: seq<Byte> -> seq<Byte>, s: seq<Byte>): seq<Byte>
    requires Whole(s)
  {
    if s == [] then [] else EachBlock(f, s[..|s| - BLOCK_SIZE]) + f(s[|s| - BLOCK_SIZE..])
  }

  function PadLength(n: nat): (k: int)
    ensures 1 <= k <= BLOCK_SIZE && (n + k) % BLOCK_SIZE == 0
  {
    BLOCK_SIZE - n % BLOCK_SIZE
  }

  /** PKCS #7: the padding says, in every byte, how long it is. */
  function Padded(p: seq<Byte>): (q: seq<Byte>)
    ensures Whole(q)
  {
    p + seq(PadLength(|p|), i => PadLength(|p|))
  }

  function Encrypted(c: Cipher, p: seq<Byte>): seq<Byte> {
    EachBlock(c.encrypt, Padded(p))
  }

  function Decrypted(c: Cipher, s: seq<Byte>): Result {
    if !Whole(s) then NotWholeBlocks
    else
      var q := EachBlock(c.decrypt, s);
      if q == [] then Ok([])
      else
        var k := q[|q| - 1];
        if k > BLOCK_SIZE || k == 0 || k > |q| then InvalidPadding else Ok(q[..|q| - k])
  }

  function PaddedSize(n: nat): nat {
    (n / BLOCK_SIZE + 1) * BLOCK_SIZE
  }

  // ----- The loops -----

  lemma {:induction false} EachBlockLength(f: seq<Byte> -> seq<Byte>, s: seq<Byte>)
    requires Whole(s) && KeepsBlocks(f)
    ensures |EachBlock(f, s)| == |s|
    decreases |s|
  {
    if s != [] {
      EachBlockLength(f, s[..|s| - BLOCK_SIZE]);
    }
  }

  /** block.Encrypt or block.Decrypt of one block of `src` into the same place of `dst`. */
  method OneBlock(f: seq<Byte> -> seq<Byte>, dst: array<Byte>, src: seq<Byte>, i: nat)
    requires KeepsBlocks(f) && dst.Length == |src| && i + BLOCK_SIZE <= |src|
    modifies dst
    ensures dst[..i + BLOCK_SIZE] == old(dst[..i]) + f(src[i..i + BLOCK_SIZE])
  {
    var block := f(src[i..i + BLOCK_SIZE]);
    forall k | 0 <= k < BLOCK_SIZE {
      dst[i + k] := block[k];
    }
    assert dst[i..i + BLOCK_SIZE] == block;
    assert dst[..i + BLOCK_SIZE] == dst[..i] + dst[i..i + BLOCK_SIZE];
  }

  method CryptBlocks(f: seq<Byte> -> seq<Byte>, src: seq<Byte>) returns (dst: array<Byte>)
    requires Whole(src) && KeepsBlocks(f)
    ensures fresh(dst) && dst[..] == EachBlock(f, src)
  {
    hide KeepsBlocks, EachBlock;
    dst := new Byte[|src|];
    var i := 0;
    ghost var done: seq<Byte> := [];
    EachBlockNone(f);
    while i < |src|
      invariant 0 <= i <= |src| && done == src[..i] && Whole(done)
      invariant dst[..i] == EachBlock(f, done)
    {
      OneBlock(f, dst, src, i);
      EachBlockMore(f, done, src[i..i + BLOCK_SIZE]);
      i, done := i + BLOCK_SIZE, done + src[i..i + BLOCK_SIZE];
    }
    assert done == src && dst[..i] == dst[..];
  }

  lemma EachBlockNone(f: seq<Byte> -> seq<Byte>)
    ensures EachBlock(f, []) == []
  {
  }

  lemma EachBlockMore(f: seq<Byte> -> seq<Byte>, s: seq<Byte>, block: seq<Byte>)
    requires Whole(s) && |block| == BLOCK_SIZE
    ensures Whole(s + block) && EachBlock(f, s + block) == EachBlock(f, s) + f(block)
  {
    var t := s + block;
    assert t[..|t| - BLOCK_SIZE] == s && t[|t| - BLOCK_SIZE..] == block;
  }

  /** The plaintext and behind it the padding, in a new buffer. */
  method Pad(plaintext: seq<Byte>) returns (padded: array<Byte>)
    ensures fresh(padded) && padded[..] == Padded(plaintext)
  {
    var padLen := BLOCK_SIZE - |plaintext| % BLOCK_SIZE;
    padded := new Byte[|plaintext| + padLen];
    ghost var n := |plaintext|;
    var i := 0;
    while i < |plaintext|
      invariant 0 <= i <= n
      invariant forall k :: 0 <= k < i ==> padded[k] == plaintext[k]
    {
      padded[i] := plaintext[i];
      i := i + 1;
    }
    while i < padded.Length
      invariant n <= i <= padded.Length
      invariant forall k :: 0 <= k < n ==> padded[k] == plaintext[k]
      invariant forall k :: n <= k < i ==> padded[k] == padLen
    {
      padded[i] := padLen;
      i := i + 1;
    }
  }

  method EncryptAESECB(c: Cipher, plaintext: seq<Byte>) returns (encrypted: array<Byte>)
    requires IsBlockCipher(c)
    ensures fresh(encrypted) && encrypted[..] == Encrypted(c, plaintext)
  {
    hide KeepsBlocks, Undoes, EachBlock;
    var padded := Pad(plaintext);
    encrypted := CryptBlocks(c.encrypt, padded[..]);
  }

  method DecryptAESECB(c: Cipher, ciphertext: seq<Byte>) returns (r: Result)
    requires IsBlockCipher(c)
    ensures r == Decrypted(c, ciphertext)
    ensures r == NotWholeBlocks <==> |ciphertext| % 16 != 0
  {
    hide KeepsBlocks, Undoes, EachBlock;
    if |ciphertext| % BLOCK_SIZE != 0 {
      return NotWholeBlocks;
    }
    var plaintext := CryptBlocks(c.decrypt, ciphertext);
    EachBlockLength(c.decrypt, ciphertext);
    if plaintext.Length == 0 {
      return Ok([]);
    }
    var padLen := plaintext[plaintext.Length - 1];
    assert plaintext[..][plaintext.Length - 1] == padLen;
    if padLen > BLOCK_SIZE || padLen == 0 {
      return InvalidPadding;
    }
    r := Ok(plaintext[..plaintext.Length - padLen]);
  }

  // ----- What they are for -----

  lemma {:induction false} BlocksUndone(c: Cipher, s: seq<Byte>)
    requires IsBlockCipher(c) && Whole(s)
    ensures |EachBlock(c.encrypt, s)| == |s| && EachBlock(c.decrypt, EachBlock(c.encrypt, s)) == s
    decreases |s|
  {
    hide EachBlock, KeepsBlocks, Undoes, Whole;
    if s == [] {
      EachBlockNone(c.encrypt);
      EachBlockNone(c.decrypt);
    } else {
      LastBlock(c.encrypt, s);
      var front, last := s[..|s| - BLOCK_SIZE], s[|s| - BLOCK_SIZE..];
      BlocksUndone(c, front);
      WholeSame(front, EachBlock(c.encrypt, front));
      EachBlockMore(c.decrypt, EachBlock(c.encrypt, front), c.encrypt(last));
      LastUndone(c, last);
      assert s == front + last;
    }
  }

  lemma LastUndone(c: Cipher, block: seq<Byte>)
    requires IsBlockCipher(c) && |block| == BLOCK_SIZE
    ensures c.decrypt(c.encrypt(block)) == block
  {
  }

  lemma WholeSame(s: seq<Byte>, t: seq<Byte>)
    requires |s| == |t|
    ensures Whole(s) <==> Whole(t)
  {
  }

  /** The last block of a text is encrypted, or decrypted, by itself. */
  lemma LastBlock(f: seq<Byte> -> seq<Byte>, s: seq<Byte>)
    requires KeepsBlocks(f) && Whole(s) && s != []
    ensures var n := |s| - BLOCK_SIZE;
            && n >= 0 && n % BLOCK_SIZE == 0 && Whole(s[..n])
            && EachBlock(f, s) == EachBlock(f, s[..n]) + f(s[n..])
            && |EachBlock(f, s[..n])| == n && |f(s[n..])| == BLOCK_SIZE
  {
    OneBlockLess(|s|);
    EachBlockLength(f, s[..|s| - BLOCK_SIZE]);
  }

  lemma OneBlockLess(n: nat)
    requires n > 0 && n % BLOCK_SIZE == 0
    ensures n >= BLOCK_SIZE && (n - BLOCK_SIZE) % BLOCK_SIZE == 0
  {
  }

  lemma WholeBlocks(i: nat, n: nat)
    requires i % BLOCK_SIZE == 0 && n % BLOCK_SIZE == 0 && i < n
    ensures i + BLOCK_SIZE <= n
  {
  }

  /** Equal blocks go to equal blocks, wherever they stand: what ECB is known for. */
  lemma {:induction false} BlockByBlock(f: seq<Byte> -> seq<Byte>, s: seq<Byte>, i: nat)
    requires KeepsBlocks(f) && Whole(s) && i % BLOCK_SIZE == 0 && i < |s|
    ensures |EachBlock(f, s)| == |s| && EachBlock(f, s)[i..i + BLOCK_SIZE] == f(s[i..i + BLOCK_SIZE])
    decreases |s|
  {
    hide EachBlock, KeepsBlocks, Whole;
    LastBlock(f, s);
    var n := |s| - BLOCK_SIZE;
    var front, last := EachBlock(f, s[..n]), f(s[n..]);
    if i < n {
      BlockByBlock(f, s[..n], i);
      WholeBlocks(i, n);
      assert s[..n][i..i + BLOCK_SIZE] == s[i..i + BLOCK_SIZE];
      assert (front + last)[i..i + BLOCK_SIZE] == front[i..i + BLOCK_SIZE];
    } else {
      NoBlockBetween(i, n);
      assert s[n..] == s[i..i + BLOCK_SIZE];
      assert (front + last)[n..n + BLOCK_SIZE] == last;
    }
  }

  lemma NoBlockBetween(i: nat, n: nat)
    requires i % BLOCK_SIZE == 0 && n % BLOCK_SIZE == 0 && n <= i < n + BLOCK_SIZE
    ensures i == n
  {
  }

  /** Decryption gives back every plaintext, and the size of a ciphertext is the one announced before encrypting. */
  lemma RoundTrip(c: Cipher, p: seq<Byte>)
    requires IsBlockCipher(c)
    ensures Decrypted(c, Encrypted(c, p)) == Ok(p)
    ensures |Encrypted(c, p)| == PaddedSize(|p|)
  {
    var q := Padded(p);
    BlocksUndone(c, q);
    assert q[..|q| - PadLength(|p|)] == p;
  }

  /** AES blocks have 16 bytes. A text that is not made of whole ones is refused, and nothing else for that reason. */
  lemma NotWholeIff(c: Cipher, s: seq<Byte>)
    ensures |s| % 16 != 0 <==> Decrypted(c, s) == NotWholeBlocks
    ensures Decrypted(c, s).Ok? ==> |s| % 16 == 0
  {
    hide EachBlock;
  }

  /** The padding in plain numbers: 16 bytes when the plaintext is made of whole blocks, else what is missing. */
  lemma PaddingIs(p: seq<Byte>)
    ensures |Padded(p)| == (|p| / 16 + 1) * 16 && p <= Padded(p)
    ensures forall i :: |p| <= i < |Padded(p)| ==> Padded(p)[i] == 16 - |p| % 16
  {
    assert Padded(p)[..|p|] == p;
  }

  /** Exactly what decryption accepts: nothing at all, or blocks whose last byte is the number of bytes to cut
      off; the other bytes of the padding are not looked at. */
  lemma DecryptedIff(c: Cipher, q: seq<Byte>, p: seq<Byte>)
    requires IsBlockCipher(c) && Whole(q)
    ensures Decrypted(c, EachBlock(c.encrypt, q)) == Ok(p) <==>
              if q == [] then p == []
              else 1 <= q[|q| - 1] <= BLOCK_SIZE && p == q[..|q| - q[|q| - 1]]
  {
    hide EachBlock, KeepsBlocks, Undoes, IsBlockCipher, Whole;
    BlocksUndone(c, q);
    WholeSame(q, EachBlock(c.encrypt, q));
    LastIsInside(q);
  }

  /** Blocks are longer than any padding. */
  lemma LastIsInside(q: seq<Byte>)
    requires Whole(q)
    ensures q == [] || |q| >= BLOCK_SIZE
    ensures |q| % BLOCK_SIZE == 0
  {
  }

  /** The last bytes of `q`, as many as the last one says, are all the same. */
  predicate UniformPadding(q: seq<Byte>) {
    q != [] && forall i :: |q| - q[|q| - 1] <= i < |q| && 0 <= i ==> q[i] == q[|q| - 1]
  }

  /** Padding what is left gives the blocks back exactly when the padding was uniform. */
  lemma PaddedBack(q: seq<Byte>, p: seq<Byte>)
    requires Whole(q) && q != [] && 1 <= q[|q| - 1] <= BLOCK_SIZE && p == q[..|q| - q[|q| - 1]]
    ensures Padded(p) == q <==> UniformPadding(q)
  {
    var k := q[|q| - 1];
    PadLengthIs(|q|, k);
    assert q == p + q[|q| - k..];
    if Padded(p) == q {
      forall i | |q| - k <= i < |q| && 0 <= i
        ensures q[i] == k
      {
        assert Padded(p)[i] == k;
      }
    }
  }

  lemma PadLengthIs(n: nat, k: nat)
    requires n % BLOCK_SIZE == 0 && 1 <= k <= BLOCK_SIZE && k <= n
    ensures PadLength(n - k) == k
  {
  }

  lemma EncryptedIsNotEmpty(c: Cipher, p: seq<Byte>)
    requires IsBlockCipher(c)
    ensures Encrypted(c, p) != []
  {
    BlocksUndone(c, Padded(p));
  }

  /** What decrypts is the encryption of what it decrypts to exactly when it is not empty and its padding is uniform. */
  lemma ReencryptsIff(c: Cipher, q: seq<Byte>, p: seq<Byte>)
    requires IsBlockCipher(c) && Whole(q) && Decrypted(c, EachBlock(c.encrypt, q)) == Ok(p)
    ensures Encrypted(c, p) == EachBlock(c.encrypt, q) <==> UniformPadding(q)
  {
    hide EachBlock, KeepsBlocks, Undoes, Decrypted, PadLength, UniformPadding;
    DecryptedIff(c, q, p);
    BlocksUndone(c, q);
    BlocksUndone(c, Padded(p));
    if q == [] {
      EncryptedIsNotEmpty(c, p);
      assert EachBlock(c.encrypt, q) == [] && !UniformPadding(q) by { NothingIsUniform(c); }
    } else {
      PaddedBack(q, p);
    }
  }

  lemma NothingIsUniform(c: Cipher)
    ensures EachBlock(c.encrypt, []) == [] && !UniformPadding([])
  {
  }

  /** Nothing else encrypts to it either: a plaintext decrypts from its own encryption only. */
  lemma EncryptionOfNothing(c: Cipher, s: seq<Byte>, p: seq<Byte>)
    requires IsBlockCipher(c) && Decrypted(c, s) == Ok(p) && Encrypted(c, p) != s
    ensures forall p' :: Encrypted(c, p') != s
  {
    hide EachBlock, KeepsBlocks, Undoes, Decrypted, Encrypted, IsBlockCipher;
    forall p'
      ensures Encrypted(c, p') != s
    {
      RoundTrip(c, p');
    }
  }

  /** Two kinds of ciphertext decrypt and are the encryption of nothing: blocks whose padding is not uniform, and
      the empty ciphertext. */
  lemma LoosePadding(c: Cipher) returns (s: seq<Byte>, p: seq<Byte>)
    requires IsBlockCipher(c)
    ensures s != [] && Decrypted(c, s) == Ok(p) && forall p' :: Encrypted(c, p') != s
    ensures Decrypted(c, []) == Ok([]) && forall p' :: Encrypted(c, p') != []
  {
    hide EachBlock, KeepsBlocks, Undoes, Decrypted, IsBlockCipher, Encrypted;
    var q: seq<Byte> := seq(BLOCK_SIZE, i => if i == BLOCK_SIZE - 1 then 2 else 7);
    p := q[..BLOCK_SIZE - 2];
    s := EachBlock(c.encrypt, q);
    DecryptedIff(c, q, p);
    BlocksUndone(c, q);
    assert !UniformPadding(q) by {
      assert q[BLOCK_SIZE - 2] == 7;
    }
    ReencryptsIff(c, q, p);
    EncryptionOfNothing(c, s, p);
    NothingIsUniform(c);
    DecryptedIff(c, [], []);
    forall p'
      ensures Encrypted(c, p') != []
    {
      EncryptedIsNotEmpty(c, p');
    }
  }
}
