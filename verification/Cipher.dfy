/** Padded block encryption of WeChat media (internal/channels/wechat.go). The block cipher is a
    parameter: any pair of inverse functions on 16-byte blocks; padding is that of section 6.3
    of RFC 5652. */
module Cipher {
  import opened Octets

  const BLOCK: nat := 16

  datatype Result = Ok(bytes: Bytes) | Err

  /** A keyed pair of block functions. */
  datatype BlockCipher = BlockCipher(encrypt: (Bytes, Bytes) -> Bytes, decrypt: (Bytes, Bytes) -> Bytes)

  ghost predicate Inverse(c: BlockCipher) {
    && (forall key, b :: |b| == BLOCK ==>
          |c.encrypt(key, b)| == BLOCK && c.decrypt(key, c.encrypt(key, b)) == b)
    && (forall key, b :: |b| == BLOCK ==>
          |c.decrypt(key, b)| == BLOCK && c.encrypt(key, c.decrypt(key, b)) == b)
  }

  /** The key lengths aes.NewCipher accepts. */
  predicate KeyOk(key: Bytes) {
    |key| in {16, 24, 32}
  }

  function PaddedSize(plaintextSize: nat): nat {
    (plaintextSize / BLOCK + 1) * BLOCK
  }

  function Fill(n: nat, b: byte): (r: Bytes)
    ensures |r| == n && forall i :: 0 <= i < n ==> r[i] == b
  {
    if n == 0 then [] else [b] + Fill(n - 1, b)
  }

  function PadLen(n: nat): (r: nat)
    ensures 1 <= r <= BLOCK && (n + r) % BLOCK == 0
  {
    BLOCK - n % BLOCK
  }

  function Pad(p: Bytes): Bytes {
    p + Fill(PadLen(|p|), PadLen(|p|) as byte)
  }

  /** What decryption does with the last byte: the pad bytes before it are not looked at. */
  function Unpad(p: Bytes): Bytes {
    if p == [] then p else
      var n := p[|p| - 1] as nat;
      if n > BLOCK || n == 0 || n > |p| then p else p[..|p| - n]
  }

  /** Well-formed padding: the last byte says how many equal bytes end the text. */
  predicate WellPadded(p: Bytes) {
    && p != []
    && var n := p[|p| - 1] as nat;
       1 <= n <= BLOCK && n <= |p| && forall i :: |p| - n <= i < |p| ==> p[i] as nat == n
  }

  function MapBlocks(f: (Bytes, Bytes) -> Bytes, key: Bytes, s: Bytes): Bytes {
    if |s| < BLOCK then [] else f(key, s[..BLOCK]) + MapBlocks(f, key, s[BLOCK..])
  }

  function Encrypted(c: BlockCipher, key: Bytes, p: Bytes): Result {
    if KeyOk(key) then Ok(MapBlocks(c.encrypt, key, Pad(p))) else Err
  }

  function Decrypted(c: BlockCipher, key: Bytes, s: Bytes): Result {
    if KeyOk(key) && |s| % BLOCK == 0 then Ok(Unpad(MapBlocks(c.decrypt, key, s))) else Err
  }

  // ----- the laws -----

  lemma {:induction false} MapBlocksInverse(f: (Bytes, Bytes) -> Bytes, g: (Bytes, Bytes) -> Bytes, key: Bytes, s: Bytes)
    requires |s| % BLOCK == 0
    requires forall b :: |b| == BLOCK ==> |f(key, b)| == BLOCK && g(key, f(key, b)) == b
    ensures |MapBlocks(f, key, s)| == |s| && MapBlocks(g, key, MapBlocks(f, key, s)) == s
  {
    if |s| >= BLOCK {
      var head, rest := f(key, s[..BLOCK]), MapBlocks(f, key, s[BLOCK..]);
      MapBlocksInverse(f, g, key, s[BLOCK..]);
      assert (head + rest)[..BLOCK] == head && (head + rest)[BLOCK..] == rest;
      assert s == s[..BLOCK] + s[BLOCK..];
    }
  }

  lemma PadShape(p: Bytes)
    ensures |Pad(p)| == PaddedSize(|p|) && |Pad(p)| % BLOCK == 0 && WellPadded(Pad(p)) && Unpad(Pad(p)) == p
  {
    assert Pad(p)[..|p|] == p;
  }

  lemma PadAgain(s: Bytes)
    requires |s| % BLOCK == 0 && WellPadded(s)
    ensures Pad(Unpad(s)) == s
  {
    var n := s[|s| - 1] as nat;
    var p := s[..|s| - n];
    assert Unpad(s) == p;
    PadLenOf(|s|, n);
    assert s == p + s[|p|..];
    assert s[|p|..] == Fill(n, n as byte);
  }

  lemma PadLenOf(size: nat, n: nat)
    requires size % BLOCK == 0 && 1 <= n <= BLOCK && n <= size
    ensures PadLen(size - n) == n
  {
  }

  lemma WellPaddedIsPad(s: Bytes)
    requires |s| % BLOCK == 0
    ensures WellPadded(s) <==> Pad(Unpad(s)) == s
  {
    PadShape(Unpad(s));
    if WellPadded(s) {
      PadAgain(s);
    }
  }

  /** Decryption undoes encryption for every plaintext and key, and the ciphertext has the
      announced size. */
  lemma DecryptOfEncrypt(c: BlockCipher, key: Bytes, p: Bytes)
    requires Inverse(c) && KeyOk(key)
    ensures Encrypted(c, key, p).Ok? && |Encrypted(c, key, p).bytes| == PaddedSize(|p|)
    ensures Decrypted(c, key, Encrypted(c, key, p).bytes) == Ok(p)
  {
    PadShape(p);
    MapBlocksInverse(c.encrypt, c.decrypt, key, Pad(p));
  }

  /** The other way round holds exactly for ciphertexts of well-padded texts, since decryption
      does not check the padding it strips. */
  lemma EncryptOfDecrypt(c: BlockCipher, key: Bytes, s: Bytes)
    requires Inverse(c) && KeyOk(key) && |s| % BLOCK == 0
    ensures Encrypted(c, key, Decrypted(c, key, s).bytes) == Ok(s) <==> WellPadded(MapBlocks(c.decrypt, key, s))
  {
    var p := MapBlocks(c.decrypt, key, s);
    MapBlocksInverse(c.decrypt, c.encrypt, key, s);
    PadShape(Unpad(p));
    MapBlocksInverse(c.encrypt, c.decrypt, key, Pad(Unpad(p)));
    WellPaddedIsPad(p);
  }

  // ----- the block loops -----

  lemma {:induction false} MapBlocksSnoc(f: (Bytes, Bytes) -> Bytes, key: Bytes, s: Bytes, b: Bytes)
    requires |s| % BLOCK == 0 && |b| == BLOCK
    ensures MapBlocks(f, key, s + b) == MapBlocks(f, key, s) + f(key, b)
  {
    if |s| == 0 {
      assert (s + b)[..BLOCK] == b && (s + b)[BLOCK..] == [];
    } else {
      assert (s + b)[..BLOCK] == s[..BLOCK] && (s + b)[BLOCK..] == s[BLOCK..] + b;
      MapBlocksSnoc(f, key, s[BLOCK..], b);
    }
  }

  /** The loop over both buffers: dst[i..i+16] := f(src[i..i+16]). */
  method ApplyBlocks(f: (Bytes, Bytes) -> Bytes, key: Bytes, src: array<byte>) returns (dst: array<byte>)
    requires src.Length % BLOCK == 0
    requires forall b :: |b| == BLOCK ==> |f(key, b)| == BLOCK
    ensures fresh(dst) && dst[..] == MapBlocks(f, key, src[..])
  {
    assert MapBlocks(f, key, []) == [];
    hide MapBlocks;
    dst := new byte[src.Length];
    ghost var s := src[..];
    assert s[..0] == [];
    var i := 0;
    while i < src.Length
      invariant 0 <= i <= src.Length && i % BLOCK == 0
      invariant dst[..i] == MapBlocks(f, key, s[..i])
    {
      var block := f(key, src[i..i + BLOCK]);
      assert src[i..i + BLOCK] == s[i..i + BLOCK];
      ghost var before := dst[..i];
      forall k | 0 <= k < BLOCK {
        dst[i + k] := block[k];
      }
      assert dst[..i] == before && dst[i..i + BLOCK] == block;
      assert dst[..i + BLOCK] == before + block;
      assert s[..i + BLOCK] == s[..i] + s[i..i + BLOCK];
      MapBlocksSnoc(f, key, s[..i], s[i..i + BLOCK]);
      i := i + BLOCK;
    }
    assert s[..|s|] == s && dst[..|s|] == dst[..];
  }

  method Encrypt(c: BlockCipher, key: Bytes, plaintext: Bytes) returns (r: Result)
    requires Inverse(c)
    ensures r == Encrypted(c, key, plaintext)
  {
    if !KeyOk(key) {
      return Err;
    }
    var padLen := BLOCK - |plaintext| % BLOCK;
    var padded := new byte[|plaintext| + padLen];
    forall k | 0 <= k < |plaintext| {
      padded[k] := plaintext[k];
    }
    for i := |plaintext| to padded.Length
      invariant padded[..|plaintext|] == plaintext
      invariant forall k :: |plaintext| <= k < i ==> padded[k] as nat == padLen
    {
      padded[i] := padLen as byte;
    }
    assert padded[..] == Pad(plaintext);
    var encrypted := ApplyBlocks(c.encrypt, key, padded);
    r := Ok(encrypted[..]);
  }

  method Decrypt(c: BlockCipher, key: Bytes, ciphertext: array<byte>) returns (r: Result)
    requires Inverse(c)
    ensures r == Decrypted(c, key, ciphertext[..])
  {
    if !KeyOk(key) {
      return Err;
    }
    if ciphertext.Length % BLOCK != 0 {
      return Err;
    }
    var plaintext := ApplyBlocks(c.decrypt, key, ciphertext);
    MapBlocksInverse(c.decrypt, c.encrypt, key, ciphertext[..]);
    if plaintext.Length == 0 {
      return Ok(plaintext[..]);
    }
    var padLen := plaintext[plaintext.Length - 1] as int;
    if padLen > BLOCK || padLen == 0 {
      return Ok(plaintext[..]);
    }
    r := Ok(plaintext[..plaintext.Length - padLen]);
  }

  // ----- what the ciphertext is -----

  /** Block `k` of the result is block `k` of the input, transformed. */
  lemma {:induction false} BlockAt(f: (Bytes, Bytes) -> Bytes, key: Bytes, s: Bytes, k: nat)
    requires |s| % 16 == 0 && 16 * k + 16 <= |s| && forall b :: |b| == 16 ==> |f(key, b)| == 16
    ensures |MapBlocks(f, key, s)| == |s|
    ensures MapBlocks(f, key, s)[16 * k..16 * k + 16] == f(key, s[16 * k..16 * k + 16])
  {
    var rest := s[16..];
    MapBlocksSize(f, key, s);
    if k > 0 {
      BlockAt(f, key, rest, k - 1);
      assert rest[16 * (k - 1)..16 * (k - 1) + 16] == s[16 * k..16 * k + 16];
      assert MapBlocks(f, key, s)[16 * k..16 * k + 16] == MapBlocks(f, key, rest)[16 * (k - 1)..16 * (k - 1) + 16];
    }
  }

  lemma {:induction false} MapBlocksSize(f: (Bytes, Bytes) -> Bytes, key: Bytes, s: Bytes)
    requires |s| % 16 == 0 && forall b :: |b| == 16 ==> |f(key, b)| == 16
    ensures |MapBlocks(f, key, s)| == |s|
  {
    if |s| >= 16 {
      MapBlocksSize(f, key, s[16..]);
    }
  }

  /** Encryption transforms, block by block and in order, the text followed by `n` bytes of value
      `n`, where `n` is what it lacks to the next multiple of sixteen, at least one. */
  lemma CiphertextIs(c: BlockCipher, key: Bytes, p: Bytes, k: nat)
    requires Inverse(c) && KeyOk(key) && 16 * k < |p| + 16 - |p| % 16
    ensures var n := 16 - |p| % 16;
            var padded, r := p + seq(n, i => n as byte), Encrypted(c, key, p);
            && r.Ok? && |r.bytes| == |padded| && 16 * k + 16 <= |padded|
            && r.bytes[16 * k..16 * k + 16] == c.encrypt(key, padded[16 * k..16 * k + 16])
  {
    var n := 16 - |p| % 16;
    PadShape(p);
    assert Pad(p) == p + seq(n, i => n as byte);
    BlockAt(c.encrypt, key, Pad(p), k);
  }

  /** Decryption transforms block by block and in order, and cuts off as many bytes as the last
      one says, if that is at least one and at most sixteen. */
  lemma PlaintextIs(c: BlockCipher, key: Bytes, s: Bytes, k: nat)
    requires Inverse(c) && KeyOk(key) && |s| % 16 == 0 && 16 * k + 16 <= |s|
    ensures var last := c.decrypt(key, s[|s| - 16..])[15] as nat;
            var n, r := if 1 <= last <= 16 then last else 0, Decrypted(c, key, s);
            && r.Ok? && |r.bytes| == |s| - n
            && forall j :: 16 * k <= j < 16 * k + 16 && j < |r.bytes| ==>
                 r.bytes[j] == c.decrypt(key, s[16 * k..16 * k + 16])[j - 16 * k]
  {
    hide MapBlocks;
    var m := MapBlocks(c.decrypt, key, s);
    BlockAt(c.decrypt, key, s, k);
    BlockAt(c.decrypt, key, s, |s| / 16 - 1);
    assert s[|s| - 16..] == s[|s| - 16..|s|] && m[|s| - 1] == m[|s| - 16..|s|][15];
    assert forall j :: 16 * k <= j < 16 * k + 16 ==> m[j] == m[16 * k..16 * k + 16][j - 16 * k];
  }

  /** Only a bad key makes encryption fail; decryption fails on a torn block, too. */
  lemma WhenItFails(c: BlockCipher, key: Bytes, s: Bytes)
    ensures Encrypted(c, key, s).Err? <==> |key| != 16 && |key| != 24 && |key| != 32
    ensures Decrypted(c, key, s).Err? <==> (|key| != 16 && |key| != 24 && |key| != 32) || |s| % 16 != 0
  {
  }
}
