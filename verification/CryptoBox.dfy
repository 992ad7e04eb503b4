/** app/crypto_box.py: HKDF, an HMAC counter keystream, and encrypt-then-MAC around one node key. */
module CryptoBox {
  import opened Wrappers
  import opened Octets

  type Bytes = seq<bv8>

  datatype BoxError = EmptySecret | NotBase64 | BadFormat | BadTag | NotText | CounterOverflow

  /** HMAC-SHA256 and the text codecs are parameters; of HMAC only its output length is known. */
  datatype Primitives = Primitives(
    hmac: (Bytes, Bytes) -> Bytes,
    utf8: string -> Bytes,
    utf8Decode: Bytes -> Option<string>,
    base64: Bytes -> string,
    base64Decode: string -> Option<Bytes>)

  const BLOCK := 32
  const NONCE_LEN := 16
  const TAG_LEN := 32
  const VERSION: Bytes := [0x76, 0x31]
  const HEADER_LEN := 2 + NONCE_LEN + TAG_LEN

  ghost predicate Lawful(x: Primitives) {
    && (forall key, data :: |x.hmac(key, data)| == BLOCK)
    && (forall s, b :: x.utf8Decode(b) == Some(s) <==> b == x.utf8(s))
    && (forall b :: x.base64Decode(x.base64(b)) == Some(b))
  }

  // ---------------------------------------------------------------- HKDF

  /** T(i) of section 2.3 of RFC 5869; its counter is a single octet. */
  function HkdfBlock(x: Primitives, prk: Bytes, info: Bytes, i: nat): Bytes
    requires i <= 255
  {
    if i == 0 then [] else x.hmac(prk, HkdfBlock(x, prk, info, i - 1) + info + [i as bv8])
  }

  /** T(1) | ... | T(n) */
  function HkdfBlocks(x: Primitives, prk: Bytes, info: Bytes, n: nat): Bytes
    requires n <= 255
  {
    if n == 0 then [] else HkdfBlocks(x, prk, info, n - 1) + HkdfBlock(x, prk, info, n)
  }

  function Blocks(length: nat): nat {
    (length + BLOCK - 1) / BLOCK
  }

  lemma {:induction false} HkdfBlocksLength(x: Primitives, prk: Bytes, info: Bytes, n: nat)
    requires Lawful(x) && n <= 255
    ensures |HkdfBlocks(x, prk, info, n)| == n * BLOCK
  {
    if n > 0 { HkdfBlocksLength(x, prk, info, n - 1); }
  }

  /** Extract (section 2.2), then the first `length` octets of the expansion (section 2.3). */
  ghost function Hkdf(x: Primitives, secret: Bytes, salt: Bytes, info: Bytes, length: nat): (okm: Bytes)
    requires Lawful(x) && length <= 255 * BLOCK
    ensures |okm| == length
  {
    var prk := x.hmac(salt, secret);
    HkdfBlocksLength(x, prk, info, Blocks(length));
    HkdfBlocks(x, prk, info, Blocks(length))[..length]
  }

  /** The loop computes the RFC's function for every length the RFC allows, and fails on all others. */
  method HkdfLoop(x: Primitives, secret: Bytes, salt: Bytes, info: Bytes, length: nat)
    returns (r: Result<Bytes, BoxError>)
    requires Lawful(x)
    ensures length <= 255 * BLOCK ==> r == Success(Hkdf(x, secret, salt, info, length))
    ensures length > 255 * BLOCK ==> r == Failure(CounterOverflow)
  {
    var prk := x.hmac(salt, secret);
    var okm: Bytes := [];
    var block: Bytes := [];
    var counter := 1;
    while |okm| < length
      invariant 1 <= counter <= 256 && |okm| == (counter - 1) * BLOCK
      invariant |okm| < length + BLOCK
      invariant okm == HkdfBlocks(x, prk, info, counter - 1)
      invariant block == HkdfBlock(x, prk, info, counter - 1)
      decreases length + BLOCK - |okm|
    {
      if counter > 255 {
        return Failure(CounterOverflow);
      }
      block := x.hmac(prk, block + info + [counter as bv8]);
      okm := okm + block;
      counter := counter + 1;
    }
    assert length <= 255 * BLOCK ==> counter - 1 == Blocks(length);
    r := Success(okm[..length]);
  }

  /** The chain of section 2.3 of RFC 5869 with its first link T(0) empty. */
  ghost predicate Chain(x: Primitives, prk: Bytes, info: Bytes, t: seq<Bytes>) {
    && 1 <= |t| <= 256 && t[0] == []
    && forall i | 1 <= i < |t| :: t[i] == x.hmac(prk, t[i - 1] + info + [i as bv8])
  }

  lemma {:induction false} ChainBlock(x: Primitives, prk: Bytes, info: Bytes, t: seq<Bytes>, i: nat)
    requires Chain(x, prk, info, t) && i < |t|
    ensures HkdfBlock(x, prk, info, i) == t[i]
  {
    if i > 0 { ChainBlock(x, prk, info, t, i - 1); }
  }

  lemma {:induction false} BlocksAt(x: Primitives, prk: Bytes, info: Bytes, n: nat, i: nat, j: nat)
    requires Lawful(x) && i < n <= 255 && j < BLOCK
    ensures |HkdfBlocks(x, prk, info, n)| == n * BLOCK
    ensures |HkdfBlock(x, prk, info, i + 1)| == BLOCK
    ensures HkdfBlocks(x, prk, info, n)[BLOCK * i + j] == HkdfBlock(x, prk, info, i + 1)[j]
  {
    HkdfBlocksLength(x, prk, info, n);
    HkdfBlocksLength(x, prk, info, n - 1);
    if i < n - 1 { BlocksAt(x, prk, info, n - 1, i, j); }
  }

  /** Octet by octet, the output is T(1) | T(2) | ..., keyed by HMAC(salt, secret). */
  lemma HkdfOctet(x: Primitives, secret: Bytes, salt: Bytes, info: Bytes, length: nat, t: seq<Bytes>, i: nat, j: nat)
    requires Lawful(x) && length <= 255 * BLOCK && Chain(x, x.hmac(salt, secret), info, t)
    requires j < 32 && 32 * i + j < length && i + 1 < |t|
    ensures |t[i + 1]| == 32 && Hkdf(x, secret, salt, info, length)[32 * i + j] == t[i + 1][j]
  {
    BlocksAt(x, x.hmac(salt, secret), info, Blocks(length), i, j);
    ChainBlock(x, x.hmac(salt, secret), info, t, i + 1);
  }

  lemma {:induction false} HkdfBlocksPrefix(x: Primitives, prk: Bytes, info: Bytes, m: nat, n: nat)
    requires m <= n <= 255
    ensures HkdfBlocks(x, prk, info, m) <= HkdfBlocks(x, prk, info, n)
    decreases n
  {
    if m < n { HkdfBlocksPrefix(x, prk, info, m, n - 1); }
  }

  /** Asking for more never changes what was already there. */
  lemma HkdfPrefixStable(x: Primitives, secret: Bytes, salt: Bytes, info: Bytes, short: nat, long: nat)
    requires Lawful(x) && short <= long <= 255 * BLOCK
    ensures Hkdf(x, secret, salt, info, short) == Hkdf(x, secret, salt, info, long)[..short]
  {
    var prk := x.hmac(salt, secret);
    assert Blocks(short) <= Blocks(long) <= 255;
    HkdfBlocksPrefix(x, prk, info, Blocks(short), Blocks(long));
    HkdfBlocksLength(x, prk, info, Blocks(short));
    HkdfBlocksLength(x, prk, info, Blocks(long));
  }

  // ---------------------------------------------------------------- keystream

  const COUNTER_LIMIT := 0x1_0000_0000_0000_0000

  lemma CounterOctets(i: nat, octets: Bytes)
    requires |octets| == 8 && Value(octets) == i && i < COUNTER_LIMIT
    ensures BigEndian(i, 8) == octets
  {
    EightOctets();
    hide BigEndian, Value, Pow256;
    BigEndianIs(i, 8);
    ValueUnique(BigEndian(i, 8), octets);
  }

  /** Different counters give HMAC different inputs. */
  lemma CountersDiffer(nonce: Bytes, i: nat, k: nat)
    requires i < COUNTER_LIMIT && k < COUNTER_LIMIT && i != k
    ensures nonce + BigEndian(i, 8) != nonce + BigEndian(k, 8)
  {
    EightOctets();
    hide BigEndian, Value, Pow256;
    BigEndianIs(i, 8);
    BigEndianIs(k, 8);
    var a, b := nonce + BigEndian(i, 8), nonce + BigEndian(k, 8);
    assert a[|nonce|..] == BigEndian(i, 8) && b[|nonce|..] == BigEndian(k, 8);
  }

  function PadBlock(x: Primitives, key: Bytes, nonce: Bytes, i: nat): Bytes {
    x.hmac(key, nonce + BigEndian(i, 8))
  }

  function PadBlocks(x: Primitives, key: Bytes, nonce: Bytes, n: nat): Bytes {
    if n == 0 then [] else PadBlocks(x, key, nonce, n - 1) + PadBlock(x, key, nonce, n - 1)
  }

  lemma PadBlockLength(x: Primitives, key: Bytes, nonce: Bytes, i: nat)
    requires Lawful(x)
    ensures |PadBlock(x, key, nonce, i)| == BLOCK
  {
    hide BigEndian;
  }

  lemma {:induction false} PadBlocksLength(x: Primitives, key: Bytes, nonce: Bytes, n: nat)
    requires Lawful(x)
    ensures |PadBlocks(x, key, nonce, n)| == n * BLOCK
  {
    hide PadBlock;
    if n > 0 {
      PadBlocksLength(x, key, nonce, n - 1);
      PadBlockLength(x, key, nonce, n - 1);
    }
  }

  ghost function Keystream(x: Primitives, key: Bytes, nonce: Bytes, length: nat): (pad: Bytes)
    requires Lawful(x)
    ensures |pad| == length
  {
    PadBlocksLength(x, key, nonce, Blocks(length));
    PadBlocks(x, key, nonce, Blocks(length))[..length]
  }

  method KeystreamLoop(x: Primitives, key: Bytes, nonce: Bytes, length: nat) returns (r: Result<Bytes, BoxError>)
    requires Lawful(x)
    ensures length <= COUNTER_LIMIT * BLOCK ==> r == Success(Keystream(x, key, nonce, length))
    ensures length > COUNTER_LIMIT * BLOCK ==> r == Failure(CounterOverflow)
  {
    hide BigEndian;
    var out: Bytes := [];
    var counter := 0;
    while |out| < length
      invariant 0 <= counter <= COUNTER_LIMIT && |out| == counter * BLOCK
      invariant |out| < length + BLOCK
      invariant out == PadBlocks(x, key, nonce, counter)
      decreases length + BLOCK - |out|
    {
      if counter >= COUNTER_LIMIT {
        return Failure(CounterOverflow);
      }
      out := out + x.hmac(key, nonce + BigEndian(counter, 8));
      counter := counter + 1;
    }
    assert length <= COUNTER_LIMIT * BLOCK ==> counter == Blocks(length);
    r := Success(out[..length]);
  }

  lemma {:induction false} PadBlocksAt(x: Primitives, key: Bytes, nonce: Bytes, n: nat, i: nat, j: nat)
    requires Lawful(x) && i < n && j < BLOCK
    ensures |PadBlocks(x, key, nonce, n)| == n * BLOCK && |PadBlock(x, key, nonce, i)| == BLOCK
    ensures PadBlocks(x, key, nonce, n)[BLOCK * i + j] == PadBlock(x, key, nonce, i)[j]
  {
    hide PadBlock;
    PadBlocksLength(x, key, nonce, n);
    PadBlocksLength(x, key, nonce, n - 1);
    PadBlockLength(x, key, nonce, i);
    if i < n - 1 { PadBlocksAt(x, key, nonce, n - 1, i, j); }
  }

  /** Octet k of the pad is octet k % 32 of HMAC over the nonce and the eight octets that stand for k / 32. */
  lemma KeystreamOctet(x: Primitives, key: Bytes, nonce: Bytes, length: nat, k: nat, counter: Bytes)
    requires Lawful(x) && k < length && |counter| == 8 && Value(counter) == k / 32 && k / 32 < COUNTER_LIMIT
    ensures Keystream(x, key, nonce, length)[k] == x.hmac(key, nonce + counter)[k % 32]
  {
    hide BigEndian, Value;
    CounterOctets(k / 32, counter);
    PadBlocksAt(x, key, nonce, Blocks(length), k / 32, k % 32);
  }

  lemma {:induction false} PadBlocksPrefix(x: Primitives, key: Bytes, nonce: Bytes, m: nat, n: nat)
    requires m <= n
    ensures PadBlocks(x, key, nonce, m) <= PadBlocks(x, key, nonce, n)
    decreases n
  {
    hide PadBlock;
    if m < n { PadBlocksPrefix(x, key, nonce, m, n - 1); }
  }

  lemma KeystreamPrefixStable(x: Primitives, key: Bytes, nonce: Bytes, short: nat, long: nat)
    requires Lawful(x) && short <= long
    ensures Keystream(x, key, nonce, short) == Keystream(x, key, nonce, long)[..short]
  {
    PadBlocksPrefix(x, key, nonce, Blocks(short), Blocks(long));
    PadBlocksLength(x, key, nonce, Blocks(short));
    PadBlocksLength(x, key, nonce, Blocks(long));
  }

  // ---------------------------------------------------------------- seal and unseal

  /** zip stops at the shorter of the two. */
  function Xor(data: Bytes, pad: Bytes): (r: Bytes)
    ensures |r| == if |data| <= |pad| then |data| else |pad|
  {
    seq(if |data| <= |pad| then |data| else |pad|, i requires 0 <= i < |data| && i < |pad| => data[i] ^ pad[i])
  }

  lemma XorTwice(data: Bytes, pad: Bytes)
    requires |data| <= |pad|
    ensures Xor(Xor(data, pad), pad) == data
  {
    forall i | 0 <= i < |data| ensures (data[i] ^ pad[i]) ^ pad[i] == data[i] {
      XorByte(data[i], pad[i]);
    }
  }

  lemma XorByte(a: bv8, b: bv8)
    ensures (a ^ b) ^ b == a
  {
  }

  const INFO: string := "librespeed-node-key"

  ghost function Derive(x: Primitives, secret: string, nonce: Bytes): (keys: (Bytes, Bytes))
    requires Lawful(x)
    ensures |keys.0| == BLOCK && |keys.1| == BLOCK
  {
    var material := Hkdf(x, x.utf8(secret), nonce, x.utf8(INFO), 2 * BLOCK);
    (material[..BLOCK], material[BLOCK..])
  }

  ghost function Tag(x: Primitives, macKey: Bytes, nonce: Bytes, ciphertext: Bytes): Bytes {
    x.hmac(macKey, VERSION + nonce + ciphertext)
  }

  /** The blob that sealing `text` under a nonce produces. */
  ghost function SealBlob(x: Primitives, secret: string, nonce: Bytes, text: string): Bytes
    requires Lawful(x)
  {
    var keys := Derive(x, secret, nonce);
    var raw := x.utf8(text);
    var ciphertext := Xor(raw, Keystream(x, keys.0, nonce, |raw|));
    VERSION + nonce + Tag(x, keys.1, nonce, ciphertext) + ciphertext
  }

  method Seal(x: Primitives, secret: string, nonce: Bytes, text: string) returns (r: Result<string, BoxError>)
    requires Lawful(x) && |nonce| == NONCE_LEN
    ensures r == if secret == "" then Failure(EmptySecret)
                 else if |x.utf8(text)| > COUNTER_LIMIT * BLOCK then Failure(CounterOverflow)
                 else Success(x.base64(SealBlob(x, secret, nonce, text)))
  {
    if secret == "" {
      return Failure(EmptySecret);
    }
    var material := HkdfLoop(x, x.utf8(secret), nonce, x.utf8(INFO), 2 * BLOCK);
    var encKey, macKey := material.value[..BLOCK], material.value[BLOCK..];
    var raw := x.utf8(text);
    var pad :- KeystreamLoop(x, encKey, nonce, |raw|);
    var ciphertext := Xor(raw, pad);
    var tag := x.hmac(macKey, VERSION + nonce + ciphertext);
    r := Success(x.base64(VERSION + nonce + tag + ciphertext));
  }

  /** What unsealing a blob gives. */
  ghost function OpenBlob(x: Primitives, secret: string, blob: Bytes): Result<string, BoxError>
    requires Lawful(x)
  {
    if |blob| < HEADER_LEN || blob[..2] != VERSION then Failure(BadFormat)
    else
      var nonce, tag, ciphertext := blob[2..18], blob[18..HEADER_LEN], blob[HEADER_LEN..];
      var keys := Derive(x, secret, nonce);
      if tag != Tag(x, keys.1, nonce, ciphertext) then Failure(BadTag)
      else match x.utf8Decode(Xor(ciphertext, Keystream(x, keys.0, nonce, |ciphertext|)))
        case None => Failure(NotText)
        case Some(text) => Success(text)
  }

  method Unseal(x: Primitives, secret: string, sealed: string) returns (r: Result<string, BoxError>)
    requires Lawful(x)
    ensures r == if secret == "" then Failure(EmptySecret)
                 else match x.base64Decode(sealed)
                   case None => Failure(NotBase64)
                   case Some(blob) =>
                     if && |blob| > HEADER_LEN + COUNTER_LIMIT * BLOCK
                        && OpenBlob(x, secret, blob) !in {Failure(BadFormat), Failure(BadTag)}
                     then Failure(CounterOverflow)
                     else OpenBlob(x, secret, blob)
  {
    if secret == "" {
      return Failure(EmptySecret);
    }
    var decoded := x.base64Decode(sealed);
    if decoded.None? {
      return Failure(NotBase64);
    }
    var blob := decoded.value;
    var headerLen := |VERSION| + NONCE_LEN + TAG_LEN;
    if |blob| < headerLen || blob[..|VERSION|] != VERSION {
      return Failure(BadFormat);
    }
    var nonce := blob[|VERSION|..|VERSION| + NONCE_LEN];
    var tag := blob[|VERSION| + NONCE_LEN..headerLen];
    var ciphertext := blob[headerLen..];
    var material := HkdfLoop(x, x.utf8(secret), nonce, x.utf8(INFO), 2 * BLOCK);
    var encKey, macKey := material.value[..BLOCK], material.value[BLOCK..];
    var expected := x.hmac(macKey, VERSION + nonce + ciphertext);
    if tag != expected {
      return Failure(BadTag);
    }
    var pad :- KeystreamLoop(x, encKey, nonce, |ciphertext|);
    var text := x.utf8Decode(Xor(ciphertext, pad));
    r := if text.None? then Failure(NotText) else Success(text.value);
  }

  lemma BlobLayout(nonce: Bytes, tag: Bytes, ciphertext: Bytes)
    requires |nonce| == NONCE_LEN && |tag| == TAG_LEN
    ensures var blob := VERSION + nonce + tag + ciphertext;
            && |blob| == HEADER_LEN + |ciphertext| && blob[..2] == VERSION
            && blob[2..18] == nonce && blob[18..HEADER_LEN] == tag && blob[HEADER_LEN..] == ciphertext
  {
  }

  lemma BlobRebuilt(blob: Bytes)
    requires |blob| >= HEADER_LEN && blob[..2] == VERSION
    ensures blob == VERSION + blob[2..18] + blob[18..HEADER_LEN] + blob[HEADER_LEN..]
  {
  }

  /** Sealing can be undone, for every HMAC. */
  lemma OpenSealed(x: Primitives, secret: string, nonce: Bytes, text: string)
    requires Lawful(x) && |nonce| == NONCE_LEN
    ensures OpenBlob(x, secret, SealBlob(x, secret, nonce, text)) == Success(text)
  {
    var keys := Derive(x, secret, nonce);
    var raw := x.utf8(text);
    var pad := Keystream(x, keys.0, nonce, |raw|);
    var ciphertext := Xor(raw, pad);
    BlobLayout(nonce, Tag(x, keys.1, nonce, ciphertext), ciphertext);
    XorTwice(raw, pad);
  }

  /** Whatever is accepted is, byte for byte, what sealing its own output under its own nonce gives. */
  lemma SealOpened(x: Primitives, secret: string, blob: Bytes, text: string)
    requires Lawful(x)
    ensures OpenBlob(x, secret, blob) == Success(text) ==>
              |blob| >= HEADER_LEN && SealBlob(x, secret, blob[2..18], text) == blob
  {
    hide Derive, Keystream, Xor, Tag;
    if OpenBlob(x, secret, blob) == Success(text) {
      var nonce, tag, ciphertext := blob[2..18], blob[18..HEADER_LEN], blob[HEADER_LEN..];
      var keys := Derive(x, secret, nonce);
      var pad := Keystream(x, keys.0, nonce, |ciphertext|);
      XorTwice(ciphertext, pad);
      assert x.utf8(text) == Xor(ciphertext, pad);
      BlobRebuilt(blob);
    }
  }

  /** A blob opens to a text exactly when it is a sealing of that text. */
  lemma OpensExactlySealings(x: Primitives, secret: string, blob: Bytes, text: string)
    requires Lawful(x)
    ensures OpenBlob(x, secret, blob) == Success(text) <==>
            exists nonce: Bytes :: |nonce| == NONCE_LEN && SealBlob(x, secret, nonce, text) == blob
  {
    hide OpenBlob, SealBlob;
    if OpenBlob(x, secret, blob) == Success(text) {
      SealOpened(x, secret, blob, text);
      var nonce := blob[2..18];
      assert |nonce| == NONCE_LEN && SealBlob(x, secret, nonce, text) == blob;
    }
    if nonce: Bytes :| |nonce| == NONCE_LEN && SealBlob(x, secret, nonce, text) == blob {
      OpenSealed(x, secret, nonce, text);
    }
  }

  /** What the registration protocol assumes of sealing holds of this code. */
  lemma SealingCanBeUndone(x: Primitives, secret: string, nonce: Bytes, key: string)
    requires Lawful(x) && secret != "" && |nonce| == NONCE_LEN
    ensures var blob := x.base64Decode(x.base64(SealBlob(x, secret, nonce, key)));
            blob.Some? && OpenBlob(x, secret, blob.value) == Success(key)
  {
    OpenSealed(x, secret, nonce, key);
  }

  // ---------------------------------------------------------------- the sealed format, spelled out

  /** The two keys: T(1) encrypts and T(2) authenticates. */
  lemma DerivedKeys(x: Primitives, secret: string, nonce: Bytes, t1: Bytes, t2: Bytes)
    requires Lawful(x)
    requires t1 == x.hmac(x.hmac(nonce, x.utf8(secret)), x.utf8("librespeed-node-key") + [1])
    requires t2 == x.hmac(x.hmac(nonce, x.utf8(secret)), t1 + x.utf8("librespeed-node-key") + [2])
    ensures Derive(x, secret, nonce) == (t1, t2)
  {
    hide Hkdf;
    var prk, info := x.hmac(nonce, x.utf8(secret)), x.utf8(INFO);
    var t := [[], t1, t2];
    assert [] + info == info;
    assert Chain(x, prk, info, t);
    var keys := Derive(x, secret, nonce);
    var material := Hkdf(x, x.utf8(secret), nonce, info, 64);
    forall j | 0 <= j < 32 ensures keys.0[j] == t1[j] && keys.1[j] == t2[j] {
      HkdfOctet(x, x.utf8(secret), nonce, info, 64, t, 0, j);
      HkdfOctet(x, x.utf8(secret), nonce, info, 64, t, 1, j);
      assert keys.1[j] == material[32 + j];
    }
    assert |t1| == 32 && |t2| == 32;
    assert keys.0 == t1 && keys.1 == t2;
  }

  /**
   * A sealed blob in terms of HMAC alone: "v1", the nonce, the tag over everything else, and the text's octets
   * each combined with an octet of HMAC over the nonce and a counter.
   */
  lemma SealedFormat(x: Primitives, secret: string, nonce: Bytes, text: string, t1: Bytes, t2: Bytes)
    requires Lawful(x) && |nonce| == 16 && |x.utf8(text)| <= COUNTER_LIMIT * BLOCK
    requires t1 == x.hmac(x.hmac(nonce, x.utf8(secret)), x.utf8("librespeed-node-key") + [1])
    requires t2 == x.hmac(x.hmac(nonce, x.utf8(secret)), t1 + x.utf8("librespeed-node-key") + [2])
    ensures var blob, raw := SealBlob(x, secret, nonce, text), x.utf8(text);
            && |blob| == 50 + |raw| && blob[..2] == [0x76, 0x31] && blob[2..18] == nonce
            && blob[18..50] == x.hmac(t2, [0x76, 0x31] + nonce + blob[50..])
            && forall k: nat, counter: Bytes | k < |raw| && |counter| == 8 && Value(counter) == k / 32 ::
                 blob[50 + k] == raw[k] ^ x.hmac(t1, nonce + counter)[k % 32]
  {
    hide Derive, Keystream, Value;
    DerivedKeys(x, secret, nonce, t1, t2);
    var raw := x.utf8(text);
    var pad := Keystream(x, t1, nonce, |raw|);
    var ciphertext := Xor(raw, pad);
    BlobLayout(nonce, Tag(x, t2, nonce, ciphertext), ciphertext);
    forall k: nat, counter: Bytes | k < |raw| && |counter| == 8 && Value(counter) == k / 32
      ensures SealBlob(x, secret, nonce, text)[50 + k] == raw[k] ^ x.hmac(t1, nonce + counter)[k % 32]
    {
      KeystreamOctet(x, t1, nonce, |raw|, k, counter);
      assert SealBlob(x, secret, nonce, text)[50 + k] == ciphertext[k];
    }
  }

  /**
   * What is refused, and as what: a wrong header, then a tag that is not HMAC over the rest, then octets that
   * are no text.
   */
  lemma Refused(x: Primitives, secret: string, blob: Bytes, t1: Bytes, t2: Bytes)
    requires Lawful(x) && |blob| >= 50 && blob[..2] == [0x76, 0x31]
    requires t1 == x.hmac(x.hmac(blob[2..18], x.utf8(secret)), x.utf8("librespeed-node-key") + [1])
    requires t2 == x.hmac(x.hmac(blob[2..18], x.utf8(secret)), t1 + x.utf8("librespeed-node-key") + [2])
    ensures OpenBlob(x, secret, blob) != Failure(BadFormat)
    ensures OpenBlob(x, secret, blob) == Failure(BadTag) <==>
            blob[18..50] != x.hmac(t2, [0x76, 0x31] + blob[2..18] + blob[50..])
    ensures OpenBlob(x, secret, blob).Failure? ==> OpenBlob(x, secret, blob).error in {BadTag, NotText}
  {
    hide Derive, Keystream, Xor;
    DerivedKeys(x, secret, blob[2..18], t1, t2);
  }

  lemma BadHeader(x: Primitives, secret: string, blob: Bytes)
    requires Lawful(x)
    ensures OpenBlob(x, secret, blob) == Failure(BadFormat) <==> |blob| < 50 || blob[..2] != [0x76, 0x31]
  {
    hide Derive, Keystream, Xor, Tag;
  }
}
