/**
  The bytes that the bundle digest hashes: a version tag, then each
  certificate and the public key behind its length. The encoding can be read
  back, so two bundles with the same bytes are the same bundle.
 */
module BundleDigest {
  import opened Options

  type Byte = x: int | 0 <= x < 256

  type Blob = seq<Byte>

  /** "cert-bundle-v1" and a zero byte. */
  const VERSION: Blob := [99, 101, 114, 116, 45, 98, 117, 110, 100, 108, 101, 45, 118, 49, 0]

  const LENGTH_BYTES := 8
  const MAX_LENGTH := 0x1_0000_0000_0000_0000

  // ---------------------------------------------------------------- lengths

  /** `k` bytes of `n`, the most significant first; what does not fit is cut off. */
  function BigEndian(n: nat, k: nat): (b: Blob)
    ensures |b| == k
  {
    if k == 0 then [] else BigEndian(n / 256, k - 1) + [n % 256]
  }

  function Value(b: Blob): nat {
    if b == [] then 0 else Value(b[..|b| - 1]) * 256 + b[|b| - 1]
  }

  function Pow256(k: nat): (p: nat)
    ensures p > 0
  {
    if k == 0 then 1 else 256 * Pow256(k - 1)
  }

  lemma {:induction false} ValueOfBigEndian(n: nat, k: nat)
    requires n < Pow256(k)
    ensures Value(BigEndian(n, k)) == n
  {
    if k > 0 {
      assert n / 256 < Pow256(k - 1);
      ValueOfBigEndian(n / 256, k - 1);
      assert BigEndian(n, k)[..k - 1] == BigEndian(n / 256, k - 1);
    }
  }

  lemma {:induction false} BigEndianOfValue(b: Blob)
    ensures Value(b) < Pow256(|b|) && BigEndian(Value(b), |b|) == b
  {
    if b != [] {
      var k := |b|;
      BigEndianOfValue(b[..k - 1]);
      assert Value(b) / 256 == Value(b[..k - 1]) && Value(b) % 256 == b[k - 1];
    }
  }

  lemma EightBytes()
    ensures Pow256(LENGTH_BYTES) == MAX_LENGTH
  {
    assert Pow256(2) == 0x1_0000;
    assert Pow256(4) == 0x1_0000_0000;
    assert Pow256(6) == 0x1_0000_0000_0000;
  }

  // ---------------------------------------------------------------- parts

  function Part(data: Blob): Blob {
    BigEndian(|data|, LENGTH_BYTES) + data
  }

  function Parts(parts: seq<Blob>): Blob {
    if parts == [] then [] else Parts(parts[..|parts| - 1]) + Part(parts[|parts| - 1])
  }

  /** Reading parts back from the front: a length, then that many bytes, until nothing is left. */
  function ReadParts(b: Blob): Option<seq<Blob>> {
    if b == [] then Some([])
    else if |b| < LENGTH_BYTES then None
    else
      var n := Value(b[..LENGTH_BYTES]);
      if LENGTH_BYTES + n > |b| then None
      else
        match ReadParts(b[LENGTH_BYTES + n..])
        case None => None
        case Some(rest) => Some([b[LENGTH_BYTES..LENGTH_BYTES + n]] + rest)
  }

  predicate Short(parts: seq<Blob>) {
    forall i | 0 <= i < |parts| :: |parts[i]| < MAX_LENGTH
  }

  lemma {:induction false} PartsFromTheFront(parts: seq<Blob>)
    requires parts != []
    ensures Parts(parts) == Part(parts[0]) + Parts(parts[1..])
  {
    var n := |parts| - 1;
    if n > 0 {
      PartsFromTheFront(parts[..n]);
      assert parts[..n][1..] == parts[1..][..n - 1];
      assert parts[1..][n - 1] == parts[n];
    }
  }

  /** Reading takes the first part off the front. */
  lemma ReadsFirst(first: Blob, tail: Blob)
    requires |first| < MAX_LENGTH
    ensures ReadParts(Part(first) + tail) ==
            match ReadParts(tail)
            case None => None
            case Some(rest) => Some([first] + rest)
  {
    EightBytes();
    ValueOfBigEndian(|first|, LENGTH_BYTES);
    hide BigEndian;
    hide Value;
    hide Pow256;
    var b := Part(first) + tail;
    assert b[..LENGTH_BYTES] == BigEndian(|first|, LENGTH_BYTES);
    assert b[LENGTH_BYTES..LENGTH_BYTES + |first|] == first;
    assert b[LENGTH_BYTES + |first|..] == tail;
  }

  /** What was written can be read back. */
  lemma {:induction false} PartsRoundTrip(parts: seq<Blob>)
    requires Short(parts)
    ensures ReadParts(Parts(parts)) == Some(parts)
  {
    if parts != [] {
      PartsFromTheFront(parts);
      PartsRoundTrip(parts[1..]);
      ReadsFirst(parts[0], Parts(parts[1..]));
      assert [parts[0]] + parts[1..] == parts;
      hide Part;
      hide Parts;
      hide ReadParts;
    }
  }

  /** And whatever can be read is what would be written: no two byte strings stand for the same parts. */
  lemma {:induction false} ReadPartsExactly(b: Blob)
    ensures ReadParts(b).Some? ==> Short(ReadParts(b).value) && Parts(ReadParts(b).value) == b
    decreases |b|
  {
    hide Value;
    hide BigEndian;
    if b != [] && ReadParts(b).Some? {
      var n := Value(b[..LENGTH_BYTES]);
      var first, rest := b[LENGTH_BYTES..LENGTH_BYTES + n], ReadParts(b[LENGTH_BYTES + n..]).value;
      assert ReadParts(b).value == [first] + rest;
      ReadPartsExactly(b[LENGTH_BYTES + n..]);
      LengthReadBack(b[..LENGTH_BYTES], first);
      PartsFromTheFront([first] + rest);
      assert ([first] + rest)[1..] == rest;
      hide Parts;
      hide Part;
      hide ReadParts;
      assert b == b[..LENGTH_BYTES] + first + b[LENGTH_BYTES + n..];
    }
  }

  lemma LengthReadBack(length: Blob, data: Blob)
    requires |length| == LENGTH_BYTES && Value(length) == |data|
    ensures |data| < MAX_LENGTH && Part(data) == length + data
  {
    BigEndianOfValue(length);
    EightBytes();
  }

  // ---------------------------------------------------------------- the digest

  class Hash {
    var written: Blob

    constructor ()
      ensures written == []
    {
      written := [];
    }

    method Write(data: Blob)
      modifies this
      ensures written == old(written) + data
    {
      written := written + data;
    }
  }

  /** The length goes first, so that the end of a part never depends on what follows. */
  method WriteDigestPart(digest: Hash, data: Blob)
    modifies digest
    ensures digest.written == old(digest.written) + Part(data)
  {
    digest.Write(BigEndian(|data|, LENGTH_BYTES));
    digest.Write(data);
    assert digest.written == old(digest.written) + Part(data);
  }

  function Hashed(chain: seq<Blob>, publicKey: Blob): Blob {
    VERSION + Parts(chain + [publicKey])
  }

  lemma OnePartMore(before: Blob, parts: seq<Blob>, part: Blob)
    ensures before + Parts(parts) + Part(part) == before + Parts(parts + [part])
  {
    assert (parts + [part])[..|parts|] == parts;
    assert before + Parts(parts) + Part(part) == before + (Parts(parts) + Part(part));
  }

  method BundleInput(chain: seq<Blob>, publicKey: Blob) returns (input: Blob)
    ensures input == Hashed(chain, publicKey)
  {
    var hash := new Hash();
    hash.Write(VERSION);
    assert hash.written == VERSION + Parts(chain[..0]);
    hide Parts;
    hide Part;
    for i := 0 to |chain|
      invariant hash.written == VERSION + Parts(chain[..i])
    {
      WriteDigestPart(hash, chain[i]);
      OnePartMore(VERSION, chain[..i], chain[i]);
      assert chain[..i] + [chain[i]] == chain[..i + 1];
    }
    WriteDigestPart(hash, publicKey);
    OnePartMore(VERSION, chain, publicKey);
    assert chain[..|chain|] == chain;
    input := hash.written;
  }

  /** Two bundles that hash the same bytes have the same certificates, in the same order, and the same key. */
  lemma HashedIsInjective(chain1: seq<Blob>, key1: Blob, chain2: seq<Blob>, key2: Blob)
    requires Short(chain1 + [key1]) && Short(chain2 + [key2])
    requires Hashed(chain1, key1) == Hashed(chain2, key2)
    ensures chain1 == chain2 && key1 == key2
  {
    var a, b := chain1 + [key1], chain2 + [key2];
    assert Hashed(chain1, key1)[|VERSION|..] == Parts(a);
    assert Hashed(chain2, key2)[|VERSION|..] == Parts(b);
    PartsRoundTrip(a);
    PartsRoundTrip(b);
    assert a[..|a| - 1] == chain1 && b[..|b| - 1] == chain2;
    assert a[|a| - 1] == key1 && b[|b| - 1] == key2;
  }
}
