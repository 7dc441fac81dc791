/** The 80 bytes a miner hashes, as Bitcoin's block header format has them. */
module BlockHeaders {
  import opened Bytes

  datatype BlockHeader = BlockHeader(version: u32, prevHash: Hash, root: Hash, time: u32, bits: u32, nonce: u32)

  function HeaderBytes(version: u32, prev: Hash, root: Hash, time: u32, bits: u32, nonce: u32): Bytes {
    LittleEndian(version, 4) + prev + root + LittleEndian(time, 4) + LittleEndian(bits, 4) + LittleEndian(nonce, 4)
  }

  /** The little-endian word at offset `i`. */
  function WordAt(b: Bytes, i: nat): u32
    requires i + 4 <= |b|
  {
    FromLittleEndianRoundTrip(b[i..i + 4]);
    Pow256Constants();
    FromLittleEndian(b[i..i + 4])
  }

  function ReadHeader(b: Bytes): Option<BlockHeader> {
    if |b| != 80 then None
    else Some(BlockHeader(WordAt(b, 0), b[4..36], b[36..68], WordAt(b, 68), WordAt(b, 72), WordAt(b, 76)))
  }

  lemma {:induction false} WordReadBack(before: Bytes, v: u32, after: Bytes, b: Bytes)
    requires b == before + LittleEndian(v, 4) + after
    ensures WordAt(b, |before|) == v
  {
    Pow256Constants();
    LittleEndianRoundTrip(v, 4);
    assert b[|before|..|before| + 4] == LittleEndian(v, 4);
  }

  /** A header is read back from its bytes. */
  lemma {:induction false} HeaderReadBack(h: BlockHeader)
    ensures ReadHeader(HeaderBytes(h.version, h.prevHash, h.root, h.time, h.bits, h.nonce)) == Some(h)
  {
    var b := HeaderBytes(h.version, h.prevHash, h.root, h.time, h.bits, h.nonce);
    var v, t := LittleEndian(h.version, 4), LittleEndian(h.time, 4);
    var n, c := LittleEndian(h.bits, 4), LittleEndian(h.nonce, 4);
    assert b == [] + v + (h.prevHash + h.root + t + n + c);
    WordReadBack([], h.version, h.prevHash + h.root + t + n + c, b);
    assert b == (v + h.prevHash + h.root) + t + (n + c);
    WordReadBack(v + h.prevHash + h.root, h.time, n + c, b);
    assert b == (v + h.prevHash + h.root + t) + n + c;
    WordReadBack(v + h.prevHash + h.root + t, h.bits, c, b);
    assert b == (v + h.prevHash + h.root + t + n) + c + [];
    WordReadBack(v + h.prevHash + h.root + t + n, h.nonce, [], b);
    assert b[4..36] == h.prevHash && b[36..68] == h.root;
  }

  /** And from no others. */
  lemma {:induction false} HeaderReadOnlyWritten(b: Bytes)
    requires ReadHeader(b).Some?
    ensures var h := ReadHeader(b).value;
            b == HeaderBytes(h.version, h.prevHash, h.root, h.time, h.bits, h.nonce)
  {
    FromLittleEndianRoundTrip(b[0..4]);
    FromLittleEndianRoundTrip(b[68..72]);
    FromLittleEndianRoundTrip(b[72..76]);
    FromLittleEndianRoundTrip(b[76..80]);
  }

  /** `hash`, most significant byte first, is the block hash of `h`: the double SHA-256,
      reversed, of the bytes that read as `h`. */
  ghost predicate HashesTo(env: Env, h: BlockHeader, hash: Hash) {
    exists b: Bytes :: ReadHeader(b) == Some(h) && hash == Reverse(env.sha256d(b))
  }

  /** Exactly one hash is. */
  lemma {:induction false} HashOfHeader(env: Env, h: BlockHeader, hash: Hash)
    ensures HashesTo(env, h, hash)
            <==> hash == Reverse(env.sha256d(HeaderBytes(h.version, h.prevHash, h.root, h.time, h.bits, h.nonce)))
  {
    HeaderReadBack(h);
    forall b: Bytes | ReadHeader(b) == Some(h)
      ensures b == HeaderBytes(h.version, h.prevHash, h.root, h.time, h.bits, h.nonce)
    {
      HeaderReadOnlyWritten(b);
    }
  }
}
