/** jobs.rs, the Stratum V2 half: a coinbase in two parts around a 36-byte hole. */
module Coinbase {
  import opened Bytes
  import opened Transactions
  import opened NodeTemplate

  const EXTRANONCE_PREFIX := 32
  const EXTRANONCE2 := 4
  const EXTRANONCE_TOTAL := 36

  datatype Parts = Parts(coinb1: Bytes, coinb2: Bytes)

  function Assemble(p: Parts, extranonce: Bytes): Bytes {
    p.coinb1 + extranonce + p.coinb2
  }

  /** The coinbase transaction the two parts stand for. */
  function CoinbaseTx(t: Template, payout: Bytes, extranonce: Bytes, os: seq<TxOut>, segwit: bool): Tx {
    Tx(t.txVersion,
       [TxIn(Zeros(32), U32_MAX, t.scriptPrefix + extranonce, t.sequence)],
       [TxOut(t.valueRemaining, payout)] + os,
       [if segwit then [Zeros(32)] else []],
       t.locktime)
  }

  function Glue(pieces: seq<Bytes>): Bytes {
    if pieces == [] then [] else Glue(pieces[..|pieces| - 1]) + pieces[|pieces| - 1]
  }

  function Prefix(t: Template, segwit: bool): Bytes {
    Glue([LittleEndian(t.txVersion, 4), if segwit then [0x00, 0x01] else [], [1], Zeros(32), LittleEndian(U32_MAX, 4),
          Varint((|t.scriptPrefix| + EXTRANONCE_TOTAL) % 0x1_0000_0000_0000_0000), t.scriptPrefix])
  }

  function Suffix(t: Template, payout: Bytes, segwit: bool): Bytes {
    Glue([LittleEndian(t.sequence, 4), Varint(1 + t.outputsCount), WriteTxOut(TxOut(t.valueRemaining, payout)),
          t.outputs,
          if segwit then [0x01, 0x20] + Zeros(32) else [], LittleEndian(t.locktime, 4)])
  }

  lemma {:induction false} GlueMore(pieces: seq<Bytes>, piece: Bytes)
    ensures Glue(pieces + [piece]) == Glue(pieces) + piece
  {
    assert (pieces + [piece])[..|pieces|] == pieces;
  }

  lemma {:induction false} GlueSix(a: Bytes, b: Bytes, c: Bytes, d: Bytes, e: Bytes, f: Bytes)
    ensures Glue([a, b, c, d, e, f]) == a + b + c + d + e + f
  {
    GlueMore([], a);
    GlueMore([a], b);
    GlueMore([a, b], c);
    GlueMore([a, b, c], d);
    GlueMore([a, b, c, d], e);
    GlueMore([a, b, c, d, e], f);
    assert [] + [a] == [a] && [] + a == a && [a] + [b] == [a, b] && [a, b] + [c] == [a, b, c];
    assert [a, b, c] + [d] == [a, b, c, d] && [a, b, c, d] + [e] == [a, b, c, d, e];
    assert [a, b, c, d, e] + [f] == [a, b, c, d, e, f];
  }

  lemma {:induction false} PrefixBytes(t: Template, segwit: bool)
    ensures Prefix(t, segwit)
            == LittleEndian(t.txVersion, 4) + (if segwit then [0x00, 0x01] else []) + [1] + Zeros(32)
              + LittleEndian(U32_MAX, 4)
               + Varint((|t.scriptPrefix| + EXTRANONCE_TOTAL) % 0x1_0000_0000_0000_0000) + t.scriptPrefix
  {
    var version, end := LittleEndian(t.txVersion, 4), LittleEndian(U32_MAX, 4);
    var marker := if segwit then [0x00, 0x01] else [];
    var count := Varint((|t.scriptPrefix| + EXTRANONCE_TOTAL) % 0x1_0000_0000_0000_0000);
    var pieces := [version, marker, [1], Zeros(32), end, count];
    GlueSix(version, marker, [1], Zeros(32), end, count);
    GlueMore(pieces, t.scriptPrefix);
    assert pieces + [t.scriptPrefix] == [version, marker, [1], Zeros(32), end, count, t.scriptPrefix];
  }

  lemma {:induction false} SuffixBytes(t: Template, payout: Bytes, segwit: bool)
    ensures Suffix(t, payout, segwit)
            == LittleEndian(t.sequence, 4) + Varint(1 + t.outputsCount) + WriteTxOut(TxOut(t.valueRemaining, payout))
              + t.outputs
               + (if segwit then [0x01, 0x20] + Zeros(32) else []) + LittleEndian(t.locktime, 4)
  {
    GlueSix(LittleEndian(t.sequence, 4), Varint(1 + t.outputsCount), WriteTxOut(TxOut(t.valueRemaining, payout)),
            t.outputs,
            if segwit then [0x01, 0x20] + Zeros(32) else [], LittleEndian(t.locktime, 4));
  }

  /** `write_varint`. */
  method AppendVarint(buf: Bytes, n: u64) returns (buf': Bytes)
    ensures buf' == buf + Varint(n)
  {
    if n < 0xfd {
      buf' := buf + [n];
    } else if n <= 0xffff {
      buf' := buf + [0xfd];
      buf' := buf' + LittleEndian(n, 2);
    } else if n <= 0xffff_ffff {
      buf' := buf + [0xfe];
      buf' := buf' + LittleEndian(n, 4);
    } else {
      buf' := buf + [0xff];
      buf' := buf' + LittleEndian(n, 8);
    }
  }

  /** `build_sv2_coinbase_from_tdp`. */
  method BuildSv2CoinbaseFromTdp(t: Template, payout: Bytes, segwit: bool) returns (p: Parts)
    ensures p == Parts(Prefix(t, segwit), Suffix(t, payout, segwit))
  {
    var prefix: Bytes := LittleEndian(t.txVersion, 4);
    if segwit {
      prefix := prefix + [0x00, 0x01];
    }
    assert prefix == LittleEndian(t.txVersion, 4) + (if segwit then [0x00, 0x01] else []);
    prefix := prefix + [1];
    prefix := prefix + Zeros(32);
    prefix := prefix + LittleEndian(U32_MAX, 4);
    prefix := AppendVarint(prefix, (|t.scriptPrefix| + EXTRANONCE_TOTAL) % 0x1_0000_0000_0000_0000);
    prefix := prefix + t.scriptPrefix;

    var suffix: Bytes := LittleEndian(t.sequence, 4);
    suffix := AppendVarint(suffix, 1 + t.outputsCount);
    suffix := suffix + WriteTxOut(TxOut(t.valueRemaining, payout));
    suffix := suffix + t.outputs;
    ghost var outputs := suffix;
    if segwit {
      suffix := suffix + [0x01];
      suffix := suffix + [0x20];
      suffix := suffix + Zeros(32);
    }
    Witness(outputs, segwit);
    suffix := suffix + LittleEndian(t.locktime, 4);
    PrefixBytes(t, segwit);
    SuffixBytes(t, payout, segwit);
    p := Parts(prefix, suffix);
  }

  lemma {:induction false} Witness(s: Bytes, segwit: bool)
    ensures s + (if segwit then [0x01, 0x20] + Zeros(32) else [])
            == if segwit then s + [0x01] + [0x20] + Zeros(32) else s
  {
  }

  // ── The two halves are a transaction ──────────────────────────────────────

  lemma {:induction false} PrefixAndHole(t: Template, extranonce: Bytes, segwit: bool)
    requires |extranonce| == EXTRANONCE_TOTAL && |t.scriptPrefix| <= 255
    ensures Prefix(t, segwit) + (extranonce + LittleEndian(t.sequence, 4))
            == LittleEndian(t.txVersion, 4) + ((if segwit then [0x00, 0x01] else [])
               + WriteVec(TXIN, [TxIn(Zeros(32), U32_MAX, t.scriptPrefix + extranonce, t.sequence)]))
  {
    PrefixBytes(t, segwit);
    var script := t.scriptPrefix + extranonce;
    var count := Varint((|t.scriptPrefix| + EXTRANONCE_TOTAL) % 0x1_0000_0000_0000_0000);
    var input := TxIn(Zeros(32), U32_MAX, script, t.sequence);
    OneElement(TXIN, input);
    ScriptBlob(t.scriptPrefix, extranonce);
    assert TXIN.write(input) == Zeros(32) + LittleEndian(U32_MAX, 4) + (count + script) + LittleEndian(t.sequence, 4);
    Shift(LittleEndian(t.txVersion, 4), if segwit then [0x00, 0x01] else [], [1], Zeros(32), LittleEndian(U32_MAX, 4),
          count, t.scriptPrefix, extranonce, LittleEndian(t.sequence, 4));
  }

  lemma {:induction false} ScriptBlob(prefix: Bytes, extranonce: Bytes)
    requires |extranonce| == EXTRANONCE_TOTAL && |prefix| <= 255
    ensures WriteBlob(prefix + extranonce)
            == Varint((|prefix| + EXTRANONCE_TOTAL) % 0x1_0000_0000_0000_0000) + (prefix + extranonce)
  {
  }

  lemma {:induction false} Shift(v: Bytes, m: Bytes, o: Bytes, z: Bytes, x: Bytes, n: Bytes, s: Bytes, e: Bytes,
      q: Bytes)
    ensures v + m + o + z + x + n + s + (e + q) == v + (m + (o + (z + x + (n + (s + e)) + q)))
  {
    var script := n + (s + e);
    assert v + m + o + z + x + n + s + (e + q) == v + m + o + z + x + (script + q) by {
      Associative(v + m + o + z + x + n, s, e + q);
      Associative(v + m + o + z + x, n, s + (e + q));
      Associative(s, e, q);
      Associative(n, s + e, q);
    }
    Associative(v + m + o + z, x, script + q);
    Associative(v + m + o, z, x + (script + q));
    Associative(z, x, script + q);
    Associative(z + x, script, q);
    Associative(v + m, o, z + x + script + q);
    Associative(v, m, o + (z + x + script + q));
  }

  lemma {:induction false} OneElement<T>(c: Codec<T>, x: T)
    ensures WriteVec(c, [x]) == [1] + c.write(x)
  {
    assert WriteAll(c, [x]) == c.write(x) + WriteAll(c, []);
    assert c.write(x) + [] == c.write(x);
  }

  lemma {:induction false} SuffixAfterSequence(t: Template, payout: Bytes, os: seq<TxOut>, extranonce: Bytes,
      segwit: bool)
    requires Carries(t, os)
    ensures Suffix(t, payout, segwit)
            == LittleEndian(t.sequence, 4) + WriteBody(CoinbaseTx(t, payout, extranonce, os, true), segwit)
  {
    SuffixBytes(t, payout, segwit);
    var o := TxOut(t.valueRemaining, payout);
    assert WriteVec(TXOUT, [o] + os) == Varint(1 + t.outputsCount) + (WriteTxOut(o) + t.outputs) by {
      assert ([o] + os)[1..] == os;
    }
    assert WriteAll(WITNESS, [[Zeros(32)]]) == [0x01, 0x20] + Zeros(32) by { NonceWitness(); }
    var sequence, count, first := LittleEndian(t.sequence, 4), Varint(1 + t.outputsCount), WriteTxOut(o);
    var nonce, end := if segwit then [0x01, 0x20] + Zeros(32) else [], LittleEndian(t.locktime, 4);
    Associative(sequence + count + first + t.outputs, nonce, end);
    Associative(sequence + count + first, t.outputs, nonce + end);
    Associative(sequence + count, first, t.outputs + (nonce + end));
    Associative(sequence, count, first + (t.outputs + (nonce + end)));
    Associative(first, t.outputs, nonce + end);
    Associative(count, first + t.outputs, nonce + end);
  }

  lemma {:induction false} NonceWitness()
    ensures WriteAll(WITNESS, [[Zeros(32)]]) == [0x01, 0x20] + Zeros(32)
  {
    var w := [Zeros(32)];
    OneElement(BLOB, Zeros(32));
    assert WriteAll(WITNESS, [w]) == WriteWitness(w) + WriteAll(WITNESS, []);
    assert WriteAll(WITNESS, [w]) == [0x01] + ([0x20] + Zeros(32));
  }

  /** Whatever fills the hole, the glued bytes are the coinbase transaction in the chosen
      form; without the witness flag they are the preimage of the txid of the very
      transaction the flagged form carries. */
  lemma {:induction false} AssembledForm(t: Template, payout: Bytes, os: seq<TxOut>, extranonce: Bytes, segwit: bool)
    requires |extranonce| == EXTRANONCE_TOTAL && Carries(t, os)
    ensures Assemble(Parts(Prefix(t, segwit), Suffix(t, payout, segwit)), extranonce)
            == WriteForm(CoinbaseTx(t, payout, extranonce, os, true), segwit)
  {
    var tx := CoinbaseTx(t, payout, extranonce, os, true);
    PrefixAndHole(t, extranonce, segwit);
    SuffixAfterSequence(t, payout, os, extranonce, segwit);
    var body := WriteBody(tx, segwit);
    var sequence := LittleEndian(t.sequence, 4);
    var marker := if segwit then [0x00, 0x01] else [];
    var inputs := WriteVec(TXIN, tx.inputs);
    Associative(Prefix(t, segwit) + extranonce, sequence, body);
    Associative(Prefix(t, segwit), extranonce, sequence);
    Associative(LittleEndian(t.txVersion, 4), marker + inputs, body);
    Associative(marker, inputs, body);
  }

  lemma {:induction false} WitnessIrrelevant(t: Template, payout: Bytes, extranonce: Bytes, os: seq<TxOut>)
    ensures WriteForm(CoinbaseTx(t, payout, extranonce, os, true), false)
            == WriteForm(CoinbaseTx(t, payout, extranonce, os, false), false)
  {
  }

  lemma {:induction false} CoinbaseTxValid(t: Template, payout: Bytes, extranonce: Bytes, os: seq<TxOut>, segwit: bool)
    requires |extranonce| == EXTRANONCE_TOTAL && |payout| <= U64_MAX && Carries(t, os)
    ensures ValidTx(CoinbaseTx(t, payout, extranonce, os, segwit))
    ensures UsesSegwit(CoinbaseTx(t, payout, extranonce, os, segwit)) == segwit
  {
    var tx := CoinbaseTx(t, payout, extranonce, os, segwit);
    forall i | 0 <= i < |tx.outputs| ensures TXOUT.valid(tx.outputs[i]) {
      if i > 0 { assert tx.outputs[i] == os[i - 1] && os[i - 1] in os; }
    }
    if segwit { assert tx.witnesses[0] != []; }
  }

  /** The pool asks for the segwit form exactly when the node added outputs. */
  function PoolParts(t: Template, payout: Bytes): Parts {
    var segwit := t.outputsCount > 0;
    Parts(Prefix(t, segwit), Suffix(t, payout, segwit))
  }

  /** Parsing the glued bytes succeeds, uses them all, and gives the intended coinbase. */
  lemma {:induction false} CoinbaseRoundTrip(t: Template, payout: Bytes, os: seq<TxOut>, extranonce: Bytes)
    requires |extranonce| == EXTRANONCE_TOTAL && |payout| <= U64_MAX && Carries(t, os)
    ensures Deserialize(Assemble(PoolParts(t, payout), extranonce))
            == Some(CoinbaseTx(t, payout, extranonce, os, os != []))
  {
    var segwit := os != [];
    AssembledForm(t, payout, os, extranonce, segwit);
    if !segwit {
      WitnessIrrelevant(t, payout, extranonce, os);
    }
    CoinbaseTxValid(t, payout, extranonce, os, segwit);
    TxReadBack(CoinbaseTx(t, payout, extranonce, os, segwit));
  }

  /** Dropping marker, flag and witness from the segwit bytes leaves the other form, so
      the txid does not depend on the form. */
  lemma {:induction false} TxidIgnoresForm(env: Env, t: Template, payout: Bytes, os: seq<TxOut>, extranonce: Bytes)
    requires |extranonce| == EXTRANONCE_TOTAL && |payout| <= U64_MAX && Carries(t, os)
    ensures var plain := Assemble(Parts(Prefix(t, false), Suffix(t, payout, false)), extranonce);
            var flagged := Assemble(Parts(Prefix(t, true), Suffix(t, payout, true)), extranonce);
            && Deserialize(plain).Some? && Deserialize(flagged).Some?
            && WriteForm(Deserialize(flagged).value, false) == plain
            && Txid(env, Deserialize(flagged).value) == Txid(env, Deserialize(plain).value) == env.sha256d(plain)
  {
    AssembledForm(t, payout, os, extranonce, false);
    AssembledForm(t, payout, os, extranonce, true);
    WitnessIrrelevant(t, payout, extranonce, os);
    CoinbaseTxValid(t, payout, extranonce, os, false);
    CoinbaseTxValid(t, payout, extranonce, os, true);
    TxReadBack(CoinbaseTx(t, payout, extranonce, os, false));
    TxReadBack(CoinbaseTx(t, payout, extranonce, os, true));
  }

  /** A miner that hashes the glued bytes as they are gets the txid's own preimage if and
      only if the node added no outputs; otherwise it must drop the witness first. */
  lemma {:induction false} RawBytesArePreimageIff(t: Template, payout: Bytes, os: seq<TxOut>, extranonce: Bytes)
    requires |extranonce| == EXTRANONCE_TOTAL && |payout| <= U64_MAX && Carries(t, os)
    ensures var bytes := Assemble(PoolParts(t, payout), extranonce);
            Deserialize(bytes).Some? && (WriteForm(Deserialize(bytes).value, false) == bytes <==> os == [])
  {
    var tx := CoinbaseTx(t, payout, extranonce, os, true);
    CoinbaseRoundTrip(t, payout, os, extranonce);
    AssembledForm(t, payout, os, extranonce, os != []);
    WitnessIrrelevant(t, payout, extranonce, os);
    if os != [] {
      var inputs := WriteVec(TXIN, tx.inputs);
      OneElement(TXIN, tx.inputs[0]);
      assert inputs[0] == 1;
      FormMarker(tx, inputs);
    }
  }

  lemma {:induction false} FormMarker(tx: Tx, inputs: Bytes)
    requires inputs == WriteVec(TXIN, tx.inputs) && inputs != []
    ensures |WriteForm(tx, true)| > 4 && WriteForm(tx, true)[4] == 0
    ensures |WriteForm(tx, false)| > 4 && WriteForm(tx, false)[4] == inputs[0]
  {
    assert WriteTail(tx, false) == inputs + WriteBody(tx, false);
  }

  /** From the node's coinbase to the miner's: version, locktime, sequence and script prefix
      are the node's, every satoshi goes to the miner's output, and the other outputs are
      all of the node's outputs without value, as often and in order. */
  lemma {:induction false} ValueConserved(id: u64, header: Header, cb: Tx, path: seq<Bytes>, t: Template,
      payout: Bytes, extranonce: Bytes)
    requires ValidTx(cb) && RawTemplate(id, header, cb, path) == Ok(t)
    requires |extranonce| == EXTRANONCE_TOTAL && |payout| <= U64_MAX
    ensures var mined := Deserialize(Assemble(PoolParts(t, payout), extranonce));
            && mined.Some?
            && SumValues(mined.value.outputs) == SumValues(cb.outputs) <= U64_MAX
            && mined.value.outputs == [TxOut(SumValues(cb.outputs), payout)] + ZeroOutputs(cb.outputs)
            && KeepsZeros(cb.outputs, mined.value.outputs[1..])
            && cb.inputs != []
            && mined.value.inputs == [TxIn(Zeros(32), U32_MAX, cb.inputs[0].script + extranonce, cb.inputs[0].sequence)]
            && mined.value.version == cb.version && mined.value.locktime == cb.locktime
            && mined.value.witnesses == [if ZeroOutputs(cb.outputs) != [] then [Zeros(32)] else []]
  {
    TemplateFromNode(id, header, cb, path, t);
    var os := ZeroOutputs(cb.outputs);
    CoinbaseRoundTrip(t, payout, os, extranonce);
    SumOfZeros(os);
    assert ([TxOut(t.valueRemaining, payout)] + os)[1..] == os;
  }

  // ── Extranonce ────────────────────────────────────────────────────────────

  /** The prefix of a channel: its id, little-endian, and 28 zero bytes. */
  function ChannelPrefix(channelId: u32): (p: Bytes)
    ensures |p| == EXTRANONCE_PREFIX
  {
    LittleEndian(channelId, 4) + Zeros(28)
  }

  /** A short extranonce2 is padded, a long one cut. */
  function Padded(ext2: Bytes): (e: Bytes)
    ensures |e| == EXTRANONCE2
    ensures |ext2| == EXTRANONCE2 ==> e == ext2
  {
    var n := if |ext2| < EXTRANONCE2 then |ext2| else EXTRANONCE2;
    ext2[..n] + Zeros(EXTRANONCE2 - n)
  }

  /** What fills the hole. */
  function FullExtranonce(prefix: Bytes, ext2: Bytes): (e: Bytes)
    requires |prefix| == EXTRANONCE_PREFIX
    ensures |e| == EXTRANONCE_TOTAL
  {
    prefix + Padded(ext2)
  }

  /** `build_full_extranonce`: two copies into a zeroed array. */
  method BuildFullExtranonce(prefix: Bytes, ext2: Bytes) returns (e: Bytes)
    requires |prefix| == EXTRANONCE_PREFIX
    ensures e == FullExtranonce(prefix, ext2)
    ensures e[..32] == prefix && forall i :: 0 <= i < 4 ==> e[32 + i] == if i < |ext2| then ext2[i] else 0
  {
    var out := new u8[36](_ => 0);
    forall i | 0 <= i < 32 { out[i] := prefix[i]; }
    var n := if |ext2| < EXTRANONCE2 then |ext2| else EXTRANONCE2;
    forall i | 0 <= i < n { out[32 + i] := ext2[i]; }
    e := out[..];
  }

  /** Search spaces are disjoint: the glued bytes of two channels, in the wire form or as
      txid preimage and whoever is paid, agree only if the channels and the padded or cut
      extranonces do, and for one payee exactly then. */
  lemma {:induction false} SearchSpacesDisjoint(t: Template, c: u32, c': u32, ext2: Bytes, ext2': Bytes,
      payout: Bytes, payout': Bytes, segwit: bool)
    ensures var bytes := Assemble(Parts(Prefix(t, segwit), Suffix(t, payout, segwit)),
                                  FullExtranonce(ChannelPrefix(c), ext2));
            var bytes' := Assemble(Parts(Prefix(t, segwit), Suffix(t, payout', segwit)),
                                   FullExtranonce(ChannelPrefix(c'), ext2'));
            && (bytes == bytes' ==> c == c' && Padded(ext2) == Padded(ext2'))
            && (payout == payout' ==> (bytes == bytes' <==> c == c' && Padded(ext2) == Padded(ext2')))
  {
    var e, e' := FullExtranonce(ChannelPrefix(c), ext2), FullExtranonce(ChannelPrefix(c'), ext2');
    Pow256Constants();
    LittleEndianRoundTrip(c, 4);
    LittleEndianRoundTrip(c', 4);
    assert e[..4] == LittleEndian(c, 4) && e'[..4] == LittleEndian(c', 4);
    assert e[32..] == Padded(ext2) && e'[32..] == Padded(ext2');
    var n := |Prefix(t, segwit)|;
    var bytes := Assemble(Parts(Prefix(t, segwit), Suffix(t, payout, segwit)), e);
    var bytes' := Assemble(Parts(Prefix(t, segwit), Suffix(t, payout', segwit)), e');
    assert bytes[n..n + 36] == e && bytes'[n..n + 36] == e';
  }
}
