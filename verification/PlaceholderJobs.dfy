/** jobs.rs, the placeholder half: the whole coinbase is serialised with marker bytes where
    the extranonce goes, and cut at the first place the marker is found. */
module PlaceholderJobs {
  import opened Bytes
  import opened Transactions
  import opened Coinbase

  /** "/lottery-pool/" */
  const POOL_TAG: Bytes := [47, 108, 111, 116, 116, 101, 114, 121, 45, 112, 111, 111, 108, 47]

  const EXTRANONCE_PLACEHOLDER: Bytes := [0xde, 0xad, 0xbe, 0xef, 0xca, 0xfe, 0xba, 0xbe]

  function Sv2Placeholder(): Bytes { seq(EXTRANONCE_TOTAL, _ => 0xcc) }

  // ── Script ────────────────────────────────────────────────────────────────

  /** Minimal little-endian script number; a set top bit needs one more byte for the sign. */
  function ScriptInt(n: nat): (s: Bytes)
    ensures |s| >= 1
  {
    if n < 0x80 then [n] else [n % 256] + ScriptInt(n / 256)
  }

  lemma {:induction false} ScriptIntLength(n: u32)
    ensures |ScriptInt(n)| <= 5
  {
    var a := n / 256;
    var b := a / 256;
    var c := b / 256;
    assert c < 256 && c / 256 == 0;
    assert |ScriptInt(c)| <= 2;
    assert |ScriptInt(b)| <= 3;
    assert |ScriptInt(a)| <= 4;
  }

  /** As many bytes as the number needs, the last one with its top bit clear. */
  lemma {:induction false} ScriptIntValue(n: nat)
    ensures var s := ScriptInt(n);
            FromLittleEndian(s) == n && s[|s| - 1] < 0x80 && (|s| > 1 ==> s[|s| - 1] > 0 || s[|s| - 2] >= 0x80)
  {
    if n >= 0x80 {
      ScriptIntValue(n / 256);
      assert ScriptInt(n)[1..] == ScriptInt(n / 256);
    }
  }

  /** The opcode of `push_int`: 0 and 1 to 16 have their own, the rest is pushed as data. */
  function PushOpcode(n: u32): u8 {
    if n == 0 then 0x00 else if n <= 16 then 0x50 + n else (ScriptIntLength(n); |ScriptInt(n)|)
  }

  function PushData(n: u32): Bytes {
    if n <= 16 then [] else ScriptInt(n)
  }

  /** BIP34 height, pool tag, then `ext` where the extranonce goes. */
  function CoinbaseScript(height: u32, ext: Bytes): Bytes
    requires |ext| < 0x4c
  {
    [PushOpcode(height)] + PushData(height) + ([|POOL_TAG|] + POOL_TAG + [|ext|]) + ext
  }

  /** The number a script pushes first, and what follows. */
  function ReadInt(s: Bytes): Option<(nat, Bytes)> {
    if s == [] then None
    else if s[0] == 0 then Some((0, s[1..]))
    else if 0x51 <= s[0] <= 0x60 then Some((s[0] - 0x50, s[1..]))
    else if s[0] < 0x4c && |s| > s[0] then Some((FromLittleEndian(s[1..1 + s[0]]), s[1 + s[0]..]))
    else None
  }

  lemma {:induction false} DataReadBack(data: Bytes, rest: Bytes)
    requires 1 <= |data| < 0x4c
    ensures ReadInt([|data|] + data + rest) == Some((FromLittleEndian(data), rest))
  {
    var s := [|data|] + data + rest;
    assert s[0] == |data| && s[1..1 + |data|] == data && s[1 + |data|..] == rest;
  }

  lemma {:induction false} SmallReadBack(op: u8, rest: Bytes)
    requires op == 0 || 0x51 <= op <= 0x60
    ensures ReadInt([op] + rest) == Some((if op == 0 then 0 else op - 0x50, rest))
  {
    assert ([op] + rest)[1..] == rest;
  }

  lemma {:induction false} SmallHeightReadBack(height: u32, ext: Bytes, rest: Bytes)
    requires height <= 16 && |ext| < 0x4c && rest == [14] + POOL_TAG + [|ext|] + ext
    ensures ReadInt(CoinbaseScript(height, ext)) == Some((height, rest))
  {
    SmallReadBack(PushOpcode(height), rest);
    assert CoinbaseScript(height, ext) == [PushOpcode(height)] + rest;
  }

  lemma {:induction false} LargeHeightReadBack(height: u32, ext: Bytes, data: Bytes, rest: Bytes)
    requires height > 16 && |ext| < 0x4c && rest == [14] + POOL_TAG + [|ext|] + ext && data == ScriptInt(height)
    ensures ReadInt(CoinbaseScript(height, ext)) == Some((height, rest))
  {
    ScriptIntLength(height);
    ScriptIntValue(height);
    DataReadBack(data, rest);
    Associative([|data|] + data, [14] + POOL_TAG + [|ext|], ext);
  }

  /** BIP34: the script pushes the height first; then the tag and the extranonce. */
  lemma {:induction false} HeightReadBack(height: u32, ext: Bytes)
    requires |ext| < 0x4c
    ensures ReadInt(CoinbaseScript(height, ext)) == Some((height, [14] + POOL_TAG + [|ext|] + ext))
    ensures |POOL_TAG| == 14 && forall i :: 0 <= i < 14 ==> POOL_TAG[i] as char == "/lottery-pool/"[i]
  {
    var rest := [14] + POOL_TAG + [|ext|] + ext;
    if height <= 16 {
      SmallHeightReadBack(height, ext, rest);
    } else {
      LargeHeightReadBack(height, ext, ScriptInt(height), rest);
    }
  }

  function PlaceholderTx(height: u32, value: int, payout: Bytes, commitment: Option<Bytes>, ext: Bytes): Tx
    requires |ext| < 0x4c
  {
    var miner := TxOut(value % 0x1_0000_0000_0000_0000, payout);
    Tx(1, [TxIn(Zeros(32), U32_MAX, CoinbaseScript(height, ext), U32_MAX)],
       [miner] + (match commitment case None => [] case Some(wc) => [TxOut(0, wc)]), [[]], 0)
  }

  // ── Search and split ──────────────────────────────────────────────────────

  predicate MatchAt(raw: Bytes, pattern: Bytes, i: nat) {
    i + |pattern| <= |raw| && raw[i..i + |pattern|] == pattern
  }

  /** `windows(..).position(..)` */
  function FirstMatch(raw: Bytes, pattern: Bytes, from: nat): (r: Option<nat>)
    requires from <= |raw|
    ensures r.None? ==> forall i: nat :: i >= from ==> !MatchAt(raw, pattern, i)
    ensures r.Some? ==> from <= r.value && MatchAt(raw, pattern, r.value)
                        && forall i: nat :: from <= i < r.value ==> !MatchAt(raw, pattern, i)
    decreases |raw| - from
  {
    if MatchAt(raw, pattern, from) then Some(from)
    else if from == |raw| then None
    else FirstMatch(raw, pattern, from + 1)
  }

  /** `split_at_extranonce`, `split_at_sv2_extranonce`; `None` is their panic. */
  function Split(raw: Bytes, pattern: Bytes): Option<Parts> {
    match FirstMatch(raw, pattern, 0)
    case None => None
    case Some(pos) => Some(Parts(raw[..pos], raw[pos + |pattern|..]))
  }

  // ── Where the marker is ───────────────────────────────────────────────────

  /** A byte that occurs in neither marker. */
  predicate Benign(b: u8) {
    b < 0xad || b == 0xff
  }

  predicate AllBenign(s: Bytes) {
    forall i :: 0 <= i < |s| ==> Benign(s[i])
  }

  predicate NoneBenign(s: Bytes) {
    forall i :: 0 <= i < |s| ==> !Benign(s[i])
  }

  /** A marker longer than the five free bytes of the height cannot match before its own
      place: an earlier window starts on, or ends on, a byte no marker has. */
  lemma {:induction false} NoEarlierMatch(before: Bytes, free: Bytes, after: Bytes, pattern: Bytes, tail: Bytes)
    requires AllBenign(before) && |free| <= 5 && after != [] && AllBenign(after)
    requires NoneBenign(pattern) && |pattern| >= 6
    ensures FirstMatch(before + free + after + pattern + tail, pattern, 0) == Some(|before| + |free| + |after|)
  {
    var head := before + free + after;
    var raw := head + pattern + tail;
    var pos := |head|;
    assert raw[pos..pos + |pattern|] == pattern;
    assert MatchAt(raw, pattern, pos);
    forall p: nat | p < pos ensures !MatchAt(raw, pattern, p) {
      var last := if p + |pattern| <= pos then p + |pattern| - 1 else pos - 1;
      var k := if |before| <= p < |before| + |free| then last else p;
      assert raw[k] == head[k] == if k < |before| then before[k] else after[k - |before| - |free|];
      BenignBlocks(raw, pattern, p, k);
    }
  }

  lemma {:induction false} BenignBlocks(raw: Bytes, pattern: Bytes, p: nat, k: nat)
    requires p <= k < p + |pattern| && k < |raw| && Benign(raw[k]) && NoneBenign(pattern)
    ensures !MatchAt(raw, pattern, p)
  {
    if p + |pattern| <= |raw| {
      var w := raw[p..p + |pattern|];
      assert w[k - p] == raw[k];
    }
  }

  lemma {:induction false} ScriptLength(height: u32, ext: Bytes)
    requires |ext| < 0x4c
    ensures |CoinbaseScript(height, ext)| < 0xfd
    ensures |CoinbaseScript(height, ext)| == |CoinbaseScript(height, Zeros(|ext|))|
  {
    ScriptIntLength(height);
  }

  function UpToScript(length: u8): Bytes {
    LittleEndian(1, 4) + [1] + Zeros(32) + LittleEndian(U32_MAX, 4) + [length]
  }

  function Before(height: u32, n: nat): Bytes
    requires n < 0x4c
  {
    ScriptLength(height, Zeros(n));
    UpToScript(|CoinbaseScript(height, Zeros(n))|) + [PushOpcode(height)]
  }

  function After(n: nat): Bytes
    requires n < 0x4c
  {
    [|POOL_TAG|] + POOL_TAG + [n]
  }

  /** Sequence, outputs and locktime: nothing of it depends on height or extranonce. */
  function Tail(value: int, payout: Bytes, commitment: Option<Bytes>): Bytes {
    LittleEndian(U32_MAX, 4) + WriteBody(PlaceholderTx(0, value, payout, commitment, []), false)
  }

  lemma {:induction false} OneInputForm(tx: Tx, script: Bytes)
    requires tx.inputs == [TxIn(Zeros(32), U32_MAX, script, U32_MAX)] && tx.witnesses == [[]] && tx.version == 1
    requires |script| < 0xfd
    ensures WriteTx(tx) == UpToScript(|script|) + script + (LittleEndian(U32_MAX, 4) + WriteBody(tx, false))
  {
    OneElement(TXIN, tx.inputs[0]);
    assert WriteBlob(script) == [|script|] + script;
    Regroup2(LittleEndian(1, 4), Zeros(32), LittleEndian(U32_MAX, 4), [|script|], script, WriteBody(tx, false));
  }

  lemma {:induction false} SameBody(height: u32, value: int, payout: Bytes, commitment: Option<Bytes>, ext: Bytes)
    requires |ext| < 0x4c
    ensures WriteBody(PlaceholderTx(height, value, payout, commitment, ext), false)
            == WriteBody(PlaceholderTx(0, value, payout, commitment, []), false)
  {
  }

  /** The serialised coinbase, with the bytes of the extranonce in one place. */
  lemma {:induction false} SerializedShape(height: u32, value: int, payout: Bytes, commitment: Option<Bytes>,
      ext: Bytes)
    requires |ext| < 0x4c
    ensures WriteTx(PlaceholderTx(height, value, payout, commitment, ext))
            == Before(height, |ext|) + PushData(height) + After(|ext|) + ext + Tail(value, payout, commitment)
  {
    ScriptLength(height, ext);
    OneInputForm(PlaceholderTx(height, value, payout, commitment, ext), CoinbaseScript(height, ext));
    SameBody(height, value, payout, commitment, ext);
    Regroup3(UpToScript(|CoinbaseScript(height, ext)|), [PushOpcode(height)], PushData(height), After(|ext|), ext,
             Tail(value, payout, commitment));
  }

  lemma {:induction false} Regroup2(v: Bytes, z: Bytes, q: Bytes, n: Bytes, s: Bytes, body: Bytes)
    ensures v + ([] + ([1] + (z + q + (n + s) + q) + body)) == v + [1] + z + q + n + s + (q + body)
  {
    var left := [1] + (z + q + (n + s) + q) + body;
    assert [] + left == left;
    Associative([1], z + q + (n + s) + q, body);
    Associative(z + q + (n + s), q, body);
    Associative(z + q, n + s, q + body);
    Associative(n, s, q + body);
    Associative(v + [1] + z + q + n, s, q + body);
    Associative(v + [1] + z + q, n, s + (q + body));
    Associative(v + [1] + z, q, n + (s + (q + body)));
    Associative(v + [1], z, q + (n + (s + (q + body))));
    Associative(z, q, n + (s + (q + body)));
    Associative(v, [1], z + (q + (n + (s + (q + body)))));
  }

  lemma {:induction false} Regroup3(start: Bytes, op: Bytes, data: Bytes, after: Bytes, ext: Bytes, tail: Bytes)
    ensures start + (op + data + after + ext) + tail == start + op + data + after + ext + tail
  {
    Associative(start, op + data + after, ext);
    Associative(start, op + data, after);
    Associative(start, op, data);
  }

  lemma {:induction false} UpToScriptBenign(length: u8)
    requires length < 0xad
    ensures AllBenign(UpToScript(length))
  {
    assert LittleEndian(1, 4) == [1, 0, 0, 0] && LittleEndian(U32_MAX, 4) == [0xff, 0xff, 0xff, 0xff];
  }

  lemma {:induction false} BeforeBenign(height: u32, n: nat)
    requires n < 0x4c
    ensures AllBenign(Before(height, n))
  {
    var length := |CoinbaseScript(height, Zeros(n))|;
    assert length < 0xad && Benign(PushOpcode(height)) by { ScriptIntLength(height); }
    UpToScriptBenign(length);
  }

  lemma {:induction false} AfterBenign(n: nat)
    requires n < 0x4c
    ensures After(n) != [] && AllBenign(After(n))
  {
  }

  lemma {:induction false} MarkerNotBenign(marker: Bytes)
    requires Marker(marker)
    ensures NoneBenign(marker) && 6 <= |marker| < 0x4c
  {
  }

  predicate Marker(pattern: Bytes) {
    pattern == EXTRANONCE_PLACEHOLDER || pattern == Sv2Placeholder()
  }

  lemma {:induction false} SplitGivesBack(height: u32, value: int, payout: Bytes, commitment: Option<Bytes>,
      marker: Bytes, ext: Bytes)
    requires Marker(marker) && |ext| == |marker|
    ensures var parts := Split(WriteTx(PlaceholderTx(height, value, payout, commitment, marker)), marker);
            parts.Some? && Assemble(parts.value, ext) == WriteTx(PlaceholderTx(height, value, payout, commitment, ext))
  {
    var raw := WriteTx(PlaceholderTx(height, value, payout, commitment, marker));
    var head, tail := Before(height, |ext|) + PushData(height) + After(|ext|), Tail(value, payout, commitment);
    MarkerFound(height, value, payout, commitment, marker);
    assert raw[..|head|] == head && raw[|head| + |marker|..] == tail;
    SerializedShape(height, value, payout, commitment, ext);
  }

  /** For every height, payout and commitment the split finds the pushed marker itself, so
      any extranonce of its length put in the gap gives the coinbase with that extranonce,
      and the result deserialises to it. */
  lemma {:induction false} SplitExact(height: u32, value: int, payout: Bytes, commitment: Option<Bytes>,
      marker: Bytes, ext: Bytes)
    requires Marker(marker) && |ext| == |marker|
    requires |payout| <= U64_MAX && (commitment.Some? ==> |commitment.value| <= U64_MAX)
    ensures var parts := Split(WriteTx(PlaceholderTx(height, value, payout, commitment, marker)), marker);
            && parts.Some?
            && Assemble(parts.value, ext) == WriteTx(PlaceholderTx(height, value, payout, commitment, ext))
            && Deserialize(Assemble(parts.value, ext)) == Some(PlaceholderTx(height, value, payout, commitment, ext))
  {
    SplitGivesBack(height, value, payout, commitment, marker, ext);
    PlaceholderTxValid(height, value, payout, commitment, ext);
    TxReadBack(PlaceholderTx(height, value, payout, commitment, ext));
  }

  /** The coinbase a miner assembles from the parts: version 1, the null input with the
      height first in its script and the final sequence, all value to the miner, and the
      commitment, if there is one, in a second output without value. */
  lemma {:induction false} PlaceholderPays(height: u32, value: u64, payout: Bytes, commitment: Option<Bytes>,
      marker: Bytes, ext: Bytes) returns (tx: Tx)
    requires Marker(marker) && |ext| == |marker|
    requires |payout| <= U64_MAX && (commitment.Some? ==> |commitment.value| <= U64_MAX)
    ensures var parts := Split(WriteTx(PlaceholderTx(height, value, payout, commitment, marker)), marker);
            parts.Some? && Deserialize(Assemble(parts.value, ext)) == Some(tx)
    ensures tx.version == 1 && tx.locktime == 0 && |tx.inputs| == 1 && tx.witnesses == [[]]
    ensures tx.inputs[0].prevHash == Zeros(32) && tx.inputs[0].prevIndex == 0xffff_ffff == tx.inputs[0].sequence
    ensures ReadInt(tx.inputs[0].script) == Some((height, [14] + POOL_TAG + [|ext|] + ext))
    ensures tx.outputs == [TxOut(value, payout)] + (if commitment.Some? then [TxOut(0, commitment.value)] else [])
  {
    SplitExact(height, value, payout, commitment, marker, ext);
    tx := PlaceholderTx(height, value, payout, commitment, ext);
    PlaceholderFields(height, value, payout, commitment, ext, tx);
    HeightReadBack(height, ext);
  }

  lemma {:induction false} PlaceholderFields(height: u32, value: u64, payout: Bytes, commitment: Option<Bytes>,
      ext: Bytes, tx: Tx)
    requires |ext| < 0x4c && tx == PlaceholderTx(height, value, payout, commitment, ext)
    ensures tx.version == 1 && tx.locktime == 0 && tx.witnesses == [[]]
    ensures tx.inputs == [TxIn(Zeros(32), 0xffff_ffff, CoinbaseScript(height, ext), 0xffff_ffff)]
    ensures tx.outputs == [TxOut(value, payout)] + (if commitment.Some? then [TxOut(0, commitment.value)] else [])
  {
  }

  lemma {:induction false} MarkerFound(height: u32, value: int, payout: Bytes, commitment: Option<Bytes>, marker: Bytes)
    requires Marker(marker)
    ensures var head := Before(height, |marker|) + PushData(height) + After(|marker|);
            var raw := WriteTx(PlaceholderTx(height, value, payout, commitment, marker));
            raw == head + marker + Tail(value, payout, commitment) && FirstMatch(raw, marker, 0) == Some(|head|)
  {
    SerializedShape(height, value, payout, commitment, marker);
    assert |PushData(height)| <= 5 by { ScriptIntLength(height); }
    MarkerNotBenign(marker);
    BeforeBenign(height, |marker|);
    AfterBenign(|marker|);
    NoEarlierMatch(Before(height, |marker|), PushData(height), After(|marker|), marker,
                   Tail(value, payout, commitment));
  }

  lemma {:induction false} PlaceholderTxValid(height: u32, value: int, payout: Bytes, commitment: Option<Bytes>,
      ext: Bytes)
    requires |ext| < 0x4c
    requires |payout| <= U64_MAX && (commitment.Some? ==> |commitment.value| <= U64_MAX)
    ensures ValidTx(PlaceholderTx(height, value, payout, commitment, ext))
  {
    ScriptIntLength(height);
  }

  /** `build_coinbase_parts`, `build_sv2_coinbase_parts`. */
  method BuildCoinbaseParts(height: u32, value: int, payout: Bytes, commitment: Option<Bytes>,
      marker: Bytes) returns (p: Option<Parts>)
    requires Marker(marker)
    ensures p == Split(WriteTx(PlaceholderTx(height, value, payout, commitment, marker)), marker)
    ensures p.Some?
    ensures forall ext: Bytes :: |ext| == |marker| ==>
            Assemble(p.value, ext) == WriteTx(PlaceholderTx(height, value, payout, commitment, ext))
  {
    var input := TxIn(Zeros(32), U32_MAX, CoinbaseScript(height, marker), U32_MAX);
    var outputs := [TxOut(value % 0x1_0000_0000_0000_0000, payout)];
    if commitment.Some? {
      outputs := outputs + [TxOut(0, commitment.value)];
    } else {
      assert outputs == outputs + [];
    }
    p := Split(WriteTx(Tx(1, [input], outputs, [[]], 0)), marker);
    forall ext: Bytes | |ext| == |marker|
      ensures p.Some? && Assemble(p.value, ext) == WriteTx(PlaceholderTx(height, value, payout, commitment, ext))
    {
      SplitGivesBack(height, value, payout, commitment, marker, ext);
    }
    MarkerFound(height, value, payout, commitment, marker);
  }
}
