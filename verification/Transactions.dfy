/** Bitcoin transactions on the wire: the BIP144 serialisation as the `bitcoin` crate
    writes it, and its deserialiser, without the bound it puts on the size of a witness.
    The length prefixes are the ones `write_varint` in jobs.rs emits. */
module Transactions {
  import opened Bytes

  datatype TxIn = TxIn(prevHash: Bytes, prevIndex: u32, script: Bytes, sequence: u32)
  datatype TxOut = TxOut(value: u64, script: Bytes)

  /** `witnesses` has one stack of items per input. */
  datatype Tx = Tx(version: u32, inputs: seq<TxIn>, outputs: seq<TxOut>, witnesses: seq<seq<Bytes>>, locktime: u32)

  datatype Parsed<+T> = Got(value: T, rest: Bytes) | Bad

  // ── Codecs ────────────────────────────────────────────────────────────────

  datatype Codec<!T> = Codec(write: T -> Bytes, read: Bytes -> Parsed<T>, valid: T -> bool)

  /** What is written is read back whatever follows it, and only what could have been
      written is read. */
  ghost predicate Exact<T(!new)>(c: Codec<T>) {
    && (forall x: T, rest: Bytes :: c.valid(x) ==> c.read(c.write(x) + rest) == Got(x, rest))
    && (forall b: Bytes :: c.read(b).Got? ==>
          c.valid(c.read(b).value) && b == c.write(c.read(b).value) + c.read(b).rest)
  }

  function WriteAll<T>(c: Codec<T>, xs: seq<T>): Bytes {
    if xs == [] then [] else c.write(xs[0]) + WriteAll(c, xs[1..])
  }

  function ReadMany<T>(c: Codec<T>, n: nat, b: Bytes): Parsed<seq<T>> {
    if n == 0 then Got([], b)
    else match c.read(b)
      case Bad => Bad
      case Got(x, rest) =>
        match ReadMany(c, n - 1, rest)
        case Bad => Bad
        case Got(xs, rest') => Got([x] + xs, rest')
  }

  lemma {:induction false} ManyReadBack<T(!new)>(c: Codec<T>, xs: seq<T>, rest: Bytes)
    requires Exact(c)
    requires forall i :: 0 <= i < |xs| ==> c.valid(xs[i])
    ensures ReadMany(c, |xs|, WriteAll(c, xs) + rest) == Got(xs, rest)
  {
    if xs == [] {
      assert WriteAll(c, xs) + rest == rest;
    } else {
      var tail := WriteAll(c, xs[1..]) + rest;
      assert WriteAll(c, xs) + rest == c.write(xs[0]) + tail;
      assert c.valid(xs[0]);
      ManyReadBack(c, xs[1..], rest);
      assert [xs[0]] + xs[1..] == xs;
    }
  }

  lemma {:induction false} ManyReadOnlyWritten<T(!new)>(c: Codec<T>, n: nat, b: Bytes)
    requires Exact(c)
    requires ReadMany(c, n, b).Got?
    ensures var xs := ReadMany(c, n, b).value;
            |xs| == n && (forall i :: 0 <= i < n ==> c.valid(xs[i]))
            && b == WriteAll(c, xs) + ReadMany(c, n, b).rest
  {
    if n == 0 {
      assert b == [] + b;
    } else {
      var rest := c.read(b).rest;
      ManyReadOnlyWritten(c, n - 1, rest);
      var xs := ReadMany(c, n, b).value;
      assert xs[1..] == ReadMany(c, n - 1, rest).value;
      assert b == c.write(xs[0]) + (WriteAll(c, xs[1..]) + ReadMany(c, n, b).rest);
      forall i | 0 <= i < n ensures c.valid(xs[i]) {
        if i > 0 { assert xs[i] == xs[1..][i - 1]; }
      }
    }
  }

  lemma {:induction false} WriteAllConcat<T>(c: Codec<T>, xs: seq<T>, ys: seq<T>)
    ensures WriteAll(c, xs + ys) == WriteAll(c, xs) + WriteAll(c, ys)
  {
    if xs == [] {
      assert xs + ys == ys;
    } else {
      WriteAllConcat(c, xs[1..], ys);
      assert (xs + ys)[1..] == xs[1..] + ys;
    }
  }

  // ── Integers and length-prefixed strings ──────────────────────────────────

  function ReadUint(n: nat, b: Bytes): Parsed<nat> {
    if |b| < n then Bad else Got(FromLittleEndian(b[..n]), b[n..])
  }

  lemma {:induction false} UintReadBack(v: nat, n: nat, rest: Bytes)
    requires v < Pow256(n)
    ensures ReadUint(n, LittleEndian(v, n) + rest) == Got(v, rest)
  {
    LittleEndianRoundTrip(v, n);
    assert (LittleEndian(v, n) + rest)[..n] == LittleEndian(v, n);
  }

  lemma {:induction false} UintReadOnlyWritten(n: nat, b: Bytes)
    requires ReadUint(n, b).Got?
    ensures ReadUint(n, b).value < Pow256(n)
    ensures b == LittleEndian(ReadUint(n, b).value, n) + ReadUint(n, b).rest
  {
    FromLittleEndianRoundTrip(b[..n]);
  }

  /** Bitcoin's CompactSize. */
  function Varint(n: u64): (b: Bytes)
    ensures 1 <= |b| <= 9
  {
    if n < 0xfd then [n]
    else if n <= 0xffff then [0xfd] + LittleEndian(n, 2)
    else if n <= 0xffff_ffff then [0xfe] + LittleEndian(n, 4)
    else [0xff] + LittleEndian(n, 8)
  }

  /** How many bytes a length takes: a single one below 253, else a marker and the least of
      2, 4 or 8 that hold it. */
  function LengthBytes(n: nat): nat {
    if n < 253 then 1 else if n < 0x1_0000 then 3 else if n < 0x1_0000_0000 then 5 else 9
  }

  /** The marker tells the width, and the number follows, least significant byte first. */
  lemma {:induction false} VarintLayout(n: u64)
    ensures var b := Varint(n);
            && |b| == LengthBytes(n)
            && b[0] == (if |b| == 1 then n else if |b| == 3 then 253 else if |b| == 5 then 254 else 255)
            && (|b| > 1 ==> FromLittleEndian(b[1..]) == n)
  {
    Pow256Constants();
    if n >= 0xfd {
      LittleEndianRoundTrip(n, |Varint(n)| - 1);
    }
  }

  /** A longer form than necessary is refused. */
  function ReadVarint(b: Bytes): (r: Parsed<u64>) {
    if b == [] then Bad
    else if b[0] < 0xfd then Got(b[0], b[1..])
    else
      var (width, least) :=
        if b[0] == 0xfd then (2, 0xfd) else if b[0] == 0xfe then (4, 0x1_0000) else (8, 0x1_0000_0000);
      match ReadUint(width, b[1..])
      case Bad => Bad
      case Got(v, rest) =>
        if v < least || v > U64_MAX then Bad else Got(v, rest)
  }

  lemma {:induction false} VarintReadBack(n: u64, rest: Bytes)
    ensures ReadVarint(Varint(n) + rest) == Got(n, rest)
  {
    Pow256Constants();
    if n < 0xfd {
      assert ([n] + rest)[1..] == rest;
    } else if n <= 0xffff {
      WideReadBack(0xfd, n, 2, rest);
    } else if n <= 0xffff_ffff {
      WideReadBack(0xfe, n, 4, rest);
    } else {
      WideReadBack(0xff, n, 8, rest);
    }
  }

  lemma {:induction false} WideReadBack(tag: u8, n: u64, width: nat, rest: Bytes)
    requires n < Pow256(width)
    ensures var b := [tag] + LittleEndian(n, width) + rest;
            b[0] == tag && ReadUint(width, b[1..]) == Got(n, rest)
  {
    var b := [tag] + LittleEndian(n, width) + rest;
    assert b[1..] == LittleEndian(n, width) + rest;
    UintReadBack(n, width, rest);
  }

  lemma {:induction false} VarintReadOnlyWritten(b: Bytes)
    requires ReadVarint(b).Got?
    ensures b == Varint(ReadVarint(b).value) + ReadVarint(b).rest
  {
    Pow256Constants();
    assert b == [b[0]] + b[1..];
    if b[0] >= 0xfd {
      UintReadOnlyWritten(if b[0] == 0xfd then 2 else if b[0] == 0xfe then 4 else 8, b[1..]);
    }
  }

  function WriteBlob(s: Bytes): Bytes {
    if |s| > U64_MAX then [] else Varint(|s|) + s
  }

  function ReadBlob(b: Bytes): Parsed<Bytes> {
    match ReadVarint(b)
    case Bad => Bad
    case Got(n, rest) => if |rest| < n then Bad else Got(rest[..n], rest[n..])
  }

  const BLOB := Codec(WriteBlob, ReadBlob, (s: Bytes) => |s| <= U64_MAX)

  lemma {:induction false} BlobReadBack(s: Bytes, rest: Bytes)
    requires |s| <= U64_MAX
    ensures ReadBlob(WriteBlob(s) + rest) == Got(s, rest)
  {
    assert WriteBlob(s) + rest == Varint(|s|) + (s + rest);
    VarintReadBack(|s|, s + rest);
  }

  lemma {:induction false} BlobReadOnlyWritten(b: Bytes)
    requires ReadBlob(b).Got?
    ensures |ReadBlob(b).value| <= U64_MAX && b == WriteBlob(ReadBlob(b).value) + ReadBlob(b).rest
  {
    VarintReadOnlyWritten(b);
  }

  lemma {:induction false} BlobExact()
    ensures Exact(BLOB)
  {
    forall s: Bytes, rest: Bytes | BLOB.valid(s) ensures BLOB.read(BLOB.write(s) + rest) == Got(s, rest) {
      BlobReadBack(s, rest);
    }
    forall b: Bytes | BLOB.read(b).Got?
      ensures BLOB.valid(BLOB.read(b).value) && b == BLOB.write(BLOB.read(b).value) + BLOB.read(b).rest
    {
      BlobReadOnlyWritten(b);
    }
  }

  // ── Inputs, outputs, witnesses ────────────────────────────────────────────

  function WriteTxOut(o: TxOut): Bytes {
    LittleEndian(o.value, 8) + WriteBlob(o.script)
  }

  /** Eight bytes of value, the length of the script, and the script. */
  lemma {:induction false} TxOutLayout(o: TxOut)
    requires |o.script| <= U64_MAX
    ensures var b, n := WriteTxOut(o), LengthBytes(|o.script|);
            && |b| == 8 + n + |o.script| && FromLittleEndian(b[..8]) == o.value
            && ReadVarint(b[8..]) == Got(|o.script|, o.script) && b[8 + n..] == o.script
  {
    Pow256Constants();
    LittleEndianRoundTrip(o.value, 8);
    var b := WriteTxOut(o);
    assert b[..8] == LittleEndian(o.value, 8) && b[8..] == Varint(|o.script|) + o.script;
    VarintLayout(|o.script|);
    VarintReadBack(|o.script|, o.script);
  }

  function ReadTxOut(b: Bytes): Parsed<TxOut> {
    match ReadUint(8, b)
    case Bad => Bad
    case Got(value, rest) =>
      match ReadBlob(rest)
      case Bad => Bad
      case Got(script, rest') => if value > U64_MAX then Bad else Got(TxOut(value, script), rest')
  }

  const TXOUT := Codec(WriteTxOut, ReadTxOut, (o: TxOut) => |o.script| <= U64_MAX)

  lemma {:induction false} TxOutReadBack(o: TxOut, rest: Bytes)
    requires |o.script| <= U64_MAX
    ensures ReadTxOut(WriteTxOut(o) + rest) == Got(o, rest)
  {
    Pow256Constants();
    assert WriteTxOut(o) + rest == LittleEndian(o.value, 8) + (WriteBlob(o.script) + rest);
    UintReadBack(o.value, 8, WriteBlob(o.script) + rest);
    BlobReadBack(o.script, rest);
  }

  lemma {:induction false} TxOutReadOnlyWritten(b: Bytes)
    requires ReadTxOut(b).Got?
    ensures |ReadTxOut(b).value.script| <= U64_MAX && b == WriteTxOut(ReadTxOut(b).value) + ReadTxOut(b).rest
  {
    UintReadOnlyWritten(8, b);
    BlobReadOnlyWritten(b[8..]);
  }

  lemma {:induction false} TxOutExact()
    ensures Exact(TXOUT)
  {
    forall o: TxOut, rest: Bytes | TXOUT.valid(o) ensures TXOUT.read(TXOUT.write(o) + rest) == Got(o, rest) {
      TxOutReadBack(o, rest);
    }
    forall b: Bytes | TXOUT.read(b).Got?
      ensures TXOUT.valid(TXOUT.read(b).value) && b == TXOUT.write(TXOUT.read(b).value) + TXOUT.read(b).rest
    {
      TxOutReadOnlyWritten(b);
    }
  }

  function WriteTxIn(i: TxIn): Bytes {
    i.prevHash + LittleEndian(i.prevIndex, 4) + WriteBlob(i.script) + LittleEndian(i.sequence, 4)
  }

  function ReadTxIn(b: Bytes): Parsed<TxIn> {
    if |b| < 32 then Bad
    else match ReadUint(4, b[32..])
      case Bad => Bad
      case Got(index, rest) =>
        match ReadBlob(rest)
        case Bad => Bad
        case Got(script, rest') =>
          match ReadUint(4, rest')
          case Bad => Bad
          case Got(sequence, rest'') =>
            if index > U32_MAX || sequence > U32_MAX then Bad else Got(TxIn(b[..32], index, script, sequence), rest'')
  }

  const TXIN := Codec(WriteTxIn, ReadTxIn, (i: TxIn) => |i.prevHash| == 32 && |i.script| <= U64_MAX)

  lemma {:induction false} TxInReadBack(i: TxIn, rest: Bytes)
    requires |i.prevHash| == 32 && |i.script| <= U64_MAX
    ensures ReadTxIn(WriteTxIn(i) + rest) == Got(i, rest)
  {
    Pow256Constants();
    var c := LittleEndian(i.sequence, 4) + rest;
    var s := WriteBlob(i.script) + c;
    var b := WriteTxIn(i) + rest;
    assert b == i.prevHash + (LittleEndian(i.prevIndex, 4) + s);
    assert b[32..] == LittleEndian(i.prevIndex, 4) + s && b[..32] == i.prevHash;
    UintReadBack(i.prevIndex, 4, s);
    BlobReadBack(i.script, c);
    UintReadBack(i.sequence, 4, rest);
  }

  lemma {:induction false} TxInReadOnlyWritten(b: Bytes)
    requires ReadTxIn(b).Got?
    ensures var i := ReadTxIn(b).value;
            |i.prevHash| == 32 && |i.script| <= U64_MAX && b == WriteTxIn(i) + ReadTxIn(b).rest
  {
    var Got(i, rest) := ReadTxIn(b);
    UintReadOnlyWritten(4, b[32..]);
    var s := ReadUint(4, b[32..]).rest;
    BlobReadOnlyWritten(s);
    UintReadOnlyWritten(4, ReadBlob(s).rest);
    Regroup(b[..32], LittleEndian(i.prevIndex, 4), WriteBlob(i.script), LittleEndian(i.sequence, 4), rest);
    assert b == b[..32] + b[32..];
  }

  lemma {:induction false} Regroup(a: Bytes, b: Bytes, c: Bytes, d: Bytes, e: Bytes)
    ensures a + b + c + d + e == a + (b + (c + (d + e)))
  {
  }

  lemma {:induction false} TxInExact()
    ensures Exact(TXIN)
  {
    forall i: TxIn, rest: Bytes | TXIN.valid(i) ensures TXIN.read(TXIN.write(i) + rest) == Got(i, rest) {
      TxInReadBack(i, rest);
    }
    forall b: Bytes | TXIN.read(b).Got?
      ensures TXIN.valid(TXIN.read(b).value) && b == TXIN.write(TXIN.read(b).value) + TXIN.read(b).rest
    {
      TxInReadOnlyWritten(b);
    }
  }

  /** A vector: its length, then its elements. */
  function WriteVec<T>(c: Codec<T>, xs: seq<T>): Bytes {
    if |xs| > U64_MAX then [] else Varint(|xs|) + WriteAll(c, xs)
  }

  function ReadVec<T>(c: Codec<T>, b: Bytes): Parsed<seq<T>> {
    match ReadVarint(b)
    case Bad => Bad
    case Got(n, rest) => ReadMany(c, n, rest)
  }

  predicate ValidVec<T>(c: Codec<T>, xs: seq<T>) {
    |xs| <= U64_MAX && forall i :: 0 <= i < |xs| ==> c.valid(xs[i])
  }

  lemma {:induction false} VecReadBack<T(!new)>(c: Codec<T>, xs: seq<T>, rest: Bytes)
    requires Exact(c) && ValidVec(c, xs)
    ensures ReadVec(c, WriteVec(c, xs) + rest) == Got(xs, rest)
  {
    assert WriteVec(c, xs) + rest == Varint(|xs|) + (WriteAll(c, xs) + rest);
    VarintReadBack(|xs|, WriteAll(c, xs) + rest);
    ManyReadBack(c, xs, rest);
  }

  lemma {:induction false} VecReadOnlyWritten<T(!new)>(c: Codec<T>, b: Bytes)
    requires Exact(c) && ReadVec(c, b).Got?
    ensures ValidVec(c, ReadVec(c, b).value) && b == WriteVec(c, ReadVec(c, b).value) + ReadVec(c, b).rest
  {
    VarintReadOnlyWritten(b);
    ManyReadOnlyWritten(c, ReadVarint(b).value, ReadVarint(b).rest);
  }

  function WriteWitness(w: seq<Bytes>): Bytes { WriteVec(BLOB, w) }
  function ReadWitness(b: Bytes): Parsed<seq<Bytes>> { ReadVec(BLOB, b) }
  const WITNESS := Codec(WriteWitness, ReadWitness, (w: seq<Bytes>) => ValidVec(BLOB, w))

  lemma {:induction false} WitnessExact()
    ensures Exact(WITNESS)
  {
    BlobExact();
    forall w: seq<Bytes>, rest: Bytes | WITNESS.valid(w) ensures WITNESS.read(WITNESS.write(w) + rest) == Got(w, rest) {
      VecReadBack(BLOB, w, rest);
    }
    forall b: Bytes | WITNESS.read(b).Got?
      ensures WITNESS.valid(WITNESS.read(b).value) && b == WITNESS.write(WITNESS.read(b).value) + WITNESS.read(b).rest
    {
      VecReadOnlyWritten(BLOB, b);
    }
  }

  // ── Transactions ──────────────────────────────────────────────────────────

  predicate ValidTx(tx: Tx) {
    && ValidVec(TXIN, tx.inputs)
    && ValidVec(TXOUT, tx.outputs)
    && |tx.witnesses| == |tx.inputs|
    && forall i :: 0 <= i < |tx.witnesses| ==> WITNESS.valid(tx.witnesses[i])
  }

  predicate NoWitness(ws: seq<seq<Bytes>>) {
    forall i :: 0 <= i < |ws| ==> ws[i] == []
  }

  function EmptyWitnesses(n: nat): (ws: seq<seq<Bytes>>)
    ensures |ws| == n && NoWitness(ws)
  {
    seq(n, _ => [])
  }

  function WriteBody(tx: Tx, segwit: bool): Bytes {
    WriteVec(TXOUT, tx.outputs)
      + ((if segwit then WriteAll(WITNESS, tx.witnesses) else []) + LittleEndian(tx.locktime, 4))
  }

  /** BIP144: marker 0 and flag 1 announce the witnesses. */
  function WriteTail(tx: Tx, segwit: bool): Bytes {
    (if segwit then [0x00, 0x01] else []) + (WriteVec(TXIN, tx.inputs) + WriteBody(tx, segwit))
  }

  function WriteForm(tx: Tx, segwit: bool): Bytes {
    LittleEndian(tx.version, 4) + WriteTail(tx, segwit)
  }

  predicate UsesSegwit(tx: Tx) {
    tx.inputs == [] || !NoWitness(tx.witnesses)
  }

  function WriteTx(tx: Tx): Bytes {
    WriteForm(tx, UsesSegwit(tx))
  }

  /** BIP141: the txid hashes the form without marker, flag and witness. */
  function Txid(env: Env, tx: Tx): Hash {
    env.sha256d(WriteForm(tx, false))
  }

  /** Outputs, then the witnesses of a segwit transaction, then the locktime. */
  function ReadBody(version: u32, inputs: seq<TxIn>, segwit: bool, b: Bytes): Parsed<Tx> {
    match ReadVec(TXOUT, b)
    case Bad => Bad
    case Got(outputs, rest) =>
      match (if segwit then ReadMany(WITNESS, |inputs|, rest) else Got(EmptyWitnesses(|inputs|), rest))
      case Bad => Bad
      case Got(witnesses, rest') =>
        if segwit && inputs != [] && NoWitness(witnesses) then Bad
        else match ReadUint(4, rest')
          case Bad => Bad
          case Got(locktime, end) =>
            if locktime > U32_MAX then Bad else Got(Tx(version, inputs, outputs, witnesses, locktime), end)
  }

  function ReadTail(version: u32, b: Bytes): Parsed<Tx> {
    match ReadVec(TXIN, b)
    case Bad => Bad
    case Got(inputs, rest) =>
      if inputs != [] then ReadBody(version, inputs, false, rest)
      else if rest == [] || rest[0] != 1 then Bad
      else match ReadVec(TXIN, rest[1..])
        case Bad => Bad
        case Got(inputs', rest') => ReadBody(version, inputs', true, rest')
  }

  function ReadTx(b: Bytes): Parsed<Tx> {
    match ReadUint(4, b)
    case Bad => Bad
    case Got(version, rest) => if version > U32_MAX then Bad else ReadTail(version, rest)
  }

  /** The whole string must be one transaction. */
  function Deserialize(b: Bytes): Option<Tx> {
    match ReadTx(b)
    case Got(tx, rest) => if rest == [] then Some(tx) else None
    case Bad => None
  }

  lemma {:induction false} BodyReadBack(tx: Tx)
    requires ValidTx(tx)
    ensures ReadBody(tx.version, tx.inputs, UsesSegwit(tx), WriteBody(tx, UsesSegwit(tx))) == Got(tx, [])
  {
    Pow256Constants();
    var segwit := UsesSegwit(tx);
    var end := LittleEndian(tx.locktime, 4);
    assert end + [] == end;
    UintReadBack(tx.locktime, 4, []);
    TxOutExact();
    WitnessExact();
    VecReadBack(TXOUT, tx.outputs, (if segwit then WriteAll(WITNESS, tx.witnesses) else []) + end);
    if segwit {
      ManyReadBack(WITNESS, tx.witnesses, end);
    } else {
      assert [] + end == end;
      assert tx.witnesses == EmptyWitnesses(|tx.inputs|);
    }
  }

  lemma {:induction false} TailReadBack(tx: Tx)
    requires ValidTx(tx)
    ensures ReadTail(tx.version, WriteTail(tx, UsesSegwit(tx))) == Got(tx, [])
  {
    BodyReadBack(tx);
    var segwit := UsesSegwit(tx);
    var body := WriteBody(tx, segwit);
    var unmarked := WriteVec(TXIN, tx.inputs) + body;
    var tail := WriteTail(tx, segwit);
    assert ReadVec(TXIN, unmarked) == Got(tx.inputs, body) by {
      TxInExact();
      VecReadBack(TXIN, tx.inputs, body);
    }
    if segwit {
      assert tail[0] == 0 && tail[1..][0] == 1 && tail[1..][1..] == unmarked;
      assert ReadVec(TXIN, tail) == Got([], tail[1..]);
    } else {
      assert tail == unmarked;
    }
  }

  /** Every transaction survives the wire. */
  lemma {:induction false} TxReadBack(tx: Tx)
    requires ValidTx(tx)
    ensures Deserialize(WriteTx(tx)) == Some(tx)
  {
    var tail := WriteTail(tx, UsesSegwit(tx));
    assert ReadTail(tx.version, tail) == Got(tx, []) by { TailReadBack(tx); }
    VersionReadBack(tx, tail);
  }

  lemma {:induction false} VersionReadBack(tx: Tx, tail: Bytes)
    requires ReadTail(tx.version, tail) == Got(tx, [])
    ensures Deserialize(LittleEndian(tx.version, 4) + tail) == Some(tx)
  {
    Pow256Constants();
    UintReadBack(tx.version, 4, tail);
  }

  lemma {:induction false} BodyReadOnlyWritten(version: u32, inputs: seq<TxIn>, segwit: bool, b: Bytes)
    requires ReadBody(version, inputs, segwit, b).Got? && ReadBody(version, inputs, segwit, b).rest == []
    requires ValidVec(TXIN, inputs)
    requires !segwit ==> inputs != []
    ensures var tx := ReadBody(version, inputs, segwit, b).value;
            && ValidTx(tx) && tx.version == version && tx.inputs == inputs
            && (segwit <==> UsesSegwit(tx))
            && b == WriteBody(tx, segwit)
  {
    OutputsReadOnlyWritten(b);
    var rest := ReadVec(TXOUT, b).rest;
    if segwit {
      WitnessesReadOnlyWritten(|inputs|, rest);
      UintReadOnlyWritten(4, ReadMany(WITNESS, |inputs|, rest).rest);
    } else {
      UintReadOnlyWritten(4, rest);
    }
    var end := LittleEndian(ReadBody(version, inputs, segwit, b).value.locktime, 4);
    assert end + [] == end && [] + end == end;
  }

  lemma {:induction false} OutputsReadOnlyWritten(b: Bytes)
    requires ReadVec(TXOUT, b).Got?
    ensures ValidVec(TXOUT, ReadVec(TXOUT, b).value)
    ensures b == WriteVec(TXOUT, ReadVec(TXOUT, b).value) + ReadVec(TXOUT, b).rest
  {
    TxOutExact();
    VecReadOnlyWritten(TXOUT, b);
  }

  lemma {:induction false} WitnessesReadOnlyWritten(n: nat, b: Bytes)
    requires ReadMany(WITNESS, n, b).Got?
    ensures var ws := ReadMany(WITNESS, n, b).value;
            |ws| == n && (forall i :: 0 <= i < n ==> WITNESS.valid(ws[i]))
            && b == WriteAll(WITNESS, ws) + ReadMany(WITNESS, n, b).rest
  {
    WitnessExact();
    ManyReadOnlyWritten(WITNESS, n, b);
  }

  lemma {:induction false} InputsReadOnlyWritten(b: Bytes)
    requires ReadVec(TXIN, b).Got?
    ensures ValidVec(TXIN, ReadVec(TXIN, b).value)
    ensures b == WriteVec(TXIN, ReadVec(TXIN, b).value) + ReadVec(TXIN, b).rest
  {
    TxInExact();
    VecReadOnlyWritten(TXIN, b);
  }

  lemma {:induction false} MarkerReadOnlyWritten(b: Bytes)
    requires ReadVec(TXIN, b).Got? && ReadVec(TXIN, b).value == []
    ensures b == [0x00] + ReadVec(TXIN, b).rest
  {
    InputsReadOnlyWritten(b);
    assert WriteVec(TXIN, []) == [0x00];
  }

  lemma {:induction false} TailReadOnlyWritten(version: u32, b: Bytes)
    requires ReadTail(version, b).Got? && ReadTail(version, b).rest == []
    ensures var tx := ReadTail(version, b).value;
            ValidTx(tx) && tx.version == version && b == WriteTail(tx, UsesSegwit(tx))
  {
    var Got(inputs, rest) := ReadVec(TXIN, b);
    if inputs != [] {
      InputsReadOnlyWritten(b);
      BodyReadOnlyWritten(version, inputs, false, rest);
      assert [] + b == b;
    } else {
      assert b == [0x00, 0x01] + rest[1..] by { MarkerReadOnlyWritten(b); }
      InputsReadOnlyWritten(rest[1..]);
      var Got(inputs', rest') := ReadVec(TXIN, rest[1..]);
      BodyReadOnlyWritten(version, inputs', true, rest');
    }
  }

  /** Nothing but a serialised transaction deserialises. */
  lemma {:induction false} TxReadOnlyWritten(b: Bytes)
    requires Deserialize(b).Some?
    ensures ValidTx(Deserialize(b).value) && b == WriteTx(Deserialize(b).value)
  {
    UintReadOnlyWritten(4, b);
    TailReadOnlyWritten(ReadUint(4, b).value, ReadUint(4, b).rest);
  }

  /** Deserialising is exactly inverting the serialiser. */
  lemma {:induction false} DeserializeExact(b: Bytes, tx: Tx)
    ensures Deserialize(b) == Some(tx) <==> ValidTx(tx) && b == WriteTx(tx)
  {
    if Deserialize(b) == Some(tx) {
      TxReadOnlyWritten(b);
    }
    if ValidTx(tx) && b == WriteTx(tx) {
      TxReadBack(tx);
    }
  }
}
