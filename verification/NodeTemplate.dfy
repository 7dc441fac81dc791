/** node_ipc.rs: turning the node's block template into the pool's. */
module NodeTemplate {
  import opened Bytes
  import opened Transactions

  datatype Header = Header(version: u32, prevHash: Hash, time: u32, bits: u32)

  /** `NewTemplate` and `SetNewPrevHash` together, without the target, which no code reads. */
  datatype Template = Template(
    templateId: u64, version: u32,
    txVersion: u32, scriptPrefix: Bytes, sequence: u32, valueRemaining: u64,
    outputsCount: u32, outputs: Bytes, locktime: u32, merklePath: seq<Hash>,
    prevHash: Hash, timestamp: u32, nbits: u32)

  /** `NoInput` is the panic of `cb.input[0]`; the others are error returns. */
  datatype TemplateError = ValueOverflow | NoInput | PrefixTooLong | OutputsTooLong | BadMerkleHash | PathTooLong

  datatype Result<+T, +E> = Ok(value: T) | Err(error: E)

  function ZeroOutputs(os: seq<TxOut>): (zs: seq<TxOut>)
    ensures |zs| <= |os|
    ensures forall z :: z in zs ==> z in os && z.value == 0
  {
    if os == [] then []
    else (if os[0].value == 0 then [os[0]] else []) + ZeroOutputs(os[1..])
  }

  function SumValues(os: seq<TxOut>): nat {
    if os == [] then 0 else os[0].value + SumValues(os[1..])
  }

  lemma {:induction false} SumOfZeros(os: seq<TxOut>)
    requires forall o :: o in os ==> o.value == 0
    ensures SumValues(os) == 0
  {
    if os != [] {
      SumOfZeros(os[1..]);
    }
  }

  // ── Which outputs are kept, and what they are worth ───────────────────────

  /** `zs` are the outputs of `os` at the places `at`, in order, and those are the places of
      all outputs without value. */
  predicate KeptAt(os: seq<TxOut>, zs: seq<TxOut>, at: seq<nat>) {
    && |zs| == |at| && (forall i, j :: 0 <= i < j < |at| ==> at[i] < at[j])
    && (forall i :: 0 <= i < |at| ==> at[i] < |os| && zs[i] == os[at[i]])
    && (forall k: nat :: k < |os| ==> (os[k].value == 0 <==> k in at))
  }

  ghost predicate KeepsZeros(os: seq<TxOut>, zs: seq<TxOut>) {
    exists at: seq<nat> :: KeptAt(os, zs, at)
  }

  lemma {:induction false} ZeroOutputsConcat(os: seq<TxOut>, more: seq<TxOut>)
    ensures ZeroOutputs(os + more) == ZeroOutputs(os) + ZeroOutputs(more)
  {
    if os == [] {
      assert os + more == more;
    } else {
      assert (os + more)[1..] == os[1..] + more;
      ZeroOutputsConcat(os[1..], more);
      Associative(if os[0].value == 0 then [os[0]] else [], ZeroOutputs(os[1..]), ZeroOutputs(more));
    }
  }

  lemma {:induction false} OneOutput(o: TxOut)
    ensures ZeroOutputs([o]) == if o.value == 0 then [o] else []
    ensures SumValues([o]) == o.value
  {
    assert [o][1..] == [];
  }

  /** Every output without value is kept as often as it occurs, and no other is. */
  lemma {:induction false} ZerosKeptAsOften(os: seq<TxOut>, o: TxOut)
    ensures multiset(ZeroOutputs(os))[o] == if o.value == 0 then multiset(os)[o] else 0
    decreases |os|
  {
    if os != [] {
      var n := |os| - 1;
      var init, last := os[..n], os[n];
      assert os == init + [last];
      ZerosKeptAsOften(init, o);
      ZeroOutputsConcat(init, [last]);
      OneOutput(last);
    }
  }

  /** And in order. */
  lemma {:induction false} ZerosAreKept(os: seq<TxOut>)
    ensures KeepsZeros(os, ZeroOutputs(os))
    decreases |os|
  {
    if os == [] {
      assert KeptAt(os, ZeroOutputs(os), []);
    } else {
      var n := |os| - 1;
      var init, last := os[..n], os[n];
      assert os == init + [last];
      ZerosAreKept(init);
      ZeroOutputsConcat(init, [last]);
      OneOutput(last);
      var at: seq<nat> :| KeptAt(init, ZeroOutputs(init), at);
      OneMoreKept(init, ZeroOutputs(init), at, last);
    }
  }

  lemma {:induction false} OneMoreKept(os: seq<TxOut>, zs: seq<TxOut>, at: seq<nat>, o: TxOut)
    requires KeptAt(os, zs, at)
    ensures KeepsZeros(os + [o], zs + (if o.value == 0 then [o] else []))
  {
    var at' := at + (if o.value == 0 then [|os|] else []);
    forall k: nat | k < |os + [o]| ensures (os + [o])[k].value == 0 <==> k in at' {
      if k == |os| {
        assert k !in at;
      }
    }
    assert KeptAt(os + [o], zs + (if o.value == 0 then [o] else []), at');
  }

  lemma {:induction false} SumConcat(os: seq<TxOut>, more: seq<TxOut>)
    ensures SumValues(os + more) == SumValues(os) + SumValues(more)
  {
    if os == [] {
      assert os + more == more;
    } else {
      assert (os + more)[1..] == os[1..] + more;
      SumConcat(os[1..], more);
    }
  }

  predicate AllHashes(path: seq<Bytes>) {
    forall p :: p in path ==> |p| == 32
  }

  function AsHashes(path: seq<Bytes>): (hs: seq<Hash>)
    requires AllHashes(path)
    ensures |hs| == |path| && forall i :: 0 <= i < |path| ==> hs[i] == path[i]
  {
    seq(|path|, i requires 0 <= i < |path| => path[i])
  }

  /** `build_raw_template`. The count is cast to u32, the checks come in the source's order. */
  function RawTemplate(id: u64, header: Header, cb: Tx, path: seq<Bytes>): (r: Result<Template, TemplateError>) {
    var zeros := ZeroOutputs(cb.outputs);
    var outputs := WriteAll(TXOUT, zeros);
    if SumValues(cb.outputs) > U64_MAX then Err(ValueOverflow)
    else if cb.inputs == [] then Err(NoInput)
    else if |cb.inputs[0].script| > 255 then Err(PrefixTooLong)
    else if |outputs| > 65535 then Err(OutputsTooLong)
    else if !AllHashes(path) then Err(BadMerkleHash)
    else if |path| > 255 then Err(PathTooLong)
    else Ok(Template(id, header.version, cb.version, cb.inputs[0].script, cb.inputs[0].sequence, SumValues(cb.outputs),
                     |zeros| % 0x1_0000_0000, outputs, cb.locktime, AsHashes(path),
                     header.prevHash, header.time, header.bits))
  }

  // ── When there is a template ──────────────────────────────────────────────

  /** What the outputs without value take: value, length and script. */
  function ZeroBytes(os: seq<TxOut>): nat {
    if os == [] then 0
    else
      var n, last := |os| - 1, os[|os| - 1];
      ZeroBytes(os[..n]) + (if last.value == 0 then 8 + LengthBytes(|last.script|) + |last.script| else 0)
  }

  lemma {:induction false} ZeroBytesWritten(os: seq<TxOut>)
    requires forall o :: o in os ==> TXOUT.valid(o)
    ensures |WriteAll(TXOUT, ZeroOutputs(os))| == ZeroBytes(os)
    decreases |os|
  {
    if os != [] {
      var n := |os| - 1;
      var init, last := os[..n], os[n];
      assert os == init + [last];
      ZeroBytesWritten(init);
      ZeroOutputsConcat(init, [last]);
      OneOutput(last);
      WriteAllConcat(TXOUT, ZeroOutputs(init), ZeroOutputs([last]));
      OneWritten(last);
    }
  }

  lemma {:induction false} OneWritten(o: TxOut)
    requires TXOUT.valid(o)
    ensures |WriteAll(TXOUT, [o])| == 8 + LengthBytes(|o.script|) + |o.script|
  {
    VarintLayout(|o.script|);
    assert [o][1..] == [] && WriteAll(TXOUT, [o][1..]) == [];
  }

  /** A block gives a template exactly if its coinbase has an input, its whole value fits 64
      bits, and prefix, kept outputs and path fit the message; the path of 32-byte hashes. */
  lemma {:induction false} TemplateExactlyWhen(id: u64, header: Header, cb: Tx, path: seq<Bytes>)
    requires ValidTx(cb)
    ensures RawTemplate(id, header, cb, path).Ok? <==>
              && SumValues(cb.outputs) < 0x1_0000_0000_0000_0000
              && cb.inputs != [] && |cb.inputs[0].script| <= 255
              && ZeroBytes(cb.outputs) <= 65535
              && |path| <= 255 && forall h :: h in path ==> |h| == 32
  {
    ZeroBytesWritten(cb.outputs);
  }

  method SerializeOutputs(os: seq<TxOut>) returns (serialized: Bytes)
    ensures serialized == WriteAll(TXOUT, os)
  {
    serialized := [];
    for i := 0 to |os|
      invariant serialized + WriteAll(TXOUT, os[i..]) == WriteAll(TXOUT, os)
    {
      assert os[i..][1..] == os[i + 1..];
      Associative(serialized, WriteTxOut(os[i]), WriteAll(TXOUT, os[i + 1..]));
      serialized := serialized + WriteTxOut(os[i]);
    }
    assert serialized + [] == serialized;
  }

  /** The templates a node can give, with the outputs behind the serialised ones. */
  ghost predicate Carries(t: Template, os: seq<TxOut>) {
    && |t.scriptPrefix| <= 255
    && |t.outputs| <= 65535
    && t.outputs == WriteAll(TXOUT, os)
    && t.outputsCount == |os|
    && (forall o :: o in os ==> TXOUT.valid(o) && o.value == 0)
  }

  lemma {:induction false} NineBytesEach(os: seq<TxOut>)
    requires forall o :: o in os ==> TXOUT.valid(o)
    ensures |WriteAll(TXOUT, os)| >= 9 * |os|
  {
    if os != [] {
      assert os[0] in os;
      NineBytesEach(os[1..]);
      assert |WriteTxOut(os[0])| >= 9;
      assert WriteAll(TXOUT, os) == TXOUT.write(os[0]) + WriteAll(TXOUT, os[1..]);
    }
  }

  /** Header and coinbase fields are the node's, the value is the whole of the node's
      coinbase, and its zero outputs survive in order with their count not truncated. */
  ghost predicate TakenFrom(t: Template, id: u64, header: Header, cb: Tx, path: seq<Bytes>) {
    && cb.inputs != []
    && Carries(t, ZeroOutputs(cb.outputs)) && KeepsZeros(cb.outputs, ZeroOutputs(cb.outputs))
    && t.valueRemaining == SumValues(cb.outputs) && t.templateId == id
    && t.txVersion == cb.version && t.locktime == cb.locktime
    && t.scriptPrefix == cb.inputs[0].script && t.sequence == cb.inputs[0].sequence
    && Header(t.version, t.prevHash, t.timestamp, t.nbits) == header && t.merklePath == path
  }

  /** A deserialised coinbase is a valid one. */
  lemma {:induction false} TemplateFromNode(id: u64, header: Header, cb: Tx, path: seq<Bytes>, t: Template)
    requires ValidTx(cb) && RawTemplate(id, header, cb, path) == Ok(t)
    ensures TakenFrom(t, id, header, cb, path)
  {
    ZeroOutputsValid(cb);
    ZerosAreKept(cb.outputs);
    FewOutputs(ZeroOutputs(cb.outputs));
  }

  lemma {:induction false} FewOutputs(os: seq<TxOut>)
    requires |WriteAll(TXOUT, os)| <= 65535
    requires forall o :: o in os ==> TXOUT.valid(o)
    ensures |os| % 0x1_0000_0000 == |os|
  {
    NineBytesEach(os);
    NotTruncated(|os|);
  }

  lemma {:induction false} NotTruncated(n: nat)
    requires n < 0x1_0000_0000
    ensures n % 0x1_0000_0000 == n
  {
  }

  lemma {:induction false} ZeroOutputsValid(cb: Tx)
    requires ValidTx(cb)
    ensures forall o :: o in ZeroOutputs(cb.outputs) ==> TXOUT.valid(o) && o.value == 0
  {
    forall o | o in ZeroOutputs(cb.outputs) ensures TXOUT.valid(o) && o.value == 0 {
      var i :| 0 <= i < |cb.outputs| && cb.outputs[i] == o;
    }
  }

  /** `build_raw_template` as it runs. */
  method BuildRawTemplate(id: u64, header: Header, cb: Tx, path: seq<Bytes>)
      returns (r: Result<Template, TemplateError>)
    ensures r == RawTemplate(id, header, cb, path)
    ensures ValidTx(cb) && r.Ok? ==> TakenFrom(r.value, id, header, cb, path)
  {
    var empty := ZeroOutputs(cb.outputs);
    var serialized := SerializeOutputs(empty);
    if SumValues(cb.outputs) > U64_MAX { return Err(ValueOverflow); }
    if cb.inputs == [] { return Err(NoInput); }
    if |cb.inputs[0].script| > 255 { return Err(PrefixTooLong); }
    if |serialized| > 65535 { return Err(OutputsTooLong); }
    if !AllHashes(path) { return Err(BadMerkleHash); }
    if |path| > 255 { return Err(PathTooLong); }
    r := Ok(Template(id, header.version, cb.version, cb.inputs[0].script, cb.inputs[0].sequence, SumValues(cb.outputs),
                     |empty| % 0x1_0000_0000, serialized, cb.locktime, AsHashes(path),
                     header.prevHash, header.time, header.bits));
    if ValidTx(cb) {
      TemplateFromNode(id, header, cb, path, r.value);
    }
  }
}
