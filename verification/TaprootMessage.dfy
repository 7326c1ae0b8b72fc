/**
 The taproot signature message (BIP 341, "Common signature message", and its BIP 342
 extension) as `_taproot_sighash` assembles it, a reader that inverts the assembly, and
 what two transactions with the same message have in common. SHA-256 is a parameter.
 */
module TaprootMessage {
  import opened ByteStrings
  import opened Wire

  type Int32 = n: int | -0x8000_0000 <= n < 0x8000_0000

  /** What fits the spend-type byte above its annex bit. */
  type ExtFlag = n: int | 0 <= n < 128

  type Sha = Bytes -> Hash

  function I32(n: Int32): (b: Bytes)
    ensures |b| == 4
  {
    LeBytes(if n < 0 then n + 0x1_0000_0000 else n, 4)
  }

  function ReadI32(b: Bytes): Int32
    requires |b| == 4
  {
    var n := ReadU32(b);
    if n >= 0x8000_0000 then n - 0x1_0000_0000 else n
  }

  lemma I32RoundTrip(n: Int32)
    ensures ReadI32(I32(n)) == n
  {
    FixedWidthRoundTrip(if n < 0 then n + 0x1_0000_0000 else n, 0);
  }

  /** The hash type's 0x80 bit. */
  predicate AnyoneCanPay(hashType: Byte) {
    hashType >= 128
  }

  predicate IsNone(hashType: Byte) {
    hashType % 32 == 2
  }

  predicate IsSingle(hashType: Byte) {
    hashType % 32 == 3
  }

  // ---------------------------------------------------------------------------
  // What a message commits to
  // ---------------------------------------------------------------------------

  datatype InputHashes = InputHashes(outpoints: Hash, amounts: Hash, scripts: Hash, sequences: Hash)

  datatype ThisInput =
    | Position(index: UInt32)
    | Spent(txid: Hash, vout: UInt32, amount: Int64, script: Script, sequence: UInt32)

  datatype Leaf = Leaf(hash: Bytes, codesepPos: UInt32)

  datatype Commitment = Commitment(
    hashType: Byte, version: Int32, lockTime: UInt32,
    inputs: Option<InputHashes>, outputs: Option<Hash>,
    extFlag: ExtFlag, thisInput: ThisInput, annex: Option<Hash>,
    single: Option<Hash>, leaf: Option<Leaf>)
  {
    /** The parts that are there are those the hash type and extension flag call for. */
    predicate Shaped() {
      && (inputs.Some? <==> !AnyoneCanPay(hashType))
      && (thisInput.Spent? <==> AnyoneCanPay(hashType))
      && (outputs.Some? <==> !IsNone(hashType) && !IsSingle(hashType))
      && (single.Some? <==> IsSingle(hashType))
      && (leaf.Some? <==> extFlag == 1)
    }
  }

  // ---------------------------------------------------------------------------
  // Layout
  // ---------------------------------------------------------------------------

  function Preamble(c: Commitment): (b: Bytes)
    ensures |b| == 10
  {
    [0, c.hashType] + I32(c.version) + U32(c.lockTime)
  }

  function InputsPart(h: Option<InputHashes>): Bytes {
    match h
    case None => []
    case Some(h) => h.outpoints + h.amounts + h.scripts + h.sequences
  }

  function HashPart(h: Option<Hash>): Bytes {
    match h
    case None => []
    case Some(h) => h
  }

  function SpendType(extFlag: ExtFlag, annex: bool): Byte {
    2 * extFlag + if annex then 1 else 0
  }

  function ThisInputPart(t: ThisInput): Bytes {
    match t
    case Position(i) => U32(i)
    case Spent(txid, vout, amount, script, sequence) =>
      (txid + U32(vout) + I64(amount)) + (Sized(script) + U32(sequence))
  }

  function LeafPart(l: Option<Leaf>): Bytes {
    match l
    case None => []
    case Some(Leaf(hash, pos)) => hash + ([0] + U32(pos))
  }

  function Serialize(c: Commitment): Bytes {
    Preamble(c) +
    (InputsPart(c.inputs) +
     (HashPart(c.outputs) +
      ([SpendType(c.extFlag, c.annex.Some?)] +
       (ThisInputPart(c.thisInput) +
        (HashPart(c.annex) +
         (HashPart(c.single) + LeafPart(c.leaf)))))))
  }

  // ---------------------------------------------------------------------------
  // Reading a message back
  // ---------------------------------------------------------------------------

  /** The first n bytes and the rest. */
  function ReadBytes(b: Bytes, n: nat): Option<(Bytes, Bytes)> {
    if n <= |b| then Some((b[..n], b[n..])) else None
  }

  lemma BytesRoundTrip(x: Bytes, rest: Bytes)
    ensures ReadBytes(x + rest, |x|) == Some((x, rest))
  {
  }

  function ReadInputs(present: bool, b: Bytes): Option<(Option<InputHashes>, Bytes)> {
    if !present then Some((None, b))
    else if |b| < 128 then None
    else Some((Some(InputHashes(b[..32], b[32..64], b[64..96], b[96..128])), b[128..]))
  }

  lemma InputsRoundTrip(h: Option<InputHashes>, rest: Bytes)
    ensures ReadInputs(h.Some?, InputsPart(h) + rest) == Some((h, rest))
  {
    if h.Some? {
      var b := InputsPart(h) + rest;
      assert b[..32] == h.value.outpoints && b[32..64] == h.value.amounts;
      assert b[64..96] == h.value.scripts && b[96..128] == h.value.sequences && b[128..] == rest;
    } else {
      assert [] + rest == rest;
    }
  }

  function ReadHash(present: bool, b: Bytes): Option<(Option<Hash>, Bytes)> {
    if !present then Some((None, b))
    else if |b| < 32 then None
    else Some((Some(b[..32]), b[32..]))
  }

  lemma HashRoundTrip(h: Option<Hash>, rest: Bytes)
    ensures ReadHash(h.Some?, HashPart(h) + rest) == Some((h, rest))
  {
    if h.Some? {
      BytesRoundTrip(h.value, rest);
    } else {
      assert [] + rest == rest;
    }
  }

  function ReadThisInput(spent: bool, b: Bytes): Option<(ThisInput, Bytes)> {
    if !spent then
      if |b| < 4 then None else Some((Position(ReadU32(b[..4])), b[4..]))
    else if |b| < 44 then None
    else
      var (script, rest) :- ReadSized(b[44..]);
      if |rest| < 4 then None
      else Some((Spent(b[..32], ReadU32(b[32..36]), ReadI64(b[36..44]), script, ReadU32(rest[..4])), rest[4..]))
  }

  lemma ThisInputRoundTrip(t: ThisInput, rest: Bytes)
    ensures ReadThisInput(t.Spent?, ThisInputPart(t) + rest) == Some((t, rest))
  {
    match t
    case Position(i) =>
      BytesRoundTrip(U32(i), rest);
      FixedWidthRoundTrip(i, 0);
    case Spent(txid, vout, amount, script, sequence) =>
      var fixed, sized, last := txid + U32(vout) + I64(amount), Sized(script), U32(sequence);
      var b := ThisInputPart(t) + rest;
      Assoc(fixed, sized + last, rest);
      Assoc(sized, last, rest);
      assert b[44..] == sized + (last + rest);
      assert b[..32] == txid && b[32..36] == U32(vout) && b[36..44] == I64(amount);
      SizedRoundTrip(script, last + rest);
      BytesRoundTrip(last, rest);
      FixedWidthRoundTrip(vout, amount);
      FixedWidthRoundTrip(sequence, amount);
  }

  function ReadLeaf(present: bool, b: Bytes): Option<Option<Leaf>> {
    if !present then if b == [] then Some(None) else None
    else
      var n := |b| - 5;
      if n < 0 || b[n] != 0 then None else Some(Some(Leaf(b[..n], ReadU32(b[n + 1..]))))
  }

  lemma LeafRoundTrip(l: Option<Leaf>)
    ensures ReadLeaf(l.Some?, LeafPart(l)) == Some(l)
  {
    if l.Some? {
      var b, n := LeafPart(l), |l.value.hash|;
      assert b[..n] == l.value.hash && b[n + 1..] == U32(l.value.codesepPos);
      FixedWidthRoundTrip(l.value.codesepPos, 0);
    }
  }

  function ReadPreamble(b: Bytes): Option<((Byte, Int32, UInt32), Bytes)> {
    if |b| < 10 || b[0] != 0 then None
    else Some(((b[1], ReadI32(b[2..6]), ReadU32(b[6..10])), b[10..]))
  }

  lemma PreambleRoundTrip(c: Commitment, rest: Bytes)
    ensures ReadPreamble(Preamble(c) + rest) == Some(((c.hashType, c.version, c.lockTime), rest))
  {
    var b := Preamble(c) + rest;
    assert b[2..6] == I32(c.version) && b[6..10] == U32(c.lockTime) && b[10..] == rest;
    I32RoundTrip(c.version);
    FixedWidthRoundTrip(c.lockTime, 0);
  }

  /** The hash type says which parts follow, the spend type says whether annex and leaf do. */
  function Parse(b: Bytes): Option<Commitment> {
    var (head, b1) :- ReadPreamble(b);
    var ht := head.0;
    var (inputs, b2) :- ReadInputs(!AnyoneCanPay(ht), b1);
    var (outputs, b3) :- ReadHash(!IsNone(ht) && !IsSingle(ht), b2);
    var (spendType, b4) :- ReadBytes(b3, 1);
    var (thisInput, b5) :- ReadThisInput(AnyoneCanPay(ht), b4);
    var (annex, b6) :- ReadHash(spendType[0] % 2 == 1, b5);
    var (single, b7) :- ReadHash(IsSingle(ht), b6);
    var extFlag: ExtFlag := spendType[0] / 2;
    var leaf :- ReadLeaf(extFlag == 1, b7);
    Some(Commitment(ht, head.1, head.2, inputs, outputs, extFlag, thisInput, annex, single, leaf))
  }

  /** The bytes determine the hash type and every committed field. */
  lemma ParseInvertsSerialize(c: Commitment)
    requires c.Shaped()
    ensures Parse(Serialize(c)) == Some(c)
  {
    var spend := SpendType(c.extFlag, c.annex.Some?);
    assert spend % 2 == (if c.annex.Some? then 1 else 0) && spend / 2 == c.extFlag;
    var b7 := LeafPart(c.leaf);
    var b6 := HashPart(c.single) + b7;
    var b5 := HashPart(c.annex) + b6;
    var b4 := ThisInputPart(c.thisInput) + b5;
    var b3 := [spend] + b4;
    var b2 := HashPart(c.outputs) + b3;
    var b1 := InputsPart(c.inputs) + b2;
    PreambleRoundTrip(c, b1);
    InputsRoundTrip(c.inputs, b2);
    HashRoundTrip(c.outputs, b3);
    BytesRoundTrip([spend], b4);
    ThisInputRoundTrip(c.thisInput, b5);
    HashRoundTrip(c.annex, b6);
    HashRoundTrip(c.single, b7);
    LeafRoundTrip(c.leaf);
  }

  // ---------------------------------------------------------------------------
  // The strings that are hashed
  // ---------------------------------------------------------------------------

  function OutpointString(vin: seq<TxIn>): Bytes {
    Joined(Outpoint, vin)
  }

  function SequenceString(vin: seq<TxIn>): Bytes {
    Joined((v: TxIn) => U32(v.sequence), vin)
  }

  function AmountString(amounts: seq<Int64>): Bytes {
    Joined(I64, amounts)
  }

  function ScriptString(scripts: seq<Script>): Bytes {
    Joined(Sized, scripts)
  }

  // ---------------------------------------------------------------------------
  // The function itself
  // ---------------------------------------------------------------------------

  datatype Tx = Tx(version: Int32, vin: seq<TxIn>, vout: seq<TxOut>, lockTime: UInt32)

  datatype Call = Call(
    tx: Tx, index: UInt32, hashType: Byte, extFlag: ExtFlag,
    scripts: seq<Script>, amounts: seq<Int64>,
    annex: Option<Script>, tapleaf: Option<Bytes>, codesepPos: UInt32)
  {
    /** Neither an index error nor a failed assertion. */
    predicate Completes() {
      && (AnyoneCanPay(hashType) ==> index < |tx.vin| && index < |amounts| && index < |scripts|)
      && (extFlag == 1 ==> tapleaf.Some?)
    }
  }

  const NO_OUTPUT: Hash := Repeat(0, 32)

  function CommitInputs(c: Call, sha: Sha): Option<InputHashes> {
    if AnyoneCanPay(c.hashType) then None
    else Some(InputHashes(sha(OutpointString(c.tx.vin)), sha(AmountString(c.amounts)),
                          sha(ScriptString(c.scripts)), sha(SequenceString(c.tx.vin))))
  }

  function CommitOutputs(c: Call, sha: Sha): Option<Hash> {
    if IsNone(c.hashType) || IsSingle(c.hashType) then None else Some(sha(Outs(c.tx.vout)))
  }

  function CommitThisInput(c: Call): ThisInput
    requires c.Completes()
  {
    if AnyoneCanPay(c.hashType) then
      var v := c.tx.vin[c.index];
      Spent(v.txid, v.vout, c.amounts[c.index], c.scripts[c.index], v.sequence)
    else Position(c.index)
  }

  function CommitAnnex(c: Call, sha: Sha): Option<Hash> {
    if c.annex.None? then None else Some(sha(Sized(c.annex.value)))
  }

  function CommitSingle(c: Call, sha: Sha): Option<Hash> {
    if !IsSingle(c.hashType) then None
    else if c.index < |c.tx.vout| then Some(sha(OutBytes(c.tx.vout[c.index])))
    else Some(NO_OUTPUT)
  }

  function CommitLeaf(c: Call): Option<Leaf>
    requires c.Completes()
  {
    if c.extFlag == 1 then Some(Leaf(c.tapleaf.value, c.codesepPos)) else None
  }

  /** What the message of a call that completes commits to. */
  function Commit(c: Call, sha: Sha): (r: Commitment)
    requires c.Completes()
    ensures r.Shaped()
  {
    Commitment(
      c.hashType, c.tx.version, c.tx.lockTime, CommitInputs(c, sha), CommitOutputs(c, sha),
      c.extFlag, CommitThisInput(c), CommitAnnex(c, sha), CommitSingle(c, sha), CommitLeaf(c))
  }

  lemma HashedParts(c: Call, sha: Sha)
    requires c.Completes()
    ensures InputsPart(CommitInputs(c, sha)) ==
      if c.hashType >= 128 then []
      else sha(OutpointString(c.tx.vin)) + sha(AmountString(c.amounts))
           + sha(ScriptString(c.scripts)) + sha(SequenceString(c.tx.vin))
    ensures HashPart(CommitOutputs(c, sha)) ==
      if c.hashType % 32 == 2 || c.hashType % 32 == 3 then [] else sha(Outs(c.tx.vout))
    ensures HashPart(CommitAnnex(c, sha)) == if c.annex.None? then [] else sha(Sized(c.annex.value))
    ensures HashPart(CommitSingle(c, sha)) ==
      if c.hashType % 32 != 3 then []
      else if c.index < |c.tx.vout| then sha(OutBytes(c.tx.vout[c.index]))
      else Repeat(0, 32)
    ensures LeafPart(CommitLeaf(c)) == if c.extFlag == 1 then c.tapleaf.value + ([0] + U32(c.codesepPos)) else []
  {
  }

  lemma InputPart(c: Call)
    requires c.Completes()
    ensures ThisInputPart(CommitThisInput(c)) ==
      if c.hashType < 128 then U32(c.index)
      else
        var v := c.tx.vin[c.index];
        (v.txid + U32(v.vout) + I64(c.amounts[c.index])) + (Sized(c.scripts[c.index]) + U32(v.sequence))
  {
  }

  /** The bytes of the message, by the hash type and what the call has. */
  lemma MessageLayout(c: Call, sha: Sha)
    requires c.Completes()
    ensures
      var head := [0, c.hashType] + I32(c.tx.version) + U32(c.tx.lockTime);
      var inputs :=
        if c.hashType >= 128 then []
        else sha(OutpointString(c.tx.vin)) + sha(AmountString(c.amounts))
             + sha(ScriptString(c.scripts)) + sha(SequenceString(c.tx.vin));
      var outputs := if c.hashType % 32 == 2 || c.hashType % 32 == 3 then [] else sha(Outs(c.tx.vout));
      var spendType := 2 * c.extFlag + if c.annex.Some? then 1 else 0;
      var input :=
        if c.hashType < 128 then U32(c.index)
        else
          var v := c.tx.vin[c.index];
          (v.txid + U32(v.vout) + I64(c.amounts[c.index])) + (Sized(c.scripts[c.index]) + U32(v.sequence));
      var annex := if c.annex.None? then [] else sha(Sized(c.annex.value));
      var single :=
        if c.hashType % 32 != 3 then []
        else if c.index < |c.tx.vout| then sha(OutBytes(c.tx.vout[c.index]))
        else Repeat(0, 32);
      var leaf := if c.extFlag == 1 then c.tapleaf.value + ([0] + U32(c.codesepPos)) else [];
      Serialize(Commit(c, sha))
        == head + (inputs + (outputs + ([spendType] + (input + (annex + (single + leaf))))))
  {
    HashedParts(c, sha);
    InputPart(c);
  }

  method JoinOutpoints(vin: seq<TxIn>) returns (prevouts: Bytes)
    ensures prevouts == OutpointString(vin)
  {
    prevouts := [];
    for i := 0 to |vin|
      invariant prevouts == Joined(Outpoint, vin[..i])
    {
      JoinedNext(Outpoint, vin, i);
      prevouts := prevouts + (vin[i].txid + U32(vin[i].vout));
    }
    assert vin[..|vin|] == vin;
  }

  method JoinAmounts(amts: seq<Int64>) returns (amounts: Bytes)
    ensures amounts == AmountString(amts)
  {
    amounts := [];
    for i := 0 to |amts|
      invariant amounts == Joined(I64, amts[..i])
    {
      JoinedNext(I64, amts, i);
      amounts := amounts + I64(amts[i]);
    }
    assert amts[..|amts|] == amts;
  }

  method JoinScripts(scripts: seq<Script>) returns (spks: Bytes)
    ensures spks == ScriptString(scripts)
  {
    spks := [];
    for i := 0 to |scripts|
      invariant spks == Joined(Sized, scripts[..i])
    {
      JoinedNext(Sized, scripts, i);
      spks := spks + (CompactSize(|scripts[i]|) + scripts[i]);
    }
    assert scripts[..|scripts|] == scripts;
  }

  method JoinSequences(vin: seq<TxIn>) returns (sequences: Bytes)
    ensures sequences == SequenceString(vin)
  {
    sequences := [];
    ghost var f := (v: TxIn) => U32(v.sequence);
    for i := 0 to |vin|
      invariant sequences == Joined(f, vin[..i])
    {
      JoinedNext(f, vin, i);
      sequences := sequences + U32(vin[i].sequence);
    }
    assert vin[..|vin|] == vin;
  }

  method JoinOutputs(vout: seq<TxOut>) returns (outputs: Bytes)
    ensures outputs == Outs(vout)
  {
    outputs := [];
    for i := 0 to |vout|
      invariant outputs == Joined(OutBytes, vout[..i])
    {
      JoinedNext(OutBytes, vout, i);
      ghost var before := outputs;
      outputs := outputs + I64(vout[i].value);
      outputs := outputs + (CompactSize(|vout[i].script|) + vout[i].script);
      Assoc(before, I64(vout[i].value), Sized(vout[i].script));
    }
    assert vout[..|vout|] == vout;
  }

  /** Appending part by part gives the layout. */
  lemma Regroup(a: Bytes, b: Bytes, c: Bytes, d: Bytes, e: Bytes, f: Bytes, g: Bytes, h: Bytes)
    ensures a + b + c + d + e + f + g + h == a + (b + (c + (d + (e + (f + (g + h))))))
  {
  }

  /** The four hashes over all inputs. */
  method HashInputs(c: Call, sha: Sha) returns (hashes: Bytes)
    ensures hashes ==
      sha(OutpointString(c.tx.vin)) + sha(AmountString(c.amounts)) +
      sha(ScriptString(c.scripts)) + sha(SequenceString(c.tx.vin))
  {
    var prevouts := JoinOutpoints(c.tx.vin);
    hashes := sha(prevouts);
    var amounts := JoinAmounts(c.amounts);
    hashes := hashes + sha(amounts);
    var spks := JoinScripts(c.scripts);
    hashes := hashes + sha(spks);
    var sequences := JoinSequences(c.tx.vin);
    hashes := hashes + sha(sequences);
  }

  /** Builds the message from left to right; nothing stands for an exception. */
  method Message(c: Call, sha: Sha) returns (r: Option<Bytes>)
    ensures r == if c.Completes() then Some(Serialize(Commit(c, sha))) else None
  {
    var anyoneCanPay := c.hashType >= 128;
    var msg := [0, c.hashType] + I32(c.tx.version) + U32(c.tx.lockTime);
    ghost var m0 := msg;

    if !anyoneCanPay {
      var hashes := HashInputs(c, sha);
      msg := msg + hashes;
    }
    ghost var p1 := InputsPart(CommitInputs(c, sha));
    ghost var m1 := m0 + p1;
    assert msg == m1;

    if c.hashType % 32 != 2 && c.hashType % 32 != 3 {
      var outputs := JoinOutputs(c.tx.vout);
      msg := msg + sha(outputs);
    }
    ghost var p2 := HashPart(CommitOutputs(c, sha));
    ghost var m2 := m1 + p2;
    assert msg == m2;

    var spendType := [SpendType(c.extFlag, c.annex.Some?)];
    msg := msg + spendType;
    var whole := MessageEnd(msg, c, sha);
    if whole.Some? {
      Regroup(m0, p1, p2, spendType, ThisInputPart(CommitThisInput(c)), HashPart(CommitAnnex(c, sha)),
              HashPart(CommitSingle(c, sha)), LeafPart(CommitLeaf(c)));
    }
    return whole;
  }

  /** What follows the spend type. */
  method MessageEnd(front: Bytes, c: Call, sha: Sha) returns (r: Option<Bytes>)
    ensures r ==
      if c.Completes() then
        Some(front + ThisInputPart(CommitThisInput(c)) + HashPart(CommitAnnex(c, sha))
             + HashPart(CommitSingle(c, sha)) + LeafPart(CommitLeaf(c)))
      else None
  {
    var msg := front;
    if c.hashType >= 128 {
      if c.index >= |c.tx.vin| || c.index >= |c.amounts| || c.index >= |c.scripts| {
        return None;
      }
      var vin := c.tx.vin[c.index];
      var script := c.scripts[c.index];
      msg := msg + (vin.txid + U32(vin.vout) + I64(c.amounts[c.index]) + (Sized(script) + U32(vin.sequence)));
    } else {
      msg := msg + U32(c.index);
    }
    ghost var m4 := msg;

    if c.annex.Some? {
      msg := msg + sha(CompactSize(|c.annex.value|) + c.annex.value);
    }
    ghost var p5 := HashPart(CommitAnnex(c, sha));
    ghost var m5 := m4 + p5;
    assert msg == m5;

    if c.hashType % 32 == 3 {
      if c.index < |c.tx.vout| {
        var vout := c.tx.vout[c.index];
        msg := msg + sha(I64(vout.value) + (CompactSize(|vout.script|) + vout.script));
      } else {
        msg := msg + Repeat(0, 32);
      }
    }
    ghost var p6 := HashPart(CommitSingle(c, sha));
    ghost var m6 := m5 + p6;
    assert msg == m6;

    if c.extFlag == 1 {
      if c.tapleaf.None? {
        return None;
      }
      msg := msg + (c.tapleaf.value + ([0] + U32(c.codesepPos)));
    }
    assert msg == m6 + LeafPart(CommitLeaf(c));
    return Some(msg);
  }

  // ---------------------------------------------------------------------------
  // Calls with the same message
  // ---------------------------------------------------------------------------

  lemma AmountsInjective(xs: seq<Int64>, ys: seq<Int64>)
    requires AmountString(xs) == AmountString(ys)
    ensures xs == ys
  {
    var read := (b: Bytes) => if |b| < 8 then None else Some((ReadI64(b[..8]), b[8..]));
    forall v: Int64, rest: Bytes ensures read(I64(v) + rest) == Some((v, rest)) {
      BytesRoundTrip(I64(v), rest);
      FixedWidthRoundTrip(0, v);
    }
    JoinedInjective(I64, read, xs, ys);
  }

  lemma ScriptsInjective(xs: seq<Script>, ys: seq<Script>)
    requires ScriptString(xs) == ScriptString(ys)
    ensures xs == ys
  {
    forall v: Script, rest: Bytes ensures ReadSized(Sized(v) + rest) == Some((v, rest)) {
      SizedRoundTrip(v, rest);
    }
    JoinedInjective(Sized, ReadSized, xs, ys);
  }

  lemma OutputsInjective(xs: seq<TxOut>, ys: seq<TxOut>)
    requires Outs(xs) == Outs(ys)
    ensures xs == ys
  {
    OutsReadable();
    JoinedInjective(OutBytes, ReadOut, xs, ys);
  }

  /** Same outpoint and same sequence, the parts of an input the message can commit to. */
  predicate SameSpend(v: TxIn, w: TxIn) {
    v.txid == w.txid && v.vout == w.vout && v.sequence == w.sequence
  }

  lemma {:induction false} InputsInjective(xs: seq<TxIn>, ys: seq<TxIn>)
    requires OutpointString(xs) == OutpointString(ys) && SequenceString(xs) == SequenceString(ys)
    ensures |xs| == |ys| && forall i :: 0 <= i < |xs| ==> SameSpend(xs[i], ys[i])
  {
    var f := (v: TxIn) => U32(v.sequence);
    if xs != [] && ys != [] {
      var x, y := xs[0], ys[0];
      assert Outpoint(x) == OutpointString(xs)[..36] && Outpoint(y) == OutpointString(ys)[..36];
      assert Joined(Outpoint, xs[1..]) == OutpointString(xs)[36..];
      assert Joined(Outpoint, ys[1..]) == OutpointString(ys)[36..];
      assert U32(x.sequence) == SequenceString(xs)[..4] && U32(y.sequence) == SequenceString(ys)[..4];
      assert Joined(f, xs[1..]) == SequenceString(xs)[4..] && Joined(f, ys[1..]) == SequenceString(ys)[4..];
      SpendFromBytes(x, y);
      InputsInjective(xs[1..], ys[1..]);
      assert xs == [x] + xs[1..] && ys == [y] + ys[1..];
    }
  }

  lemma SpendFromBytes(x: TxIn, y: TxIn)
    requires Outpoint(x) == Outpoint(y) && U32(x.sequence) == U32(y.sequence)
    ensures SameSpend(x, y)
  {
    assert x.txid == Outpoint(x)[..32] && y.txid == Outpoint(y)[..32];
    assert U32(x.vout) == Outpoint(x)[32..] && U32(y.vout) == Outpoint(y)[32..];
    FixedWidthRoundTrip(x.vout, 0);
    FixedWidthRoundTrip(y.vout, 0);
    FixedWidthRoundTrip(x.sequence, 0);
    FixedWidthRoundTrip(y.sequence, 0);
  }

  /** SHA-256 does not collide on these two strings. */
  predicate Distinguishes(sha: Sha, x: Bytes, y: Bytes) {
    sha(x) == sha(y) ==> x == y
  }

  /** Nor does a matching output hash to the zeros that stand for a missing one. */
  predicate NoZeroDigest(sha: Sha, c: Call) {
    IsSingle(c.hashType) && c.index < |c.tx.vout| ==> sha(OutBytes(c.tx.vout[c.index])) != NO_OUTPUT
  }

  predicate DistinguishesCalls(sha: Sha, a: Call, b: Call) {
    && NoZeroDigest(sha, a) && NoZeroDigest(sha, b)
    && Distinguishes(sha, OutpointString(a.tx.vin), OutpointString(b.tx.vin))
    && Distinguishes(sha, SequenceString(a.tx.vin), SequenceString(b.tx.vin))
    && Distinguishes(sha, AmountString(a.amounts), AmountString(b.amounts))
    && Distinguishes(sha, ScriptString(a.scripts), ScriptString(b.scripts))
    && Distinguishes(sha, Outs(a.tx.vout), Outs(b.tx.vout))
    && (a.annex.Some? && b.annex.Some? ==> Distinguishes(sha, Sized(a.annex.value), Sized(b.annex.value)))
    && (a.index < |a.tx.vout| && b.index < |b.tx.vout| ==>
         Distinguishes(sha, OutBytes(a.tx.vout[a.index]), OutBytes(b.tx.vout[b.index])))
  }

  /** Agreement on everything the hash type of the first call covers. */
  predicate SameContents(a: Call, b: Call)
    requires a.Completes() && b.Completes()
  {
    && a.hashType == b.hashType
    && a.tx.version == b.tx.version
    && a.tx.lockTime == b.tx.lockTime
    && a.extFlag == b.extFlag
    && a.annex == b.annex
    && (if AnyoneCanPay(a.hashType) then
          && SameSpend(a.tx.vin[a.index], b.tx.vin[b.index])
          && a.amounts[a.index] == b.amounts[b.index]
          && a.scripts[a.index] == b.scripts[b.index]
        else
          && |a.tx.vin| == |b.tx.vin|
          && (forall i :: 0 <= i < |a.tx.vin| ==> SameSpend(a.tx.vin[i], b.tx.vin[i]))
          && a.amounts == b.amounts
          && a.scripts == b.scripts
          && a.index == b.index)
    && (!IsNone(a.hashType) && !IsSingle(a.hashType) ==> a.tx.vout == b.tx.vout)
    && (IsSingle(a.hashType) ==>
         && (a.index < |a.tx.vout| <==> b.index < |b.tx.vout|)
         && (a.index < |a.tx.vout| ==> a.tx.vout[a.index] == b.tx.vout[b.index]))
    && (a.extFlag == 1 ==> a.tapleaf == b.tapleaf && a.codesepPos == b.codesepPos)
  }

  /** Two calls with the same message agree on all of it, unless SHA-256 collides on their strings. */
  lemma MessageDeterminesContents(a: Call, b: Call, sha: Sha)
    requires a.Completes() && b.Completes() && DistinguishesCalls(sha, a, b)
    requires Serialize(Commit(a, sha)) == Serialize(Commit(b, sha))
    ensures SameContents(a, b)
  {
    ParseInvertsSerialize(Commit(a, sha));
    ParseInvertsSerialize(Commit(b, sha));
    assert Commit(a, sha) == Commit(b, sha);
    CommitDeterminesContents(a, b, sha);
  }

  lemma CommitDeterminesContents(a: Call, b: Call, sha: Sha)
    requires a.Completes() && b.Completes() && DistinguishesCalls(sha, a, b)
    requires Commit(a, sha) == Commit(b, sha)
    ensures SameContents(a, b)
  {
    if !AnyoneCanPay(a.hashType) {
      InputsInjective(a.tx.vin, b.tx.vin);
      AmountsInjective(a.amounts, b.amounts);
      ScriptsInjective(a.scripts, b.scripts);
    }
    if !IsNone(a.hashType) && !IsSingle(a.hashType) {
      OutputsInjective(a.tx.vout, b.tx.vout);
    }
    if IsSingle(a.hashType) && a.index < |a.tx.vout| && b.index < |b.tx.vout| {
      OutRoundTrip(a.tx.vout[a.index], []);
      OutRoundTrip(b.tx.vout[b.index], []);
    }
    if a.annex.Some? {
      SizedRoundTrip(a.annex.value, []);
      SizedRoundTrip(b.annex.value, []);
    }
  }

  // ---------------------------------------------------------------------------
  // The hash that is signed
  // ---------------------------------------------------------------------------

  /** The hash of BIP 340: the digest of the tag twice, then the message. */
  function TaggedHash(sha: Sha, tag: Bytes, msg: Bytes): Hash {
    sha(sha(tag) + sha(tag) + msg)
  }

  method TaprootSighash(c: Call, tag: Bytes, sha: Sha) returns (r: Option<Hash>)
    ensures r == if c.Completes() then Some(TaggedHash(sha, tag, Serialize(Commit(c, sha)))) else None
  {
    var msg := Message(c, sha);
    if msg.None? {
      return None;
    }
    return Some(TaggedHash(sha, tag, msg.value));
  }

  /** A signature over one call is a signature over another only if they agree on all it covers. */
  lemma SighashDeterminesContents(a: Call, b: Call, tag: Bytes, sha: Sha)
    requires a.Completes() && b.Completes() && DistinguishesCalls(sha, a, b)
    requires Distinguishes(sha, sha(tag) + sha(tag) + Serialize(Commit(a, sha)),
                           sha(tag) + sha(tag) + Serialize(Commit(b, sha)))
    requires TaggedHash(sha, tag, Serialize(Commit(a, sha))) == TaggedHash(sha, tag, Serialize(Commit(b, sha)))
    ensures SameContents(a, b)
  {
    SameTail(sha(tag) + sha(tag), Serialize(Commit(a, sha)), Serialize(Commit(b, sha)));
    MessageDeterminesContents(a, b, sha);
  }

  lemma SameTail(front: Bytes, x: Bytes, y: Bytes)
    requires front + x == front + y
    ensures x == y
  {
    assert x == (front + x)[|front|..] && y == (front + y)[|front|..];
  }
}
