/**
 The K assembly of the taproot message: it reads a serialized transaction and a blob of
 prevouts by offset and streams the field hashes through the hooks. On serialized input
 it builds the message that `_taproot_sighash` builds from the parsed transaction.
 */
module KTaproot {
  import opened ByteStrings
  import opened Wire
  import opened SighashHooks
  import opened TaprootMessage
  import opened HookWire

  // ---------------------------------------------------------------------------
  // Finding fields by offset
  // ---------------------------------------------------------------------------

  /** An unsigned little-endian number read and written back in the same width. */
  function Reencoded(b: Bytes, o: nat, width: nat): Option<Bytes> {
    var field :- SubstrBytes(b, o, o + width);
    Some(LeBytes(LeValue(field), width))
  }

  lemma ReencodedIsField(b: Bytes, o: nat, width: nat)
    requires o + width <= |b|
    ensures Reencoded(b, o, width) == Some(b[o..o + width])
  {
    LeBytesOfValue(b[o..o + width]);
  }

  /** Past the version, and past marker and flag if they are there. */
  function VinOffset(tx: Bytes): nat {
    if |tx| >= 6 && tx[4] == 0 && tx[5] == 1 then 6 else 4
  }

  /** A count and where the records after it start. */
  function Counted(b: Bytes, o: nat): Option<(nat, nat)> {
    var (n, w) :- CompactSizeAt(b, o);
    Some((n, o + w))
  }

  function VinLens(b: Bytes): nat -> Option<nat> {
    (o: nat) => KVinLen(b, o)
  }

  function VoutLens(b: Bytes): nat -> Option<nat> {
    (o: nat) => KVoutLen(b, o)
  }

  /** Count and start of the inputs. */
  function Vins(tx: Bytes): Option<(nat, nat)> {
    Counted(tx, VinOffset(tx))
  }

  /** Count and start of the outputs, found by skipping every input. */
  function VoutsOf(tx: Bytes): Option<(nat, nat)> {
    var (n, o) :- Vins(tx);
    var end :- Skip(VinLens(tx), o, n);
    Counted(tx, end)
  }

  function VinAt(tx: Bytes, i: nat): Option<nat> {
    var (_, o) :- Vins(tx);
    Skip(VinLens(tx), o, i)
  }

  function VinOutpoint(tx: Bytes, i: nat): Option<Bytes> {
    var at :- VinAt(tx, i);
    SubstrBytes(tx, at, at + 36)
  }

  function VinSequence(tx: Bytes, i: nat): Option<Bytes> {
    var at :- VinAt(tx, i);
    var len :- KVinLen(tx, at);
    Reencoded(tx, at + len - 4, 4)
  }

  function VoutSerialized(tx: Bytes, i: nat): Option<Bytes> {
    var (_, o) :- VoutsOf(tx);
    var at :- Skip(VoutLens(tx), o, i);
    var len :- KVoutLen(tx, at);
    SubstrBytes(tx, at, at + len)
  }

  function PrevoutAmount(prevouts: Bytes, i: nat): Option<Bytes> {
    var at :- Skip(VoutLens(prevouts), 0, i);
    Reencoded(prevouts, at, 8)
  }

  function PrevoutScript(prevouts: Bytes, i: nat): Option<Bytes> {
    var at :- Skip(VoutLens(prevouts), 0, i);
    var len :- KVoutLen(prevouts, at);
    SubstrBytes(prevouts, at + 8, at + len)
  }

  // ---------------------------------------------------------------------------
  // The blocks of the message
  // ---------------------------------------------------------------------------

  /** The two low bits, where the Python code takes five; 0 counts as ALL. */
  function KBase(hashType: Byte): nat {
    if hashType == 0 then 1 else hashType % 4
  }

  /** The top bit. */
  predicate KAnyoneCanPay(hashType: Byte) {
    128 <= hashType
  }

  /** Bit 1 for a leaf, bit 0 for an annex. */
  function KSpendType(leaf: bool, annex: bool): Byte {
    if leaf then (if annex then 3 else 2) else if annex then 1 else 0
  }

  /** Leaf hash, key version 0, position. */
  function KLeaf(leaf: Option<Leaf>): Bytes {
    if leaf.None? then [] else leaf.value.hash + ([0] + LeBytes(leaf.value.codesepPos, 4))
  }

  /** A digest of what a hook feeds to a fresh state. */
  function Streamed(sha: Sha, h: Hook, b: Bytes, o: nat, n: nat): Hash {
    sha(HookRun(h, [], b, o, n))
  }

  function BlockPrevouts(sha: Sha, tx: Bytes, prevouts: Bytes, hashType: Byte): Option<Bytes> {
    var (n, o) :- Vins(tx);
    if KAnyoneCanPay(hashType) then Some([])
    else Some(Streamed(sha, Outpoints, tx, o, n) + Streamed(sha, PrevoutAmounts, prevouts, 0, n) +
              Streamed(sha, PrevoutScripts, prevouts, 0, n) + Streamed(sha, Sequences, tx, o, n))
  }

  function BlockOutputs(sha: Sha, tx: Bytes, hashType: Byte): Option<Bytes> {
    if KBase(hashType) == 2 || KBase(hashType) == 3 then Some([])
    else
      var (n, o) :- VoutsOf(tx);
      Some(Streamed(sha, Vouts, tx, o, n))
  }

  function BlockInput(tx: Bytes, prevouts: Bytes, index: UInt32, hashType: Byte): Option<Bytes> {
    if !KAnyoneCanPay(hashType) then Some(U32(index))
    else
      var outpoint :- VinOutpoint(tx, index);
      var amount :- PrevoutAmount(prevouts, index);
      var script :- PrevoutScript(prevouts, index);
      var sequence :- VinSequence(tx, index);
      Some((outpoint + amount) + (script + sequence))
  }

  /** No annex is passed as the empty byte string. */
  function BlockAnnex(sha: Sha, annex: Bytes): Option<Bytes> {
    if annex == [] then Some([])
    else
      var size :- KCompactSize(|annex|);
      Some(sha(size + annex))
  }

  /** No rule covers SIGHASH_SINGLE without a matching output. */
  function BlockSingle(sha: Sha, tx: Bytes, index: UInt32, hashType: Byte): Option<Bytes> {
    if KBase(hashType) != 3 then Some([])
    else
      var (n, _) :- VoutsOf(tx);
      if index >= n then None
      else
        var vout :- VoutSerialized(tx, index);
        Some(sha(vout))
  }

  function AllParts(head: Bytes, inputs: Bytes, outputs: Bytes, spendType: Byte, thisInput: Bytes,
                    annexPart: Bytes, single: Bytes, leafPart: Bytes): Bytes {
    head + (inputs + (outputs + ([spendType] + (thisInput + (annexPart + (single + leafPart))))))
  }

  /** `#bip341Sighash` without a leaf, `#bip342Sighash` with one, before the tagged hash. */
  function KMessage(sha: Sha, tx: Bytes, prevouts: Bytes, index: UInt32, annex: Bytes, hashType: Byte,
                    leaf: Option<Leaf>): Option<Bytes> {
    var version :- Reencoded(tx, 0, 4);
    if |tx| < 4 then None else
    var lockTime :- Reencoded(tx, |tx| - 4, 4);
    var inputs :- BlockPrevouts(sha, tx, prevouts, hashType);
    var outputs :- BlockOutputs(sha, tx, hashType);
    var spendType := KSpendType(leaf.Some?, annex != []);
    var thisInput :- BlockInput(tx, prevouts, index, hashType);
    var annexPart :- BlockAnnex(sha, annex);
    var single :- BlockSingle(sha, tx, index, hashType);
    Some(AllParts([0, hashType] + version + lockTime, inputs, outputs, spendType,
                  thisInput, annexPart, single, KLeaf(leaf)))
  }

  // ---------------------------------------------------------------------------
  // Offsets in serialized data
  // ---------------------------------------------------------------------------

  lemma KVinLenOnWire(b: Bytes, o: nat, v: TxIn, rest: Bytes)
    requires StandsAt(b, o, InBytes, v, rest)
    ensures KVinLen(b, o) == Some(|InBytes(v)|)
  {
    InPieces(b, o, v, rest);
    CompactSizeReads(|v.scriptSig|, b, o + 36, v.scriptSig + (U32(v.sequence) + rest));
  }

  lemma KVoutLenOnWire(b: Bytes, o: nat, v: TxOut, rest: Bytes)
    requires StandsAt(b, o, OutBytes, v, rest)
    ensures KVoutLen(b, o) == Some(|OutBytes(v)|)
  {
    OutPieces(b, o, v, rest);
    CompactSizeReads(|v.script|, b, o + 8, v.script + rest);
  }

  ghost predicate Measures<T(!new)>(len: nat -> Option<nat>, b: Bytes, f: T -> Bytes) {
    forall o: nat, v: T, rest: Bytes :: StandsAt(b, o, f, v, rest) ==> len(o) == Some(|f(v)|)
  }

  /** Skipping n encoded records leads to the record with index n. */
  lemma {:induction false} SkipOnWire<T(!new)>(len: nat -> Option<nat>, b: Bytes, f: T -> Bytes,
                                               o: nat, vs: seq<T>, n: nat, post: Bytes)
    requires Measures(len, b, f) && o <= |b| && b[o..] == Joined(f, vs) + post && n <= |vs|
    ensures var at := Skip(len, o, n);
      at.Some? && at.value <= |b| && b[at.value..] == Joined(f, vs[n..]) + post
    decreases n
  {
    if n > 0 {
      var v, rest := vs[0], Joined(f, vs[1..]) + post;
      Assoc(f(v), Joined(f, vs[1..]), post);
      assert StandsAt(b, o, f, v, rest);
      assert |b[o..]| == |f(v)| + |rest|;
      assert b[o + |f(v)|..] == b[o..][|f(v)|..] == rest;
      SkipOnWire(len, b, f, o + |f(v)|, vs[1..], n - 1, post);
      assert vs[1..][n - 1..] == vs[n..];
    }
  }

  lemma SkipVinsOnWire(b: Bytes, o: nat, vs: seq<TxIn>, n: nat, post: Bytes)
    requires o <= |b| && b[o..] == Ins(vs) + post && n <= |vs|
    ensures var at := Skip(VinLens(b), o, n);
      at.Some? && at.value <= |b| && b[at.value..] == Ins(vs[n..]) + post
  {
    forall o: nat, v: TxIn, rest: Bytes | StandsAt(b, o, InBytes, v, rest) ensures VinLens(b)(o) == Some(|InBytes(v)|) {
      KVinLenOnWire(b, o, v, rest);
    }
    SkipOnWire(VinLens(b), b, InBytes, o, vs, n, post);
  }

  lemma SkipVoutsOnWire(b: Bytes, o: nat, vs: seq<TxOut>, n: nat, post: Bytes)
    requires o <= |b| && b[o..] == Outs(vs) + post && n <= |vs|
    ensures var at := Skip(VoutLens(b), o, n);
      at.Some? && at.value <= |b| && b[at.value..] == Outs(vs[n..]) + post
  {
    forall o: nat, v: TxOut, rest: Bytes | StandsAt(b, o, OutBytes, v, rest)
      ensures VoutLens(b)(o) == Some(|OutBytes(v)|)
    {
      KVoutLenOnWire(b, o, v, rest);
    }
    SkipOnWire(VoutLens(b), b, OutBytes, o, vs, n, post);
  }

  /** The record at an index, and where it stands. */
  lemma VinAtIndex(b: Bytes, o: nat, vs: seq<TxIn>, i: nat, post: Bytes)
    requires o <= |b| && b[o..] == Ins(vs) + post && i < |vs|
    ensures var at := Skip(VinLens(b), o, i);
      at.Some? && StandsAt(b, at.value, InBytes, vs[i], Ins(vs[i + 1..]) + post)
  {
    SkipVinsOnWire(b, o, vs, i, post);
    assert vs[i..][1..] == vs[i + 1..];
    Assoc(InBytes(vs[i]), Ins(vs[i + 1..]), post);
  }

  lemma VoutAtIndex(b: Bytes, o: nat, vs: seq<TxOut>, i: nat, post: Bytes)
    requires o <= |b| && b[o..] == Outs(vs) + post && i < |vs|
    ensures var at := Skip(VoutLens(b), o, i);
      at.Some? && StandsAt(b, at.value, OutBytes, vs[i], Outs(vs[i + 1..]) + post)
  {
    SkipVoutsOnWire(b, o, vs, i, post);
    assert vs[i..][1..] == vs[i + 1..];
    Assoc(OutBytes(vs[i]), Outs(vs[i + 1..]), post);
  }

  lemma VinPieces(b: Bytes, at: nat, v: TxIn, rest: Bytes)
    requires StandsAt(b, at, InBytes, v, rest)
    ensures SubstrBytes(b, at, at + 36) == Some(Outpoint(v))
    ensures var len := KVinLen(b, at);
      len == Some(|InBytes(v)|) && len.value >= 41 && Reencoded(b, at + len.value - 4, 4) == Some(U32(v.sequence))
  {
    KVinLenOnWire(b, at, v, rest);
    InPieces(b, at, v, rest);
    ReencodedIsField(b, at + |InBytes(v)| - 4, 4);
  }

  lemma VoutPieces(b: Bytes, at: nat, v: TxOut, rest: Bytes)
    requires StandsAt(b, at, OutBytes, v, rest)
    ensures Reencoded(b, at, 8) == Some(I64(v.value))
    ensures var len := KVoutLen(b, at);
      && len.Some?
      && SubstrBytes(b, at, at + len.value) == Some(OutBytes(v))
      && SubstrBytes(b, at + 8, at + len.value) == Some(Sized(v.script))
  {
    KVoutLenOnWire(b, at, v, rest);
    OutPieces(b, at, v, rest);
    ReencodedIsField(b, at, 8);
  }

  // ---------------------------------------------------------------------------
  // A serialized transaction
  // ---------------------------------------------------------------------------

  /** Marker, flag and witness data are there for the segwit form. */
  datatype Form = Plain | Segwit(stacks: Bytes)

  /** The counts can be written. */
  predicate Writable(tx: Tx) {
    |tx.vin| <= SIZE_MAX && |tx.vout| <= SIZE_MAX
  }

  function Head(tx: Tx, form: Form): Bytes {
    I32(tx.version) + if form.Segwit? then [0, 1] else []
  }

  function Foot(tx: Tx, form: Form): Bytes {
    (if form.Segwit? then form.stacks else []) + U32(tx.lockTime)
  }

  function OutsAndFoot(tx: Tx, form: Form): Bytes
    requires Writable(tx)
  {
    CompactSize(|tx.vout|) + (Outs(tx.vout) + Foot(tx, form))
  }

  function TxBytes(tx: Tx, form: Form): Bytes
    requires Writable(tx)
  {
    Head(tx, form) + (CompactSize(|tx.vin|) + (Ins(tx.vin) + OutsAndFoot(tx, form)))
  }

  lemma CountedOnWire(b: Bytes, o: nat, n: nat, rest: Bytes)
    requires n <= SIZE_MAX && o <= |b| && b[o..] == CompactSize(n) + rest
    ensures var o' := o + |CompactSize(n)|;
      Counted(b, o) == Some((n, o')) && o' <= |b| && b[o'..] == rest
  {
    CompactSizeReads(n, b, o, rest);
    assert |b[o..]| == |CompactSize(n)| + |rest|;
    assert b[o + |CompactSize(n)|..] == b[o..][|CompactSize(n)|..];
  }

  lemma MarkerIsNotACount(n: nat)
    requires 0 < n <= SIZE_MAX
    ensures CompactSize(n)[0] != 0
  {
  }

  lemma DropFront(front: Bytes, back: Bytes)
    ensures (front + back)[|front|..] == back
  {
  }

  predicate EndsWith(b: Bytes, last: Bytes) {
    |b| >= |last| && b[|b| - |last|..] == last
  }

  lemma EndsBehind(front: Bytes, back: Bytes, last: Bytes)
    requires EndsWith(back, last)
    ensures EndsWith(front + back, last)
  {
    var b := front + back;
    assert b[|b| - |last|..] == back[|back| - |last|..];
  }

  /** Marker and flag are told from a count, which does not begin with zero. */
  lemma OffsetAfterHead(version: Bytes, segwit: bool, c: Bytes, rest: Bytes)
    requires |version| == 4 && c != [] && c[0] != 0 && |rest| >= 4
    ensures var h := version + (if segwit then [0, 1] else []); var b := h + (c + rest);
      VinOffset(b) == |h| && |b| >= 8 && b[0..4] == version
  {
    var h := version + (if segwit then [0, 1] else []);
    var b := h + (c + rest);
    assert b[0..4] == version;
    if segwit {
      assert b[4] == h[4] && b[5] == h[5];
    } else {
      assert b[4] == (c + rest)[0];
    }
  }

  lemma FootOnWire(tx: Tx, form: Form)
    requires Writable(tx)
    ensures EndsWith(OutsAndFoot(tx, form), U32(tx.lockTime))
  {
    var last := U32(tx.lockTime);
    EndsBehind(if form.Segwit? then form.stacks else [], last, last);
    EndsBehind(Outs(tx.vout), Foot(tx, form), last);
    EndsBehind(CompactSize(|tx.vout|), Outs(tx.vout) + Foot(tx, form), last);
  }

  lemma BackOnWire(tx: Tx, form: Form)
    requires Writable(tx)
    ensures EndsWith(TxBytes(tx, form), U32(tx.lockTime))
  {
    var c, ins, foot, last := CompactSize(|tx.vin|), Ins(tx.vin), OutsAndFoot(tx, form), U32(tx.lockTime);
    FootOnWire(tx, form);
    EndsBehind(ins, foot, last);
    EndsBehind(c, ins + foot, last);
    EndsBehind(Head(tx, form), c + (ins + foot), last);
  }

  lemma HeadOnWire(tx: Tx, form: Form)
    requires Writable(tx) && tx.vin != []
    ensures var b := TxBytes(tx, form);
      && VinOffset(b) == |Head(tx, form)| && |b| >= 8
      && b[0..4] == I32(tx.version) && b[|b| - 4..] == U32(tx.lockTime)
  {
    BackOnWire(tx, form);
    FootOnWire(tx, form);
    MarkerIsNotACount(|tx.vin|);
    OffsetAfterHead(I32(tx.version), form.Segwit?, CompactSize(|tx.vin|), Ins(tx.vin) + OutsAndFoot(tx, form));
  }

  /** Where the readers find counts and records in b. */
  predicate LaidOut(b: Bytes, tx: Tx, inPost: Bytes, outPost: Bytes) {
    var ins, outs := Vins(b), VoutsOf(b);
    && ins.Some? && ins.value.0 == |tx.vin|
    && ins.value.1 <= |b| && b[ins.value.1..] == Ins(tx.vin) + inPost
    && outs.Some? && outs.value.0 == |tx.vout|
    && outs.value.1 <= |b| && b[outs.value.1..] == Outs(tx.vout) + outPost
  }

  lemma VinsOnWire(tx: Tx, form: Form)
    requires Writable(tx) && tx.vin != []
    ensures var b := TxBytes(tx, form);
      && Vins(b).Some? && Vins(b).value.0 == |tx.vin|
      && Vins(b).value.1 <= |b| && b[Vins(b).value.1..] == Ins(tx.vin) + OutsAndFoot(tx, form)
  {
    var b, h, rest := TxBytes(tx, form), Head(tx, form), Ins(tx.vin) + OutsAndFoot(tx, form);
    HeadOnWire(tx, form);
    DropFront(h, CompactSize(|tx.vin|) + rest);
    CountedOnWire(b, |h|, |tx.vin|, rest);
  }

  lemma SkipAllVins(b: Bytes, o: nat, vs: seq<TxIn>, post: Bytes)
    requires o <= |b| && b[o..] == Ins(vs) + post
    ensures var at := Skip(VinLens(b), o, |vs|); at.Some? && at.value <= |b| && b[at.value..] == post
  {
    SkipVinsOnWire(b, o, vs, |vs|, post);
    assert vs[|vs|..] == [] && [] + post == post;
  }

  lemma VoutsAfterVins(b: Bytes, o: nat, vin: seq<TxIn>, n: nat, rest: Bytes)
    requires Vins(b) == Some((|vin|, o)) && n <= SIZE_MAX
    requires o <= |b| && b[o..] == Ins(vin) + (CompactSize(n) + rest)
    ensures VoutsOf(b).Some? && VoutsOf(b).value.0 == n
    ensures VoutsOf(b).value.1 <= |b| && b[VoutsOf(b).value.1..] == rest
  {
    SkipAllVins(b, o, vin, CompactSize(n) + rest);
    CountedOnWire(b, Skip(VinLens(b), o, |vin|).value, n, rest);
  }

  lemma TxLaidOut(tx: Tx, form: Form)
    requires Writable(tx) && tx.vin != []
    ensures LaidOut(TxBytes(tx, form), tx, OutsAndFoot(tx, form), Foot(tx, form))
  {
    VinsOnWire(tx, form);
    var b := TxBytes(tx, form);
    VoutsAfterVins(b, Vins(b).value.1, tx.vin, |tx.vout|, Outs(tx.vout) + Foot(tx, form));
  }

  lemma VinFieldsAt(b: Bytes, i: nat, at: nat, v: TxIn, rest: Bytes)
    requires VinAt(b, i) == Some(at) && StandsAt(b, at, InBytes, v, rest)
    ensures VinOutpoint(b, i) == Some(Outpoint(v)) && VinSequence(b, i) == Some(U32(v.sequence))
  {
    VinPieces(b, at, v, rest);
  }

  /** The fields of one input, found by its index. */
  lemma VinFieldsOnWire(b: Bytes, tx: Tx, i: nat, inPost: Bytes, outPost: Bytes)
    requires LaidOut(b, tx, inPost, outPost) && i < |tx.vin|
    ensures VinOutpoint(b, i) == Some(Outpoint(tx.vin[i]))
    ensures VinSequence(b, i) == Some(U32(tx.vin[i].sequence))
  {
    var o := Vins(b).value.1;
    VinAtIndex(b, o, tx.vin, i, inPost);
    VinFieldsAt(b, i, Skip(VinLens(b), o, i).value, tx.vin[i], Ins(tx.vin[i + 1..]) + inPost);
  }

  lemma VoutSerializedAt(b: Bytes, i: nat, o: nat, at: nat, v: TxOut, rest: Bytes)
    requires VoutsOf(b).Some? && VoutsOf(b).value.1 == o && Skip(VoutLens(b), o, i) == Some(at)
    requires StandsAt(b, at, OutBytes, v, rest)
    ensures VoutSerialized(b, i) == Some(OutBytes(v))
  {
    VoutPieces(b, at, v, rest);
  }

  lemma VoutOnWire(b: Bytes, tx: Tx, i: nat, inPost: Bytes, outPost: Bytes)
    requires LaidOut(b, tx, inPost, outPost) && i < |tx.vout|
    ensures VoutSerialized(b, i) == Some(OutBytes(tx.vout[i]))
  {
    var o := VoutsOf(b).value.1;
    VoutAtIndex(b, o, tx.vout, i, outPost);
    VoutSerializedAt(b, i, o, Skip(VoutLens(b), o, i).value, tx.vout[i], Outs(tx.vout[i + 1..]) + outPost);
  }

  lemma PrevoutFieldsAt(b: Bytes, i: nat, at: nat, v: TxOut, rest: Bytes)
    requires Skip(VoutLens(b), 0, i) == Some(at) && StandsAt(b, at, OutBytes, v, rest)
    ensures PrevoutAmount(b, i) == Some(I64(v.value)) && PrevoutScript(b, i) == Some(Sized(v.script))
  {
    VoutPieces(b, at, v, rest);
  }

  lemma PrevoutOnWire(b: Bytes, ps: seq<TxOut>, i: nat)
    requires b[0..] == Outs(ps) + [] && i < |ps|
    ensures PrevoutAmount(b, i) == Some(I64(ps[i].value))
    ensures PrevoutScript(b, i) == Some(Sized(ps[i].script))
  {
    VoutAtIndex(b, 0, ps, i, []);
    PrevoutFieldsAt(b, i, Skip(VoutLens(b), 0, i).value, ps[i], Outs(ps[i + 1..]) + []);
  }

  // ---------------------------------------------------------------------------
  // The two messages
  // ---------------------------------------------------------------------------

  /** Two bits of the hash type and five of it name the same base type. */
  predicate BasesAgree(hashType: Byte) {
    hashType % 4 < 2 || hashType % 32 < 4
  }

  /** A transaction, its prevouts and the rest of a call, as both sides receive them. */
  datatype Spend = Spend(
    tx: Tx, form: Form, prevouts: seq<TxOut>, index: UInt32, hashType: Byte,
    annex: Option<Script>, leaf: Option<Leaf>)
  {
    predicate Valid() {
      && |tx.vin| == |prevouts| && index < |tx.vin|
      && Writable(tx) && |TxBytes(tx, form)| <= MAX_LENGTH && |Outs(prevouts)| <= MAX_LENGTH
      && (annex.Some? ==> annex.value != [] && |annex.value| <= 0xFFFF_FFFF)
    }

    function PythonCall(): Call {
      Call(tx, index, hashType, if leaf.Some? then 1 else 0, Scripts(prevouts), Values(prevouts), annex,
           if leaf.Some? then Some(leaf.value.hash) else None,
           if leaf.Some? then leaf.value.codesepPos else 0xFFFF_FFFF)
    }

    function KAnnex(): Bytes {
      if annex.Some? then annex.value else []
    }

    function KSide(sha: Sha): Option<Bytes>
      requires Writable(tx)
    {
      KMessage(sha, TxBytes(tx, form), Outs(prevouts), index, KAnnex(), hashType, leaf)
    }
  }

  lemma FreshFeed(sha: Sha, h: Hook, b: Bytes, o: nat, n: nat, x: Bytes)
    requires HookRun(h, [], b, o, n) == [] + x
    ensures Streamed(sha, h, b, o, n) == sha(x)
  {
    assert [] + x == x;
  }

  lemma StreamedInputs(b: Bytes, o: nat, vin: seq<TxIn>, sha: Sha, post: Bytes)
    requires o <= |b| <= MAX_LENGTH && b[o..] == Ins(vin) + post
    ensures Streamed(sha, Outpoints, b, o, |vin|) == sha(OutpointString(vin))
    ensures Streamed(sha, Sequences, b, o, |vin|) == sha(SequenceString(vin))
  {
    InputStreamsMatch([], b, o, vin, post);
    FreshFeed(sha, Outpoints, b, o, |vin|, OutpointString(vin));
    FreshFeed(sha, Sequences, b, o, |vin|, SequenceString(vin));
  }

  lemma StreamedPrevouts(ps: seq<TxOut>, sha: Sha)
    requires |Outs(ps)| <= MAX_LENGTH
    ensures Streamed(sha, PrevoutAmounts, Outs(ps), 0, |ps|) == sha(AmountString(Values(ps)))
    ensures Streamed(sha, PrevoutScripts, Outs(ps), 0, |ps|) == sha(ScriptString(Scripts(ps)))
  {
    PrevoutStreamsMatch([], ps);
    FreshFeed(sha, PrevoutAmounts, Outs(ps), 0, |ps|, AmountString(Values(ps)));
    FreshFeed(sha, PrevoutScripts, Outs(ps), 0, |ps|, ScriptString(Scripts(ps)));
  }

  lemma InputsBlockMatches(b: Bytes, s: Spend, sha: Sha, inPost: Bytes, outPost: Bytes)
    requires LaidOut(b, s.tx, inPost, outPost) && s.Valid() && |b| <= MAX_LENGTH
    ensures BlockPrevouts(sha, b, Outs(s.prevouts), s.hashType) == Some(InputsPart(CommitInputs(s.PythonCall(), sha)))
  {
    StreamedInputs(b, Vins(b).value.1, s.tx.vin, sha, inPost);
    StreamedPrevouts(s.prevouts, sha);
  }

  lemma BaseNames(hashType: Byte)
    ensures BasesAgree(hashType) <==>
      (KBase(hashType) == 2 <==> IsNone(hashType)) && (KBase(hashType) == 3 <==> IsSingle(hashType))
  {
  }

  lemma StreamedOutputs(b: Bytes, o: nat, vout: seq<TxOut>, sha: Sha, post: Bytes)
    requires o <= |b| <= MAX_LENGTH && b[o..] == Outs(vout) + post
    ensures Streamed(sha, Vouts, b, o, |vout|) == sha(Outs(vout))
  {
    OutputStreamMatches([], b, o, vout, post);
    FreshFeed(sha, Vouts, b, o, |vout|, Outs(vout));
  }

  lemma OutputsBlockMatches(b: Bytes, s: Spend, sha: Sha, inPost: Bytes, outPost: Bytes)
    requires LaidOut(b, s.tx, inPost, outPost) && BasesAgree(s.hashType) && |b| <= MAX_LENGTH
    ensures BlockOutputs(sha, b, s.hashType) == Some(HashPart(CommitOutputs(s.PythonCall(), sha)))
  {
    BaseNames(s.hashType);
    StreamedOutputs(b, VoutsOf(b).value.1, s.tx.vout, sha, outPost);
  }

  lemma {:induction false} PrevoutLists(ps: seq<TxOut>, i: nat)
    requires i < |ps|
    ensures Values(ps)[i] == ps[i].value && Scripts(ps)[i] == ps[i].script
  {
    if i > 0 {
      PrevoutLists(ps[1..], i - 1);
    }
  }

  lemma InputBlockMatches(b: Bytes, s: Spend, inPost: Bytes, outPost: Bytes)
    requires LaidOut(b, s.tx, inPost, outPost) && s.Valid()
    ensures BlockInput(b, Outs(s.prevouts), s.index, s.hashType)
      == Some(ThisInputPart(CommitThisInput(s.PythonCall())))
  {
    if AnyoneCanPay(s.hashType) {
      VinFieldsOnWire(b, s.tx, s.index, inPost, outPost);
      assert Outs(s.prevouts)[0..] == Outs(s.prevouts) + [];
      PrevoutOnWire(Outs(s.prevouts), s.prevouts, s.index);
      PrevoutLists(s.prevouts, s.index);
    }
  }

  lemma SingleBlockMatches(b: Bytes, s: Spend, sha: Sha, inPost: Bytes, outPost: Bytes)
    requires LaidOut(b, s.tx, inPost, outPost) && BasesAgree(s.hashType)
    ensures BlockSingle(sha, b, s.index, s.hashType) ==
      if IsSingle(s.hashType) && s.index >= |s.tx.vout| then None
      else Some(HashPart(CommitSingle(s.PythonCall(), sha)))
  {
    BaseNames(s.hashType);
    if s.index < |s.tx.vout| {
      VoutOnWire(b, s.tx, s.index, inPost, outPost);
    }
  }

  lemma AnnexBlockMatches(s: Spend, sha: Sha)
    requires s.Valid()
    ensures BlockAnnex(sha, s.KAnnex()) == Some(HashPart(CommitAnnex(s.PythonCall(), sha)))
  {
  }

  /**
   Both sides hash the same message, except that K has none for SIGHASH_SINGLE without a
   matching output, where the Python code commits to 32 zero bytes.
   */
  lemma MessagesAgree(s: Spend, sha: Sha)
    requires s.Valid() && BasesAgree(s.hashType)
    ensures s.PythonCall().Completes()
    ensures s.KSide(sha) ==
      if IsSingle(s.hashType) && s.index >= |s.tx.vout| then None
      else Some(Serialize(Commit(s.PythonCall(), sha)))
  {
    var b := TxBytes(s.tx, s.form);
    HeadOnWire(s.tx, s.form);
    TxLaidOut(s.tx, s.form);
    PartsAgree(b, s, sha, OutsAndFoot(s.tx, s.form), Foot(s.tx, s.form));
    PythonAssembles(s, sha);
  }

  /**
   Where K reads NONE in two bits and the Python code reads no such base in five, the K
   message lacks the hash over the outputs.
   */
  lemma MessagesDiffer(s: Spend, sha: Sha)
    requires s.Valid() && !BasesAgree(s.hashType) && s.hashType % 4 == 2
    ensures s.KSide(sha).Some? && |s.KSide(sha).value| + 32 == |Serialize(Commit(s.PythonCall(), sha))|
  {
    var b := TxBytes(s.tx, s.form);
    HeadOnWire(s.tx, s.form);
    TxLaidOut(s.tx, s.form);
    KWithoutOutputs(b, s, sha, OutsAndFoot(s.tx, s.form), Foot(s.tx, s.form));
    PythonAssembles(s, sha);
  }

  lemma KWithoutOutputs(b: Bytes, s: Spend, sha: Sha, inPost: Bytes, outPost: Bytes)
    requires LaidOut(b, s.tx, inPost, outPost) && s.Valid() && !BasesAgree(s.hashType) && s.hashType % 4 == 2
    requires 8 <= |b| <= MAX_LENGTH && b[0..4] == I32(s.tx.version) && b[|b| - 4..] == U32(s.tx.lockTime)
    ensures var k := KMessage(sha, b, Outs(s.prevouts), s.index, s.KAnnex(), s.hashType, s.leaf);
      k.Some? && |k.value| + 32 == |PythonParts(s, sha)|
  {
    var c := s.PythonCall();
    EndsReencoded(b, I32(s.tx.version), U32(s.tx.lockTime));
    InputsBlockMatches(b, s, sha, inPost, outPost);
    InputBlockMatches(b, s, inPost, outPost);
    AnnexBlockMatches(s, sha);
    KAssembles(sha, b, Outs(s.prevouts), s.index, s.KAnnex(), s.hashType, s.leaf,
               I32(c.tx.version), U32(c.tx.lockTime), InputsPart(CommitInputs(c, sha)),
               [], ThisInputPart(CommitThisInput(c)), HashPart(CommitAnnex(c, sha)));
  }

  /** What stands between the outputs and the single output in both messages. */
  function Middle(s: Spend, sha: Sha): Bytes
    requires s.Valid()
  {
    var c := s.PythonCall();
    [SpendType(c.extFlag, c.annex.Some?)] + (ThisInputPart(CommitThisInput(c)) + HashPart(CommitAnnex(c, sha)))
  }

  /**
   The digest of all outputs before the middle part and that of the matching output after
   it are the same bytes.
   */
  predicate Coincide(s: Spend, sha: Sha)
    requires s.Valid() && s.index < |s.tx.vout|
  {
    var mid := Middle(s, sha);
    sha(Outs(s.tx.vout)) + mid == mid + sha(OutBytes(s.tx.vout[s.index]))
  }

  /**
   Where K reads SINGLE in two bits and the Python code reads no such base in five, K
   commits to one output behind the middle part, Python to all before it.
   */
  lemma MessagesShift(s: Spend, sha: Sha)
    requires s.Valid() && !BasesAgree(s.hashType) && s.hashType % 4 == 3
    ensures s.index >= |s.tx.vout| ==> s.KSide(sha) == None
    ensures s.index < |s.tx.vout| ==>
      (s.KSide(sha) == Some(Serialize(Commit(s.PythonCall(), sha))) <==> Coincide(s, sha))
  {
    var b := TxBytes(s.tx, s.form);
    HeadOnWire(s.tx, s.form);
    TxLaidOut(s.tx, s.form);
    KWithSingle(b, s, sha, OutsAndFoot(s.tx, s.form), Foot(s.tx, s.form));
    PythonAssembles(s, sha);
    if s.index < |s.tx.vout| {
      var c := s.PythonCall();
      Shifted(Preamble(Commit(c, sha)), InputsPart(CommitInputs(c, sha)), sha(Outs(s.tx.vout)),
              SpendType(c.extFlag, c.annex.Some?), ThisInputPart(CommitThisInput(c)),
              HashPart(CommitAnnex(c, sha)), sha(OutBytes(s.tx.vout[s.index])), LeafPart(s.leaf));
    }
  }

  lemma KWithSingle(b: Bytes, s: Spend, sha: Sha, inPost: Bytes, outPost: Bytes)
    requires LaidOut(b, s.tx, inPost, outPost) && s.Valid() && !BasesAgree(s.hashType) && s.hashType % 4 == 3
    requires 8 <= |b| <= MAX_LENGTH && b[0..4] == I32(s.tx.version) && b[|b| - 4..] == U32(s.tx.lockTime)
    ensures var c := s.PythonCall();
      KMessage(sha, b, Outs(s.prevouts), s.index, s.KAnnex(), s.hashType, s.leaf) ==
        if s.index >= |s.tx.vout| then None
        else Some(AllParts(Preamble(Commit(c, sha)), InputsPart(CommitInputs(c, sha)), [],
                           SpendType(c.extFlag, c.annex.Some?), ThisInputPart(CommitThisInput(c)),
                           HashPart(CommitAnnex(c, sha)), sha(OutBytes(s.tx.vout[s.index])), LeafPart(s.leaf)))
  {
    var c := s.PythonCall();
    EndsReencoded(b, I32(s.tx.version), U32(s.tx.lockTime));
    InputsBlockMatches(b, s, sha, inPost, outPost);
    InputBlockMatches(b, s, inPost, outPost);
    AnnexBlockMatches(s, sha);
    if s.index < |s.tx.vout| {
      VoutOnWire(b, s.tx, s.index, inPost, outPost);
    }
    KAssembles(sha, b, Outs(s.prevouts), s.index, s.KAnnex(), s.hashType, s.leaf,
               I32(c.tx.version), U32(c.tx.lockTime), InputsPart(CommitInputs(c, sha)),
               [], ThisInputPart(CommitThisInput(c)), HashPart(CommitAnnex(c, sha)));
  }

  /** Messages that differ only in a part that moves are equal exactly if the moved stretches are. */
  lemma Shifted(head: Bytes, inputs: Bytes, outputs: Bytes, spendType: Byte, thisInput: Bytes,
                annexPart: Bytes, single: Bytes, leafPart: Bytes)
    ensures AllParts(head, inputs, [], spendType, thisInput, annexPart, single, leafPart)
      == AllParts(head, inputs, outputs, spendType, thisInput, annexPart, [], leafPart)
      <==> outputs + ([spendType] + (thisInput + annexPart)) == [spendType] + (thisInput + annexPart) + single
  {
    var mid := [spendType] + (thisInput + annexPart);
    var x, y := mid + single, outputs + mid;
    var front := head + inputs;
    assert AllParts(head, inputs, [], spendType, thisInput, annexPart, single, leafPart) == front + (x + leafPart);
    assert AllParts(head, inputs, outputs, spendType, thisInput, annexPart, [], leafPart) == front + (y + leafPart);
    Cancel(front, x, y, leafPart);
  }

  lemma Cancel(front: Bytes, x: Bytes, y: Bytes, back: Bytes)
    ensures front + (x + back) == front + (y + back) <==> x == y
  {
    if front + (x + back) == front + (y + back) {
      SameTail(front, x + back, y + back);
      assert |x| == |y| && x == (x + back)[..|x|] && y == (y + back)[..|y|];
    }
  }

  /** K alone reads SINGLE, and moving one digest for the other leaves the same bytes. */
  predicate CoincideAnyway(s: Spend, sha: Sha)
    requires s.Valid()
  {
    s.hashType % 4 == 3 && !BasesAgree(s.hashType) && s.index < |s.tx.vout| && Coincide(s, sha)
  }

  /**
   Over every hash type: the two messages are equal if and only if both sides read the same
   base type and, for SINGLE, there is a matching output; or else K alone reads SINGLE and
   the two digests happen to coincide.
   */
  lemma MessagesEqualExactly(s: Spend, sha: Sha)
    requires s.Valid()
    ensures s.PythonCall().Completes()
    ensures s.KSide(sha) == Some(Serialize(Commit(s.PythonCall(), sha))) <==>
      || (BasesAgree(s.hashType) && !(IsSingle(s.hashType) && s.index >= |s.tx.vout|))
      || CoincideAnyway(s, sha)
  {
    if BasesAgree(s.hashType) {
      MessagesAgree(s, sha);
    } else if s.hashType % 4 == 2 {
      MessagesDiffer(s, sha);
    } else {
      MessagesShift(s, sha);
    }
  }

  lemma EndsReencoded(b: Bytes, version: Bytes, lockTime: Bytes)
    requires |b| >= 8 && b[0..4] == version && b[|b| - 4..] == lockTime
    ensures Reencoded(b, 0, 4) == Some(version) && Reencoded(b, |b| - 4, 4) == Some(lockTime)
  {
    ReencodedIsField(b, 0, 4);
    ReencodedIsField(b, |b| - 4, 4);
    assert b[|b| - 4..|b| - 4 + 4] == b[|b| - 4..];
  }

  lemma PartsAgree(b: Bytes, s: Spend, sha: Sha, inPost: Bytes, outPost: Bytes)
    requires LaidOut(b, s.tx, inPost, outPost) && s.Valid() && BasesAgree(s.hashType)
    requires 8 <= |b| <= MAX_LENGTH && b[0..4] == I32(s.tx.version) && b[|b| - 4..] == U32(s.tx.lockTime)
    ensures KMessage(sha, b, Outs(s.prevouts), s.index, s.KAnnex(), s.hashType, s.leaf) ==
      if IsSingle(s.hashType) && s.index >= |s.tx.vout| then None
      else Some(PythonParts(s, sha))
  {
    var c := s.PythonCall();
    EndsReencoded(b, I32(s.tx.version), U32(s.tx.lockTime));
    InputsBlockMatches(b, s, sha, inPost, outPost);
    OutputsBlockMatches(b, s, sha, inPost, outPost);
    InputBlockMatches(b, s, inPost, outPost);
    AnnexBlockMatches(s, sha);
    SingleBlockMatches(b, s, sha, inPost, outPost);
    KAssembles(sha, b, Outs(s.prevouts), s.index, s.KAnnex(), s.hashType, s.leaf,
               I32(c.tx.version), U32(c.tx.lockTime), InputsPart(CommitInputs(c, sha)),
               HashPart(CommitOutputs(c, sha)), ThisInputPart(CommitThisInput(c)), HashPart(CommitAnnex(c, sha)));
  }

  /** The K message from its blocks. */
  lemma KAssembles(sha: Sha, b: Bytes, prevouts: Bytes, index: UInt32, annex: Bytes, hashType: Byte,
                   leaf: Option<Leaf>, version: Bytes, lockTime: Bytes,
                   inputs: Bytes, outputs: Bytes, thisInput: Bytes, annexPart: Bytes)
    requires |b| >= 4 && Reencoded(b, 0, 4) == Some(version) && Reencoded(b, |b| - 4, 4) == Some(lockTime)
    requires BlockPrevouts(sha, b, prevouts, hashType) == Some(inputs)
    requires BlockOutputs(sha, b, hashType) == Some(outputs)
    requires BlockInput(b, prevouts, index, hashType) == Some(thisInput)
    requires BlockAnnex(sha, annex) == Some(annexPart)
    ensures KMessage(sha, b, prevouts, index, annex, hashType, leaf) ==
      var single := BlockSingle(sha, b, index, hashType);
      if single.None? then None
      else Some(AllParts([0, hashType] + version + lockTime, inputs, outputs,
                         SpendType(if leaf.Some? then 1 else 0, annex != []),
                         thisInput, annexPart, single.value, LeafPart(leaf)))
  {
  }

  /** The layout, part by part. */
  function PythonParts(s: Spend, sha: Sha): Bytes
    requires s.Valid()
  {
    var c := s.PythonCall();
    AllParts([0, s.hashType] + I32(s.tx.version) + U32(s.tx.lockTime), InputsPart(CommitInputs(c, sha)),
             HashPart(CommitOutputs(c, sha)), SpendType(if s.leaf.Some? then 1 else 0, s.KAnnex() != []),
             ThisInputPart(CommitThisInput(c)), HashPart(CommitAnnex(c, sha)),
             HashPart(CommitSingle(c, sha)), LeafPart(s.leaf))
  }

  lemma PythonAssembles(s: Spend, sha: Sha)
    requires s.Valid()
    ensures Serialize(Commit(s.PythonCall(), sha)) == PythonParts(s, sha)
  {
  }
}
