/**
 The streaming hooks on serialized records: what they feed is what the Python code
 concatenates for the taproot hashes, and the legacy blocks are the inputs and outputs
 of the modified transaction.
 */
module HookWire {
  import opened ByteStrings
  import opened Wire
  import opened SighashHooks
  import opened TaprootMessage

  // ---------------------------------------------------------------------------
  // What a hook takes from one record
  // ---------------------------------------------------------------------------

  /** Input i of the transaction that a legacy signature covers. */
  function ModifiedIn(h: Hook, v: TxIn, i: nat): TxIn
    requires h.LegacyVins?
  {
    if i == h.sigIdx then v.(scriptSig := h.scriptCode)
    else v.(scriptSig := [], sequence := if h.baseType == 2 || h.baseType == 3 then 0 else v.sequence)
  }

  /** Output j of it: under SIGHASH_SINGLE those below the index are placeholders. */
  function ModifiedOut(h: Hook, v: TxOut, j: nat): TxOut
    requires h.LegacyVouts?
  {
    if h.baseType == 3 && j < h.sigIdx then TxOut(-1, []) else v
  }

  function InField(h: Hook): (TxIn, nat) -> Bytes
    requires h.WalksInputs()
  {
    match h
    case Outpoints => (v: TxIn, i: nat) => Outpoint(v)
    case Sequences => (v: TxIn, i: nat) => U32(v.sequence)
    case LegacyVins(_, _, _) => (v: TxIn, i: nat) => InBytes(ModifiedIn(h, v, i))
  }

  function OutField(h: Hook): (TxOut, nat) -> Bytes
    requires !h.WalksInputs()
  {
    match h
    case Vouts => (v: TxOut, j: nat) => OutBytes(v)
    case PrevoutAmounts => (v: TxOut, j: nat) => I64(v.value)
    case PrevoutScripts => (v: TxOut, j: nat) => Sized(v.script)
    case LegacyVouts(_, _) => (v: TxOut, j: nat) => OutBytes(ModifiedOut(h, v, j))
  }

  /** The parts of consecutive records, the first of which has index i. */
  function Fields<T>(field: (T, nat) -> Bytes, vs: seq<T>, i: nat): Bytes
    decreases |vs|
  {
    if vs == [] then [] else field(vs[0], i) + Fields(field, vs[1..], i + 1)
  }

  // ---------------------------------------------------------------------------
  // One record on the wire
  // ---------------------------------------------------------------------------

  /** The pieces of a serialized input, by offset. */
  lemma InPieces(b: Bytes, o: nat, v: TxIn, rest: Bytes)
    requires o <= |b| && b[o..] == InBytes(v) + rest
    ensures var len := |InBytes(v)|;
      && len == 40 + |Sized(v.scriptSig)| && o + len <= |b|
      && b[o..o + 36] == Outpoint(v)
      && b[o + 36..] == CompactSize(|v.scriptSig|) + (v.scriptSig + (U32(v.sequence) + rest))
      && b[o + len - 4..o + len] == U32(v.sequence)
      && b[o + len..] == rest
  {
  }

  lemma OutPieces(b: Bytes, o: nat, v: TxOut, rest: Bytes)
    requires o <= |b| && b[o..] == OutBytes(v) + rest
    ensures var len := |OutBytes(v)|;
      && len == 8 + |Sized(v.script)| && o + len <= |b|
      && b[o..o + 8] == I64(v.value)
      && b[o + 8..] == CompactSize(|v.script|) + (v.script + rest)
      && b[o + 8..o + len] == Sized(v.script)
      && b[o..o + len] == OutBytes(v)
      && b[o + len..] == rest
  {
  }

  /** The C helper reads the length that was written. */
  lemma InStep(b: Bytes, o: nat, v: TxIn, rest: Bytes)
    requires |b| <= MAX_LENGTH && o <= |b| && b[o..] == InBytes(v) + rest
    ensures VinLen(b, o) == Some(|InBytes(v)|)
  {
    InPieces(b, o, v, rest);
    CompactSizeReads(|v.scriptSig|, b, o + 36, v.scriptSig + (U32(v.sequence) + rest));
    ReadCompactSizeAgrees(b, o + 36);
  }

  lemma OutStep(b: Bytes, o: nat, v: TxOut, rest: Bytes)
    requires |b| <= MAX_LENGTH && o <= |b| && b[o..] == OutBytes(v) + rest
    ensures VoutLen(b, o) == Some(|OutBytes(v)|)
  {
    OutPieces(b, o, v, rest);
    CompactSizeReads(|v.script|, b, o + 8, v.script + rest);
    ReadCompactSizeAgrees(b, o + 8);
  }

  lemma InChunk(h: Hook, b: Bytes, o: nat, i: nat, v: TxIn, rest: Bytes)
    requires h.WalksInputs() && o <= |b| && b[o..] == InBytes(v) + rest
    ensures o + |InBytes(v)| <= |b| && |InBytes(v)| >= 41
    ensures Chunk(h, b, o, i, |InBytes(v)|) == InField(h)(v, i)
  {
    InPieces(b, o, v, rest);
    if h.LegacyVins? {
      MaskedPieces(v);
    }
  }

  /** An emptied script is one zero byte, a zeroed sequence four. */
  lemma MaskedPieces(v: TxIn)
    ensures Sized([]) == [0] && U32(0) == Repeat(0, 4)
  {
  }

  lemma {:induction false} LeOnes(k: nat)
    ensures LeBytes(Pow256(k) - 1, k) == Repeat(0xFF, k)
  {
    if k > 0 {
      LeOnes(k - 1);
      assert (Pow256(k) - 1) % 256 == 0xFF && (Pow256(k) - 1) / 256 == Pow256(k - 1) - 1;
    }
  }

  /** The placeholder bytes are the output with amount -1 and an empty script. */
  lemma PlaceholderBytes()
    ensures OutBytes(TxOut(-1, [])) == PLACEHOLDER
  {
    Pow256Small();
    LeOnes(8);
    assert Sized([]) == [0] + [];
  }

  lemma OutChunk(h: Hook, b: Bytes, o: nat, j: nat, v: TxOut, rest: Bytes)
    requires !h.WalksInputs() && o <= |b| && b[o..] == OutBytes(v) + rest
    ensures o + |OutBytes(v)| <= |b| && |OutBytes(v)| >= 9
    ensures Chunk(h, b, o, j, |OutBytes(v)|) == OutField(h)(v, j)
  {
    OutPieces(b, o, v, rest);
    if h.LegacyVouts? {
      PlaceholderBytes();
    }
  }

  // ---------------------------------------------------------------------------
  // All records
  // ---------------------------------------------------------------------------

  predicate StandsAt<T>(b: Bytes, o: nat, f: T -> Bytes, v: T, rest: Bytes) {
    o <= |b| && b[o..] == f(v) + rest
  }

  /** Wherever an encoded record stands, the reader takes this part of it. */
  ghost predicate Takes<T(!new)>(r: Reader, b: Bytes, f: T -> Bytes, field: (T, nat) -> Bytes) {
    forall o: nat, i: nat, v: T, rest: Bytes :: TakesRecord(r, b, f, field, o, i, v, rest)
  }

  predicate TakesRecord<T>(r: Reader, b: Bytes, f: T -> Bytes, field: (T, nat) -> Bytes,
                           o: nat, i: nat, v: T, rest: Bytes) {
    StandsAt(b, o, f, v, rest) ==> r.step(o) == Some(|f(v)|) && r.chunk(o, i) == field(v, i)
  }

  lemma WalkRecord<T(!new)>(r: Reader, b: Bytes, f: T -> Bytes, field: (T, nat) -> Bytes,
                            fed: Bytes, o: nat, i: nat, n: nat, v: T, rest: Bytes)
    requires Takes(r, b, f, field) && StandsAt(b, o, f, v, rest) && i < n
    ensures o + |f(v)| <= |b| && b[o + |f(v)|..] == rest
    ensures HookWalk(r, fed, o, i, n) == HookWalk(r, fed + field(v, i), o + |f(v)|, i + 1, n)
  {
    assert TakesRecord(r, b, f, field, o, i, v, rest);
    assert |b[o..]| == |f(v)| + |rest|;
    assert b[o + |f(v)|..] == b[o..][|f(v)|..];
  }

  lemma {:induction false} WalkRecords<T(!new)>(r: Reader, b: Bytes, f: T -> Bytes, field: (T, nat) -> Bytes,
                                                fed: Bytes, o: nat, i: nat, vs: seq<T>, post: Bytes)
    requires Takes(r, b, f, field) && o <= |b| && b[o..] == Joined(f, vs) + post
    ensures HookWalk(r, fed, o, i, i + |vs|) == fed + Fields(field, vs, i)
    decreases |vs|
  {
    if vs == [] {
      assert fed + [] == fed;
    } else {
      var v := vs[0];
      Assoc(f(v), Joined(f, vs[1..]), post);
      WalkRecord(r, b, f, field, fed, o, i, i + |vs|, v, Joined(f, vs[1..]) + post);
      WalkRecords(r, b, f, field, fed + field(v, i), o + |f(v)|, i + 1, vs[1..], post);
      Assoc(fed, field(v, i), Fields(field, vs[1..], i + 1));
    }
  }

  lemma InReader(h: Hook, b: Bytes)
    requires h.WalksInputs() && |b| <= MAX_LENGTH
    ensures Takes(CReader(h, b), b, InBytes, InField(h))
  {
    forall o: nat, i: nat, v: TxIn, rest: Bytes
      ensures TakesRecord(CReader(h, b), b, InBytes, InField(h), o, i, v, rest)
    {
      if StandsAt(b, o, InBytes, v, rest) {
        InStep(b, o, v, rest);
        InChunk(h, b, o, i, v, rest);
      }
    }
  }

  lemma OutReader(h: Hook, b: Bytes)
    requires !h.WalksInputs() && |b| <= MAX_LENGTH
    ensures Takes(CReader(h, b), b, OutBytes, OutField(h))
  {
    forall o: nat, j: nat, v: TxOut, rest: Bytes
      ensures TakesRecord(CReader(h, b), b, OutBytes, OutField(h), o, j, v, rest)
    {
      if StandsAt(b, o, OutBytes, v, rest) {
        OutStep(b, o, v, rest);
        OutChunk(h, b, o, j, v, rest);
      }
    }
  }

  lemma WalkIns(h: Hook, fed: Bytes, b: Bytes, o: nat, vs: seq<TxIn>, post: Bytes)
    requires h.WalksInputs() && |b| <= MAX_LENGTH && o <= |b| && b[o..] == Ins(vs) + post
    ensures HookWalk(CReader(h, b), fed, o, 0, |vs|) == fed + Fields(InField(h), vs, 0)
  {
    InReader(h, b);
    WalkRecords(CReader(h, b), b, InBytes, InField(h), fed, o, 0, vs, post);
  }

  lemma WalkOuts(h: Hook, fed: Bytes, b: Bytes, o: nat, vs: seq<TxOut>, post: Bytes)
    requires !h.WalksInputs() && |b| <= MAX_LENGTH && o <= |b| && b[o..] == Outs(vs) + post
    ensures HookWalk(CReader(h, b), fed, o, 0, |vs|) == fed + Fields(OutField(h), vs, 0)
  {
    OutReader(h, b);
    WalkRecords(CReader(h, b), b, OutBytes, OutField(h), fed, o, 0, vs, post);
  }

  lemma {:induction false} CountsFit(ins: seq<TxIn>, outs: seq<TxOut>)
    ensures |ins| <= |Ins(ins)| && |outs| <= |Outs(outs)|
    decreases |ins| + |outs|
  {
    if ins != [] {
      CountsFit(ins[1..], outs);
    } else if outs != [] {
      CountsFit(ins, outs[1..]);
    }
  }

  // ---------------------------------------------------------------------------
  // The field hooks feed what the Python code concatenates
  // ---------------------------------------------------------------------------

  lemma {:induction false} InFieldsJoined(vs: seq<TxIn>, i: nat)
    ensures Fields(InField(Outpoints), vs, i) == OutpointString(vs)
    ensures Fields(InField(Sequences), vs, i) == SequenceString(vs)
    decreases |vs|
  {
    if vs != [] {
      InFieldsJoined(vs[1..], i + 1);
    }
  }

  /** Amounts and scripts of a list of outputs, the form in which Python passes prevouts. */
  function Values(vs: seq<TxOut>): (r: seq<Int64>)
    ensures |r| == |vs|
  {
    if vs == [] then [] else [vs[0].value] + Values(vs[1..])
  }

  function Scripts(vs: seq<TxOut>): (r: seq<Script>)
    ensures |r| == |vs|
  {
    if vs == [] then [] else [vs[0].script] + Scripts(vs[1..])
  }

  lemma {:induction false} OutFieldsJoined(vs: seq<TxOut>, j: nat)
    ensures Fields(OutField(Vouts), vs, j) == Outs(vs)
    ensures Fields(OutField(PrevoutAmounts), vs, j) == AmountString(Values(vs))
    ensures Fields(OutField(PrevoutScripts), vs, j) == ScriptString(Scripts(vs))
    decreases |vs|
  {
    if vs != [] {
      OutFieldsJoined(vs[1..], j + 1);
      assert Values(vs)[1..] == Values(vs[1..]) && Scripts(vs)[1..] == Scripts(vs[1..]);
    }
  }

  /** The run of a hook is its loop, after a count prefix for the two block hooks. */
  lemma RunIsWalk(h: Hook, fed: Bytes, b: Bytes, o: nat, n: nat)
    requires o <= |b| <= SIZE_MAX && n <= SIZE_MAX && (h.PrevoutAmounts? || h.PrevoutScripts? ==> o == 0)
    ensures HookRun(h, fed, b, o, n) ==
      HookWalk(CReader(h, b), if h.LegacyVins? || h.LegacyVouts? then fed + CompactSize(n) else fed, o, 0, n)
  {
  }

  /** A field hook over serialized inputs feeds the joined fields. */
  lemma RunIns(h: Hook, fed: Bytes, b: Bytes, o: nat, vins: seq<TxIn>, post: Bytes)
    requires h.Outpoints? || h.Sequences?
    requires o <= |b| <= MAX_LENGTH && b[o..] == Ins(vins) + post
    ensures HookRun(h, fed, b, o, |vins|) == fed + Fields(InField(h), vins, 0)
  {
    CountsFit(vins, []);
    RunIsWalk(h, fed, b, o, |vins|);
    WalkIns(h, fed, b, o, vins, post);
  }

  lemma RunOuts(h: Hook, fed: Bytes, b: Bytes, o: nat, vouts: seq<TxOut>, post: Bytes)
    requires h.Vouts? || ((h.PrevoutAmounts? || h.PrevoutScripts?) && o == 0)
    requires o <= |b| <= MAX_LENGTH && b[o..] == Outs(vouts) + post
    ensures HookRun(h, fed, b, o, |vouts|) == fed + Fields(OutField(h), vouts, 0)
  {
    CountsFit([], vouts);
    RunIsWalk(h, fed, b, o, |vouts|);
    WalkOuts(h, fed, b, o, vouts, post);
  }

  /** On the inputs of a serialized transaction, wherever they start in it. */
  lemma InputStreamsMatch(fed: Bytes, b: Bytes, o: nat, vins: seq<TxIn>, post: Bytes)
    requires o <= |b| <= MAX_LENGTH && b[o..] == Ins(vins) + post
    ensures HookRun(Outpoints, fed, b, o, |vins|) == fed + OutpointString(vins)
    ensures HookRun(Sequences, fed, b, o, |vins|) == fed + SequenceString(vins)
  {
    RunIns(Outpoints, fed, b, o, vins, post);
    RunIns(Sequences, fed, b, o, vins, post);
    InFieldsJoined(vins, 0);
  }

  lemma OutputStreamMatches(fed: Bytes, b: Bytes, o: nat, vouts: seq<TxOut>, post: Bytes)
    requires o <= |b| <= MAX_LENGTH && b[o..] == Outs(vouts) + post
    ensures HookRun(Vouts, fed, b, o, |vouts|) == fed + Outs(vouts)
  {
    RunOuts(Vouts, fed, b, o, vouts, post);
    OutFieldsJoined(vouts, 0);
  }

  lemma PrevoutStreamsMatch(fed: Bytes, prevouts: seq<TxOut>)
    requires |Outs(prevouts)| <= MAX_LENGTH
    ensures HookRun(PrevoutAmounts, fed, Outs(prevouts), 0, |prevouts|) == fed + AmountString(Values(prevouts))
    ensures HookRun(PrevoutScripts, fed, Outs(prevouts), 0, |prevouts|) == fed + ScriptString(Scripts(prevouts))
  {
    var b := Outs(prevouts);
    assert b[0..] == b + [];
    RunOuts(PrevoutAmounts, fed, b, 0, prevouts, []);
    RunOuts(PrevoutScripts, fed, b, 0, prevouts, []);
    OutFieldsJoined(prevouts, 0);
  }

  // ---------------------------------------------------------------------------
  // The legacy blocks are the modified transaction's
  // ---------------------------------------------------------------------------

  function ModifiedIns(h: Hook, vs: seq<TxIn>, i: nat): (r: seq<TxIn>)
    requires h.LegacyVins?
    ensures |r| == |vs| && forall k :: 0 <= k < |vs| ==> r[k] == ModifiedIn(h, vs[k], i + k)
    decreases |vs|
  {
    if vs == [] then [] else [ModifiedIn(h, vs[0], i)] + ModifiedIns(h, vs[1..], i + 1)
  }

  function ModifiedOuts(h: Hook, vs: seq<TxOut>, j: nat): (r: seq<TxOut>)
    requires h.LegacyVouts?
    ensures |r| == |vs| && forall k :: 0 <= k < |vs| ==> r[k] == ModifiedOut(h, vs[k], j + k)
    decreases |vs|
  {
    if vs == [] then [] else [ModifiedOut(h, vs[0], j)] + ModifiedOuts(h, vs[1..], j + 1)
  }

  lemma {:induction false} InFieldsModified(h: Hook, vs: seq<TxIn>, i: nat)
    requires h.LegacyVins?
    ensures Fields(InField(h), vs, i) == Ins(ModifiedIns(h, vs, i))
    decreases |vs|
  {
    if vs != [] {
      InFieldsModified(h, vs[1..], i + 1);
      assert ModifiedIns(h, vs, i)[1..] == ModifiedIns(h, vs[1..], i + 1);
    }
  }

  lemma {:induction false} OutFieldsModified(h: Hook, vs: seq<TxOut>, j: nat)
    requires h.LegacyVouts?
    ensures Fields(OutField(h), vs, j) == Outs(ModifiedOuts(h, vs, j))
    decreases |vs|
  {
    if vs != [] {
      OutFieldsModified(h, vs[1..], j + 1);
      assert ModifiedOuts(h, vs, j)[1..] == ModifiedOuts(h, vs[1..], j + 1);
    }
  }

  /**
   The streamed input block reads back as exactly the inputs, scripts emptied except the
   signed one, other sequences zeroed under SIGHASH_NONE and SIGHASH_SINGLE.
   */
  lemma LegacyInputBlock(h: Hook, fed: Bytes, b: Bytes, o: nat, vins: seq<TxIn>, post: Bytes)
    requires h.LegacyVins? && o <= |b| <= MAX_LENGTH && b[o..] == Ins(vins) + post
    ensures var fed' := HookRun(h, fed, b, o, |vins|);
      && fed <= fed' && ReadInBlock(fed'[|fed|..]) == Some(ModifiedIns(h, vins, 0))
  {
    CountsFit(vins, []);
    var c := CompactSize(|vins|);
    var block := c + Ins(ModifiedIns(h, vins, 0));
    WalkIns(h, fed + c, b, o, vins, post);
    RunIsWalk(h, fed, b, o, |vins|);
    InFieldsModified(h, vins, 0);
    Assoc(fed, c, Ins(ModifiedIns(h, vins, 0)));
    BlocksRoundTrip(ModifiedIns(h, vins, 0), []);
    assert (fed + block)[|fed|..] == block;
  }

  lemma LegacyOutputBlock(h: Hook, fed: Bytes, b: Bytes, o: nat, vouts: seq<TxOut>, post: Bytes)
    requires h.LegacyVouts? && o <= |b| <= MAX_LENGTH && b[o..] == Outs(vouts) + post
    ensures var fed' := HookRun(h, fed, b, o, |vouts|);
      && fed <= fed' && ReadOutBlock(fed'[|fed|..]) == Some(ModifiedOuts(h, vouts, 0))
  {
    CountsFit([], vouts);
    var c := CompactSize(|vouts|);
    var block := c + Outs(ModifiedOuts(h, vouts, 0));
    WalkOuts(h, fed + c, b, o, vouts, post);
    RunIsWalk(h, fed, b, o, |vouts|);
    OutFieldsModified(h, vouts, 0);
    Assoc(fed, c, Outs(ModifiedOuts(h, vouts, 0)));
    BlocksRoundTrip([], ModifiedOuts(h, vouts, 0));
    assert (fed + block)[|fed|..] == block;
  }
}
