/**
 The seven bulk hooks that stream transaction records into a SHA-256 state, and the
 recursive walkers the K semantics keep for reasoning. The repository asserts that a
 hook and its walker agree; here agreement is proved, with the exact condition under
 which the two block hooks fall short. A SHA-256 state is the bytes fed to it.
 */
module SighashHooks {
  import opened ByteStrings
  import opened Wire

  /** The lengths the runtime can represent; a pointer never runs past this. */
  const MAX_LENGTH: nat := 0xFF_FFFF_FFFF

  // ---------------------------------------------------------------------------
  // The C helpers: offsets into a buffer stand for pointers
  // ---------------------------------------------------------------------------

  /**
   Value and where the pointer is left. Nothing stands for SIZE_MAX, which the C code returns
   when the bytes run out and which eight 0xFF bytes also produce.
   */
  function ReadCompactSize(b: Bytes, p: nat): (Option<nat>, nat) {
    if p >= |b| then (None, p)
    else
      var marker, q := b[p], p + 1;
      if marker < 0xFD then (Some(marker), q)
      else if marker == 0xFD then
        if q + 2 > |b| then (None, q) else (Some(Le2(b[q], b[q + 1])), q + 2)
      else if marker == 0xFE then
        if q + 4 > |b| then (None, q) else (Some(Le4(b[q], b[q + 1], b[q + 2], b[q + 3])), q + 4)
      else if q + 8 > |b| then (None, q)
      else
        var v := Le4(b[q], b[q + 1], b[q + 2], b[q + 3])
               + 0x1_0000_0000 * Le4(b[q + 4], b[q + 5], b[q + 6], b[q + 7]);
        (if v == SIZE_MAX then None else Some(v), q + 8)
  }

  /** It reads what the general reader reads, except that the largest number counts as cut off. */
  lemma ReadCompactSizeAgrees(b: Bytes, p: nat)
    ensures var general, r := CompactSizeAt(b, p), ReadCompactSize(b, p);
      if general.None? then r.0 == None
      else r == (if general.value.0 == SIZE_MAX then None else Some(general.value.0), p + general.value.1)
  {
    if p < |b| {
      var q, w := p + 1, MarkerWidth(b[p]);
      if w > 0 && q + w <= |b| {
        var field := b[q..q + w];
        if w == 8 {
          EightBytes(field);
        } else {
          LengthFields(field);
        }
      }
    }
  }

  /** A number that is cut off leaves the pointer alone exactly if there was no marker to pass. */
  lemma TruncationMovesPointer(b: Bytes, p: nat)
    requires CompactSizeAt(b, p).None?
    ensures ReadCompactSize(b, p).1 == p <==> p >= |b|
    ensures p < |b| ==> ReadCompactSize(b, p).1 == p + 1
    ensures CompactSizeAt([0xFD], 0).None? && ReadCompactSize([0xFD], 0) == (None, 1)
  {
    assert [0xFD][0] == 0xFD;
  }

  function VinLen(b: Bytes, p: nat): Option<nat> {
    if p + 36 > |b| then None
    else
      var (n, q) := ReadCompactSize(b, p + 36);
      if n.None? || q + n.value + 4 > |b| then None else Some(q - p + n.value + 4)
  }

  function VoutLen(b: Bytes, p: nat): Option<nat> {
    if p + 8 > |b| then None
    else
      var (n, q) := ReadCompactSize(b, p + 8);
      if n.None? || q + n.value > |b| then None else Some(q - p + n.value)
  }

  function MpzToSizeT(z: int): nat {
    if z < 0 then 0 else if z <= SIZE_MAX then z else z % (SIZE_MAX + 1)
  }

  // ---------------------------------------------------------------------------
  // What one iteration does
  // ---------------------------------------------------------------------------

  datatype Hook =
    | Outpoints
    | Sequences
    | Vouts
    | PrevoutAmounts
    | PrevoutScripts
    | LegacyVins(sigIdx: nat, scriptCode: Script, baseType: nat)
    | LegacyVouts(sigIdx: nat, baseType: nat)
  {
    predicate WalksInputs() {
      Outpoints? || Sequences? || LegacyVins?
    }

    /** SIGHASH_NONE or SIGHASH_SINGLE: the sequences of other inputs become zero. */
    predicate ZeroSequences()
      requires LegacyVins?
    {
      baseType == 2 || baseType == 3
    }

    /** Record i is replaced by bytes that are not read from it. */
    predicate Masks(i: nat) {
      match this
      case LegacyVins(idx, _, _) => i != idx && ZeroSequences()
      case LegacyVouts(idx, base) => base == 3 && i < idx
      case _ => false
    }
  }

  /** The amount -1 and an empty script. */
  const PLACEHOLDER: Bytes := Repeat(0xFF, 8) + [0x00]

  /** The record length the hook computes; it is never past the end of the buffer. */
  function StepOf(h: Hook, b: Bytes, p: nat): (r: Option<nat>)
    ensures r.Some? ==> p + r.value <= |b| && r.value >= 8
    ensures r.Some? && h.WalksInputs() ==> r.value >= 41
  {
    if h.WalksInputs() then VinLen(b, p) else VoutLen(b, p)
  }

  /** What is fed for a whole record. */
  function Chunk(h: Hook, b: Bytes, p: nat, i: nat, step: nat): Bytes
    requires p + step <= |b| && step >= 8
    requires h.WalksInputs() ==> step >= 41
  {
    match h
    case Outpoints => b[p..p + 36]
    case PrevoutAmounts => b[p..p + 8]
    case Sequences => b[p + step - 4..p + step]
    case Vouts => b[p..p + step]
    case PrevoutScripts => b[p + 8..p + step]
    case LegacyVins(idx, code, _) =>
      b[p..p + 36] +
      (if i == idx then Sized(code) + b[p + step - 4..p + step]
       else [0] + if h.ZeroSequences() then Repeat(0, 4) else b[p + step - 4..p + step])
    case LegacyVouts(idx, base) =>
      if base == 3 && i < idx then PLACEHOLDER else b[p..p + step]
  }

  /** What has been fed when a record turns out to be cut off: two hooks feed before they look. */
  function CutOff(h: Hook, b: Bytes, p: nat): Bytes {
    if h.Outpoints? && p + 36 <= |b| then b[p..p + 36]
    else if h.PrevoutAmounts? && p + 8 <= |b| then b[p..p + 8]
    else []
  }

  /** The iteration as three questions: how long, what for a whole record, what for a cut one. */
  datatype Reader = Reader(step: nat -> Option<nat>, chunk: (nat, nat) -> Bytes, cut: nat -> Bytes)

  function CReader(h: Hook, b: Bytes): Reader {
    Reader(
      (p: nat) => StepOf(h, b, p),
      (p: nat, i: nat) => var s := StepOf(h, b, p); if s.None? then [] else Chunk(h, b, p, i, s.value),
      (p: nat) => CutOff(h, b, p))
  }

  /** The loop from record i on: stop silently at the first record that is cut off. */
  function HookWalk(r: Reader, fed: Bytes, p: nat, i: nat, n: nat): Bytes
    decreases n - i
  {
    if i >= n then fed
    else if r.step(p).None? then fed + r.cut(p)
    else HookWalk(r, fed + r.chunk(p, i), p + r.step(p).value, i + 1, n)
  }

  /** The whole hook: offset check and count prefix, in the order each hook has them. */
  function HookRun(h: Hook, fed: Bytes, b: Bytes, start: int, count: int): Bytes {
    var off, n, r := MpzToSizeT(start), MpzToSizeT(count), CReader(h, b);
    match h
    case PrevoutAmounts => HookWalk(r, fed, 0, 0, n)
    case PrevoutScripts => HookWalk(r, fed, 0, 0, n)
    case LegacyVins(_, _, _) =>
      if off > |b| then fed else HookWalk(r, fed + CompactSize(n), off, 0, n)
    case LegacyVouts(_, _) =>
      var counted := fed + CompactSize(n);
      if n == 0 || off > |b| then counted else HookWalk(r, counted, off, 0, n)
    case _ => if off > |b| then fed else HookWalk(r, fed, off, 0, n)
  }

  /** Offsets, counts and indices are taken modulo 2^64, and a negative one as zero. */
  lemma ArgumentsWrap(z: int)
    ensures MpzToSizeT(z) == if z < 0 then 0 else z % 0x1_0000_0000_0000_0000
  {
  }

  /** Where the first record is cut off, two hooks have fed its first field already, if that is there. */
  lemma CutRecordFed(fed: Bytes, b: Bytes, start: nat, count: nat)
    requires start <= |b| <= SIZE_MAX && 0 < count <= SIZE_MAX
    ensures VinLen(b, start).None? ==>
      && HookRun(Outpoints, fed, b, start, count) == fed + (if start + 36 <= |b| then b[start..start + 36] else [])
      && HookRun(Sequences, fed, b, start, count) == fed
    ensures VoutLen(b, start).None? ==> HookRun(Vouts, fed, b, start, count) == fed
    ensures VoutLen(b, 0).None? ==>
      && HookRun(PrevoutAmounts, fed, b, start, count) == fed + (if |b| >= 8 then b[..8] else [])
      && HookRun(PrevoutScripts, fed, b, start, count) == fed
  {
    assert fed + [] == fed;
  }

  /** What the reader answers where a whole record stands. */
  lemma ReaderAnswers(h: Hook, b: Bytes, p: nat, i: nat)
    requires StepOf(h, b, p).Some?
    ensures CReader(h, b).step(p) == StepOf(h, b, p)
    ensures CReader(h, b).chunk(p, i) == Chunk(h, b, p, i, StepOf(h, b, p).value)
  {
  }

  lemma WalkNext(r: Reader, fed: Bytes, p: nat, i: nat, n: nat, step: nat, chunk: Bytes, fed': Bytes, p': nat)
    requires i < n && r.step(p) == Some(step) && r.chunk(p, i) == chunk
    requires p' == p + step && fed' == fed + chunk
    ensures HookWalk(r, fed, p, i, n) == HookWalk(r, fed', p', i + 1, n)
  {
  }

  /** One record, in the terms of the loops. */
  lemma WalkOne(h: Hook, fed: Bytes, b: Bytes, p: nat, i: nat, n: nat, fed': Bytes, p': nat)
    requires i < n && StepOf(h, b, p).Some?
    requires var step := StepOf(h, b, p).value; p' == p + step && fed' == fed + Chunk(h, b, p, i, step)
    ensures HookWalk(CReader(h, b), fed, p, i, n) == HookWalk(CReader(h, b), fed', p', i + 1, n)
  {
    var step := StepOf(h, b, p).value;
    ReaderAnswers(h, b, p, i);
    WalkNext(CReader(h, b), fed, p, i, n, step, Chunk(h, b, p, i, step), fed', p');
  }

  lemma WalkStops(h: Hook, fed: Bytes, b: Bytes, p: nat, i: nat, n: nat)
    requires i < n && StepOf(h, b, p).None?
    ensures HookWalk(CReader(h, b), fed, p, i, n) == fed + CutOff(h, b, p)
  {
  }

  // ---------------------------------------------------------------------------
  // The hooks as loops
  // ---------------------------------------------------------------------------

  /** Nothing stands for a state blob that has not the size of a SHA-256 context. */
  type Midstate = Option<Bytes>

  method OutpointsStream(state: Midstate, tx: Bytes, start: int, count: int) returns (r: Midstate)
    ensures r == if state.None? then None else Some(HookRun(Outpoints, state.value, tx, start, count))
  {
    if state.None? {
      return None;
    }
    var off, n := MpzToSizeT(start), MpzToSizeT(count);
    if off > |tx| {
      return state;
    }
    var ctx := FeedOutpoints(state.value, tx, off, n);
    return Some(ctx);
  }

  method FeedOutpoints(fed: Bytes, tx: Bytes, off: nat, n: nat) returns (ctx: Bytes)
    ensures ctx == HookWalk(CReader(Outpoints, tx), fed, off, 0, n)
  {
    ctx := fed;
    ghost var r := CReader(Outpoints, tx);
    var p: nat := off;
    var i: nat := 0;
    while i < n
      invariant i <= n && HookWalk(r, ctx, p, i, n) == HookWalk(r, fed, off, 0, n)
    {
      ghost var before, from := ctx, p;
      if p + 36 > |tx| {
        WalkStops(Outpoints, ctx, tx, p, i, n);
        return;
      }
      var outpoint := tx[p..p + 36];
      ctx := ctx + outpoint;
      var step := VinLen(tx, p);
      if step.None? {
        WalkStops(Outpoints, before, tx, p, i, n);
        return;
      }
      assert outpoint == Chunk(Outpoints, tx, p, i, step.value);
      p := p + step.value;
      WalkOne(Outpoints, before, tx, from, i, n, ctx, p);
      i := i + 1;
    }
  }

  method SequencesStream(state: Midstate, tx: Bytes, start: int, count: int) returns (r: Midstate)
    ensures r == if state.None? then None else Some(HookRun(Sequences, state.value, tx, start, count))
  {
    if state.None? {
      return None;
    }
    var off, n := MpzToSizeT(start), MpzToSizeT(count);
    if off > |tx| {
      return state;
    }
    var ctx := FeedSequences(state.value, tx, off, n);
    return Some(ctx);
  }

  method FeedSequences(fed: Bytes, tx: Bytes, off: nat, n: nat) returns (ctx: Bytes)
    ensures ctx == HookWalk(CReader(Sequences, tx), fed, off, 0, n)
  {
    ctx := fed;
    ghost var r := CReader(Sequences, tx);
    var p: nat := off;
    var i: nat := 0;
    while i < n
      invariant i <= n && HookWalk(r, ctx, p, i, n) == HookWalk(r, fed, off, 0, n)
    {
      ghost var before, from := ctx, p;
      var step := VinLen(tx, p);
      if step.None? || p + step.value > |tx| {
        WalkStops(Sequences, before, tx, p, i, n);
        return;
      }
      var sequence := tx[p + step.value - 4..p + step.value];
      assert sequence == Chunk(Sequences, tx, p, i, step.value);
      ctx := ctx + sequence;
      p := p + step.value;
      WalkOne(Sequences, before, tx, from, i, n, ctx, p);
      i := i + 1;
    }
  }

  method VoutsStream(state: Midstate, tx: Bytes, start: int, count: int) returns (r: Midstate)
    ensures r == if state.None? then None else Some(HookRun(Vouts, state.value, tx, start, count))
  {
    if state.None? {
      return None;
    }
    var off, n := MpzToSizeT(start), MpzToSizeT(count);
    if off > |tx| {
      return state;
    }
    var ctx := FeedVouts(state.value, tx, off, n);
    return Some(ctx);
  }

  method FeedVouts(fed: Bytes, tx: Bytes, off: nat, n: nat) returns (ctx: Bytes)
    ensures ctx == HookWalk(CReader(Vouts, tx), fed, off, 0, n)
  {
    ctx := fed;
    ghost var r := CReader(Vouts, tx);
    var p: nat := off;
    var i: nat := 0;
    while i < n
      invariant i <= n && HookWalk(r, ctx, p, i, n) == HookWalk(r, fed, off, 0, n)
    {
      ghost var before, from := ctx, p;
      var step := VoutLen(tx, p);
      if step.None? || p + step.value > |tx| {
        WalkStops(Vouts, before, tx, p, i, n);
        return;
      }
      var record := tx[p..p + step.value];
      assert record == Chunk(Vouts, tx, p, i, step.value);
      ctx := ctx + record;
      p := p + step.value;
      WalkOne(Vouts, before, tx, from, i, n, ctx, p);
      i := i + 1;
    }
  }

  method PrevoutAmountsStream(state: Midstate, prevouts: Bytes, count: int) returns (r: Midstate)
    ensures r == if state.None? then None else Some(HookRun(PrevoutAmounts, state.value, prevouts, 0, count))
  {
    if state.None? {
      return None;
    }
    var ctx := FeedAmounts(state.value, prevouts, MpzToSizeT(count));
    return Some(ctx);
  }

  method FeedAmounts(fed: Bytes, prevouts: Bytes, n: nat) returns (ctx: Bytes)
    ensures ctx == HookWalk(CReader(PrevoutAmounts, prevouts), fed, 0, 0, n)
  {
    ctx := fed;
    ghost var r := CReader(PrevoutAmounts, prevouts);
    var p: nat := 0;
    var i: nat := 0;
    while i < n
      invariant i <= n && HookWalk(r, ctx, p, i, n) == HookWalk(r, fed, 0, 0, n)
    {
      ghost var before, from := ctx, p;
      if p + 8 > |prevouts| {
        WalkStops(PrevoutAmounts, ctx, prevouts, p, i, n);
        return;
      }
      var amount := prevouts[p..p + 8];
      ctx := ctx + amount;
      var step := VoutLen(prevouts, p);
      if step.None? {
        WalkStops(PrevoutAmounts, before, prevouts, p, i, n);
        return;
      }
      assert amount == Chunk(PrevoutAmounts, prevouts, p, i, step.value);
      p := p + step.value;
      WalkOne(PrevoutAmounts, before, prevouts, from, i, n, ctx, p);
      i := i + 1;
    }
  }

  method PrevoutScriptsStream(state: Midstate, prevouts: Bytes, count: int) returns (r: Midstate)
    ensures r == if state.None? then None else Some(HookRun(PrevoutScripts, state.value, prevouts, 0, count))
  {
    if state.None? {
      return None;
    }
    var ctx := FeedScripts(state.value, prevouts, MpzToSizeT(count));
    return Some(ctx);
  }

  method FeedScripts(fed: Bytes, prevouts: Bytes, n: nat) returns (ctx: Bytes)
    ensures ctx == HookWalk(CReader(PrevoutScripts, prevouts), fed, 0, 0, n)
  {
    ctx := fed;
    ghost var r := CReader(PrevoutScripts, prevouts);
    var p: nat := 0;
    var i: nat := 0;
    while i < n
      invariant i <= n && HookWalk(r, ctx, p, i, n) == HookWalk(r, fed, 0, 0, n)
    {
      ghost var before, from := ctx, p;
      var step := VoutLen(prevouts, p);
      if step.None? || p + step.value > |prevouts| {
        WalkStops(PrevoutScripts, before, prevouts, p, i, n);
        return;
      }
      var script := prevouts[p + 8..p + step.value];
      assert script == Chunk(PrevoutScripts, prevouts, p, i, step.value);
      ctx := ctx + script;
      p := p + step.value;
      WalkOne(PrevoutScripts, before, prevouts, from, i, n, ctx, p);
      i := i + 1;
    }
  }

  method LegacyVinsBlockStream(state: Midstate, tx: Bytes, start: int, count: int,
                               sigIdx: int, scriptCode: Script, hashType: int)
    returns (r: Midstate)
    ensures var h := LegacyVins(MpzToSizeT(sigIdx), scriptCode, hashType % 32);
      r == if state.None? then None else Some(HookRun(h, state.value, tx, start, count))
  {
    if state.None? {
      return None;
    }
    var off, n := MpzToSizeT(start), MpzToSizeT(count);
    if off > |tx| {
      return state;
    }
    var ctx := state.value + CompactSize(n);
    ctx := StreamVins(ctx, tx, off, n, MpzToSizeT(sigIdx), scriptCode, hashType % 32);
    return Some(ctx);
  }

  /** The loop of the input-block hook, after the count prefix. */
  method StreamVins(counted: Bytes, tx: Bytes, off: nat, n: nat, sigIdx: nat, scriptCode: Script, baseType: nat)
    returns (ctx: Bytes)
    ensures ctx == HookWalk(CReader(LegacyVins(sigIdx, scriptCode, baseType), tx), counted, off, 0, n)
  {
    ctx := counted;
    ghost var h := LegacyVins(sigIdx, scriptCode, baseType);
    ghost var r := CReader(h, tx);
    ghost var whole := HookWalk(r, counted, off, 0, n);
    var p: nat := off;
    var i: nat := 0;
    while i < n
      invariant i <= n && HookWalk(r, ctx, p, i, n) == whole
    {
      ghost var before, from := ctx, p;
      if p + 36 > |tx| {
        WalkStops(h, ctx, tx, p, i, n);
        return;
      }
      var step := VinLen(tx, p);
      if step.None? || p + step.value > |tx| {
        WalkStops(h, ctx, tx, p, i, n);
        return;
      }
      ctx := FeedVin(ctx, tx, p, step.value, i, sigIdx, scriptCode, baseType);
      p := p + step.value;
      WalkOne(h, before, tx, from, i, n, ctx, p);
      i := i + 1;
    }
  }

  /** The updates for one input: outpoint, script, sequence. */
  method FeedVin(fed: Bytes, tx: Bytes, p: nat, step: nat, i: nat, sigIdx: nat, scriptCode: Script, baseType: nat)
    returns (ctx: Bytes)
    requires p + step <= |tx| && step >= 41
    ensures ctx == fed + Chunk(LegacyVins(sigIdx, scriptCode, baseType), tx, p, i, step)
  {
    var otherSeqZero := baseType == 2 || baseType == 3;
    ctx := fed + tx[p..p + 36];
    if i == sigIdx {
      ctx := ctx + CompactSize(|scriptCode|);
      ctx := ctx + scriptCode;
      ctx := ctx + tx[p + step - 4..p + step];
      assert ctx == fed + (tx[p..p + 36] + (Sized(scriptCode) + tx[p + step - 4..p + step]));
    } else {
      ctx := ctx + [0];
      ctx := ctx + if otherSeqZero then Repeat(0, 4) else tx[p + step - 4..p + step];
    }
  }

  method LegacyVoutsBlockStream(state: Midstate, tx: Bytes, start: int, count: int, sigIdx: int, hashType: int)
    returns (r: Midstate)
    ensures var h := LegacyVouts(MpzToSizeT(sigIdx), hashType % 32);
      r == if state.None? then None else Some(HookRun(h, state.value, tx, start, count))
  {
    if state.None? {
      return None;
    }
    var off, n := MpzToSizeT(start), MpzToSizeT(count);
    var ctx := state.value + CompactSize(n);
    if n == 0 {
      return Some(ctx);
    }
    if off > |tx| {
      return Some(ctx);
    }
    ctx := StreamVouts(ctx, tx, off, n, MpzToSizeT(sigIdx), hashType % 32);
    return Some(ctx);
  }

  /** The update for one output: a placeholder below the index under SIGHASH_SINGLE. */
  method FeedVout(fed: Bytes, tx: Bytes, p: nat, step: nat, j: nat, sigIdx: nat, baseType: nat) returns (ctx: Bytes)
    requires p + step <= |tx| && step >= 8
    ensures ctx == fed + Chunk(LegacyVouts(sigIdx, baseType), tx, p, j, step)
  {
    var isSingle := baseType == 3;
    ctx := fed + if isSingle && j < sigIdx then PLACEHOLDER else tx[p..p + step];
  }

  /** The loop of the output-block hook, after the count prefix. */
  method StreamVouts(counted: Bytes, tx: Bytes, off: nat, n: nat, sigIdx: nat, baseType: nat) returns (ctx: Bytes)
    ensures ctx == HookWalk(CReader(LegacyVouts(sigIdx, baseType), tx), counted, off, 0, n)
  {
    ctx := counted;
    ghost var h := LegacyVouts(sigIdx, baseType);
    ghost var r := CReader(h, tx);
    ghost var whole := HookWalk(r, counted, off, 0, n);
    var p: nat := off;
    var j: nat := 0;
    while j < n
      invariant j <= n && HookWalk(r, ctx, p, j, n) == whole
    {
      ghost var before, from := ctx, p;
      if p >= |tx| {
        WalkStops(h, ctx, tx, p, j, n);
        return;
      }
      var step := VoutLen(tx, p);
      if step.None? || p + step.value > |tx| {
        WalkStops(h, ctx, tx, p, j, n);
        return;
      }
      ctx := FeedVout(ctx, tx, p, step.value, j, sigIdx, baseType);
      p := p + step.value;
      WalkOne(h, before, tx, from, j, n, ctx, p);
      j := j + 1;
    }
  }

  // ---------------------------------------------------------------------------
  // The K walkers: undefined, not silent, where bytes are missing
  // ---------------------------------------------------------------------------

  function KVinLen(b: Bytes, o: nat): Option<nat> {
    match CompactSizeAt(b, o + 36)
    case None => None
    case Some((n, w)) => Some(36 + w + n + 4)
  }

  function KVoutLen(b: Bytes, o: nat): Option<nat> {
    match CompactSizeAt(b, o + 8)
    case None => None
    case Some((n, w)) => Some(8 + w + n)
  }

  function KLen(h: Hook, b: Bytes, o: nat): Option<nat> {
    if h.WalksInputs() then KVinLen(b, o) else KVoutLen(b, o)
  }

  /** Two pieces, both of which must be defined. */
  function Both(x: Option<Bytes>, y: Option<Bytes>): Option<Bytes> {
    if x.None? || y.None? then None else Some(x.value + y.value)
  }

  /** The K compact size has rules up to four bytes only. */
  function KCompactSize(n: nat): Option<Bytes> {
    if n <= 0xFFFF_FFFF then Some(CompactSize(n)) else None
  }

  function KSized(script: Bytes): Option<Bytes> {
    match KCompactSize(|script|)
    case None => None
    case Some(c) => Some(c + script)
  }

  /** What one K rule feeds for record i at offset o, given the record length. */
  function KChunk(h: Hook, b: Bytes, o: nat, i: nat, len: nat): Option<Bytes> {
    match h
    case Outpoints => SubstrBytes(b, o, o + 36)
    case Sequences => SubstrBytes(b, o + len - 4, o + len)
    case Vouts => SubstrBytes(b, o, o + len)
    case PrevoutAmounts => SubstrBytes(b, o, o + 8)
    case PrevoutScripts => SubstrBytes(b, o + 8, o + len)
    case LegacyVins(idx, code, base) =>
      var sequence := SubstrBytes(b, o + len - 4, o + len);
      var tail :=
        if i == idx then Both(KSized(code), sequence)
        else Both(Some([0]), if base == 2 || base == 3 then Some(Repeat(0, 4)) else sequence);
      Both(SubstrBytes(b, o, o + 36), tail)
    case LegacyVouts(idx, base) =>
      if base == 3 && i < idx then Some(PLACEHOLDER) else SubstrBytes(b, o, o + len)
  }

  /** The rule as two questions, either of which may have no answer. */
  datatype KReader = KReader(len: nat -> Option<nat>, chunk: (nat, nat) -> Option<Bytes>)

  function KReaderOf(h: Hook, b: Bytes): KReader {
    KReader(
      (o: nat) => KLen(h, b, o),
      (o: nat, i: nat) => var len := KLen(h, b, o); if len.None? then None else KChunk(h, b, o, i, len.value))
  }

  function PureWalk(k: KReader, fed: Bytes, o: nat, i: nat, n: nat): Option<Bytes>
    decreases n - i
  {
    if i >= n then Some(fed)
    else if k.len(o).None? || k.chunk(o, i).None? then None
    else PureWalk(k, fed + k.chunk(o, i).value, o + k.len(o).value, i + 1, n)
  }

  /** The right-hand side of the asserted equality, for counts and offsets that are not negative. */
  function PureRun(h: Hook, fed: Bytes, b: Bytes, start: nat, n: nat): Option<Bytes> {
    if h.LegacyVins? || h.LegacyVouts? then
      match KCompactSize(n)
      case None => None
      case Some(c) => PureWalk(KReaderOf(h, b), fed + c, start, 0, n)
    else PureWalk(KReaderOf(h, b), fed, if h.PrevoutAmounts? || h.PrevoutScripts? then 0 else start, 0, n)
  }

  // ---------------------------------------------------------------------------
  // Agreement of any two readers that agree record by record
  // ---------------------------------------------------------------------------

  /** Past n records whose lengths a function of the offset gives; nothing once one is undefined. */
  function Skip(len: nat -> Option<nat>, o: nat, n: nat): Option<nat>
    decreases n
  {
    if n == 0 then Some(o)
    else
      var step :- len(o);
      Skip(len, o + step, n - 1)
  }

  /**
   Record i at offset o, in a buffer of `size` bytes. Inside the buffer both readers give
   the same length, and the same bytes if the walker has any. A record that ends past it is cut off for the hook; if the
   walker still has bytes for it, they are what the hook fed early, or the record is masked.
   */
  ghost predicate RecordAgrees(r: Reader, k: KReader, masks: nat -> bool, size: nat, o: nat, i: nat) {
    && (k.len(o).None? ==> r.step(o).None?)
    && (k.len(o).Some? ==>
         var end := o + k.len(o).value;
         && (end <= size ==> r.step(o) == k.len(o) && (k.chunk(o, i).Some? ==> k.chunk(o, i).value == r.chunk(o, i)))
         && (end > size ==>
              && r.step(o).None?
              && (k.chunk(o, i).Some? ==>
                   if masks(i) then |k.chunk(o, i).value| > |r.cut(o)| else k.chunk(o, i).value == r.cut(o))))
    && (o > size ==> k.len(o).None?)
  }

  ghost predicate ReadersAgree(r: Reader, k: KReader, masks: nat -> bool, size: nat) {
    forall o: nat, i: nat :: RecordAgrees(r, k, masks, size, o, i)
  }

  /**
   Where the walker is defined, the hook feeds the same bytes unless the last record is
   a masked one that ends past the buffer; then it feeds fewer.
   */
  lemma {:induction false} WalksAgree(r: Reader, k: KReader, masks: nat -> bool, size: nat,
                                      fed: Bytes, o: nat, i: nat, n: nat)
    requires ReadersAgree(r, k, masks, size) && i <= n
    requires PureWalk(k, fed, o, i, n).Some?
    ensures Skip(k.len, o, n - i).Some?
    ensures HookWalk(r, fed, o, i, n) == PureWalk(k, fed, o, i, n).value <==>
      !(i < n && masks(n - 1) && Skip(k.len, o, n - i).value > size)
    decreases n - i
  {
    if i < n {
      assert RecordAgrees(r, k, masks, size, o, i);
      var o' := o + k.len(o).value;
      if o' <= size {
        WalksAgree(r, k, masks, size, fed + k.chunk(o, i).value, o', i + 1, n);
      } else {
        assert RecordAgrees(r, k, masks, size, o', i + 1);
        assert i + 1 == n;
      }
    }
  }

  /** A defined walk has no more records than the buffer has bytes, plus one. */
  lemma {:induction false} CountBounded(r: Reader, k: KReader, masks: nat -> bool, size: nat,
                                        fed: Bytes, o: nat, i: nat, n: nat)
    requires ReadersAgree(r, k, masks, size) && i <= n && PureWalk(k, fed, o, i, n).Some?
    requires forall p: nat :: k.len(p).Some? ==> k.len(p).value >= 1
    ensures n > i ==> o + (n - i) <= size + 1
    decreases n - i
  {
    if i < n {
      assert RecordAgrees(r, k, masks, size, o, i);
      CountBounded(r, k, masks, size, fed + k.chunk(o, i).value, o + k.len(o).value, i + 1, n);
    }
  }

  // ---------------------------------------------------------------------------
  // The hooks agree with their walkers
  // ---------------------------------------------------------------------------

  function MasksOf(h: Hook): nat -> bool {
    (i: nat) => h.Masks(i)
  }

  /** The C length is the K length, provided the record ends inside the buffer. */
  lemma StepIsKLen(h: Hook, b: Bytes, o: nat)
    requires |b| <= MAX_LENGTH
    ensures StepOf(h, b, o) ==
      if KLen(h, b, o).Some? && o + KLen(h, b, o).value <= |b| then KLen(h, b, o) else None
    ensures KLen(h, b, o).Some? ==> KLen(h, b, o).value >= 9
  {
    ReadCompactSizeAgrees(b, o + 36);
    ReadCompactSizeAgrees(b, o + 8);
  }

  lemma ChunkAgrees(h: Hook, b: Bytes, o: nat, i: nat, len: nat)
    requires KLen(h, b, o) == Some(len) && o + len <= |b|
    ensures KChunk(h, b, o, i, len).Some? ==> KChunk(h, b, o, i, len).value == Chunk(h, b, o, i, len)
  {
  }

  lemma ChunkPastEnd(h: Hook, b: Bytes, o: nat, i: nat, len: nat)
    requires KLen(h, b, o) == Some(len) && o + len > |b|
    requires KChunk(h, b, o, i, len).Some?
    ensures if h.Masks(i) then |KChunk(h, b, o, i, len).value| > |CutOff(h, b, o)|
            else KChunk(h, b, o, i, len).value == CutOff(h, b, o)
  {
  }

  lemma HookReadersAgree(h: Hook, b: Bytes)
    requires |b| <= MAX_LENGTH
    ensures ReadersAgree(CReader(h, b), KReaderOf(h, b), MasksOf(h), |b|)
  {
    var r, k, masks := CReader(h, b), KReaderOf(h, b), MasksOf(h);
    forall o: nat, i: nat
      ensures RecordAgrees(r, k, masks, |b|, o, i)
    {
      HookRecordAgrees(h, b, o, i);
    }
  }

  lemma HookRecordAgrees(h: Hook, b: Bytes, o: nat, i: nat)
    requires |b| <= MAX_LENGTH
    ensures RecordAgrees(CReader(h, b), KReaderOf(h, b), MasksOf(h), |b|, o, i)
  {
    StepIsKLen(h, b, o);
    var len := KLen(h, b, o);
    if len.Some? {
      if o + len.value <= |b| {
        ChunkAgrees(h, b, o, i, len.value);
      } else if KChunk(h, b, o, i, len.value).Some? {
        ChunkPastEnd(h, b, o, i, len.value);
      }
    }
  }

  /** A walk of at least one record that is defined starts inside the buffer. */
  lemma WalkStartsInside(h: Hook, fed: Bytes, b: Bytes, start: nat, n: nat)
    requires |b| <= MAX_LENGTH && n > 0 && PureWalk(KReaderOf(h, b), fed, start, 0, n).Some?
    ensures start <= |b| && n <= |b| + 1
  {
    HookReadersAgree(h, b);
    LengthsPositive(h, b);
    CountBounded(CReader(h, b), KReaderOf(h, b), MasksOf(h), |b|, fed, start, 0, n);
    assert RecordAgrees(CReader(h, b), KReaderOf(h, b), MasksOf(h), |b|, start, 0);
  }

  /** The five field hooks agree with their walkers wherever those are defined. */
  lemma FieldHooksAgree(h: Hook, fed: Bytes, b: Bytes, start: nat, n: nat)
    requires |b| <= MAX_LENGTH
    requires !h.LegacyVins? && !h.LegacyVouts?
    requires PureRun(h, fed, b, start, n).Some?
    ensures HookRun(h, fed, b, start, n) == PureRun(h, fed, b, start, n).value
  {
    if n > 0 {
      var o := if h.PrevoutAmounts? || h.PrevoutScripts? then 0 else start;
      WalkStartsInside(h, fed, b, o, n);
      HookReadersAgree(h, b);
      WalksAgree(CReader(h, b), KReaderOf(h, b), MasksOf(h), |b|, fed, o, 0, n);
    }
  }

  lemma LengthsPositive(h: Hook, b: Bytes)
    ensures forall p: nat :: KReaderOf(h, b).len(p).Some? ==> KReaderOf(h, b).len(p).value >= 1
  {
  }

  /** The walks behind a count prefix. */
  lemma CountedWalksAgree(h: Hook, counted: Bytes, b: Bytes, start: nat, n: nat)
    requires |b| <= MAX_LENGTH && PureWalk(KReaderOf(h, b), counted, start, 0, n).Some?
    ensures Skip(KReaderOf(h, b).len, start, n).Some?
    ensures HookWalk(CReader(h, b), counted, start, 0, n) == PureWalk(KReaderOf(h, b), counted, start, 0, n).value
      <==> !(n > 0 && h.Masks(n - 1) && Skip(KReaderOf(h, b).len, start, n).value > |b|)
    ensures n > 0 ==> start <= |b|
  {
    HookReadersAgree(h, b);
    WalksAgree(CReader(h, b), KReaderOf(h, b), MasksOf(h), |b|, counted, start, 0, n);
    if n > 0 {
      WalkStartsInside(h, counted, b, start, n);
    }
  }

  /** The input-block hook misses the count prefix when asked for no inputs beyond the buffer. */
  lemma VinsBlockAgrees(h: Hook, fed: Bytes, b: Bytes, start: nat, n: nat)
    requires |b| <= MAX_LENGTH
    requires h.LegacyVins? && PureRun(h, fed, b, start, n).Some?
    ensures Skip(KReaderOf(h, b).len, start, n).Some?
    ensures HookRun(h, fed, b, start, n) == PureRun(h, fed, b, start, n).value <==>
      if n == 0 then MpzToSizeT(start) <= |b|
      else !(h.Masks(n - 1) && Skip(KReaderOf(h, b).len, start, n).value > |b|)
  {
    var counted := fed + CompactSize(n);
    CountedWalksAgree(h, counted, b, start, n);
    assert |counted| > |fed|;
  }

  /** The output-block hook fails only on a masked last output that is cut off. */
  lemma VoutsBlockAgrees(h: Hook, fed: Bytes, b: Bytes, start: nat, n: nat)
    requires |b| <= MAX_LENGTH
    requires h.LegacyVouts? && PureRun(h, fed, b, start, n).Some?
    ensures Skip(KReaderOf(h, b).len, start, n).Some?
    ensures HookRun(h, fed, b, start, n) == PureRun(h, fed, b, start, n).value <==>
      !(n > 0 && h.Masks(n - 1) && Skip(KReaderOf(h, b).len, start, n).value > |b|)
  {
    CountedWalksAgree(h, fed + CompactSize(n), b, start, n);
  }

  /** One cut-off output under SIGHASH_SINGLE: the walker feeds a placeholder, the hook nothing. */
  lemma AssertedOutputsFail()
    ensures var h, b := LegacyVouts(1, 3), Repeat(0, 8) + [5];
      && PureRun(h, [], b, 0, 1) == Some([1] + PLACEHOLDER)
      && HookRun(h, [], b, 0, 1) == [1]
  {
    var h, b := LegacyVouts(1, 3), Repeat(0, 8) + [5];
    LastRecordCut(h, b, 14, PLACEHOLDER);
  }

  /** One cut-off input under SIGHASH_NONE: the walker feeds it modified, the hook nothing. */
  lemma AssertedInputsFail()
    ensures var h, b := LegacyVins(1, [], 2), Repeat(0, 36) + [5];
      && PureRun(h, [], b, 0, 1) == Some([1] + (Repeat(0, 36) + ([0] + Repeat(0, 4))))
      && HookRun(h, [], b, 0, 1) == [1]
  {
    var h, b := LegacyVins(1, [], 2), Repeat(0, 36) + [5];
    assert b[0..36] == Repeat(0, 36);
    LastRecordCut(h, b, 46, Repeat(0, 36) + ([0] + Repeat(0, 4)));
  }

  /** No inputs at an offset past the end: the walker feeds the count, the hook nothing. */
  lemma AssertedCountFails()
    ensures var h := LegacyVins(0, [], 1);
      PureRun(h, [], [], 1, 0) == Some([0]) && HookRun(h, [], [], 1, 0) == []
  {
    assert [] + CompactSize(0) == [0];
  }

  /** The two sides on a single record that is cut off and masked. */
  lemma LastRecordCut(h: Hook, b: Bytes, len: nat, masked: Bytes)
    requires h.LegacyVins? || h.LegacyVouts?
    requires KLen(h, b, 0) == Some(len) && KChunk(h, b, 0, 0, len) == Some(masked)
    requires StepOf(h, b, 0).None?
    ensures PureRun(h, [], b, 0, 1) == Some([1] + masked) && HookRun(h, [], b, 0, 1) == [1]
  {
    var k := KReaderOf(h, b);
    assert k.len(0) == Some(len) && k.chunk(0, 0) == Some(masked);
    assert PureWalk(k, [1] + masked, len, 1, 1) == Some([1] + masked);
    assert [] + CompactSize(1) == [1];
    WalkStops(h, [1], b, 0, 0, 1);
    assert [1] + [] == [1];
  }
}
