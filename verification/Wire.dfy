/** The transaction wire format: compact sizes, inputs, outputs, and reading them back. */
module Wire {
  import opened ByteStrings

  const SIZE_MAX: nat := 0xFFFF_FFFF_FFFF_FFFF

  // ---------------------------------------------------------------------------
  // Compact sizes
  // ---------------------------------------------------------------------------

  /** The Python and C encoders; a number that does not fit eight bytes has no encoding. */
  function CompactSize(n: nat): (b: Bytes)
    requires n <= SIZE_MAX
    ensures 1 <= |b| <= 9
  {
    if n <= 252 then [n]
    else if n <= 0xFFFF then [0xFD] + LeBytes(n, 2)
    else if n <= 0xFFFF_FFFF then [0xFE] + LeBytes(n, 4)
    else [0xFF] + LeBytes(n, 8)
  }

  /** The width of the number after a marker byte. */
  function MarkerWidth(marker: Byte): nat {
    if marker < 0xFD then 0 else if marker == 0xFD then 2 else if marker == 0xFE then 4 else 8
  }

  /** Value and total width of the compact size at `o`, or nothing if it is cut off. */
  function CompactSizeAt(b: Bytes, o: nat): Option<(nat, nat)> {
    if o >= |b| then None
    else
      var w := MarkerWidth(b[o]);
      if o + 1 + w > |b| then None
      else Some((if w == 0 then b[o] else LeValue(b[o + 1..o + 1 + w]), 1 + w))
  }

  lemma CompactSizeReads(n: nat, b: Bytes, o: nat, rest: Bytes)
    requires n <= SIZE_MAX && o <= |b| && b[o..] == CompactSize(n) + rest
    ensures CompactSizeAt(b, o) == Some((n, |CompactSize(n)|))
  {
    var c := CompactSize(n);
    var w := MarkerWidth(c[0]);
    assert b[o] == b[o..][0] == c[0];
    assert |c| == 1 + w;
    assert b[o + 1..o + 1 + w] == b[o..][1..1 + w] == c[1..];
    Pow256Small();
    if w > 0 {
      assert c[1..] == LeBytes(n, w);
      LeValueOfBytes(n, w);
    }
  }

  // ---------------------------------------------------------------------------
  // Records
  // ---------------------------------------------------------------------------

  type UInt32 = n: int | 0 <= n < 0x1_0000_0000

  type Int64 = n: int | -0x8000_0000_0000_0000 <= n < 0x8000_0000_0000_0000

  type Hash = b: Bytes | |b| == 32 witness [0, 0, 0, 0, 0, 0, 0, 0, 0, 0, 0, 0, 0, 0, 0, 0,
                                            0, 0, 0, 0, 0, 0, 0, 0, 0, 0, 0, 0, 0, 0, 0, 0]

  /** A script short enough for its length to be written. */
  type Script = b: Bytes | |b| <= SIZE_MAX

  datatype TxIn = TxIn(txid: Hash, vout: UInt32, scriptSig: Script, sequence: UInt32)

  datatype TxOut = TxOut(value: Int64, script: Script)

  /** Four bytes, little-endian. */
  function U32(n: UInt32): (b: Bytes)
    ensures |b| == 4
  {
    LeBytes(n, 4)
  }

  /** Eight bytes, little-endian, two's complement. */
  function I64(n: Int64): (b: Bytes)
    ensures |b| == 8
  {
    LeBytes(if n < 0 then n + 0x1_0000_0000_0000_0000 else n, 8)
  }

  function Outpoint(v: TxIn): (b: Bytes)
    ensures |b| == 36
  {
    v.txid + U32(v.vout)
  }

  /** A script behind its length. */
  function Sized(s: Script): Bytes {
    CompactSize(|s|) + s
  }

  function InBytes(v: TxIn): Bytes {
    Outpoint(v) + (Sized(v.scriptSig) + U32(v.sequence))
  }

  function OutBytes(v: TxOut): Bytes {
    I64(v.value) + Sized(v.script)
  }

  /** The records one after another. */
  function Ins(vs: seq<TxIn>): Bytes {
    Joined(InBytes, vs)
  }

  function Outs(vs: seq<TxOut>): Bytes {
    Joined(OutBytes, vs)
  }

  // ---------------------------------------------------------------------------
  // Reading records back
  // ---------------------------------------------------------------------------

  function ReadU32(b: Bytes): UInt32
    requires |b| == 4
  {
    LeValueBound(b);
    Pow256Small();
    LeValue(b)
  }

  function ReadI64(b: Bytes): Int64
    requires |b| == 8
  {
    LeValueBound(b);
    Pow256Small();
    var n := LeValue(b);
    if n >= 0x8000_0000_0000_0000 then n - 0x1_0000_0000_0000_0000 else n
  }

  lemma FixedWidthRoundTrip(u: UInt32, i: Int64)
    ensures ReadU32(U32(u)) == u && ReadI64(I64(i)) == i
  {
    Pow256Small();
    LeValueOfBytes(u, 4);
    LeValueOfBytes(if i < 0 then i + 0x1_0000_0000_0000_0000 else i, 8);
  }

  /** A script behind its length, and what follows it. */
  function ReadSized(b: Bytes): Option<(Script, Bytes)> {
    match CompactSizeAt(b, 0)
    case None => None
    case Some((n, w)) =>
      if n > SIZE_MAX || w + n > |b| then None else Some((b[w..w + n], b[w + n..]))
  }

  lemma SizedRoundTrip(s: Script, rest: Bytes)
    ensures ReadSized(Sized(s) + rest) == Some((s, rest))
  {
    var b := Sized(s) + rest;
    Assoc(CompactSize(|s|), s, rest);
    assert b[0..] == b;
    CompactSizeReads(|s|, b, 0, s + rest);
    var w := |CompactSize(|s|)|;
    assert b[w..] == s + rest;
    assert b[w..w + |s|] == b[w..][..|s|] == s;
    assert b[w + |s|..] == b[w..][|s|..] == rest;
  }

  function ReadIn(b: Bytes): Option<(TxIn, Bytes)> {
    if |b| < 36 then None
    else
      match ReadSized(b[36..])
      case None => None
      case Some((script, rest)) =>
        if |rest| < 4 then None
        else Some((TxIn(b[..32], ReadU32(b[32..36]), script, ReadU32(rest[..4])), rest[4..]))
  }

  function ReadOut(b: Bytes): Option<(TxOut, Bytes)> {
    if |b| < 8 then None
    else
      match ReadSized(b[8..])
      case None => None
      case Some((script, rest)) => Some((TxOut(ReadI64(b[..8]), script), rest))
  }

  lemma InRoundTrip(v: TxIn, rest: Bytes)
    ensures ReadIn(InBytes(v) + rest) == Some((v, rest))
  {
    var b, s, q := InBytes(v) + rest, Sized(v.scriptSig), U32(v.sequence);
    Assoc(Outpoint(v), s + q, rest);
    Assoc(s, q, rest);
    assert b[36..] == s + (q + rest) && b[..32] == v.txid && b[32..36] == U32(v.vout);
    SizedRoundTrip(v.scriptSig, q + rest);
    assert (q + rest)[..4] == q && (q + rest)[4..] == rest;
    FixedWidthRoundTrip(v.vout, 0);
    FixedWidthRoundTrip(v.sequence, 0);
  }

  lemma OutRoundTrip(v: TxOut, rest: Bytes)
    ensures ReadOut(OutBytes(v) + rest) == Some((v, rest))
  {
    var b := OutBytes(v) + rest;
    Assoc(I64(v.value), Sized(v.script), rest);
    assert b[..8] == I64(v.value) && b[8..] == Sized(v.script) + rest;
    SizedRoundTrip(v.script, rest);
    FixedWidthRoundTrip(0, v.value);
  }

  lemma InsReadable()
    ensures Readable(InBytes, ReadIn)
  {
    forall v: TxIn, rest: Bytes ensures ReadIn(InBytes(v) + rest) == Some((v, rest)) {
      InRoundTrip(v, rest);
    }
  }

  lemma OutsReadable()
    ensures Readable(OutBytes, ReadOut)
  {
    forall v: TxOut, rest: Bytes ensures ReadOut(OutBytes(v) + rest) == Some((v, rest)) {
      OutRoundTrip(v, rest);
    }
  }

  /** A block of inputs or outputs: the count, then the records. */
  function ReadInBlock(b: Bytes): Option<seq<TxIn>> {
    match CompactSizeAt(b, 0)
    case None => None
    case Some((n, w)) => ReadMany(ReadIn, b[w..], n)
  }

  function ReadOutBlock(b: Bytes): Option<seq<TxOut>> {
    match CompactSizeAt(b, 0)
    case None => None
    case Some((n, w)) => ReadMany(ReadOut, b[w..], n)
  }

  lemma BlocksRoundTrip(ins: seq<TxIn>, outs: seq<TxOut>)
    requires |ins| <= SIZE_MAX && |outs| <= SIZE_MAX
    ensures ReadInBlock(CompactSize(|ins|) + Ins(ins)) == Some(ins)
    ensures ReadOutBlock(CompactSize(|outs|) + Outs(outs)) == Some(outs)
  {
    var b, c := CompactSize(|ins|) + Ins(ins), CompactSize(|outs|) + Outs(outs);
    assert b[0..] == b && c[0..] == c;
    CompactSizeReads(|ins|, b, 0, Ins(ins));
    CompactSizeReads(|outs|, c, 0, Outs(outs));
    assert b[|CompactSize(|ins|)|..] == Ins(ins) && c[|CompactSize(|outs|)|..] == Outs(outs);
    InsReadable();
    OutsReadable();
    ReadManyJoined(InBytes, ReadIn, ins);
    ReadManyJoined(OutBytes, ReadOut, outs);
  }

  // ---------------------------------------------------------------------------
  // The blob the verifier hands over
  // ---------------------------------------------------------------------------

  predicate AllFound(ps: seq<Option<TxOut>>) {
    forall i :: 0 <= i < |ps| ==> ps[i].Some?
  }

  function Found(ps: seq<Option<TxOut>>): (vs: seq<TxOut>)
    requires AllFound(ps)
    ensures |vs| == |ps| && forall i :: 0 <= i < |ps| ==> vs[i] == ps[i].value
  {
    seq(|ps|, i requires 0 <= i < |ps| => ps[i].value)
  }

  predicate NoneNegative(vs: seq<TxOut>) {
    forall i :: 0 <= i < |vs| ==> vs[i].value >= 0
  }

  /** Empty unless every prevout is known; an amount that does not fit 8 unsigned bytes raises. */
  method PrevoutsBlob(ps: seq<Option<TxOut>>) returns (r: Option<Bytes>)
    ensures r ==
      if !AllFound(ps) then Some([])
      else if NoneNegative(Found(ps)) then Some(Outs(Found(ps)))
      else None
  {
    if AllFound(ps) {
      r := JoinPrevouts(Found(ps));
    } else {
      r := Some([]);
    }
  }

  method JoinPrevouts(vs: seq<TxOut>) returns (r: Option<Bytes>)
    ensures r == if NoneNegative(vs) then Some(Outs(vs)) else None
  {
    var blob: Bytes := [];
    for i := 0 to |vs|
      invariant blob == Outs(vs[..i]) && NoneNegative(vs[..i])
    {
      var v := vs[i];
      if v.value < 0 {
        return None;
      }
      blob := AppendPrevout(blob, v, vs[..i]);
      assert vs[..i + 1] == vs[..i] + [v];
    }
    assert vs[..|vs|] == vs;
    return Some(blob);
  }

  method AppendPrevout(blob: Bytes, v: TxOut, ghost before: seq<TxOut>) returns (r: Bytes)
    requires v.value >= 0 && blob == Outs(before)
    ensures r == Outs(before + [v])
  {
    r := blob + LeBytes(v.value, 8);
    r := r + (CompactSize(|v.script|) + v.script);
    JoinedSnoc(OutBytes, before, v);
    Assoc(blob, I64(v.value), Sized(v.script));
  }
}
