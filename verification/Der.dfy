/**
 Strict DER signatures (BIP 66) as the K semantics recognise them: the recogniser accepts
 exactly the canonical encodings, and R and S are recovered when they fit 32 bytes.
 */
module Der {
  import opened ByteStrings

  // ---------------------------------------------------------------------------
  // The recogniser, condition by condition
  // ---------------------------------------------------------------------------

  predicate IsValidDer(sig: Bytes) {
    if |sig| < 9 then false
    else if |sig| > 73 then false
    else CheckInner(sig)
  }

  function ByteAt(b: Bytes, i: nat): int
    requires i < |b|
  {
    b[i]
  }

  /** Length of the R contents. */
  function RLength(sig: Bytes): int
    requires |sig| >= 4
  {
    ByteAt(sig, 3)
  }

  /** Length of the S contents. */
  function SLength(sig: Bytes): int
    requires |sig| >= 4 && 5 + RLength(sig) < |sig|
  {
    ByteAt(sig, 5 + RLength(sig))
  }

  /** Every index the conditions reach is inside the string. */
  predicate CheckInner(sig: Bytes)
    requires |sig| >= 9
  {
    var r := RLength(sig);
    && sig[0] == 0x30
    && sig[1] == |sig| - 3
    && sig[2] == 0x02
    && 1 <= r <= |sig| - 7
    && sig[4] < 128
    && (r <= 1 || sig[4] != 0 || sig[5] >= 128)
    && sig[4 + r] == 0x02
    && var s := SLength(sig);
    && s >= 1
    && 6 + r + s == |sig| - 1
    && sig[6 + r] < 128
    && (s <= 1 || sig[6 + r] != 0 || sig[6 + r + 1] >= 128)
  }

  // ---------------------------------------------------------------------------
  // The encoding it stands for
  // ---------------------------------------------------------------------------

  /** A DER integer that is not negative and has no byte too many. */
  predicate MinimalInteger(b: Bytes) {
    && b != []
    && b[0] < 128
    && (|b| == 1 || b[0] != 0 || b[1] >= 128)
  }

  datatype Signature = Signature(r: Bytes, s: Bytes, hashType: Byte)
  {
    predicate Canonical() {
      MinimalInteger(r) && MinimalInteger(s) && 9 <= 7 + |r| + |s| <= 73
    }
  }

  /** Tag, length and contents of an integer. */
  function Integer(b: Bytes): Bytes
    requires |b| < 256
  {
    [0x02, |b|] + b
  }

  function Encode(v: Signature): (b: Bytes)
    requires v.Canonical()
    ensures |b| == 7 + |v.r| + |v.s|
  {
    [0x30, 4 + |v.r| + |v.s|] + (Integer(v.r) + (Integer(v.s) + [v.hashType]))
  }

  /** The only candidate, read off by the two length bytes. */
  function Decode(sig: Bytes): Signature
    requires IsValidDer(sig)
  {
    var r, s := RLength(sig), SLength(sig);
    Signature(sig[4..4 + r], sig[6 + r..6 + r + s], sig[|sig| - 1])
  }

  lemma EncodingsAreValid(v: Signature)
    requires v.Canonical()
    ensures IsValidDer(Encode(v)) && Decode(Encode(v)) == v
  {
  }

  lemma ValidAreEncodings(sig: Bytes)
    requires IsValidDer(sig)
    ensures Decode(sig).Canonical() && Encode(Decode(sig)) == sig
  {
  }

  /** A string is accepted if and only if it is the encoding of a canonical signature, and of one only. */
  lemma RecogniserIsExact(sig: Bytes)
    ensures IsValidDer(sig) <==> exists v: Signature :: v.Canonical() && Encode(v) == sig
    ensures forall v: Signature, w: Signature ::
      v.Canonical() && w.Canonical() && Encode(v) == sig && Encode(w) == sig ==> v == w
  {
    if IsValidDer(sig) {
      ValidAreEncodings(sig);
    }
    forall v: Signature | v.Canonical() && Encode(v) == sig ensures IsValidDer(sig) && v == Decode(sig) {
      EncodingsAreValid(v);
    }
  }

  // ---------------------------------------------------------------------------
  // The integers
  // ---------------------------------------------------------------------------

  lemma {:induction false} BeValueBound(b: Bytes)
    ensures BeValue(b) < Pow256(|b|)
  {
    if b != [] {
      BeValueBound(b[..|b| - 1]);
    }
  }

  /** Minimal integers of different lengths have different values. */
  lemma LongerIsGreater(a: Bytes, b: Bytes)
    requires MinimalInteger(a) && MinimalInteger(b) && |a| < |b|
    ensures BeValue(a) < BeValue(b)
  {
  }

  lemma MinimalIntegersUnique(a: Bytes, b: Bytes)
    requires MinimalInteger(a) && MinimalInteger(b) && BeValue(a) == BeValue(b)
    ensures a == b
  {
    if |a| < |b| {
      LongerIsGreater(a, b);
    } else if |b| < |a| {
      LongerIsGreater(b, a);
    } else {
      BeBytesOfValue(a);
      BeBytesOfValue(b);
    }
  }

  /** Two accepted strings with the same R, S and hash type are the same string. */
  lemma NoTwoEncodings(a: Bytes, b: Bytes)
    requires IsValidDer(a) && IsValidDer(b)
    requires var v, w := Decode(a), Decode(b);
      BeValue(v.r) == BeValue(w.r) && BeValue(v.s) == BeValue(w.s) && v.hashType == w.hashType
    ensures a == b
  {
    ValidAreEncodings(a);
    ValidAreEncodings(b);
    MinimalIntegersUnique(Decode(a).r, Decode(b).r);
    MinimalIntegersUnique(Decode(a).s, Decode(b).s);
  }

  /** `derR` and `derS`: the contents as 32 bytes, higher bytes dropped. */
  function NormTo32(b: Bytes): (r: Bytes)
    ensures |r| == 32
  {
    BeBytes(BeValue(b), 32)
  }

  function DerR(sig: Bytes): Option<Bytes> {
    if |sig| < 4 then None
    else
      var r :- SubstrBytes(sig, 4, 4 + RLength(sig));
      Some(NormTo32(r))
  }

  function DerS(sig: Bytes): Option<Bytes> {
    if |sig| < 4 || |sig| <= 5 + RLength(sig) then None
    else
      var at := 6 + RLength(sig);
      var s :- SubstrBytes(sig, at, at + SLength(sig));
      Some(NormTo32(s))
  }

  lemma NormalisedValue(b: Bytes)
    ensures BeValue(NormTo32(b)) == BeValue(b) <==> BeValue(b) < Pow256(32)
  {
    BeValueBound(NormTo32(b));
    if BeValue(b) < Pow256(32) {
      BeValueOfBytes(BeValue(b), 32);
    }
  }

  /** On accepted strings both halves are defined, and right exactly when they fit 32 bytes. */
  lemma IntegersRecovered(sig: Bytes)
    requires IsValidDer(sig)
    ensures DerR(sig).Some? && DerS(sig).Some?
    ensures var v := Decode(sig);
      && (BeValue(DerR(sig).value) == BeValue(v.r) <==> BeValue(v.r) < Pow256(32))
      && (BeValue(DerS(sig).value) == BeValue(v.s) <==> BeValue(v.s) < Pow256(32))
  {
    NormalisedValue(Decode(sig).r);
    NormalisedValue(Decode(sig).s);
  }
}
