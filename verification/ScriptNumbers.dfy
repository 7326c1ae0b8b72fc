/**
 Script numbers: little-endian sign-magnitude byte strings of any length. The
 repository holds three decoders and three encoders; they meet here.
 */
module ScriptNumbers {
  import opened ByteStrings

  /** b & 0x7F. */
  function LowSeven(b: Byte): Byte {
    if b >= 128 then b - 128 else b
  }

  /** The decoder of the script utilities: clear the sign bit, read, negate. */
  function Decode(e: Bytes): int {
    if e == [] then 0
    else
      var lo, hi := e[..|e| - 1], e[|e| - 1];
      var magnitude: int := LeValue(lo + [LowSeven(hi)]);
      if hi >= 128 then -magnitude else magnitude
  }

  /** The bytes of a positive integer, with no leading zero on the significant end. */
  function MagnitudeBytes(n: nat): Bytes {
    if n == 0 then [] else [n % 256] + MagnitudeBytes(n / 256)
  }

  lemma {:induction false} MagnitudeFacts(n: nat)
    ensures LeValue(MagnitudeBytes(n)) == n
    ensures n > 0 ==> var b := MagnitudeBytes(n); b != [] && b[|b| - 1] != 0
  {
    if n > 0 {
      MagnitudeFacts(n / 256);
      assert MagnitudeBytes(n)[1..] == MagnitudeBytes(n / 256);
    }
  }

  /** Where the sign goes: into the top bit when it is free, else into one more byte. */
  function WithSign(m: Bytes, negative: bool): Bytes
    requires m != []
  {
    var hi := m[|m| - 1];
    if hi >= 128 then m + [if negative then 0x80 else 0x00]
    else if negative then m[..|m| - 1] + [hi + 128]
    else m
  }

  function Encode(v: int): Bytes {
    if v == 0 then [] else WithSign(MagnitudeBytes(Abs(v)), v < 0)
  }

  /** The minimal-encoding test of the K semantics: the last byte earns its place. */
  predicate Minimal(e: Bytes) {
    || e == []
    || LowSeven(e[|e| - 1]) != 0
    || (|e| > 1 && e[|e| - 2] >= 128)
  }

  // ---------------------------------------------------------------------------
  // What a byte string of a given length can denote
  // ---------------------------------------------------------------------------

  lemma DecodeMagnitude(e: Bytes)
    requires e != []
    ensures Abs(Decode(e)) == LeValue(e[..|e| - 1]) + Shift(|e| - 1, LowSeven(e[|e| - 1]))
    ensures Decode(e) > 0 ==> e[|e| - 1] < 128
    ensures Decode(e) < 0 ==> e[|e| - 1] >= 128
  {
    LeValueSnoc(e[..|e| - 1], LowSeven(e[|e| - 1]));
  }

  /** A string of k bytes reaches magnitudes below 2^(8k-1) and no further. */
  lemma DecodeUpper(e: Bytes)
    requires e != []
    ensures Abs(Decode(e)) < Shift(|e| - 1, 128)
  {
    var lo, h := e[..|e| - 1], LowSeven(e[|e| - 1]);
    DecodeMagnitude(e);
    assert Abs(Decode(e)) == LeValue(lo) + Shift(|lo|, h);
    BelowNext(lo, h, 128);
  }

  lemma BelowNext(lo: Bytes, h: nat, limit: nat)
    requires h < limit
    ensures LeValue(lo) + Shift(|lo|, h) < Shift(|lo|, limit)
  {
    LeValueBound(lo);
    ShiftMonotone(|lo|, h + 1, limit);
    ShiftAdd(|lo|, h, 1);
  }

  /** A last byte that is not zero apart from the sign weighs at least 256^n. */
  lemma LastByteCounts(n: nat, h: nat)
    requires h > 0
    ensures Shift(n, h) >= 1 && (n > 0 ==> Shift(n, h) >= Shift(n - 1, 128))
  {
    ShiftMonotone(n, 1, h);
    if n > 0 {
      ShiftByte(n - 1, 1);
      ShiftMonotone(n - 1, 128, 256);
    }
  }

  /** So does a byte before it with its top bit set. */
  lemma ByteBeforeCounts(lo: Bytes)
    requires lo != [] && lo[|lo| - 1] >= 128
    ensures LeValue(lo) >= Shift(|lo| - 1, 128)
  {
  }

  /** A minimal string of k bytes denotes a magnitude that k-1 bytes cannot reach. */
  lemma MinimalLower(e: Bytes)
    requires e != [] && Minimal(e)
    ensures |e| == 1 ==> Abs(Decode(e)) >= 1
    ensures |e| > 1 ==> Abs(Decode(e)) >= Shift(|e| - 2, 128)
  {
    DecodeMagnitude(e);
    var n, h := |e| - 1, LowSeven(e[|e| - 1]);
    if h != 0 {
      LastByteCounts(n, h);
    } else {
      ByteBeforeCounts(e[..n]);
    }
  }

  // ---------------------------------------------------------------------------
  // Round trips
  // ---------------------------------------------------------------------------

  /** Decoding looks only at the last byte's low seven bits and its top bit. */
  lemma DecodeParts(e: Bytes, lo: Bytes, hi: Byte)
    requires e == lo + [hi]
    ensures Decode(e) == if hi >= 128 then -((LeValue(lo) + Shift(|lo|, hi - 128)) as int)
                         else LeValue(lo) + Shift(|lo|, hi)
  {
    assert e[..|e| - 1] == lo;
    LeValueSnoc(lo, LowSeven(hi));
  }

  lemma WithSignDecodes(m: Bytes, negative: bool, e: Bytes)
    requires m != [] && e == WithSign(m, negative)
    ensures Decode(e) == if negative then -(LeValue(m) as int) else LeValue(m)
  {
    var lo, hi := m[..|m| - 1], m[|m| - 1];
    assert m == lo + [hi];
    LeValueSnoc(lo, hi);
    ShiftZero(|m|);
    if hi >= 128 {
      DecodeParts(e, m, e[|m|]);
    } else {
      DecodeParts(e, lo, e[|lo|]);
    }
  }

  lemma WithSignMinimal(m: Bytes, negative: bool)
    requires m != [] && m[|m| - 1] != 0
    ensures Minimal(WithSign(m, negative))
  {
  }

  lemma EncodeRoundTrip(v: int)
    ensures Decode(Encode(v)) == v
    ensures Minimal(Encode(v))
  {
    if v != 0 {
      MagnitudeFacts(Abs(v));
      WithSignDecodes(MagnitudeBytes(Abs(v)), v < 0, Encode(v));
      WithSignMinimal(MagnitudeBytes(Abs(v)), v < 0);
    }
  }

  /** Two minimal encodings of one number are the same bytes. */
  lemma MinimalUnique(a: Bytes, b: Bytes)
    requires Minimal(a) && Minimal(b) && Decode(a) == Decode(b)
    ensures a == b
  {
    if a != [] { MinimalLower(a); }
    if b != [] { MinimalLower(b); }
    if a != [] && b != [] {
      MinimalNoLonger(a, b);
      MinimalNoLonger(b, a);
      SameMagnitude(a, b);
    }
  }

  lemma SameMagnitude(a: Bytes, b: Bytes)
    requires |a| == |b| > 0 && Decode(a) == Decode(b) != 0
    ensures a == b
  {
    var n := |a| - 1;
    var x, y := a[..n] + [LowSeven(a[n])], b[..n] + [LowSeven(b[n])];
    assert LeValue(x) == LeValue(y);
    LeBytesOfValue(x);
    LeBytesOfValue(y);
    assert a[..n] == x[..n] == y[..n] == b[..n];
    assert LowSeven(a[n]) == x[n] == y[n] == LowSeven(b[n]);
    assert a == a[..n] + [a[n]] && b == b[..n] + [b[n]];
  }

  /** No encoding of the same number is shorter than a minimal one. */
  lemma MinimalNoLonger(shortest: Bytes, e: Bytes)
    requires Minimal(shortest) && Decode(shortest) == Decode(e)
    ensures |shortest| <= |e|
  {
    if shortest != [] {
      MinimalLower(shortest);
      if e != [] {
        DecodeUpper(e);
        if |shortest| > |e| {
          ShiftWider(|e| - 1, |shortest| - 2, 128);
        }
      }
    }
  }

  /** Re-encoding is the identity on minimal strings and on no others; it never lengthens. */
  lemma DecodeRoundTrip(e: Bytes)
    ensures Encode(Decode(e)) == e <==> Minimal(e)
    ensures |Encode(Decode(e))| <= |e|
  {
    EncodeRoundTrip(Decode(e));
    MinimalNoLonger(Encode(Decode(e)), e);
    if Minimal(e) {
      MinimalUnique(e, Encode(Decode(e)));
    }
  }

  lemma EncodeInjective(a: int, b: int)
    requires Encode(a) == Encode(b)
    ensures a == b
  {
    EncodeRoundTrip(a);
    EncodeRoundTrip(b);
  }

  /** k bytes are enough exactly for the magnitudes below 2^(8k-1). */
  lemma EncodeLength(v: int, k: nat)
    requires k >= 1
    ensures |Encode(v)| <= k <==> Abs(v) < Shift(k - 1, 128)
  {
    EncodeRoundTrip(v);
    var e := Encode(v);
    if e == [] {
      assert v == 0;
    } else if |e| <= k {
      DecodeUpper(e);
      ShiftWider(|e| - 1, k - 1, 128);
    } else {
      MinimalLower(e);
      ShiftWider(k - 1, |e| - 2, 128);
    }
  }

  // ---------------------------------------------------------------------------
  // The loops of the engine's stack
  // ---------------------------------------------------------------------------

  method ElementToInt(element: Bytes) returns (result: int)
    ensures result == Decode(element)
  {
    if element == [] {
      return 0;
    }
    result := 0;
    for i := 0 to |element|
      invariant result == LeValue(element[..i])
    {
      assert element[..i + 1] == element[..i] + [element[i]];
      LeValueSnoc(element[..i], element[i]);
      result := result + Shift(i, element[i]);
    }
    assert element[..|element|] == element;
    var n := |element| - 1;
    LeValueSnoc(element[..n], element[n]);
    LeValueSnoc(element[..n], LowSeven(element[n]));
    assert element == element[..n] + [element[n]];
    if element[n] >= 128 {
      ShiftAdd(n, 128, LowSeven(element[n]));
      result := -(result - Shift(n, 128));
    }
  }

  method IntToElement(value: int) returns (result: Bytes)
    ensures result == Encode(value)
  {
    if value == 0 {
      return [];
    }
    result := MagnitudeLoop(Abs(value));
    MagnitudeFacts(Abs(value));
    result := PlaceSign(result, value < 0);
  }

  /** The loop over the low bytes. */
  method MagnitudeLoop(value: nat) returns (result: Bytes)
    ensures result == MagnitudeBytes(value)
  {
    var absVal := value;
    result := [];
    while absVal > 0
      invariant result + MagnitudeBytes(absVal) == MagnitudeBytes(value)
    {
      Assoc(result, [absVal % 256], MagnitudeBytes(absVal / 256));
      result := result + [absVal % 256];
      absVal := absVal / 256;
    }
    assert result + [] == result;
  }

  /** The sign goes into the last byte, or into one more. */
  method PlaceSign(m: Bytes, negative: bool) returns (result: Bytes)
    requires m != []
    ensures result == WithSign(m, negative)
  {
    var last := |m| - 1;
    if m[last] >= 128 {
      result := m + [if negative then 0x80 else 0x00];
    } else if negative {
      result := m[..last] + [m[last] + 128];
    } else {
      result := m;
    }
  }

  /** Truth is "not zero", negative zero included: the byte scan and the number agree. */
  method ElementToBool(element: Bytes) returns (truth: bool)
    ensures truth <==> Decode(element) != 0
  {
    if element == [] {
      return false;
    }
    DecodeMagnitude(element);
    var n := |element| - 1;
    for i := 0 to |element|
      invariant forall k :: 0 <= k < i ==> element[k] == 0
    {
      if element[i] != 0 {
        if i == n && element[i] == 0x80 {
          ZeroBytes(element[..n]);
          ShiftZero(n);
          return false;
        }
        if i < n {
          NonzeroByte(element[..n], i);
        }
        return true;
      }
    }
    ZeroBytes(element[..n]);
    ShiftZero(n);
    return false;
  }

  lemma {:induction false} ZeroBytes(b: Bytes)
    requires forall k :: 0 <= k < |b| ==> b[k] == 0
    ensures LeValue(b) == 0
  {
    if b != [] {
      ZeroBytes(b[1..]);
    }
  }

  lemma {:induction false} NonzeroByte(b: Bytes, i: nat)
    requires i < |b| && b[i] != 0
    ensures LeValue(b) > 0
  {
    if i > 0 {
      NonzeroByte(b[1..], i - 1);
    }
  }

  // ---------------------------------------------------------------------------
  // The table-driven encoder of the K semantics
  // ---------------------------------------------------------------------------

  /** Eight ranges, one rule each; beyond four magnitude bytes no rule applies. */
  function KMagnitude(n: nat): Option<Bytes> {
    if n == 0 then None
    else if n < 128 then Some(LeBytes(n, 1))
    else if n < 256 then Some(LeBytes(n, 1) + [0])
    else if n < 32768 then Some(LeBytes(n, 2))
    else if n < 65536 then Some(LeBytes(n, 2) + [0])
    else if n < 8388608 then Some(LeBytes(n, 3))
    else if n < 16777216 then Some(LeBytes(n, 3) + [0])
    else if n < 2147483648 then Some(LeBytes(n, 4))
    else if n < 4294967296 then Some(LeBytes(n, 4) + [0])
    else None
  }

  function KEncode(v: int): Option<Bytes> {
    if v == 0 then Some([])
    else
      match KMagnitude(Abs(v))
      case None => None
      case Some(m) =>
        var last := |m| - 1;
        assert m != [];
        if v > 0 then Some(m)
        else Some(m[..last] + [if m[last] >= 128 then m[last] else m[last] + 128])
  }

  /** The top byte of n in k bytes. */
  lemma TopByte(n: nat, k: nat)
    requires k >= 1 && n < Pow256(k)
    ensures n == LeValue(LeBytes(n, k)[..k - 1]) + Shift(k - 1, LeBytes(n, k)[k - 1])
    ensures n < Shift(k - 1, 128) <==> LeBytes(n, k)[k - 1] < 128
    ensures n >= Pow256(k - 1) ==> LeBytes(n, k)[k - 1] > 0
  {
    var b := LeBytes(n, k);
    LeValueOfBytes(n, k);
    assert b == b[..k - 1] + [b[k - 1]];
    LeValueSnoc(b[..k - 1], b[k - 1]);
    LeValueBound(b[..k - 1]);
    var t := b[k - 1];
    ShiftZero(k - 1);
    if t >= 128 {
      ShiftMonotone(k - 1, 128, t);
    } else {
      ShiftMonotone(k - 1, t + 1, 128);
      ShiftAdd(k - 1, t, 1);
    }
  }

  lemma ShiftSmall()
    ensures Shift(0, 128) == 128 && Shift(1, 128) == 32768
    ensures Shift(2, 128) == 8388608 && Shift(3, 128) == 2147483648
  {
  }

  /** The K table and the Python loop build the same bytes wherever the table has a rule. */
  lemma KEncodeAgrees(v: int)
    ensures KEncode(v) == if Abs(v) < Pow256(4) then Some(Encode(v)) else None
  {
    Pow256Small();
    ShiftSmall();
    var n := Abs(v);
    if n == 0 {
    } else if n < 256 {
      KEncodeWidth(v, 1);
    } else if n < 65536 {
      KEncodeWidth(v, 2);
    } else if n < 16777216 {
      KEncodeWidth(v, 3);
    } else if n < 4294967296 {
      KEncodeWidth(v, 4);
    }
  }

  lemma KEncodeWidth(v: int, k: nat)
    requires v != 0 && k >= 1 && Pow256(k - 1) <= Abs(v) < Pow256(k)
    requires var b := LeBytes(Abs(v), k);
      KMagnitude(Abs(v)) == Some(if Abs(v) < Shift(k - 1, 128) then b else b + [0])
    ensures KEncode(v) == Some(Encode(v))
  {
    var b := LeBytes(Abs(v), k);
    TopByte(Abs(v), k);
    LeValueOfBytes(Abs(v), k);
    WithSignDecodes(b, v < 0, WithSign(b, v < 0));
    WithSignMinimal(b, v < 0);
    assert KEncode(v).value == WithSign(b, v < 0);
    EncodeRoundTrip(v);
    MinimalUnique(WithSign(b, v < 0), Encode(v));
  }

  /** The K decoder: the string as it is, or with the sign bit cleared and negated. */
  function KDecode(b: Bytes): int {
    if b == [] then 0
    else if b[|b| - 1] < 128 then LeValue(b)
    else -(LeValue(b[..|b| - 1] + [LowSeven(b[|b| - 1])]) as int)
  }

  lemma KDecodeAgrees(b: Bytes)
    ensures KDecode(b) == Decode(b)
  {
    if b != [] {
      assert b == b[..|b| - 1] + [b[|b| - 1]];
    }
  }

  /**
   What the K semantics assert of their numbers, on every number their table covers: decoding
   inverts encoding, the encoding is minimal, and four bytes are enough up to 2147483647.
   */
  lemma KNumbersHold(v: int)
    requires KEncode(v).Some?
    ensures KDecode(KEncode(v).value) == v && Minimal(KEncode(v).value)
    ensures |KEncode(v).value| <= 4 <==> -2147483647 <= v <= 2147483647
  {
    KEncodeAgrees(v);
    EncodeRoundTrip(v);
    KDecodeAgrees(Encode(v));
    ShiftSmall();
    EncodeLength(v, 4);
  }
}
