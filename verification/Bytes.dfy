/** Byte strings and fixed-width integers, as every other module reads and writes them. */
module ByteStrings {

  type Byte = b: int | 0 <= b < 256

  type Bytes = seq<Byte>

  datatype Option<+T> = None | Some(value: T)
  {
    predicate IsFailure() {
      None?
    }

    function PropagateFailure<U>(): Option<U>
      requires IsFailure()
    {
      None
    }

    function Extract(): T
      requires !IsFailure()
    {
      value
    }
  }

  function Abs(n: int): nat {
    if n < 0 then -n else n
  }

  function Max(a: int, b: int): (r: int)
    ensures r >= a && r >= b
  {
    if a >= b then a else b
  }

  lemma Assoc<T>(a: seq<T>, b: seq<T>, c: seq<T>)
    ensures (a + b) + c == a + (b + c)
  {
  }

  /** x << 8k, that is x times 256 to the power k. */
  function Shift(k: nat, x: nat): (r: nat)
    ensures r >= x
  {
    if k == 0 then x else 256 * Shift(k - 1, x)
  }

  /** The number of k-byte strings. */
  function Pow256(k: nat): nat {
    Shift(k, 1)
  }

  lemma {:induction false} ShiftAdd(k: nat, x: nat, y: nat)
    ensures Shift(k, x + y) == Shift(k, x) + Shift(k, y)
  {
    if k > 0 {
      ShiftAdd(k - 1, x, y);
    }
  }

  lemma {:induction false} ShiftZero(k: nat)
    ensures Shift(k, 0) == 0
  {
    if k > 0 {
      ShiftZero(k - 1);
    }
  }

  lemma {:induction false} ShiftMonotone(k: nat, x: nat, y: nat)
    requires x <= y
    ensures Shift(k, x) <= Shift(k, y)
    ensures x < y ==> Shift(k, x) < Shift(k, y)
  {
    if k > 0 {
      ShiftMonotone(k - 1, x, y);
    }
  }

  lemma {:induction false} ShiftWider(j: nat, k: nat, x: nat)
    requires j <= k
    ensures Shift(j, x) <= Shift(k, x)
  {
    if j < k {
      ShiftWider(j, k - 1, x);
    }
  }

  lemma {:induction false} ShiftByte(k: nat, x: nat)
    ensures Shift(k, 256 * x) == Shift(k + 1, x)
  {
    if k > 0 {
      ShiftByte(k - 1, x);
    }
  }

  lemma Pow256Small()
    ensures Pow256(1) == 0x100
    ensures Pow256(2) == 0x1_0000
    ensures Pow256(3) == 0x100_0000
    ensures Pow256(4) == 0x1_0000_0000
    ensures Pow256(8) == 0x1_0000_0000_0000_0000
  {
  }

  /** The same byte n times. */
  function Repeat(c: Byte, n: nat): (b: Bytes)
    ensures |b| == n && forall i :: 0 <= i < n ==> b[i] == c
  {
    if n == 0 then [] else [c] + Repeat(c, n - 1)
  }

  /** A slice, if the bounds are inside the string. */
  function SubstrBytes(b: Bytes, from: int, to: int): Option<Bytes> {
    if 0 <= from <= to <= |b| then Some(b[from..to]) else None
  }

  // ---------------------------------------------------------------------------
  // Lists of records
  // ---------------------------------------------------------------------------

  /** The encodings of a list, one after another. */
  function Joined<T>(f: T -> Bytes, vs: seq<T>): Bytes {
    if vs == [] then [] else f(vs[0]) + Joined(f, vs[1..])
  }

  lemma {:induction false} JoinedSnoc<T>(f: T -> Bytes, vs: seq<T>, v: T)
    ensures Joined(f, vs + [v]) == Joined(f, vs) + f(v)
  {
    if vs == [] {
      assert vs + [v] == [v];
    } else {
      assert (vs + [v])[1..] == vs[1..] + [v];
      JoinedSnoc(f, vs[1..], v);
      Assoc(f(vs[0]), Joined(f, vs[1..]), f(v));
    }
  }

  lemma {:induction false} JoinedAppend<T>(f: T -> Bytes, xs: seq<T>, ys: seq<T>)
    ensures Joined(f, xs + ys) == Joined(f, xs) + Joined(f, ys)
  {
    if xs == [] {
      assert xs + ys == ys;
    } else {
      assert (xs + ys)[1..] == xs[1..] + ys;
      JoinedAppend(f, xs[1..], ys);
      Assoc(f(xs[0]), Joined(f, xs[1..]), Joined(f, ys));
    }
  }

  /** One more element of a list that is being joined from the front. */
  lemma JoinedNext<T>(f: T -> Bytes, vs: seq<T>, i: nat)
    requires i < |vs|
    ensures Joined(f, vs[..i + 1]) == Joined(f, vs[..i]) + f(vs[i])
  {
    assert vs[..i + 1] == vs[..i] + [vs[i]];
    JoinedSnoc(f, vs[..i], vs[i]);
  }

  /** Reading undoes the encoding, whatever follows. */
  ghost predicate Readable<T(!new)>(f: T -> Bytes, read: Bytes -> Option<(T, Bytes)>) {
    && (forall v: T, rest: Bytes :: read(f(v) + rest) == Some((v, rest)))
    && (forall v: T :: f(v) != [])
  }

  /** A joined string determines its list. */
  lemma {:induction false} JoinedInjective<T(!new)>(f: T -> Bytes, read: Bytes -> Option<(T, Bytes)>,
                                                    xs: seq<T>, ys: seq<T>)
    requires Readable(f, read) && Joined(f, xs) == Joined(f, ys)
    ensures xs == ys
    decreases |xs|
  {
    if xs != [] {
      assert f(xs[0]) != [] && xs == [xs[0]] + xs[1..];
    }
    if ys != [] {
      assert f(ys[0]) != [] && ys == [ys[0]] + ys[1..];
    }
    if xs != [] && ys != [] {
      assert read(f(xs[0]) + Joined(f, xs[1..])) == Some((xs[0], Joined(f, xs[1..])));
      assert read(f(ys[0]) + Joined(f, ys[1..])) == Some((ys[0], Joined(f, ys[1..])));
      JoinedInjective(f, read, xs[1..], ys[1..]);
    }
  }

  /** Exactly n records and nothing after them. */
  function ReadMany<T>(read: Bytes -> Option<(T, Bytes)>, b: Bytes, n: nat): Option<seq<T>>
    decreases n
  {
    if n == 0 then if b == [] then Some([]) else None
    else
      var (v, rest) :- read(b);
      var vs :- ReadMany(read, rest, n - 1);
      Some([v] + vs)
  }

  lemma {:induction false} ReadManyJoined<T(!new)>(f: T -> Bytes, read: Bytes -> Option<(T, Bytes)>, vs: seq<T>)
    requires Readable(f, read)
    ensures ReadMany(read, Joined(f, vs), |vs|) == Some(vs)
    decreases |vs|
  {
    if vs != [] {
      assert read(f(vs[0]) + Joined(f, vs[1..])) == Some((vs[0], Joined(f, vs[1..])));
      ReadManyJoined(f, read, vs[1..]);
      assert vs == [vs[0]] + vs[1..];
    }
  }

  // ---------------------------------------------------------------------------
  // Little-endian
  // ---------------------------------------------------------------------------

  /** The k low-order bytes of n, least significant first. */
  function LeBytes(n: nat, k: nat): (b: Bytes)
    ensures |b| == k
  {
    if k == 0 then [] else [n % 256] + LeBytes(n / 256, k - 1)
  }

  /** The unsigned integer a byte string denotes, least significant byte first. */
  function LeValue(b: Bytes): nat {
    if b == [] then 0 else b[0] + 256 * LeValue(b[1..])
  }

  lemma {:induction false} LeValueBound(b: Bytes)
    ensures LeValue(b) < Pow256(|b|)
  {
    if b != [] {
      LeValueBound(b[1..]);
    }
  }

  lemma {:induction false} LeValueOfBytes(n: nat, k: nat)
    requires n < Pow256(k)
    ensures LeValue(LeBytes(n, k)) == n
  {
    if k > 0 {
      LeValueOfBytes(n / 256, k - 1);
      assert LeBytes(n, k)[1..] == LeBytes(n / 256, k - 1);
    }
  }

  lemma LowByte(c: Byte, x: nat)
    ensures (c + 256 * x) % 256 == c && (c + 256 * x) / 256 == x
  {
  }

  lemma {:induction false} LeBytesOfValue(b: Bytes)
    ensures LeBytes(LeValue(b), |b|) == b
  {
    if b != [] {
      LowByte(b[0], LeValue(b[1..]));
      LeBytesOfValue(b[1..]);
      assert b == [b[0]] + b[1..];
    }
  }

  lemma {:induction false} LeValueAppend(a: Bytes, b: Bytes)
    ensures LeValue(a + b) == LeValue(a) + Shift(|a|, LeValue(b))
  {
    if a == [] {
      assert a + b == b;
    } else {
      LeValueAppend(a[1..], b);
      assert (a + b)[1..] == a[1..] + b;
    }
  }

  /** Appending one more byte on the significant end. */
  lemma LeValueSnoc(a: Bytes, c: Byte)
    ensures LeValue(a + [c]) == LeValue(a) + Shift(|a|, c)
  {
    LeValueAppend(a, [c]);
    assert LeValue([c]) == c;
  }

  /** Fixed-width reads, as code that indexes each byte writes them. */
  function Le2(a: Byte, b: Byte): nat {
    a + 0x100 * b
  }

  function Le4(a: Byte, b: Byte, c: Byte, d: Byte): nat {
    a + 0x100 * b + 0x1_0000 * c + 0x100_0000 * d
  }

  lemma LengthFields(b: Bytes)
    ensures |b| == 2 ==> LeValue(b) == Le2(b[0], b[1])
    ensures |b| == 4 ==> LeValue(b) == Le4(b[0], b[1], b[2], b[3])
  {
    if |b| == 2 || |b| == 4 {
      assert LeValue(b[1..]) == b[1] + 256 * LeValue(b[1..][1..]);
      if |b| == 4 {
        assert LeValue(b[2..]) == b[2] + 256 * LeValue(b[2..][1..]);
        assert b[1..][1..] == b[2..] && b[2..][1..] == b[3..];
      }
    }
  }

  lemma EightBytes(b: Bytes)
    requires |b| == 8
    ensures LeValue(b) == Le4(b[0], b[1], b[2], b[3]) + 0x1_0000_0000 * Le4(b[4], b[5], b[6], b[7])
  {
    var lo, hi := b[..4], b[4..];
    assert b == lo + hi;
    LeValueAppend(lo, hi);
    LengthFields(lo);
    LengthFields(hi);
    ShiftFour(LeValue(hi));
  }

  lemma ShiftFour(x: nat)
    ensures Shift(4, x) == 0x1_0000_0000 * x
  {
    assert Shift(4, x) == 256 * Shift(3, x) && Shift(2, x) == 256 * Shift(1, x);
  }

  // ---------------------------------------------------------------------------
  // Big-endian
  // ---------------------------------------------------------------------------

  /** The unsigned integer a byte string denotes, most significant byte first. */
  function BeValue(b: Bytes): nat {
    if b == [] then 0 else 256 * BeValue(b[..|b| - 1]) + b[|b| - 1]
  }

  /** The k low-order bytes of n, most significant first. */
  function BeBytes(n: nat, k: nat): (b: Bytes)
    ensures |b| == k
  {
    if k == 0 then [] else BeBytes(n / 256, k - 1) + [n % 256]
  }

  lemma {:induction false} BeValueOfBytes(n: nat, k: nat)
    requires n < Pow256(k)
    ensures BeValue(BeBytes(n, k)) == n
  {
    if k > 0 {
      BeValueOfBytes(n / 256, k - 1);
      var b := BeBytes(n, k);
      assert b[..|b| - 1] == BeBytes(n / 256, k - 1);
    }
  }

  lemma {:induction false} BeBytesOfValue(b: Bytes)
    ensures BeBytes(BeValue(b), |b|) == b
  {
    if b != [] {
      BeBytesOfValue(b[..|b| - 1]);
      assert b == b[..|b| - 1] + [b[|b| - 1]];
    }
  }
}
