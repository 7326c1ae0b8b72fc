/**
 What the opcodes do, said of the bytes in a script: the effect of each on any stacks, the
 limits, the bytes that do nothing or fail, and equalities between short programs.
 */
module OpcodeLaws {
  import opened ByteStrings
  import opened ScriptNumbers
  import opened Stack
  import opened Semantics
  import Operations

  /** On top of any stacks, the opcode replaces these elements by those. */
  ghost predicate Does(op: Byte, before: seq<Element>, after: seq<Element>, ctx: Context) {
    forall base, alt :: Execute(op, Stacks(base + before, alt), ctx) == Ok(Stacks(base + after, alt))
  }

  /** It fails this way on top of any stacks. */
  ghost predicate Fails(op: Byte, before: seq<Element>, error: ScriptError, ctx: Context) {
    forall base, alt :: Execute(op, Stacks(base + before, alt), ctx) == Err(error)
  }

  function Flag(b: bool): Element {
    if b then [0x01] else []
  }

  /** The opcode goes to the table. */
  predicate Tabled(op: Byte) {
    && Arity(op) > 0 && !IsInvalid(op) && !IsNop(op) && !IsDisabled(op)
    && op != OP_CODESEPARATOR && op != OP_TOALTSTACK && op != OP_FROMALTSTACK
    && op != OP_CHECKLOCKTIMEVERIFY && op != OP_CHECKSEQUENCEVERIFY
    && !(OP_CHECKSIG <= op <= OP_CHECKMULTISIGVERIFY)
  }

  lemma RowDoes(op: Byte, before: seq<Element>, after: seq<Element>, ctx: Context)
    requires Tabled(op) && Arity(op) == |before| && Produce(op, before) == Ok(after)
    ensures Does(op, before, after, ctx)
  {
    forall base, alt
      ensures Execute(op, Stacks(base + before, alt), ctx) == Ok(Stacks(base + after, alt))
    {
      Operations.TableOn(op, Stacks(base + before, alt), base, before);
    }
  }

  lemma RowFails(op: Byte, before: seq<Element>, error: ScriptError, ctx: Context)
    requires Tabled(op) && Arity(op) == |before| && Produce(op, before) == Err(error)
    ensures Fails(op, before, error, ctx)
  {
    forall base, alt ensures Execute(op, Stacks(base + before, alt), ctx) == Err(error) {
      Operations.TableOn(op, Stacks(base + before, alt), base, before);
    }
  }

  // ---------------------------------------------------------------------------
  // Moving elements
  // ---------------------------------------------------------------------------

  lemma OneElement(x: Element, ctx: Context)
    ensures Does(0x73, [x], if Decode(x) != 0 then [x, x] else [x], ctx)
    ensures Does(0x75, [x], [], ctx)
    ensures Does(0x76, [x], [x, x], ctx)
    ensures Does(0x82, [x], [x, Encode(|x|)], ctx)
  {
    RowDoes(0x73, [x], if Decode(x) != 0 then [x, x] else [x], ctx);
    RowDoes(0x75, [x], [], ctx);
    RowDoes(0x76, [x], [x, x], ctx);
    RowDoes(0x82, [x], [x, Encode(|x|)], ctx);
  }

  lemma TwoElements(x: Element, y: Element, ctx: Context)
    ensures Does(0x6D, [x, y], [], ctx)
    ensures Does(0x6E, [x, y], [x, y, x, y], ctx)
    ensures Does(0x77, [x, y], [y], ctx)
    ensures Does(0x78, [x, y], [x, y, x], ctx)
    ensures Does(0x7C, [x, y], [y, x], ctx)
    ensures Does(0x7D, [x, y], [y, x, y], ctx)
  {
    RowDoes(0x6D, [x, y], [], ctx);
    RowDoes(0x6E, [x, y], [x, y, x, y], ctx);
    RowDoes(0x77, [x, y], [y], ctx);
    RowDoes(0x78, [x, y], [x, y, x], ctx);
    RowDoes(0x7C, [x, y], [y, x], ctx);
    RowDoes(0x7D, [x, y], [y, x, y], ctx);
  }

  lemma ThreeElements(x: Element, y: Element, z: Element, ctx: Context)
    ensures Does(0x6F, [x, y, z], [x, y, z, x, y, z], ctx)
    ensures Does(0x7B, [x, y, z], [y, z, x], ctx)
  {
    assert [x, y, z] + [x, y, z] == [x, y, z, x, y, z];
    RowDoes(0x6F, [x, y, z], [x, y, z, x, y, z], ctx);
    RowDoes(0x7B, [x, y, z], [y, z, x], ctx);
  }

  lemma PairsOfElements(a: Element, b: Element, c: Element, d: Element, e: Element, f: Element, ctx: Context)
    ensures Does(0x70, [a, b, c, d], [a, b, c, d, a, b], ctx)
    ensures Does(0x72, [a, b, c, d], [c, d, a, b], ctx)
    ensures Does(0x71, [a, b, c, d, e, f], [c, d, e, f, a, b], ctx)
  {
    assert [a, b, c, d] + [a, b] == [a, b, c, d, a, b];
    RowDoes(0x70, [a, b, c, d], [a, b, c, d, a, b], ctx);
    RowDoes(0x72, [a, b, c, d], [c, d, a, b], ctx);
    RowDoes(0x71, [a, b, c, d, e, f], [c, d, e, f, a, b], ctx);
  }

  /** To the alt stack and back. */
  lemma AltStack(base: seq<Element>, x: Element, alt: seq<Element>, ctx: Context)
    ensures Execute(0x6B, Stacks(base + [x], alt), ctx) == Ok(Stacks(base, alt + [x]))
    ensures Execute(0x6C, Stacks(base, alt + [x]), ctx) == Ok(Stacks(base + [x], alt))
    ensures Execute(0x6B, Stacks([], alt), ctx) == Err(StackUnderflow)
    ensures Execute(0x6C, Stacks(base, []), ctx) == Err(StackUnderflow)
  {
    assert Below(base + [x]) == base && Below(alt + [x]) == alt;
  }

  /** The height of the main stack, as it was. */
  lemma Depth(s: Stacks, ctx: Context)
    ensures Execute(0x74, s, ctx) == Ok(Stacks(s.main + [Encode(|s.main|)], s.alt))
  {
  }

  /** Copying element n below the count; a negative count reaches from the bottom. */
  lemma Picks(m: seq<Element>, n: Element, alt: seq<Element>, ctx: Context)
    ensures Execute(0x79, Stacks(m + [n], alt), ctx) ==
      if 0 <= Decode(n) < |m| then Ok(Stacks(m + [m[|m| - 1 - Decode(n)]], alt))
      else if -|m| <= Decode(n) < 0 then Ok(Stacks(m + [m[-Decode(n) - 1]], alt))
      else Err(StackUnderflow)
    ensures Execute(0x79, Stacks([], alt), ctx) == Err(StackUnderflow)
  {
    assert Below(m + [n]) == m && Top(m + [n]) == n;
  }

  /** Moving element n below the count; a count past the bottom starts again at the top, once. */
  lemma Rolls(m: seq<Element>, n: Element, alt: seq<Element>, ctx: Context)
    ensures Execute(0x7A, Stacks(m + [n], alt), ctx) ==
      if 0 <= Decode(n) < |m| then
        var i := |m| - 1 - Decode(n); Ok(Stacks(m[..i] + m[i + 1..] + [m[i]], alt))
      else if |m| <= Decode(n) < 2 * |m| then
        var i := 2 * |m| - 1 - Decode(n); Ok(Stacks(m[..i] + m[i + 1..] + [m[i]], alt))
      else Err(ScriptInvalid)
    ensures Execute(0x7A, Stacks([], alt), ctx) == Err(StackUnderflow)
  {
    assert Below(m + [n]) == m && Top(m + [n]) == n;
  }

  // ---------------------------------------------------------------------------
  // Numbers
  // ---------------------------------------------------------------------------

  lemma OneNumber(x: Element, ctx: Context)
    ensures Does(0x8B, [x], [Encode(Decode(x) + 1)], ctx)
    ensures Does(0x8C, [x], [Encode(Decode(x) - 1)], ctx)
    ensures Does(0x8F, [x], [Encode(-Decode(x))], ctx)
    ensures Does(0x90, [x], [Encode(if Decode(x) < 0 then -Decode(x) else Decode(x))], ctx)
    ensures Does(0x91, [x], [Flag(Decode(x) == 0)], ctx)
    ensures Does(0x92, [x], [Flag(Decode(x) != 0)], ctx)
  {
    RowDoes(0x8B, [x], [Encode(Decode(x) + 1)], ctx);
    RowDoes(0x8C, [x], [Encode(Decode(x) - 1)], ctx);
    RowDoes(0x8F, [x], [Encode(-Decode(x))], ctx);
    RowDoes(0x90, [x], [Encode(if Decode(x) < 0 then -Decode(x) else Decode(x))], ctx);
    RowDoes(0x91, [x], [Flag(Decode(x) == 0)], ctx);
    RowDoes(0x92, [x], [Flag(Decode(x) != 0)], ctx);
  }

  lemma TwoNumbers(x: Element, y: Element, ctx: Context)
    ensures Does(0x93, [x, y], [Encode(Decode(x) + Decode(y))], ctx)
    ensures Does(0x94, [x, y], [Encode(Decode(x) - Decode(y))], ctx)
    ensures Does(0xA3, [x, y], [Encode(if Decode(x) < Decode(y) then Decode(x) else Decode(y))], ctx)
    ensures Does(0xA4, [x, y], [Encode(if Decode(x) < Decode(y) then Decode(y) else Decode(x))], ctx)
  {
    RowDoes(0x93, [x, y], [Encode(Decode(x) + Decode(y))], ctx);
    RowDoes(0x94, [x, y], [Encode(Decode(x) - Decode(y))], ctx);
    RowDoes(0xA3, [x, y], [Encode(if Decode(x) < Decode(y) then Decode(x) else Decode(y))], ctx);
    RowDoes(0xA4, [x, y], [Encode(if Decode(x) < Decode(y) then Decode(y) else Decode(x))], ctx);
  }

  lemma Equalities(x: Element, y: Element, ctx: Context)
    ensures Does(0x87, [x, y], [Flag(x == y)], ctx)
    ensures Does(0x9A, [x, y], [Flag(Decode(x) != 0 && Decode(y) != 0)], ctx)
    ensures Does(0x9B, [x, y], [Flag(Decode(x) != 0 || Decode(y) != 0)], ctx)
    ensures Does(0x9C, [x, y], [Flag(Decode(x) == Decode(y))], ctx)
    ensures Does(0x9E, [x, y], [Flag(Decode(x) != Decode(y))], ctx)
  {
    RowDoes(0x87, [x, y], [Flag(x == y)], ctx);
    RowDoes(0x9A, [x, y], [Flag(Decode(x) != 0 && Decode(y) != 0)], ctx);
    RowDoes(0x9B, [x, y], [Flag(Decode(x) != 0 || Decode(y) != 0)], ctx);
    RowDoes(0x9C, [x, y], [Flag(Decode(x) == Decode(y))], ctx);
    RowDoes(0x9E, [x, y], [Flag(Decode(x) != Decode(y))], ctx);
  }

  lemma Comparisons(x: Element, y: Element, z: Element, ctx: Context)
    ensures Does(0x9F, [x, y], [Flag(Decode(x) < Decode(y))], ctx)
    ensures Does(0xA0, [x, y], [Flag(Decode(x) > Decode(y))], ctx)
    ensures Does(0xA1, [x, y], [Flag(Decode(x) <= Decode(y))], ctx)
    ensures Does(0xA2, [x, y], [Flag(Decode(x) >= Decode(y))], ctx)
    ensures Does(0xA5, [x, y, z], [Flag(Decode(y) <= Decode(x) < Decode(z))], ctx)
  {
    RowDoes(0x9F, [x, y], [Flag(Decode(x) < Decode(y))], ctx);
    RowDoes(0xA0, [x, y], [Flag(Decode(x) > Decode(y))], ctx);
    RowDoes(0xA1, [x, y], [Flag(Decode(x) <= Decode(y))], ctx);
    RowDoes(0xA2, [x, y], [Flag(Decode(x) >= Decode(y))], ctx);
    RowDoes(0xA5, [x, y, z], [Flag(Decode(y) <= Decode(x) < Decode(z))], ctx);
  }

  /** A -VERIFY form leaves nothing, or fails where the plain form leaves false. */
  lemma Verifications(x: Element, y: Element, ctx: Context)
    ensures if Decode(x) != 0 then Does(0x69, [x], [], ctx) else Fails(0x69, [x], VerifyFailed, ctx)
    ensures if x == y then Does(0x88, [x, y], [], ctx) else Fails(0x88, [x, y], VerifyFailed, ctx)
    ensures if Decode(x) == Decode(y) then Does(0x9D, [x, y], [], ctx) else Fails(0x9D, [x, y], VerifyFailed, ctx)
  {
    if Decode(x) != 0 {
      RowDoes(0x69, [x], [], ctx);
    } else {
      RowFails(0x69, [x], VerifyFailed, ctx);
    }
    if x == y {
      RowDoes(0x88, [x, y], [], ctx);
    } else {
      RowFails(0x88, [x, y], VerifyFailed, ctx);
    }
    if Decode(x) == Decode(y) {
      RowDoes(0x9D, [x, y], [], ctx);
    } else {
      RowFails(0x9D, [x, y], VerifyFailed, ctx);
    }
  }

  lemma HashDoes(op: Byte, x: Element, ctx: Context)
    requires OP_RIPEMD160 <= op <= OP_HASH256
    ensures Does(op, [x], [Digest(op, x, ctx.lib)], ctx)
  {
    forall base, alt
      ensures Execute(op, Stacks(base + [x], alt), ctx) == Ok(Stacks(base + [Digest(op, x, ctx.lib)], alt))
    {
      assert Below(base + [x]) == base && Top(base + [x]) == x;
    }
  }

  lemma Digests(x: Element, ctx: Context)
    ensures Does(0xA6, [x], [ctx.lib.ripemd160(x)], ctx)
    ensures Does(0xA7, [x], [ctx.lib.sha1(x)], ctx)
    ensures Does(0xA8, [x], [ctx.lib.sha256(x)], ctx)
    ensures Does(0xA9, [x], [ctx.lib.ripemd160(ctx.lib.sha256(x))], ctx)
    ensures Does(0xAA, [x], [ctx.lib.sha256(ctx.lib.sha256(x))], ctx)
  {
    HashDoes(0xA6, x, ctx);
    HashDoes(0xA7, x, ctx);
    HashDoes(0xA8, x, ctx);
    HashDoes(0xA9, x, ctx);
    HashDoes(0xAA, x, ctx);
  }

  /** How many elements an opcode needs. */
  lemma Underflows(op: Byte, s: Stacks, ctx: Context)
    ensures op in {0x69, 0x73, 0x75, 0x76, 0x79, 0x7A, 0x82, 0x8B, 0x8C} && |s.main| < 1 ==>
      Execute(op, s, ctx) == Err(StackUnderflow)
    ensures (0x8F <= op <= 0x92 || 0xA6 <= op <= 0xAA) && |s.main| < 1 ==> Execute(op, s, ctx) == Err(StackUnderflow)
    ensures op in {0x6D, 0x6E, 0x77, 0x78, 0x7C, 0x7D, 0x87, 0x88, 0x93, 0x94} && |s.main| < 2 ==>
      Execute(op, s, ctx) == Err(StackUnderflow)
    ensures 0x9A <= op <= 0xA4 && |s.main| < 2 ==> Execute(op, s, ctx) == Err(StackUnderflow)
    ensures op in {0x6F, 0x7B, 0xA5} && |s.main| < 3 ==> Execute(op, s, ctx) == Err(StackUnderflow)
    ensures op in {0x70, 0x72} && |s.main| < 4 ==> Execute(op, s, ctx) == Err(StackUnderflow)
    ensures op == 0x71 && |s.main| < 6 ==> Execute(op, s, ctx) == Err(StackUnderflow)
  {
  }

  // ---------------------------------------------------------------------------
  // Opcodes that do nothing, or fail
  // ---------------------------------------------------------------------------

  lemma Idle(op: Byte, s: Stacks, ctx: Context)
    ensures op in {0x61, 0xAB, 0xB0} || 0xB3 <= op <= 0xB9 ==> Execute(op, s, ctx) == Ok(s)
    ensures op in {0xB1, 0xB2} ==> Execute(op, s, ctx) == if s.main == [] then Err(VerifyFailed) else Ok(s)
  {
  }

  lemma Failing(op: Byte, s: Stacks, ctx: Context)
    ensures 0x7E <= op <= 0x81 || 0x83 <= op <= 0x86 || op in {0x8D, 0x8E} || 0x95 <= op <= 0x99 ==>
      Execute(op, s, ctx) == Err(OpDisabled)
    ensures op in {0x50, 0x62, 0x65, 0x66, 0x6A, 0x89, 0x8A} || op >= 0xBA ==>
      Execute(op, s, ctx) == Err(ScriptInvalid)
    ensures 0xAC <= op <= 0xAF && ctx.tx.None? ==> Execute(op, s, ctx) == Err(ScriptInvalid)
  {
  }

  // ---------------------------------------------------------------------------
  // The loop
  // ---------------------------------------------------------------------------

  /** A push in a live branch is limited in size and nothing else. */
  lemma PushLimit(op: Byte, data: Bytes, s: Stacks, ops: nat, ctx: Context)
    ensures Step(Item(op, Some(data)), Config(s, [], ops), ctx) ==
      if |data| > 520 then Err(PushSize) else Ok(Config(Stacks(s.main + [data], s.alt), [], ops))
  {
  }

  /** Anything else is counted if its byte is above 0x60, and guarded. */
  lemma OpcodeLimits(op: Byte, s: Stacks, cond: seq<bool>, ops: nat, ctx: Context)
    ensures op > 0x60 && ops >= 201 ==> Step(Item(op, None), Config(s, cond, ops), ctx) == Err(OpCount)
    ensures !(op > 0x60 && ops >= 201) && |s.main| + |s.alt| > 1000 ==>
      Step(Item(op, None), Config(s, cond, ops), ctx) == Err(StackSize)
    ensures Step(Item(op, None), Config(s, cond, ops), ctx).Ok? ==>
      Step(Item(op, None), Config(s, cond, ops), ctx).value.ops == if op > 0x60 then ops + 1 else ops
  {
  }

  lemma SmallNumbers(op: Byte, s: Stacks, ops: nat, ctx: Context)
    requires |s.main| + |s.alt| <= 1000
    ensures op == 0x4F ==>
      Step(Item(op, None), Config(s, [], ops), ctx) == Ok(Config(Stacks(s.main + [[0x81]], s.alt), [], ops))
    ensures 0x51 <= op <= 0x60 ==>
      Step(Item(op, None), Config(s, [], ops), ctx) == Ok(Config(Stacks(s.main + [[op - 0x50]], s.alt), [], ops))
  {
    assert MagnitudeBytes(0) == [];
    if op == 0x4F {
      assert Encode(-1) == [0x81];
    } else if 0x51 <= op <= 0x60 {
      assert Encode(op - 0x50) == [op - 0x50];
    }
  }

  /** Any other byte, uncounted control flow aside, does what it does when executed. */
  lemma Executed(op: Byte, s: Stacks, ops: nat, ctx: Context)
    requires |s.main| + |s.alt| <= 1000 && op > 0x60 && ops < 201 && op !in {0x63, 0x64, 0x67, 0x68}
    ensures Step(Item(op, None), Config(s, [], ops), ctx) ==
      if Execute(op, s, ctx).Err? then Err(Execute(op, s, ctx).error)
      else Ok(Config(Execute(op, s, ctx).value, [], ops + 1))
  {
  }

  lemma ScriptLimit(script: Bytes, s: Stacks, ctx: Context)
    ensures |script| > 10_000 ==> RunScript(script, s, ctx) == Err(ScriptSize)
  {
  }

  // ---------------------------------------------------------------------------
  // Short programs
  // ---------------------------------------------------------------------------

  /** Opcodes one after another. */
  function All(ops: seq<Byte>, s: Stacks, ctx: Context): Result<Stacks> {
    if ops == [] then Ok(s)
    else
      var next :- Execute(ops[0], s, ctx);
      All(ops[1..], next, ctx)
  }

  /** On top of any stacks, the program replaces these elements by those. */
  ghost predicate DoesAll(ops: seq<Byte>, before: seq<Element>, after: seq<Element>, ctx: Context) {
    forall base, alt :: All(ops, Stacks(base + before, alt), ctx) == Ok(Stacks(base + after, alt))
  }

  /** One opcode, on the upper part of what is there, and then a program. */
  lemma ThenAll(op: Byte, rest: seq<Byte>, under: seq<Element>, before: seq<Element>, after: seq<Element>,
                start: seq<Element>, mid: seq<Element>, end: seq<Element>, ctx: Context)
    requires start == under + before && mid == under + after
    requires Does(op, before, after, ctx) && DoesAll(rest, mid, end, ctx)
    ensures DoesAll([op] + rest, start, end, ctx)
  {
    forall base, alt
      ensures All([op] + rest, Stacks(base + start, alt), ctx) == Ok(Stacks(base + end, alt))
    {
      Assoc(base, under, before);
      Assoc(base, under, after);
      assert Execute(op, Stacks((base + under) + before, alt), ctx) == Ok(Stacks((base + under) + after, alt));
      assert ([op] + rest)[1..] == rest;
    }
  }

  lemma OnlyOne(op: Byte, under: seq<Element>, before: seq<Element>, after: seq<Element>,
                start: seq<Element>, end: seq<Element>, ctx: Context)
    requires start == under + before && end == under + after && Does(op, before, after, ctx)
    ensures DoesAll([op], start, end, ctx)
  {
    assert [op] + [] == [op];
    ThenAll(op, [], under, before, after, start, end, end, ctx);
  }

  lemma RotThenAll(rest: seq<Byte>, x: Element, y: Element, z: Element, end: seq<Element>, ctx: Context)
    requires DoesAll(rest, [y, z, x], end, ctx)
    ensures DoesAll([0x7B] + rest, [x, y, z], end, ctx)
  {
    assert [] + [x, y, z] == [x, y, z] && [] + [y, z, x] == [y, z, x];
    ThreeElements(x, y, z, ctx);
    ThenAll(0x7B, rest, [], [x, y, z], [y, z, x], [x, y, z], [y, z, x], end, ctx);
  }

  /** OP_ROT three times changes nothing. */
  lemma RotThrice(x: Element, y: Element, z: Element, ctx: Context)
    ensures DoesAll([0x7B, 0x7B, 0x7B], [x, y, z], [x, y, z], ctx)
  {
    var none: seq<Byte> := [];
    assert [0x7B] + ([0x7B] + ([0x7B] + none)) == [0x7B, 0x7B, 0x7B];
    RotThenAll(none, z, x, y, [x, y, z], ctx);
    RotThenAll([0x7B] + none, y, z, x, [x, y, z], ctx);
    RotThenAll([0x7B] + ([0x7B] + none), x, y, z, [x, y, z], ctx);
  }

  /** OP_SWAP OP_SUB and OP_SUB OP_NEGATE leave the same. */
  lemma SwappedSub(x: Element, y: Element, ctx: Context)
    ensures DoesAll([0x7C, 0x94], [x, y], [Encode(Decode(y) - Decode(x))], ctx)
    ensures DoesAll([0x94, 0x8F], [x, y], [Encode(Decode(y) - Decode(x))], ctx)
  {
    SwapThenSub(x, y, ctx);
    SubThenNegate(x, y, ctx);
  }

  lemma SwapThenSub(x: Element, y: Element, ctx: Context)
    ensures DoesAll([0x7C, 0x94], [x, y], [Encode(Decode(y) - Decode(x))], ctx)
  {
    var e := [Encode(Decode(y) - Decode(x))];
    assert [] + [x, y] == [x, y] && [] + [y, x] == [y, x] && [] + e == e && [0x7C] + [0x94] == [0x7C, 0x94];
    TwoNumbers(y, x, ctx);
    OnlyOne(0x94, [], [y, x], e, [y, x], e, ctx);
    TwoElements(x, y, ctx);
    ThenAll(0x7C, [0x94], [], [x, y], [y, x], [x, y], [y, x], e, ctx);
  }

  lemma SubtractsTo(x: Element, y: Element, d: Element, ctx: Context)
    requires d == Encode(Decode(x) - Decode(y))
    ensures Does(0x94, [x, y], [d], ctx) && Decode(d) == Decode(x) - Decode(y)
  {
    RowDoes(0x94, [x, y], [d], ctx);
    EncodeRoundTrip(Decode(x) - Decode(y));
  }

  lemma NegatesTo(d: Element, n: int, ctx: Context)
    requires Decode(d) == -n
    ensures DoesAll([0x8F], [d], [Encode(n)], ctx)
  {
    assert [] + [d] == [d] && [] + [Encode(n)] == [Encode(n)];
    RowDoes(0x8F, [d], [Encode(n)], ctx);
    OnlyOne(0x8F, [], [d], [Encode(n)], [d], [Encode(n)], ctx);
  }

  lemma SubThenNegate(x: Element, y: Element, ctx: Context)
    ensures DoesAll([0x94, 0x8F], [x, y], [Encode(Decode(y) - Decode(x))], ctx)
  {
    var d, n := Encode(Decode(x) - Decode(y)), Decode(y) - Decode(x);
    assert [] + [x, y] == [x, y] && [] + [d] == [d] && [0x94] + [0x8F] == [0x94, 0x8F];
    SubtractsTo(x, y, d, ctx);
    NegatesTo(d, n, ctx);
    ThenAll(0x94, [0x8F], [], [x, y], [d], [x, y], [d], [Encode(n)], ctx);
  }

  lemma AddsTo(x: Element, y: Element, n: int, ctx: Context)
    requires Decode(x) + Decode(y) == n
    ensures Does(0x93, [x, y], [Encode(n)], ctx)
  {
    RowDoes(0x93, [x, y], [Encode(n)], ctx);
  }

  lemma AddDifference(x: Element, y: Element, d: Element, ctx: Context)
    requires Decode(d) == Decode(x) - Decode(y)
    ensures DoesAll([0x93], [x, y, d], [x, Encode(Decode(x))], ctx)
  {
    var e := Encode(Decode(x));
    assert [x] + [y, d] == [x, y, d] && [x] + [e] == [x, e];
    AddsTo(y, d, Decode(x), ctx);
    OnlyOne(0x93, [x], [y, d], [e], [x, y, d], [x, e], ctx);
  }

  lemma SubAndAdd(x: Element, y: Element, ctx: Context)
    ensures DoesAll([0x94, 0x93], [x, y, x, y], [x, Encode(Decode(x))], ctx)
  {
    var d, e := Encode(Decode(x) - Decode(y)), Encode(Decode(x));
    assert [x, y] + [x, y] == [x, y, x, y] && [x, y] + [d] == [x, y, d] && [0x94] + [0x93] == [0x94, 0x93];
    SubtractsTo(x, y, d, ctx);
    AddDifference(x, y, d, ctx);
    ThenAll(0x94, [0x93], [x, y], [x, y], [d], [x, y, x, y], [x, y, d], [x, e], ctx);
  }

  /** OP_2DUP OP_SUB OP_ADD leaves what was below, and above it the same number. */
  lemma SubThenAdd(x: Element, y: Element, ctx: Context)
    ensures DoesAll([0x6E, 0x94, 0x93], [x, y], [x, Encode(Decode(x))], ctx)
  {
    assert [] + [x, y] == [x, y] && [] + [x, y, x, y] == [x, y, x, y] && [0x6E] + [0x94, 0x93] == [0x6E, 0x94, 0x93];
    SubAndAdd(x, y, ctx);
    TwoElements(x, y, ctx);
    ThenAll(0x6E, [0x94, 0x93], [], [x, y], [x, y, x, y], [x, y], [x, y, x, y], [x, Encode(Decode(x))], ctx);
  }

  /** OP_WITHIN is one comparison, the other, and OP_BOOLAND. */
  lemma WithinByComparing(x: Element, y: Element, z: Element, ctx: Context)
    ensures var within := [Flag(Decode(y) <= Decode(x) < Decode(z))];
      && DoesAll([0x7B, 0x7D, 0xA0, 0x7B, 0x7B, 0xA1, 0x9A], [x, y, z], within, ctx)
      && DoesAll([0xA5], [x, y, z], within, ctx)
  {
    var above, within := Flag(Decode(z) > Decode(x)), [Flag(Decode(y) <= Decode(x) < Decode(z))];
    assert [] + [x, y, z] == [x, y, z] && [] + within == within;
    assert [0x7B] + ([0x7D] + ([0xA0] + ([0x7B] + ([0x7B] + [0xA1, 0x9A]))))
      == [0x7B, 0x7D, 0xA0, 0x7B, 0x7B, 0xA1, 0x9A];
    WithinEnd(x, y, z, above, ctx);
    RotThenAll([0xA1, 0x9A], x, above, y, within, ctx);
    RotThenAll([0x7B] + [0xA1, 0x9A], y, x, above, within, ctx);
    WithinStart(x, y, z, above, [0x7B] + ([0x7B] + [0xA1, 0x9A]), within, ctx);
    Comparisons(x, y, z, ctx);
    OnlyOne(0xA5, [], [x, y, z], within, [x, y, z], within, ctx);
  }

  lemma WithinEnd(x: Element, y: Element, z: Element, above: Element, ctx: Context)
    requires above == Flag(Decode(z) > Decode(x))
    ensures DoesAll([0xA1, 0x9A], [above, y, x], [Flag(Decode(y) <= Decode(x) < Decode(z))], ctx)
  {
    var below, within := Flag(Decode(y) <= Decode(x)), [Flag(Decode(y) <= Decode(x) < Decode(z))];
    assert [above] + [y, x] == [above, y, x] && [above] + [below] == [above, below] && [] + within == within;
    assert [] + [above, below] == [above, below] && [0xA1] + [0x9A] == [0xA1, 0x9A];
    Equalities(above, below, ctx);
    OnlyOne(0x9A, [], [above, below], within, [above, below], within, ctx);
    Comparisons(y, x, x, ctx);
    ThenAll(0xA1, [0x9A], [above], [y, x], [below], [above, y, x], [above, below], within, ctx);
  }

  lemma WithinStart(x: Element, y: Element, z: Element, above: Element, rest: seq<Byte>, end: seq<Element>,
                    ctx: Context)
    requires above == Flag(Decode(z) > Decode(x)) && DoesAll(rest, [y, x, above], end, ctx)
    ensures DoesAll([0x7B] + ([0x7D] + ([0xA0] + rest)), [x, y, z], end, ctx)
  {
    assert [y, x] + [above] == [y, x, above] && [y, x] + [z, x] == [y, x, z, x];
    assert [y] + [x, z, x] == [y, x, z, x] && [y] + [z, x] == [y, z, x];
    Comparisons(z, x, x, ctx);
    ThenAll(0xA0, rest, [y, x], [z, x], [above], [y, x, z, x], [y, x, above], end, ctx);
    TwoElements(z, x, ctx);
    ThenAll(0x7D, [0xA0] + rest, [y], [z, x], [x, z, x], [y, z, x], [y, x, z, x], end, ctx);
    RotThenAll([0x7D] + ([0xA0] + rest), x, y, z, end, ctx);
  }
}
