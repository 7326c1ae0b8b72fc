/**
 Whole runs do not look below the elements they were given: put anything under both
 stacks and the same script does the same thing above it, unless the size guard
 fires. OP_DEPTH and out-of-range OP_PICK and OP_ROLL are the only ways to look.
 */
module Locality {
  import opened ByteStrings
  import opened ScriptNumbers
  import opened Stack
  import opened Semantics

  /** The given stacks on top of a main and an alt base. */
  function On(base: Stacks, s: Stacks): Stacks {
    Stacks(base.main + s.main, base.alt + s.alt)
  }

  function ConfigOn(base: Stacks, c: Config): Config {
    c.(stacks := On(base, c.stacks))
  }

  /** The operand of PICK or ROLL names an element that is really there. */
  predicate InRange(m: seq<Element>) {
    m != [] && 0 <= Decode(Top(m)) < |m| - 1
  }

  predicate StaysLocal(op: Byte, m: seq<Element>) {
    op != OP_DEPTH && (op == OP_PICK || op == OP_ROLL ==> InRange(m))
  }

  /** Every opcode the run executes stays local; opcodes in dead branches do not matter. */
  predicate LocalRun(items: seq<Item>, c: Config, ctx: Context) {
    items == [] ||
    ( && (items[0].data.None? && Executing(c.cond) ==> StaysLocal(items[0].opcode, c.stacks.main))
      && var r := Step(items[0], c, ctx);
         r.Ok? ==> LocalRun(items[1..], r.value, ctx))
  }

  /** The guard would let `extra` more elements through at every item it looks at. */
  predicate Fits(items: seq<Item>, c: Config, ctx: Context, extra: nat) {
    items == [] ||
    ( && (items[0].data.None? ==> Size(c.stacks) + extra <= MAX_STACK_SIZE)
      && var r := Step(items[0], c, ctx);
         r.Ok? ==> Fits(items[1..], r.value, ctx, extra))
  }

  // ---------------------------------------------------------------------------
  // One opcode
  // ---------------------------------------------------------------------------

  lemma TopOn(b: seq<Element>, m: seq<Element>)
    requires m != []
    ensures Top(b + m) == Top(m) && Below(b + m) == b + Below(m)
  {
  }

  lemma TableLocal(op: Byte, base: Stacks, s: Stacks)
    requires Arity(op) > 0 && Table(op, s).Ok?
    ensures Table(op, On(base, s)) == Ok(On(base, Table(op, s).value))
  {
    var n, k := |s.main| - Arity(op), |base.main|;
    var big := base.main + s.main;
    assert big[k + n..] == s.main[n..];
    assert big[..k + n] == base.main + s.main[..n];
    var made := Produce(op, s.main[n..]).value;
    assert base.main + s.main[..n] + made == base.main + (s.main[..n] + made);
  }

  lemma PickLocal(b: seq<Element>, m: seq<Element>)
    requires InRange(m)
    ensures Pick(m).Ok? && Pick(b + m) == Ok(b + Pick(m).value)
  {
    TopOn(b, m);
    var rest, i := Below(m), Decode(Top(m)) + 1;
    assert (b + rest)[|b + rest| - i] == rest[|rest| - i];
    assert b + rest + [rest[|rest| - i]] == b + (rest + [rest[|rest| - i]]);
  }

  lemma RollLocal(b: seq<Element>, m: seq<Element>)
    requires InRange(m)
    ensures Roll(m).Ok? && Roll(b + m) == Ok(b + Roll(m).value)
  {
    TopOn(b, m);
    var rest := Below(m);
    var k := |rest| - 1 - Decode(Top(m));
    assert RemoveAt(b + rest, |b| + k) == b + RemoveAt(rest, k);
    assert b + RemoveAt(rest, k) + [rest[k]] == b + (RemoveAt(rest, k) + [rest[k]]);
  }

  lemma PopCountedLocal(b: seq<Element>, m: seq<Element>)
    requires PopCounted(m).Ok?
    ensures PopCounted(b + m) == Ok((b + PopCounted(m).value.0, PopCounted(m).value.1))
  {
    TopOn(b, m);
    var rest := Below(m);
    var n := |rest| - |PopCounted(m).value.1|;
    var count := Decode(Top(m));
    var j := |rest| - if count < 0 then 0 else count;
    assert (b + rest)[..|b| + j] == b + rest[..j];
    assert (b + rest)[|b| + j..] == rest[j..];
  }

  lemma MultiSigLocal(b: seq<Element>, m: seq<Element>, ctx: Context)
    requires ctx.tx.Some? && MultiSig(m, ctx).Ok?
    ensures MultiSig(b + m, ctx) == Ok(b + MultiSig(m, ctx).value)
  {
    PopCountedLocal(b, m);
    var (m1, keys) := PopCounted(m).value;
    PopCountedLocal(b, m1);
    var (m2, sigs) := PopCounted(m1).value;
    TopOn(b, m2);
    var answer := [BoolElement(Greedy(sigs, keys, ctx))];
    assert b + Below(m2) + answer == b + (Below(m2) + answer);
  }

  lemma CheckSigLocal(b: seq<Element>, m: seq<Element>, ctx: Context)
    requires ctx.tx.Some? && CheckSig(m, ctx).Ok?
    ensures CheckSig(b + m, ctx) == Ok(b + CheckSig(m, ctx).value)
  {
    TopOn(b, m);
    TopOn(b, Below(m));
    var answer := [BoolElement(ctx.Verifies(Top(Below(m)), Top(m)))];
    assert b + Below(Below(m)) + answer == b + (Below(Below(m)) + answer);
  }

  lemma SigOpLocal(op: Byte, b: seq<Element>, m: seq<Element>, ctx: Context)
    requires ctx.tx.Some? && SigOp(op, m, ctx).Ok?
    ensures SigOp(op, b + m, ctx) == Ok(b + SigOp(op, m, ctx).value)
  {
    if op == OP_CHECKSIG || op == OP_CHECKSIGVERIFY {
      CheckSigLocal(b, m, ctx);
      TopOn(b, CheckSig(m, ctx).value);
    } else {
      MultiSigLocal(b, m, ctx);
      TopOn(b, MultiSig(m, ctx).value);
    }
  }

  lemma ExecuteLocal(op: Byte, base: Stacks, s: Stacks, ctx: Context)
    requires StaysLocal(op, s.main) && Execute(op, s, ctx).Ok?
    ensures Execute(op, On(base, s), ctx) == Ok(On(base, Execute(op, s, ctx).value))
  {
    if IsNop(op) || op == OP_CODESEPARATOR {
    } else if op == OP_TOALTSTACK {
      TopOn(base.main, s.main);
      assert base.alt + (s.alt + [Top(s.main)]) == base.alt + s.alt + [Top(s.main)];
    } else if op == OP_FROMALTSTACK {
      TopOn(base.alt, s.alt);
      assert base.main + (s.main + [Top(s.alt)]) == base.main + s.main + [Top(s.alt)];
    } else if op == OP_CHECKLOCKTIMEVERIFY || op == OP_CHECKSEQUENCEVERIFY {
    } else if OP_CHECKSIG <= op <= OP_CHECKMULTISIGVERIFY {
      SigOpLocal(op, base.main, s.main, ctx);
    } else if Arity(op) > 0 {
      TableLocal(op, base, s);
    } else if OP_RIPEMD160 <= op <= OP_HASH256 {
      TopOn(base.main, s.main);
      var d := [Digest(op, Top(s.main), ctx.lib)];
      assert base.main + Below(s.main) + d == base.main + (Below(s.main) + d);
    } else if op == OP_PICK {
      PickLocal(base.main, s.main);
    } else {
      RollLocal(base.main, s.main);
    }
  }

  lemma PushOn(base: Stacks, s: Stacks, e: Element)
    ensures Push(On(base, s), e) == On(base, Push(s, e))
  {
  }

  lemma StepLocal(item: Item, base: Stacks, c: Config, ctx: Context)
    requires item.data.None? && Executing(c.cond) ==> StaysLocal(item.opcode, c.stacks.main)
    requires Step(item, c, ctx).Ok?
    requires item.data.None? ==> Size(c.stacks) + Size(base) <= MAX_STACK_SIZE
    ensures Step(item, ConfigOn(base, c), ctx) == Ok(ConfigOn(base, Step(item, c, ctx).value))
  {
    var s := c.stacks;
    if item.data.Some? {
      PushOn(base, s, item.data.value);
    } else if item.opcode == OP_IF || item.opcode == OP_NOTIF {
      if Executing(c.cond) {
        TopOn(base.main, s.main);
      }
    } else if item.opcode == OP_ELSE || item.opcode == OP_ENDIF {
    } else if Executing(c.cond) {
      if item.opcode == OP_1NEGATE {
        PushOn(base, s, Encode(-1));
      } else if OP_1 <= item.opcode <= OP_16 {
        PushOn(base, s, Encode(item.opcode as int - 0x50));
      } else {
        ExecuteLocal(item.opcode, base, s, ctx);
      }
    }
  }

  // ---------------------------------------------------------------------------
  // Whole runs
  // ---------------------------------------------------------------------------

  /**
   A run that succeeds locally has, over any base, exactly two outcomes: the same
   result with the base untouched underneath, or the size guard firing.
   */
  lemma {:induction false} RunIsLocal(items: seq<Item>, base: Stacks, c: Config, ctx: Context)
    requires LocalRun(items, c, ctx) && Run(items, c, ctx).Ok?
    ensures Run(items, ConfigOn(base, c), ctx) ==
      if Fits(items, c, ctx, Size(base)) then Ok(ConfigOn(base, Run(items, c, ctx).value))
      else Err(StackSize)
  {
    if items != [] {
      if items[0].data.Some? || Size(c.stacks) + Size(base) <= MAX_STACK_SIZE {
        StepLocal(items[0], base, c, ctx);
        RunIsLocal(items[1..], base, Step(items[0], c, ctx).value, ctx);
      }
    }
  }

  /** A run that does look: OP_DEPTH sees the base. */
  lemma DepthLooksBelow(ctx: Context)
    ensures var items, c := [Item(OP_DEPTH, None)], Config(Stacks([], []), [], 0);
      var base := Stacks([[]], []);
      && Run(items, c, ctx) == Ok(Config(Stacks([[]], []), [], 1))
      && Run(items, ConfigOn(base, c), ctx) == Ok(Config(Stacks([[], [1]], []), [], 1))
  {
    var depth, c := Item(OP_DEPTH, None), Config(Stacks([], []), [], 0);
    var base := Stacks([[]], []);
    assert [depth][1..] == [];
    assert Run([depth], c, ctx) == Step(depth, c, ctx);
    assert Run([depth], ConfigOn(base, c), ctx) == Step(depth, ConfigOn(base, c), ctx);
    DepthPushesSize(c.stacks, ctx);
    DepthPushesSize(On(base, c.stacks), ctx);
    assert MagnitudeBytes(1) == [1];
    assert [] + [Encode(0)] == [[]] && ([[]] + []) + [Encode(1)] == [[], [1]];
  }

  lemma DepthPushesSize(s: Stacks, ctx: Context)
    ensures Execute(OP_DEPTH, s, ctx) == Ok(Push(s, Encode(|s.main|)))
  {
  }
}
