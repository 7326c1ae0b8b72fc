/** What a run can use, whatever the script: opcodes, stack elements, bytes per element. */
module Resources {
  import opened ByteStrings
  import opened ScriptNumbers
  import opened Stack
  import opened Semantics

  // ---------------------------------------------------------------------------
  // Opcodes
  // ---------------------------------------------------------------------------

  /** Non-push opcodes above OP_16 in the script text, executed or not. */
  function CountedOpcodes(items: seq<Item>): nat {
    if items == [] then 0
    else (if items[0].data.None? && items[0].opcode > OP_16 then 1 else 0) + CountedOpcodes(items[1..])
  }

  /** The counter counts script text, not execution, and a run that ends is within the limit. */
  lemma {:induction false} OpcodesCounted(items: seq<Item>, c: Config, ctx: Context)
    requires c.ops <= MAX_OPS_PER_SCRIPT && Run(items, c, ctx).Ok?
    ensures Run(items, c, ctx).value.ops == c.ops + CountedOpcodes(items) <= MAX_OPS_PER_SCRIPT
  {
    if items != [] {
      OpcodesCounted(items[1..], Step(items[0], c, ctx).value, ctx);
    }
  }

  // ---------------------------------------------------------------------------
  // Stack size
  // ---------------------------------------------------------------------------

  /** Data pushes after the last item that is not one; the guard has not seen these. */
  function Unguarded(items: seq<Item>): nat {
    if items == [] || items[|items| - 1].data.None? then 0
    else 1 + Unguarded(items[..|items| - 1])
  }

  lemma MultiSigShrinks(m: seq<Element>, ctx: Context)
    requires ctx.tx.Some? && MultiSig(m, ctx).Ok?
    ensures |MultiSig(m, ctx).value| < |m|
  {
  }

  /** No row puts back more than three elements beyond those it took. */
  lemma ProduceGrowth(op: Byte, a: seq<Element>)
    requires |a| == Arity(op) > 0 && Produce(op, a).Ok?
    ensures |Produce(op, a).value| <= |a| + 3
  {
  }

  lemma TableGrowth(op: Byte, s: Stacks)
    requires Arity(op) > 0 && Table(op, s).Ok?
    ensures Size(Table(op, s).value) <= Size(s) + 3
  {
    ProduceGrowth(op, s.main[|s.main| - Arity(op)..]);
  }

  lemma SigOpShrinks(op: Byte, m: seq<Element>, ctx: Context)
    requires ctx.tx.Some? && SigOp(op, m, ctx).Ok?
    ensures |SigOp(op, m, ctx).value| <= |m|
  {
    if MultiSig(m, ctx).Ok? {
      MultiSigShrinks(m, ctx);
    }
  }

  lemma ExecuteGrowth(op: Byte, s: Stacks, ctx: Context)
    requires Execute(op, s, ctx).Ok?
    ensures Size(Execute(op, s, ctx).value) <= Size(s) + 3
  {
    if OP_CHECKSIG <= op <= OP_CHECKMULTISIGVERIFY {
      SigOpShrinks(op, s.main, ctx);
    } else if Arity(op) > 0 && Table(op, s).Ok? {
      TableGrowth(op, s);
    }
  }

  lemma StepGrowth(item: Item, c: Config, ctx: Context)
    requires Step(item, c, ctx).Ok?
    ensures Size(Step(item, c, ctx).value.stacks) <=
      if item.data.Some? then Size(c.stacks) + 1 else MAX_STACK_SIZE + 3
  {
    if item.data.None? && Execute(item.opcode, c.stacks, ctx).Ok? {
      ExecuteGrowth(item.opcode, c.stacks, ctx);
    }
  }

  /** Both stacks together pass 1003 only by data pushes not yet followed by another item. */
  lemma {:induction false} StacksBounded(items: seq<Item>, c: Config, ctx: Context)
    requires Run(items, c, ctx).Ok?
    ensures Size(Run(items, c, ctx).value.stacks)
         <= Max(Size(c.stacks), MAX_STACK_SIZE + 3) + Unguarded(items)
    decreases |items|
  {
    if items != [] {
      var front, last := items[..|items| - 1], items[|items| - 1];
      assert items == front + [last];
      RunAppend(front, [last], c, ctx);
      StacksBounded(front, c, ctx);
      var c' := Run(front, c, ctx).value;
      assert [last][1..] == [];
      assert Run([last], c', ctx) == Step(last, c', ctx);
      StepGrowth(last, c', ctx);
    }
  }

  /** The library reads OP_0 as a push of nothing. */
  const PUSH: Item := Item(0x00, Some([]))

  function Pushes(k: nat): seq<Item> {
    if k == 0 then [] else Pushes(k - 1) + [PUSH]
  }

  function Empties(k: nat): (m: seq<Element>)
    ensures |m| == k
  {
    if k == 0 then [] else Empties(k - 1) + [[]]
  }

  lemma {:induction false} RunPushes(k: nat, s: Stacks, ops: nat, ctx: Context)
    ensures Run(Pushes(k), Config(s, [], ops), ctx) == Ok(Config(Stacks(s.main + Empties(k), s.alt), [], ops))
  {
    if k == 0 {
      assert s.main + [] == s.main;
    } else {
      RunPushes(k - 1, s, ops, ctx);
      RunAppend(Pushes(k - 1), [PUSH], Config(s, [], ops), ctx);
      var c := Config(Stacks(s.main + Empties(k - 1), s.alt), [], ops);
      assert [PUSH] + [] == [PUSH];
      RunCons(PUSH, [], c, ctx);
      Assoc(s.main, Empties(k - 1), [[]]);
    }
  }

  lemma UnguardedPush(items: seq<Item>)
    ensures Unguarded(items + [PUSH]) == 1 + Unguarded(items)
  {
    assert (items + [PUSH])[..|items|] == items;
  }

  lemma {:induction false} UnguardedPushes(front: seq<Item>, k: nat)
    requires front != [] && front[|front| - 1].data.None?
    ensures Unguarded(front + Pushes(k)) == k
  {
    if k == 0 {
      assert front + [] == front;
    } else {
      UnguardedPushes(front, k - 1);
      UnguardedPush(front + Pushes(k - 1));
      Assoc(front, Pushes(k - 1), [PUSH]);
    }
  }

  /** Fill the stack, duplicate the top three, go on pushing. */
  function Fullest(k: nat): seq<Item> {
    (Pushes(MAX_STACK_SIZE) + [Item(OP_3DUP, None)]) + Pushes(k)
  }

  /** The bound is reached from empty stacks for every number of trailing pushes, so 1000 is passed. */
  lemma StacksBoundReached(k: nat, ctx: Context)
    ensures Unguarded(Fullest(k)) == k
    ensures var r := Run(Fullest(k), Config(Stacks([], []), [], 0), ctx);
      r.Ok? && Size(r.value.stacks) == MAX_STACK_SIZE + 3 + k
  {
    var dup, full := Item(OP_3DUP, None), Stacks([] + Empties(MAX_STACK_SIZE), []);
    var start, c := Config(Stacks([], []), [], 0), Config(full, [], 0);
    var front := Pushes(MAX_STACK_SIZE) + [dup];
    UnguardedPushes(front, k);
    RunPushes(MAX_STACK_SIZE, start.stacks, 0, ctx);
    RunAppend(Pushes(MAX_STACK_SIZE), [dup], start, ctx);
    assert [dup] + [] == [dup];
    RunCons(dup, [], c, ctx);
    TripleGrows(full, ctx);
    var c' := Step(dup, c, ctx).value;
    RunAppend(front, Pushes(k), start, ctx);
    RunPushes(k, c'.stacks, c'.ops, ctx);
  }

  lemma TripleGrows(s: Stacks, ctx: Context)
    requires |s.main| == MAX_STACK_SIZE && s.alt == []
    ensures var r := Step(Item(OP_3DUP, None), Config(s, [], 0), ctx);
      r.Ok? && Size(r.value.stacks) == MAX_STACK_SIZE + 3 && r.value.cond == []
  {
  }

  // ---------------------------------------------------------------------------
  // Element size
  // ---------------------------------------------------------------------------

  predicate Within(m: seq<Element>, limit: nat) {
    forall e :: e in m ==> |e| <= limit
  }

  predicate AllWithin(s: Stacks, limit: nat) {
    Within(s.main, limit) && Within(s.alt, limit)
  }

  /** A sum or difference is at most one byte longer than the longer operand. */
  lemma SumLength(x: Element, y: Element, v: int, limit: nat)
    requires |x| <= limit && |y| <= limit && limit >= 1
    requires Abs(v) <= Abs(Decode(x)) + Abs(Decode(y))
    ensures |Encode(v)| <= limit + 1
  {
    Reach(x, limit);
    Reach(y, limit);
    ShiftAdd(limit - 1, 128, 128);
    ShiftByte(limit - 1, 1);
    ShiftMonotone(limit, 1, 128);
    EncodeLength(v, limit + 1);
  }

  lemma Reach(x: Element, limit: nat)
    requires |x| <= limit && limit >= 1
    ensures Abs(Decode(x)) < Shift(limit - 1, 128)
  {
    DecodeRoundTrip(x);
    EncodeLength(Decode(x), limit);
  }

  /** Re-encoding a value no larger than an operand's stays within the operand's bound. */
  lemma NoLonger(x: Element, v: int, limit: nat)
    requires |x| <= limit && limit >= 1 && Abs(v) <= Abs(Decode(x))
    ensures |Encode(v)| <= limit
  {
    Reach(x, limit);
    EncodeLength(v, limit);
  }

  lemma SmallNumber(v: int)
    requires Abs(v) < 32768
    ensures |Encode(v)| <= 2
  {
    assert Shift(1, 128) == 32768;
    EncodeLength(v, 2);
  }

  lemma OneMoreOrLess(x: Element, d: int, limit: nat)
    requires limit >= 2 && |x| <= limit && (d == 1 || d == -1)
    ensures |Encode(Decode(x) + d)| <= limit + 1
  {
    EncodeRoundTrip(1);
    SmallNumber(1);
    SumLength(x, Encode(1), Decode(x) + d, limit);
  }

  lemma UnaryWithin(op: Byte, x: Element, limit: nat)
    requires 2 <= limit < 32768 && |x| <= limit && Unary(op, x).Ok?
    ensures Within(Unary(op, x).value, limit + 1)
  {
    if op == OP_SIZE {
      SmallNumber(|x|);
    } else if op == OP_1ADD {
      OneMoreOrLess(x, 1, limit);
    } else if op == OP_1SUB {
      OneMoreOrLess(x, -1, limit);
    } else if op == OP_NEGATE {
      NoLonger(x, -Decode(x), limit);
    } else if op == OP_ABS {
      NoLonger(x, Abs(Decode(x)), limit);
    }
  }

  lemma BinaryWithin(op: Byte, x: Element, y: Element, limit: nat)
    requires 1 <= limit && |x| <= limit && |y| <= limit && Binary(op, x, y).Ok?
    ensures Within(Binary(op, x, y).value, limit + 1)
  {
    if op == OP_ADD || op == OP_SUB {
      SumLength(x, y, if op == OP_ADD then Decode(x) + Decode(y) else Decode(x) - Decode(y), limit);
    } else if op == OP_MIN || op == OP_MAX {
      NoLonger(x, Decode(x), limit);
      NoLonger(y, Decode(y), limit);
    }
  }

  lemma TableWithin(op: Byte, s: Stacks, limit: nat)
    requires 2 <= limit < 32768
    requires Arity(op) > 0 && AllWithin(s, limit) && Table(op, s).Ok?
    ensures AllWithin(Table(op, s).value, limit + 1)
  {
    var a := s.main[|s.main| - Arity(op)..];
    assert forall i :: 0 <= i < |a| ==> a[i] in s.main;
    if |a| == 1 {
      UnaryWithin(op, a[0], limit);
    } else if |a| == 2 {
      BinaryWithin(op, a[0], a[1], limit);
    }
  }

  /** What an operation leaves of the stack, with its answer on top. */
  lemma AnswerWithin(m: seq<Element>, rest: seq<Element>, answer: bool, limit: nat)
    requires limit >= 1 && Within(m, limit) && rest <= m
    ensures Within(rest + [BoolElement(answer)], limit)
  {
    assert forall e :: e in rest ==> e in m;
  }

  lemma CheckSigWithin(m: seq<Element>, ctx: Context, limit: nat)
    requires ctx.tx.Some? && limit >= 1 && Within(m, limit) && CheckSig(m, ctx).Ok?
    ensures Within(CheckSig(m, ctx).value, limit)
  {
    AnswerWithin(m, Below(Below(m)), ctx.Verifies(Top(Below(m)), Top(m)), limit);
  }

  lemma PopCountedLeaves(m: seq<Element>)
    requires PopCounted(m).Ok?
    ensures PopCounted(m).value.0 <= m
  {
  }

  lemma MultiSigWithin(m: seq<Element>, ctx: Context, limit: nat)
    requires ctx.tx.Some? && limit >= 1 && Within(m, limit) && MultiSig(m, ctx).Ok?
    ensures Within(MultiSig(m, ctx).value, limit)
  {
    var (m1, keys) := PopCounted(m).value;
    var (m2, sigs) := PopCounted(m1).value;
    PopCountedLeaves(m);
    PopCountedLeaves(m1);
    AnswerWithin(m, Below(m2), Greedy(sigs, keys, ctx), limit);
  }

  lemma SigOpWithin(op: Byte, m: seq<Element>, ctx: Context, limit: nat)
    requires ctx.tx.Some? && limit >= 1 && Within(m, limit) && SigOp(op, m, ctx).Ok?
    ensures Within(SigOp(op, m, ctx).value, limit)
  {
    if op == OP_CHECKSIG || op == OP_CHECKSIGVERIFY {
      CheckSigWithin(m, ctx, limit);
    } else {
      MultiSigWithin(m, ctx, limit);
    }
  }

  lemma PickRollWithin(m: seq<Element>, limit: nat)
    requires Within(m, limit)
    ensures Pick(m).Ok? ==> Within(Pick(m).value, limit)
    ensures Roll(m).Ok? ==> Within(Roll(m).value, limit)
  {
  }

  lemma MoveWithin(from: seq<Element>, to: seq<Element>, limit: nat)
    requires Within(from, limit) && Within(to, limit)
    ensures from != [] ==> Within(Below(from), limit) && Within(to + [Top(from)], limit)
  {
  }

  lemma ExecuteWithin(op: Byte, s: Stacks, ctx: Context, limit: nat)
    requires FixedLengths(ctx.lib) && 32 <= limit < 32768
    requires AllWithin(s, limit) && |s.main| <= MAX_STACK_SIZE && Execute(op, s, ctx).Ok?
    ensures AllWithin(Execute(op, s, ctx).value, limit + 1)
  {
    if OP_CHECKSIG <= op <= OP_CHECKMULTISIGVERIFY {
      SigOpWithin(op, s.main, ctx, limit);
    } else if Arity(op) > 0 {
      TableWithin(op, s, limit);
    } else if op == OP_DEPTH {
      SmallNumber(|s.main|);
    } else if op == OP_PICK || op == OP_ROLL {
      PickRollWithin(s.main, limit);
    } else {
      MoveWithin(s.main, s.alt, limit);
      MoveWithin(s.alt, s.main, limit);
    }
  }

  /** One byte per counted opcode. */
  function Limit(ops: nat): nat {
    MAX_ELEMENT_SIZE + ops
  }

  lemma LiveWithin(op: Byte, s: Stacks, ctx: Context, limit: nat)
    requires FixedLengths(ctx.lib) && 32 <= limit < 32768
    requires AllWithin(s, limit) && |s.main| <= MAX_STACK_SIZE && Live(op, s, ctx).Ok?
    ensures AllWithin(Live(op, s, ctx).value, if op > OP_16 then limit + 1 else limit)
  {
    if op == OP_1NEGATE {
      SmallNumber(-1);
    } else if OP_1 <= op <= OP_16 {
      SmallNumber(op as int - 0x50);
    } else {
      ExecuteWithin(op, s, ctx, limit);
    }
  }

  lemma StepWithin(item: Item, c: Config, ctx: Context)
    requires FixedLengths(ctx.lib) && c.ops <= MAX_OPS_PER_SCRIPT
    requires AllWithin(c.stacks, Limit(c.ops)) && Step(item, c, ctx).Ok?
    ensures AllWithin(Step(item, c, ctx).value.stacks, Limit(Step(item, c, ctx).value.ops))
  {
    if item.data.None? && Live(item.opcode, c.stacks, ctx).Ok? {
      if Size(c.stacks) <= MAX_STACK_SIZE {
        LiveWithin(item.opcode, c.stacks, ctx, Limit(c.ops));
      }
    }
  }

  /** From elements of at most 520 bytes no run makes one of more than 721. */
  lemma {:induction false} ElementsBounded(items: seq<Item>, c: Config, ctx: Context)
    requires FixedLengths(ctx.lib) && c.ops <= MAX_OPS_PER_SCRIPT
    requires AllWithin(c.stacks, Limit(c.ops)) && Run(items, c, ctx).Ok?
    ensures var c' := Run(items, c, ctx).value;
      AllWithin(c'.stacks, Limit(c'.ops)) && Limit(c'.ops) <= 721
  {
    if items != [] {
      StepWithin(items[0], c, ctx);
      OpcodesCounted(items, c, ctx);
      ElementsBounded(items[1..], Step(items[0], c, ctx).value, ctx);
    }
  }
}
