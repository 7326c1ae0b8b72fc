/**
 What a script does, as functions on values. Every opcode with a fixed number of
 operands is one row of a table: how many elements it takes, what it puts back.
 */
module Semantics {
  import opened ByteStrings
  import opened ScriptNumbers
  import opened Stack

  const OP_1NEGATE: Byte := 0x4F
  const OP_1: Byte := 0x51
  const OP_16: Byte := 0x60
  const OP_IF: Byte := 0x63
  const OP_NOTIF: Byte := 0x64
  const OP_ELSE: Byte := 0x67
  const OP_ENDIF: Byte := 0x68
  const OP_VERIFY: Byte := 0x69
  const OP_TOALTSTACK: Byte := 0x6B
  const OP_FROMALTSTACK: Byte := 0x6C
  const OP_2DROP: Byte := 0x6D
  const OP_2DUP: Byte := 0x6E
  const OP_3DUP: Byte := 0x6F
  const OP_2OVER: Byte := 0x70
  const OP_2ROT: Byte := 0x71
  const OP_2SWAP: Byte := 0x72
  const OP_IFDUP: Byte := 0x73
  const OP_DEPTH: Byte := 0x74
  const OP_DROP: Byte := 0x75
  const OP_DUP: Byte := 0x76
  const OP_NIP: Byte := 0x77
  const OP_OVER: Byte := 0x78
  const OP_PICK: Byte := 0x79
  const OP_ROLL: Byte := 0x7A
  const OP_ROT: Byte := 0x7B
  const OP_SWAP: Byte := 0x7C
  const OP_TUCK: Byte := 0x7D
  const OP_SIZE: Byte := 0x82
  const OP_EQUAL: Byte := 0x87
  const OP_EQUALVERIFY: Byte := 0x88
  const OP_1ADD: Byte := 0x8B
  const OP_1SUB: Byte := 0x8C
  const OP_NEGATE: Byte := 0x8F
  const OP_ABS: Byte := 0x90
  const OP_NOT: Byte := 0x91
  const OP_0NOTEQUAL: Byte := 0x92
  const OP_ADD: Byte := 0x93
  const OP_SUB: Byte := 0x94
  const OP_BOOLAND: Byte := 0x9A
  const OP_BOOLOR: Byte := 0x9B
  const OP_NUMEQUAL: Byte := 0x9C
  const OP_NUMEQUALVERIFY: Byte := 0x9D
  const OP_NUMNOTEQUAL: Byte := 0x9E
  const OP_LESSTHAN: Byte := 0x9F
  const OP_GREATERTHAN: Byte := 0xA0
  const OP_LESSTHANOREQUAL: Byte := 0xA1
  const OP_GREATERTHANOREQUAL: Byte := 0xA2
  const OP_MIN: Byte := 0xA3
  const OP_MAX: Byte := 0xA4
  const OP_WITHIN: Byte := 0xA5
  const OP_RIPEMD160: Byte := 0xA6
  const OP_SHA1: Byte := 0xA7
  const OP_SHA256: Byte := 0xA8
  const OP_HASH160: Byte := 0xA9
  const OP_HASH256: Byte := 0xAA
  const OP_CODESEPARATOR: Byte := 0xAB
  const OP_CHECKSIG: Byte := 0xAC
  const OP_CHECKSIGVERIFY: Byte := 0xAD
  const OP_CHECKMULTISIG: Byte := 0xAE
  const OP_CHECKMULTISIGVERIFY: Byte := 0xAF
  const OP_CHECKLOCKTIMEVERIFY: Byte := 0xB1
  const OP_CHECKSEQUENCEVERIFY: Byte := 0xB2

  const MAX_SCRIPT_SIZE := 10_000
  const MAX_OPS_PER_SCRIPT := 201
  const MAX_STACK_SIZE := 1_000
  const MAX_ELEMENT_SIZE := 520

  predicate IsNop(op: Byte) {
    op == 0x61 || op == 0xB0 || 0xB3 <= op <= 0xB9
  }

  /** Opcodes that fail as invalid when executed: always-invalid, OP_RETURN, reserved. */
  predicate IsInvalid(op: Byte) {
    op == 0x65 || op == 0x66 || op == 0x6A || op == 0x50 || op == 0x62 || op == 0x89 || op == 0x8A
  }

  predicate IsDisabled(op: Byte) {
    0x7E <= op <= 0x81 || 0x83 <= op <= 0x86 || op == 0x8D || op == 0x8E || 0x95 <= op <= 0x99
  }

  // ---------------------------------------------------------------------------
  // The libraries
  // ---------------------------------------------------------------------------

  /** One step of the library's script iterator: an opcode, with data if it pushes. */
  datatype Item = Item(opcode: Byte, data: Option<Bytes>)

  /** What iterating over a script yields, and whether it ends by raising. */
  datatype Parsed = Parsed(items: seq<Item>, truncated: bool)

  /**
   The functions the engine takes from libraries. `signatureHash` maps script
   code, transaction, input index, hash type and, for SegWit v0, the amount to a
   digest, or nothing when it raises; `ecdsa` takes public key, digest and DER
   signature and is false when the library raises.
   */
  datatype Library = Library(
    parse: Bytes -> Parsed,
    ripemd160: Bytes -> Bytes,
    sha1: Bytes -> Bytes,
    sha256: Bytes -> Bytes,
    signatureHash: (Bytes, Bytes, int, Byte, Option<int>) -> Option<Bytes>,
    ecdsa: (Bytes, Bytes, Bytes) -> bool)

  /** Digests have the lengths their algorithms give them. */
  ghost predicate FixedLengths(lib: Library) {
    && (forall b :: |lib.ripemd160(b)| == 20)
    && (forall b :: |lib.sha1(b)| == 20)
    && (forall b :: |lib.sha256(b)| == 32)
  }

  /** What a signature opcode sees besides the stack. */
  datatype Context = Context(
    lib: Library, tx: Option<Bytes>, inputIndex: int, inputValue: int, scriptCode: Bytes, witnessV0: bool)
  {
    /** The check behind CHECKSIG and each pair of CHECKMULTISIG; an empty signature fails. */
    predicate Verifies(sig: Bytes, pubkey: Bytes)
      requires tx.Some?
    {
      && sig != []
      && var digest := lib.signatureHash(
           scriptCode, tx.value, inputIndex, sig[|sig| - 1], if witnessV0 then Some(inputValue) else None);
         digest.Some? && lib.ecdsa(pubkey, digest.value, sig[..|sig| - 1])
    }
  }

  function Hash160(lib: Library, b: Bytes): Bytes {
    lib.ripemd160(lib.sha256(b))
  }

  function BoolElement(b: bool): Element {
    if b then [0x01] else []
  }

  predicate Truthy(e: Element) {
    Decode(e) != 0
  }

  // ---------------------------------------------------------------------------
  // Opcodes with a fixed number of operands
  // ---------------------------------------------------------------------------

  /** How many elements the opcode takes off the main stack; 0 if it is not in the table. */
  function Arity(op: Byte): nat {
    if op == OP_VERIFY || op == OP_IFDUP || op == OP_DROP || op == OP_DUP || op == OP_SIZE || op == OP_1ADD
       || op == OP_1SUB || OP_NEGATE <= op <= OP_0NOTEQUAL then 1
    else if op == OP_2DROP || op == OP_2DUP || op == OP_NIP || op == OP_OVER || op == OP_SWAP || op == OP_TUCK
            || op == OP_EQUAL || op == OP_EQUALVERIFY || op == OP_ADD || op == OP_SUB
            || OP_BOOLAND <= op <= OP_MAX then 2
    else if op == OP_3DUP || op == OP_ROT || op == OP_WITHIN then 3
    else if op == OP_2OVER || op == OP_2SWAP then 4
    else if op == OP_2ROT then 6
    else 0
  }

  function Verify(truth: bool): Result<seq<Element>> {
    if truth then Ok([]) else Err(VerifyFailed)
  }

  function Unary(op: Byte, x: Element): Result<seq<Element>> {
    if op == OP_VERIFY then Verify(Truthy(x))
    else if op == OP_IFDUP then Ok(if Truthy(x) then [x, x] else [x])
    else if op == OP_DROP then Ok([])
    else if op == OP_DUP then Ok([x, x])
    else if op == OP_SIZE then Ok([x, Encode(|x|)])
    else if op == OP_1ADD then Ok([Encode(Decode(x) + 1)])
    else if op == OP_1SUB then Ok([Encode(Decode(x) - 1)])
    else if op == OP_NEGATE then Ok([Encode(-Decode(x))])
    else if op == OP_ABS then Ok([Encode(Abs(Decode(x)))])
    else if op == OP_NOT then Ok([BoolElement(!Truthy(x))])
    else Ok([BoolElement(Truthy(x))])
  }

  /** The test a two-operand comparison makes, first operand below the second. */
  predicate Compares(op: Byte, x: Element, y: Element) {
    var a, b := Decode(x), Decode(y);
    if op == OP_EQUAL || op == OP_EQUALVERIFY then x == y
    else if op == OP_BOOLAND then a != 0 && b != 0
    else if op == OP_BOOLOR then a != 0 || b != 0
    else if op == OP_NUMEQUAL || op == OP_NUMEQUALVERIFY then a == b
    else if op == OP_NUMNOTEQUAL then a != b
    else if op == OP_LESSTHAN then a < b
    else if op == OP_GREATERTHAN then a > b
    else if op == OP_LESSTHANOREQUAL then a <= b
    else a >= b
  }

  function Binary(op: Byte, x: Element, y: Element): Result<seq<Element>> {
    if op == OP_2DROP then Ok([])
    else if op == OP_2DUP then Ok([x, y, x, y])
    else if op == OP_NIP then Ok([y])
    else if op == OP_OVER then Ok([x, y, x])
    else if op == OP_SWAP then Ok([y, x])
    else if op == OP_TUCK then Ok([y, x, y])
    else if op == OP_ADD then Ok([Encode(Decode(x) + Decode(y))])
    else if op == OP_SUB then Ok([Encode(Decode(x) - Decode(y))])
    else if op == OP_MIN then Ok([Encode(if Decode(y) < Decode(x) then Decode(y) else Decode(x))])
    else if op == OP_MAX then Ok([Encode(if Decode(y) > Decode(x) then Decode(y) else Decode(x))])
    else if op == OP_EQUALVERIFY || op == OP_NUMEQUALVERIFY then Verify(Compares(op, x, y))
    else Ok([BoolElement(Compares(op, x, y))])
  }

  /** What the opcode puts back for the operands it took, bottom first. */
  function Produce(op: Byte, a: seq<Element>): Result<seq<Element>>
    requires |a| == Arity(op) > 0
  {
    if |a| == 1 then Unary(op, a[0])
    else if |a| == 2 then Binary(op, a[0], a[1])
    else if op == OP_3DUP then Ok(a + a)
    else if op == OP_ROT then Ok([a[1], a[2], a[0]])
    else if op == OP_WITHIN then Ok([BoolElement(Decode(a[1]) <= Decode(a[0]) < Decode(a[2]))])
    else if op == OP_2OVER then Ok(a + [a[0], a[1]])
    else if op == OP_2SWAP then Ok([a[2], a[3], a[0], a[1]])
    else Ok([a[2], a[3], a[4], a[5], a[0], a[1]])
  }

  /** Replace the operands by what they produce. */
  function Table(op: Byte, s: Stacks): Result<Stacks>
    requires Arity(op) > 0
  {
    var n := |s.main| - Arity(op);
    if n < 0 then Err(StackUnderflow)
    else
      match Produce(op, s.main[n..])
      case Err(e) => Err(e)
      case Ok(made) => Ok(s.(main := s.main[..n] + made))
  }

  function Digest(op: Byte, x: Element, lib: Library): Element {
    if op == OP_RIPEMD160 then lib.ripemd160(x)
    else if op == OP_SHA1 then lib.sha1(x)
    else if op == OP_SHA256 then lib.sha256(x)
    else if op == OP_HASH160 then Hash160(lib, x)
    else lib.sha256(lib.sha256(x))
  }

  function HashTop(op: Byte, m: seq<Element>, lib: Library): Result<seq<Element>> {
    if m == [] then Err(StackUnderflow) else Ok(Below(m) + [Digest(op, Top(m), lib)])
  }

  // ---------------------------------------------------------------------------
  // Opcodes whose reach depends on the stack
  // ---------------------------------------------------------------------------

  /** A negative count indexes from the bottom, as Python does. */
  function Pick(m: seq<Element>): Result<seq<Element>> {
    if m == [] then Err(StackUnderflow)
    else
      match At(Below(m), -(Decode(Top(m)) + 1))
      case Err(e) => Err(e)
      case Ok(x) => Ok(Below(m) + [x])
  }

  function RemoveAt(m: seq<Element>, k: nat): seq<Element>
    requires k < |m|
  {
    m[..k] + m[k + 1..]
  }

  /** A count past the bottom wraps round once; any other bad count raises an index error. */
  function Roll(m: seq<Element>): Result<seq<Element>> {
    if m == [] then Err(StackUnderflow)
    else
      var rest := Below(m);
      var idx := |rest| - 1 - Decode(Top(m));
      if 0 <= idx < |rest| then Ok(RemoveAt(rest, idx) + [rest[idx]])
      else if -|rest| <= idx < 0 then Ok(RemoveAt(rest, |rest| + idx) + [rest[|rest| + idx]])
      else Err(ScriptInvalid)
  }

  function Reverse(s: seq<Element>): seq<Element> {
    if s == [] then [] else [Top(s)] + Reverse(Below(s))
  }

  /** Pop a count and then that many elements, top first; a negative count pops none. */
  function PopCounted(m: seq<Element>): Result<(seq<Element>, seq<Element>)> {
    if m == [] then Err(StackUnderflow)
    else
      var count := Decode(Top(m));
      var n := if count < 0 then 0 else count;
      var rest := Below(m);
      if n > |rest| then Err(StackUnderflow)
      else Ok((rest[..|rest| - n], Reverse(rest[|rest| - n..])))
  }

  /** The greedy pass: each signature takes the first key left that it verifies under. */
  predicate Greedy(sigs: seq<Bytes>, keys: seq<Bytes>, ctx: Context)
    requires ctx.tx.Some?
    decreases |keys|, |sigs|
  {
    if sigs == [] then true
    else if keys == [] then false
    else if ctx.Verifies(sigs[0], keys[0]) then Greedy(sigs[1..], keys[1..], ctx)
    else Greedy(sigs, keys[1..], ctx)
  }

  function MultiSig(m: seq<Element>, ctx: Context): Result<seq<Element>>
    requires ctx.tx.Some?
  {
    match PopCounted(m)
    case Err(e) => Err(e)
    case Ok((m1, keys)) =>
      match PopCounted(m1)
      case Err(e) => Err(e)
      case Ok((m2, sigs)) =>
        if m2 == [] then Err(StackUnderflow)
        else Ok(Below(m2) + [BoolElement(Greedy(sigs, keys, ctx))])
  }

  function CheckSig(m: seq<Element>, ctx: Context): Result<seq<Element>>
    requires ctx.tx.Some?
  {
    if |m| < 2 then Err(StackUnderflow)
    else Ok(Below(Below(m)) + [BoolElement(ctx.Verifies(Top(Below(m)), Top(m)))])
  }

  /** Pop the top and fail unless it is true. */
  function ThenVerify(r: Result<seq<Element>>): Result<seq<Element>> {
    match r
    case Err(e) => Err(e)
    case Ok(m) =>
      if m == [] then Err(StackUnderflow)
      else if Truthy(Top(m)) then Ok(Below(m))
      else Err(VerifyFailed)
  }

  function SigOp(op: Byte, m: seq<Element>, ctx: Context): Result<seq<Element>>
    requires ctx.tx.Some?
  {
    if op == OP_CHECKSIG then CheckSig(m, ctx)
    else if op == OP_CHECKSIGVERIFY then ThenVerify(CheckSig(m, ctx))
    else if op == OP_CHECKMULTISIG then MultiSig(m, ctx)
    else ThenVerify(MultiSig(m, ctx))
  }

  function OnMain(s: Stacks, r: Result<seq<Element>>): Result<Stacks> {
    match r
    case Err(e) => Err(e)
    case Ok(m) => Ok(s.(main := m))
  }

  /** One executed opcode that is neither a push nor control flow. */
  function Execute(op: Byte, s: Stacks, ctx: Context): Result<Stacks> {
    if IsInvalid(op) then Err(ScriptInvalid)
    else if IsNop(op) || op == OP_CODESEPARATOR then Ok(s)
    else if op == OP_TOALTSTACK then
      if s.main == [] then Err(StackUnderflow) else Ok(Stacks(Below(s.main), s.alt + [Top(s.main)]))
    else if op == OP_FROMALTSTACK then
      if s.alt == [] then Err(StackUnderflow) else Ok(Stacks(s.main + [Top(s.alt)], Below(s.alt)))
    else if op == OP_CHECKLOCKTIMEVERIFY || op == OP_CHECKSEQUENCEVERIFY then
      if s.main == [] then Err(VerifyFailed) else Ok(s)
    else if OP_CHECKSIG <= op <= OP_CHECKMULTISIGVERIFY then
      if ctx.tx.None? then Err(ScriptInvalid) else OnMain(s, SigOp(op, s.main, ctx))
    else if IsDisabled(op) then Err(OpDisabled)
    else Handle(op, s, ctx.lib)
  }

  /** The dispatch table; an opcode without a handler is invalid. */
  function Handle(op: Byte, s: Stacks, lib: Library): Result<Stacks> {
    if Arity(op) > 0 then Table(op, s)
    else if OP_RIPEMD160 <= op <= OP_HASH256 then OnMain(s, HashTop(op, s.main, lib))
    else if op == OP_DEPTH then Ok(s.(main := s.main + [Encode(|s.main|)]))
    else if op == OP_PICK then OnMain(s, Pick(s.main))
    else if op == OP_ROLL then OnMain(s, Roll(s.main))
    else Err(ScriptInvalid)
  }

  // ---------------------------------------------------------------------------
  // Whole scripts
  // ---------------------------------------------------------------------------

  /** The state of the execution loop between two items. */
  datatype Config = Config(stacks: Stacks, cond: seq<bool>, ops: nat)

  predicate Executing(cond: seq<bool>) {
    forall b :: b in cond ==> b
  }

  function Size(s: Stacks): nat {
    |s.main| + |s.alt|
  }

  function Push(s: Stacks, e: Element): Stacks {
    s.(main := s.main + [e])
  }

  function Counted(opcode: Byte, ops: nat): nat {
    if opcode > OP_16 then ops + 1 else ops
  }

  /** The op counter, then the stack-size guard. */
  function Guard(opcode: Byte, s: Stacks, ops: nat): Result<nat> {
    var ops' := Counted(opcode, ops);
    if opcode > OP_16 && ops' > MAX_OPS_PER_SCRIPT then Err(OpCount)
    else if Size(s) > MAX_STACK_SIZE then Err(StackSize)
    else Ok(ops')
  }

  /** Pop the condition of an executing IF or NOTIF. */
  function PopCondition(opcode: Byte, s: Stacks): Result<(Stacks, bool)> {
    if s.main == [] then Err(StackUnderflow)
    else
      var truth := Truthy(Top(s.main));
      Ok((s.(main := Below(s.main)), if opcode == OP_IF then truth else !truth))
  }

  /** An opcode outside control flow, in a live branch. */
  function Live(opcode: Byte, s: Stacks, ctx: Context): Result<Stacks> {
    if opcode == OP_1NEGATE then Ok(Push(s, Encode(-1)))
    else if OP_1 <= opcode <= OP_16 then Ok(Push(s, Encode(opcode as int - 0x50)))
    else Execute(opcode, s, ctx)
  }

  /** A data push: skipped in a dead branch, and never counted or guarded. */
  function PushData(data: Bytes, executing: bool, s: Stacks): Result<Stacks> {
    if !executing then Ok(s)
    else if |data| > MAX_ELEMENT_SIZE then Err(PushSize)
    else Ok(Push(s, data))
  }

  function Step(item: Item, c: Config, ctx: Context): Result<Config> {
    var executing := Executing(c.cond);
    if item.data.Some? then
      match PushData(item.data.value, executing, c.stacks)
      case Err(e) => Err(e)
      case Ok(s) => Ok(c.(stacks := s))
    else
      match Guard(item.opcode, c.stacks, c.ops)
      case Err(e) => Err(e)
      case Ok(ops) =>
        if item.opcode == OP_IF || item.opcode == OP_NOTIF then
          if !executing then Ok(Config(c.stacks, c.cond + [false], ops))
          else
            match PopCondition(item.opcode, c.stacks)
            case Err(e) => Err(e)
            case Ok((s, val)) => Ok(Config(s, c.cond + [val], ops))
        else if item.opcode == OP_ELSE then
          if c.cond == [] then Err(Unbalanced)
          else
            var outer, top := c.cond[..|c.cond| - 1], c.cond[|c.cond| - 1];
            Ok(Config(c.stacks, if Executing(outer) then outer + [!top] else c.cond, ops))
        else if item.opcode == OP_ENDIF then
          if c.cond == [] then Err(Unbalanced)
          else Ok(Config(c.stacks, c.cond[..|c.cond| - 1], ops))
        else if !executing then Ok(c.(ops := ops))
        else
          match Live(item.opcode, c.stacks, ctx)
          case Err(e) => Err(e)
          case Ok(s) => Ok(Config(s, c.cond, ops))
  }

  function Run(items: seq<Item>, c: Config, ctx: Context): Result<Config> {
    if items == [] then Ok(c)
    else
      match Step(items[0], c, ctx)
      case Err(e) => Err(e)
      case Ok(c') => Run(items[1..], c', ctx)
  }

  function RunScript(script: Bytes, s: Stacks, ctx: Context): Result<Stacks> {
    if |script| > MAX_SCRIPT_SIZE then Err(ScriptSize)
    else
      var parsed := ctx.lib.parse(script);
      match Run(parsed.items, Config(s, [], 0), ctx)
      case Err(e) => Err(e)
      case Ok(c) =>
        if parsed.truncated then Err(ScriptInvalid)
        else if c.cond != [] then Err(Unbalanced)
        else Ok(c.stacks)
  }

  /** Go on with more items unless already stopped. */
  function Continue(r: Result<Config>, items: seq<Item>, ctx: Context): Result<Config> {
    if r.Err? then r else Run(items, r.value, ctx)
  }

  lemma RunCons(item: Item, rest: seq<Item>, c: Config, ctx: Context)
    ensures Run([item] + rest, c, ctx) == Continue(Step(item, c, ctx), rest, ctx)
  {
  }

  /** Running a concatenation is running its parts in turn. */
  lemma {:induction false} RunAppend(a: seq<Item>, b: seq<Item>, c: Config, ctx: Context)
    ensures Run(a + b, c, ctx) == Continue(Run(a, c, ctx), b, ctx)
  {
    if a == [] {
      assert a + b == b;
    } else {
      assert (a + b)[0] == a[0] && (a + b)[1..] == a[1..] + b;
      var r := Step(a[0], c, ctx);
      if r.Ok? {
        RunAppend(a[1..], b, r.value, ctx);
      }
    }
  }
}
